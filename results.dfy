/**
 * The per-image "workflow result" record the server attaches to every
 * pipeline context it returns: a success flag, whether an image was
 * produced, and the detected text regions with their translations.
 */
module Results {
  import opened Wrappers

  /** One detected text region; an attribute the region lacks is `None`. */
  datatype Region = Region(text: Option<string>, translation: Option<string>)

  /** One `{'text': ..., 'translation': ...}` entry of the response. */
  datatype RegionData = RegionData(text: string, translation: string)

  /**
   * The `_workflow_result` dictionary. `hasImage == false` stands for the
   * absent `has_image` key, `textRegions == None` for the absent
   * `text_regions` key.
   */
  datatype WorkflowResult = WorkflowResult(
    success: bool,
    workflow: string,
    hasImage: bool,
    textRegions: Option<seq<RegionData>>)

  /** The rendered image a context holds, by identity only. */
  datatype Raster = Raster(id: nat)

  /** The large intermediate buffers a context may hold. */
  datatype Buffer = ImgRgb | ImgInpainted | ImgRendered | ImgColorized | Mask | MaskRaw

  /**
   * A pipeline context. `success` is `None` when the context has no
   * `success` attribute; `textRegions` is empty when the attribute is
   * missing, `None` or empty, the three cases the server treats alike.
   */
  class Ctx {
    var success: Option<bool>
    var result: Option<Raster>
    var textRegions: seq<Region>
    var buffers: set<Buffer>
    var workflowResult: Option<WorkflowResult>

    /** The streaming cleanup: drops the result image and every intermediate buffer. */
    method ReleaseBuffers()
      modifies this
      ensures result == None && buffers == {}
      ensures success == old(success) && textRegions == old(textRegions)
      ensures workflowResult == old(workflowResult)
    {
      result := None;
      buffers := {};
    }
  }

  /** A region as the response lists it: a missing text or translation becomes `''`. */
  function RegionDataOf(region: Region): RegionData {
    RegionData(region.text.GetOr(""), region.translation.GetOr(""))
  }

  /** The response entries for `regions`, one per region, in the same order. */
  function RegionsData(regions: seq<Region>): (entries: seq<RegionData>)
    ensures |entries| == |regions|
    ensures forall i :: 0 <= i < |regions| ==> entries[i] == RegionDataOf(regions[i])
  {
    if regions == [] then [] else [RegionDataOf(regions[0])] + RegionsData(regions[1..])
  }

  /**
   * The record for a context with the given `success` attribute, result
   * presence and regions, under the named workflow.
   */
  function WorkflowResultOf(success: Option<bool>, hasResult: bool, regions: seq<Region>, workflow: string): (w: WorkflowResult)
    ensures w.success == (if success.Some? then success.value else hasResult)
    ensures w.workflow == workflow
    ensures w.hasImage <==> hasResult
    ensures w.textRegions.Some? <==> regions != []
    ensures w.textRegions.Some? ==> |w.textRegions.value| == |regions|
    ensures w.textRegions.Some? ==>
              forall i :: 0 <= i < |regions| ==>
                w.textRegions.value[i].text == regions[i].text.GetOr("") &&
                w.textRegions.value[i].translation == regions[i].translation.GetOr("")
  {
    WorkflowResult(
      success.GetOr(hasResult),
      workflow,
      hasResult,
      if regions == [] then None else Some(RegionsData(regions)))
  }

  /**
   * Builds the record for `ctx` the way the server does: the flags first,
   * then one entry appended per region.
   */
  method BuildWorkflowResult(ctx: Ctx, workflow: string) returns (w: WorkflowResult)
    ensures w == WorkflowResultOf(ctx.success, ctx.result.Some?, ctx.textRegions, workflow)
  {
    var success := if ctx.success.Some? then ctx.success.value else ctx.result.Some?;
    var hasImage := false;
    if ctx.result.Some? {
      hasImage := true;
    }
    var textRegions: Option<seq<RegionData>> := None;
    var regions := ctx.textRegions;
    if regions != [] {
      var entries: seq<RegionData> := [];
      var i := 0;
      while i < |regions|
        invariant 0 <= i <= |regions|
        invariant |entries| == i
        invariant forall j :: 0 <= j < i ==> entries[j] == RegionDataOf(regions[j])
      {
        var text := if regions[i].text.Some? then regions[i].text.value else "";
        var translation := if regions[i].translation.Some? then regions[i].translation.value else "";
        entries := entries + [RegionData(text, translation)];
        i := i + 1;
      }
      assert entries == RegionsData(regions);
      textRegions := Some(entries);
    }
    w := WorkflowResult(success, workflow, hasImage, textRegions);
  }
}
