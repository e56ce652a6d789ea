/**
 * The two non-streaming endpoints: `get_ctx` translates one image and
 * `get_batch_ctx` a list of them. Both convert their inputs first, derive
 * the pipeline's parameters the non-streaming way, attach the
 * `_workflow_result` record to every context the pipeline returns, and
 * close every image they converted, whatever happens.
 */
module Batch {
  import opened Wrappers
  import Params
  import Results
  import Images
  import Streaming

  /** Why an endpoint raised: an input was rejected with an HTTP status, or the translator or pipeline raised. */
  datatype Error = Rejected(status: int) | Raised

  /** What `translator.translate_batch(...)` does: raise, or return one context per image (possibly `None`). */
  datatype BatchOutcome = BatchRaises | BatchReturns(ctxs: seq<Results.Ctx?>)

  /** The contexts a batch outcome can hand back. */
  function Returned(batch: BatchOutcome): set<object> {
    if batch.BatchReturns? then set c: Results.Ctx? | c in batch.ctxs && c != null :: c else {}
  }

  /** The images given as objects: conversion returns them as they are, and they are closed afterwards. */
  function GivenImages(srcs: seq<Images.ImageSource>): set<object> {
    set i | 0 <= i < |srcs| && srcs[i].PilImage? :: srcs[i].image
  }

  /** `ctx._workflow_result` was set from the context's fields as they were before; nothing else changed. */
  twostate predicate Decorated(ctx: Results.Ctx, workflow: string)
    reads ctx
  {
    && ctx.workflowResult ==
       Some(Results.WorkflowResultOf(old(ctx.success), old(ctx.result).Some?, old(ctx.textRegions), workflow))
    && ctx.success == old(ctx.success) && ctx.result == old(ctx.result)
    && ctx.textRegions == old(ctx.textRegions) && ctx.buffers == old(ctx.buffers)
  }

  /**
   * `get_ctx`: the conversion runs before the `try`, so a rejected input
   * raises before anything else happens; otherwise the parameters are
   * derived, the pipeline runs, the record is attached, and the `finally`
   * block closes the image.
   */
  method GetCtx(src: Images.ImageSource, decodes: bool, cli: Params.Cli, font: Params.FontQuery,
                workflow: string, server: Params.ServerConfig, translatorBuilt: bool,
                pipeline: Streaming.PipelineOutcome)
    returns (r: Result<Results.Ctx, Error>, image: Images.Image?, params: Option<Params.Params>)
    modifies cli, if src.PilImage? then {src.image} else {}, if pipeline.Returns? then {pipeline.ctx} else {}
    ensures r == Err(Rejected(Images.UnprocessableEntity)) <==> !Images.Loads(src, decodes)
    ensures r.Ok? <==> Images.Loads(src, decodes) && translatorBuilt && pipeline.Returns?
    ensures r.Ok? ==> r.value == pipeline.ctx && Decorated(pipeline.ctx, workflow)
    ensures pipeline.Returns? && r.Err? ==> unchanged(pipeline.ctx)
    ensures image != null <==> Images.Loads(src, decodes)
    ensures image != null ==> image.closed && (if src.PilImage? then image == src.image else fresh(image))
    ensures params == if Images.Loads(src, decodes)
                      then Some(Params.TranslatorParams(old(cli.attempts), font, workflow, server, false))
                      else None
    ensures Images.Loads(src, decodes) ==> cli.ServerControlledCleared() && cli.attempts == old(cli.attempts)
    ensures !Images.Loads(src, decodes) ==> unchanged(cli)
  {
    image, params := null, None;
    var converted := Images.ToPilImage(src, decodes);
    if converted.Err? {
      r := Err(Rejected(converted.error));
      return;
    }
    image := converted.value;
    var prepared := Params.PrepareTranslatorParams(cli, font, workflow);
    params := Some(Params.ApplyServerPolicy(prepared, server, false));
    if !translatorBuilt {
      r := Err(Raised);
    } else {
      match pipeline
      case Returns(ctx) =>
        var record := Results.BuildWorkflowResult(ctx, workflow);
        ctx.workflowResult := Some(record);
        r := Ok(ctx);
      case _ =>
        r := Err(Raised);
    }
    image.Close();
  }

  /** How many inputs convert before the first rejected one. */
  function LoadedPrefix(srcs: seq<Images.ImageSource>, decodes: seq<bool>): (n: nat)
    requires |decodes| == |srcs|
    ensures n <= |srcs|
    ensures forall i :: 0 <= i < n ==> Images.Loads(srcs[i], decodes[i])
    ensures n < |srcs| ==> !Images.Loads(srcs[n], decodes[n])
  {
    if srcs == [] then 0
    else if !Images.Loads(srcs[0], decodes[0]) then 0
    else 1 + LoadedPrefix(srcs[1..], decodes[1..])
  }

  /**
   * The conversion loop of `get_batch_ctx`: converts the inputs in order
   * and stops at the first rejected one, keeping the images converted so
   * far.
   */
  method ConvertAll(srcs: seq<Images.ImageSource>, decodes: seq<bool>)
    returns (rejected: Option<int>, images: seq<Images.Image>)
    requires |decodes| == |srcs|
    ensures rejected.Some? <==> LoadedPrefix(srcs, decodes) < |srcs|
    ensures rejected.Some? ==> rejected.value == Images.UnprocessableEntity
    ensures |images| == LoadedPrefix(srcs, decodes)
    ensures forall i :: 0 <= i < |images| ==> if srcs[i].PilImage? then images[i] == srcs[i].image else fresh(images[i])
  {
    rejected, images := None, [];
    var i := 0;
    while i < |srcs|
      invariant 0 <= i <= |srcs|
      invariant |images| == i
      invariant forall j :: 0 <= j < i ==> Images.Loads(srcs[j], decodes[j])
      invariant forall j :: 0 <= j < i ==> if srcs[j].PilImage? then images[j] == srcs[j].image else fresh(images[j])
    {
      var converted := Images.ToPilImage(srcs[i], decodes[i]);
      if converted.Err? {
        rejected := Some(converted.error);
        assert LoadedPrefix(srcs, decodes) == i;
        return;
      }
      images := images + [converted.value];
      i := i + 1;
    }
  }

  /** The cleanup loop of `get_batch_ctx`'s `finally` block: closes every converted image. */
  method CloseAll(images: seq<Images.Image>)
    modifies images`closed
    ensures forall i :: 0 <= i < |images| ==> images[i].closed
  {
    var i := 0;
    while i < |images|
      invariant 0 <= i <= |images|
      invariant forall j :: 0 <= j < i ==> images[j].closed
    {
      images[i].Close();
      i := i + 1;
    }
  }

  /**
   * The loop that attaches `_workflow_result` to every context that is not
   * `None`, in order; a context listed twice gets the same record twice.
   */
  method DecorateAll(ctxs: seq<Results.Ctx?>, workflow: string)
    modifies (set c: Results.Ctx | c in ctxs)`workflowResult
    ensures forall c: Results.Ctx? :: c in ctxs && c != null ==> Decorated(c, workflow)
  {
    var i := 0;
    while i < |ctxs|
      invariant 0 <= i <= |ctxs|
      invariant forall c: Results.Ctx? :: c in ctxs[..i] && c != null ==> Decorated(c, workflow)
      invariant forall c: Results.Ctx? :: c in ctxs && c != null && c !in ctxs[..i] ==> unchanged(c)
    {
      var ctx := ctxs[i];
      assert ctx in ctxs;
      if ctx != null {
        var record := Results.BuildWorkflowResult(ctx, workflow);
        ctx.workflowResult := Some(record);
      }
      assert ctxs[..i + 1] == ctxs[..i] + [ctxs[i]];
      i := i + 1;
    }
    assert ctxs[..i] == ctxs;
  }

  /**
   * `get_batch_ctx`: converts every input (a rejected one raises at once,
   * before the pipeline is built), derives the parameters, runs the
   * pipeline on the whole list, attaches the record to each context it
   * returns, and closes every converted image in the `finally` block.
   */
  method GetBatchCtx(srcs: seq<Images.ImageSource>, decodes: seq<bool>, cli: Params.Cli, font: Params.FontQuery,
                     workflow: string, server: Params.ServerConfig, translatorBuilt: bool, batch: BatchOutcome)
    returns (r: Result<seq<Results.Ctx?>, Error>, images: seq<Images.Image>, params: Option<Params.Params>)
    requires |decodes| == |srcs|
    modifies cli, GivenImages(srcs), Returned(batch)
    ensures r == Err(Rejected(Images.UnprocessableEntity)) <==> LoadedPrefix(srcs, decodes) < |srcs|
    ensures r.Ok? <==> LoadedPrefix(srcs, decodes) == |srcs| && translatorBuilt && batch.BatchReturns?
    ensures r.Ok? ==> r.value == batch.ctxs
    ensures r.Ok? ==> forall c: Results.Ctx? :: c in batch.ctxs && c != null ==> Decorated(c, workflow)
    ensures r.Err? && batch.BatchReturns? ==> forall c: Results.Ctx? :: c in batch.ctxs && c != null ==> unchanged(c)
    ensures |images| == LoadedPrefix(srcs, decodes)
    ensures forall i :: 0 <= i < |images| ==>
              images[i].closed && if srcs[i].PilImage? then images[i] == srcs[i].image else fresh(images[i])
    ensures params == if LoadedPrefix(srcs, decodes) == |srcs|
                      then Some(Params.TranslatorParams(old(cli.attempts), font, workflow, server, false))
                      else None
    ensures LoadedPrefix(srcs, decodes) == |srcs| ==> cli.ServerControlledCleared() && cli.attempts == old(cli.attempts)
    ensures LoadedPrefix(srcs, decodes) < |srcs| ==> unchanged(cli)
    ensures forall i :: 0 <= i < |srcs| && srcs[i].PilImage? && srcs[i].image !in images ==> unchanged(srcs[i].image)
  {
    var rejected;
    rejected, images := ConvertAll(srcs, decodes);
    params := None;
    if rejected.Some? {
      r := Err(Rejected(rejected.value));
      CloseAll(images);
      return;
    }
    var prepared := Params.PrepareTranslatorParams(cli, font, workflow);
    params := Some(Params.ApplyServerPolicy(prepared, server, false));
    if !translatorBuilt {
      r := Err(Raised);
    } else {
      match batch
      case BatchReturns(ctxs) =>
        DecorateAll(ctxs, workflow);
        r := Ok(ctxs);
      case BatchRaises =>
        r := Err(Raised);
    }
    CloseAll(images);
  }
}
