/**
 * The streaming job: `while_streaming` registers a task, then its
 * generator `_do_translation` emits progress frames, checks the task's
 * cancellation flag at three checkpoints, calls the pipeline once, and ends
 * the stream with exactly one terminal outcome, a payload followed by
 * `complete` or a single status-2 error frame. Its `finally` block releases
 * the context's buffers, closes the image and unregisters the task on every
 * path.
 */
module Streaming {
  import opened Wrappers
  import opened Framing
  import Params
  import Results
  import Images
  import Registry

  /** The `stage` of a progress frame, in the order the protocol emits them. */
  datatype Stage =
    | TaskId | Start | ImageLoading | TranslatorInit | Translating
    | TranslateDone | Processing | Transforming | Sending | Complete

  /** The `stage` tag of a status-2 frame. */
  datatype ErrorStage = TranslateFailed | NoResult | TransformFailed | Cancelled | Unknown

  /** A frame as the generator yields it, before `pack_message`. */
  datatype Frame = Progress(stage: Stage) | Payload(data: seq<byte>) | Failure(tag: ErrorStage)

  /** The frame's status byte: 0 payload, 1 progress, 2 error. */
  function Status(f: Frame): byte {
    match f
    case Payload(_) => 0
    case Progress(_) => 1
    case Failure(_) => 2
  }

  function Rank(s: Stage): nat {
    match s
    case TaskId => 0
    case Start => 1
    case ImageLoading => 2
    case TranslatorInit => 3
    case Translating => 4
    case TranslateDone => 5
    case Processing => 6
    case Transforming => 7
    case Sending => 8
    case Complete => 9
  }

  /**
   * The stream protocol: it opens with the task id; a status-2 frame can
   * only be the last frame; a status-0 frame can only be the one right
   * before a last `complete` frame; and the stream ends either with a status-2 frame
   * or with a payload followed by `complete`.
   */
  predicate WellFormed(fs: seq<Frame>) {
    && |fs| >= 2
    && fs[0] == Progress(TaskId)
    && (forall i :: 0 <= i < |fs| - 1 ==> Status(fs[i]) != 2)
    && (forall i :: 0 <= i < |fs| && Status(fs[i]) == 0 ==> i == |fs| - 2 && fs[|fs| - 1] == Progress(Complete))
    && (forall i :: 0 <= i < |fs| - 1 ==> fs[i] != Progress(Complete))
    && (Status(fs[|fs| - 1]) == 2 || (Status(fs[|fs| - 2]) == 0 && fs[|fs| - 1] == Progress(Complete)))
  }

  /** Progress stages appear in protocol order, each at most once. */
  predicate StagesInOrder(fs: seq<Frame>) {
    forall i, j :: 0 <= i < j < |fs| && fs[i].Progress? && fs[j].Progress? ==> Rank(fs[i].stage) < Rank(fs[j].stage)
  }

  /** The cancellation flag as `is_task_cancelled(task_id)` reads it at each checkpoint. */
  datatype Checkpoints = Checkpoints(beforeInit: bool, afterInit: bool, beforeTranslate: bool)

  /** What `translator.translate(...)` does: raise an exception, raise `CancelledError`, or return a context. */
  datatype PipelineOutcome = Raises | RaisesCancelled | Returns(ctx: Results.Ctx)

  /** What `transform(ctx)` does. */
  datatype TransformOutcome = TransformRaises | Transformed(data: seq<byte>)

  /** The pipeline's outcome as the stream sees it: only whether a result image and regions exist matter. */
  datatype Run = RunRaises | RunCancelled | RunReturns(hasResult: bool, hasRegions: bool)

  function RunOf(pipeline: PipelineOutcome): Run
    reads if pipeline.Returns? then {pipeline.ctx} else {}
  {
    match pipeline
    case Raises => RunRaises
    case RaisesCancelled => RunCancelled
    case Returns(ctx) => RunReturns(ctx.result.Some?, ctx.textRegions != [])
  }

  /** No checkpoint saw the cancellation flag. */
  predicate NeverCancelled(cancel: Checkpoints) {
    !cancel.beforeInit && !cancel.afterInit && !cancel.beforeTranslate
  }

  /** The pipeline is called: the image loaded, no checkpoint saw a cancellation and the translator was built. */
  predicate Invoked(loaded: bool, translatorBuilt: bool, cancel: Checkpoints) {
    loaded && NeverCancelled(cancel) && translatorBuilt
  }

  /** The payload frame can be packed: its length fits the 4-byte prefix. */
  predicate Packable(transform: TransformOutcome) {
    transform.Transformed? && |transform.data| < LengthLimit
  }

  /** How a job's stream ends: one error frame, or the payload followed by `complete`. */
  datatype Ending = Fails(tag: ErrorStage) | Delivers(data: seq<byte>)

  /** The terminal outcome of a job. */
  function EndingOf(loaded: bool, translatorBuilt: bool, cancel: Checkpoints, run: Run, transform: TransformOutcome): (e: Ending)
    ensures e.Delivers? <==>
              Invoked(loaded, translatorBuilt, cancel) && run.RunReturns? && run.hasResult && Packable(transform)
    ensures e.Delivers? ==> e.data == transform.data && |e.data| < LengthLimit
    ensures e == Fails(TranslateFailed) <==> Invoked(loaded, translatorBuilt, cancel) && run.RunRaises?
    ensures e == Fails(NoResult) <==> Invoked(loaded, translatorBuilt, cancel) && run.RunReturns? && !run.hasResult
    ensures e == Fails(TransformFailed) <==>
              Invoked(loaded, translatorBuilt, cancel) && run.RunReturns? && run.hasResult && !Packable(transform)
    ensures e == Fails(Cancelled) <==>
              loaded && (cancel.beforeInit || cancel.afterInit || (translatorBuilt && cancel.beforeTranslate) ||
                         (Invoked(loaded, translatorBuilt, cancel) && run.RunCancelled?))
    ensures e == Fails(Unknown) <==> !loaded || (!cancel.beforeInit && !cancel.afterInit && !translatorBuilt)
  {
    if !loaded then Fails(Unknown)
    else if cancel.beforeInit || cancel.afterInit then Fails(Cancelled)
    else if !translatorBuilt then Fails(Unknown)
    else if cancel.beforeTranslate then Fails(Cancelled)
    else
      match run
      case RunRaises => Fails(TranslateFailed)
      case RunCancelled => Fails(Cancelled)
      case RunReturns(hasResult, _) =>
        if !hasResult then Fails(NoResult)
        else if Packable(transform) then Delivers(transform.data)
        else Fails(TransformFailed)
  }

  /** Stages strictly increase in protocol order. */
  predicate Ascending(ss: seq<Stage>) {
    forall i, j :: 0 <= i < j < |ss| ==> Rank(ss[i]) < Rank(ss[j])
  }

  /** The protocol's progress stages before the terminal frames, in order; `processing` only when regions were found. */
  function StageList(withProcessing: bool): seq<Stage> {
    [TaskId, Start, ImageLoading, TranslatorInit, Translating, TranslateDone]
    + (if withProcessing then [Processing] else [])
    + [Transforming, Sending]
  }

  lemma StageListAscending(withProcessing: bool)
    ensures Ascending(StageList(withProcessing))
    ensures Complete !in StageList(withProcessing)
    ensures !withProcessing ==> Processing !in StageList(withProcessing)
  {
    var ss := StageList(withProcessing);
    forall i, j | 0 <= i < j < |ss| ensures Rank(ss[i]) < Rank(ss[j]) {
      assert forall k :: 0 <= k < |ss| ==> Rank(ss[k]) == (if withProcessing || k < 6 then k else k + 1);
    }
  }

  /** In an ascending list, the stage at index `k` is among the first `n` exactly when `k < n`. */
  lemma InPrefix(ss: seq<Stage>, n: nat, k: nat)
    requires Ascending(ss) && n <= |ss| && k < |ss|
    ensures ss[k] in ss[..n] <==> k < n
  {
    if k < n {
      assert ss[..n][k] == ss[k];
    }
  }

  /** Whether the `processing` stage belongs to this job's protocol: the pipeline ran and found regions. */
  predicate FoundRegions(loaded: bool, translatorBuilt: bool, cancel: Checkpoints, run: Run) {
    Invoked(loaded, translatorBuilt, cancel) && run.RunReturns? && run.hasRegions
  }

  /** Which stages a prefix of the protocol's list holds, by its length. */
  lemma PrefixMembers(w: bool, n: nat)
    requires 3 <= n <= |StageList(w)|
    ensures var ss := StageList(w)[..n];
            && ss[0] == TaskId && ss[1] == Start && ss[2] == ImageLoading
            && Ascending(ss) && Complete !in ss
            && (TranslatorInit in ss <==> n > 3)
            && (Translating in ss <==> n > 4)
            && (TranslateDone in ss <==> n > 5)
            && (Processing in ss <==> w && n > 6)
            && (Transforming in ss <==> n > 6 + (if w then 1 else 0))
            && (Sending in ss <==> n > 7 + (if w then 1 else 0))
  {
    var all := StageList(w);
    var extra := if w then 1 else 0;
    StageListAscending(w);
    InPrefix(all, n, 3);
    InPrefix(all, n, 4);
    InPrefix(all, n, 5);
    InPrefix(all, n, 6 + extra);
    InPrefix(all, n, 7 + extra);
    if w {
      InPrefix(all, n, 6);
    }
    assert Ascending(all[..n]);
  }

  /** How many of the protocol's progress stages a job reaches. */
  function StagesReached(loaded: bool, translatorBuilt: bool, cancel: Checkpoints, run: Run, transform: TransformOutcome): (n: nat)
    ensures 3 <= n <= |StageList(FoundRegions(loaded, translatorBuilt, cancel, run))|
    ensures n > 3 <==> loaded && !cancel.beforeInit
    ensures n > 4 <==> loaded && !cancel.beforeInit && !cancel.afterInit && translatorBuilt
    ensures n > 5 <==> Invoked(loaded, translatorBuilt, cancel) && run.RunReturns?
    ensures FoundRegions(loaded, translatorBuilt, cancel, run) ==> n > 6
    ensures var extra := if FoundRegions(loaded, translatorBuilt, cancel, run) then 1 else 0;
            && (n > 6 + extra <==> Invoked(loaded, translatorBuilt, cancel) && run.RunReturns? && run.hasResult)
            && (n > 7 + extra <==>
                  Invoked(loaded, translatorBuilt, cancel) && run.RunReturns? && run.hasResult && transform.Transformed?)
  {
    var extra := if FoundRegions(loaded, translatorBuilt, cancel, run) then 1 else 0;
    if !loaded || cancel.beforeInit then 3
    else if cancel.afterInit || !translatorBuilt then 4
    else if cancel.beforeTranslate || !run.RunReturns? then 5
    else if !run.hasResult then 6 + extra
    else if transform.TransformRaises? then 7 + extra
    else 8 + extra
  }

  /**
   * The progress stages a job emits before its terminal frames: the
   * protocol's list cut where the job stopped.
   */
  function ProgressStages(loaded: bool, translatorBuilt: bool, cancel: Checkpoints, run: Run, transform: TransformOutcome): (ss: seq<Stage>)
    ensures |ss| >= 3 && ss[0] == TaskId && ss[1] == Start && ss[2] == ImageLoading
    ensures Ascending(ss)
    ensures Complete !in ss
    ensures TranslatorInit in ss <==> loaded && !cancel.beforeInit
    ensures Translating in ss <==> loaded && !cancel.beforeInit && !cancel.afterInit && translatorBuilt
    ensures TranslateDone in ss <==> Invoked(loaded, translatorBuilt, cancel) && run.RunReturns?
    ensures Processing in ss <==> Invoked(loaded, translatorBuilt, cancel) && run.RunReturns? && run.hasRegions
    ensures Transforming in ss <==> Invoked(loaded, translatorBuilt, cancel) && run.RunReturns? && run.hasResult
    ensures Sending in ss <==>
              Invoked(loaded, translatorBuilt, cancel) && run.RunReturns? && run.hasResult && transform.Transformed?
  {
    var w := FoundRegions(loaded, translatorBuilt, cancel, run);
    var n := StagesReached(loaded, translatorBuilt, cancel, run, transform);
    PrefixMembers(w, n);
    StageList(w)[..n]
  }

  /** One progress frame per stage, in order. */
  function Progresses(ss: seq<Stage>): (fs: seq<Frame>)
    ensures |fs| == |ss|
    ensures forall i :: 0 <= i < |ss| ==> fs[i] == Progress(ss[i])
  {
    seq(|ss|, i requires 0 <= i < |ss| => Progress(ss[i]))
  }

  /** Emitting one more stage of a list appends its progress frame. */
  lemma ProgressesSnoc(ss: seq<Stage>, k: nat)
    requires k < |ss|
    ensures Progresses(ss[..k + 1]) == Progresses(ss[..k]) + [Progress(ss[k])]
  {
  }

  /** The terminal frames of an ending. */
  function Terminal(e: Ending): seq<Frame> {
    match e
    case Fails(tag) => [Failure(tag)]
    case Delivers(data) => [Payload(data), Progress(Complete)]
  }

  /** Progress frames then an ending's frames follow the stream protocol. */
  lemma EmitWellFormed(ss: seq<Stage>, e: Ending)
    requires |ss| >= 1 && ss[0] == TaskId && Complete !in ss
    ensures var fs := Progresses(ss) + Terminal(e);
            && WellFormed(fs)
            && (forall i :: 0 <= i < |fs| && fs[i].Payload? ==> e.Delivers? && fs[i].data == e.data)
  {
    var fs := Progresses(ss) + Terminal(e);
    assert forall i :: 0 <= i < |ss| ==> fs[i] == Progress(ss[i]);
    assert forall i :: |ss| <= i < |fs| ==> fs[i] == Terminal(e)[i - |ss|];
  }

  /** Progress frames for ascending stages, then an ending's frames: stages in order, and exactly the listed ones. */
  lemma EmitStages(ss: seq<Stage>, e: Ending)
    requires Ascending(ss) && Complete !in ss
    ensures var fs := Progresses(ss) + Terminal(e);
            && StagesInOrder(fs)
            && forall s :: Progress(s) in fs <==> s in ss || (s == Complete && e.Delivers?)
  {
    var progress := Progresses(ss);
    var fs := progress + Terminal(e);
    assert forall i :: 0 <= i < |ss| ==> fs[i] == Progress(ss[i]);
    assert forall s :: Progress(s) in progress <==> s in ss by {
      forall s ensures Progress(s) in progress <==> s in ss {
        if s in ss {
          var i :| 0 <= i < |ss| && ss[i] == s;
          assert progress[i] == Progress(s);
        }
      }
    }
  }

  /** The frames for the given progress stages and ending. */
  function Emit(ss: seq<Stage>, e: Ending): (fs: seq<Frame>)
    requires |ss| >= 1 && ss[0] == TaskId && Ascending(ss) && Complete !in ss
    ensures WellFormed(fs)
    ensures StagesInOrder(fs)
    ensures forall s :: Progress(s) in fs <==> s in ss || (s == Complete && e.Delivers?)
    ensures e.Fails? ==> fs[|fs| - 1] == Failure(e.tag)
    ensures e.Delivers? ==> fs[|fs| - 2] == Payload(e.data) && fs[|fs| - 1] == Progress(Complete)
    ensures forall i :: 0 <= i < |fs| && fs[i].Payload? ==> e.Delivers? && fs[i].data == e.data
  {
    EmitWellFormed(ss, e);
    EmitStages(ss, e);
    Progresses(ss) + Terminal(e)
  }

  /** The frames one job emits. */
  function ExpectedFrames(loaded: bool, translatorBuilt: bool, cancel: Checkpoints, run: Run, transform: TransformOutcome): (fs: seq<Frame>)
    ensures WellFormed(fs)
    ensures StagesInOrder(fs)
    ensures fs[|fs| - 1] == Progress(Complete) <==>
              Invoked(loaded, translatorBuilt, cancel) && run.RunReturns? && run.hasResult && Packable(transform)
    ensures fs[|fs| - 1] == Progress(Complete) ==> fs[|fs| - 2] == Payload(transform.data)
    ensures forall i :: 0 <= i < |fs| && fs[i].Payload? ==> fs[i].data == transform.data && Packable(transform)
    ensures forall tag :: fs[|fs| - 1] == Failure(tag) <==> EndingOf(loaded, translatorBuilt, cancel, run, transform) == Fails(tag)
    ensures Progress(TranslateDone) in fs ==> Invoked(loaded, translatorBuilt, cancel)
    ensures loaded && cancel.beforeInit ==> Progress(TranslatorInit) !in fs
    ensures loaded && (cancel.beforeInit || cancel.afterInit) ==> Progress(Translating) !in fs
    ensures loaded && (cancel.beforeInit || cancel.afterInit || (translatorBuilt && cancel.beforeTranslate)) ==>
              fs[|fs| - 1] == Failure(Cancelled)
  {
    Emit(ProgressStages(loaded, translatorBuilt, cancel, run, transform), EndingOf(loaded, translatorBuilt, cancel, run, transform))
  }

  /**
   * The same frames, written the way the generator produces them: the
   * opening stages, then what each step after the image load adds.
   */
  function Trace(loaded: bool, translatorBuilt: bool, cancel: Checkpoints, run: Run, transform: TransformOutcome): seq<Frame> {
    [Progress(TaskId), Progress(Start), Progress(ImageLoading)]
    + (if !loaded then [Failure(Unknown)]
       else if cancel.beforeInit then [Failure(Cancelled)]
       else [Progress(TranslatorInit)] + AfterInit(translatorBuilt, cancel, run, transform))
  }

  /** The frames after `translator_init`: the second checkpoint, the translator's construction, the third checkpoint and the call. */
  function AfterInit(translatorBuilt: bool, cancel: Checkpoints, run: Run, transform: TransformOutcome): seq<Frame> {
    if cancel.afterInit then [Failure(Cancelled)]
    else if !translatorBuilt then [Failure(Unknown)]
    else [Progress(Translating)]
         + (if cancel.beforeTranslate then [Failure(Cancelled)] else Invocation(run, transform))
  }

  /** The frames the pipeline call and what follows it add. */
  function Invocation(run: Run, transform: TransformOutcome): seq<Frame> {
    match run
    case RunRaises => [Failure(TranslateFailed)]
    case RunCancelled => [Failure(Cancelled)]
    case RunReturns(hasResult, hasRegions) =>
      [Progress(TranslateDone)] + (if hasRegions then [Progress(Processing)] else [])
      + AfterProcessing(hasResult, transform)
  }

  /** The frames once the pipeline returned: the result check, the transform and the payload. */
  function AfterProcessing(hasResult: bool, transform: TransformOutcome): seq<Frame> {
    if !hasResult then [Failure(NoResult)]
    else [Progress(Transforming)]
         + match transform
           case TransformRaises => [Failure(TransformFailed)]
           case Transformed(data) =>
             [Progress(Sending)] + (if |data| < LengthLimit then [Payload(data), Progress(Complete)] else [Failure(TransformFailed)])
  }

  /** The prefixes of the protocol's stage list a job can stop at. */
  lemma StageListPrefixes(w: bool)
    ensures StageList(w)[..3] == [TaskId, Start, ImageLoading]
    ensures StageList(w)[..4] == [TaskId, Start, ImageLoading, TranslatorInit]
    ensures StageList(w)[..5] == [TaskId, Start, ImageLoading, TranslatorInit, Translating]
    ensures StageList(w)[..6] == [TaskId, Start, ImageLoading, TranslatorInit, Translating, TranslateDone]
    ensures var e := if w then [Processing] else [];
            && StageList(w)[..6 + |e|] == StageList(w)[..6] + e
            && StageList(w)[..7 + |e|] == StageList(w)[..6] + e + [Transforming]
            && StageList(w)[..8 + |e|] == StageList(w)[..6] + e + [Transforming, Sending]
  {
  }

  /** The protocol's frames without their properties: the stage list cut where the job stopped, then the ending's frames. */
  function Planned(loaded: bool, translatorBuilt: bool, cancel: Checkpoints, run: Run, transform: TransformOutcome): seq<Frame> {
    Progresses(StageList(FoundRegions(loaded, translatorBuilt, cancel, run))[..StagesReached(loaded, translatorBuilt, cancel, run, transform)])
    + Terminal(EndingOf(loaded, translatorBuilt, cancel, run, transform))
  }

  lemma PlannedIsExpected(loaded: bool, translatorBuilt: bool, cancel: Checkpoints, run: Run, transform: TransformOutcome)
    ensures Planned(loaded, translatorBuilt, cancel, run, transform) == ExpectedFrames(loaded, translatorBuilt, cancel, run, transform)
  {
  }

  lemma Associative(a: seq<Frame>, b: seq<Frame>, c: seq<Frame>)
    ensures a + (b + c) == a + b + c
  {
  }

  /** Progress frames distribute over concatenation of stage lists. */
  lemma ProgressesAppend(a: seq<Stage>, b: seq<Stage>)
    ensures Progresses(a + b) == Progresses(a) + Progresses(b)
  {
  }

  /** After the result check, the generator's frames are the protocol's remaining stages and ending. */
  lemma AfterProcessingPlanned(hasResult: bool, transform: TransformOutcome, e: Ending)
    requires e == (if !hasResult then Fails(NoResult)
                   else if Packable(transform) then Delivers(transform.data)
                   else Fails(TransformFailed))
    ensures AfterProcessing(hasResult, transform) ==
            Progresses(if !hasResult then [] else if transform.TransformRaises? then [Transforming] else [Transforming, Sending])
            + Terminal(e)
  {
  }

  /** Once the pipeline returned, the generator's frames are the protocol's. */
  lemma InvocationTrace(translatorBuilt: bool, cancel: Checkpoints, run: Run, transform: TransformOutcome)
    requires Invoked(true, translatorBuilt, cancel) && run.RunReturns?
    ensures Trace(true, translatorBuilt, cancel, run, transform) == Planned(true, translatorBuilt, cancel, run, transform)
  {
    var w := run.hasRegions;
    var n := StagesReached(true, translatorBuilt, cancel, run, transform);
    var e := EndingOf(true, translatorBuilt, cancel, run, transform);
    var extra := if w then [Processing] else [];
    var after := if !run.hasResult then [] else if transform.TransformRaises? then [Transforming] else [Transforming, Sending];
    var first := [TaskId, Start, ImageLoading, TranslatorInit, Translating, TranslateDone];
    var firstFrames :=
      [Progress(TaskId), Progress(Start), Progress(ImageLoading), Progress(TranslatorInit), Progress(Translating), Progress(TranslateDone)];
    var extraFrames := if w then [Progress(Processing)] else [];
    var rest := AfterProcessing(run.hasResult, transform);
    StageListPrefixes(w);
    assert StageList(w)[..n] == first + extra + after;
    ProgressesAppend(first + extra, after);
    ProgressesAppend(first, extra);
    assert Progresses(first) == firstFrames;
    assert Progresses(extra) == extraFrames;
    AfterProcessingPlanned(run.hasResult, transform, e);
    var opening := [Progress(TaskId), Progress(Start), Progress(ImageLoading)];
    var upToTranslating := opening + [Progress(TranslatorInit)] + [Progress(Translating)];
    var invocation := [Progress(TranslateDone)] + extraFrames;
    Associative(firstFrames + extraFrames, Progresses(after), Terminal(e));
    assert Planned(true, translatorBuilt, cancel, run, transform) == firstFrames + extraFrames + rest;
    assert Invocation(run, transform) == invocation + rest;
    Associative(opening, [Progress(TranslatorInit)], [Progress(Translating)] + (invocation + rest));
    Associative([Progress(TranslatorInit)], [Progress(Translating)], invocation + rest);
    Associative(opening + [Progress(TranslatorInit)], [Progress(Translating)], invocation + rest);
    Associative(upToTranslating, invocation, rest);
    Associative(upToTranslating, [Progress(TranslateDone)], extraFrames);
    assert upToTranslating + [Progress(TranslateDone)] == firstFrames;
  }

  /** A job that stops before the pipeline returns: the generator's frames are the protocol's. */
  lemma EarlyTrace(loaded: bool, translatorBuilt: bool, cancel: Checkpoints, run: Run, transform: TransformOutcome)
    requires !(Invoked(loaded, translatorBuilt, cancel) && run.RunReturns?)
    ensures Trace(loaded, translatorBuilt, cancel, run, transform) == Planned(loaded, translatorBuilt, cancel, run, transform)
  {
    var w := FoundRegions(loaded, translatorBuilt, cancel, run);
    var n := StagesReached(loaded, translatorBuilt, cancel, run, transform);
    var e := EndingOf(loaded, translatorBuilt, cancel, run, transform);
    assert !w;
    StageListPrefixes(false);
    var opening := [Progress(TaskId), Progress(Start), Progress(ImageLoading)];
    var tail := [Failure(e.tag)];
    assert Planned(loaded, translatorBuilt, cancel, run, transform) == Progresses(StageList(false)[..n]) + tail;
    if !loaded || cancel.beforeInit {
      assert Progresses(StageList(false)[..n]) == opening;
    } else if cancel.afterInit || !translatorBuilt {
      assert Progresses(StageList(false)[..n]) == opening + [Progress(TranslatorInit)];
      Associative(opening, [Progress(TranslatorInit)], tail);
    } else {
      assert Progresses(StageList(false)[..n]) == opening + [Progress(TranslatorInit)] + [Progress(Translating)];
      Associative([Progress(TranslatorInit)], [Progress(Translating)], tail);
      Associative(opening, [Progress(TranslatorInit)], [Progress(Translating)] + tail);
      Associative(opening + [Progress(TranslatorInit)], [Progress(Translating)], tail);
    }
  }

  /** The generator's frames are the protocol's. */
  lemma TraceIsExpected(loaded: bool, translatorBuilt: bool, cancel: Checkpoints, run: Run, transform: TransformOutcome)
    ensures Trace(loaded, translatorBuilt, cancel, run, transform) == ExpectedFrames(loaded, translatorBuilt, cancel, run, transform)
  {
    if Invoked(loaded, translatorBuilt, cancel) && run.RunReturns? {
      InvocationTrace(translatorBuilt, cancel, run, transform);
    } else {
      EarlyTrace(loaded, translatorBuilt, cancel, run, transform);
    }
    PlannedIsExpected(loaded, translatorBuilt, cancel, run, transform);
  }

  /** The `stage` value of a progress frame's JSON body. */
  function StageName(s: Stage): (n: string)
    ensures Ascii(n)
  {
    match s
    case TaskId => "task_id"
    case Start => "start"
    case ImageLoading => "image_loading"
    case TranslatorInit => "translator_init"
    case Translating => "translating"
    case TranslateDone => "translate_done"
    case Processing => "processing"
    case Transforming => "transforming"
    case Sending => "sending"
    case Complete => "complete"
  }

  /** The `stage` value of an error frame's JSON body. */
  function ErrorName(tag: ErrorStage): (n: string)
    ensures Ascii(n)
  {
    match tag
    case TranslateFailed => "translate"
    case NoResult => "no_result"
    case TransformFailed => "transform"
    case Cancelled => "cancelled"
    case Unknown => "unknown"
  }

  /** Every character is a 7-bit one. */
  predicate Ascii(s: string) {
    forall i :: 0 <= i < |s| ==> s[i] as int < 128
  }

  /** The bytes of an ASCII string. */
  function AsciiBytes(s: string): (bs: seq<byte>)
    requires Ascii(s)
    ensures |bs| == |s|
  {
    seq(|s|, i requires 0 <= i < |s| => s[i] as int)
  }

  /** A frame's body: the payload itself, or its JSON object reduced to the `stage` value. */
  function Body(f: Frame): seq<byte> {
    match f
    case Payload(data) => data
    case Progress(s) => AsciiBytes(StageName(s))
    case Failure(tag) => AsciiBytes(ErrorName(tag))
  }

  /** The message `pack_message` is called with for each frame. */
  function Encode(fs: seq<Frame>): (ms: seq<Message>)
    ensures |ms| == |fs|
    ensures forall i :: 0 <= i < |fs| ==> ms[i] == Message(Status(fs[i]), Body(fs[i]))
  {
    seq(|fs|, i requires 0 <= i < |fs| => Message(Status(fs[i]), Body(fs[i])))
  }

  /**
   * A stream whose payloads fit the length prefix packs without error, and
   * a reader that splits the bytes by their headers gets back every frame's
   * status and body, in order.
   */
  lemma StreamRoundTrip(fs: seq<Frame>)
    requires forall i :: 0 <= i < |fs| && fs[i].Payload? ==> |fs[i].data| < LengthLimit
    ensures PackAll(Encode(fs)).Some?
    ensures DecodeAll(PackAll(Encode(fs)).value) == Some(Encode(fs))
  {
    var ms := Encode(fs);
    forall i | 0 <= i < |ms| ensures |ms[i].data| < LengthLimit {
      assert ms[i].data == Body(fs[i]);
    }
    PackAllDefined(ms);
    DecodeAllPackAll(ms);
  }

  /** Every job's stream packs without error and reads back frame by frame. */
  lemma ExpectedStreamReadsBack(loaded: bool, translatorBuilt: bool, cancel: Checkpoints, run: Run, transform: TransformOutcome)
    ensures var fs := ExpectedFrames(loaded, translatorBuilt, cancel, run, transform);
            PackAll(Encode(fs)).Some? && DecodeAll(PackAll(Encode(fs)).value) == Some(Encode(fs))
  {
    StreamRoundTrip(ExpectedFrames(loaded, translatorBuilt, cancel, run, transform));
  }

  /** How the outer `try` of `_do_translation` ended: normally (including its own `return`s) or by an exception. */
  datatype Exit = Finished | RaisedCancelled | RaisedError

  /** The frames the `except` clauses add after the `try` body's own. */
  function Handled(frames: seq<Frame>, exit: Exit): seq<Frame> {
    match exit
    case Finished => frames
    case RaisedCancelled => frames + [Failure(Cancelled)]
    case RaisedError => frames + [Failure(Unknown)]
  }

  /** The `except` clauses only ever add after what the body yielded. */
  lemma HandledAppend(frames: seq<Frame>, rest: seq<Frame>, exit: Exit)
    ensures Handled(frames + rest, exit) == frames + Handled(rest, exit)
  {
    match exit
    case Finished =>
    case RaisedCancelled =>
      assert frames + rest + [Failure(Cancelled)] == frames + (rest + [Failure(Cancelled)]);
    case RaisedError =>
      assert frames + rest + [Failure(Unknown)] == frames + (rest + [Failure(Unknown)]);
  }

  /**
   * The part of the outer `try` body from the pipeline call on: the frames
   * it yields, how it ends, and the returned context, whose `result`
   * record it sets.
   */
  method Invoke(pipeline: PipelineOutcome, workflow: string, transform: TransformOutcome)
    returns (frames: seq<Frame>, exit: Exit, ctx: Results.Ctx?)
    modifies (if pipeline.Returns? then {pipeline.ctx} else {})`workflowResult
    ensures Handled(frames, exit) == Invocation(old(RunOf(pipeline)), transform)
    ensures ctx != null <==> pipeline.Returns?
    ensures ctx != null ==>
              ctx == pipeline.ctx &&
              ctx.workflowResult == Some(Results.WorkflowResultOf(old(ctx.success), old(ctx.result).Some?, old(ctx.textRegions), workflow)) &&
              ctx.success == old(ctx.success) && ctx.result == old(ctx.result) &&
              ctx.textRegions == old(ctx.textRegions) && ctx.buffers == old(ctx.buffers)
  {
    ctx := null;
    match pipeline
    case Raises =>
      frames, exit := [Failure(TranslateFailed)], Finished;
      return;
    case RaisesCancelled =>
      frames, exit := [], RaisedCancelled;
      return;
    case Returns(returned) =>
      ctx := returned;
    var record := Results.BuildWorkflowResult(ctx, workflow);
    ctx.workflowResult := Some(record);
    frames := [Progress(TranslateDone)];
    var hasResult := ctx.result.Some?;
    var hasTextRegions := ctx.textRegions != [];
    if hasTextRegions {
      frames := frames + [Progress(Processing)];
    }
    if !hasResult {
      frames, exit := frames + [Failure(NoResult)], Finished;
      return;
    }
    frames := frames + [Progress(Transforming)];
    match transform
    case TransformRaises =>
      frames, exit := frames + [Failure(TransformFailed)], Finished;
      return;
    case Transformed(data) =>
      frames := frames + [Progress(Sending)];
      var packed := PackMessage(0, data);
      if packed.None? {
        frames, exit := frames + [Failure(TransformFailed)], Finished;
        return;
      }
      frames, exit := frames + [Payload(data), Progress(Complete)], Finished;
  }

  /**
   * The part of the outer `try` body after `translator_init`: the second
   * checkpoint, building the translator, `translating`, the third
   * checkpoint and the pipeline call.
   */
  method RunTranslator(cancel: Checkpoints, translatorBuilt: bool, pipeline: PipelineOutcome, workflow: string,
                       transform: TransformOutcome)
    returns (frames: seq<Frame>, exit: Exit, ctx: Results.Ctx?, invoked: bool)
    modifies (if pipeline.Returns? then {pipeline.ctx} else {})`workflowResult
    ensures Handled(frames, exit) == AfterInit(translatorBuilt, cancel, old(RunOf(pipeline)), transform)
    ensures invoked <==> !cancel.afterInit && translatorBuilt && !cancel.beforeTranslate
    ensures ctx != null <==> invoked && pipeline.Returns?
    ensures pipeline.Returns? && !invoked ==> unchanged(pipeline.ctx)
    ensures ctx != null ==>
              ctx == pipeline.ctx &&
              ctx.workflowResult == Some(Results.WorkflowResultOf(old(ctx.success), old(ctx.result).Some?, old(ctx.textRegions), workflow)) &&
              ctx.success == old(ctx.success) && ctx.result == old(ctx.result) &&
              ctx.textRegions == old(ctx.textRegions) && ctx.buffers == old(ctx.buffers)
  {
    frames, ctx, invoked := [], null, false;
    if cancel.afterInit {
      exit := RaisedCancelled;
      return;
    }
    if !translatorBuilt {
      exit := RaisedError;
      return;
    }
    frames := [Progress(Translating)];
    if cancel.beforeTranslate {
      exit := RaisedCancelled;
      return;
    }
    invoked := true;
    var rest;
    rest, exit, ctx := Invoke(pipeline, workflow, transform);
    HandledAppend(frames, rest, exit);
    frames := frames + rest;
  }

  /**
   * The image load and parameter preparation of the outer `try` body: the
   * image is converted, and only when that succeeds are the client's
   * settings cleared and the streaming parameters derived.
   */
  method LoadAndPrepare(src: Images.ImageSource, decodes: bool, cli: Params.Cli, font: Params.FontQuery,
                        workflow: string, server: Params.ServerConfig)
    returns (image: Images.Image?, params: Option<Params.Params>)
    modifies cli
    ensures image != null <==> Images.Loads(src, decodes)
    ensures image != null ==> (if src.PilImage? then image == src.image else fresh(image))
    ensures params == if Images.Loads(src, decodes)
                      then Some(Params.TranslatorParams(old(cli.attempts), font, workflow, server, true))
                      else None
    ensures Images.Loads(src, decodes) ==> cli.ServerControlledCleared() && cli.attempts == old(cli.attempts)
    ensures !Images.Loads(src, decodes) ==> unchanged(cli)
  {
    image, params := null, None;
    var converted := Images.ToPilImage(src, decodes);
    if converted.Err? {
      return;
    }
    image := converted.value;
    var prepared := Params.PrepareTranslatorParams(cli, font, workflow);
    params := Some(Params.ApplyServerPolicy(prepared, server, true));
  }

  /**
   * The outer `try` body after the image loaded: the first checkpoint,
   * `translator_init`, and the rest.
   */
  method AfterLoad(cancel: Checkpoints, translatorBuilt: bool, pipeline: PipelineOutcome, workflow: string,
                   transform: TransformOutcome)
    returns (frames: seq<Frame>, exit: Exit, ctx: Results.Ctx?, invoked: bool)
    modifies (if pipeline.Returns? then {pipeline.ctx} else {})`workflowResult
    ensures Handled(frames, exit) ==
              if cancel.beforeInit then [Failure(Cancelled)]
              else [Progress(TranslatorInit)] + AfterInit(translatorBuilt, cancel, old(RunOf(pipeline)), transform)
    ensures invoked <==> Invoked(true, translatorBuilt, cancel)
    ensures ctx != null <==> invoked && pipeline.Returns?
    ensures pipeline.Returns? && !invoked ==> unchanged(pipeline.ctx)
    ensures ctx != null ==>
              ctx == pipeline.ctx &&
              ctx.workflowResult == Some(Results.WorkflowResultOf(old(ctx.success), old(ctx.result).Some?, old(ctx.textRegions), workflow)) &&
              ctx.success == old(ctx.success) && ctx.result == old(ctx.result) &&
              ctx.textRegions == old(ctx.textRegions) && ctx.buffers == old(ctx.buffers)
  {
    if cancel.beforeInit {
      frames, exit, ctx, invoked := [], RaisedCancelled, null, false;
      return;
    }
    frames := [Progress(TranslatorInit)];
    var rest;
    rest, exit, ctx, invoked := RunTranslator(cancel, translatorBuilt, pipeline, workflow, transform);
    HandledAppend(frames, rest, exit);
    frames := frames + rest;
  }

  /**
   * The outer `try` body of `_do_translation`: everything up to the first
   * exception or `return`. It hands back the frames yielded so far, how it
   * ended, and the image and context the `finally` block must clean up.
   */
  method TranslationBody(src: Images.ImageSource, decodes: bool, cli: Params.Cli, font: Params.FontQuery,
                         workflow: string, server: Params.ServerConfig, cancel: Checkpoints,
                         translatorBuilt: bool, pipeline: PipelineOutcome, transform: TransformOutcome)
    returns (frames: seq<Frame>, exit: Exit, image: Images.Image?, ctx: Results.Ctx?, params: Option<Params.Params>,
             invoked: bool)
    modifies cli, (if pipeline.Returns? then {pipeline.ctx} else {})`workflowResult
    ensures Handled(frames, exit) ==
              Trace(Images.Loads(src, decodes), translatorBuilt, cancel, old(RunOf(pipeline)), transform)
    ensures invoked <==> Invoked(Images.Loads(src, decodes), translatorBuilt, cancel)
    ensures image != null <==> Images.Loads(src, decodes)
    ensures image != null ==> (if src.PilImage? then image == src.image else fresh(image))
    ensures ctx != null <==> invoked && pipeline.Returns?
    ensures ctx != null ==> ctx == pipeline.ctx
    ensures params == if Images.Loads(src, decodes)
                      then Some(Params.TranslatorParams(old(cli.attempts), font, workflow, server, true))
                      else None
    ensures Images.Loads(src, decodes) ==> cli.ServerControlledCleared() && cli.attempts == old(cli.attempts)
    ensures !Images.Loads(src, decodes) ==> unchanged(cli)
    ensures pipeline.Returns? && !invoked ==> unchanged(pipeline.ctx)
    ensures ctx != null ==>
              ctx.workflowResult == Some(Results.WorkflowResultOf(old(ctx.success), old(ctx.result).Some?, old(ctx.textRegions), workflow)) &&
              ctx.success == old(ctx.success) && ctx.result == old(ctx.result) &&
              ctx.textRegions == old(ctx.textRegions) && ctx.buffers == old(ctx.buffers)
  {
    ghost var run := RunOf(pipeline);
    var opening := [Progress(TaskId), Progress(Start), Progress(ImageLoading)];
    image, params := LoadAndPrepare(src, decodes, cli, font, workflow, server);
    if image == null {
      frames, exit, ctx, invoked := opening, RaisedError, null, false;
      return;
    }
    assert RunOf(pipeline) == run;
    var rest;
    rest, exit, ctx, invoked := AfterLoad(cancel, translatorBuilt, pipeline, workflow, transform);
    HandledAppend(opening, rest, exit);
    frames := opening + rest;
  }

  /**
   * The `try` body of `_do_translation` with its two `except` clauses: a
   * cancellation yields a `cancelled` frame, any other exception an
   * `unknown` one.
   */
  method Guarded(src: Images.ImageSource, decodes: bool, cli: Params.Cli, font: Params.FontQuery,
                 workflow: string, server: Params.ServerConfig, cancel: Checkpoints,
                 translatorBuilt: bool, pipeline: PipelineOutcome, transform: TransformOutcome)
    returns (frames: seq<Frame>, image: Images.Image?, ctx: Results.Ctx?)
    modifies cli, (if pipeline.Returns? then {pipeline.ctx} else {})`workflowResult
    ensures frames == Trace(Images.Loads(src, decodes), translatorBuilt, cancel, old(RunOf(pipeline)), transform)
    ensures image != null <==> Images.Loads(src, decodes)
    ensures image != null ==> (if src.PilImage? then image == src.image else fresh(image))
    ensures Images.Loads(src, decodes) ==> cli.ServerControlledCleared() && cli.attempts == old(cli.attempts)
    ensures !Images.Loads(src, decodes) ==> unchanged(cli)
    ensures ctx != null <==> pipeline.Returns? && Invoked(Images.Loads(src, decodes), translatorBuilt, cancel)
    ensures ctx != null ==> ctx == pipeline.ctx
    ensures pipeline.Returns? && ctx == null ==> unchanged(pipeline.ctx)
    ensures ctx != null ==>
              ctx.workflowResult == Some(Results.WorkflowResultOf(old(ctx.success), old(ctx.result).Some?, old(ctx.textRegions), workflow)) &&
              ctx.success == old(ctx.success) && ctx.textRegions == old(ctx.textRegions)
  {
    var bodyFrames, exit, params, invoked;
    bodyFrames, exit, image, ctx, params, invoked :=
      TranslationBody(src, decodes, cli, font, workflow, server, cancel, translatorBuilt, pipeline, transform);
    frames := Handled(bodyFrames, exit);
  }

  /**
   * The `finally` block of `_do_translation`: drops the context's result
   * and buffers, closes the image, and unregisters the task.
   */
  method Cleanup(registry: Registry.TaskRegistry, taskId: string, image: Images.Image?, ctx: Results.Ctx?)
    modifies registry, if image != null then {image} else {}, if ctx != null then {ctx} else {}
    ensures image != null ==> image.closed
    ensures ctx != null ==>
              ctx.result == None && ctx.buffers == {} &&
              ctx.workflowResult == old(ctx.workflowResult) && ctx.success == old(ctx.success) &&
              ctx.textRegions == old(ctx.textRegions)
    ensures registry.active == old(registry.active) - {taskId}
    ensures registry.events == old(registry.events) + [Registry.Unregistered(taskId)]
  {
    if ctx != null {
      ctx.ReleaseBuffers();
    }
    if image != null {
      image.Close();
    }
    registry.Unregister(taskId);
  }

  /**
   * `_do_translation`: the guarded body, then the `finally` block, which
   * runs on every path.
   */
  method DoTranslation(registry: Registry.TaskRegistry, taskId: string,
                       src: Images.ImageSource, decodes: bool, cli: Params.Cli, font: Params.FontQuery,
                       workflow: string, server: Params.ServerConfig, cancel: Checkpoints,
                       translatorBuilt: bool, pipeline: PipelineOutcome, transform: TransformOutcome)
    returns (frames: seq<Frame>, image: Images.Image?)
    modifies registry, cli, if src.PilImage? then {src.image} else {}, if pipeline.Returns? then {pipeline.ctx} else {}
    ensures frames == Trace(Images.Loads(src, decodes), translatorBuilt, cancel, old(RunOf(pipeline)), transform)
    ensures image != null <==> Images.Loads(src, decodes)
    ensures image != null ==> image.closed && (if src.PilImage? then image == src.image else fresh(image))
    ensures Images.Loads(src, decodes) ==> cli.ServerControlledCleared() && cli.attempts == old(cli.attempts)
    ensures !Images.Loads(src, decodes) ==> unchanged(cli)
    ensures registry.active == old(registry.active) - {taskId}
    ensures registry.events == old(registry.events) + [Registry.Unregistered(taskId)]
    ensures pipeline.Returns? && !Invoked(Images.Loads(src, decodes), translatorBuilt, cancel) ==> unchanged(pipeline.ctx)
    ensures pipeline.Returns? && Invoked(Images.Loads(src, decodes), translatorBuilt, cancel) ==>
              var ctx := pipeline.ctx;
              && ctx.result == None && ctx.buffers == {}
              && ctx.workflowResult == Some(Results.WorkflowResultOf(old(ctx.success), old(ctx.result).Some?, old(ctx.textRegions), workflow))
              && ctx.success == old(ctx.success) && ctx.textRegions == old(ctx.textRegions)
  {
    var ctx;
    frames, image, ctx := Guarded(src, decodes, cli, font, workflow, server, cancel, translatorBuilt, pipeline, transform);
    Cleanup(registry, taskId, image, ctx);
  }

  /**
   * `while_streaming`: registers the task under its id, then the response
   * generator waits for a translation slot and runs the job. When the
   * request is cancelled while it waits (`cancelledWaiting`), the job never
   * starts: nothing is sent, nothing is cleaned up, and the task stays
   * registered, because the only removal sits in the job's `finally`.
   * Otherwise the task is removed again when the job ends.
   */
  method WhileStreaming(registry: Registry.TaskRegistry, taskId: string, cancelledWaiting: bool,
                        src: Images.ImageSource, decodes: bool, cli: Params.Cli, font: Params.FontQuery,
                        workflow: string, server: Params.ServerConfig, cancel: Checkpoints,
                        translatorBuilt: bool, pipeline: PipelineOutcome, transform: TransformOutcome)
    returns (frames: seq<Frame>)
    modifies registry, cli, if src.PilImage? then {src.image} else {}, if pipeline.Returns? then {pipeline.ctx} else {}
    ensures cancelledWaiting ==>
              && frames == []
              && registry.active == old(registry.active) + {taskId}
              && registry.events == old(registry.events) + [Registry.Registered(taskId)]
              && unchanged(cli) && (src.PilImage? ==> unchanged(src.image)) && (pipeline.Returns? ==> unchanged(pipeline.ctx))
    ensures !cancelledWaiting ==>
              && frames == Trace(Images.Loads(src, decodes), translatorBuilt, cancel, old(RunOf(pipeline)), transform)
              && registry.active == old(registry.active) - {taskId}
              && registry.events == old(registry.events) + [Registry.Registered(taskId), Registry.Unregistered(taskId)]
              && (src.PilImage? ==> src.image.closed)
    ensures !cancelledWaiting && taskId !in old(registry.active) ==> registry.active == old(registry.active)
    ensures !cancelledWaiting && Images.Loads(src, decodes) ==> cli.ServerControlledCleared() && cli.attempts == old(cli.attempts)
    ensures !cancelledWaiting && !Images.Loads(src, decodes) ==> unchanged(cli)
    ensures !cancelledWaiting && pipeline.Returns? && !Invoked(Images.Loads(src, decodes), translatorBuilt, cancel) ==> unchanged(pipeline.ctx)
    ensures !cancelledWaiting && pipeline.Returns? && Invoked(Images.Loads(src, decodes), translatorBuilt, cancel) ==>
              var ctx := pipeline.ctx;
              && ctx.result == None && ctx.buffers == {}
              && ctx.workflowResult == Some(Results.WorkflowResultOf(old(ctx.success), old(ctx.result).Some?, old(ctx.textRegions), workflow))
              && ctx.success == old(ctx.success) && ctx.textRegions == old(ctx.textRegions)
  {
    registry.Register(taskId);
    if cancelledWaiting {
      return [];
    }
    var image;
    frames, image := DoTranslation(registry, taskId, src, decodes, cli, font, workflow, server, cancel,
                                   translatorBuilt, pipeline, transform);
  }
}
