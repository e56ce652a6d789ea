/**
 * Deriving the translator's parameters for one request: the workflow name
 * chooses a fixed set of pipeline flags, the client's command-line flags are
 * cleared in place, and the server's own settings then override the client.
 */
module Params {
  import opened Wrappers

  /** The keys `translator_params` can hold. */
  datatype Key =
    | Attempts | FontPath
    | Template | SaveText | GenerateAndExport | LoadText | UpscaleOnly | ColorizeOnly
    | UseGpu | UseGpuLimited | Verbose | ModelsTtl

  datatype Value = Flag(flag: bool) | Count(count: int) | Path(path: string)

  /** The `translator_params` dictionary. */
  type Params = map<Key, Value>

  /** The keys only the workflow name sets. */
  predicate WorkflowKey(k: Key) {
    k.Template? || k.SaveText? || k.GenerateAndExport? || k.LoadText? || k.UpscaleOnly? || k.ColorizeOnly?
  }

  /** The keys the server configuration always sets. */
  predicate ServerKey(k: Key) {
    k.UseGpu? || k.UseGpuLimited? || k.Verbose? || k.ModelsTtl?
  }

  /** The workflow names that set pipeline flags; `normal` and every other name set none. */
  const FlagWorkflows: set<string> := {"export_original", "save_json", "load_text", "upscale_only", "colorize_only"}

  /** The flags a workflow name forces, each to `True`. */
  function WorkflowParams(workflow: string): (p: Params)
    ensures forall k :: k in p ==> WorkflowKey(k)
    ensures forall k :: k in p ==> p[k] == Flag(true)
  {
    if workflow == "export_original" then map[Template := Flag(true), SaveText := Flag(true)]
    else if workflow == "save_json" then map[SaveText := Flag(true), GenerateAndExport := Flag(true)]
    else if workflow == "load_text" then map[LoadText := Flag(true)]
    else if workflow == "upscale_only" then map[UpscaleOnly := Flag(true)]
    else if workflow == "colorize_only" then map[ColorizeOnly := Flag(true)]
    else map[]
  }

  /** Each named workflow sets exactly its own flags; `normal` and unknown workflows set none. */
  lemma WorkflowFlags(workflow: string)
    ensures var p := WorkflowParams(workflow);
            && (workflow == "export_original" <==> p.Keys == {Template, SaveText})
            && (workflow == "save_json" <==> p.Keys == {SaveText, GenerateAndExport})
            && (workflow == "load_text" <==> p.Keys == {LoadText})
            && (workflow == "upscale_only" <==> p.Keys == {UpscaleOnly})
            && (workflow == "colorize_only" <==> p.Keys == {ColorizeOnly})
            && (p == map[] <==> workflow !in FlagWorkflows)
  {
    var p := WorkflowParams(workflow);
    if workflow == "export_original" {
      assert Template in p && SaveText in p;
    } else if workflow == "save_json" {
      assert SaveText in p && GenerateAndExport in p;
    } else if workflow == "load_text" {
      assert LoadText in p;
    } else if workflow == "upscale_only" {
      assert UpscaleOnly in p;
    } else if workflow == "colorize_only" {
      assert ColorizeOnly in p;
    }
  }

  /**
   * What the filesystem answers about `config.render.font_path` (empty when
   * it is unset): whether it is absolute (`os.path.isabs`) and whether it
   * exists once joined under `<basePath>/fonts` (`os.path.exists`).
   */
  datatype FontQuery = FontQuery(basePath: string, fontPath: string, isAbsolute: bool, joinedExists: bool)

  /** `os.path.join(BASE_PATH, 'fonts', font_filename)` for a relative name. */
  function FontsPath(font: FontQuery): string {
    font.basePath + "/fonts/" + font.fontPath
  }

  /** A font is passed on only when it names a relative file that exists under the fonts directory. */
  predicate FontResolves(font: FontQuery) {
    font.fontPath != "" && !font.isAbsolute && font.joinedExists
  }

  /** The client's `attempts` survives only when set and positive. */
  predicate ClientAttemptsKept(attempts: Option<int>) {
    attempts.Some? && attempts.value > 0
  }

  /**
   * The dictionary `prepare_translator_params` returns, from the client's
   * `cli.attempts`, the font lookup and the workflow name.
   */
  function ClientParams(attempts: Option<int>, font: FontQuery, workflow: string): (p: Params)
    ensures Attempts in p <==> ClientAttemptsKept(attempts)
    ensures Attempts in p ==> p[Attempts] == Count(attempts.value)
    ensures FontPath in p <==> FontResolves(font)
    ensures FontPath in p ==> p[FontPath] == Path(FontsPath(font))
    ensures forall k :: WorkflowKey(k) ==> (k in p <==> k in WorkflowParams(workflow))
    ensures forall k :: WorkflowKey(k) && k in p ==> p[k] == Flag(true)
    ensures forall k :: k in p ==> !ServerKey(k)
  {
    var base, flags := ClientBase(attempts, font), WorkflowParams(workflow);
    var p := base + flags;
    forall k | WorkflowKey(k) ensures (k in p <==> k in flags) && (k in p ==> p[k] == Flag(true)) {
      assert k !in base;
    }
    assert Attempts !in flags && FontPath !in flags;
    p
  }

  /** The entries of `prepare_translator_params` that come from the client: `attempts` and the font. */
  function ClientBase(attempts: Option<int>, font: FontQuery): (p: Params)
    ensures Attempts in p <==> ClientAttemptsKept(attempts)
    ensures Attempts in p ==> p[Attempts] == Count(attempts.value)
    ensures FontPath in p <==> FontResolves(font)
    ensures FontPath in p ==> p[FontPath] == Path(FontsPath(font))
    ensures forall k :: k in p ==> k.Attempts? || k.FontPath?
  {
    (if ClientAttemptsKept(attempts) then map[Attempts := Count(attempts.value)] else map[])
    + (if FontResolves(font) then map[FontPath := Path(FontsPath(font))] else map[])
  }

  /**
   * The client's command-line settings carried in `config.cli`. The
   * workflow and GPU flags are honoured only by the command-line tool; the
   * server clears them.
   */
  class Cli {
    var loadText: bool
    var template: bool
    var generateAndExport: bool
    var upscaleOnly: bool
    var colorizeOnly: bool
    var inpaintOnly: bool
    var useGpu: bool
    var useGpuLimited: bool
    var attempts: Option<int>

    /** Every flag the server controls is off. */
    predicate ServerControlledCleared()
      reads this
    {
      !loadText && !template && !generateAndExport && !upscaleOnly && !colorizeOnly
      && !inpaintOnly && !useGpu && !useGpuLimited
    }
  }

  /** The `hasattr(config, 'cli')` block: every server-controlled flag is switched off in place. */
  method ClearServerControlled(cli: Cli)
    modifies cli
    ensures cli.ServerControlledCleared()
    ensures cli.attempts == old(cli.attempts)
  {
    cli.loadText := false;
    cli.template := false;
    cli.generateAndExport := false;
    cli.upscaleOnly := false;
    cli.colorizeOnly := false;
    cli.inpaintOnly := false;
    cli.useGpu := false;
    cli.useGpuLimited := false;
  }

  /** The entries taken from the client: a positive `attempts`, and a relative font that exists. */
  method KeepClientSettings(attempts: Option<int>, font: FontQuery) returns (p: Params)
    ensures p == ClientBase(attempts, font)
  {
    p := map[];
    if attempts.Some? && attempts.value > 0 {
      p := p[Attempts := Count(attempts.value)];
    }
    if font.fontPath != "" && !font.isAbsolute {
      if font.joinedExists {
        p := p[FontPath := Path(FontsPath(font))];
      }
    }
  }

  /** The workflow branch: sets the workflow's flags on top of what is there. */
  method SetWorkflowFlags(p: Params, workflow: string) returns (r: Params)
    ensures r == p + WorkflowParams(workflow)
  {
    r := p;
    if workflow == "export_original" {
      r := r[Template := Flag(true)];
      r := r[SaveText := Flag(true)];
      Extend2(p, Template, SaveText);
    } else if workflow == "save_json" {
      r := r[SaveText := Flag(true)];
      r := r[GenerateAndExport := Flag(true)];
      Extend2(p, SaveText, GenerateAndExport);
    } else if workflow == "load_text" {
      r := r[LoadText := Flag(true)];
      Extend1(p, LoadText);
    } else if workflow == "upscale_only" {
      r := r[UpscaleOnly := Flag(true)];
      Extend1(p, UpscaleOnly);
    } else if workflow == "colorize_only" {
      r := r[ColorizeOnly := Flag(true)];
      Extend1(p, ColorizeOnly);
    } else {
      assert p + map[] == p;
    }
  }

  /**
   * `prepare_translator_params`: clears the server-controlled flags of
   * `cli` in place, leaves `cli.attempts` alone, and builds the parameter
   * dictionary key by key.
   */
  method PrepareTranslatorParams(cli: Cli, font: FontQuery, workflow: string) returns (p: Params)
    modifies cli
    ensures cli.ServerControlledCleared()
    ensures cli.attempts == old(cli.attempts)
    ensures p == ClientParams(old(cli.attempts), font, workflow)
  {
    ClearServerControlled(cli);
    var base := KeepClientSettings(cli.attempts, font);
    p := SetWorkflowFlags(base, workflow);
  }

  /** Setting one key in place is the same as merging a one-entry dictionary. */
  lemma Extend1(m: Params, k: Key)
    ensures m[k := Flag(true)] == m + map[k := Flag(true)]
  {
  }

  /** Setting two keys in place is the same as merging a two-entry dictionary. */
  lemma Extend2(m: Params, k1: Key, k2: Key)
    ensures m[k1 := Flag(true)][k2 := Flag(true)] == m + map[k1 := Flag(true), k2 := Flag(true)]
  {
  }

  /** The server's start-up settings (`server_config`); `None` is a key it does not hold. */
  datatype ServerConfig = ServerConfig(
    useGpu: Option<bool>,
    useGpuLimited: Option<bool>,
    verbose: Option<bool>,
    modelsTtl: Option<int>,
    retryAttempts: Option<int>)

  /** The retry count the streaming path falls back to. */
  const DefaultStreamingAttempts: int := 2

  /**
   * The server-policy overlay that follows `prepare_translator_params` in
   * every entry point. `streaming` selects the streaming variant, which
   * also fills in a default retry count.
   */
  function ApplyServerPolicy(p: Params, server: ServerConfig, streaming: bool): (r: Params)
    ensures UseGpu in r && r[UseGpu] == Flag(server.useGpu.GetOr(false))
    ensures UseGpuLimited in r && r[UseGpuLimited] == Flag(server.useGpuLimited.GetOr(false))
    ensures Verbose in r && r[Verbose] == Flag(server.verbose.GetOr(false))
    ensures ModelsTtl in r && r[ModelsTtl] == Count(server.modelsTtl.GetOr(0))
    ensures server.retryAttempts.Some? ==> Attempts in r && r[Attempts] == Count(server.retryAttempts.value)
    ensures server.retryAttempts.None? && !streaming ==>
              (Attempts in r <==> Attempts in p) && (Attempts in p ==> r[Attempts] == p[Attempts])
    ensures server.retryAttempts.None? && streaming ==>
              Attempts in r &&
              r[Attempts] == (if Attempts in p && p[Attempts] != Count(-1) then p[Attempts] else Count(DefaultStreamingAttempts))
    ensures forall k :: !ServerKey(k) && k != Attempts ==> (k in r <==> k in p) && (k in p ==> r[k] == p[k])
  {
    var forced := p[UseGpu := Flag(server.useGpu.GetOr(false))]
                   [UseGpuLimited := Flag(server.useGpuLimited.GetOr(false))]
                   [Verbose := Flag(server.verbose.GetOr(false))]
                   [ModelsTtl := Count(server.modelsTtl.GetOr(0))];
    if server.retryAttempts.Some? then
      forced[Attempts := Count(server.retryAttempts.value)]
    else if streaming && (Attempts !in forced || forced[Attempts] == Count(-1)) then
      forced[Attempts := Count(DefaultStreamingAttempts)]
    else
      forced
  }

  /** The parameters the pipeline is built with, for a client's `attempts`, a font lookup, a workflow and the server. */
  function TranslatorParams(attempts: Option<int>, font: FontQuery, workflow: string,
                            server: ServerConfig, streaming: bool): (r: Params)
    ensures forall k :: WorkflowKey(k) ==> (k in r <==> k in WorkflowParams(workflow))
    ensures forall k :: WorkflowKey(k) && k in r ==> r[k] == Flag(true)
    ensures forall k :: ServerKey(k) ==> k in r
    ensures streaming && server.retryAttempts.None? ==> Attempts in r && r[Attempts].Count? && r[Attempts].count > 0
    ensures !streaming && server.retryAttempts.None? ==>
              (Attempts in r <==> ClientAttemptsKept(attempts))
  {
    var client := ClientParams(attempts, font, workflow);
    var r := ApplyServerPolicy(client, server, streaming);
    assert forall k :: WorkflowKey(k) ==> (k in r <==> k in client) && (k in client ==> r[k] == client[k]) by {
      forall k | WorkflowKey(k) ensures (k in r <==> k in client) && (k in client ==> r[k] == client[k]) {
        assert !ServerKey(k) && k != Attempts;
      }
    }
    assert streaming && server.retryAttempts.None? ==> Attempts in r && r[Attempts].Count? && r[Attempts].count > 0 by {
      if streaming && server.retryAttempts.None? && Attempts in client {
        assert client[Attempts] == Count(attempts.value);
      }
    }
    r
  }

  /**
   * Server policy wins: two requests that differ in everything the client
   * controls still get the server's GPU, verbosity and model-lifetime
   * settings, and the server's retry count when it has one.
   */
  lemma ServerPolicyWins(a1: Option<int>, f1: FontQuery, w1: string,
                         a2: Option<int>, f2: FontQuery, w2: string,
                         server: ServerConfig, streaming: bool)
    ensures var r1, r2 := TranslatorParams(a1, f1, w1, server, streaming), TranslatorParams(a2, f2, w2, server, streaming);
            (forall k :: ServerKey(k) ==> k in r1 && k in r2 && r1[k] == r2[k]) &&
            (server.retryAttempts.Some? ==> r1[Attempts] == r2[Attempts])
  {
    var r1, r2 := TranslatorParams(a1, f1, w1, server, streaming), TranslatorParams(a2, f2, w2, server, streaming);
    forall k | ServerKey(k) ensures k in r1 && k in r2 && r1[k] == r2[k] {
      assert k == UseGpu || k == UseGpuLimited || k == Verbose || k == ModelsTtl;
    }
  }
}
