/**
 * app/model_runner.py: the older runner.  It renders the prompt exactly as
 * model_runner.py does (`ModelRunner.Prompt`), loads engines with its own
 * options, takes `max_tokens` from per-model settings with a global
 * fallback, and stops generation at the role headers.
 */
module LegacyModelRunner {
  import opened Wrappers
  import opened JobTable
  import Strings
  import ModelRunner
  import QueueWorker

  /** app/model_runner.py lines 29-34: no batch size and no mmap argument, eight threads, memory locked. */
  const LegacyLoadOptions := ModelRunner.LoadOptions(4096, 8, None, None, true)

  /** The fallback for `MAX_TOKENS` in both configuration branches (lines 11 and 17). */
  const DefaultMaxTokens := 512

  /**
   * `MAX_TOKENS` (lines 7-17): the config file's `max_tokens` when the file
   * exists, the environment's `MAX_TOKENS` otherwise, 512 when the chosen
   * source does not set it.
   */
  function GlobalMaxTokens(configFileExists: bool, configMax: Option<int>, envMax: Option<int>): (m: int)
    ensures configFileExists && configMax.Some? ==> m == configMax.value
    ensures !configFileExists && envMax.Some? ==> m == envMax.value
    ensures (if configFileExists then configMax else envMax).None? ==> m == DefaultMaxTokens
  {
    if configFileExists then configMax.GetOr(DefaultMaxTokens) else envMax.GetOr(DefaultMaxTokens)
  }

  /** Neither source set: the limit is 512 whichever branch ran. */
  lemma MaxTokensDefault(configFileExists: bool)
    ensures GlobalMaxTokens(configFileExists, None, None) == DefaultMaxTokens
  {
  }

  /**
   * The `max_tokens` argument of line 59: the model's own setting when its
   * entry has one, the global limit otherwise.
   */
  function ResolveMaxTokens(modelSettings: map<string, map<string, int>>, key: string, globalMax: int): (n: int)
    ensures key in modelSettings && "max_tokens" in modelSettings[key] ==> n == modelSettings[key]["max_tokens"]
    ensures !(key in modelSettings && "max_tokens" in modelSettings[key]) ==> n == globalMax
  {
    var entry := if key in modelSettings then modelSettings[key] else map[];
    if "max_tokens" in entry then entry["max_tokens"] else globalMax
  }

  /**
   * No bound is applied: a per-model setting reaches the engine unchanged,
   * even one larger than the 4096-token window or below zero.
   */
  lemma MaxTokensNotClamped(key: string, n: int, globalMax: int)
    ensures ResolveMaxTokens(map[key := map["max_tokens" := n]], key, globalMax) == n
  {
  }

  /** Line 60. */
  const StopStrings: seq<string> := ["[USER]", "[SYSTEM]", "[ASSISTANT]"]

  /**
   * The stop strings are exactly the three role headers the prompt uses,
   * without their newline, so generation halts before the model writes a new turn.
   */
  lemma StopStringsAreHeaders()
    ensures |StopStrings| == 3
    ensures ModelRunner.Header("user") == Some(StopStrings[0] + "\n")
    ensures ModelRunner.Header("system") == Some(StopStrings[1] + "\n")
    ensures ModelRunner.Header("assistant") == Some(StopStrings[2] + "\n")
    ensures ModelRunner.AssistantCue == StopStrings[2] + "\n"
  {
    assert StopStrings[0] + "\n" == "[USER]\n";
    assert StopStrings[1] + "\n" == "[SYSTEM]\n";
    assert StopStrings[2] + "\n" == "[ASSISTANT]\n";
    assert "user"[0] != "system"[0];
    assert "assistant"[0] != "system"[0] && "assistant"[0] != "user"[0];
  }

  /** The arguments of the engine call (lines 57-62). */
  datatype Request = Request(prompt: string, maxTokens: int, stop: seq<string>, echo: bool)

  /**
   * `run_model` (lines 53-64): fetch the engine through the cache, send it the
   * rendered prompt, and strip the generated text.  `generate` is the opaque
   * engine call, which may itself raise; a failure to load the engine
   * (`loadError`, as in `ModelCache.GetModel`) is raised before any generation.
   */
  method RunModel(cache: ModelRunner.ModelCache, key: string, messages: seq<Turn>,
                  modelSettings: map<string, map<string, int>>, globalMax: int,
                  pathExists: string -> bool, loadError: string -> Option<string>,
                  generate: (ModelRunner.Engine, Request) -> QueueWorker.ModelOutcome)
    returns (out: QueueWorker.ModelOutcome)
    requires cache.Valid() && cache.options == LegacyLoadOptions
    modifies cache`loaded
    ensures cache.Valid()
    ensures key !in old(cache.loaded) && (key !in cache.paths || cache.paths[key] == "" || !pathExists(cache.paths[key])) ==>
      out == QueueWorker.Raised(ModelRunner.NotFoundMessage(key)) && cache.loaded == old(cache.loaded)
    ensures key in old(cache.loaded) ==> cache.loaded == old(cache.loaded)
    ensures key !in old(cache.loaded) && key in cache.paths && cache.paths[key] != "" && pathExists(cache.paths[key])
            && loadError(cache.paths[key]).Some? ==>
      out == QueueWorker.Raised(loadError(cache.paths[key]).value) && cache.loaded == old(cache.loaded)
    ensures key !in old(cache.loaded) && key in cache.paths && cache.paths[key] != "" && pathExists(cache.paths[key])
            && loadError(cache.paths[key]).None? ==>
      && key in cache.loaded && fresh(cache.loaded[key])
      && cache.loaded[key].path == cache.paths[key] && cache.loaded[key].options == LegacyLoadOptions
      && cache.loaded == old(cache.loaded)[key := cache.loaded[key]]
    ensures key in cache.loaded ==>
      var req := Request(ModelRunner.Prompt(messages), ResolveMaxTokens(modelSettings, key, globalMax), StopStrings, false);
      out == (match generate(cache.loaded[key], req)
              case Raised(e) => QueueWorker.Raised(e)
              case Reply(text) => QueueWorker.Reply(Strings.Strip(text)))
  {
    var model := cache.GetModel(key, pathExists, loadError);
    if model.Failure? {
      return QueueWorker.Raised(model.error);
    }
    var prompt := ModelRunner.FormatMessages(messages);
    var output := generate(model.value, Request(prompt, ResolveMaxTokens(modelSettings, key, globalMax), StopStrings, false));
    match output
    case Raised(e) => out := QueueWorker.Raised(e);
    case Reply(text) => out := QueueWorker.Reply(Strings.Strip(text));
  }
}
