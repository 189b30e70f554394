/**
 * model_runner.py: rendering a role-tagged history into one prompt string,
 * the elastic generation budget of `run_model`, and the `get_model` cache of
 * loaded engines.  The engine itself, its tokenizer and `os.path.exists` are
 * outside the model: they appear as parameters or as an opaque `Engine`.
 */
module ModelRunner {
  import opened Wrappers
  import opened JobTable

  /** The tag line opening a block for `role`, for the three roles that get one. */
  function Header(role: string): (h: Option<string>)
    ensures h.Some? <==> role == "system" || role == "user" || role == "assistant"
  {
    if role == "system" then Some("[SYSTEM]\n")
    else if role == "user" then Some("[USER]\n")
    else if role == "assistant" then Some("[ASSISTANT]\n")
    else None
  }

  /** The cue that closes every prompt, inviting the assistant to answer. */
  const AssistantCue := "[ASSISTANT]\n"

  /** What one message adds to the prompt: its header, its content and a newline, or nothing for another role. */
  function Block(t: Turn): string {
    match Header(t.role)
    case None => ""
    case Some(h) => h + t.content + "\n"
  }

  /** The blocks of `ts`, in order. */
  function RenderTurns(ts: seq<Turn>): string {
    if ts == [] then "" else Block(ts[0]) + RenderTurns(ts[1..])
  }

  /** The prompt `format_messages` builds. */
  function Prompt(ts: seq<Turn>): string {
    RenderTurns(ts) + AssistantCue
  }

  /** `format_messages` (lines 43-55): extend the prompt message by message, then append the cue. */
  method FormatMessages(messages: seq<Turn>) returns (prompt: string)
    ensures prompt == Prompt(messages)
  {
    prompt := "";
    var i := 0;
    while i < |messages|
      invariant 0 <= i <= |messages|
      invariant prompt == RenderTurns(messages[..i])
    {
      var msg := messages[i];
      var block := "";
      if msg.role == "system" {
        block := "[SYSTEM]\n" + msg.content + "\n";
      } else if msg.role == "user" {
        block := "[USER]\n" + msg.content + "\n";
      } else if msg.role == "assistant" {
        block := "[ASSISTANT]\n" + msg.content + "\n";
      }
      assert block == Block(msg);
      assert messages[..i + 1] == messages[..i] + [msg];
      RenderAppend(messages[..i], [msg]);
      RenderOne(msg);
      prompt := prompt + block;
      i := i + 1;
    }
    assert messages[..i] == messages;
    prompt := prompt + "[ASSISTANT]\n";
  }

  /** Rendering distributes over concatenation of histories. */
  lemma {:induction false} RenderAppend(a: seq<Turn>, b: seq<Turn>)
    ensures RenderTurns(a + b) == RenderTurns(a) + RenderTurns(b)
  {
    if a == [] {
      assert a + b == b;
    } else {
      assert (a + b)[1..] == a[1..] + b;
      assert (a + b)[0] == a[0];
      RenderAppend(a[1..], b);
    }
  }

  /** A single message renders to its block. */
  lemma RenderOne(t: Turn)
    ensures RenderTurns([t]) == Block(t)
  {
    assert [t][1..] == [];
  }

  /**
   * Every message's block sits in the prompt right after the blocks of the
   * messages before it and right before the blocks of those after it.
   */
  lemma BlockInPlace(ts: seq<Turn>, k: nat)
    requires k < |ts|
    ensures Prompt(ts) == RenderTurns(ts[..k]) + Block(ts[k]) + RenderTurns(ts[k + 1..]) + AssistantCue
  {
    assert ts == ts[..k] + [ts[k]] + ts[k + 1..];
    RenderAppend(ts[..k] + [ts[k]], ts[k + 1..]);
    RenderAppend(ts[..k], [ts[k]]);
    RenderOne(ts[k]);
  }

  /** The prompt always ends with the assistant cue, preceded by exactly the rendered messages. */
  lemma PromptEndsWithCue(ts: seq<Turn>)
    ensures |Prompt(ts)| >= |AssistantCue|
    ensures Prompt(ts)[|Prompt(ts)| - |AssistantCue|..] == AssistantCue
    ensures Prompt([]) == AssistantCue
  {
  }

  /** A message whose role is not system, user or assistant leaves the prompt as if it were absent. */
  lemma UnknownRoleIgnored(a: seq<Turn>, t: Turn, b: seq<Turn>)
    requires Header(t.role).None?
    ensures Prompt(a + [t] + b) == Prompt(a + b)
  {
    RenderAppend(a + [t], b);
    RenderAppend(a, [t]);
    RenderAppend(a, b);
    RenderOne(t);
  }

  /** The smallest generation budget `run_model` ever asks for (line 64). */
  const MinBudget := 256
  /** The context size assumed when the engine does not report one (line 60). */
  const DefaultContext := 4096

  /**
   * `remaining` (lines 60-64): what is left of the context window after the
   * prompt tokens and the safety margin, but never less than `MinBudget`.
   */
  function Remaining(reportedCtx: Option<int>, promptTokens: nat, margin: int): (r: int)
    ensures var n := reportedCtx.GetOr(DefaultContext);
      && r >= MinBudget
      && r >= n - promptTokens - margin
      && (r == MinBudget || r == n - promptTokens - margin)
  {
    var n := reportedCtx.GetOr(DefaultContext);
    if n - promptTokens - margin > MinBudget then n - promptTokens - margin else MinBudget
  }

  /** When the window has room, prompt, margin and budget fill it exactly. */
  lemma RemainingFillsWindow(nCtx: int, promptTokens: nat, margin: int)
    requires nCtx - promptTokens - margin >= MinBudget
    ensures Remaining(Some(nCtx), promptTokens, margin) + promptTokens + margin == nCtx
  {
  }

  /** A longer prompt never gets a larger budget. */
  lemma RemainingAntitone(reportedCtx: Option<int>, p: nat, q: nat, margin: int)
    requires p <= q
    ensures Remaining(reportedCtx, q, margin) <= Remaining(reportedCtx, p, margin)
  {
  }

  /** The keyword arguments `get_model` passes to `Llama(...)`; `None` where it passes none. */
  datatype LoadOptions = LoadOptions(nCtx: nat, nThreads: nat, nBatch: Option<nat>, useMmap: Option<bool>, useMlock: bool)

  /** model_runner.py lines 32-39. */
  const RunnerLoadOptions := LoadOptions(4096, 24, Some(512), Some(true), false)

  /** A loaded `Llama` engine: an object whose identity is what the cache preserves. */
  class Engine {
    const path: string
    const options: LoadOptions

    constructor(path: string, options: LoadOptions)
      ensures this.path == path && this.options == options
    {
      this.path := path;
      this.options := options;
    }
  }

  function NotFoundMessage(key: string): string {
    "Model '" + key + "' not found or path does not exist."
  }

  /** `LOADED_MODELS` together with the `MODEL_PATHS` and load options it is filled from. */
  class ModelCache {
    const paths: map<string, string>
    const options: LoadOptions
    var loaded: map<string, Engine>

    /** Every cached engine was loaded from its key's configured, non-empty path with this cache's options. */
    ghost predicate Valid()
      reads this
    {
      forall k :: k in loaded ==>
        k in paths && paths[k] != "" && loaded[k].path == paths[k] && loaded[k].options == options
    }

    constructor(paths: map<string, string>, options: LoadOptions)
      ensures this.paths == paths && this.options == options && loaded == map[]
      ensures Valid()
    {
      this.paths := paths;
      this.options := options;
      loaded := map[];
    }

    /**
     * `get_model` (lines 26-40): a cached key returns its engine untouched; an
     * uncached key with a configured, existing path loads a fresh engine and
     * caches it; otherwise the `ValueError` leaves the cache as it was.
     * `loadError(path)` is what the engine constructor raises for the file at
     * `path` (a corrupt or incompatible model), or None when it loads; a raise
     * propagates and caches nothing.
     */
    method GetModel(key: string, pathExists: string -> bool, loadError: string -> Option<string>)
      returns (r: Result<Engine, string>)
      requires Valid()
      modifies this`loaded
      ensures Valid()
      ensures key in old(loaded) ==> r == Success(old(loaded)[key]) && loaded == old(loaded)
      ensures key !in old(loaded) && (key !in paths || paths[key] == "" || !pathExists(paths[key])) ==>
        r == Failure(NotFoundMessage(key)) && loaded == old(loaded)
      ensures key !in old(loaded) && key in paths && paths[key] != "" && pathExists(paths[key]) && loadError(paths[key]).Some? ==>
        r == Failure(loadError(paths[key]).value) && loaded == old(loaded)
      ensures key !in old(loaded) && key in paths && paths[key] != "" && pathExists(paths[key]) && loadError(paths[key]).None? ==>
        && r.Success? && fresh(r.value)
        && r.value.path == paths[key] && r.value.options == options
        && loaded == old(loaded)[key := r.value]
    {
      if key !in loaded {
        if key !in paths || paths[key] == "" || !pathExists(paths[key]) {
          return Failure(NotFoundMessage(key));
        }
        var failure := loadError(paths[key]);
        if failure.Some? {
          return Failure(failure.value);
        }
        var engine := new Engine(paths[key], options);
        loaded := loaded[key := engine];
      }
      r := Success(loaded[key]);
    }
  }
}
