/**
 * Whole request-to-reply runs over a fresh store, written as methods whose
 * postconditions fix the outcome: a prompt answered, a prompt whose model
 * call raises, the stale `jid` of queue_worker.py against the scoped
 * binding, and the engine cache reused across calls.
 */
module Scenarios {
  import opened Wrappers
  import opened JobTable
  import Strings
  import Memory
  import QueueWorker
  import ModelRunner
  import Api

  /** A model that answers every history with "Hi there". */
  function Greeter(model: string, history: seq<Turn>): QueueWorker.ModelOutcome {
    QueueWorker.Reply("Hi there")
  }

  /** A model call that raises. */
  function Broken(model: string, history: seq<Turn>): QueueWorker.ModelOutcome {
    QueueWorker.Raised("model crashed")
  }

  /** The body `{"content": "Hello"}` is accepted with the default model and no conversation id. */
  lemma HelloPlan()
    ensures Api.PlanJob(Api.Payload(Some("Hello"), None, None, None)) == Success(Api.Plan("Hello", "mistral", "", "", "Hello"))
  {
    Strings.StripTrimmed("Hello");
    Strings.StripTrimmed("mistral");
    Strings.StripTrimmed("");
  }

  /** Whatever it was asked, `Greeter` makes the job `done` with its stripped reply saved. */
  lemma GreeterCompletes(t: Ticket<string>, transcript: seq<Turn>)
    ensures QueueWorker.Complete(t, transcript, Greeter) == QueueWorker.Completion(Done, "Hi there", Some("Hi there"))
  {
    Strings.StripTrimmed("Hi there");
  }

  /** Whatever it was asked, `Broken` makes the job `error` with the exception text and saves nothing. */
  lemma BrokenFails(t: Ticket<string>, transcript: seq<Turn>)
    ensures QueueWorker.Complete(t, transcript, Broken) == QueueWorker.Completion(Error, "model crashed", None)
  {
  }

  /**
   * A store holding the single job queued by posting "Hello" with no
   * conversation id at time 100: the request's generated UUID, "c1", names
   * the new conversation, titled by the prompt.
   */
  method HelloQueued() returns (store: Memory.JobStore, response: Api.Response)
    ensures fresh(store) && store.Valid()
    ensures store.conversations == map["c1" := "Hello"]
    ensures response == Api.Response(true, Some(1), "c1", true, "mistral")
    ensures store.jobs == [Job(1, "c1", "Hello", "mistral", "", None, Queued, None, 100, None)]
    ensures store.messages == [Message("c1", Memory.UserRole, "Hello")]
  {
    store := new Memory.JobStore();
    HelloPlan();
    var r := Api.CreateJob(store, Api.Payload(Some("Hello"), None, None, None), "c1", 100);
    response := r.value;
  }

  /** "Hello" posted to `/api/jobs` and one worker pass: the job is answered and the reply logged. */
  method AnsweredPrompt() returns (store: Memory.JobStore)
    ensures fresh(store) && store.Valid()
    ensures store.jobs == [Job(1, "c1", "Hello", "mistral", "", None, Done, Some("Hi there"), 100, Some(101))]
    ensures store.messages == [Message("c1", Memory.UserRole, "Hello"), Message("c1", Memory.AssistantRole, "Hi there")]
  {
    var response;
    store, response := HelloQueued();
    ghost var jobs0, messages0 := store.jobs, store.messages;
    assert IsOldestQueued(jobs0, 0);
    var claimed, jid := QueueWorker.Iterate(store, None, None, Greeter, 101);
    assert claimed.Some? && claimed.value.id == 1;
    GreeterCompletes(claimed.value, Transcript(messages0, "c1"));
  }

  /** The same prompt with a model call that raises: the job ends in `error` and no reply is logged. */
  method FailedPrompt() returns (store: Memory.JobStore)
    ensures fresh(store) && store.Valid()
    ensures store.jobs == [Job(1, "c1", "Hello", "mistral", "", None, Error, Some("model crashed"), 100, Some(101))]
    ensures store.messages == [Message("c1", Memory.UserRole, "Hello")]
  {
    var response;
    store, response := HelloQueued();
    ghost var jobs0, messages0 := store.jobs, store.messages;
    assert IsOldestQueued(jobs0, 0);
    var claimed, jid := QueueWorker.Iterate(store, None, None, Broken, 101);
    assert claimed.Some? && claimed.value.id == 1;
    BrokenFails(claimed.value, Transcript(messages0, "c1"));
  }

  /**
   * After the answered prompt, a pass whose `claim_next_job` raises (say the
   * database is locked) while `jid` is still bound to job 1: queue_worker.py
   * turns the finished job into an `error`.
   */
  method StaleBinding() returns (before: Status, after: Status)
    ensures before == Done && after == Error
  {
    var store := AnsweredPrompt();
    before := store.jobs[0].status;
    var claimed, jid := QueueWorker.Iterate(store, Some(1), Some("database is locked"), Greeter, 102);
    after := store.jobs[0].status;
  }

  /** The same failing pass with `jid` scoped to the pass: the finished job stays `done`. */
  method ScopedBinding() returns (before: Status, after: Status)
    ensures before == Done && after == Done
  {
    var store := AnsweredPrompt();
    before := store.jobs[0].status;
    var claimed := QueueWorker.IterateScoped(store, Some("database is locked"), Greeter, 102);
    after := store.jobs[0].status;
  }

  /** Two requests for "mistral" share one engine; an unknown model is refused and nothing is loaded for it. */
  method CacheReuse() returns (first: ModelRunner.Engine, second: ModelRunner.Engine, unknown: Result<ModelRunner.Engine, string>)
    ensures first == second
    ensures first.path == "models/mistral.gguf" && first.options == ModelRunner.RunnerLoadOptions
    ensures unknown == Failure(ModelRunner.NotFoundMessage("llama"))
  {
    var cache := new ModelRunner.ModelCache(map["mistral" := "models/mistral.gguf"], ModelRunner.RunnerLoadOptions);
    var onDisk := (path: string) => true;
    var loads := (path: string) => None;
    var r1 := cache.GetModel("mistral", onDisk, loads);
    var r2 := cache.GetModel("mistral", onDisk, loads);
    first, second := r1.value, r2.value;
    unknown := cache.GetModel("llama", onDisk, loads);
  }

  /** A model file the engine cannot load: the engine's error comes back, nothing is cached, and a later request tries again. */
  method CorruptModel() returns (first: Result<ModelRunner.Engine, string>, again: Result<ModelRunner.Engine, string>)
    ensures first == Failure("failed to load model") && again == first
  {
    var cache := new ModelRunner.ModelCache(map["mistral" := "models/mistral.gguf"], ModelRunner.RunnerLoadOptions);
    var onDisk := (path: string) => true;
    var corrupt := (path: string) => Some("failed to load model");
    first := cache.GetModel("mistral", onDisk, corrupt);
    again := cache.GetModel("mistral", onDisk, corrupt);
  }
}
