/**
 * One iteration of `worker_loop` in app/queue_worker.py, the older worker.
 * It imports `claim_next_job`, `save_assistant_message` and `mark_job_done`,
 * which only memory.py defines, so it runs against `Memory.JobStore`.
 * Unlike queue_worker.py it compares the user turn unstripped, always puts
 * the system prompt first, stores any reply (even an empty one), and keeps
 * `claim_next_job` outside its `try`.
 */
module LegacyQueueWorker {
  import opened Wrappers
  import opened JobTable
  import Strings
  import Memory
  import QueueWorker

  /** The user turn is appended unless the last stored turn is a user turn with exactly this content. */
  predicate NeedsUserTurn(history: seq<Turn>, userInput: string) {
    history == [] || history[|history| - 1].role != Memory.UserRole
    || history[|history| - 1].content != userInput
  }

  /** The history handed to the model (lines 31-39). */
  function AssembleHistory(stored: seq<Turn>, userInput: string, systemPrompt: string): seq<Turn> {
    var withUser := if NeedsUserTurn(stored, userInput) then stored + [Turn(Memory.UserRole, userInput)] else stored;
    var sp := Strings.Strip(systemPrompt);
    if sp != "" then [Turn(Memory.SystemRole, sp)] + withUser else withUser
  }

  /**
   * The stripped system prompt is put first even when the transcript already
   * starts with it, as it does whenever `enqueue_user_message` stored it:
   * the model then sees the prompt twice in a row.
   */
  lemma SystemPromptDuplicated(stored: seq<Turn>, userInput: string, systemPrompt: string, h: seq<Turn>)
    requires h == AssembleHistory(stored, userInput, systemPrompt)
    requires |stored| > 0 && stored[0] == Turn(Memory.SystemRole, systemPrompt)
    requires systemPrompt != "" && Strings.Strip(systemPrompt) == systemPrompt
    ensures |h| >= 2 && h[0] == h[1] == Turn(Memory.SystemRole, systemPrompt)
  {
    var withUser := if NeedsUserTurn(stored, userInput) then stored + [Turn(Memory.UserRole, userInput)] else stored;
    assert withUser[0] == stored[0];
    assert h == [Turn(Memory.SystemRole, systemPrompt)] + withUser;
  }

  /** The transcript `enqueue_user_message` stores for input "Hi" under system prompt "Be brief". */
  function ExampleTranscript(): seq<Turn> {
    [Turn("system", "Be brief"), Turn("user", "Hi")]
  }

  /** The older worker sends that transcript with the system prompt twice. */
  lemma DuplicateExample()
    ensures AssembleHistory(ExampleTranscript(), "Hi", "Be brief")
            == [Turn("system", "Be brief"), Turn("system", "Be brief"), Turn("user", "Hi")]
  {
    var stored := ExampleTranscript();
    assert Strings.Strip("Be brief") == "Be brief" by { Strings.StripTrimmed("Be brief"); }
    assert !NeedsUserTurn(stored, "Hi");
    assert AssembleHistory(stored, "Hi", "Be brief") == [Turn("system", "Be brief")] + stored;
  }

  /**
   * For a transcript that already holds the system prompt and the user turn,
   * the newer worker sends it unchanged while the older one repeats the prompt.
   */
  lemma WorkersDisagree(sp: string, ui: string)
    requires sp != "" && !Strings.IsSpace(sp[0]) && !Strings.IsSpace(sp[|sp| - 1])
    requires ui != "" && !Strings.IsSpace(ui[0]) && !Strings.IsSpace(ui[|ui| - 1])
    ensures var stored := [Turn(Memory.SystemRole, sp), Turn(Memory.UserRole, ui)];
      && QueueWorker.AssembleHistory(stored, ui, sp) == stored
      && AssembleHistory(stored, ui, sp) == [Turn(Memory.SystemRole, sp)] + stored
  {
    var stored := [Turn(Memory.SystemRole, sp), Turn(Memory.UserRole, ui)];
    Strings.StripTrimmed(sp);
    Strings.StripTrimmed(ui);
    assert stored[|stored| - 1].content == ui;
    assert !QueueWorker.NeedsUserTurn(stored, ui);
    assert QueueWorker.WithUserTurn(stored, ui) == stored;
    assert stored[0].content == sp;
    assert !QueueWorker.NeedsSystemTurn(stored, sp);
    assert !NeedsUserTurn(stored, ui);
  }

  /** On success the reply is stored as it came, and the job is `done` with it. */
  function Complete(t: Ticket<string>, transcript: seq<Turn>,
                    runModel: (string, seq<Turn>) -> QueueWorker.ModelOutcome): (c: QueueWorker.Completion)
    ensures c.status == Done || c.status == Error
    ensures c.saved.Some? <==> c.status == Done
    ensures c.status == Done ==> c.saved == Some(c.result)
  {
    match runModel(t.model, AssembleHistory(transcript, t.userInput, t.systemPrompt))
    case Raised(e) => QueueWorker.Completion(Error, e, None)
    case Reply(text) => QueueWorker.Completion(Done, text, Some(text))
  }

  /**
   * The two outcomes: a raised error makes the job `error` with its message
   * and saves nothing; any reply, unmodified, is saved and becomes the
   * `done` result.
   */
  lemma CompletionCases(t: Ticket<string>, transcript: seq<Turn>,
                        runModel: (string, seq<Turn>) -> QueueWorker.ModelOutcome)
    ensures var out := runModel(t.model, AssembleHistory(transcript, t.userInput, t.systemPrompt));
      var c := Complete(t, transcript, runModel);
      && (out.Raised? ==> c == QueueWorker.Completion(Error, out.message, None))
      && (out.Reply? ==> c == QueueWorker.Completion(Done, out.text, Some(out.text)))
  {
  }

  /** A blank reply is saved and marked `done`: the older worker has no empty-output guard. */
  lemma BlankReplyIsDone(t: Ticket<string>, transcript: seq<Turn>,
                         runModel: (string, seq<Turn>) -> QueueWorker.ModelOutcome)
    requires runModel(t.model, AssembleHistory(transcript, t.userInput, t.systemPrompt)) == QueueWorker.Reply("")
    ensures Complete(t, transcript, runModel) == QueueWorker.Completion(Done, "", Some(""))
  {
  }

  /** One pass of the `while True` body: claim, and if a job came back, process it inside the `try`. */
  method Iterate(store: Memory.JobStore, runModel: (string, seq<Turn>) -> QueueWorker.ModelOutcome, now: Timestamp)
    returns (claimed: Option<Ticket<string>>)
    requires store.Valid()
    modifies store`jobs, store`messages
    ensures store.Valid()
    ensures ClaimStep(old(store.jobs), ClaimedTable(old(store.jobs), claimed), claimed)
    ensures claimed.None? ==> store.messages == old(store.messages) && store.jobs == old(store.jobs)
    ensures claimed.Some? ==>
      var t := claimed.value;
      var c := Complete(t, Transcript(old(store.messages), t.conversationId), runModel);
      && store.messages == old(store.messages)
           + (if c.saved.Some? then [Message(t.conversationId, Memory.AssistantRole, c.saved.value)] else [])
      && store.jobs == Finished(ClaimedTable(old(store.jobs), claimed), t.id, c.status, c.result, now)
  {
    claimed := store.ClaimNextJob();
    if claimed.None? {
      return;
    }
    var t := claimed.value;
    var history := AssembleHistory(store.ConversationMessages(t.conversationId), t.userInput, t.systemPrompt);
    match runModel(t.model, history)
    case Raised(e) =>
      store.MarkJobDone(t.id, true, e, now);
    case Reply(reply) =>
      store.SaveAssistantMessage(t.conversationId, reply);
      store.MarkJobDone(t.id, false, reply, now);
  }
}
