/**
 * One iteration of `worker_loop` in queue_worker.py: claim a job, assemble
 * the conversation history, call the model, persist the outcome.  The
 * model call is an opaque function from (model key, history) to either
 * reply text or a raised error; `time.sleep` and logging are not modelled.
 */
module QueueWorker {
  import opened Wrappers
  import opened JobTable
  import Strings
  import Memory

  const EmptyOutputMessage := "Empty model output"

  /** What `run_model(model_key, history)` does: return text, or raise an exception whose `str(e)` is `message`. */
  datatype ModelOutcome = Reply(text: string) | Raised(message: string)

  /** The user turn is missing unless the last stored turn is a user turn with the same stripped content. */
  predicate NeedsUserTurn(history: seq<Turn>, userInput: string) {
    userInput != ""
    && (history == [] || history[|history| - 1].role != Memory.UserRole
        || Strings.Strip(history[|history| - 1].content) != userInput)
  }

  /** The system prompt is missing unless the first turn is a system turn with the same stripped content. */
  predicate NeedsSystemTurn(history: seq<Turn>, systemPrompt: string) {
    systemPrompt != ""
    && (history == [] || history[0].role != Memory.SystemRole || Strings.Strip(history[0].content) != systemPrompt)
  }

  /** The stored transcript with the user turn appended when missing (lines 45-46). */
  function WithUserTurn(stored: seq<Turn>, userInput: string): seq<Turn> {
    if NeedsUserTurn(stored, userInput) then stored + [Turn(Memory.UserRole, userInput)] else stored
  }

  /**
   * The history handed to the model: the stored transcript, the user turn
   * appended when missing, then the system prompt put first when missing
   * (lines 42-50).  `userInput` and `systemPrompt` arrive already stripped.
   */
  function AssembleHistory(stored: seq<Turn>, userInput: string, systemPrompt: string): seq<Turn> {
    var withUser := WithUserTurn(stored, userInput);
    if NeedsSystemTurn(withUser, systemPrompt) then [Turn(Memory.SystemRole, systemPrompt)] + withUser else withUser
  }

  /** The history is the optional system turn, then the stored turns in order, then the optional user turn. */
  lemma HistoryLayout(stored: seq<Turn>, userInput: string, systemPrompt: string, h: seq<Turn>)
    requires h == AssembleHistory(stored, userInput, systemPrompt)
    ensures h == (if NeedsSystemTurn(WithUserTurn(stored, userInput), systemPrompt) then [Turn(Memory.SystemRole, systemPrompt)] else [])
                 + stored
                 + (if NeedsUserTurn(stored, userInput) then [Turn(Memory.UserRole, userInput)] else [])
  {
    var withUser := WithUserTurn(stored, userInput);
    assert withUser == stored + (if NeedsUserTurn(stored, userInput) then [Turn(Memory.UserRole, userInput)] else []);
    if NeedsSystemTurn(withUser, systemPrompt) {
      assert h == [Turn(Memory.SystemRole, systemPrompt)] + withUser;
    } else {
      assert h == [] + withUser;
    }
  }

  /** A non-empty input always ends the history as a user turn with that text. */
  lemma UserTurnIsLast(stored: seq<Turn>, userInput: string, systemPrompt: string, h: seq<Turn>)
    requires h == AssembleHistory(stored, userInput, systemPrompt)
    requires userInput != "" && Strings.Strip(userInput) == userInput
    ensures |h| > 0 && h[|h| - 1].role == Memory.UserRole && Strings.Strip(h[|h| - 1].content) == userInput
  {
    var withUser := WithUserTurn(stored, userInput);
    if NeedsUserTurn(stored, userInput) {
      assert withUser == stored + [Turn(Memory.UserRole, userInput)];
      assert withUser[|withUser| - 1] == Turn(Memory.UserRole, userInput);
    } else {
      assert withUser == stored;
    }
    if NeedsSystemTurn(withUser, systemPrompt) {
      assert h == [Turn(Memory.SystemRole, systemPrompt)] + withUser;
      assert h[|h| - 1] == withUser[|withUser| - 1];
    } else {
      assert h == withUser;
    }
  }

  /** A non-empty system prompt always heads the history, and is not put in front of an identical one. */
  lemma SystemPromptIsFirstOnce(stored: seq<Turn>, userInput: string, systemPrompt: string, h: seq<Turn>)
    requires h == AssembleHistory(stored, userInput, systemPrompt)
    requires systemPrompt != "" && Strings.Strip(systemPrompt) == systemPrompt
    ensures |h| > 0 && h[0].role == Memory.SystemRole && Strings.Strip(h[0].content) == systemPrompt
    ensures |stored| > 0 && stored[0].role == Memory.SystemRole && Strings.Strip(stored[0].content) == systemPrompt
            ==> h[..|stored|] == stored
  {
    var withUser := WithUserTurn(stored, userInput);
    if NeedsSystemTurn(withUser, systemPrompt) {
      assert h == [Turn(Memory.SystemRole, systemPrompt)] + withUser;
    } else {
      assert h == withUser;
    }
    if |stored| > 0 && stored[0].role == Memory.SystemRole && Strings.Strip(stored[0].content) == systemPrompt {
      assert withUser[0] == stored[0];
      assert h == withUser;
      assert withUser[..|stored|] == stored;
    }
  }

  /** How a claimed job ends: its final status, its result text, and the assistant message saved, if any. */
  datatype Completion = Completion(status: Status, result: string, saved: Option<string>)

  /** Run the model on the assembled history and decide the job's outcome (lines 36-74). */
  function Complete(t: Ticket<string>, transcript: seq<Turn>, runModel: (string, seq<Turn>) -> ModelOutcome): (c: Completion)
    ensures c.status == Done || c.status == Error
    ensures c.saved.Some? <==> c.status == Done
    ensures c.status == Done ==> c.saved == Some(c.result) && c.result != "" && Strings.Strip(c.result) == c.result
  {
    var history := AssembleHistory(transcript, Strings.Strip(t.userInput), Strings.Strip(t.systemPrompt));
    match runModel(t.model, history)
    case Raised(e) => Completion(Error, e, None)
    case Reply(text) =>
      var reply := Strings.Strip(text);
      if reply == "" then Completion(Error, EmptyOutputMessage, None)
      else
        Strings.StripIdempotent(text);
        Completion(Done, reply, Some(reply))
  }

  /** The three outcomes: a raised error, a blank reply, a saved reply. */
  lemma CompletionCases(t: Ticket<string>, transcript: seq<Turn>, runModel: (string, seq<Turn>) -> ModelOutcome)
    ensures var out := runModel(t.model, AssembleHistory(transcript, Strings.Strip(t.userInput), Strings.Strip(t.systemPrompt)));
      var c := Complete(t, transcript, runModel);
      && (out.Raised? ==> c == Completion(Error, out.message, None))
      && (out.Reply? && Strings.IsBlank(out.text) ==> c == Completion(Error, EmptyOutputMessage, None))
      && (out.Reply? && !Strings.IsBlank(out.text) ==> c == Completion(Done, Strings.Strip(out.text), Some(Strings.Strip(out.text))))
  {
    var out := runModel(t.model, AssembleHistory(transcript, Strings.Strip(t.userInput), Strings.Strip(t.systemPrompt)));
    if out.Reply? {
      Strings.StripEmptyIffBlank(out.text);
    }
  }

  /**
   * Lines 34-64 and 67-71 for a job already claimed: run the model and
   * persist the outcome, the assistant message first.
   */
  method Process(store: Memory.JobStore, t: Ticket<string>,
                 runModel: (string, seq<Turn>) -> ModelOutcome, now: Timestamp)
    requires store.Valid()
    modifies store`jobs, store`messages
    ensures store.Valid()
    ensures var c := Complete(t, Transcript(old(store.messages), t.conversationId), runModel);
      store.messages == old(store.messages)
        + (if c.saved.Some? then [Message(t.conversationId, Memory.AssistantRole, c.saved.value)] else [])
    ensures var c := Complete(t, Transcript(old(store.messages), t.conversationId), runModel);
      store.jobs == Finished(old(store.jobs), t.id, c.status, c.result, now)
  {
    ghost var c := Complete(t, Transcript(store.messages, t.conversationId), runModel);
    var userInput := Strings.Strip(t.userInput);
    var systemPrompt := Strings.Strip(t.systemPrompt);
    var history := AssembleHistory(store.ConversationMessages(t.conversationId), userInput, systemPrompt);
    var outcome := runModel(t.model, history);
    match outcome
    case Raised(e) =>
      assert c == Completion(Error, e, None);
      store.MarkJobDone(t.id, true, e, now);
    case Reply(text) =>
      var reply := Strings.Strip(text);
      if reply == "" {
        assert c == Completion(Error, EmptyOutputMessage, None);
        store.MarkJobDone(t.id, true, EmptyOutputMessage, now);
      } else {
        assert c == Completion(Done, reply, Some(reply));
        store.SaveAssistantMessage(t.conversationId, reply);
        store.MarkJobDone(t.id, false, reply, now);
      }
  }

  /**
   * One pass of the `while True` body.  `bound` is the `jid` left bound by
   * earlier passes (Python keeps loop locals alive), `claimFault` an
   * exception raised inside `claim_next_job`, and `now` the clock.
   */
  method Iterate(store: Memory.JobStore, bound: Option<nat>, claimFault: Option<string>,
                 runModel: (string, seq<Turn>) -> ModelOutcome, now: Timestamp)
    returns (claimed: Option<Ticket<string>>, bound': Option<nat>)
    requires store.Valid()
    modifies store`jobs, store`messages
    ensures store.Valid()
    ensures claimFault.Some? ==>
      && claimed == None && bound' == bound && store.messages == old(store.messages)
      && store.jobs == if bound.Some? then Finished(old(store.jobs), bound.value, Error, claimFault.value, now)
                       else old(store.jobs)
    ensures claimFault.None? ==> ClaimStep(old(store.jobs), ClaimedTable(old(store.jobs), claimed), claimed)
    ensures claimFault.None? && claimed.None? ==>
      bound' == bound && store.messages == old(store.messages) && store.jobs == old(store.jobs)
    ensures claimFault.None? && claimed.Some? ==>
      var t := claimed.value;
      var c := Complete(t, Transcript(old(store.messages), t.conversationId), runModel);
      && bound' == Some(t.id)
      && store.messages == old(store.messages)
           + (if c.saved.Some? then [Message(t.conversationId, Memory.AssistantRole, c.saved.value)] else [])
      && store.jobs == Finished(ClaimedTable(old(store.jobs), claimed), t.id, c.status, c.result, now)
  {
    if claimFault.Some? {
      if bound.Some? {
        store.MarkJobDone(bound.value, true, claimFault.value, now);
      }
      claimed, bound' := None, bound;
      return;
    }
    claimed := store.ClaimNextJob();
    if claimed.None? {
      bound' := bound;
      return;
    }
    bound' := Some(claimed.value.id);
    Process(store, claimed.value, runModel, now);
  }

  /**
   * The iteration with `jid` scoped to the pass, as the `'jid' in locals()`
   * guard evidently intends: a failing claim marks nothing, so only the job
   * claimed in this pass can change and a finished job stays finished.
   */
  method IterateScoped(store: Memory.JobStore, claimFault: Option<string>,
                       runModel: (string, seq<Turn>) -> ModelOutcome, now: Timestamp)
    returns (claimed: Option<Ticket<string>>)
    requires store.Valid()
    modifies store`jobs, store`messages
    ensures store.Valid()
    ensures claimFault.Some? ==>
      claimed == None && store.messages == old(store.messages) && store.jobs == old(store.jobs)
    ensures claimFault.None? ==> ClaimStep(old(store.jobs), ClaimedTable(old(store.jobs), claimed), claimed)
    ensures claimFault.None? && claimed.None? ==>
      store.messages == old(store.messages) && store.jobs == old(store.jobs)
    ensures claimed.Some? ==>
      var t := claimed.value;
      var c := Complete(t, Transcript(old(store.messages), t.conversationId), runModel);
      && store.messages == old(store.messages)
           + (if c.saved.Some? then [Message(t.conversationId, Memory.AssistantRole, c.saved.value)] else [])
      && store.jobs == Finished(ClaimedTable(old(store.jobs), claimed), t.id, c.status, c.result, now)
    ensures |store.jobs| == |old(store.jobs)|
    ensures forall k :: 0 <= k < |old(store.jobs)| && (claimed.None? || k != claimed.value.id - 1)
              ==> store.jobs[k] == old(store.jobs)[k]
    ensures forall k :: 0 <= k < |old(store.jobs)| && old(store.jobs)[k].status.IsTerminal()
              ==> store.jobs[k] == old(store.jobs)[k]
  {
    var jid;
    claimed, jid := Iterate(store, None, claimFault, runModel, now);
    if claimed.Some? {
      var t := claimed.value;
      ghost var c := Complete(t, Transcript(old(store.messages), t.conversationId), runModel);
      ghost var taken := Claimed(old(store.jobs), t.id - 1);
      assert old(store.jobs)[t.id - 1].status == Queued;
      FinishedTouchesOnlyId(taken, t.id, c.status, c.result, now);
    }
  }
}
