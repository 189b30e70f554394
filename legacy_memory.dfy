/**
 * The older store of app/memory.py: integer conversation ids, no
 * `grammar_name` column, a non-claiming `fetch_next_queued`, and
 * `mark_processed`, which can only record success.
 */
module LegacyMemory {
  import opened Wrappers
  import opened JobTable

  /** The AUTOINCREMENT ids handed out by `n` inserts. */
  function IdsUpTo(n: nat): (ids: set<int>)
    ensures forall k :: k in ids <==> 1 <= k <= n
  {
    if n == 0 then {} else IdsUpTo(n - 1) + {n}
  }

  class LegacyStore {
    /** The `conversations` table: the title of conversation id k is `titles[k - 1]`. */
    var titles: seq<string>
    var messages: seq<Message<int>>
    var jobs: seq<Job<int>>

    ghost predicate Valid()
      reads this
    {
      IdsAreRowNumbers(jobs) && forall i :: 0 <= i < |jobs| ==> jobs[i].grammarName == None
    }

    constructor ()
      ensures Valid()
      ensures titles == [] && messages == [] && jobs == []
    {
      titles, messages, jobs := [], [], [];
    }

    /** The ids of the stored conversations. */
    function ConversationIds(): set<int>
      reads this
    {
      IdsUpTo(|titles|)
    }

    /** `create_conversation`: insert a row and return its AUTOINCREMENT id, one past every existing id. */
    method CreateConversation(title: string) returns (id: nat)
      modifies this`titles
      ensures id == |old(titles)| + 1 && id !in old(ConversationIds())
      ensures ConversationIds() == old(ConversationIds()) + {id as int}
      ensures titles == old(titles) + [title]
    {
      titles := titles + [title];
      id := |titles|;
    }

    /** `add_message` */
    method AddMessage(conversationId: int, role: string, content: string)
      modifies this`messages
      ensures messages == old(messages) + [Message(conversationId, role, content)]
    {
      messages := messages + [Message(conversationId, role, content)];
    }

    /** `get_conversation_messages` */
    function ConversationMessages(conversationId: int): seq<Turn>
      reads this
    {
      Transcript(messages, conversationId)
    }

    /** `queue_prompt`: append one `queued` row and return its id. */
    method QueuePrompt(conversationId: int, userInput: string, model: string, systemPrompt: string, now: Timestamp)
      returns (id: nat)
      requires Valid()
      modifies this`jobs
      ensures Valid()
      ensures id == |old(jobs)| + 1
      ensures jobs == old(jobs) + [Job(id, conversationId, userInput, model, systemPrompt, None, Queued, None, now, None)]
    {
      id := |jobs| + 1;
      jobs := jobs + [Job(id, conversationId, userInput, model, systemPrompt, None, Queued, None, now, None)];
    }

    /**
     * `fetch_next_queued`: report a queued row with the smallest `created_at`
     * without changing any status, so the row stays queued and a second
     * poller may be handed the same job.
     */
    method FetchNextQueued() returns (t: Option<Ticket<int>>)
      requires Valid()
      ensures t.None? <==> !AnyQueued(jobs)
      ensures t.Some? ==> 1 <= t.value.id <= |jobs| && IsOldestQueued(jobs, t.value.id - 1)
                          && t.value == TicketOf(jobs[t.value.id - 1])
    {
      if i :| 0 <= i < |jobs| && IsQueued(jobs, i) {
        OldestQueuedExists(jobs);
        var k :| 0 <= k < |jobs| && IsOldestQueued(jobs, k);
        t := Some(TicketOf(jobs[k]));
      } else {
        t := None;
      }
    }

    /** `mark_processed`: set status `done`, the result and `processed_at` of that id; there is no error status in this store. */
    method MarkProcessed(id: nat, result: string, now: Timestamp)
      requires Valid()
      modifies this`jobs
      ensures Valid()
      ensures jobs == Finished(old(jobs), id, Done, result, now)
    {
      FinishedTouchesOnlyId(jobs, id, Done, result, now);
      jobs := Finished(jobs, id, Done, result, now);
    }
  }
}
