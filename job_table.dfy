/**
 * Rows of the `chat_queue` and `messages` tables and the queries the stores
 * run over them, as pure functions on sequences of rows.  A table is a
 * sequence in insertion order; the core never deletes rows, and ids come from
 * SQLite's AUTOINCREMENT, so the row at position i has id i + 1.
 */
module JobTable {
  import opened Wrappers

  /** Seconds of an abstract clock; `CURRENT_TIMESTAMP` has one-second resolution. */
  type Timestamp = int

  datatype Status = Queued | Processing | Done | Error {
    predicate IsTerminal() { this == Done || this == Error }
  }

  /** The text stored in the `status` column. */
  function StatusName(s: Status): string {
    match s
    case Queued => "queued"
    case Processing => "processing"
    case Done => "done"
    case Error => "error"
  }

  lemma StatusNameInjective(a: Status, b: Status)
    requires StatusName(a) == StatusName(b)
    ensures a == b
  {
  }

  /** One `chat_queue` row; `C` is the type of the conversation id (TEXT or INTEGER). */
  datatype Job<C> = Job(
    id: nat,
    conversationId: C,
    userInput: string,
    model: string,
    systemPrompt: string,
    grammarName: Option<string>,
    status: Status,
    result: Option<string>,
    createdAt: Timestamp,
    processedAt: Option<Timestamp>)

  /** The columns `claim_next_job` / `fetch_next_queued` hand back to the worker. */
  datatype Ticket<C> = Ticket(
    id: nat,
    conversationId: C,
    userInput: string,
    model: string,
    systemPrompt: string,
    grammarName: Option<string>)

  function TicketOf<C>(j: Job<C>): Ticket<C> {
    Ticket(j.id, j.conversationId, j.userInput, j.model, j.systemPrompt, j.grammarName)
  }

  /** One `{"role": ..., "content": ...}` turn of a conversation history. */
  datatype Turn = Turn(role: string, content: string)

  /** One `messages` row. */
  datatype Message<C> = Message(conversationId: C, role: string, content: string)

  ghost predicate IdsAreRowNumbers<C>(jobs: seq<Job<C>>) {
    forall i :: 0 <= i < |jobs| ==> jobs[i].id == i + 1
  }

  predicate IsQueued<C>(jobs: seq<Job<C>>, i: int) {
    0 <= i < |jobs| && jobs[i].status == Queued
  }

  predicate AnyQueued<C>(jobs: seq<Job<C>>) {
    exists i :: 0 <= i < |jobs| && IsQueued(jobs, i)
  }

  /** `WHERE status = 'queued' ORDER BY created_at ASC LIMIT 1` may return row i (ties are not broken). */
  predicate IsOldestQueued<C>(jobs: seq<Job<C>>, i: int) {
    IsQueued(jobs, i) && forall k :: 0 <= k < |jobs| && IsQueued(jobs, k) ==> jobs[i].createdAt <= jobs[k].createdAt
  }

  /** Two rows that may both be picked as oldest queued share their `created_at` second. */
  lemma OldestQueuedTie<C>(jobs: seq<Job<C>>, i: int, j: int)
    requires IsOldestQueued(jobs, i) && IsOldestQueued(jobs, j)
    ensures jobs[i].createdAt == jobs[j].createdAt
  {
  }

  ghost function QueuedIds<C>(jobs: seq<Job<C>>): set<nat> {
    set i | 0 <= i < |jobs| && jobs[i].status == Queued :: jobs[i].id
  }

  /** Whenever some row is queued, an oldest queued row exists. */
  lemma {:induction false} OldestQueuedExists<C>(jobs: seq<Job<C>>)
    requires AnyQueued(jobs)
    ensures exists i :: IsOldestQueued(jobs, i)
  {
    var n := |jobs| - 1;
    var front := jobs[..n];
    if !AnyQueued(front) {
      // Only the last row can be queued.
      forall k | 0 <= k < n ensures !IsQueued(jobs, k) {
        assert !IsQueued(front, k);
        assert front[k] == jobs[k];
      }
      assert IsOldestQueued(jobs, n);
    } else {
      OldestQueuedExists(front);
      var i :| IsOldestQueued(front, i);
      if IsQueued(jobs, n) && jobs[n].createdAt < jobs[i].createdAt {
        assert IsOldestQueued(jobs, n) by {
          forall k | IsQueued(jobs, k) ensures jobs[n].createdAt <= jobs[k].createdAt {
            if k < n { assert IsQueued(front, k); }
          }
        }
      } else {
        assert IsOldestQueued(jobs, i) by {
          forall k | IsQueued(jobs, k) ensures jobs[i].createdAt <= jobs[k].createdAt {
            if k < n { assert IsQueued(front, k); }
          }
        }
      }
    }
  }

  /** The table after `UPDATE chat_queue SET status = 'processing' WHERE id = ?` on row i. */
  function Claimed<C>(jobs: seq<Job<C>>, i: nat): seq<Job<C>>
    requires i < |jobs|
  {
    jobs[i := jobs[i].(status := Processing)]
  }

  /**
   * What one atomic claim may do: with nothing queued, return None and change
   * nothing; otherwise hand back an oldest queued row and mark exactly that
   * row `processing`.
   */
  ghost predicate ClaimStep<C>(before: seq<Job<C>>, after: seq<Job<C>>, t: Option<Ticket<C>>) {
    match t
    case None => !AnyQueued(before) && after == before
    case Some(tk) =>
      1 <= tk.id <= |before| && IsOldestQueued(before, tk.id - 1)
      && tk == TicketOf(before[tk.id - 1]) && after == Claimed(before, tk.id - 1)
  }

  /** The table a claim that returned `t` leaves behind. */
  function ClaimedTable<C>(before: seq<Job<C>>, t: Option<Ticket<C>>): seq<Job<C>> {
    if t.Some? && 1 <= t.value.id <= |before| then Claimed(before, t.value.id - 1) else before
  }

  /** A claim takes its job out of the queue and leaves every other queued job queued. */
  lemma ClaimLeavesQueue<C>(before: seq<Job<C>>, after: seq<Job<C>>, tk: Ticket<C>)
    requires IdsAreRowNumbers(before) && ClaimStep(before, after, Some(tk))
    ensures IdsAreRowNumbers(after)
    ensures tk.id in QueuedIds(before)
    ensures QueuedIds(after) == QueuedIds(before) - {tk.id}
  {
    var i := tk.id - 1;
    assert before[i].id == tk.id;
    forall x | x in QueuedIds(before) - {tk.id} ensures x in QueuedIds(after) {
      var k :| 0 <= k < |before| && before[k].status == Queued && before[k].id == x;
      assert k != i;
      assert after[k] == before[k];
    }
    forall x | x in QueuedIds(after) ensures x in QueuedIds(before) - {tk.id} {
      var k :| 0 <= k < |after| && after[k].status == Queued && after[k].id == x;
      assert k != i;
    }
  }

  /** Two claims in a row never hand out the same job, and the second is no older than the first. */
  lemma ClaimsAreDistinctAndInOrder<C>(s0: seq<Job<C>>, s1: seq<Job<C>>, s2: seq<Job<C>>, t1: Ticket<C>, t2: Ticket<C>)
    requires IdsAreRowNumbers(s0)
    requires ClaimStep(s0, s1, Some(t1)) && ClaimStep(s1, s2, Some(t2))
    ensures t1.id != t2.id
    ensures s0[t1.id - 1].createdAt <= s1[t2.id - 1].createdAt
  {
    ClaimLeavesQueue(s0, s1, t1);
    var j := t2.id - 1;
    assert s1[j].status == Queued;
    assert j != t1.id - 1;
    assert IsQueued(s0, j);
  }

  /** With exactly one queued job, the first claim gets it and any further claim gets nothing. */
  lemma SingleJobClaimedOnce<C>(s0: seq<Job<C>>, s1: seq<Job<C>>, s2: seq<Job<C>>, t1: Ticket<C>, r2: Option<Ticket<C>>, x: nat)
    requires IdsAreRowNumbers(s0) && QueuedIds(s0) == {x}
    requires ClaimStep(s0, s1, Some(t1)) && ClaimStep(s1, s2, r2)
    ensures t1.id == x && r2 == None && s2 == s1
  {
    ClaimLeavesQueue(s0, s1, t1);
    if r2.Some? {
      ClaimLeavesQueue(s1, s2, r2.value);
      assert false;
    }
  }

  /** `UPDATE chat_queue SET status = ?, result = ?, processed_at = ? WHERE id = ?`, with no guard on the current status. */
  function Finished<C>(jobs: seq<Job<C>>, id: nat, status: Status, result: string, now: Timestamp): (r: seq<Job<C>>)
    ensures |r| == |jobs|
  {
    seq(|jobs|, k requires 0 <= k < |jobs| =>
      if jobs[k].id == id then jobs[k].(status := status, result := Some(result), processedAt := Some(now))
      else jobs[k])
  }

  /** Finishing a job touches exactly the rows with that id and keeps the table's ids. */
  lemma FinishedTouchesOnlyId<C>(jobs: seq<Job<C>>, id: nat, status: Status, result: string, now: Timestamp)
    requires IdsAreRowNumbers(jobs)
    ensures IdsAreRowNumbers(Finished(jobs, id, status, result, now))
    ensures forall k :: 0 <= k < |jobs| && k != id - 1 ==> Finished(jobs, id, status, result, now)[k] == jobs[k]
    ensures 1 <= id <= |jobs| ==>
      var j := Finished(jobs, id, status, result, now)[id - 1];
      j.status == status && j.result == Some(result) && j.processedAt == Some(now)
  {
  }

  /** Enqueueing a row puts exactly its id into the queue. */
  lemma EnqueueAddsOnlyItsId<C>(jobs: seq<Job<C>>, j: Job<C>)
    requires j.status == Queued
    ensures QueuedIds(jobs + [j]) == QueuedIds(jobs) + {j.id}
  {
    var after := jobs + [j];
    forall x | x in QueuedIds(jobs) ensures x in QueuedIds(after) {
      var k :| 0 <= k < |jobs| && jobs[k].status == Queued && jobs[k].id == x;
      assert after[k] == jobs[k];
    }
    assert after[|jobs|] == j;
  }

  /** A claim only takes rows out of the queue. */
  lemma ClaimedNeverRequeues<C>(jobs: seq<Job<C>>, i: nat)
    requires i < |jobs|
    ensures QueuedIds(Claimed(jobs, i)) <= QueuedIds(jobs)
  {
    var after := Claimed(jobs, i);
    forall x | x in QueuedIds(after) ensures x in QueuedIds(jobs) {
      var k :| 0 <= k < |after| && after[k].status == Queued && after[k].id == x;
      assert k != i && after[k] == jobs[k];
    }
  }

  /** Finishing with any status but `queued` takes that id out of the queue and puts nothing back. */
  lemma FinishedNeverRequeues<C>(jobs: seq<Job<C>>, id: nat, status: Status, result: string, now: Timestamp)
    requires status != Queued
    ensures QueuedIds(Finished(jobs, id, status, result, now)) <= QueuedIds(jobs) - {id}
  {
    var after := Finished(jobs, id, status, result, now);
    forall x | x in QueuedIds(after) ensures x in QueuedIds(jobs) - {id} {
      var k :| 0 <= k < |after| && after[k].status == Queued && after[k].id == x;
      assert jobs[k].id != id && after[k] == jobs[k];
    }
  }

  /**
   * The writes the stores make to `chat_queue`: an insert of a new queued row
   * (its AUTOINCREMENT id is the next row number), a claim, and finishing a
   * job as `done` or `error`.
   */
  datatype Op<C> = Enqueue(job: Job<C>) | Claim(ticket: Option<Ticket<C>>)
                 | Finish(id: nat, status: Status, result: string, now: Timestamp)

  ghost predicate Step<C>(before: seq<Job<C>>, op: Op<C>, after: seq<Job<C>>) {
    match op
    case Enqueue(j) => j.id == |before| + 1 && j.status == Queued && after == before + [j]
    case Claim(t) => ClaimStep(before, after, t)
    case Finish(id, status, result, now) => status.IsTerminal() && after == Finished(before, id, status, result, now)
  }

  /** No write puts an existing row back into the queue; only an insert adds an id, and a new one. */
  lemma StepNeverRequeues<C>(before: seq<Job<C>>, op: Op<C>, after: seq<Job<C>>)
    requires IdsAreRowNumbers(before) && Step(before, op, after)
    ensures IdsAreRowNumbers(after) && |before| <= |after|
    ensures QueuedIds(after) <= QueuedIds(before) + (if op.Enqueue? then {|before| + 1} else {})
  {
    match op
    case Enqueue(j) =>
      EnqueueAddsOnlyItsId(before, j);
    case Claim(t) =>
      if t.Some? {
        ClaimedNeverRequeues(before, t.value.id - 1);
      }
    case Finish(id, status, result, now) =>
      FinishedTouchesOnlyId(before, id, status, result, now);
      FinishedNeverRequeues(before, id, status, result, now);
  }

  /** `states[k + 1]` is what `ops[k]` makes of `states[k]`, starting from a table whose ids are its row numbers. */
  ghost predicate Trace<C>(states: seq<seq<Job<C>>>, ops: seq<Op<C>>) {
    && |states| == |ops| + 1
    && IdsAreRowNumbers(states[0])
    && forall k :: 0 <= k < |ops| ==> Step(states[k], ops[k], states[k + 1])
  }

  /** Along a trace the ids stay the row numbers. */
  lemma {:induction false} TraceKeepsIds<C>(states: seq<seq<Job<C>>>, ops: seq<Op<C>>, k: nat)
    requires Trace(states, ops) && k < |states|
    ensures IdsAreRowNumbers(states[k])
  {
    if k > 0 {
      TraceKeepsIds(states, ops, k - 1);
      StepNeverRequeues(states[k - 1], ops[k - 1], states[k]);
    }
  }

  /** An existing row that has left the queue never comes back to it. */
  lemma {:induction false} StaysOutOfQueue<C>(states: seq<seq<Job<C>>>, ops: seq<Op<C>>, x: nat, a: nat, b: nat)
    requires Trace(states, ops) && a <= b < |states|
    requires 1 <= x <= |states[a]| && x !in QueuedIds(states[a])
    ensures x <= |states[b]| && x !in QueuedIds(states[b])
    decreases b - a
  {
    if a < b {
      TraceKeepsIds(states, ops, a);
      StepNeverRequeues(states[a], ops[a], states[a + 1]);
      StaysOutOfQueue(states, ops, x, a + 1, b);
    }
  }

  /** However the writes interleave, no two claims along a trace hand out the same job. */
  lemma ClaimsNeverRepeat<C>(states: seq<seq<Job<C>>>, ops: seq<Op<C>>, a: nat, b: nat)
    requires Trace(states, ops) && a < b < |ops|
    requires ops[a].Claim? && ops[a].ticket.Some? && ops[b].Claim? && ops[b].ticket.Some?
    ensures ops[a].ticket.value.id != ops[b].ticket.value.id
  {
    var x := ops[a].ticket.value.id;
    TraceKeepsIds(states, ops, a);
    ClaimLeavesQueue(states[a], states[a + 1], ops[a].ticket.value);
    StaysOutOfQueue(states, ops, x, a + 1, b);
    TraceKeepsIds(states, ops, b);
    ClaimLeavesQueue(states[b], states[b + 1], ops[b].ticket.value);
  }

  /** `SELECT ... WHERE id = ?`: the row with that id, if any. */
  function RowWithId<C>(jobs: seq<Job<C>>, id: nat): (r: Option<Job<C>>)
    ensures r.Some? ==> r.value in jobs && r.value.id == id
    ensures r.None? ==> forall k :: 0 <= k < |jobs| ==> jobs[k].id != id
  {
    if |jobs| == 0 then None
    else if jobs[0].id == id then Some(jobs[0])
    else RowWithId(jobs[1..], id)
  }

  /** `SELECT role, content FROM messages WHERE conversation_id = ?`, in insertion order. */
  function Transcript<C(==)>(messages: seq<Message<C>>, cid: C): (r: seq<Turn>)
    ensures |r| <= |messages|
  {
    if |messages| == 0 then []
    else
      var last := messages[|messages| - 1];
      Transcript(messages[..|messages| - 1], cid) + (if last.conversationId == cid then [Turn(last.role, last.content)] else [])
  }

  /** Appending a message adds its turn at the end of its own conversation and leaves every other conversation alone. */
  lemma TranscriptAppend<C>(messages: seq<Message<C>>, m: Message<C>, cid: C)
    ensures Transcript(messages + [m], cid)
         == Transcript(messages, cid) + (if m.conversationId == cid then [Turn(m.role, m.content)] else [])
  {
    assert (messages + [m])[..|messages|] == messages;
  }
}
