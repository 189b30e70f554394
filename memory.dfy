/**
 * The SQLite-backed store of memory.py: conversations, their append-only
 * message log and the `chat_queue` job table.  Each function of the file is
 * one method of `JobStore` that runs as one atomic step; the store's tables
 * are sequence and map fields the methods reassign.
 */
module Memory {
  import opened Wrappers
  import opened JobTable
  import Strings

  const DefaultTitle := "New Conversation"
  const AssistantRole := "assistant"
  const UserRole := "user"
  const SystemRole := "system"

  /** The `grammar_name` column written by `queue_prompt`: `(grammar_name or "").strip() or None`. */
  function NormalizeGrammar(g: Option<string>): (r: Option<string>)
    ensures r.None? <==> g.None? || Strings.IsBlank(g.value)
    ensures r.Some? ==> r.value == Strings.Strip(g.value) && r.value != ""
  {
    if g.None? then None
    else
      Strings.StripEmptyIffBlank(g.value);
      var s := Strings.Strip(g.value);
      if s == "" then None else Some(s)
  }

  /** The stored grammar name never needs stripping again. */
  lemma NormalizeGrammarIdempotent(g: Option<string>)
    ensures NormalizeGrammar(NormalizeGrammar(g)) == NormalizeGrammar(g)
  {
    if g.Some? { Strings.StripIdempotent(g.value); }
  }

  /** The filters of `list_jobs`: an absent or empty argument does not filter. */
  predicate Matches(j: Job<string>, conversationId: Option<string>, status: Option<string>) {
    (conversationId.None? || conversationId.value == "" || j.conversationId == conversationId.value)
    && (status.None? || status.value == "" || StatusName(j.status) == status.value)
  }

  /** Filtering on a status's column text keeps exactly the rows with that status. */
  lemma StatusFilterExact(j: Job<string>, conversationId: Option<string>, st: Status)
    ensures Matches(j, conversationId, Some(StatusName(st))) <==> Matches(j, conversationId, None) && j.status == st
  {
    if StatusName(j.status) == StatusName(st) {
      StatusNameInjective(j.status, st);
    }
  }

  /** `WHERE ...`: the matching rows, in table order. */
  function Filtered(jobs: seq<Job<string>>, conversationId: Option<string>, status: Option<string>): (r: seq<Job<string>>)
    ensures forall k :: 0 <= k < |r| ==> r[k] in jobs && Matches(r[k], conversationId, status)
    ensures forall k :: 0 <= k < |jobs| && Matches(jobs[k], conversationId, status) ==> jobs[k] in r
  {
    if |jobs| == 0 then []
    else
      var rest := Filtered(jobs[1..], conversationId, status);
      assert forall k :: 0 <= k < |rest| ==> rest[k] in jobs by {
        forall k | 0 <= k < |rest| ensures rest[k] in jobs {
          var m :| 0 <= m < |jobs[1..]| && jobs[1..][m] == rest[k];
          assert jobs[m + 1] == rest[k];
        }
      }
      assert forall k :: 1 <= k < |jobs| ==> jobs[k] == jobs[1..][k - 1];
      if Matches(jobs[0], conversationId, status) then [jobs[0]] + rest else rest
  }

  /** `WHERE` keeps each matching row exactly as often as the table holds it, and no other row. */
  lemma {:induction false} FilteredCounts(jobs: seq<Job<string>>, conversationId: Option<string>, status: Option<string>)
    ensures forall x :: multiset(Filtered(jobs, conversationId, status))[x]
                          == if Matches(x, conversationId, status) then multiset(jobs)[x] else 0
  {
    if |jobs| > 0 {
      FilteredCounts(jobs[1..], conversationId, status);
      assert jobs == [jobs[0]] + jobs[1..];
      assert multiset(jobs) == multiset{jobs[0]} + multiset(jobs[1..]);
    }
  }

  /** The position of a newest row: the first one whose `created_at` is maximal. */
  function NewestIndex(rows: seq<Job<string>>): (i: nat)
    requires |rows| > 0
    ensures i < |rows|
    ensures forall k :: 0 <= k < |rows| ==> rows[k].createdAt <= rows[i].createdAt
  {
    if |rows| == 1 then 0
    else
      var i := NewestIndex(rows[1..]) + 1;
      if rows[0].createdAt >= rows[i].createdAt then 0 else i
  }

  /** The rows with position i left out. */
  function Without(rows: seq<Job<string>>, i: nat): (rest: seq<Job<string>>)
    requires i < |rows|
    ensures |rest| == |rows| - 1
    ensures forall k :: 0 <= k < |rest| ==> rest[k] == rows[if k < i then k else k + 1]
  {
    rows[..i] + rows[i + 1..]
  }

  predicate NewestFirst(r: seq<Job<string>>) {
    forall a, b :: 0 <= a < b < |r| ==> r[a].createdAt >= r[b].createdAt
  }

  /** Every row of `rows` missing from `r` is no newer than any row of `r`. */
  predicate NothingNewerLeftOut(rows: seq<Job<string>>, r: seq<Job<string>>) {
    forall k, b :: 0 <= k < |rows| && rows[k] !in r && 0 <= b < |r| ==> rows[k].createdAt <= r[b].createdAt
  }

  /** `ORDER BY created_at DESC LIMIT n`, ties taken in table order. */
  function TakeNewest(rows: seq<Job<string>>, n: nat): (r: seq<Job<string>>)
    ensures |r| == if n < |rows| then n else |rows|
    decreases n
  {
    if n == 0 || |rows| == 0 then []
    else
      var i := NewestIndex(rows);
      [rows[i]] + TakeNewest(Without(rows, i), n - 1)
  }

  /** Every returned row is a row of the input. */
  lemma {:induction false} TakeNewestFromRows(rows: seq<Job<string>>, n: nat)
    ensures forall a :: 0 <= a < |TakeNewest(rows, n)| ==> TakeNewest(rows, n)[a] in rows
    decreases n
  {
    if n > 0 && |rows| > 0 {
      var i := NewestIndex(rows);
      var rest := Without(rows, i);
      var tail := TakeNewest(rest, n - 1);
      TakeNewestFromRows(rest, n - 1);
      var r := TakeNewest(rows, n);
      assert r == [rows[i]] + tail;
      forall a | 0 <= a < |r| ensures r[a] in rows {
        if a > 0 {
          assert r[a] == tail[a - 1];
          var m :| 0 <= m < |rest| && rest[m] == tail[a - 1];
          assert rows[if m < i then m else m + 1] == r[a];
        }
      }
    }
  }

  /** Adding the same rows to both sides keeps a sub-multiset a sub-multiset. */
  lemma AddBothSides<T>(a: multiset<T>, b: multiset<T>, c: multiset<T>)
    requires a <= b
    ensures c + a <= c + b
  {
    forall x ensures (c + a)[x] <= (c + b)[x] {
      assert a[x] <= b[x];
    }
  }

  /** Taking row i out and putting it back gives the same rows. */
  lemma WithoutMultiset<T>(rows: seq<T>, i: nat)
    requires i < |rows|
    ensures multiset{rows[i]} + multiset(rows[..i] + rows[i + 1..]) == multiset(rows)
  {
    assert rows == rows[..i] + [rows[i]] + rows[i + 1..];
  }

  /** The rows taken are distinct rows of the input: none is taken more often than the input holds it. */
  lemma {:induction false} TakeNewestSubMultiset(rows: seq<Job<string>>, n: nat, r: seq<Job<string>>)
    requires r == TakeNewest(rows, n)
    ensures multiset(r) <= multiset(rows)
    decreases n
  {
    if n > 0 && |rows| > 0 {
      var i := NewestIndex(rows);
      var rest := Without(rows, i);
      var tail := TakeNewest(rest, n - 1);
      TakeNewestSubMultiset(rest, n - 1, tail);
      assert r == [rows[i]] + tail;
      WithoutMultiset(rows, i);
      AddBothSides(multiset(tail), multiset(rest), multiset{rows[i]});
    }
  }

  /** A bound on the input's `created_at` bounds the output's. */
  lemma {:induction false} TakeNewestBounded(rows: seq<Job<string>>, n: nat, t: Timestamp)
    requires forall k :: 0 <= k < |rows| ==> rows[k].createdAt <= t
    ensures forall a :: 0 <= a < |TakeNewest(rows, n)| ==> TakeNewest(rows, n)[a].createdAt <= t
    decreases n
  {
    if n > 0 && |rows| > 0 {
      var i := NewestIndex(rows);
      var rest := Without(rows, i);
      TakeNewestBounded(rest, n - 1, t);
      assert TakeNewest(rows, n) == [rows[i]] + TakeNewest(rest, n - 1);
    }
  }

  /** The rows come out newest first. */
  lemma {:induction false} TakeNewestSorted(rows: seq<Job<string>>, n: nat)
    ensures NewestFirst(TakeNewest(rows, n))
    decreases n
  {
    if n > 0 && |rows| > 0 {
      var i := NewestIndex(rows);
      var rest := Without(rows, i);
      var tail := TakeNewest(rest, n - 1);
      TakeNewestSorted(rest, n - 1);
      TakeNewestBounded(rest, n - 1, rows[i].createdAt);
      var r := TakeNewest(rows, n);
      assert r == [rows[i]] + tail;
      forall a, b | 0 <= a < b < |r| ensures r[a].createdAt >= r[b].createdAt {
        assert r[b] == tail[b - 1];
        if a > 0 { assert r[a] == tail[a - 1]; }
      }
    }
  }

  /** No row that was left out is newer than a row that was returned. */
  lemma {:induction false} TakeNewestKeepsNewest(rows: seq<Job<string>>, n: nat)
    ensures NothingNewerLeftOut(rows, TakeNewest(rows, n))
    decreases n
  {
    if n > 0 && |rows| > 0 {
      var i := NewestIndex(rows);
      var rest := Without(rows, i);
      var tail := TakeNewest(rest, n - 1);
      TakeNewestKeepsNewest(rest, n - 1);
      var r := TakeNewest(rows, n);
      assert r == [rows[i]] + tail;
      forall k, b | 0 <= k < |rows| && rows[k] !in r && 0 <= b < |r| ensures rows[k].createdAt <= r[b].createdAt {
        if b == 0 {
          assert r[0] == rows[i];
        } else {
          assert r[b] == tail[b - 1];
          assert rows[k] !in tail;
          assert k != i;
          var m := if k < i then k else k - 1;
          assert rest[m] == rows[k];
        }
      }
    }
  }

  /** SQLite treats a negative LIMIT as no limit. */
  function LimitCount(limit: int, available: nat): nat {
    if limit < 0 then available else limit
  }

  /** `list_jobs`: the newest matching rows, at most `limit` of them. */
  function ListJobs(jobs: seq<Job<string>>, conversationId: Option<string>, status: Option<string>, limit: int): seq<Job<string>> {
    var rows := Filtered(jobs, conversationId, status);
    TakeNewest(rows, LimitCount(limit, |rows|))
  }

  /** What `list_jobs` promises: bounded by the limit, every row a matching row of the table, newest first, and nothing newer left out. */
  lemma ListJobsSpec(jobs: seq<Job<string>>, conversationId: Option<string>, status: Option<string>, limit: int,
                     r: seq<Job<string>>)
    requires r == ListJobs(jobs, conversationId, status, limit)
    ensures limit >= 0 ==> |r| <= limit
    ensures var matching := Filtered(jobs, conversationId, status);
      |r| == if 0 <= limit < |matching| then limit else |matching|
    ensures multiset(r) <= multiset(Filtered(jobs, conversationId, status))
    ensures forall a :: 0 <= a < |r| ==> r[a] in jobs && Matches(r[a], conversationId, status)
    ensures NewestFirst(r)
    ensures forall k, b :: 0 <= k < |jobs| && Matches(jobs[k], conversationId, status) && jobs[k] !in r && 0 <= b < |r|
              ==> jobs[k].createdAt <= r[b].createdAt
  {
    var rows := Filtered(jobs, conversationId, status);
    TakeNewestFromRows(rows, LimitCount(limit, |rows|));
    TakeNewestSubMultiset(rows, LimitCount(limit, |rows|), r);
    TakeNewestSorted(rows, LimitCount(limit, |rows|));
    TakeNewestKeepsNewest(rows, LimitCount(limit, |rows|));
    forall a | 0 <= a < |r| ensures r[a] in jobs && Matches(r[a], conversationId, status) {
      var m :| 0 <= m < |rows| && rows[m] == r[a];
    }
    forall k, b | 0 <= k < |jobs| && Matches(jobs[k], conversationId, status) && jobs[k] !in r && 0 <= b < |r|
      ensures jobs[k].createdAt <= r[b].createdAt
    {
      var m :| 0 <= m < |rows| && rows[m] == jobs[k];
    }
  }

  class JobStore {
    var conversations: map<string, string>
    var messages: seq<Message<string>>
    var jobs: seq<Job<string>>

    ghost predicate Valid()
      reads this
    {
      IdsAreRowNumbers(jobs)
    }

    constructor ()
      ensures Valid()
      ensures conversations == map[] && messages == [] && jobs == []
    {
      conversations, messages, jobs := map[], [], [];
    }

    /** `ensure_conversation`: insert the conversation unless it exists; always return its id. */
    method EnsureConversation(conversationId: string, title: string) returns (r: string)
      modifies this`conversations
      ensures r == conversationId
      ensures conversationId in old(conversations) ==> conversations == old(conversations)
      ensures conversationId !in old(conversations) ==>
        conversations == old(conversations)[conversationId := if title == "" then DefaultTitle else title]
    {
      if conversationId !in conversations {
        conversations := conversations[conversationId := if title == "" then DefaultTitle else title];
      }
      r := conversationId;
    }

    /** `create_conversation`: ensure a conversation under a fresh UUID (supplied by the caller). */
    method CreateConversation(title: string, uuid: string) returns (r: string)
      modifies this`conversations
      ensures r == uuid && r in conversations
      ensures uuid !in old(conversations) ==>
        conversations == old(conversations)[uuid := if title == "" then DefaultTitle else title]
      ensures uuid in old(conversations) ==> conversations == old(conversations)
    {
      r := EnsureConversation(uuid, title);
    }

    /** `add_message`: append one row to the message log. */
    method AddMessage(conversationId: string, role: string, content: string)
      modifies this`messages
      ensures messages == old(messages) + [Message(conversationId, role, content)]
    {
      messages := messages + [Message(conversationId, role, content)];
    }

    /** `save_assistant_message` */
    method SaveAssistantMessage(conversationId: string, content: string)
      modifies this`messages
      ensures messages == old(messages) + [Message(conversationId, AssistantRole, content)]
    {
      AddMessage(conversationId, AssistantRole, content);
    }

    /** `get_conversation_messages` */
    function ConversationMessages(conversationId: string): seq<Turn>
      reads this
    {
      Transcript(messages, conversationId)
    }

    /** `get_job` */
    function GetJob(id: nat): Option<Job<string>>
      reads this
    {
      RowWithId(jobs, id)
    }

    /** `list_jobs` */
    function ListJobsOf(conversationId: Option<string>, status: Option<string>, limit: int): seq<Job<string>>
      reads this
    {
      ListJobs(jobs, conversationId, status, limit)
    }

    /** `queue_prompt`: append one `queued` row stamped `now` and return its new id. */
    method QueuePrompt(conversationId: string, userInput: string, model: string, systemPrompt: string,
                       grammarName: Option<string>, now: Timestamp) returns (id: nat)
      requires Valid()
      modifies this`jobs
      ensures Valid()
      ensures id == |old(jobs)| + 1 && id !in (set j | j in old(jobs) :: j.id)
      ensures jobs == old(jobs) + [Job(id, conversationId, userInput, model, systemPrompt,
                                       NormalizeGrammar(grammarName), Queued, None, now, None)]
    {
      id := |jobs| + 1;
      jobs := jobs + [Job(id, conversationId, userInput, model, systemPrompt,
                          NormalizeGrammar(grammarName), Queued, None, now, None)];
    }

    /**
     * `claim_next_job`: in one transaction, pick a queued row with the
     * smallest `created_at` (any of them on a tie) and mark it `processing`.
     */
    method ClaimNextJob() returns (t: Option<Ticket<string>>)
      requires Valid()
      modifies this`jobs
      ensures Valid()
      ensures ClaimStep(old(jobs), jobs, t)
    {
      if i :| 0 <= i < |jobs| && IsQueued(jobs, i) {
        OldestQueuedExists(jobs);
        var k :| 0 <= k < |jobs| && IsOldestQueued(jobs, k);
        t := Some(TicketOf(jobs[k]));
        jobs := Claimed(jobs, k);
      } else {
        t := None;
      }
    }

    /** `mark_job_done`: overwrite status (`error` if failed, else `done`), result and `processed_at`, whatever the current status. */
    method MarkJobDone(id: nat, failed: bool, resultText: string, now: Timestamp)
      requires Valid()
      modifies this`jobs
      ensures Valid()
      ensures jobs == Finished(old(jobs), id, if failed then Error else Done, resultText, now)
    {
      FinishedTouchesOnlyId(jobs, id, if failed then Error else Done, resultText, now);
      jobs := Finished(jobs, id, if failed then Error else Done, resultText, now);
    }
  }
}
