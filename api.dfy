/**
 * The request-intake helpers of main.py: the status colour of the job list,
 * the configured model list, `enqueue_user_message`, the validation and
 * defaulting of `create_job`, and the selection done by `get_latest`.
 * HTTP, templates and HTML building are not modelled; a JSON body is a
 * `Payload` of optional strings.
 */
module Api {
  import opened Wrappers
  import opened JobTable
  import Strings
  import Memory

  /** The colour table of `status_badge` (lines 85-91), keyed by lower-cased status. */
  const BadgeColours: map<string, string> := map[
    "done" := "bg-green-600",
    "processing" := "bg-blue-600",
    "queued" := "bg-yellow-500",
    "error" := "bg-red-600",
    "failed" := "bg-red-600"
  ]
  const UnknownColour := "bg-gray-500"

  /** The dot colour `status_badge` puts next to a status (line 92). */
  function BadgeColour(status: string): (colour: string)
    ensures Strings.Lower(status) in BadgeColours ==> colour == BadgeColours[Strings.Lower(status)]
    ensures Strings.Lower(status) !in BadgeColours ==> colour == UnknownColour
  {
    var key := Strings.Lower(status);
    if key in BadgeColours then BadgeColours[key] else UnknownColour
  }

  /** Colours ignore letter case. */
  lemma BadgeIgnoresCase(a: string, b: string)
    requires Strings.Lower(a) == Strings.Lower(b)
    ensures BadgeColour(a) == BadgeColour(b)
  {
  }

  /** A status written in lower case is its own key. */
  lemma LowerOfLowercase(s: string)
    requires forall k :: 0 <= k < |s| ==> !('A' <= s[k] <= 'Z')
    ensures Strings.Lower(s) == s
  {
  }

  /** Every status the queue stores gets a colour of its own, and only the failure states are red. */
  lemma EveryStatusHasColour(st: Status)
    ensures BadgeColour(StatusName(st)) != UnknownColour
    ensures BadgeColour(StatusName(st)) == "bg-red-600" <==> st == Error
  {
    LowerOfLowercase(StatusName(st));
  }

  /** "failed" shares the error colour, whatever its case. */
  lemma FailedIsRed(status: string)
    requires Strings.Lower(status) == "failed" || Strings.Lower(status) == "error"
    ensures BadgeColour(status) == "bg-red-600"
  {
  }

  /** The default of `LLM_MODELS` (line 39). */
  const DefaultModelList := "mistral,mythomax"

  /** The stripped, non-empty entries of `parts`, in order. */
  function NonBlankStripped(parts: seq<string>): (r: seq<string>)
    ensures |r| <= |parts|
    ensures forall k :: 0 <= k < |r| ==> r[k] != "" && Strings.Strip(r[k]) == r[k]
  {
    if parts == [] then []
    else
      var rest := NonBlankStripped(parts[1..]);
      var head := Strings.Strip(parts[0]);
      Strings.StripIdempotent(parts[0]);
      if |head| == 0 then rest else [head] + rest
  }

  /** No entry holds a character that no part holds. */
  lemma {:induction false} NonBlankStrippedAvoids(parts: seq<string>, c: char)
    requires forall m :: 0 <= m < |parts| ==> c !in parts[m]
    ensures forall k :: 0 <= k < |NonBlankStripped(parts)| ==> c !in NonBlankStripped(parts)[k]
  {
    if parts != [] {
      NonBlankStrippedAvoids(parts[1..], c);
      Strings.StripInside(parts[0]);
    }
  }

  /** Every part that is non-blank after stripping is kept. */
  lemma {:induction false} NonBlankStrippedComplete(parts: seq<string>, m: nat)
    requires m < |parts| && Strings.Strip(parts[m]) != ""
    ensures Strings.Strip(parts[m]) in NonBlankStripped(parts)
  {
    if m > 0 {
      assert parts[1..][m - 1] == parts[m];
      NonBlankStrippedComplete(parts[1..], m - 1);
    }
  }

  /** Every kept entry is the strip of some part. */
  lemma {:induction false} NonBlankStrippedSound(parts: seq<string>, r: seq<string>)
    requires r == NonBlankStripped(parts)
    ensures forall k :: 0 <= k < |r| ==> exists m :: 0 <= m < |parts| && r[k] == Strings.Strip(parts[m])
  {
    if parts != [] {
      var rest := NonBlankStripped(parts[1..]);
      NonBlankStrippedSound(parts[1..], rest);
      forall k | 0 <= k < |r| ensures exists m :: 0 <= m < |parts| && r[k] == Strings.Strip(parts[m]) {
        if r[k] != Strings.Strip(parts[0]) {
          var k' := if |Strings.Strip(parts[0])| == 0 then k else k - 1;
          assert r[k] == rest[k'];
          var m :| 0 <= m < |parts[1..]| && rest[k'] == Strings.Strip(parts[1..][m]);
          assert parts[1..][m] == parts[m + 1];
        }
      }
    }
  }

  /** One part contributes its strip, or nothing when it is blank. */
  lemma NonBlankStrippedOne(p: string)
    ensures NonBlankStripped([p]) == if Strings.IsBlank(p) then [] else [Strings.Strip(p)]
  {
    Strings.StripEmptyIffBlank(p);
    assert [p][1..] == [];
  }

  /** A part in front contributes its own entries in front. */
  lemma NonBlankStrippedCons(x: string, t: seq<string>)
    ensures NonBlankStripped([x] + t) == NonBlankStripped([x]) + NonBlankStripped(t)
  {
    assert ([x] + t)[1..] == t;
    assert [x][1..] == [];
  }

  /** The list keeps the order of the parts: the entries of `a + b` are those of `a`, then those of `b`. */
  lemma {:induction false} NonBlankStrippedAppend(a: seq<string>, b: seq<string>)
    ensures NonBlankStripped(a + b) == NonBlankStripped(a) + NonBlankStripped(b)
  {
    if a == [] {
      assert a + b == b;
    } else {
      var x, t := a[0], a[1..];
      assert a == [x] + t;
      NonBlankStrippedAppend(t, b);
      NonBlankStrippedAppendStep(x, t, b);
    }
  }

  /** The inductive step of `NonBlankStrippedAppend`: one more part in front. */
  lemma NonBlankStrippedAppendStep(x: string, t: seq<string>, b: seq<string>)
    requires NonBlankStripped(t + b) == NonBlankStripped(t) + NonBlankStripped(b)
    ensures NonBlankStripped([x] + t + b) == NonBlankStripped([x] + t) + NonBlankStripped(b)
  {
    assert [x] + t + b == [x] + (t + b);
    NonBlankStrippedCons(x, t + b);
    NonBlankStrippedCons(x, t);
    ConcatAssoc(NonBlankStripped([x]), NonBlankStripped(t), NonBlankStripped(b));
  }

  lemma ConcatAssoc<T>(p: seq<T>, q: seq<T>, r: seq<T>)
    ensures p + (q + r) == (p + q) + r
  {
  }

  /**
   * `AVAILABLE_MODELS` (lines 38-40): the comma-separated entries of
   * `LLM_MODELS`, or of the default list when the variable is unset, each
   * stripped, blank ones dropped.
   */
  function AvailableModels(env: Option<string>): (models: seq<string>)
    ensures forall k :: 0 <= k < |models| ==> models[k] != "" && Strings.Strip(models[k]) == models[k] && ',' !in models[k]
  {
    var parts := Strings.Split(env.GetOr(DefaultModelList), ',');
    NonBlankStrippedAvoids(parts, ',');
    NonBlankStripped(parts)
  }

  /** Every model offered is the strip of one of the comma-separated entries. */
  lemma AvailableModelsSound(env: Option<string>, parts: seq<string>, models: seq<string>)
    requires parts == Strings.Split(env.GetOr(DefaultModelList), ',')
    requires models == AvailableModels(env)
    ensures forall k :: 0 <= k < |models| ==> exists m :: 0 <= m < |parts| && models[k] == Strings.Strip(parts[m])
  {
    assert models == NonBlankStripped(parts);
    NonBlankStrippedSound(parts, models);
  }

  /** Every configured model name that is non-blank after stripping is offered. */
  lemma AvailableModelsComplete(env: Option<string>, m: nat)
    requires var parts := Strings.Split(env.GetOr(DefaultModelList), ','); m < |parts| && Strings.Strip(parts[m]) != ""
    ensures Strings.Strip(Strings.Split(env.GetOr(DefaultModelList), ',')[m]) in AvailableModels(env)
  {
    NonBlankStrippedComplete(Strings.Split(env.GetOr(DefaultModelList), ','), m);
  }

  /**
   * `enqueue_user_message` (lines 100-105): log the system prompt when there
   * is one, then the user message, then queue one job with no grammar.
   */
  method EnqueueUserMessage(store: Memory.JobStore, conversationId: string, content: string, model: string,
                            systemPrompt: string, now: Timestamp) returns (id: nat)
    requires store.Valid()
    modifies store`messages, store`jobs
    ensures store.Valid()
    ensures store.messages == old(store.messages)
      + (if systemPrompt != "" then [Message(conversationId, Memory.SystemRole, systemPrompt)] else [])
      + [Message(conversationId, Memory.UserRole, content)]
    ensures id == |old(store.jobs)| + 1 && id >= 1
    ensures store.jobs == old(store.jobs) + [Job(id, conversationId, content, model, systemPrompt, None, Queued, None, now, None)]
  {
    if systemPrompt != "" {
      store.AddMessage(conversationId, Memory.SystemRole, systemPrompt);
    }
    store.AddMessage(conversationId, Memory.UserRole, content);
    id := store.QueuePrompt(conversationId, content, model, systemPrompt, None, now);
  }

  /**
   * What `enqueue_user_message` leaves in the conversation's transcript: the
   * optional system turn, then the user turn, after everything already there.
   */
  lemma EnqueuedTranscript(before: seq<Message<string>>, cid: string, content: string, systemPrompt: string,
                           after: seq<Message<string>>)
    requires after == before
      + (if systemPrompt != "" then [Message(cid, Memory.SystemRole, systemPrompt)] else [])
      + [Message(cid, Memory.UserRole, content)]
    ensures Transcript(after, cid) == Transcript(before, cid)
      + (if systemPrompt != "" then [Turn(Memory.SystemRole, systemPrompt)] else [])
      + [Turn(Memory.UserRole, content)]
  {
    if systemPrompt != "" {
      var mid := before + [Message(cid, Memory.SystemRole, systemPrompt)];
      TranscriptAppend(before, Message(cid, Memory.SystemRole, systemPrompt), cid);
      TranscriptAppend(mid, Message(cid, Memory.UserRole, content), cid);
    } else {
      assert after == before + [Message(cid, Memory.UserRole, content)];
      TranscriptAppend(before, Message(cid, Memory.UserRole, content), cid);
    }
  }

  /** The JSON body of `POST /api/jobs`: each field absent (`None`) or a string. */
  datatype Payload = Payload(content: Option<string>, model: Option<string>,
                             systemPrompt: Option<string>, conversationId: Option<string>)

  /** `(payload.get(name) or fallback)`: a missing, null or empty value gives the fallback. */
  function OrDefault(v: Option<string>, fallback: string): (s: string)
    ensures v.Some? && v.value != "" ==> s == v.value
    ensures v.None? || v.value == "" ==> s == fallback
  {
    if v.Some? && v.value != "" then v.value else fallback
  }

  const DefaultModel := "mistral"
  const MissingInputMessage := "content or system_prompt is required"
  const TitleSeedLength := 60

  /** The fields of a request `create_job` accepted, after stripping and defaulting. */
  datatype Plan = Plan(content: string, model: string, systemPrompt: string, conversationId: string, titleSeed: string)

  /** Lines 250-258: normalise the body, reject it when there is nothing to say, and pick the title seed. */
  function PlanJob(p: Payload): (r: Result<Plan, string>)
    ensures r.Failure? <==> |Strings.Strip(OrDefault(p.content, ""))| == 0 && |Strings.Strip(OrDefault(p.systemPrompt, ""))| == 0
    ensures r.Failure? ==> r.error == MissingInputMessage
  {
    var content := Strings.Strip(OrDefault(p.content, ""));
    var model := Strings.Strip(OrDefault(p.model, DefaultModel));
    var systemPrompt := Strings.Strip(OrDefault(p.systemPrompt, ""));
    var conversationId := Strings.Strip(OrDefault(p.conversationId, ""));
    if |content| == 0 && |systemPrompt| == 0 then Failure(MissingInputMessage)
    else Success(Plan(content, model, systemPrompt, conversationId, Strings.Take(if |content| > 0 then content else systemPrompt, TitleSeedLength)))
  }

  /** An accepted request keeps each field stripped, the model defaulted when absent or empty. */
  lemma PlanJobFields(p: Payload)
    requires PlanJob(p).Success?
    ensures PlanJob(p).value.content == Strings.Strip(OrDefault(p.content, ""))
    ensures PlanJob(p).value.systemPrompt == Strings.Strip(OrDefault(p.systemPrompt, ""))
    ensures PlanJob(p).value.conversationId == Strings.Strip(OrDefault(p.conversationId, ""))
    ensures PlanJob(p).value.model == Strings.Strip(OrDefault(p.model, DefaultModel))
  {
  }

  /**
   * The title seed is the first 60 characters of the content, or of the
   * system prompt when there is no content; it is never empty.
   */
  lemma PlanJobTitleSeed(p: Payload, plan: Plan)
    requires PlanJob(p) == Success(plan)
    ensures var source := if plan.content != "" then plan.content else plan.systemPrompt;
      && plan.titleSeed != ""
      && |plan.titleSeed| <= TitleSeedLength && |plan.titleSeed| <= |source|
      && plan.titleSeed == source[..|plan.titleSeed|]
      && (|source| <= TitleSeedLength ==> plan.titleSeed == source)
  {
  }

  /** The model falls back to "mistral" only when the field is missing or empty; a blank one strips to "". */
  lemma ModelDefaulting(p: Payload)
    requires PlanJob(p).Success?
    ensures p.model.None? || p.model.value == "" ==> PlanJob(p).value.model == DefaultModel
    ensures p.model.Some? && p.model.value != "" && Strings.IsBlank(p.model.value) ==> PlanJob(p).value.model == ""
  {
    Strings.StripTrimmed(DefaultModel);
    if p.model.Some? && p.model.value != "" {
      Strings.StripEmptyIffBlank(p.model.value);
    }
  }

  /** The JSON answer of `create_job` (lines 270-277). */
  datatype Response = Response(queued: bool, jobId: Option<nat>, conversationId: string, createdNew: bool, model: string)

  /**
   * `create_job` (lines 248-277).  `uuid` is the id `create_conversation`
   * would draw.  A rejected request changes nothing.  Otherwise the
   * conversation is ensured, and the message and job are written only when
   * there is content.
   */
  method CreateJob(store: Memory.JobStore, p: Payload, uuid: string, now: Timestamp) returns (r: Result<Response, string>)
    requires store.Valid()
    modifies store`conversations, store`messages, store`jobs
    ensures store.Valid()
    ensures r.Failure? <==> PlanJob(p).Failure?
    ensures r.Failure? ==>
      && r.error == MissingInputMessage
      && store.conversations == old(store.conversations) && store.messages == old(store.messages) && store.jobs == old(store.jobs)
    ensures r.Success? ==>
      var plan := PlanJob(p).value;
      && r.value.queued == (plan.content != "")
      && (r.value.jobId.Some? <==> r.value.queued)
      && (r.value.createdNew <==> plan.conversationId == "")
      && r.value.conversationId == (if plan.conversationId != "" then plan.conversationId else uuid)
      && r.value.conversationId in store.conversations
      && r.value.model == plan.model
      && store.conversations ==
           if r.value.conversationId in old(store.conversations) then old(store.conversations)
           else old(store.conversations)[r.value.conversationId :=
                  if plan.titleSeed == "" then Memory.DefaultTitle else plan.titleSeed]
    ensures r.Success? && !r.value.queued ==> store.messages == old(store.messages) && store.jobs == old(store.jobs)
    ensures r.Success? && r.value.queued ==>
      var plan := PlanJob(p).value;
      && r.value.jobId == Some(|old(store.jobs)| + 1)
      && store.messages == old(store.messages)
           + (if plan.systemPrompt != "" then [Message(r.value.conversationId, Memory.SystemRole, plan.systemPrompt)] else [])
           + [Message(r.value.conversationId, Memory.UserRole, plan.content)]
      && store.jobs == old(store.jobs) + [Job(|old(store.jobs)| + 1, r.value.conversationId, plan.content, plan.model,
                                              plan.systemPrompt, None, Queued, None, now, None)]
  {
    var planned := PlanJob(p);
    if planned.Failure? {
      return Failure(planned.error);
    }
    var plan := planned.value;
    var conversationId: string;
    var createdNew: bool;
    if plan.conversationId != "" {
      conversationId := store.EnsureConversation(plan.conversationId, plan.titleSeed);
      createdNew := false;
    } else {
      conversationId := store.CreateConversation(plan.titleSeed, uuid);
      createdNew := true;
    }
    var jobId: Option<nat> := None;
    if plan.content != "" {
      var id := EnqueueUserMessage(store, conversationId, plan.content, plan.model, plan.systemPrompt, now);
      jobId := Some(id);
    }
    // `bool(job_id)`: ids start at 1, so an enqueued job always reads as true.
    var queued := jobId.Some? && jobId.value != 0;
    r := Success(Response(queued, jobId, conversationId, createdNew, plan.model));
  }

  /** The position of the last turn with `role`, if any. */
  function LastIndexWithRole(msgs: seq<Turn>, role: string): (i: Option<nat>)
    ensures i.None? <==> forall k :: 0 <= k < |msgs| ==> msgs[k].role != role
    ensures i.Some? ==>
      && i.value < |msgs| && msgs[i.value].role == role
      && forall k :: i.value < k < |msgs| ==> msgs[k].role != role
  {
    if msgs == [] then None
    else if msgs[|msgs| - 1].role == role then Some(|msgs| - 1)
    else LastIndexWithRole(msgs[..|msgs| - 1], role)
  }

  /** The last turn with `role`, found by scanning the history backwards (lines 193-194). */
  function LastWithRole(msgs: seq<Turn>, role: string): Option<Turn> {
    match LastIndexWithRole(msgs, role)
    case None => None
    case Some(i) => Some(msgs[i])
  }

  /** The answer of `get_latest`. */
  datatype Latest = Latest(lastUser: Option<Turn>, lastAssistant: Option<Turn>, lastJob: Option<Job<string>>)

  /** `get_latest` (lines 190-197): the conversation's last user and assistant turns and its newest job. */
  function GetLatest(store: Memory.JobStore, conversationId: string): (l: Latest)
    reads store
    ensures l.lastUser == LastWithRole(store.ConversationMessages(conversationId), Memory.UserRole)
    ensures l.lastAssistant == LastWithRole(store.ConversationMessages(conversationId), Memory.AssistantRole)
  {
    var msgs := store.ConversationMessages(conversationId);
    var jobs := store.ListJobsOf(Some(conversationId), None, 1);
    Latest(LastWithRole(msgs, Memory.UserRole), LastWithRole(msgs, Memory.AssistantRole), if jobs != [] then Some(jobs[0]) else None)
  }

  /** The last job reported is one of the conversation's jobs, none newer; there is none only when the conversation has no job. */
  lemma LatestJobIsNewest(store: Memory.JobStore, conversationId: string)
    requires conversationId != ""
    ensures var l := GetLatest(store, conversationId);
      && (l.lastJob.None? <==> forall k :: 0 <= k < |store.jobs| ==> store.jobs[k].conversationId != conversationId)
      && (l.lastJob.Some? ==>
            && l.lastJob.value in store.jobs && l.lastJob.value.conversationId == conversationId
            && forall k :: 0 <= k < |store.jobs| && store.jobs[k].conversationId == conversationId
                 ==> store.jobs[k].createdAt <= l.lastJob.value.createdAt)
  {
    var r := Memory.ListJobs(store.jobs, Some(conversationId), None, 1);
    Memory.ListJobsSpec(store.jobs, Some(conversationId), None, 1, r);
    assert forall k :: 0 <= k < |store.jobs| ==> (Memory.Matches(store.jobs[k], Some(conversationId), None) <==> store.jobs[k].conversationId == conversationId);
    if exists k :: 0 <= k < |store.jobs| && store.jobs[k].conversationId == conversationId {
      var k :| 0 <= k < |store.jobs| && store.jobs[k].conversationId == conversationId;
      assert |Memory.Filtered(store.jobs, Some(conversationId), None)| > 0;
    }
  }
}
