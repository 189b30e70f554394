# llamalith job queue — a Dafny model

llamalith is a small self-hosted chat front end for local llama.cpp models.
An HTTP API (`main.py`) accepts a prompt and writes a user message into a
conversation's message log. It also appends a `queued` row to the
`chat_queue` table (`memory.py`). Worker processes (`queue_worker.py`)
atomically claim the oldest queued row and rebuild the conversation history.
They render that history into a role-tagged prompt and run the model
(`model_runner.py`). The reply is stored as an assistant message, and the
job is marked `done`, or `error` when something failed. Requests are
authenticated with a bearer token (`auth_utils.py`). An older generation of
the same pipeline lives under `app/`: `app/memory.py`,
`app/queue_worker.py` and `app/model_runner.py`.

The model has one module per core file:

| module | file | form |
|---|---|---|
| `Memory` | memory.py | class `JobStore` (conversations map, message log, job table) with methods per SQL operation; `list_jobs` as functions with lemmas |
| `LegacyMemory` | app/memory.py | class `LegacyStore` with integer conversation ids |
| `QueueWorker` | queue_worker.py | history assembly as pure functions; one loop pass as a method on `JobStore` |
| `LegacyQueueWorker` | app/queue_worker.py | the older assembly and loop pass |
| `ModelRunner` | model_runner.py | `format_messages` as a loop proved against a fold; the token budget; the `get_model` cache as a class |
| `LegacyModelRunner` | app/model_runner.py | `max_tokens` resolution, the stop list, and `run_model` over the cache |
| `Api` | main.py | `status_badge`, `AVAILABLE_MODELS`, `enqueue_user_message`, `create_job`, `get_latest` |
| `Auth` | auth_utils.py | token configuration, `verify_password`'s guard, `require_bearer_token` |

There are four supporting modules:
- `Wrappers` holds `Option` and `Result`.
- `Strings` holds Python's `str.strip` over the full `str.isspace` set, plus ASCII `lower`, `split` and slicing.
- `JobTable` holds the row datatypes and the specification of the table: what an atomic claim may do, and how finishing a job rewrites one row.
- `Scenarios` holds small end-to-end runs on concrete inputs.

Some behaviour is modelled as follows:
- `created_at` has one-second resolution and the query breaks no ties, so a claim may return any queued row whose `created_at` is minimal. The model does not assume id order.
- `AUTOINCREMENT` with no deletes makes the row with id `n` the `n`-th row; `Valid()` states this.
- The model call is an opaque function parameter returning either a reply or a raised error. So is engine loading: `loadError` gives the error the engine constructor raises for a model file, or none.
- The clock (`now`), the generated UUID and the file-existence check are all parameters.
- `app/queue_worker.py` imports `claim_next_job`, `mark_job_done` and `save_assistant_message`, which only `memory.py` defines. Both workers therefore run against `Memory.JobStore`.

## Model

| member | source | states |
|---|---|---|
| JobTable.StatusNameInjective | memory.py:51 | the four status strings are pairwise distinct, so a status is recovered from its column text |
| JobTable.OldestQueuedExists | memory.py:139-146 | whenever some row is queued, a queued row with minimal `created_at` exists |
| JobTable.OldestQueuedTie | memory.py:143-144 | two rows that both qualify as oldest queued share their `created_at`; ties are the only source of choice |
| JobTable.ClaimLeavesQueue | memory.py:139-153 | a claim returns a queued id, takes exactly that id out of the queued set, and keeps ids equal to row numbers |
| JobTable.ClaimsAreDistinctAndInOrder | memory.py:142-153 | two successive claims return different ids, and the second job is no older than the first |
| JobTable.SingleJobClaimedOnce | memory.py:142-153 | with one queued job, the first claim returns it and the next returns None and changes nothing |
| JobTable.Finished | memory.py:172-182 | finishing a job keeps the table's length |
| JobTable.FinishedTouchesOnlyId | memory.py:172-182 | finishing changes only the row with that id, to the given status and result, stamped `now`; no guard on its old status |
| JobTable.EnqueueAddsOnlyItsId | memory.py:121-131 | inserting a `queued` row adds exactly its id to the queued ids |
| JobTable.ClaimedNeverRequeues | memory.py:153 | marking a row `processing` adds no id to the queued ids |
| JobTable.FinishedNeverRequeues | memory.py:172-182 | finishing a job with a status other than `queued` removes its id from the queued ids and adds none |
| JobTable.StepNeverRequeues | memory.py:121-182 | an insert, a claim or a finish keeps ids equal to row numbers, never shrinks the table, and adds to the queued ids at most the new row's id |
| JobTable.TraceKeepsIds | memory.py:121-182 | along any sequence of these writes, ids stay equal to row numbers |
| JobTable.StaysOutOfQueue | memory.py:121-182 | an existing row that is not queued is never queued again later in the sequence |
| JobTable.ClaimsNeverRepeat | memory.py:133-182 | however inserts, claims and finishes interleave, no two claims return the same job |
| JobTable.RowWithId | memory.py:227-238 | the lookup returns a row with that id, or None only when no row has it |
| JobTable.Transcript | memory.py:109-118 | a conversation's transcript is no longer than the message log |
| JobTable.TranscriptAppend | memory.py:99-118 | appending a message extends only its own conversation's transcript, by that one turn |
| Memory.NormalizeGrammar | memory.py:127 | the stored grammar name is None iff the argument is None or blank, otherwise its stripped, non-empty text |
| Memory.NormalizeGrammarIdempotent | memory.py:127 | normalising a stored grammar name again changes nothing |
| Memory.Filtered | memory.py:193-204 | the filtered rows are exactly the table's rows that match every given filter; an empty filter value is no filter |
| Memory.StatusFilterExact | memory.py:193-204 | filtering on a status's column text keeps exactly the rows with that status, because distinct statuses have distinct texts |
| Memory.FilteredCounts | memory.py:193-204 | each row occurs in the filtered rows as often as in the table when it matches, and not at all otherwise |
| Memory.NewestIndex | memory.py:205 | picks a row no older than any other |
| Memory.Without | memory.py:205-206 | removing one row keeps the others in order |
| Memory.TakeNewest | memory.py:205-206 | taking the newest `n` rows yields `min(n, rows)` rows |
| Memory.TakeNewestSubMultiset | memory.py:205-206 | the rows taken are a sub-multiset of the input: no row is taken more often than it occurs |
| Memory.TakeNewestFromRows | memory.py:205-206 | every row taken comes from the input |
| Memory.TakeNewestBounded | memory.py:205-206 | a bound on every input `created_at` bounds every row taken |
| Memory.TakeNewestSorted | memory.py:205 | the rows taken are newest first |
| Memory.TakeNewestKeepsNewest | memory.py:205-206 | no row left out is newer than a row taken |
| Memory.ListJobsSpec | memory.py:186-225 | `list_jobs` returns exactly `min(limit, matching)` rows (all matching rows for a negative `limit`), a sub-multiset of the matching rows, newest first, none older than a matching row left out |
| Memory.ListJobs | memory.py:186-225 | definition: the newest `limit` rows of the filtered table; its properties are Memory.ListJobsSpec |
| Memory.JobStore.constructor | memory.py:19-63 | a fresh store is empty |
| Memory.JobStore.EnsureConversation | memory.py:69-82 | returns the given id; inserts it only when absent, titled "New Conversation" when the title is empty; otherwise changes nothing |
| Memory.JobStore.CreateConversation | memory.py:84-88 | returns the generated id and ensures that conversation exists |
| Memory.JobStore.AddMessage | memory.py:99-107 | appends exactly one message to the log |
| Memory.JobStore.SaveAssistantMessage | memory.py:169-170 | appends exactly one assistant message |
| Memory.JobStore.QueuePrompt | memory.py:121-131 | appends exactly one `queued` row with a fresh id `n + 1`, normalised grammar and timestamp `now`, and returns that id; earlier rows are unchanged |
| Memory.JobStore.ClaimNextJob | memory.py:133-167 | one atomic claim: None and no change when nothing is queued; otherwise an oldest queued row's ticket, and only that row becomes `processing` |
| Memory.JobStore.MarkJobDone | memory.py:172-182 | the row with that id becomes `error` if `failed` else `done`, with the result text and `now`; nothing else changes |
| Memory.JobStore.ConversationMessages | memory.py:109-118 | definition: the transcript of the conversation in the message log; its properties are JobTable.TranscriptAppend and Api.EnqueuedTranscript |
| Memory.JobStore.GetJob | memory.py:227-238 | definition: JobTable.RowWithId on the store's table |
| Memory.JobStore.ListJobsOf | memory.py:186-225 | definition: Memory.ListJobs on the store's table |
| LegacyMemory.IdsUpTo | app/memory.py:51 | the ids an autoincrement column has handed out after `n` inserts are exactly 1..n |
| LegacyMemory.LegacyStore.constructor | app/memory.py:7-44 | a fresh store is empty |
| LegacyMemory.LegacyStore.CreateConversation | app/memory.py:47-54 | returns a new id distinct from every existing conversation id and adds exactly that id |
| LegacyMemory.LegacyStore.AddMessage | app/memory.py:65-71 | appends exactly one message |
| LegacyMemory.LegacyStore.ConversationMessages | app/memory.py:73-80 | definition: JobTable.Transcript of the message log for that conversation; its properties are JobTable.Transcript and JobTable.TranscriptAppend |
| LegacyMemory.LegacyStore.QueuePrompt | app/memory.py:83-93 | appends one `queued` row with id `n + 1` and returns it |
| LegacyMemory.LegacyStore.FetchNextQueued | app/memory.py:95-114 | read-only; None iff nothing is queued, otherwise the ticket of an oldest queued row |
| LegacyMemory.LegacyStore.MarkProcessed | app/memory.py:116-125 | only that id's row becomes `done` with the result and `now` |
| QueueWorker.NeedsUserTurn | queue_worker.py:45 | definition: the user turn is needed iff the input is non-empty and the last stored turn is not a user turn whose stripped content is the input |
| QueueWorker.NeedsSystemTurn | queue_worker.py:49 | definition: the system turn is needed iff the prompt is non-empty and the first turn is not a system turn whose stripped content is the prompt |
| QueueWorker.AssembleHistory | queue_worker.py:42-50 | definition: append the user turn when needed, then insert the system turn first when needed; its properties are the three lemmas below |
| QueueWorker.HistoryLayout | queue_worker.py:42-50 | the assembled history is the optional system turn, then the stored history in order, then the optional user turn, each added exactly when its condition holds |
| QueueWorker.UserTurnIsLast | queue_worker.py:36-46 | for a non-empty stripped input, the history ends with a user turn whose stripped content is the input |
| QueueWorker.SystemPromptIsFirstOnce | queue_worker.py:37-50 | for a non-empty stripped prompt, the history starts with that system turn, and when the stored history already starts with it, no second copy is added |
| QueueWorker.Complete | queue_worker.py:53-71 | a claimed job ends `done` or `error`; an assistant message is saved iff it ends `done`, and then the saved text is the non-empty, stripped result |
| QueueWorker.CompletionCases | queue_worker.py:53-71 | a raised error gives `error` with its message; a blank reply gives `error` with "Empty model output" and saves nothing; otherwise `done` with the stripped reply saved once |
| QueueWorker.Process | queue_worker.py:34-71 | persists the outcome: at most one assistant message appended, then the job finished with the outcome's status and result |
| QueueWorker.Iterate | queue_worker.py:24-74 | one loop pass: an empty claim writes nothing; a claimed job is processed; a failing claim re-marks the job still bound from an earlier pass as `error` |
| QueueWorker.IterateScoped | queue_worker.py:67-71 | with `jid` scoped to the pass, a failing claim changes nothing; otherwise one claim step, and the claimed job is processed exactly as in QueueWorker.Iterate; only the row claimed in this pass can change, and finished rows stay finished |
| LegacyQueueWorker.NeedsUserTurn | app/queue_worker.py:34 | definition: the user turn is needed unless the last stored turn is a user turn with exactly the same, unstripped content |
| LegacyQueueWorker.AssembleHistory | app/queue_worker.py:31-39 | definition: a non-blank prompt always becomes the first turn, stripped; the user turn is appended by the exact-match rule |
| LegacyQueueWorker.SystemPromptDuplicated | app/queue_worker.py:38-39 | when the stored history already starts with the system turn, the assembled history starts with it twice |
| LegacyQueueWorker.DuplicateExample | app/queue_worker.py:31-39 | the transcript [system "Be brief", user "Hi"] with input "Hi" and prompt "Be brief" becomes [system, system, user] |
| LegacyQueueWorker.WorkersDisagree | app/queue_worker.py:34-39 | for any trimmed prompt and input already stored, the newer worker keeps the history as stored and the older one adds a second system turn |
| LegacyQueueWorker.Complete | app/queue_worker.py:42-52 | a message is saved iff the job ends `done`, and what is saved is the job's result; LegacyQueueWorker.CompletionCases ties that result to the unmodified reply |
| LegacyQueueWorker.CompletionCases | app/queue_worker.py:42-52 | for every model outcome: a raised error gives `error` with its message and saves nothing; any reply, blank or not, gives `done` with the reply saved unmodified |
| LegacyQueueWorker.BlankReplyIsDone | app/queue_worker.py:42-48 | an empty reply is saved and the job marked `done`; there is no empty-output guard |
| LegacyQueueWorker.Iterate | app/queue_worker.py:17-52 | one loop pass: an empty claim writes nothing; otherwise the outcome is persisted as the older worker decides |
| ModelRunner.Header | model_runner.py:48-53 | exactly the roles system, user and assistant have a header |
| ModelRunner.RenderTurns | model_runner.py:45-53 | definition: the blocks of the turns, in order; its properties are ModelRunner.RenderAppend and ModelRunner.RenderOne |
| ModelRunner.Prompt | model_runner.py:43-55 | definition: the rendered turns followed by the `[ASSISTANT]\n` cue; ModelRunner.FormatMessages is proved equal to it |
| ModelRunner.FormatMessages | model_runner.py:43-55 | the loop's prompt equals the fold: each turn's block in order, then `[ASSISTANT]\n` |
| ModelRunner.RenderAppend | model_runner.py:45-53 | rendering distributes over concatenation of turn lists |
| ModelRunner.RenderOne | model_runner.py:46-53 | one turn renders to its block |
| ModelRunner.BlockInPlace | model_runner.py:43-55 | every turn's block appears in place, between the renderings of the turns before and after it |
| ModelRunner.PromptEndsWithCue | model_runner.py:54 | every prompt ends with `[ASSISTANT]\n`, and the empty list renders to exactly that |
| ModelRunner.UnknownRoleIgnored | model_runner.py:48-53 | a turn with any other role contributes nothing |
| ModelRunner.Remaining | model_runner.py:60-64 | the budget is at least 256, at least the room left after prompt and margin, and one of the two |
| ModelRunner.RemainingFillsWindow | model_runner.py:64 | when the room is at least 256, budget plus prompt plus margin is exactly the window |
| ModelRunner.RemainingAntitone | model_runner.py:64 | a longer prompt never gets a larger budget |
| ModelRunner.Engine.constructor | model_runner.py:32-39 | an engine records its path and load options |
| ModelRunner.ModelCache.constructor | model_runner.py:16-23 | the cache starts empty |
| ModelRunner.ModelCache.GetModel | model_runner.py:26-40 | a cached key returns the same engine unchanged; a missing or nonexistent path fails with the `ValueError` text and leaves the cache; an engine that raises while loading fails with its error and leaves the cache; otherwise a fresh engine is loaded and cached under the key |
| LegacyModelRunner.GlobalMaxTokens | app/model_runner.py:7-17 | the config's `max_tokens` when a config file exists, else the environment's, else 512 |
| LegacyModelRunner.MaxTokensDefault | app/model_runner.py:11-17 | with nothing set, `MAX_TOKENS` is 512 |
| LegacyModelRunner.ResolveMaxTokens | app/model_runner.py:59 | the per-model setting when present, otherwise the global value |
| LegacyModelRunner.MaxTokensNotClamped | app/model_runner.py:59 | a per-model setting is used as given, whatever its size |
| LegacyModelRunner.StopStringsAreHeaders | app/model_runner.py:44-49 | the three stop strings are exactly the role headers the prompt uses, without their newline |
| LegacyModelRunner.RunModel | app/model_runner.py:23-64 | an unknown model raises the not-found error and leaves the cache; an engine that fails to load raises its error and leaves the cache; a cached model is reused; a loadable one is loaded once with the options of lines 29-34 and cached under its key; then the engine gets the rendered prompt, the resolved `max_tokens`, the stop list and no echo, and its text comes back stripped |
| Api.BadgeColour | main.py:84-92 | the colour is the table's entry for the lower-cased status, or `bg-gray-500` |
| Api.BadgeIgnoresCase | main.py:92 | statuses equal up to case get the same colour |
| Api.EveryStatusHasColour | main.py:85-92 | every job status has its own colour, and only `error` is red |
| Api.FailedIsRed | main.py:89-90 | `error` and `failed`, in any case, are red |
| Api.NonBlankStripped | main.py:39 | every kept entry is non-empty and stripped |
| Api.NonBlankStrippedAvoids | main.py:39 | a character absent from every part is absent from every kept entry |
| Api.NonBlankStrippedComplete | main.py:39 | every part that is not blank is kept, stripped |
| Api.NonBlankStrippedSound | main.py:39 | every kept entry is the strip of some part |
| Api.NonBlankStrippedOne | main.py:39 | one part contributes its strip, or nothing when it is blank |
| Api.NonBlankStrippedCons | main.py:39 | a part in front contributes its entries in front of the rest |
| Api.NonBlankStrippedAppend | main.py:39 | the entries of `a + b` are those of `a` followed by those of `b`, so the parts' order is kept |
| Api.AvailableModels | main.py:38-40 | every model name is non-empty, stripped and free of commas |
| Api.AvailableModelsSound | main.py:38-40 | every model offered is the strip of one of the comma-separated entries |
| Api.AvailableModelsComplete | main.py:38-40 | every non-blank comma-separated entry of `LLM_MODELS`, or of the default list, is offered |
| Api.EnqueueUserMessage | main.py:100-105 | appends the system message only when a prompt is given, then the user message, then one `queued` job, and returns the job's id |
| Api.EnqueuedTranscript | main.py:100-105 | the conversation's transcript grows by the optional system turn and the user turn |
| Api.OrDefault | main.py:250-253 | a missing or empty field takes the default; any other value is kept |
| Api.PlanJob | main.py:250-256 | a request fails iff both stripped content and stripped system prompt are empty, with the 400 message |
| Api.PlanJobFields | main.py:250-253 | each accepted field is the stripped value, or the stripped default |
| Api.PlanJobTitleSeed | main.py:258 | the title seed is the first 60 characters of the content, or of the system prompt when there is no content |
| Api.ModelDefaulting | main.py:251 | the default "mistral" is used only when the field is missing or empty; a whitespace-only model becomes ""; for a non-empty field see Api.PlanJobFields |
| Api.CreateJob | main.py:248-277 | a rejected request changes nothing; otherwise the conversation exists and is added, titled by the title seed (or "New Conversation"), only when it was absent, `created_new` iff no id was given, and `queued` iff content is non-empty, in which case the messages and one job are appended |
| Api.LastIndexWithRole | main.py:192-194 | finds the last turn with the role, or None iff there is none |
| Api.LastWithRole | main.py:193-194 | definition: the turn at Api.LastIndexWithRole, or None |
| Api.GetLatest | main.py:190-197 | reports the conversation's last user turn and last assistant turn |
| Api.LatestJobIsNewest | main.py:195-196 | the last job belongs to the conversation and no job of it is newer; it is None iff the conversation has no job |
| Auth.LoadAuth | auth_utils.py:8-25 | configuration fails closed iff the API token is unset or empty |
| Auth.VerifyPassword | auth_utils.py:11-14 | false whenever no admin hash is configured; true only when the hash check passes |
| Auth.BearerCandidate | auth_utils.py:38-41 | definition: the stripped rest of a `bearer <rest>` header, any case, or None; its properties are Auth.BearerOfWellFormed and Auth.BearerRejectsOtherSchemes |
| Auth.BearerOfWellFormed | auth_utils.py:38-41 | a header `<bearer in any case> <rest>` yields the stripped rest |
| Auth.BearerRejectsOtherSchemes | auth_utils.py:38-41 | any other scheme, or a header without a space, yields no candidate |
| Auth.Candidate | auth_utils.py:36-44 | the header's candidate when non-empty, otherwise the stripped `X-API-Token` |
| Auth.RequireBearerToken | auth_utils.py:27-51 | accepted iff the candidate equals the non-empty configured token; otherwise 401 "Invalid or missing token" with a Bearer challenge |
| Auth.AcceptedMeansToken | auth_utils.py:43-51 | an accepted request carried the configured token |
| Auth.HeaderTakesPrecedence | auth_utils.py:43-44 | with a non-empty header candidate, `X-API-Token` does not affect the outcome |
| Auth.FallbackAccepted | auth_utils.py:43-46 | without a header candidate, the right `X-API-Token` is accepted |
| Auth.BearerHeaderAccepted | auth_utils.py:38-46 | `Bearer <token>`, in any case and surrounded by whitespace, is accepted |
| Strings.Strip | queue_worker.py:36-37 | the stripped string is no longer than the input and has no surrounding whitespace |
| Strings.StripIsSlice | queue_worker.py:36-37 | the stripped string is a slice of the input with only whitespace before and after it |
| Strings.StripBounds | queue_worker.py:36-37 | returns the two ends of that slice |
| Strings.StripEmptyIffBlank | queue_worker.py:58 | stripping yields "" iff the string is all whitespace |
| Strings.SplitFirstOf | auth_utils.py:39 | splitting on the first space separates exactly at it |
| Strings.Split | main.py:39 | the parts contain no separator, and joining them gives the input back |
| Scenarios.HelloPlan | main.py:250-258 | `{"content": "Hello"}` is accepted with model "mistral" and title seed "Hello" |
| Scenarios.HelloQueued | main.py:248-277 | that request on an empty store creates conversation "c1" titled "Hello" and queues job 1 after one user message |
| Scenarios.AnsweredPrompt | queue_worker.py:53-64 | a worker pass with a replying model saves the reply and marks job 1 `done` |
| Scenarios.FailedPrompt | queue_worker.py:67-71 | a worker pass with a failing model marks job 1 `error` with the message and saves nothing |
| Scenarios.StaleBinding | queue_worker.py:67-71 | a done job is re-marked `error` when the next pass's claim fails |
| Scenarios.ScopedBinding | queue_worker.py:67-71 | with the scoped binding, the same run leaves the job `done` |
| Scenarios.CacheReuse | model_runner.py:26-40 | a second `get_model` returns the cached engine, and an unknown key fails with the not-found text |
| Scenarios.CorruptModel | model_runner.py:26-40 | a model file the engine cannot load gives its error on every request, since nothing is cached |

## Left out

- Memory.JobStore.ClaimNextJob: the SQLite transaction (`BEGIN IMMEDIATE`, `ROLLBACK`) and concurrent workers are not modelled. The claim is one atomic step, and a rollback is not modelled.
- The `multiprocessing` fan-out, `time.sleep` polling and logging in both workers are left out; each loop pass is one method call.
- Messages are read in append order. `ORDER BY timestamp` over `CURRENT_TIMESTAMP` values is modelled as insertion order: a later row's timestamp is never earlier, and rows written in the same second are assumed to come back in insertion order, which SQLite does not promise.
- LegacyMemory.LegacyStore.FetchNextQueued: two calls on the same table return rows with the same `created_at` (JobTable.OldestQueuedTie). They need not return the same row, because the query breaks ties arbitrarily.
- The llama.cpp engine, its tokenizer and its generation are opaque. They appear as parameters: the model call, a token count and `generate`.
- The floating-point sampling parameters of model_runner.py:66-77 (temperature, top_p, mirostat) are not modelled.
- The stop strings of the newer `run_model` (model_runner.py:76) are not modelled. `run_model` in model_runner.py calls `get_llama_instance` and `format_chat` (model_runner.py:59, model_runner.py:62), which no file defines, so it always raises a NameError. Only its budget arithmetic (`ModelRunner.Remaining`) and `format_messages` are modelled; the final strip at model_runner.py:79 is not.
- app/model_runner.py:59 reads `config`, which is unbound when no config file exists. LegacyModelRunner.RunModel takes the per-model settings as given and does not model that NameError.
- Configuration and environment loading are not modelled: config.json, `os.getenv` and `os.path.exists` are parameters. `SAFETY_MARGIN` (default 128) is a parameter of ModelRunner.Remaining.
- bcrypt's `checkpw` is a function parameter. `secrets.compare_digest` is modelled as string equality; its TypeError for non-ASCII strings is not modelled.
- `str.lower` is modelled for ASCII letters only. This is exact for "bearer" and the badge keys, but a non-ASCII status would be folded differently.
- `uuid4()` and `datetime.utcnow()` are parameters (`uuid`, `now`).
- Storage exceptions are not modelled, apart from a failure inside `claim_next_job` in the newer worker. A failing `mark_job_done` inside the `except` block is also not modelled.
- LegacyQueueWorker.Iterate: an exception from `claim_next_job` sits outside the `try` (app/queue_worker.py:18) and ends the worker. The model has no such failure.
- NULL columns are not modelled: text columns are strings, and a missing `system_prompt` is "". A `grammar_name` is kept on the row but no worker uses it.
- Api.PlanJob: request fields are modelled as absent or strings only. A truthy non-string value (`{"content": 5}`, `{"model": true}`, `{"conversation_id": 7}`) reaches `.strip()` and raises AttributeError, a 500 that is neither acceptance nor the 400. A falsy non-string value (`0`, `false`, `[]`, `{}`) takes the default, as a missing field does. Neither path is modelled.
- HTTP routes, templates, sessions, redirects and the HTML of `status_badge` and `jobs_rows` are left out; only the colour choice is modelled.
- main.py:13 imports `require_api_auth`, which auth_utils.py does not define. app/main.py, app/auth.py and app/memory_schema.py are not part of this model.
- Api.LatestJobIsNewest requires a non-empty conversation id. `list_jobs` treats an empty id as "no filter", so for "" the last job may belong to any conversation.
- Memory.TakeNewest: rows with the same `created_at` second are taken in table order, while `ORDER BY created_at DESC LIMIT ?` promises no order among ties. So `list_jobs`, and the `last_job` of `get_latest`, may return another of the tied rows than the model does. Memory.ListJobsSpec, Memory.TakeNewestSorted, Memory.TakeNewestKeepsNewest, Memory.TakeNewestSubMultiset and Api.LatestJobIsNewest do not depend on this choice: they state only facts that every order among ties satisfies.
- Memory.ListJobsSpec: a negative `limit` is SQLite's "no limit". The model returns every matching row and states no bound.

## Findings

| source | as written | input that shows it | evidently intended | confidence | as-written member | corrected member |
|---|---|---|---|---|---|---|
| app/queue_worker.py:38-39 | a non-blank system prompt is always inserted at index 0, even when the stored history already starts with that system turn (`enqueue_user_message` stores it there) | stored [system "Be brief", user "Hi"], input "Hi", prompt "Be brief": the model sees [system, system, user] | insert the system turn only when the history does not already start with it, as queue_worker.py:49-50 does | not executed | LegacyQueueWorker.DuplicateExample | QueueWorker.SystemPromptIsFirstOnce |
| queue_worker.py:67-71 | `jid` stays bound across loop passes, so when `claim_next_job` raises, the `'jid' in locals()` guard passes and the previous, finished job is re-marked `error` | job 1 is answered and `done`; on the next pass the claim raises "database is locked", and job 1 becomes `error` | mark only a job claimed in the failing pass | not executed | Scenarios.StaleBinding | QueueWorker.IterateScoped |
