# TaskPilot: a verified model of its shared-state protocols

TaskPilot is a Go backend in which many API requests and workers change the same rows (Postgres), keys (Redis) and
files at once. This project models the code whose correctness depends on what happens in between: the parse-job queue,
the life of results, projects and tasks, uploaded files and their sweeper, the Redis scripts, the chat stream and the
event-stream reader. Each committed transaction, guarded statement, atomic script or file operation is one step, a run
is any sequence of steps, and the main results hold for every run.

| file | models |
|---|---|
| `ParseJobs`, `JobSafety`, `JobLease`, `JobClockRule`, `JobRetries`, `JobFairness`, `JobMarked`, `JobAccess`, `JobStore` | the parse-job protocol: API calls, handlers, stale-lease sweeps, reconcile rounds and an untrusted queue |
| `JobResults` | the job protocol and the services on its results, side by side |
| `Lifecycle`, `LifecycleSafety`, `LifecycleRuns`, `LifecycleAccess`, `LifecycleStore` | parse results, projects and tasks: versions, confirmation, archiving, ordering |
| `Normalize`, `History` | the normalisers of AI answers and edits, and the chat history |
| `Files`, `TempFiles` | PDF uploads, soft deletion and the sweeper of leftover files |
| `Sessions`, `Limiter`, `ChatGuard` | the Redis scripts: refresh sessions, the sliding-window limiter, the chat guard |
| `ChatStream` | runStream and its goroutine: two processes, three channels, two contexts |
| `EventStream`, `EventMeaning`, `EventFraming` | the server-sent-event reader, framing, and section 9.2.6 of the WHATWG HTML Living Standard |
| `Base`, `Text`, `Sequences`, `Oldest` | shared types, white space, finite sequences, `ORDER BY … LIMIT` |

A transaction is written once as a function from state to state. Where the source updates objects or rows in place, a
class does the same with its fields; each of its methods says what it changes and what it leaves alone, and is proved to
compute that function, which the lemmas about runs are about.

Two tiers of claims about jobs are kept apart. `JobSafety` assumes nothing about time: any delay, lost, repeated or
reordered messages, crashes at any point. `JobLease`, `JobRetries` and `JobFairness` assume one clock that never runs
backwards, which a process reads some time before the step that uses the time, and that a handler does not touch the
database after the deadline of its job context (internal/worker/parsejob/worker.go:332); `JobClockRule` shows a run that
breaks the lease claims when only the second assumption is dropped. `JobAccess` and `LifecycleAccess` say whose rows a
request may change, and on whose its answer may depend.

Where a claim is false for some configurations or inputs, the exact condition is proved:

* Live PDF documents keep their files in every timely run if and only if the two delays together are below the grace
  period for orphans (`Files.FilesSafeIff`). Uploads no older than a limit keep their temporary files in every run if and
  only if the limit is below the grace period for temporary files (`TempFiles.TempsSafeIff`).
* The chat guard's owner is the request id, which the client sends in a header and may send again
  (internal/handler/aichat/chat.go:35-39). Whatever ids are used, the script decides by the distinct ids of the last
  window, and these stay within the limit. They are all admissions if and only if no id was admitted twice in the window;
  over all runs the admissions of a window stay within the limit if and only if the limit is one
  (`ChatGuard.GuardCountsOwners`, `CountsEveryAdmissionIff`, `AdmissionsBoundedIff`).
* Two chat streams of one user never overlap if and only if the lock's time to live is at least start delay plus request
  timeout and no id is used again before its stream is released, or the limit is one and these two are at most the rate
  window (`ChatGuard.StreamsDoNotOverlapIff`). The configuration accepts any positive timeout
  (internal/config/config.go:156-169), the lock lives 100 seconds (internal/logic/aichat/service.go:25), and nothing keeps
  ids apart; a run is given for each way to fail.
* A chat stream that ends with `done` has delivered every delta if and only if the deltas channel was empty when its
  select took the result, and otherwise loses exactly what the channel held (`ChatStream.DoneDeliversEverythingIff`,
  `DoneWasTaken`); a run that loses one is given.
* After its timeout a chat stream can still come to wait for its reader forever if and only if the request lives and the
  stream has a select before it, or waits already (`ChatStream.SticksIff`). Without its reader it makes a bounded number
  of moves, and then has returned or waits so; it always returns once the request has ended (`ReturnsOrSticks`). Ticks,
  like every step, may come at any speed here: filling the channel with pings takes a stream that is held up between
  selects for as long as the ticker needs.
* A stale pending job is published again within the rounds due for it if no round has just published it without having
  marked it; otherwise that mark may be all that reaches it, and sends it to the back of the queue
  (`JobFairness.ReconcileReachesEveryJob`, `JobMarked.MarkedNotPublished`).
* The event-stream reader differs from the standard in two ways, lines that are just `data` and data left pending at the
  end. It dispatches the same payloads if and only if these cancel: each block that has such a line, or has data after
  one, and the pending block hold as many data lines as there were such lines before, all empty
  (`EventFraming.AgreesWithStandardIff`). So with only one of the two differences it agrees exactly when that one is absent.

## Model

| member | source | states |
|---|---|---|
| JobSafety.ExactlyOneResult | internal/worker/parsejob/worker.go:343-478 | in every run, with arbitrary delays and messages, a job has a result row exactly when it is a success; the row is unique and carries the job's user and document |
| JobSafety.SuccessIsFinal | internal/worker/parsejob/worker.go:403-478 | a successful job and its result never change again, even when a late handler writes |
| JobSafety.ActiveJobs | internal/logic/document/service.go:210-244 | at most one active job per document and none on a deleted one, so a document can be deleted exactly when it has no active job |
| JobSafety.ProcessingJobHasNoResult | scripts/migrate.sql:99-100 | completing a job succeeds exactly when it is processing: the unique index on results never refuses a legitimate insert |
| JobLease.SoleOwner | internal/worker/parsejob/worker.go:332-389 | under the clock rule a job has at most one handler that may still write, and it is processing for that handler |
| JobLease.RecoveryFollowsDeadline | internal/worker/parsejob/worker.go:480-513 | a sweep takes a job only after the deadline of every handler that claimed it |
| JobLease.CloseHitsOwnAttempt | internal/worker/parsejob/worker.go:440-478 | completeJob and failJob always close the attempt that their own handler claimed, with the matching status and result |
| JobLease.OwnerFindsDocument | internal/worker/parsejob/worker.go:352-366 | reading its document, an owning handler goes to failJob exactly when the query itself fails, and otherwise always has non-blank text |
| JobClockRule.LateCompletionClosesAnothersAttempt | internal/worker/parsejob/worker.go:440-456 | without the deadline rule a run exists in which a late handler closes a job that another live handler owns |
| JobRetries.RetryCountAddsUp | internal/worker/parsejob/worker.go:480-533 | retry_count is the number of stale resets plus user retries although sweeps write back a remembered count; automatic resets never exceed maxRecoveries over a job's whole life |
| JobRetries.PendingJobSettles | internal/worker/parsejob/worker.go:480-533 | a pending job with count r that nobody retries changes status at most 2 * max(0, M - r) + 2 times |
| JobFairness.ReconcileReachesEveryJob | internal/worker/parsejob/worker.go:535-559 | a job pending for longer than the grace period and the time a step may come after its process read the clock, with p jobs before it and no round that has published it without having marked it, is published or leaves pending within p / 100 + 1 successful rounds of any one worker, whatever else arrives |
| JobFairness.ReconcileServesEveryJob | internal/worker/parsejob/worker.go:535-559 | without the last condition, the mark of that earlier publication may come instead |
| JobMarked.MarkedNotPublished | internal/worker/parsejob/worker.go:547-556 | and it may: a run in which the job is only marked while the rounds due for it are finished |
| JobResults.ProjectsComeFromSuccess | internal/worker/parsejob/worker.go:403-456 | with workers and requests interleaved in one run, a project's confirmed result is the one result of a job that succeeded for the project's user |
| JobAccess.RequestsTouchOwnRows | internal/logic/parsejob/service.go:27-199 | in every state of every run a request changes only rows of its own user, and what it adds is that user's |
| JobAccess.DocumentsAreCreated | internal/logic/document/service.go:30-138 | a text becomes a document exactly when title and text are not blank and the trimmed text fits; a PDF when enough of its characters are neither white space nor control characters; a refusal changes nothing |
| JobAccess.AcknowledgedMeansClosed | internal/worker/parsejob/worker.go:320-376 | a worker acknowledges a message only when its job is closed by then, or the message names none |
| JobResults.InsertedResult | internal/worker/parsejob/worker.go:416-439 | the row that completeJob inserts is unconfirmed, has version 1 and holds the answer: trimmed texts, lists without repetitions, tidied tasks |
| Oldest.SelectTakesOldest | internal/worker/parsejob/worker.go:482-490 | the batch of `ORDER BY stamp, id LIMIT n`: in order, without repeats, and nothing left out precedes anything taken |
| JobStore.StaleBatch | internal/worker/parsejob/worker.go:482-490 | the batch of a stale sweep in the columns of the rows: processing, started before the cutoff, ordered by start and id, a full hundred if any is left out, and none left out precedes one taken |
| JobStore.PendingBatch | internal/worker/parsejob/worker.go:536-545 | the batch of a reconcile round likewise: pending, untouched since the cutoff, ordered by last change and id |
| JobStore.Database.CreateJob | internal/logic/parsejob/service.go:27-79 | accepted exactly for the owner of a ready document that is not deleted and has no active job; the new row is given column by column, and exactly the new job is published |
| JobStore.Database.Retry | internal/logic/parsejob/service.go:114-186 | not found exactly for a job that is missing or another user's; accepted exactly for the owner's failed job with its document and without an active one, and then that row is reset with one more retry, column by column, and published |
| JobStore.Database.DeleteDocument | internal/logic/document/service.go:204-244 | not found exactly for a document that is missing, deleted or another user's; accepted exactly for the owner's without an active job, and then only its deletion mark changes |
| JobStore.Database.ClaimJob | internal/worker/parsejob/worker.go:378-401 | the guarded claim reports whether it won and reloads the job |
| JobStore.Database.CompleteJob | internal/worker/parsejob/worker.go:403-458 | insert-then-close; when the guarded close finds no processing job the insert is rolled back |
| JobStore.Database.FailJob | internal/worker/parsejob/worker.go:460-478 | the guarded failure closes only a processing job |
| JobStore.Database.ProcessJob | internal/worker/parsejob/worker.go:343-376 | undisturbed, it closes a pending job, as a success with its result exactly when the document can be read and the parser answers; any other job is left alone and acknowledged exactly when closed |
| JobStore.Database.RecoverOne | internal/worker/parsejob/worker.go:496-530 | the guarded reset or failure of one stale job, column by column, published exactly when reset; a job that moved on is left alone |
| JobStore.Database.RecoverStaleJobs | internal/worker/parsejob/worker.go:480-533 | the jobs processing since before the cutoff, by start and id, at most a hundred and none left out that precedes one taken, are reset and published or failed by their recovery count, and no other job changes |
| JobStore.Database.Republish | internal/worker/parsejob/worker.go:547-556 | one job is published, and touched only if it is still stale and pending |
| JobStore.Database.ReconcilePendingJobs | internal/worker/parsejob/worker.go:535-559 | the pending jobs untouched since the cutoff, by last change and id, at most a hundred and none left out that precedes one taken, are published in order and sent to the back, up to the first failing publication |
| LifecycleSafety.StepOk | internal/logic/project/service.go:41-140 | every transaction on results, projects and tasks keeps the row invariants and only moves rows as versions, confirmation, status and ordering allow |
| LifecycleSafety.ReorderedTasks | internal/logic/task/service.go:239-282 | an accepted reorder writes index i to the i-th requested row and changes no other row |
| LifecycleRuns.EqualVersionsMeanEqualRows | internal/logic/project/service.go:200-214 | along any run equal versions mean equal rows: projects wholly, tasks but for their place, results but for confirmation |
| LifecycleRuns.NoLostProjectEdit | internal/logic/project/service.go:182-234 | an accepted project update overwrites nothing its author had not read |
| LifecycleRuns.NoLostTaskEdit | internal/logic/task/service.go:99-148 | the same for a task, whose place in the order has no version |
| LifecycleRuns.NoLostResultEdit | internal/logic/parseresult/service.go:97-161 | the same for a result, which is moreover unconfirmed still |
| LifecycleRuns.SecondCreate | internal/logic/project/service.go:53-76 | once a result has a project, another Create changes nothing: it answers that project, or a conflict after its deletion |
| LifecycleRuns.CreatedAtMostOnce | internal/logic/project/service.go:41-140 | over a whole run `created` is answered at most once per result, and every later success names the same project |
| LifecycleRuns.ProjectSourceIsFixed | internal/logic/parseresult/service.go:117-130 | the result behind a project is confirmed and its row never changes again |
| LifecycleRuns.ConfirmedResultBecomesProject | internal/logic/project/service.go:78-117 | a confirmed result without a project always becomes one: an active project with the given name and the result's summary, deadline and document, whose tasks are the stored ones in their order, column by column, all to do; no other row changes |
| LifecycleRuns.InactiveTasksFrozen | internal/logic/task/service.go:373-393 | a project's tasks are the same throughout any period in which it is not active |
| LifecycleRuns.DeletedProjectIsFinal | internal/logic/project/service.go:244-327 | a deleted project and its tasks never change again |
| LifecycleRuns.ListingIsUnique | internal/logic/task/service.go:290-314 | the listing by (sort_order, id) is determined by the rows |
| LifecycleRuns.PlacesAreDistinct | internal/logic/task/service.go:61-86 | in every reachable state a project's tasks have distinct, non-negative places |
| LifecycleRuns.ReorderListsAsRequested | internal/logic/task/service.go:221-288 | Reorder is accepted exactly for a permutation of an active project's tasks, then lists exactly as requested with places 0 to n - 1; a refused one changes nothing |
| LifecycleAccess.RequestsTouchOwnRows | internal/logic/project/service.go:41-327 | in every reachable state a request changes, adds and removes only rows of its own user |
| LifecycleAccess.OthersAreInvisible | internal/logic/project/service.go:280-327 | neither a request's answer nor what it does to its user's rows depends on the rows of other users: two reachable states in which the user has the same rows behave alike |
| LifecycleAccess.AnswersInOrder | internal/logic/task/service.go:99-219 | a request is refused as invalid exactly when it is malformed, and a well-formed one is not found exactly when its row is missing, deleted with its project, or another user's; a refusal changes nothing |
| LifecycleAccess.StaleEditIsTold | internal/logic/project/service.go:200-214 | along any run, a well-formed edit by the owner whose row has changed since it was read is answered with a conflict, or, for a result confirmed since, with an invalid state |
| LifecycleStore.ValidateReorderRequest | internal/logic/task/service.go:432-447 | accepts exactly a request that lists positive, pairwise distinct ids (the list may be empty) for a positive user and project |
| LifecycleStore.Database.UpdateResult | internal/logic/parseresult/service.go:97-161 | accepted exactly for an acceptable edit by the owner of an unconfirmed row of the version given; changes only that row, which then holds the edit, column by column, and counts its version up |
| LifecycleStore.Database.Confirm | internal/logic/parseresult/service.go:163-210 | accepted exactly for the owner, idempotent, and leaves the content alone |
| LifecycleStore.Database.BuildTasks | internal/logic/project/service.go:99-115 | the loop builds one row per generated task with its title, description, priority and deadline: to do, of version 1, with its index as place |
| LifecycleStore.Database.CreateProject | internal/logic/project/service.go:41-140 | created exactly for the owner's confirmed result without a project, and then one project and its tasks are added, column by column; otherwise nothing changes, and an existing project of that user is answered |
| LifecycleStore.Database.UpdateProject | internal/logic/project/service.go:182-234 | accepted exactly for fitting texts and the owner's active project of the version given; sets name, description and deadline of only that row and counts its version up |
| LifecycleStore.Database.Transition | internal/logic/project/service.go:280-327 | accepted exactly when the owner's project is in the target status already, which changes nothing, or in the source status, which changes only its status and version, and no text; keeps the row invariants |
| LifecycleStore.Database.Archive | internal/logic/project/service.go:236-238 | an active project becomes archived with its version counted up; an archived one is left alone |
| LifecycleStore.Database.Unarchive | internal/logic/project/service.go:240-242 | an archived project becomes active with its version counted up; an active one is left alone |
| LifecycleStore.Database.DeleteProject | internal/logic/project/service.go:244-278 | accepted exactly for the owner's archived project; only its row changes, with its version |
| LifecycleStore.Database.NormalizeTaskFields | internal/logic/task/service.go:417-430 | trims both texts and accepts exactly the fitting ones with a known priority |
| LifecycleStore.Database.CreateTask | internal/logic/task/service.go:42-97 | accepted exactly for fitting texts and the owner's active project whose places do not run out; adds one task, column by column, behind all its tasks |
| LifecycleStore.Database.UpdateTask | internal/logic/task/service.go:99-148 | accepted exactly for fitting texts and the owner's task, of the version given, in an active project; sets title, description, priority and deadline of only that row, and neither its status nor its place |
| LifecycleStore.Database.UpdateTaskStatus | internal/logic/task/service.go:150-195 | accepted exactly for the owner's task in an active project; it then has the status, its version counts up exactly when the status differed, and nothing else changes |
| LifecycleStore.Database.DeleteTask | internal/logic/task/service.go:197-219 | accepted exactly for a task of the owner's active project, and removes exactly that row |
| LifecycleStore.Database.Reorder | internal/logic/task/service.go:221-288 | the membership loop and the rewriting loop yield the requested listing, or leave every row as it was |
| Text.TrimCutsOnlySpace | pkg/ai/parser.go:294-295 | what trimming cuts off on either side is white space |
| Text.TrimIsUnique | pkg/ai/parser.go:294-295 | and the trimmed string is the only one left between white space without any at its own ends |
| Normalize.NormalizeStrings | pkg/ai/parser.go:341-359 | accepts exactly bounded lists of bounded non-blank values, and returns the trimmed values where they first occur |
| Normalize.FirstOccurrencesKeepOrder | internal/logic/parseresult/service.go:283-301 | the result has no duplicates, the same values, and the order of first occurrence |
| Normalize.NormalizeStringsIdempotent | pkg/ai/parser.go:341-359 | normalising again succeeds and changes nothing |
| Normalize.NormalizeTasks | pkg/ai/parser.go:315-337 | the shared loop over generated tasks, with and without a default priority: accepts exactly the acceptable lists and trims both texts of each task, an empty priority becoming medium |
| Normalize.NormalFormIsFixpoint | internal/logic/parseresult/service.go:250-279 | normalising yields the normal form, which is exactly what normalising leaves alone |
| Normalize.DecodeGeneratedTasks | internal/logic/project/service.go:444-481 | decodes a stored list, refusing malformed bytes, null and unacceptable tasks |
| Normalize.DecodeIsIdentityOnNormal | internal/logic/project/service.go:444-481 | decoding gives a list back unchanged exactly when it is in normal form |
| Normalize.NormalizersAgree | internal/worker/parsejob/worker.go:416-439 | whatever the worker or an edit writes is normal, and always decodes to itself |
| Normalize.NormalContentPasses | internal/logic/parseresult/service.go:232-281 | an edit that sends back what is stored is accepted and stores the same |
| Normalize.ParsedDocument.NormalizeAndValidate | pkg/ai/parser.go:293-339 | the in-place rewrite succeeds exactly on acceptable answers and leaves the normal form, field by field |
| Normalize.NormalizeUpdate | internal/logic/parseresult/service.go:232-281 | accepts exactly a positive version with an acceptable body, and returns its normal form |
| History.NormalizeMessages | internal/logic/aichat/service.go:176-214 | accepts exactly alternating, non-blank histories with a short question, and returns the longest odd suffix within the limit; the final size error cannot occur |
| History.CutHistory | internal/logic/aichat/service.go:198-213 | the removing loop yields the longest odd suffix within the limit and never fails |
| History.LongestOddSuffixIsUnique | internal/logic/aichat/service.go:198-213 | that suffix is unique |
| History.KeptHistoryAlternates | internal/logic/aichat/service.go:198-213 | what is kept alternates, starts and ends with the user, and ends with the question |
| Files.FilesSafeIff | internal/worker/parsejob/worker.go:172-188 | in every timely interleaving of uploads, deletions and sweeps each live PDF document has its file, if and only if upload delay plus query delay is below the orphan grace period |
| Files.ExpiredIsExpendable | pkg/upload/cleanup.go:31-43 | the grace-period argument: a file a sweep finds expired belongs to no live document and to no upload that could still become one |
| Files.LosingRun | internal/logic/document/service.go:82-104 | with longer delays a concrete run loses a live document's file |
| TempFiles.YoungUploadIsPromoted | internal/logic/document/service.go:82-90 | in every run an upload whose file is younger than the grace period for temporary files is promoted, and its file keeps its time |
| TempFiles.TempsSafeIff | pkg/upload/cleanup.go:23-36 | uploads no older than a limit keep their temporary files in every run, if and only if the limit is below that grace period |
| Files.FileStore.CreatePDF | internal/logic/document/service.go:56-107 | with a fault no row is written and a file is left exactly when one was created and its removal fails; without one the row refers to the promoted file |
| Files.FileStore.SweepTarget | pkg/upload/cleanup.go:28-52 | the inner loop deletes exactly the listed files that are old enough, not referenced unless temporary, and whose deletion works; it counts each listed file once |
| Files.FileStore.Cleanup | pkg/upload/cleanup.go:17-55 | a file goes exactly when a listing shows it old enough, it is temporary or not referenced, and its deletion works; Scanned plus list failures equals Deleted plus Skipped plus Failed |
| Files.CountsAddUp | pkg/upload/cleanup.go:28-52 | skipped, deleted and failed add up to the files seen |
| Sessions.SpentHashIsGone | pkg/cache/redis.go:17-93 | a hash that was rotated away is never a session's current hash again |
| Sessions.HashAcceptedAtMostOnce | pkg/cache/redis.go:17-93 | each hash is accepted by a rotation at most once in a run, whatever session it is presented for |
| Sessions.HashBelongsToOneSession | pkg/cache/redis.go:17-93 | two sessions never hold the same hash, at whatever two moments of a run |
| Sessions.GoneForGood | pkg/cache/redis.go:17-56 | a session that disappeared never returns |
| Sessions.ReuseEndsTheSession | pkg/cache/redis.go:17-93 | presenting a spent hash to any script is not answered by a rotation and leaves the session gone for good |
| Sessions.IdentityIsFixed | pkg/cache/redis.go:111-133 | user, email and expiry stay those of the login |
| Sessions.WrongUserLeavesNoTrace | pkg/cache/redis.go:64-78 | the answer -2 is given exactly for a current session, the right hash and the wrong user, and such a request can be taken out of a run without changing any later state |
| Sessions.Redis.Create | pkg/cache/redis.go:111-133 | the session is stored, every other one kept |
| Sessions.Redis.Rotate | pkg/cache/redis.go:17-43 | rotated exactly when the session is current and the hash matches, and then only its hash changes; otherwise it is gone; every other session is kept |
| Sessions.Redis.RotateProfile | pkg/cache/redis.go:58-93 | rotated exactly for a current session, the right hash and its user, and then only hash and profile change; a wrong user changes nothing; otherwise the session is gone; every other one is kept |
| Sessions.Redis.Revoke | pkg/cache/redis.go:45-56 | the session is gone in any case, every other one kept; the answer tells whether it was there and the hash matched |
| Limiter.StepRepresents | pkg/cache/auth_rate_limiter.go:14-31 | after each call the pruned set with its expiry still represents the full log |
| Limiter.LimiterRefinesLog | pkg/cache/auth_rate_limiter.go:14-31 | over any run with ordered times and fresh members the script decides as a full log would |
| Limiter.AtMostLimitPerWindow | pkg/cache/auth_rate_limiter.go:14-31 | no interval of one window's length holds more than the limit of admissions |
| Limiter.RetryAfterIsExact | pkg/cache/auth_rate_limiter.go:20-27 | after a denial with r, the call at now + r is admitted and none before it |
| Limiter.RetryAfterIsExactInEveryRun | pkg/cache/auth_rate_limiter.go:20-27 | the same after any run |
| Limiter.RateLimiter.Allow | pkg/cache/auth_rate_limiter.go:14-31 | the script's commands compute the step |
| ChatGuard.StreamsDoNotOverlapIff | internal/logic/aichat/service.go:90-113 | no two uncancelled streams of a user overlap, if and only if the lock outlasts start delay plus timeout and ids are not used again before release, or one admission at most fits in that time; with arbitrary ids only the latter |
| ChatGuard.RunningStreamKeepsItsLock | pkg/cache/ai_chat_guard.go:41-46 | if ids are not used again before release, no step of another stream or request, however late, frees or takes the lock of a running stream |
| ChatGuard.SharedIdOverlap | pkg/cache/ai_chat_guard.go:41-46 | a run with one id used twice in which a late release takes the younger stream's lock and a third stream overlaps it |
| ChatGuard.ExpiredLockOverlap | internal/logic/aichat/service.go:90-113 | a run in which a stream outlives its lock and a second one overlaps it |
| ChatGuard.GuardCountsOwners | pkg/cache/ai_chat_guard.go:22-38 | for arbitrary ids, an acquire is admitted exactly when the lock is free and fewer than limit distinct ids were admitted in the last window, and no window ever shows more |
| ChatGuard.CountsEveryAdmissionIff | pkg/cache/ai_chat_guard.go:25-36 | these are all admissions of the window exactly when no id was admitted twice in it, and then the limit bounds the admissions |
| ChatGuard.AdmissionsBoundedIff | pkg/cache/ai_chat_guard.go:25-36 | for arbitrary ids the admissions of every window stay within the limit exactly when the limit is one |
| ChatGuard.RepeatedOwner | pkg/cache/ai_chat_guard.go:35 | with a larger limit one id is admitted any number of times in one window |
| ChatGuard.GuardRetryAfterIsExact | pkg/cache/ai_chat_guard.go:27-34 | for arbitrary ids a rate denial's retry-after is exact: the acquire at that time is admitted, and none before it |
| ChatGuard.RedisGuard.Acquire | pkg/cache/ai_chat_guard.go:13-39 | the script's commands compute the step |
| ChatGuard.RedisGuard.Release | pkg/cache/ai_chat_guard.go:41-46 | from then on the owner holds no lock, every other owner holds it as before, and the rate is untouched |
| ChatStream.ClientSeesAConversation | internal/logic/aichat/service.go:109-166 | events are nothing or meta (delta, ping)* (done, error)?, and the deltas sent are an in-order prefix of those produced |
| ChatStream.CleanupInOrder | internal/logic/aichat/service.go:110-114 | cancel precedes release, which precedes close, each once, and nothing is sent after the first |
| ChatStream.DoneDeliversEverythingIff | internal/logic/aichat/service.go:134-146 | when the select takes the result: every run from there that ends with done delivered everything exactly when the deltas channel was empty, and otherwise lost exactly what it held |
| ChatStream.DoneWasTaken | internal/logic/aichat/service.go:134-146 | every done comes from such a select, and carries the reason the upstream ended with |
| ChatStream.DoneMayLoseADelta | internal/logic/aichat/service.go:134-146 | a run in which a stream ends with done and a delta is lost |
| ChatStream.LossIsBounded | internal/logic/aichat/service.go:119-139 | an ended stream loses at most one delta in flight and one full channel |
| ChatStream.ErrorsAreTold | internal/logic/aichat/service.go:140-155 | once the select has taken an upstream error or the end of its context, nothing but an error event can follow, and the stream does not end without it while the request lives |
| ChatStream.EndsSilentlyOnlyAfterContext | internal/logic/aichat/service.go:109-157 | a stream that ends with neither done nor error does so after its request or its time has ended |
| ChatStream.DeltasWereOffered | internal/logic/aichat/service.go:119-139 | the deltas that the client sees are a prefix of those the upstream offered, in order |
| ChatStream.SticksIff | internal/logic/aichat/service.go:129-156 | once its context is done, a stream can come to wait for its reader forever exactly when the request lives and it has a select before it, or waits already |
| ChatStream.MovesOnIff | internal/logic/aichat/service.go:129-166 | once its context is done, a stream can move without tick, delta or result exactly when it has not returned and does not wait so |
| ChatStream.ReturnsOrSticks | internal/logic/aichat/service.go:129-166 | once its context is done, a stream makes at most 2 * 16 + 5 more moves without its reader, and where it cannot move it has returned or waits so; if the request has ended, it has returned |
| ChatStream.ReturnsSoon | internal/logic/aichat/service.go:129-166 | a stream that cannot come to wait so returns with its fourth move at the latest, while the request lives |
| ChatStream.StaysStuck | internal/logic/aichat/service.go:151-153 | from that wait no step but the reader's or the request's ever frees it |
| EventStream.Dispatch | pkg/ai/responses_stream.go:36-72 | one block's effect: what the callback receives and how reading ends, by the signal of the block, whose meaning EventMeaning states in terms of the event |
| EventStream.ConsumeResponsesStream | pkg/ai/responses_stream.go:30-122 | the one-pass loop computes the declarative reading of the whole list of lines: blocks, signals, the first stop, the size limit, cancellation and the kind of ending |
| EventMeaning.CompletedIff | pkg/ai/responses_stream.go:30-122 | reading succeeds exactly when a block whose event is `response.completed` or `response.done` comes before any that is undecodable, a failure, a refusal, or a delta the callback rejects |
| EventMeaning.FirstEndDecides | pkg/ai/responses_stream.go:44-72 | the first such block decides: the four failure kinds give the reported message, the two refusal kinds the refusal, undecodable data and a rejected delta their errors; the callback has received exactly the non-empty texts of the two delta kinds up to there |
| EventMeaning.NoEndFails | pkg/ai/responses_stream.go:74-122 | without one the callback receives every text, and the error is the context's, the size limit's, the reader's or an early end, each exactly when that is what cut the stream short |
| EventMeaning.DispatchedSplit | pkg/ai/responses_stream.go:74-115 | the blocks are the lines before the cut, split at the blank ones; the last lines form a block only at a clean end |
| EventMeaning.CutIsHandled | pkg/ai/responses_stream.go:74-86 | the loop handles exactly the lines before the first at which the context is done or the text so far, with its line ends, exceeds two mebibytes |
| EventMeaning.DataLine | pkg/ai/responses_stream.go:98-107 | a line carries data exactly when it starts with `data:`; one space after that is not part of the value |
| EventStream.FailureMessageSaysSomething | pkg/ai/responses_stream.go:124-146 | a failure message is never blank: it is the first of the four offered texts that is not, trimmed, or the default when all are |
| EventFraming.SucceedsIff | pkg/ai/responses_stream.go:30-122 | reading succeeds exactly when a completion comes before anything else that ends it; the callback received exactly the deltas before it |
| EventFraming.SplitIsUnique | pkg/ai/responses_stream.go:87-97 | splitting at blank lines loses nothing and is the only such split |
| EventFraming.JoinPieces | pkg/ai/responses_stream.go:40 | joining the newline-separated pieces of a payload gives it back |
| EventFraming.FrameRoundTrip | pkg/ai/responses_stream.go:102-107 | reading a payload framed as data lines gives it back |
| EventFraming.FramesRoundTrip | pkg/ai/responses_stream.go:76-107 | a stream of framed payloads splits into exactly these payloads |
| EventFraming.ScanRoundTripIff | pkg/ai/responses_stream.go:31-32 | writing lines and scanning them again gives them back exactly when none holds a newline or ends with a carriage return |
| EventFraming.FramedTextReads | pkg/ai/responses_stream.go:30-122 | the text of framed payloads is read as one signal per payload: nothing lost, merged or added |
| EventFraming.AgreesWithStandardIff | pkg/ai/responses_stream.go:102-122 | for all lines: the payloads are those of the standard exactly when the bare data lines and the pending data cancel, block by block; with either of them absent, exactly when the other is too |
| EventFraming.DifferencesMayCancel | pkg/ai/responses_stream.go:102-122 | an input with both, on which the payloads agree |

## Left out

- HTTP handlers, middleware, cookies, configuration loading, dashboard queries, listings and pagination: plumbing.
- Gorm, Postgres and Redis internals: transactions on locked rows take effect one after the other, scripts are atomic,
  unique and CHECK constraints are enforced, an error rolls back. An error returned although the commit happened is not
  modelled.
- The queue wrapper over Redis Streams: a handler may receive any job at any time, which covers lost, repeated and
  reordered messages; acknowledgement is only an answer.
- Worker.ProcessJob as an entry point has no lease timeout and takes no part in the lease claims.
- JSON, base64, HMAC, bcrypt and random identifiers: decoding is a parameter; row ids, session ids, token hashes, limiter
  members and file keys are fresh. Chat request ids are not: see above.
- Poppler and the extractor's own limits, the AI HTTP client, logging, tickers, backoff, heartbeats, shutdown, process slots.
- Limiter.LimiterRefinesLog: assumes that calls reach the script in the order of their times. The source reads the clock
  before it runs the script, so two calls may change places; the same holds of the chat guard's clock.
- Timestamps are integers of one clock; Postgres rounding, clock skew between hosts and rate windows below one
  millisecond are not modelled. int32 columns are: a write that would overflow fails as a rejected CHECK.
- Strings are sequences of code points; invalid UTF-8 is not modelled. Byte lengths are those of their UTF-8 encoding.
- Identifiers are naturals; 0 stands for every non-positive identifier of a request.
- Statuses are datatypes, so the refusals of unknown status strings in UpdateStatus have no counterpart.
- Retry reads the job's document before its transaction and locks it inside; the two reads are one step here, as the
  document of a job never changes.
- Project Create's fallback after a duplicate-key error is reached only when transactions are not serialised.
- Files: listing is a walk that may see any file at any moment, which covers every order of the two directories; a
  temporary file is written in one step, at its last write.
- ChatStream: an event carries no request id or model, and an error no detail; Chat.Stream ends with an error once its
  callback was refused.
- EventStream: lines longer than the scanner's buffer are part of a failing scan; the error values of the context, the
  callback and the reader are kept apart only as kinds.
- EventFraming compares payloads line by line: the standard's byte order mark, its lone carriage returns as line ends, its
  event names, ids and retry times are not modelled.
- JobStore and ParseJobs: a publication counts when it is attempted; a failed one is only logged by the source, and the
  queue may lose any message anyway.
