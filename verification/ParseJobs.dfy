/** The parse-job protocol: the rows it shares, each guarded SQL statement or transaction as a function
    on the rows, and the interleaving of API calls, job handlers, stale-lease sweeps and reconcile rounds. */
module ParseJobs {
  import opened Base
  import opened Oldest
  import Text

  // ---------- rows ----------

  datatype Status = Pending | Processing | Success | Failed

  datatype Document = Document(
    user: int, ready: bool, textInput: Option<string>, rawText: Option<string>, deleted: bool)

  datatype Job = Job(
    user: int, doc: nat, status: Status, retryCount: int, error: Option<string>,
    startedAt: Option<int>, finishedAt: Option<int>, updatedAt: int)

  datatype ResultRow = ResultRow(user: int, doc: nat, job: nat, parsed: string)

  /** The tables. Identifiers come from counters and are never used twice. */
  datatype Db = Db(
    docs: map<nat, Document>, jobs: map<nat, Job>, results: map<nat, ResultRow>,
    nextDoc: nat, nextJob: nat, nextResult: nat)

  const MAX_TEXT_CHARS := 50000
  const BATCH := 100

  predicate Active(status: Status) {
    status == Pending || status == Processing
  }

  /** The predicate of the partial unique index uq_parse_jobs_active_document. */
  predicate HasActiveJob(db: Db, doc: nat) {
    exists j | j in db.jobs :: db.jobs[j].doc == doc && Active(db.jobs[j].status)
  }

  /** A row that the default (not soft-deleted) scope of a query on (id, user_id) finds. */
  predicate Visible(db: Db, user: int, doc: nat) {
    doc in db.docs && db.docs[doc].user == user && !db.docs[doc].deleted
  }

  function SetJob(db: Db, j: nat, job: Job): Db {
    db.(jobs := db.jobs[j := job])
  }

  // ---------- documents ----------

  function InsertDocument(db: Db, document: Document): Db {
    db.(docs := db.docs[db.nextDoc := document], nextDoc := db.nextDoc + 1)
  }

  function CreateText(db: Db, user: int, title: string, text: string): (Db, Result<nat>) {
    var content := Text.Trim(text);
    if Text.Trim(title) == "" || content == "" || |content| > MAX_TEXT_CHARS then
      (db, Err(InvalidInput))
    else
      (InsertDocument(db, Document(user, true, Some(content), Some(content), false)), Ok(db.nextDoc))
  }

  function EffectiveCharacters(text: string): nat {
    if text == "" then 0
    else (if Text.IsSpace(text[0]) || Text.IsControl(text[0]) then 0 else 1) + EffectiveCharacters(text[1..])
  }

  /** The row that CreatePDF inserts once the extractor has accepted the text;
      the file side of the upload is in module Files. */
  function CreatePDF(db: Db, user: int, extracted: string, minEffectiveChars: nat): (Db, Result<nat>) {
    var content := Text.Trim(extracted);
    if EffectiveCharacters(content) < minEffectiveChars then
      (db, Err(InvalidInput))
    else
      (InsertDocument(db, Document(user, true, None, Some(content), false)), Ok(db.nextDoc))
  }

  function DeleteDocument(db: Db, user: int, doc: nat): (Db, Result<()>) {
    if !Visible(db, user, doc) then
      (db, Err(NotFound))
    else if exists j | j in db.jobs :: db.jobs[j].doc == doc && db.jobs[j].user == user && Active(db.jobs[j].status) then
      (db, Err(Conflict))
    else
      (db.(docs := db.docs[doc := db.docs[doc].(deleted := true)]), Ok(()))
  }

  // ---------- API side of a job ----------

  function CreateJob(db: Db, user: int, doc: nat, now: int): (Db, Result<nat>) {
    if !Visible(db, user, doc) then
      (db, Err(NotFound))
    else if !db.docs[doc].ready then
      (db, Err(InvalidState))
    else if HasActiveJob(db, doc) then
      (db, Err(Conflict))
    else
      (SetJob(db, db.nextJob, Job(user, doc, Pending, 0, None, None, None, now)).(nextJob := db.nextJob + 1),
       Ok(db.nextJob))
  }

  function Retry(db: Db, user: int, j: nat, now: int): (Db, Result<nat>) {
    if j !in db.jobs || db.jobs[j].user != user then
      (db, Err(NotFound))
    else
      var job := db.jobs[j];
      if !Visible(db, user, job.doc) then
        (db, Err(InvalidState))
      else if job.status != Failed then
        (db, Err(InvalidState))
      else if HasActiveJob(db, job.doc) then
        (db, Err(Conflict))
      else if job.retryCount == MAX_INT32 then
        (db, Err(Internal))
      else
        (SetJob(db, j, job.(status := Pending, retryCount := job.retryCount + 1, error := None,
                            startedAt := None, finishedAt := None, updatedAt := now)),
         Ok(j))
  }

  // ---------- worker side: each returns the new rows and the number of rows it affected ----------

  function ClaimUpdate(db: Db, j: nat, stamp: int): (Db, nat) {
    if j in db.jobs && db.jobs[j].status == Pending then
      (SetJob(db, j, db.jobs[j].(status := Processing, startedAt := Some(stamp), finishedAt := None,
                                 error := None, updatedAt := stamp)), 1)
    else
      (db, 0)
  }

  /** completeJob: insert the result, then close the job; either failing rolls both back. */
  function CompleteJob(db: Db, j: nat, user: int, doc: nat, parsed: string, now: int): (Db, bool) {
    if exists r | r in db.results :: db.results[r].job == j then
      (db, false)
    else if j in db.jobs && db.jobs[j].status == Processing then
      var closed := db.jobs[j].(status := Success, error := None, finishedAt := Some(now), updatedAt := now);
      (SetJob(db, j, closed).(results := db.results[db.nextResult := ResultRow(user, doc, j, parsed)],
                              nextResult := db.nextResult + 1), true)
    else
      (db, false)
  }

  function FailJob(db: Db, j: nat, message: string, now: int): (Db, nat) {
    if j in db.jobs && db.jobs[j].status == Processing then
      (SetJob(db, j, db.jobs[j].(status := Failed, error := Some(message), finishedAt := Some(now),
                                 updatedAt := now)), 1)
    else
      (db, 0)
  }

  predicate IsStale(job: Job, cutoff: int) {
    job.status == Processing && job.startedAt.Some? && job.startedAt.value < cutoff
  }

  /** What recoverStaleJobs makes of a stale job, with the retry count as its list query saw it. */
  function Recovered(job: Job, seen: int, maxRecoveries: int, now: int): Job {
    if seen >= maxRecoveries then
      job.(status := Failed, error := Some("parse worker recovery limit exceeded"), finishedAt := Some(now),
          updatedAt := now)
    else
      job.(status := Pending, retryCount := seen + 1, error := None, startedAt := None, finishedAt := None,
          updatedAt := now)
  }

  function RecoverJob(db: Db, j: nat, seen: int, cutoff: int, maxRecoveries: int, now: int): (Db, nat) {
    if j in db.jobs && IsStale(db.jobs[j], cutoff) then
      (SetJob(db, j, Recovered(db.jobs[j], seen, maxRecoveries, now)), 1)
    else
      (db, 0)
  }

  /** The touch at the end of one iteration of reconcilePendingJobs. */
  function TouchPending(db: Db, j: nat, cutoff: int, now: int): Db {
    if j in db.jobs && db.jobs[j].status == Pending && db.jobs[j].updatedAt < cutoff then
      SetJob(db, j, db.jobs[j].(updatedAt := now))
    else
      db
  }

  function StaleJobs(db: Db, cutoff: int): Stamps {
    map j | j in db.jobs && IsStale(db.jobs[j], cutoff) :: db.jobs[j].startedAt.value
  }

  function StalePending(db: Db, cutoff: int): Stamps {
    map j | j in db.jobs && db.jobs[j].status == Pending && db.jobs[j].updatedAt < cutoff :: db.jobs[j].updatedAt
  }

  datatype Candidate = Candidate(job: nat, seen: int)

  /** The list query of recoverStaleJobs. */
  function ListStale(db: Db, cutoff: int): (todo: seq<Candidate>)
    ensures |todo| <= BATCH
  {
    var ids := Select(StaleJobs(db, cutoff), BATCH);
    seq(|ids|, i requires 0 <= i < |ids| =>
      assert ids[i] in ids;
      Candidate(ids[i], db.jobs[ids[i]].retryCount))
  }

  /** The list query of reconcilePendingJobs. */
  function ListPending(db: Db, cutoff: int): seq<nat> {
    Select(StalePending(db, cutoff), BATCH)
  }

  // ---------- concurrent activity ----------

  /** Where one run of handleMessage/processJob stands. The job is the snapshot that claimJob loaded. */
  datatype Phase =
    | Received                                   // context created
    | Stamped(stamp: int)                        // claimJob has read the clock
    | Updated(won: bool)                         // the claiming update has run
    | Claimed(job: Job)
    | Parsing(job: Job, content: string)
    | Parsed(job: Job, parsed: string)           // completeJob is next
    | Closing(job: Job, message: string)         // failJob is next
    | Ended(ack: bool)

  datatype Handler = Handler(jobId: nat, deadline: int, phase: Phase)

  datatype Sweep = Sweep(cutoff: int, todo: seq<Candidate>)

  /** A reconcile round; `sent` says that listed[done] has been published but not yet touched. */
  datatype Round = Round(cutoff: int, listed: seq<nat>, done: nat, sent: bool)

  /** `owners` is history that no step reads: the handler whose claim of a job was the last to succeed
      and has neither been closed nor taken away. */
  datatype State = State(
    db: Db, handlers: map<nat, Handler>, sweeps: map<nat, Sweep>, rounds: map<nat, Round>,
    owners: map<nat, nat>, clock: int)

  datatype Config = Config(lease: int, pendingGrace: int, maxRecoveries: int, minEffectiveChars: nat)

  /** What config.go guarantees: durations and the character minimum are positive, the recovery limit is an int32. */
  predicate ValidConfig(c: Config) {
    c.lease > 0 && c.pendingGrace > 0 && 0 <= c.maxRecoveries <= MAX_INT32 && c.minEffectiveChars >= 1
  }

  datatype ParseOutcome = Answer(parsed: string) | Refused(message: string)

  /** One atomic step; `now` is the clock when it happens, `stamp` what its process read from the clock before it, which
      is what the step writes or compares with. `Receive` may name any job at any time,
      so messages may be lost, repeated or reordered. `Crash` is any error, cancellation or lost process. */
  datatype Action =
    | PostText(user: int, title: string, text: string, now: int)
    | PostPDF(user: int, text: string, now: int)
    | Delete(user: int, doc: nat, now: int)
    | PostJob(user: int, doc: nat, stamp: int, now: int)
    | PostRetry(user: int, job: nat, stamp: int, now: int)
    | Receive(h: nat, message: int, now: int)
    | Stamp(h: nat, now: int)
    | Claim(h: nat, now: int)
    | Load(h: nat, now: int)
    | ReadDocument(h: nat, fails: bool, now: int)
    | Parse(h: nat, outcome: ParseOutcome, now: int)
    | Complete(h: nat, stamp: int, now: int)
    | Fail(h: nat, stamp: int, now: int)
    | Crash(h: nat, now: int)
    | BeginSweep(w: nat, stamp: int, now: int)
    | Recover(w: nat, stamp: int, now: int)
    | StopSweep(w: nat, now: int)
    | BeginRound(w: nat, stamp: int, now: int)
    | Publish(w: nat, now: int)
    | Touch(w: nat, stamp: int, now: int)
    | StopRound(w: nat, now: int)

  /** What the step's process has read from the clock. */
  function StampOf(a: Action): int {
    match a
    case PostJob(_, _, stamp, _) => stamp
    case PostRetry(_, _, stamp, _) => stamp
    case Complete(_, stamp, _) => stamp
    case Fail(_, stamp, _) => stamp
    case BeginSweep(_, stamp, _) => stamp
    case Recover(_, stamp, _) => stamp
    case BeginRound(_, stamp, _) => stamp
    case Touch(_, stamp, _) => stamp
    case _ => a.now
  }

  function SetPhase(s: State, h: nat, phase: Phase): State
    requires h in s.handlers
  {
    s.(handlers := s.handlers[h := s.handlers[h].(phase := phase)])
  }

  function StepReceive(c: Config, s: State, h: nat, message: int, now: int): State {
    if h in s.handlers then s
    else if message <= 0 then
      s.(handlers := s.handlers[h := Handler(0, now + c.lease, Ended(true))])
    else
      s.(handlers := s.handlers[h := Handler(message, now + c.lease, Received)])
  }

  /** processJob after the claim: read the document and choose its text. Any error of the query fails the job, like a
      document that is not found. */
  function ReadingOutcome(db: Db, job: Job, fails: bool): Phase {
    if fails || !Visible(db, job.user, job.doc) then
      Closing(job, "source document is unavailable")
    else
      var document := db.docs[job.doc];
      var content := if document.textInput.Some? then document.textInput else document.rawText;
      if content.None? || Text.Trim(content.value) == "" then
        Closing(job, "source document text is empty")
      else
        Parsing(job, content.value)
  }

  /** claimJob's reload, and processJob's answer when the claim was lost. */
  function LoadingOutcome(db: Db, j: nat, won: bool): Phase {
    if j !in db.jobs then Ended(false)
    else if won then Claimed(db.jobs[j])
    else Ended(db.jobs[j].status == Success || db.jobs[j].status == Failed)
  }

  function StepRecover(c: Config, s: State, w: nat, stamp: int): State
    requires w in s.sweeps && s.sweeps[w].todo != []
  {
    var Sweep(cutoff, todo) := s.sweeps[w];
    var Candidate(j, seen) := todo[0];
    var (db, rows) := RecoverJob(s.db, j, seen, cutoff, c.maxRecoveries, stamp);
    var s' := s.(db := db, sweeps := s.sweeps[w := Sweep(cutoff, todo[1..])]);
    if rows == 1 then s'.(owners := s.owners - {j}) else s'
  }

  predicate Idle(s: State, w: nat) {
    w in s.rounds ==> s.rounds[w].done >= |s.rounds[w].listed|
  }

  function StepTouch(s: State, w: nat, stamp: int): State
    requires w in s.rounds && s.rounds[w].sent && !Idle(s, w)
  {
    var round := s.rounds[w];
    s.(db := TouchPending(s.db, round.listed[round.done], round.cutoff, stamp),
       rounds := s.rounds[w := round.(done := round.done + 1, sent := false)])
  }

  predicate IsHandlerStep(a: Action) {
    a.Stamp? || a.Claim? || a.Load? || a.ReadDocument? || a.Parse? || a.Complete? || a.Fail?
  }

  predicate Expects(a: Action, phase: Phase)
    requires IsHandlerStep(a)
  {
    match a
    case Stamp(_, _) => phase.Received?
    case Claim(_, _) => phase.Stamped?
    case Load(_, _) => phase.Updated?
    case ReadDocument(_, _, _) => phase.Claimed?
    case Parse(_, _, _) => phase.Parsing?
    case Complete(_, _, _) => phase.Parsed?
    case Fail(_, _, _) => phase.Closing?
  }

  predicate InPhase(s: State, a: Action)
    requires IsHandlerStep(a)
  {
    a.h in s.handlers && Expects(a, s.handlers[a.h].phase)
  }

  /** What a handler's step does to the rows, and where the handler stands after it. */
  function Effect(db: Db, handler: Handler, a: Action): (Db, Phase)
    requires IsHandlerStep(a) && Expects(a, handler.phase)
  {
    var j := handler.jobId;
    match a
    case Stamp(_, now) => (db, Stamped(now))
    case Claim(_, _) =>
      var (db', rows) := ClaimUpdate(db, j, handler.phase.stamp);
      (db', Updated(rows == 1))
    case Load(_, _) => (db, LoadingOutcome(db, j, handler.phase.won))
    case ReadDocument(_, fails, _) => (db, ReadingOutcome(db, handler.phase.job, fails))
    case Parse(_, outcome, _) =>
      var job := handler.phase.job;
      (db, if outcome.Answer? then Parsed(job, outcome.parsed) else Closing(job, outcome.message))
    case Complete(_, stamp, _) =>
      var (db', ok) := CompleteJob(db, j, handler.phase.job.user, handler.phase.job.doc, handler.phase.parsed, stamp);
      (db', Ended(ok))
    case Fail(_, stamp, _) =>
      var (db', rows) := FailJob(db, j, handler.phase.message, stamp);
      (db', Ended(rows == 1))
  }

  function HandlerStep(s: State, a: Action): State
    requires IsHandlerStep(a)
  {
    if !InPhase(s, a) then s
    else
      var handler := s.handlers[a.h];
      var (db, phase) := Effect(s.db, handler, a);
      var s' := SetPhase(s.(db := db), a.h, phase);
      if phase == Updated(true) then
        s'.(owners := s.owners[handler.jobId := a.h])
      else if (a.Complete? || a.Fail?) && phase == Ended(true) then
        s'.(owners := s.owners - {handler.jobId})
      else
        s'
  }

  predicate IsWorkerStep(a: Action) {
    a.BeginSweep? || a.Recover? || a.StopSweep? || a.BeginRound? || a.Publish? || a.Touch? || a.StopRound?
  }

  function WorkerStep(c: Config, s: State, a: Action): State
    requires IsWorkerStep(a)
  {
    match a
    case BeginSweep(w, stamp, _) =>
      var cutoff := stamp - c.lease;
      s.(sweeps := s.sweeps[w := Sweep(cutoff, ListStale(s.db, cutoff))])
    case Recover(w, stamp, _) =>
      if w in s.sweeps && s.sweeps[w].todo != [] then StepRecover(c, s, w, stamp) else s
    case StopSweep(w, _) =>
      s.(sweeps := s.sweeps - {w})
    case BeginRound(w, stamp, _) =>
      var cutoff := stamp - c.pendingGrace;
      if Idle(s, w) then s.(rounds := s.rounds[w := Round(cutoff, ListPending(s.db, cutoff), 0, false)]) else s
    case Publish(w, _) =>
      if w in s.rounds && !Idle(s, w) && !s.rounds[w].sent then
        s.(rounds := s.rounds[w := s.rounds[w].(sent := true)])
      else s
    case Touch(w, stamp, _) =>
      if w in s.rounds && !Idle(s, w) && s.rounds[w].sent then StepTouch(s, w, stamp) else s
    case StopRound(w, _) =>
      s.(rounds := s.rounds - {w})
  }

  /** An action that is not enabled changes nothing but the clock. */
  function Apply(c: Config, s: State, a: Action): State {
    var s' :=
      if IsHandlerStep(a) then HandlerStep(s, a)
      else if IsWorkerStep(a) then WorkerStep(c, s, a)
      else match a
        case PostText(user, title, text, _) => s.(db := CreateText(s.db, user, title, text).0)
        case PostPDF(user, text, _) => s.(db := CreatePDF(s.db, user, text, c.minEffectiveChars).0)
        case Delete(user, doc, _) => s.(db := DeleteDocument(s.db, user, doc).0)
        case PostJob(user, doc, stamp, _) => s.(db := CreateJob(s.db, user, doc, stamp).0)
        case PostRetry(user, j, stamp, _) => s.(db := Retry(s.db, user, j, stamp).0)
        case Receive(h, message, now) => StepReceive(c, s, h, message, now)
        case Crash(h, _) => if h in s.handlers then SetPhase(s, h, Ended(false)) else s;
    s'.(clock := a.now)
  }

  function Exec(c: Config, s: State, actions: seq<Action>): State
    decreases |actions|
  {
    if actions == [] then s else Exec(c, Apply(c, s, actions[0]), actions[1..])
  }

  const EMPTY_DB := Db(map[], map[], map[], 1, 1, 1)

  function Init(clock: int): State {
    State(EMPTY_DB, map[], map[], map[], map[], clock)
  }
}
