/** How often a job is taken back, retried and moved, counted on the rows alone. */
module JobRetries {
  import opened Base
  import opened ParseJobs
  import opened JobSafety
  import opened JobLease

  function StatusOf(s: State, j: nat): Option<Status> {
    if j in s.db.jobs then Some(s.db.jobs[j].status) else None
  }

  /** A stale job is put back. */
  predicate IsReset(s: State, s': State, j: nat) {
    StatusOf(s, j) == Some(Processing) && StatusOf(s', j) == Some(Pending)
  }

  /** A failed job is put back, which only a user's Retry does. */
  predicate IsRetried(s: State, s': State, j: nat) {
    StatusOf(s, j) == Some(Failed) && StatusOf(s', j) == Some(Pending)
  }

  function Resets(c: Config, s: State, actions: seq<Action>, j: nat): nat
    decreases |actions|
  {
    if actions == [] then 0
    else
      var s' := Apply(c, s, actions[0]);
      (if IsReset(s, s', j) then 1 else 0) + Resets(c, s', actions[1..], j)
  }

  function Retries(c: Config, s: State, actions: seq<Action>, j: nat): nat
    decreases |actions|
  {
    if actions == [] then 0
    else
      var s' := Apply(c, s, actions[0]);
      (if IsRetried(s, s', j) then 1 else 0) + Retries(c, s', actions[1..], j)
  }

  function StatusChanges(c: Config, s: State, actions: seq<Action>, j: nat): nat
    decreases |actions|
  {
    if actions == [] then 0
    else
      var s' := Apply(c, s, actions[0]);
      (if StatusOf(s, j) != StatusOf(s', j) then 1 else 0) + StatusChanges(c, s', actions[1..], j)
  }

  function CountOf(s: State, j: nat): int {
    if j in s.db.jobs then s.db.jobs[j].retryCount else 0
  }

  /** An upper bound on the status changes still ahead of a job that nobody retries. */
  function Budget(c: Config, s: State, j: nat): int {
    match StatusOf(s, j)
    case Some(Pending) => 2 * Max(0, c.maxRecoveries - CountOf(s, j)) + 2
    case Some(Processing) => 2 * Max(0, c.maxRecoveries - CountOf(s, j)) + 1
    case _ => 0
  }

  /** The law of one step on job j, however stale the count is that a sweep remembers. */
  predicate Move(c: Config, s: State, s': State, j: nat) {
    && (IsReset(s, s', j) ==> CountOf(s, j) < c.maxRecoveries)
    && CountOf(s', j) == CountOf(s, j) + (if IsReset(s, s', j) || IsRetried(s, s', j) then 1 else 0)
    && (j in s.db.jobs ==>
          match (s.db.jobs[j].status, StatusOf(s', j))
          case (Pending, Some(to)) => to == Pending || to == Processing
          case (Processing, Some(to)) => true
          case (Success, Some(to)) => to == Success
          case (Failed, Some(to)) => to == Failed || to == Pending
          case (_, None) => false)
  }

  lemma Unmoved(c: Config, s: State, s': State, j: nat)
    requires j in s.db.jobs ==>
        j in s'.db.jobs && s'.db.jobs[j].status == s.db.jobs[j].status && s'.db.jobs[j].retryCount == s.db.jobs[j].retryCount
    requires j !in s.db.jobs && j in s'.db.jobs ==> s'.db.jobs[j].retryCount == 0
    ensures Move(c, s, s', j)
  {
  }

  lemma HandlerStepMoves(c: Config, s: State, a: Action, j: nat)
    requires IsHandlerStep(a)
    ensures Move(c, s, HandlerStep(s, a), j)
  {
    if InPhase(s, a) {
      EffectMoves(c, s, a, j);
      var moved := s.(db := Effect(s.db, s.handlers[a.h], a).0);
      hide Move, Effect;
      OnlyRowsMove(c, s, moved, HandlerStep(s, a), j);
    } else {
      OnlyRowsMove(c, s, s, s, j);
    }
  }

  lemma OnlyRowsMove(c: Config, s: State, s': State, s'': State, j: nat)
    requires s''.db == s'.db
    ensures Move(c, s, s', j) ==> Move(c, s, s'', j)
    ensures s'.db == s.db ==> Move(c, s, s'', j)
  {}

  lemma EffectMoves(c: Config, s: State, a: Action, j: nat)
    requires IsHandlerStep(a) && InPhase(s, a)
    ensures Move(c, s, s.(db := Effect(s.db, s.handlers[a.h], a).0), j)
  {
    hide LoadingOutcome, ReadingOutcome;
  }

  /** The step where the clock rule matters: the count a sweep writes back is the one it read. */
  lemma WorkerStepMoves(c: Config, s: State, a: Action, j: nat)
    requires Leased(c, s) && Legal(s, a) && IsWorkerStep(a)
    ensures Move(c, s, WorkerStep(c, s, a), j)
  {
    hide HandlersOk, SweepsOk, Oldest.Select, StepRecover;
    if a.Recover? && a.w in s.sweeps && s.sweeps[a.w].todo != [] {
      RecoverMoves(c, s, a.w, a.stamp, j);
    }
  }

  lemma RecoverMoves(c: Config, s: State, w: nat, stamp: int, j: nat)
    requires Leased(c, s) && w in s.sweeps && s.sweeps[w].todo != []
    ensures Move(c, s, StepRecover(c, s, w, stamp), j)
  {
    hide HandlersOk, SweepsOk;
    SweepFound(c, s, w);
  }

  lemma ApiStepMoves(c: Config, s: State, a: Action, j: nat)
    requires RowsOk(s.db) && !IsHandlerStep(a) && !IsWorkerStep(a)
    ensures Move(c, s, Apply(c, s, a), j)
  {
    hide RowsOk, Move, CreateJob, Retry, Visible, Text.Trim, EffectiveCharacters, HandlerStep, WorkerStep;
    var s' := Apply(c, s, a);
    if a.PostJob? {
      CreateJobMoves(c, s, a.user, a.doc, a.stamp, j);
      OnlyRowsMove(c, s, s.(db := s'.db), s', j);
    } else if a.PostRetry? {
      RetryMoves(c, s, a.user, a.job, a.stamp, j);
      OnlyRowsMove(c, s, s.(db := s'.db), s', j);
    } else {
      Unmoved(c, s, s', j);
    }
  }

  lemma CreateJobMoves(c: Config, s: State, user: int, doc: nat, stamp: int, j: nat)
    requires RowsOk(s.db)
    ensures Move(c, s, s.(db := CreateJob(s.db, user, doc, stamp).0), j)
  {
    hide JobsReferToDocuments, OneActiveJob, ResultsMatchJobs, SuccessHasResult, DocumentsHaveText, Visible, HasActiveJob;
  }

  lemma RetryMoves(c: Config, s: State, user: int, k: nat, stamp: int, j: nat)
    ensures Move(c, s, s.(db := Retry(s.db, user, k, stamp).0), j)
  {
    hide Visible, HasActiveJob;
  }

  lemma StepMoves(c: Config, s: State, a: Action, j: nat)
    requires ValidConfig(c) && Safe(s) && Leased(c, s) && Legal(s, a)
    ensures Move(c, s, Apply(c, s, a), j)
  {
    hide RowsOk, Leased, Legal, HandlerStep, WorkerStep;
    if IsHandlerStep(a) {
      HandlerStepMoves(c, s, a, j);
    } else if IsWorkerStep(a) {
      WorkerStepMoves(c, s, a, j);
    } else {
      ApiStepMoves(c, s, a, j);
    }
  }

  lemma {:induction false} RunCounts(c: Config, s: State, actions: seq<Action>, j: nat)
    requires ValidConfig(c) && Safe(s) && Leased(c, s) && Timed(c, s, actions)
    ensures CountOf(Exec(c, s, actions), j) == CountOf(s, j) + Resets(c, s, actions, j) + Retries(c, s, actions, j)
    ensures Resets(c, s, actions, j) <= Max(0, c.maxRecoveries - CountOf(s, j))
    decreases |actions|
  {
    hide Safe, Leased, Legal, Apply;
    if actions != [] {
      StepMoves(c, s, actions[0], j);
      StepSafe(c, s, actions[0]);
      StepLeased(c, s, actions[0]);
      RunCounts(c, Apply(c, s, actions[0]), actions[1..], j);
    }
  }

  lemma {:induction false} RunChanges(c: Config, s: State, actions: seq<Action>, j: nat)
    requires ValidConfig(c) && Safe(s) && Leased(c, s) && Timed(c, s, actions)
    requires j in s.db.jobs && Retries(c, s, actions, j) == 0
    ensures StatusChanges(c, s, actions, j) + Budget(c, Exec(c, s, actions), j) <= Budget(c, s, j)
    decreases |actions|
  {
    hide Safe, Leased, Legal, Apply;
    if actions != [] {
      StepMoves(c, s, actions[0], j);
      StepSafe(c, s, actions[0]);
      StepLeased(c, s, actions[0]);
      RunChanges(c, Apply(c, s, actions[0]), actions[1..], j);
    }
  }

  // ---------- main results ----------

  /** Retry accounting: retry_count is exactly the resets plus the user's retries, although a sweep writes back
      the count it read earlier; and over its whole life a job is reset at most maxRecoveries times. */
  lemma RetryCountAddsUp(c: Config, clock: int, actions: seq<Action>, j: nat)
    requires ValidConfig(c) && Timed(c, Init(clock), actions)
    ensures var s := Exec(c, Init(clock), actions);
            j in s.db.jobs ==>
                s.db.jobs[j].retryCount == Resets(c, Init(clock), actions, j) + Retries(c, Init(clock), actions, j)
    ensures Resets(c, Init(clock), actions, j) <= c.maxRecoveries
  {
    RunCounts(c, Init(clock), actions, j);
  }

  /** A pending job with count r that nobody retries changes its status at most 2 * max(0, M - r) + 2 times. */
  lemma PendingJobSettles(c: Config, s: State, actions: seq<Action>, j: nat)
    requires ValidConfig(c) && Reachable(c, s) && Timed(c, s, actions)
    requires j in s.db.jobs && s.db.jobs[j].status == Pending && Retries(c, s, actions, j) == 0
    ensures StatusChanges(c, s, actions, j) <= 2 * Max(0, c.maxRecoveries - s.db.jobs[j].retryCount) + 2
  {
    hide Safe, Leased, Legal, Apply, Reachable;
    ReachableLeased(c, s);
    RunChanges(c, s, actions, j);
  }
}
