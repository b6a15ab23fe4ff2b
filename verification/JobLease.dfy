/** Leases of the job protocol under its clock rule: one clock that never runs backwards and that every process reads
    before it uses the time, and no database access by a handler after the deadline of its job context. */
module JobLease {
  import opened Base
  import opened Oldest
  import opened ParseJobs
  import opened JobSafety
  import Text

  // ---------- the clock rule ----------

  predicate UsesDatabase(a: Action) {
    a.Claim? || a.Load? || a.ReadDocument? || a.Complete? || a.Fail?
  }

  predicate Legal(s: State, a: Action) {
    && s.clock <= a.now && StampOf(a) <= a.now
    && (UsesDatabase(a) && a.h in s.handlers ==> a.now <= s.handlers[a.h].deadline)
  }

  predicate Timed(c: Config, s: State, actions: seq<Action>)
    decreases |actions|
  {
    actions == [] || (Legal(s, actions[0]) && Timed(c, Apply(c, s, actions[0]), actions[1..]))
  }

  // ---------- the invariant ----------

  /** The handler's claim succeeded and it has not closed the job yet. */
  predicate Owns(phase: Phase) {
    phase == Updated(true) || phase.Claimed? || phase.Parsing? || phase.Parsed? || phase.Closing?
  }

  predicate Live(handler: Handler, clock: int) {
    Owns(handler.phase) && clock <= handler.deadline
  }

  predicate HandlerOk(c: Config, jobs: map<nat, Job>, owners: map<nat, nat>, clock: int, h: nat, handler: Handler) {
    && (handler.phase.Received? ==> handler.deadline <= clock + c.lease)
    && (handler.phase.Stamped? ==> handler.phase.stamp <= clock && handler.deadline <= handler.phase.stamp + c.lease)
    && (Live(handler, clock) ==>
          && handler.jobId in jobs && jobs[handler.jobId].status == Processing
          && jobs[handler.jobId].startedAt.Some? && handler.deadline <= jobs[handler.jobId].startedAt.value + c.lease
          && handler.jobId in owners && owners[handler.jobId] == h)
  }

  predicate HandlersOk(c: Config, jobs: map<nat, Job>, owners: map<nat, nat>, clock: int, handlers: map<nat, Handler>) {
    forall h | h in handlers :: HandlerOk(c, jobs, owners, clock, h, handlers[h])
  }

  /** A sweep that may still take a job knows the job's true retry count. */
  predicate CandidateOk(jobs: map<nat, Job>, cutoff: int, candidate: Candidate) {
    candidate.job in jobs && IsStale(jobs[candidate.job], cutoff) ==> candidate.seen == jobs[candidate.job].retryCount
  }

  predicate SweepOk(c: Config, jobs: map<nat, Job>, clock: int, sweep: Sweep) {
    sweep.cutoff + c.lease <= clock && forall i | 0 <= i < |sweep.todo| :: CandidateOk(jobs, sweep.cutoff, sweep.todo[i])
  }

  predicate SweepsOk(c: Config, jobs: map<nat, Job>, clock: int, sweeps: map<nat, Sweep>) {
    forall w | w in sweeps :: SweepOk(c, jobs, clock, sweeps[w])
  }

  predicate Leased(c: Config, s: State) {
    && HandlersOk(c, s.db.jobs, s.owners, s.clock, s.handlers)
    && SweepsOk(c, s.db.jobs, s.clock, s.sweeps)
  }

  // ---------- changing one job ----------

  /** No handler may still write to job j when the clock stands at now. */
  predicate Unowned(handlers: map<nat, Handler>, j: nat, now: int) {
    forall h | h in handlers && handlers[h].jobId == j :: !Live(handlers[h], now)
  }

  lemma HandlersKept(c: Config, s: State, jobs: map<nat, Job>, owners: map<nat, nat>, now: int, j: nat)
    requires HandlersOk(c, s.db.jobs, s.owners, s.clock, s.handlers) && s.clock <= now
    requires forall k | k != j ::
        (k in jobs <==> k in s.db.jobs) && (k in owners <==> k in s.owners) && (k in owners ==> owners[k] == s.owners[k])
    requires forall k | k != j && k in jobs :: jobs[k] == s.db.jobs[k]
    requires Unowned(s.handlers, j, now)
    ensures HandlersOk(c, jobs, owners, now, s.handlers)
  {
    forall h | h in s.handlers ensures HandlerOk(c, jobs, owners, now, h, s.handlers[h]) {
      assert HandlerOk(c, s.db.jobs, s.owners, s.clock, h, s.handlers[h]);
    }
  }

  lemma HandlersTick(c: Config, s: State, now: int)
    requires HandlersOk(c, s.db.jobs, s.owners, s.clock, s.handlers) && s.clock <= now
    ensures HandlersOk(c, s.db.jobs, s.owners, now, s.handlers)
  {
    forall h | h in s.handlers ensures HandlerOk(c, s.db.jobs, s.owners, now, h, s.handlers[h]) {
      assert HandlerOk(c, s.db.jobs, s.owners, s.clock, h, s.handlers[h]);
    }
  }

  lemma NotProcessingUnowned(c: Config, s: State, j: nat, now: int)
    requires HandlersOk(c, s.db.jobs, s.owners, s.clock, s.handlers) && s.clock <= now
    requires j in s.db.jobs ==> s.db.jobs[j].status != Processing
    ensures Unowned(s.handlers, j, now)
  {
    forall h | h in s.handlers && s.handlers[h].jobId == j ensures !Live(s.handlers[h], now) {
      assert HandlerOk(c, s.db.jobs, s.owners, s.clock, h, s.handlers[h]);
    }
  }

  /** A sweep reaches a job only after every deadline it could have been claimed under. */
  lemma StaleUnowned(c: Config, s: State, j: nat, cutoff: int, now: int)
    requires HandlersOk(c, s.db.jobs, s.owners, s.clock, s.handlers) && s.clock <= now
    requires j in s.db.jobs && IsStale(s.db.jobs[j], cutoff) && cutoff + c.lease <= s.clock
    ensures Unowned(s.handlers, j, now)
  {
    forall h | h in s.handlers && s.handlers[h].jobId == j ensures !Live(s.handlers[h], now) {
      assert HandlerOk(c, s.db.jobs, s.owners, s.clock, h, s.handlers[h]);
    }
  }

  lemma SweepsKept(c: Config, s: State, jobs: map<nat, Job>, now: int, j: nat)
    requires SweepsOk(c, s.db.jobs, s.clock, s.sweeps) && s.clock <= now
    requires forall k | k != j && k in jobs :: k in s.db.jobs && jobs[k] == s.db.jobs[k]
    requires j in jobs ==> !IsStale(jobs[j], s.clock - c.lease) || (j in s.db.jobs && jobs[j] == s.db.jobs[j])
    ensures SweepsOk(c, jobs, now, s.sweeps)
  {
    forall w | w in s.sweeps ensures SweepOk(c, jobs, now, s.sweeps[w]) {
      var sweep := s.sweeps[w];
      assert SweepOk(c, s.db.jobs, s.clock, sweep);
      forall i | 0 <= i < |sweep.todo| ensures CandidateOk(jobs, sweep.cutoff, sweep.todo[i]) {
        assert CandidateOk(s.db.jobs, sweep.cutoff, sweep.todo[i]);
      }
    }
  }

  // ---------- steps ----------

  /** Steps of a handler that leave the rows alone. */
  lemma QuietHandlerStepLeased(c: Config, s: State, a: Action)
    requires Leased(c, s) && Legal(s, a) && (a.Stamp? || a.Load? || a.ReadDocument? || a.Parse?)
    ensures Leased(c, HandlerStep(s, a).(clock := a.now))
  {
    hide Visible, Text.Trim;
    HandlersTick(c, s, a.now);
    SweepsKept(c, s, s.db.jobs, a.now, 0);
    if InPhase(s, a) {
      var s' := HandlerStep(s, a);
      assert HandlerOk(c, s.db.jobs, s.owners, s.clock, a.h, s.handlers[a.h]);
      assert HandlerOk(c, s.db.jobs, s.owners, a.now, a.h, s'.handlers[a.h]);
    }
  }

  lemma ClaimLeased(c: Config, s: State, a: Action)
    requires Leased(c, s) && Legal(s, a) && a.Claim?
    ensures Leased(c, HandlerStep(s, a).(clock := a.now))
  {
    hide HandlersOk, SweepsOk;
    HandlersTick(c, s, a.now);
    SweepsKept(c, s, s.db.jobs, a.now, 0);
    if InPhase(s, a) {
      var s' := HandlerStep(s, a);
      var j := s.handlers[a.h].jobId;
      ClaimantOk(c, s, a);
      if s'.handlers[a.h].phase.won {
        NotProcessingUnowned(c, s, j, a.now);
        HandlersKept(c, s, s'.db.jobs, s'.owners, a.now, j);
        SweepsKept(c, s, s'.db.jobs, a.now, j);
      }
      OneHandlerChanged(c, s'.db.jobs, s'.owners, a.now, s.handlers, a.h, s'.handlers[a.h]);
    }
  }

  lemma ClaimantOk(c: Config, s: State, a: Action)
    requires Leased(c, s) && Legal(s, a) && a.Claim? && InPhase(s, a)
    ensures var s' := HandlerStep(s, a);
            && HandlerOk(c, s'.db.jobs, s'.owners, a.now, a.h, s'.handlers[a.h])
            && (s'.handlers[a.h].phase.won ==> s.handlers[a.h].phase.stamp >= s.clock - c.lease)
  {
    assert HandlerOk(c, s.db.jobs, s.owners, s.clock, a.h, s.handlers[a.h]);
  }

  lemma OneHandlerChanged(c: Config, jobs: map<nat, Job>, owners: map<nat, nat>, now: int,
                          handlers: map<nat, Handler>, h: nat, handler: Handler)
    requires HandlersOk(c, jobs, owners, now, handlers)
    requires HandlerOk(c, jobs, owners, now, h, handler)
    ensures HandlersOk(c, jobs, owners, now, handlers[h := handler])
  {
  }

  /** completeJob and failJob act on the attempt of the very handler that runs them. */
  lemma ClosingOwnAttempt(c: Config, s: State, a: Action)
    requires Leased(c, s) && Legal(s, a) && (a.Complete? || a.Fail?) && InPhase(s, a)
    ensures var j := s.handlers[a.h].jobId;
            && j in s.db.jobs && s.db.jobs[j].status == Processing
            && j in s.owners && s.owners[j] == a.h
            && forall h | h in s.handlers && h != a.h && s.handlers[h].jobId == j :: !Live(s.handlers[h], a.now)
  {
    assert HandlerOk(c, s.db.jobs, s.owners, s.clock, a.h, s.handlers[a.h]);
    forall h | h in s.handlers && h != a.h && s.handlers[h].jobId == s.handlers[a.h].jobId
      ensures !Live(s.handlers[h], a.now)
    {
      assert HandlerOk(c, s.db.jobs, s.owners, s.clock, h, s.handlers[h]);
    }
  }

  lemma CloseLeased(c: Config, s: State, a: Action)
    requires Leased(c, s) && Legal(s, a) && (a.Complete? || a.Fail?)
    ensures Leased(c, HandlerStep(s, a).(clock := a.now))
  {
    hide HandlersOk, SweepsOk;
    if !InPhase(s, a) {
      HandlersTick(c, s, a.now);
      SweepsKept(c, s, s.db.jobs, a.now, 0);
    } else {
      ClosingOwnAttempt(c, s, a);
      var s' := HandlerStep(s, a);
      var j := s.handlers[a.h].jobId;
      var t := s.(handlers := s.handlers[a.h := s'.handlers[a.h]]);
      OneHandlerChanged(c, s.db.jobs, s.owners, s.clock, s.handlers, a.h, s'.handlers[a.h]);
      HandlersKept(c, t, s'.db.jobs, s'.owners, a.now, j);
      SweepsKept(c, s, s'.db.jobs, a.now, j);
    }
  }

  lemma RecoverLeased(c: Config, s: State, w: nat, stamp: int, now: int)
    requires ValidConfig(c) && Leased(c, s) && s.clock <= now && w in s.sweeps && s.sweeps[w].todo != []
    ensures Leased(c, StepRecover(c, s, w, stamp).(clock := now))
  {
    hide HandlersOk, SweepsOk;
    var s' := StepRecover(c, s, w, stamp);
    var Sweep(cutoff, todo) := s.sweeps[w];
    SweepFound(c, s, w);
    var j := todo[0].job;
    if j in s.db.jobs && IsStale(s.db.jobs[j], cutoff) {
      StaleUnowned(c, s, j, cutoff, now);
      HandlersKept(c, s, s'.db.jobs, s'.owners, now, j);
      SweepsKept(c, s, s'.db.jobs, now, j);
    } else {
      HandlersTick(c, s, now);
      SweepsKept(c, s, s.db.jobs, now, j);
    }
    SweepAdvanced(c, s'.db.jobs, now, s.sweeps, w);
  }

  lemma HandlerFound(c: Config, s: State, h: nat)
    requires HandlersOk(c, s.db.jobs, s.owners, s.clock, s.handlers) && h in s.handlers
    ensures HandlerOk(c, s.db.jobs, s.owners, s.clock, h, s.handlers[h])
  {
  }

  lemma SweepFound(c: Config, s: State, w: nat)
    requires SweepsOk(c, s.db.jobs, s.clock, s.sweeps) && w in s.sweeps && s.sweeps[w].todo != []
    ensures s.sweeps[w].cutoff + c.lease <= s.clock && CandidateOk(s.db.jobs, s.sweeps[w].cutoff, s.sweeps[w].todo[0])
  {
    assert SweepOk(c, s.db.jobs, s.clock, s.sweeps[w]);
  }

  lemma SweepAdvanced(c: Config, jobs: map<nat, Job>, now: int, sweeps: map<nat, Sweep>, w: nat)
    requires SweepsOk(c, jobs, now, sweeps) && w in sweeps && sweeps[w].todo != []
    ensures SweepsOk(c, jobs, now, sweeps[w := Sweep(sweeps[w].cutoff, sweeps[w].todo[1..])])
  {
    assert SweepOk(c, jobs, now, sweeps[w]);
  }

  lemma WorkerStepLeased(c: Config, s: State, a: Action)
    requires ValidConfig(c) && Leased(c, s) && Legal(s, a) && IsWorkerStep(a)
    ensures Leased(c, WorkerStep(c, s, a).(clock := a.now))
  {
    hide HandlersOk;
    HandlersTick(c, s, a.now);
    SweepsKept(c, s, s.db.jobs, a.now, 0);
    match a
    case Recover(w, stamp, now) =>
      if w in s.sweeps && s.sweeps[w].todo != [] {
        RecoverLeased(c, s, w, stamp, now);
      }
    case Touch(w, stamp, now) =>
      if w in s.rounds && !Idle(s, w) && s.rounds[w].sent {
        TouchLeased(c, s, w, stamp, now);
      }
    case BeginSweep(w, _, now) =>
      var sweep := WorkerStep(c, s, a).sweeps[w];
      assert SweepOk(c, s.db.jobs, now, sweep);
    case _ =>
  }

  lemma TouchLeased(c: Config, s: State, w: nat, stamp: int, now: int)
    requires Leased(c, s) && s.clock <= now && w in s.rounds && !Idle(s, w) && s.rounds[w].sent
    ensures Leased(c, StepTouch(s, w, stamp).(clock := now))
  {
    hide HandlersOk, SweepsOk;
    var j := s.rounds[w].listed[s.rounds[w].done];
    var s' := StepTouch(s, w, stamp);
    if s'.db == s.db {
      HandlersTick(c, s, now);
    } else {
      NotProcessingUnowned(c, s, j, now);
      HandlersKept(c, s, s'.db.jobs, s.owners, now, j);
    }
    SweepsKept(c, s, s'.db.jobs, now, j);
  }

  lemma RetryLeased(c: Config, s: State, user: int, j: nat, stamp: int, now: int)
    requires Leased(c, s) && s.clock <= now
    ensures Leased(c, s.(db := Retry(s.db, user, j, stamp).0, clock := now))
  {
    hide HandlersOk, SweepsOk, Visible, HasActiveJob;
    var db := Retry(s.db, user, j, stamp).0;
    if db == s.db {
      HandlersTick(c, s, now);
      SweepsKept(c, s, s.db.jobs, now, j);
    } else {
      NotProcessingUnowned(c, s, j, now);
      HandlersKept(c, s, db.jobs, s.owners, now, j);
      SweepsKept(c, s, db.jobs, now, j);
    }
  }

  lemma NewJobLeased(c: Config, s: State, user: int, doc: nat, stamp: int, now: int)
    requires ValidConfig(c) && Leased(c, s) && RowsOk(s.db) && s.clock <= now
    ensures Leased(c, s.(db := CreateJob(s.db, user, doc, stamp).0, clock := now))
  {
    hide HandlersOk, SweepsOk, Visible, HasActiveJob, JobsReferToDocuments, OneActiveJob, ResultsMatchJobs,
        SuccessHasResult, DocumentsHaveText;
    var db := CreateJob(s.db, user, doc, stamp).0;
    if db == s.db {
      HandlersTick(c, s, now);
      SweepsKept(c, s, s.db.jobs, now, 0);
    } else {
      var j := s.db.nextJob;
      NotProcessingUnowned(c, s, j, now);
      HandlersKept(c, s, db.jobs, s.owners, now, j);
      SweepsKept(c, s, db.jobs, now, j);
    }
  }

  lemma ApiStepLeased(c: Config, s: State, a: Action)
    requires ValidConfig(c) && Leased(c, s) && RowsOk(s.db) && Legal(s, a) && !IsHandlerStep(a) && !IsWorkerStep(a)
    ensures Leased(c, Apply(c, s, a))
  {
    hide RowsOk, HandlersOk, SweepsOk, CreateJob, Retry, Visible, Text.Trim;
    HandlersTick(c, s, a.now);
    SweepsKept(c, s, s.db.jobs, a.now, 0);
    match a
    case PostJob(user, doc, stamp, now) => NewJobLeased(c, s, user, doc, stamp, now);
    case PostRetry(user, j, stamp, now) => RetryLeased(c, s, user, j, stamp, now);
    case Receive(h, message, now) =>
      var s' := Apply(c, s, a);
      if s'.handlers != s.handlers {
        OneHandlerChanged(c, s.db.jobs, s.owners, now, s.handlers, h, s'.handlers[h]);
      }
    case Crash(h, now) =>
      if h in s.handlers {
        OneHandlerChanged(c, s.db.jobs, s.owners, now, s.handlers, h, s.handlers[h].(phase := Ended(false)));
      }
    case _ =>
  }

  lemma StepLeased(c: Config, s: State, a: Action)
    requires ValidConfig(c) && Safe(s) && Leased(c, s) && Legal(s, a)
    ensures Leased(c, Apply(c, s, a))
  {
    hide RowsOk, HandlersOk, SweepsOk, HandlerStep, WorkerStep;
    if IsWorkerStep(a) {
      WorkerStepLeased(c, s, a);
    } else if !IsHandlerStep(a) {
      ApiStepLeased(c, s, a);
    } else if a.Claim? {
      ClaimLeased(c, s, a);
    } else if a.Complete? || a.Fail? {
      CloseLeased(c, s, a);
    } else {
      QuietHandlerStepLeased(c, s, a);
    }
  }

  lemma {:induction false} RunLeased(c: Config, s: State, actions: seq<Action>)
    requires ValidConfig(c) && Safe(s) && Leased(c, s) && Timed(c, s, actions)
    ensures Safe(Exec(c, s, actions)) && Leased(c, Exec(c, s, actions))
    decreases |actions|
  {
    hide Safe, Leased, Apply;
    if actions != [] {
      StepSafe(c, s, actions[0]);
      StepLeased(c, s, actions[0]);
      RunLeased(c, Apply(c, s, actions[0]), actions[1..]);
    }
  }

  // ---------- main results: leases ----------

  ghost predicate Reachable(c: Config, s: State) {
    exists clock, actions :: Timed(c, Init(clock), actions) && s == Exec(c, Init(clock), actions)
  }

  lemma ReachableLeased(c: Config, s: State)
    requires ValidConfig(c) && Reachable(c, s)
    ensures Safe(s) && Leased(c, s)
  {
    var clock, actions :| Timed(c, Init(clock), actions) && s == Exec(c, Init(clock), actions);
    RunLeased(c, Init(clock), actions);
  }

  /** Lease ownership: at most one handler that may still write owns a job, and the job is processing for it. */
  lemma SoleOwner(c: Config, s: State, h: nat)
    requires ValidConfig(c) && Reachable(c, s) && h in s.handlers && Live(s.handlers[h], s.clock)
    ensures var j := s.handlers[h].jobId;
            && j in s.db.jobs && s.db.jobs[j].status == Processing
            && forall g | g in s.handlers && s.handlers[g].jobId == j && Live(s.handlers[g], s.clock) :: g == h
  {
    hide SweepsOk, RowsOk;
    ReachableLeased(c, s);
    assert HandlerOk(c, s.db.jobs, s.owners, s.clock, h, s.handlers[h]);
    forall g | g in s.handlers && s.handlers[g].jobId == s.handlers[h].jobId &&
        Live(s.handlers[g], s.clock) ensures g == h {
      assert HandlerOk(c, s.db.jobs, s.owners, s.clock, g, s.handlers[g]);
    }
  }

  /** A sweep takes a job away only after the deadline of every handler whose claim of it succeeded. */
  lemma RecoveryFollowsDeadline(c: Config, s: State, w: nat, stamp: int, now: int, h: nat)
    requires ValidConfig(c) && Reachable(c, s) && s.clock <= now
    requires w in s.sweeps && s.sweeps[w].todo != [] && StepRecover(c, s, w, stamp).db != s.db
    requires h in s.handlers && Owns(s.handlers[h].phase) && s.handlers[h].jobId == s.sweeps[w].todo[0].job
    ensures s.handlers[h].deadline < now
  {
    hide HandlersOk, SweepsOk, RowsOk;
    ReachableLeased(c, s);
    SweepFound(c, s, w);
    var j := s.sweeps[w].todo[0].job;
    StaleUnowned(c, s, j, s.sweeps[w].cutoff, now);
    assert !Live(s.handlers[h], now);
  }

  /** completeJob and failJob close exactly the attempt that their own handler claimed: the guarded update
      always hits, so "processing state was lost" cannot be reported. */
  lemma CloseHitsOwnAttempt(c: Config, s: State, a: Action)
    requires ValidConfig(c) && Reachable(c, s) && Legal(s, a) && (a.Complete? || a.Fail?) && InPhase(s, a)
    ensures var j := s.handlers[a.h].jobId; var s' := Apply(c, s, a);
            && j in s.owners && s.owners[j] == a.h
            && s'.handlers[a.h].phase == Ended(true)
            && s'.db.jobs[j].status == (if a.Complete? then Success else Failed)
            && (a.Complete? ==> exists r :: r in s'.db.results && r !in s.db.results
                                  && s'.db.results[r] == ResultRow(s.db.jobs[j].user, s.db.jobs[j].doc, j,
                                      s.handlers[a.h].phase.parsed))
  {
    hide HandlersOk, SweepsOk, JobsReferToDocuments, OneActiveJob, SuccessHasResult, DocumentsHaveText;
    ReachableLeased(c, s);
    ClosingOwnAttempt(c, s, a);
    assert SnapshotOk(s.db, s.handlers[a.h]);
    if a.Complete? {
      assert s.db.nextResult in Apply(c, s, a).db.results;
    }
  }

  /** An owning handler fails to find its document exactly when the query itself fails, and always finds text in it. */
  lemma OwnerFindsDocument(c: Config, s: State, a: Action)
    requires ValidConfig(c) && Reachable(c, s) && Legal(s, a) && a.ReadDocument? && InPhase(s, a)
    ensures var j := s.handlers[a.h].jobId; var phase := Apply(c, s, a).handlers[a.h].phase;
            && (if a.fails then phase.Closing? && phase.message == "source document is unavailable" else phase.Parsing?)
            && (phase.Parsing? ==>
                  && Text.Trim(phase.content) != ""
                  && j in s.db.jobs && s.db.jobs[j].doc in s.db.docs
                  && Some(phase.content) == Content(s.db.docs[s.db.jobs[j].doc]))
  {
    hide HandlersOk, SweepsOk, OneActiveJob, ResultsMatchJobs, SuccessHasResult, Text.Trim;
    ReachableLeased(c, s);
    assert SnapshotOk(s.db, s.handlers[a.h]);
    HandlerFound(c, s, a.h);
  }
}
