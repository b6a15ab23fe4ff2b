/** reconcilePendingJobs starves nobody: a stale pending job is republished, or leaves pending, within a number
    of successful rounds that only its place in the queue decides. */
module JobFairness {
  import opened Base
  import opened Oldest
  import opened Sequences
  import opened ParseJobs
  import opened JobSafety
  import opened JobLease

  predicate IsPending(s: State, j: nat) {
    j in s.db.jobs && s.db.jobs[j].status == Pending
  }

  /** At most this time passes from reading the clock to the step that writes it or compares with it. */
  predicate Prompt(a: Action, delay: nat) {
    a.now - StampOf(a) <= delay
  }

  predicate AllPrompt(actions: seq<Action>, delay: nat)
    decreases |actions|
  {
    actions == [] || (Prompt(actions[0], delay) && AllPrompt(actions[1..], delay))
  }

  /** Stale for every round that begins from now on. */
  predicate Stale(c: Config, s: State, j: nat, delay: nat) {
    IsPending(s, j) && s.db.jobs[j].updatedAt < s.clock - c.pendingGrace - delay
  }

  predicate Precedes(s: State, k: nat, j: nat) {
    IsPending(s, k) && IsPending(s, j) &&
    (s.db.jobs[k].updatedAt < s.db.jobs[j].updatedAt || (s.db.jobs[k].updatedAt == s.db.jobs[j].updatedAt && k < j))
  }

  /** The pending jobs before j in (updated_at, id) order; as j is stale, they all are. */
  function Ahead(s: State, j: nat): set<nat> {
    set k | k in s.db.jobs && Precedes(s, k, j)
  }

  /** This step republishes j, or marks it as republished. */
  predicate Republishes(s: State, a: Action, j: nat) {
    (a.Publish? || a.Touch?) && a.w in s.rounds && !Idle(s, a.w) && (a.Touch? <==> s.rounds[a.w].sent)
    && s.rounds[a.w].listed[s.rounds[a.w].done] == j
  }

  /** j is republished, marked as republished, or no longer pending. */
  predicate Served(c: Config, s: State, actions: seq<Action>, j: nat)
    decreases |actions|
  {
    !IsPending(s, j) ||
    (actions != [] && (Republishes(s, actions[0], j) || Served(c, Apply(c, s, actions[0]), actions[1..], j)))
  }

  /** The step that finishes a round of worker w without an error. */
  predicate FinishesRound(s: State, a: Action, w: nat) {
    a.Touch? && a.w == w && w in s.rounds && s.rounds[w].sent && s.rounds[w].done + 1 == |s.rounds[w].listed|
  }

  /** The successful rounds of worker w in a run; other workers run theirs in between. */
  function RoundsDone(c: Config, s: State, actions: seq<Action>, w: nat): nat
    decreases |actions|
  {
    if actions == [] then 0
    else
      (if FinishesRound(s, actions[0], w) then 1 else 0) + RoundsDone(c, Apply(c, s, actions[0]), actions[1..], w)
  }

  function Remaining(s: State, w: nat): set<nat> {
    if Idle(s, w) then {} else set k | k in s.rounds[w].listed[s.rounds[w].done..]
  }

  /** The number of further round ends by which j must have been served. */
  function Need(s: State, w: nat, j: nat): nat {
    if Idle(s, w) then |Ahead(s, j)| / BATCH + 1
    else if j in Remaining(s, w) then 1
    else |Ahead(s, j) - Remaining(s, w)| / BATCH + 2
  }

  /** What holds of a round that was listed while j was already stale. */
  predicate RoundOk(s: State, w: nat, j: nat)
    requires IsPending(s, j)
  {
    Idle(s, w) ||
    (&& s.db.jobs[j].updatedAt < s.rounds[w].cutoff
     && |Remaining(s, w)| <= BATCH
     && (j in Remaining(s, w) ==> |Ahead(s, j)| < BATCH))
  }

  // ---------- how one step moves the queue ----------

  /** A job that was not ahead of j does not get ahead of it, and j keeps its place, unless j is served. */
  predicate QueueMoves(s: State, s': State, j: nat) {
    IsPending(s', j) ==>
      && (j in s.db.jobs && s'.db.jobs[j].updatedAt == s.db.jobs[j].updatedAt)
      && (forall k | k in s'.db.jobs && Precedes(s', k, j) :: Precedes(s, k, j))
  }

  lemma HandlerStepQueue(c: Config, s: State, a: Action, j: nat)
    requires IsHandlerStep(a) && IsPending(s, j)
    ensures QueueMoves(s, HandlerStep(s, a), j)
  {
    hide LoadingOutcome, ReadingOutcome;
  }

  lemma ApiStepQueue(c: Config, s: State, a: Action, j: nat, delay: nat)
    requires ValidConfig(c) && Stale(c, s, j, delay) && Legal(s, a) && Prompt(a, delay)
    requires !IsHandlerStep(a) && !IsWorkerStep(a) && RowsOk(s.db)
    ensures QueueMoves(s, Apply(c, s, a), j)
  {
    hide JobsReferToDocuments, OneActiveJob, ResultsMatchJobs, SuccessHasResult, DocumentsHaveText, Visible,
        HasActiveJob, Text.Trim;
  }

  lemma WorkerStepQueue(c: Config, s: State, a: Action, j: nat, delay: nat)
    requires ValidConfig(c) && Stale(c, s, j, delay) && Legal(s, a) && Prompt(a, delay)
    requires IsWorkerStep(a) && !Republishes(s, a, j)
    ensures QueueMoves(s, WorkerStep(c, s, a), j)
  {
    hide Oldest.Select;
  }

  lemma StepQueue(c: Config, s: State, a: Action, j: nat, delay: nat)
    requires ValidConfig(c) && Stale(c, s, j, delay) && Legal(s, a) && Prompt(a, delay)
    requires !Republishes(s, a, j) && RowsOk(s.db)
    ensures QueueMoves(s, Apply(c, s, a), j)
  {
    hide RowsOk, Legal, Prompt, HandlerStep, WorkerStep, Republishes;
    if IsHandlerStep(a) {
      HandlerStepQueue(c, s, a, j);
    } else if IsWorkerStep(a) {
      WorkerStepQueue(c, s, a, j, delay);
    } else {
      ApiStepQueue(c, s, a, j, delay);
    }
  }

  /** Only a worker's own steps touch its round. */
  lemma RoundsKept(c: Config, s: State, a: Action, w: nat)
    requires !((a.BeginRound? || a.Publish? || a.Touch? || a.StopRound?) && a.w == w)
    ensures var s' := Apply(c, s, a);
            (w in s'.rounds <==> w in s.rounds) && (w in s.rounds ==> s'.rounds[w] == s.rounds[w])
  {
    hide Effect, CreateText, CreatePDF, DeleteDocument, CreateJob, Retry, RecoverJob, ListStale, ListPending, TouchPending;
  }

  // ---------- sets ----------

  lemma DifferenceCount(x: set<nat>, y: set<nat>)
    ensures |x| <= |x - y| + |y|
    ensures y <= x ==> |x - y| == |x| - |y|
  {
    assert x == (x - y) + (x * y);
    SmallerSet(x * y, y);
  }

  // ---------- the measure never grows, and every finished round lowers it ----------

  /** The batch listed while j is stale either contains j and everything ahead of it, or is full of jobs ahead of j. */
  lemma BatchCovers(s: State, cutoff: int, j: nat)
    requires IsPending(s, j) && s.db.jobs[j].updatedAt < cutoff
    ensures var listed := ListPending(s.db, cutoff); var batch := set k | k in listed;
            && |batch| <= BATCH
            && (j in batch ==> |Ahead(s, j)| < BATCH)
            && (j !in batch ==> batch <= Ahead(s, j) && |batch| == BATCH)
  {
    hide Oldest.Select;
    var stamps := StalePending(s.db, cutoff);
    var listed := Select(stamps, BATCH);
    var batch := set k | k in listed;
    SelectTakesOldest(stamps, BATCH);
    NoRepeatsCount(listed);
    assert j in stamps;
    if j in batch {
      AheadIsListed(s, cutoff, listed, j);
      assert Ahead(s, j) <= batch - {j};
      SmallerSet(Ahead(s, j), batch - {j});
    } else {
      ListedIsAhead(s, cutoff, listed, j);
    }
  }

  lemma AheadIsListed(s: State, cutoff: int, listed: seq<nat>, j: nat)
    requires IsPending(s, j) && s.db.jobs[j].updatedAt < cutoff && j in listed
    requires var stamps := StalePending(s.db, cutoff);
             (forall x | x in listed :: x in stamps) &&
             (forall x, y | x in listed && y in stamps && y !in listed :: Before(stamps, x, y))
    ensures forall k | k in Ahead(s, j) :: k in listed && k != j
  {
    var stamps := StalePending(s.db, cutoff);
    forall k | k in Ahead(s, j) ensures k in listed && k != j {
      assert k in stamps && Before(stamps, k, j) && !Before(stamps, j, k);
    }
  }

  lemma ListedIsAhead(s: State, cutoff: int, listed: seq<nat>, j: nat)
    requires IsPending(s, j) && s.db.jobs[j].updatedAt < cutoff && j !in listed
    requires var stamps := StalePending(s.db, cutoff);
             (forall x | x in listed :: x in stamps) &&
             (forall x, y | x in listed && y in stamps && y !in listed :: Before(stamps, x, y))
    ensures forall k | k in listed :: k in Ahead(s, j)
  {
    var stamps := StalePending(s.db, cutoff);
    forall k | k in listed ensures k in Ahead(s, j) {
      assert Before(stamps, k, j);
    }
  }

  lemma BeginNeed(c: Config, s: State, w: nat, stamp: int, now: int, j: nat, delay: nat)
    requires ValidConfig(c) && Stale(c, s, j, delay) && s.clock <= now && stamp <= now <= stamp + delay && Idle(s, w)
    ensures var s' := Apply(c, s, BeginRound(w, stamp, now));
            IsPending(s', j) && RoundOk(s', w, j) && Need(s', w, j) <= Need(s, w, j)
  {
    hide Oldest.Select;
    var s' := Apply(c, s, BeginRound(w, stamp, now));
    var cutoff := stamp - c.pendingGrace;
    var listed := ListPending(s.db, cutoff);
    var batch := set k | k in listed;
    BatchCovers(s, cutoff, j);
    assert Ahead(s', j) == Ahead(s, j);
    assert s'.rounds[w] == Round(cutoff, listed, 0, false);
    assert j in StalePending(s.db, cutoff);
    if listed != [] {
      assert listed[0..] == listed;
      assert Remaining(s', w) == batch;
      DifferenceCount(Ahead(s, j), batch);
    }
  }

  /** A step that leaves the worker's round as it is. */
  lemma OtherNeed(s: State, s': State, w: nat, j: nat)
    requires IsPending(s, j) && IsPending(s', j) && RoundOk(s, w, j) && QueueMoves(s, s', j)
    requires w in s'.rounds <==> w in s.rounds
    requires w in s.rounds ==> s'.rounds[w].(sent := true) == s.rounds[w].(sent := true)
    ensures RoundOk(s', w, j) && Need(s', w, j) <= Need(s, w, j)
  {
    assert Ahead(s', j) <= Ahead(s, j);
    SmallerSet(Ahead(s', j), Ahead(s, j));
    assert Remaining(s', w) == Remaining(s, w);
    SmallerSet(Ahead(s', j) - Remaining(s, w), Ahead(s, j) - Remaining(s, w));
  }

  lemma StopNeed(s: State, s': State, w: nat, j: nat)
    requires IsPending(s, j) && IsPending(s', j) && RoundOk(s, w, j) && Ahead(s', j) == Ahead(s, j) && w !in s'.rounds
    ensures RoundOk(s', w, j) && Need(s', w, j) <= Need(s, w, j)
  {
    if !Idle(s, w) {
      DifferenceCount(Ahead(s, j), Remaining(s, w));
    }
  }

  /** Touching another job of the round. */
  lemma TouchNeed(c: Config, s: State, w: nat, stamp: int, j: nat, delay: nat)
    requires ValidConfig(c) && Stale(c, s, j, delay) && s.clock <= stamp + delay && RoundOk(s, w, j)
    requires w in s.rounds && !Idle(s, w) && s.rounds[w].sent && s.rounds[w].listed[s.rounds[w].done] != j
    ensures var s' := StepTouch(s, w, stamp);
            && IsPending(s', j) && RoundOk(s', w, j)
            && (if Idle(s', w) then 1 else 0) + Need(s', w, j) <= Need(s, w, j)
  {
    var s' := StepTouch(s, w, stamp);
    var Round(cutoff, listed, done, _) := s.rounds[w];
    var k := listed[done];
    assert listed[done..] == [k] + listed[done + 1..];
    var tail := listed[done + 1..];
    var rest := set x | x in tail;
    assert Remaining(s, w) == {k} + rest;
    assert k !in Ahead(s', j);
    assert Ahead(s', j) <= Ahead(s, j);
    SmallerSet(Ahead(s', j), Ahead(s, j));
    if Idle(s', w) {
      assert listed[done + 1..] == [];
      SmallerSet(Ahead(s', j), Ahead(s, j) - Remaining(s, w));
    } else {
      SmallerSet(Remaining(s', w), Remaining(s, w));
      SmallerSet(Ahead(s', j) - Remaining(s', w), Ahead(s, j) - Remaining(s, w));
    }
  }

  lemma OwnStepNeed(c: Config, s: State, a: Action, w: nat, j: nat, delay: nat)
    requires ValidConfig(c) && Stale(c, s, j, delay) && Legal(s, a) && Prompt(a, delay)
    requires RoundOk(s, w, j) && !Republishes(s, a, j)
    requires (a.BeginRound? || a.Publish? || a.Touch? || a.StopRound?) && a.w == w
    ensures var s' := Apply(c, s, a);
            IsPending(s', j) ==>
                RoundOk(s', w, j) && Need(s', w, j) + (if FinishesRound(s, a, w) then 1 else 0) <= Need(s, w, j)
  {
    hide RoundOk, Need, Ahead, ListPending, TouchPending;
    var s' := Apply(c, s, a);
    match a
    case BeginRound(_, stamp, now) =>
      if Idle(s, w) {
        BeginNeed(c, s, w, stamp, now, j, delay);
      } else {
        SameQueue(s, s', w, j);
      }
    case Publish(_, _) =>
      SameQueue(s, s', w, j);
    case Touch(_, stamp, _) =>
      if w in s.rounds && !Idle(s, w) && s.rounds[w].sent {
        TouchNeed(c, s, w, stamp, j, delay);
        ClockIrrelevant(StepTouch(s, w, stamp), s', w, j);
      } else {
        SameQueue(s, s', w, j);
      }
    case StopRound(_, _) =>
      AheadOnlyReadsRows(s, s', j);
      StopNeed(s, s', w, j);
  }

  lemma AheadOnlyReadsRows(s: State, s': State, j: nat)
    requires s'.db == s.db
    ensures Ahead(s', j) == Ahead(s, j)
  {
  }

  lemma SameQueue(s: State, s': State, w: nat, j: nat)
    requires IsPending(s, j) && s'.db == s.db && RoundOk(s, w, j)
    requires w in s'.rounds <==> w in s.rounds
    requires w in s.rounds ==> s'.rounds[w].(sent := true) == s.rounds[w].(sent := true)
    ensures RoundOk(s', w, j) && Need(s', w, j) <= Need(s, w, j)
  {
    OtherNeed(s, s', w, j);
  }

  lemma ClockIrrelevant(s: State, s': State, w: nat, j: nat)
    requires IsPending(s, j) && s'.db == s.db && s'.rounds == s.rounds && RoundOk(s, w, j)
    ensures RoundOk(s', w, j) && Need(s', w, j) == Need(s, w, j)
  {
    AheadOnlyReadsRows(s, s', j);
  }

  lemma StepNeed(c: Config, s: State, a: Action, w: nat, j: nat, delay: nat)
    requires ValidConfig(c) && Stale(c, s, j, delay) && Legal(s, a) && Prompt(a, delay)
    requires RowsOk(s.db) && RoundOk(s, w, j) && !Republishes(s, a, j)
    ensures var s' := Apply(c, s, a);
            IsPending(s', j) ==>
              Stale(c, s', j, delay) && RoundOk(s', w, j) && Need(s', w, j) + (if FinishesRound(s, a, w) then 1
                  else 0) <= Need(s, w, j)
  {
    hide RowsOk, RoundOk, Need, HandlerStep, WorkerStep, Republishes;
    StepQueue(c, s, a, j, delay);
    if (a.BeginRound? || a.Publish? || a.Touch? || a.StopRound?) && a.w == w {
      OwnStepNeed(c, s, a, w, j, delay);
    } else {
      RoundsKept(c, s, a, w);
      if IsPending(Apply(c, s, a), j) {
        OtherNeed(s, Apply(c, s, a), w, j);
      }
    }
  }

  lemma {:induction false} RunNeed(c: Config, s: State, actions: seq<Action>, w: nat, j: nat, delay: nat)
    requires ValidConfig(c) && Safe(s) && Stale(c, s, j, delay) && Timed(c, s, actions) && RoundOk(s, w, j)
    requires AllPrompt(actions, delay)
    requires RoundsDone(c, s, actions, w) >= Need(s, w, j)
    ensures Served(c, s, actions, j)
    decreases |actions|
  {
    hide RowsOk, RoundOk, Legal, Prompt, Apply, Republishes, FinishesRound;
    NeedPositive(s, w, j);
    if actions != [] && !Republishes(s, actions[0], j) {
      var s' := Apply(c, s, actions[0]);
      StepSafe(c, s, actions[0]);
      StepNeed(c, s, actions[0], w, j, delay);
      if IsPending(s', j) {
        RunNeed(c, s', actions[1..], w, j, delay);
      }
    }
  }

  lemma NeedPositive(s: State, w: nat, j: nat)
    ensures Need(s, w, j) >= 1
  {
  }

  // ---------- from service to publication ----------

  predicate Publishes(s: State, a: Action, j: nat) {
    a.Publish? && a.w in s.rounds && !Idle(s, a.w) && !s.rounds[a.w].sent && s.rounds[a.w].listed[s.rounds[a.w].done] == j
  }

  predicate PublishedOrLeft(c: Config, s: State, actions: seq<Action>, j: nat)
    decreases |actions|
  {
    !IsPending(s, j) ||
    (actions != [] && (Publishes(s, actions[0], j) || PublishedOrLeft(c, Apply(c, s, actions[0]), actions[1..], j)))
  }

  /** No round has published j and not marked it yet. */
  predicate Unsent(s: State, j: nat) {
    forall v | v in s.rounds && !Idle(s, v) && s.rounds[v].sent :: s.rounds[v].listed[s.rounds[v].done] != j
  }

  lemma StepKeepsUnsent(c: Config, s: State, a: Action, j: nat)
    requires Unsent(s, j) && !Publishes(s, a, j)
    ensures Unsent(Apply(c, s, a), j)
  {
    var s' := Apply(c, s, a);
    if a.BeginRound? || a.Publish? || a.Touch? || a.StopRound? {
      RoundAfter(c, s, a);
    }
    forall v | v in s'.rounds && !Idle(s', v) && s'.rounds[v].sent ensures s'.rounds[v].listed[s'.rounds[v].done] != j {
      if !((a.BeginRound? || a.Publish? || a.Touch? || a.StopRound?) && a.w == v) {
        RoundsKept(c, s, a, v);
      }
      hide Apply;
    }
  }

  /** What the steps of a round make of it. */
  lemma RoundAfter(c: Config, s: State, a: Action)
    requires a.BeginRound? || a.Publish? || a.Touch? || a.StopRound?
    ensures var s' := Apply(c, s, a);
            a.w in s'.rounds && s'.rounds[a.w].sent ==>
              a.w in s.rounds && (s'.rounds[a.w] == s.rounds[a.w] ||
                  (a.Publish? && !Idle(s, a.w) && !s.rounds[a.w].sent && s'.rounds[a.w] == s.rounds[a.w].(sent := true)))
  {
    hide ListPending, TouchPending;
  }

  lemma {:induction false} ServedByPublication(c: Config, s: State, actions: seq<Action>, j: nat)
    requires Unsent(s, j) && Served(c, s, actions, j)
    ensures PublishedOrLeft(c, s, actions, j)
    decreases |actions|
  {
    if IsPending(s, j) && !Publishes(s, actions[0], j) {
      assert !Republishes(s, actions[0], j);
      StepKeepsUnsent(c, s, actions[0], j);
      hide Apply, Unsent, IsPending;
      ServedByPublication(c, Apply(c, s, actions[0]), actions[1..], j);
    }
  }

  // ---------- main results ----------

  /** Reconcile fairness: a stale pending job with p pending jobs before it is published again, or has left pending,
      once one worker has finished p / 100 + 1 rounds without an error, whatever arrives and whatever the API,
      the handlers and the other workers do in between. Stale means for longer than the grace period and the time that
      a step may come after its process read the clock; and no round may just have published the job without having
      marked it. */
  lemma ReconcileReachesEveryJob(c: Config, s: State, actions: seq<Action>, w: nat, j: nat, delay: nat)
    requires ValidConfig(c) && Reachable(c, s) && Stale(c, s, j, delay) && Idle(s, w) && Timed(c, s, actions)
    requires AllPrompt(actions, delay) && Unsent(s, j)
    requires RoundsDone(c, s, actions, w) >= |Ahead(s, j)| / 100 + 1
    ensures PublishedOrLeft(c, s, actions, j)
  {
    hide Served, PublishedOrLeft, Leased, Stale, Unsent;
    ReconcileServesEveryJob(c, s, actions, w, j, delay);
    ServedByPublication(c, s, actions, j);
  }

  /** In any case it is published again, has left pending, or is marked by the round that published it before. */
  lemma ReconcileServesEveryJob(c: Config, s: State, actions: seq<Action>, w: nat, j: nat, delay: nat)
    requires ValidConfig(c) && Reachable(c, s) && Stale(c, s, j, delay) && Idle(s, w) && Timed(c, s, actions)
    requires AllPrompt(actions, delay)
    requires RoundsDone(c, s, actions, w) >= |Ahead(s, j)| / 100 + 1
    ensures Served(c, s, actions, j)
  {
    hide Leased;
    ReachableLeased(c, s);
    RunNeed(c, s, actions, w, j, delay);
  }
}
