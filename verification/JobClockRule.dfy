/** Why the lease claims need the deadline rule: on a clock that never runs backwards, but with a handler that writes
    after the deadline of its job context, one handler's completion closes another handler's attempt. */
module JobClockRule {
  import opened Base
  import opened Oldest
  import opened ParseJobs
  import opened JobLease
  import Text

  /** The clock never runs backwards; nothing is said about deadlines. */
  predicate Ordered(clock: int, actions: seq<Action>)
    decreases |actions|
  {
    actions == [] ||
    (clock <= actions[0].now && StampOf(actions[0]) <= actions[0].now && Ordered(actions[0].now, actions[1..]))
  }

  ghost predicate ReachableLate(c: Config, s: State) {
    exists clock, actions :: Ordered(clock, actions) && s == Exec(c, Init(clock), actions)
  }

  lemma {:induction false} ExecAppend(c: Config, s: State, actions: seq<Action>, a: Action)
    requires Ordered(s.clock, actions) && Exec(c, s, actions).clock <= a.now && StampOf(a) <= a.now
    ensures Ordered(s.clock, actions + [a]) && Exec(c, s, actions + [a]) == Apply(c, Exec(c, s, actions), a)
    decreases |actions|
  {
    if actions == [] {
      assert Exec(c, s, [a]) == Exec(c, Apply(c, s, a), []);
    } else {
      ClockAfter(c, s, actions[0]);
      hide Apply;
      assert (actions + [a])[1..] == actions[1..] + [a];
      ExecAppend(c, Apply(c, s, actions[0]), actions[1..], a);
    }
  }

  lemma ClockAfter(c: Config, s: State, a: Action)
    ensures Apply(c, s, a).clock == a.now
  {
    hide HandlerStep, WorkerStep, CreateText, CreatePDF, DeleteDocument, CreateJob, Retry, StepReceive;
  }

  lemma StepLate(c: Config, s: State, a: Action)
    requires ReachableLate(c, s) && s.clock <= a.now && StampOf(a) <= a.now
    ensures ReachableLate(c, Apply(c, s, a)) && Apply(c, s, a).clock == a.now
  {
    ClockAfter(c, s, a);
    hide Apply;
    var clock, actions :| Ordered(clock, actions) && s == Exec(c, Init(clock), actions);
    ExecAppend(c, Init(clock), actions, a);
  }

  // ---------- a run with one job and two handlers ----------

  const DOC := Document(1, true, Some("x"), Some("x"), false)

  function OneJob(status: Status, retries: int, started: Option<int>, now: int): Db {
    Db(map[1 := DOC], map[1 := Job(1, 1, status, retries, None, started, None, now)], map[], 2, 2, 1)
  }

  /** The first handler at time 0. */
  function Attempt(c: Config, db: Db, phase: Phase, owners: map<nat, nat>): State {
    State(db, map[1 := Handler(1, c.lease, phase)], map[], map[], owners, 0)
  }

  function Snapshot(): Job {
    OneJob(Processing, 0, Some(0), 0).jobs[1]
  }

  lemma FirstRows(c: Config)
    ensures var empty := Init(0); var posted := empty.(db := Db(map[1 := DOC], map[], map[], 2, 1, 1));
            && Apply(c, empty, PostText(1, "x", "x", 0)) == posted
            && Apply(c, posted, PostJob(1, 1, 0, 0)) == posted.(db := OneJob(Pending, 0, None, 0))
  {
    Text.TrimmedIsFixed("x");
    hide HandlerStep, WorkerStep, Text.Trim;
  }

  lemma ReachJob(c: Config) returns (s: State)
    ensures ReachableLate(c, s) && s == Attempt(c, OneJob(Pending, 0, None, 0), Received, map[])
  {
    s := Init(0);
    assert Ordered(0, []) && s == Exec(c, Init(0), []);
    assert ReachableLate(c, s);
    FirstRows(c);
    FirstReceipt(c);
    hide Apply, ReachableLate, OneJob, Ordered, Exec;
    StepLate(c, s, PostText(1, "x", "x", 0));
    s := Apply(c, s, PostText(1, "x", "x", 0));
    StepLate(c, s, PostJob(1, 1, 0, 0));
    s := Apply(c, s, PostJob(1, 1, 0, 0));
    StepLate(c, s, Receive(1, 1, 0));
    s := Apply(c, s, Receive(1, 1, 0));
  }

  lemma FirstReceipt(c: Config)
    ensures var queued := OneJob(Pending, 0, None, 0);
            Apply(c, Init(0).(db := queued), Receive(1, 1, 0)) == Attempt(c, queued, Received, map[])
  {
    hide HandlerStep, WorkerStep, OneJob;
  }

  lemma FirstStamp(c: Config)
    ensures var queued := OneJob(Pending, 0, None, 0);
            Apply(c, Attempt(c, queued, Received, map[]), Stamp(1, 0)) == Attempt(c, queued, Stamped(0), map[])
  {
    hide WorkerStep, OneJob;
  }

  lemma FirstClaim(c: Config)
    ensures var queued, running := OneJob(Pending, 0, None, 0), OneJob(Processing, 0, Some(0), 0);
            Apply(c, Attempt(c, queued, Stamped(0), map[]), Claim(1, 0)) == Attempt(c, running, Updated(true), map[1 := 1])
  {
    hide WorkerStep;
  }

  lemma FirstParse(c: Config)
    ensures var running := OneJob(Processing, 0, Some(0), 0);
            && Apply(c, Attempt(c, running, Updated(true), map[1 := 1]), Load(1, 0)) ==
               Attempt(c, running, Claimed(Snapshot()), map[1 := 1])
            && Apply(c, Attempt(c, running, Claimed(Snapshot()), map[1 := 1]), ReadDocument(1, false, 0)) ==
               Attempt(c, running, Parsing(Snapshot(), "x"), map[1 := 1])
            && Apply(c, Attempt(c, running, Parsing(Snapshot(), "x"), map[1 := 1]), Parse(1, Answer("p"), 0)) ==
               Attempt(c, running, Parsed(Snapshot(), "p"), map[1 := 1])
  {
    Text.TrimmedIsFixed("x");
    hide WorkerStep, Text.Trim;
  }

  lemma ReachParsed(c: Config) returns (s: State)
    ensures ReachableLate(c, s)
    ensures s == Attempt(c, OneJob(Processing, 0, Some(0), 0), Parsed(Snapshot(), "p"), map[1 := 1])
  {
    s := ReachJob(c);
    FirstStamp(c);
    FirstClaim(c);
    FirstParse(c);
    hide Apply, ReachableLate, OneJob, Snapshot;
    StepLate(c, s, Stamp(1, 0));
    s := Apply(c, s, Stamp(1, 0));
    StepLate(c, s, Claim(1, 0));
    s := Apply(c, s, Claim(1, 0));
    StepLate(c, s, Load(1, 0));
    s := Apply(c, s, Load(1, 0));
    StepLate(c, s, ReadDocument(1, false, 0));
    s := Apply(c, s, ReadDocument(1, false, 0));
    StepLate(c, s, Parse(1, Answer("p"), 0));
    s := Apply(c, s, Parse(1, Answer("p"), 0));
  }

  /** Both handlers, after the lease of the first has run out. */
  function Late(c: Config, db: Db, sweeps: map<nat, Sweep>, second: Option<Phase>, owners: map<nat, nat>): State {
    var first := map[1 := Handler(1, c.lease, Parsed(Snapshot(), "p"))];
    State(db, if second.None? then first else first[2 := Handler(1, 2 * c.lease + 1, second.value)],
          sweeps, map[], owners, c.lease + 1)
  }

  lemma StaleIsListed(c: Config)
    ensures ListStale(OneJob(Processing, 0, Some(0), 0), 1) == [Candidate(1, 0)]
  {
    var db := OneJob(Processing, 0, Some(0), 0);
    var stamps := StaleJobs(db, 1);
    assert 1 in stamps && stamps == map[1 := 0];
    assert First(stamps) == 1;
    assert stamps - {1} == map[];
    assert Select(stamps - {1}, BATCH - 1) == [];
    assert Select(stamps, BATCH) == [1];
  }

  lemma SweepBegins(c: Config)
    ensures var running := OneJob(Processing, 0, Some(0), 0);
            Apply(c, Attempt(c, running, Parsed(Snapshot(), "p"), map[1 := 1]), BeginSweep(0, c.lease + 1, c.lease + 1)) ==
            Late(c, running, map[0 := Sweep(1, [Candidate(1, 0)])], None, map[1 := 1])
  {
    StaleIsListed(c);
    hide HandlerStep, ListStale, OneJob, Snapshot;
  }

  lemma JobIsReset(c: Config)
    requires c.maxRecoveries >= 1
    ensures RecoverJob(OneJob(Processing, 0, Some(0), 0), 1, 0, 1, c.maxRecoveries, c.lease + 1) ==
            (OneJob(Pending, 1, None, c.lease + 1), 1)
  {
    var before, after := OneJob(Processing, 0, Some(0), 0), OneJob(Pending, 1, None, c.lease + 1);
    assert IsStale(before.jobs[1], 1);
    assert before.jobs[1 := after.jobs[1]] == after.jobs;
  }

  lemma Recovers(c: Config)
    requires c.maxRecoveries >= 1
    ensures Apply(c, Late(c, OneJob(Processing, 0, Some(0), 0), map[0 := Sweep(1, [Candidate(1, 0)])], None, map[1 := 1]),
                  Recover(0, c.lease + 1, c.lease + 1)) ==
            Late(c, OneJob(Pending, 1, None, c.lease + 1), map[0 := Sweep(1, [])], None, map[])
  {
    JobIsReset(c);
    hide HandlerStep, OneJob, Snapshot, RecoverJob;
    assert [Candidate(1, 0)][1..] == [];
    assert map[1 := 1] - {1} == map[];
  }

  lemma SecondReceipt(c: Config, db: Db, sweeps: map<nat, Sweep>)
    ensures Apply(c, Late(c, db, sweeps, None, map[]), Receive(2, 1, c.lease + 1)) ==
        Late(c, db, sweeps, Some(Received), map[])
    ensures Apply(c, Late(c, db, sweeps, Some(Received), map[]), Stamp(2, c.lease + 1)) ==
            Late(c, db, sweeps, Some(Stamped(c.lease + 1)), map[])
  {
    hide WorkerStep, Snapshot;
  }

  lemma SecondClaim(c: Config, sweeps: map<nat, Sweep>)
    ensures var queued, running := OneJob(Pending, 1, None, c.lease + 1), OneJob(Processing, 1, Some(c.lease + 1),
        c.lease + 1);
            Apply(c, Late(c, queued, sweeps, Some(Stamped(c.lease + 1)), map[]), Claim(2, c.lease + 1)) ==
            Late(c, running, sweeps, Some(Updated(true)), map[1 := 2])
  {
    hide WorkerStep, Snapshot;
  }

  lemma ReachLate(c: Config) returns (s: State)
    requires c.maxRecoveries >= 1 && c.lease > 0
    ensures ReachableLate(c, s)
    ensures s == Late(c, OneJob(Processing, 1, Some(c.lease + 1), c.lease + 1), map[0 := Sweep(1, [])], Some(Updated(true)),
                      map[1 := 2])
  {
    s := ReachParsed(c);
    SweepBegins(c);
    Recovers(c);
    SecondReceipt(c, OneJob(Pending, 1, None, c.lease + 1), map[0 := Sweep(1, [])]);
    SecondClaim(c, map[0 := Sweep(1, [])]);
    hide Apply, ReachableLate, OneJob, Snapshot, Late;
    StepLate(c, s, BeginSweep(0, c.lease + 1, c.lease + 1));
    s := Apply(c, s, BeginSweep(0, c.lease + 1, c.lease + 1));
    StepLate(c, s, Recover(0, c.lease + 1, c.lease + 1));
    s := Apply(c, s, Recover(0, c.lease + 1, c.lease + 1));
    StepLate(c, s, Receive(2, 1, c.lease + 1));
    s := Apply(c, s, Receive(2, 1, c.lease + 1));
    StepLate(c, s, Stamp(2, c.lease + 1));
    s := Apply(c, s, Stamp(2, c.lease + 1));
    StepLate(c, s, Claim(2, c.lease + 1));
    s := Apply(c, s, Claim(2, c.lease + 1));
  }

  /** Handler 1 is late, handler 2 owns the job and is within its deadline, and yet handler 1's completion closes the
      job. The result and the status still agree: what is lost is only the second attempt. */
  lemma LateCompletionClosesAnothersAttempt(c: Config) returns (s: State, a: Action)
    requires ValidConfig(c) && c.maxRecoveries >= 1
    ensures ReachableLate(c, s) && s.clock <= a.now && StampOf(a) <= a.now
    ensures a.Complete? && InPhase(s, a) && s.handlers[a.h].deadline < a.now
    ensures var j := s.handlers[a.h].jobId; var s' := Apply(c, s, a);
            && j in s.owners && s.owners[j] != a.h
            && s.owners[j] in s.handlers && Live(s.handlers[s.owners[j]], a.now)
            && a.h in s'.handlers && s'.handlers[a.h].phase == Ended(true)
            && j in s'.db.jobs && s'.db.jobs[j].status == Success && j !in s'.owners
  {
    s := ReachLate(c);
    a := Complete(1, c.lease + 1, c.lease + 1);
    LateCompletion(c);
    hide Apply, ReachableLate, OneJob, Snapshot;
  }

  lemma LateCompletion(c: Config)
    requires ValidConfig(c)
    ensures var s := Late(c, OneJob(Processing, 1, Some(c.lease + 1), c.lease + 1), map[0 := Sweep(1, [])],
                          Some(Updated(true)), map[1 := 2]);
            var s' := Apply(c, s, Complete(1, c.lease + 1, c.lease + 1));
            && 1 in s'.handlers && s'.handlers[1].phase == Ended(true)
            && 1 in s'.db.jobs && s'.db.jobs[1].status == Success && 1 !in s'.owners
  {
    hide WorkerStep;
  }
}
