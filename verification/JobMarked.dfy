/** Why reconcile fairness asks that no round has just published the job: a round that has, and whose message is lost,
    still marks the job and sends it to the back of the queue, unpublished by every round that is counted. */
module JobMarked {
  import opened Base
  import opened Oldest
  import opened ParseJobs
  import opened JobLease
  import opened JobFairness
  import opened JobClockRule
  import Text

  lemma {:induction false} TimedAppend(c: Config, s: State, actions: seq<Action>, a: Action)
    requires Timed(c, s, actions) && Legal(Exec(c, s, actions), a)
    ensures Timed(c, s, actions + [a]) && Exec(c, s, actions + [a]) == Apply(c, Exec(c, s, actions), a)
    decreases |actions|
  {
    hide Apply, Legal;
    if actions == [] {
      assert [a][1..] == [] && Timed(c, Apply(c, s, a), []) && actions + [a] == [a];
    } else {
      assert (actions + [a])[1..] == actions[1..] + [a];
      TimedAppend(c, Apply(c, s, actions[0]), actions[1..], a);
    }
  }

  /** A step of the API or of a worker. */
  lemma ReachStep(c: Config, s: State, a: Action) returns (s': State)
    requires Reachable(c, s) && s.clock <= a.now && StampOf(a) <= a.now && !IsHandlerStep(a)
    ensures s' == Apply(c, s, a) && Reachable(c, s') && s'.clock == a.now
  {
    ClockAfter(c, s, a);
    assert Legal(s, a);
    hide Apply, Legal, Timed, Exec;
    var clock, actions :| Timed(c, Init(clock), actions) && s == Exec(c, Init(clock), actions);
    TimedAppend(c, Init(clock), actions, a);
    s' := Apply(c, s, a);
  }

  // ---------- two pending jobs and two workers ----------

  function PendingJob(doc: nat, updatedAt: int): Job {
    Job(1, doc, Pending, 0, None, None, None, updatedAt)
  }

  function Docs(n: nat): map<nat, Document> {
    if n == 0 then map[] else if n == 1 then map[1 := DOC] else map[1 := DOC, 2 := DOC]
  }

  function Posted(docs: nat, jobs: map<nat, Job>, nextDoc: nat, nextJob: nat): State {
    State(Db(Docs(docs), jobs, map[], nextDoc, nextJob, 1), map[], map[], map[], map[], 0)
  }

  function TwoJobs(first: int, second: int, rounds: map<nat, Round>, clock: int): State {
    State(Db(Docs(2), map[1 := PendingJob(1, first), 2 := PendingJob(2, second)], map[], 3, 3, 1),
          map[], map[], rounds, map[], clock)
  }

  lemma PostsDocuments(c: Config)
    ensures Apply(c, Init(0), PostText(1, "x", "x", 0)) == Posted(1, map[], 2, 1)
    ensures Apply(c, Posted(1, map[], 2, 1), PostText(1, "x", "x", 0)) == Posted(2, map[], 3, 1)
  {
    Text.TrimmedIsFixed("x");
    hide HandlerStep, WorkerStep, Text.Trim;
  }

  lemma FirstJob(c: Config)
    ensures Apply(c, Posted(2, map[], 3, 1), PostJob(1, 1, 0, 0)) == Posted(2, map[1 := PendingJob(1, 0)], 3, 2)
  {
    hide HandlerStep, WorkerStep;
  }

  lemma SecondJob(c: Config)
    ensures Apply(c, Posted(2, map[1 := PendingJob(1, 0)], 3, 2), PostJob(1, 2, 0, 0)) == TwoJobs(0, 0, map[], 0)
  {
    hide HandlerStep, WorkerStep;
    assert map[1 := PendingJob(1, 0)][2 := PendingJob(2, 0)] == map[1 := PendingJob(1, 0), 2 := PendingJob(2, 0)];
  }

  lemma BothListed(rounds: map<nat, Round>, clock: int)
    ensures ListPending(TwoJobs(0, 0, rounds, clock).db, 1) == [1, 2]
  {
    var stamps := StalePending(TwoJobs(0, 0, rounds, clock).db, 1);
    assert 1 in stamps && 2 in stamps && stamps == map[1 := 0, 2 := 0];
    assert First(stamps) == 1;
    var rest := stamps - {1};
    assert 2 in rest && rest == map[2 := 0];
    assert First(rest) == 2;
    assert rest - {2} == map[];
    assert Select(rest - {2}, BATCH - 2) == [];
    assert Select(rest, BATCH - 1) == [2];
  }

  lemma SecondListed(first: int, rounds: map<nat, Round>, clock: int)
    requires first >= 1
    ensures ListPending(TwoJobs(first, 0, rounds, clock).db, 1) == [2]
  {
    var stamps := StalePending(TwoJobs(first, 0, rounds, clock).db, 1);
    assert 2 in stamps && stamps == map[2 := 0];
    assert First(stamps) == 2;
    assert stamps - {2} == map[];
    assert Select(stamps - {2}, BATCH - 1) == [];
  }

  const LISTED := Round(1, [1, 2], 0, false)
  const SENT := Round(1, [1, 2], 0, true)
  const MARKED := Round(1, [1, 2], 1, false)

  lemma FirstRound(c: Config)
    ensures var t := c.pendingGrace + 1;
            && Apply(c, TwoJobs(0, 0, map[], 0), BeginRound(0, t, t)) == TwoJobs(0, 0, map[0 := LISTED], t)
            && Apply(c, TwoJobs(0, 0, map[0 := LISTED], t), Publish(0, t)) == TwoJobs(0, 0, map[0 := SENT], t)
  {
    BothListed(map[], 0);
    hide HandlerStep, ListPending, Docs;
  }

  lemma MarksFirst(c: Config)
    requires ValidConfig(c)
    ensures var t := c.pendingGrace + 1;
            Apply(c, TwoJobs(0, 0, map[0 := SENT], t), Touch(0, t, t)) == TwoJobs(t, 0, map[0 := MARKED], t)
  {
    hide HandlerStep, ListPending, Docs;
    var t := c.pendingGrace + 1;
    var jobs := map[1 := PendingJob(1, 0), 2 := PendingJob(2, 0)];
    assert jobs[1 := PendingJob(1, t)] == map[1 := PendingJob(1, t), 2 := PendingJob(2, 0)];
    assert map[0 := SENT][0 := MARKED] == map[0 := MARKED];
  }

  function Second(done: nat, sent: bool): map<nat, Round> {
    map[0 := MARKED, 1 := Round(1, [2], done, sent)]
  }

  lemma SecondBegins(c: Config)
    requires ValidConfig(c)
    ensures var t := c.pendingGrace + 1;
            Apply(c, TwoJobs(t, 0, map[0 := MARKED], t), BeginRound(1, t, t)) == TwoJobs(t, 0, Second(0, false), t)
  {
    var t := c.pendingGrace + 1;
    SecondListed(t, map[0 := MARKED], t);
    hide HandlerStep, ListPending, Docs, PendingJob;
    assert map[0 := MARKED][1 := Round(1, [2], 0, false)] == Second(0, false);
  }

  lemma SecondPublishes(c: Config)
    ensures var t := c.pendingGrace + 1;
            Apply(c, TwoJobs(t, 0, Second(0, false), t), Publish(1, t)) == TwoJobs(t, 0, Second(0, true), t)
  {
    hide HandlerStep, ListPending, Docs, PendingJob;
    assert Second(0, false)[1 := Round(1, [2], 0, true)] == Second(0, true);
  }

  lemma SecondMarks(c: Config)
    requires ValidConfig(c)
    ensures var t := c.pendingGrace + 1;
            Apply(c, TwoJobs(t, 0, Second(0, true), t), Touch(1, t, t)) == TwoJobs(t, t, Second(1, false), t)
  {
    hide HandlerStep, ListPending, Docs;
    var t := c.pendingGrace + 1;
    var jobs := map[1 := PendingJob(1, t), 2 := PendingJob(2, 0)];
    assert jobs[2 := PendingJob(2, t)] == map[1 := PendingJob(1, t), 2 := PendingJob(2, t)];
    assert Second(0, true)[1 := Round(1, [2], 1, false)] == Second(1, false);
  }

  lemma ReachInit(c: Config) returns (s: State)
    ensures s == Init(0) && s.clock == 0 && Reachable(c, s)
  {
    s := Init(0);
    assert Timed(c, Init(0), []) && s == Exec(c, Init(0), []);
  }

  lemma ReachTwoJobs(c: Config) returns (s: State)
    ensures Reachable(c, s) && s == TwoJobs(0, 0, map[], 0) && s.clock == 0
  {
    s := ReachInit(c);
    PostsDocuments(c);
    FirstJob(c);
    SecondJob(c);
    hide Reachable, Apply, Docs, PendingJob, Posted, TwoJobs;
    s := ReachStep(c, s, PostText(1, "x", "x", 0));
    s := ReachStep(c, s, PostText(1, "x", "x", 0));
    s := ReachStep(c, s, PostJob(1, 1, 0, 0));
    s := ReachStep(c, s, PostJob(1, 2, 0, 0));
  }

  lemma ReachSent(c: Config, t: int) returns (s: State)
    requires t == c.pendingGrace + 1 && t > 0
    ensures Reachable(c, s) && s == TwoJobs(0, 0, map[0 := SENT], t)
  {
    s := ReachTwoJobs(c);
    FirstRound(c);
    hide Reachable, Apply, Docs, PendingJob, TwoJobs;
    s := ReachStep(c, s, BeginRound(0, t, t));
    s := ReachStep(c, s, Publish(0, t));
  }

  /** Job 1 is stale and first in the queue, and worker 1 finishes the round that is due for it, but only worker 0's mark
      of an earlier publication reaches it. */
  lemma MarkedNotPublished(c: Config) returns (s: State, actions: seq<Action>)
    requires ValidConfig(c)
    ensures Reachable(c, s) && Stale(c, s, 1, 0) && Idle(s, 1) && Timed(c, s, actions) && AllPrompt(actions, 0)
    ensures RoundsDone(c, s, actions, 1) >= |Ahead(s, 1)| / 100 + 1
    ensures !Unsent(s, 1) && !PublishedOrLeft(c, s, actions, 1)
  {
    s := ReachSent(c, c.pendingGrace + 1);
    assert Ahead(s, 1) == {};
    assert 0 in s.rounds && s.rounds[0].sent && !Idle(s, 0);
    actions := RunOn(c);
  }

  /** What the run shows from a state on. */
  ghost predicate Unpublished(c: Config, s: State, actions: seq<Action>, rounds: nat) {
    && Timed(c, s, actions) && AllPrompt(actions, 0)
    && RoundsDone(c, s, actions, 1) >= rounds && !PublishedOrLeft(c, s, actions, 1)
  }

  lemma RunOn(c: Config) returns (actions: seq<Action>)
    requires ValidConfig(c)
    ensures Unpublished(c, TwoJobs(0, 0, map[0 := SENT], c.pendingGrace + 1), actions, 1)
  {
    var t := c.pendingGrace + 1;
    MarksFirst(c);
    actions := SecondRound(c);
    hide Unpublished, Apply;
    RunFirst(c, TwoJobs(0, 0, map[0 := SENT], t), Touch(0, t, t), actions, 1);
    actions := [Touch(0, t, t)] + actions;
  }

  lemma SecondRound(c: Config) returns (actions: seq<Action>)
    requires ValidConfig(c)
    ensures Unpublished(c, TwoJobs(c.pendingGrace + 1, 0, map[0 := MARKED], c.pendingGrace + 1), actions, 1)
  {
    var t := c.pendingGrace + 1;
    SecondBegins(c);
    SecondPublishes(c);
    actions := SecondEnds(c);
    hide Unpublished, Apply;
    RunFirst(c, TwoJobs(t, 0, Second(0, false), t), Publish(1, t), actions, 1);
    actions := [Publish(1, t)] + actions;
    RunFirst(c, TwoJobs(t, 0, map[0 := MARKED], t), BeginRound(1, t, t), actions, 1);
    actions := [BeginRound(1, t, t)] + actions;
  }

  lemma SecondEnds(c: Config) returns (actions: seq<Action>)
    requires ValidConfig(c)
    ensures Unpublished(c, TwoJobs(c.pendingGrace + 1, 0, Second(0, true), c.pendingGrace + 1), actions, 1)
  {
    var t := c.pendingGrace + 1;
    SecondMarks(c);
    RunEnds(c, TwoJobs(t, t, Second(1, false), t));
    hide Unpublished, Apply;
    RunFirst(c, TwoJobs(t, 0, Second(0, true), t), Touch(1, t, t), [], 0);
    actions := [Touch(1, t, t)] + [];
  }

  lemma RunEnds(c: Config, s: State)
    ensures IsPending(s, 1) ==> Unpublished(c, s, [], 0)
  {}

  lemma RunFirst(c: Config, s: State, a: Action, rest: seq<Action>, rounds: nat)
    requires Legal(s, a) && Prompt(a, 0) && IsPending(s, 1) && !Publishes(s, a, 1)
    requires Unpublished(c, Apply(c, s, a), rest, rounds)
    ensures Unpublished(c, s, [a] + rest, (if FinishesRound(s, a, 1) then 1 else 0) + rounds)
    ensures Unpublished(c, s, [a] + rest, rounds)
  {
    hide Apply, Legal, Prompt, IsPending, Publishes, FinishesRound;
    assert ([a] + rest)[1..] == rest && ([a] + rest)[0] == a;
  }
}
