/** The guard of the AI chat for one user: a rate window and an owner lock with a time to live, and the streams that
    hold the lock from the acquiring script to the releasing one. The owner is the request id, which the client chooses;
    nothing keeps it from being used again. */
module ChatGuard {
  import opened Base
  import opened Limiter
  import opened Sequences

  datatype Lock = Free | Held(owner: string, expiresAt: int)

  datatype Guard = Guard(rate: Key, lock: Lock)

  predicate Locked(lock: Lock, now: int) {
    lock.Held? && now < lock.expiresAt
  }

  function AcquireScript(guard: Guard, now: int, window: int, limit: int, owner: string, lockTTL: int): (Guard, Reply) {
    if Locked(guard.lock, now) then (guard, Reply(false, 1))
    else
      var (rate, reply) := AllowScript(guard.rate, now, window, limit, owner);
      (Guard(rate, if reply.allowed then Held(owner, now + lockTTL) else Free), reply)
  }

  function ReleaseScript(guard: Guard, now: int, owner: string): Guard {
    if Locked(guard.lock, now) && guard.lock.owner == owner then guard.(lock := Free) else guard
  }

  // ---------- streams ----------

  /** Acquired: the script has answered. Running: the stream's context exists, until its deadline or until it is
      cancelled; past its deadline it may still wait in a send. Released comes after Cancelled, however late. */
  datatype Phase = Acquired | Running(deadline: int) | Cancelled | Released

  /** One admission, and the stream it started. */
  datatype Stream = Stream(owner: string, at: int, phase: Phase)

  datatype Config = Config(window: int, limit: int, lockTTL: int, startDelay: int, timeout: int)

  predicate ValidConfig(c: Config) {
    c.window > 0 && c.limit > 0 && c.timeout > 0 && c.startDelay >= 0 && c.lockTTL > 0
  }

  /** A stream ends before its lock can expire. */
  predicate LockOutlastsStream(c: Config) {
    c.startDelay + c.timeout <= c.lockTTL
  }

  /** At most one stream is admitted in the time that a stream may run. */
  predicate OneAtATime(c: Config) {
    c.limit == 1 && c.startDelay + c.timeout <= c.window
  }

  /** All streams there ever were, in the order of their admissions. */
  datatype State = State(guard: Guard, streams: seq<Stream>, clock: int)

  datatype Action =
    | Acquire(owner: string, now: int)
    | Start(i: nat, now: int)
    | Cancel(i: nat, now: int)
    | Release(i: nat, now: int)

  function SetPhase(s: State, i: nat, phase: Phase): State
    requires i < |s.streams|
  {
    s.(streams := s.streams[i := s.streams[i].(phase := phase)])
  }

  function Apply(c: Config, s: State, a: Action): State {
    var s' :=
      match a
      case Acquire(owner, now) =>
        var (guard, reply) := AcquireScript(s.guard, now, c.window, c.limit, owner, c.lockTTL);
        if reply.allowed then State(guard, s.streams + [Stream(owner, now, Acquired)], s.clock) else s.(guard := guard)
      case Start(i, now) =>
        if i < |s.streams| && s.streams[i].phase.Acquired? then SetPhase(s, i, Running(now + c.timeout)) else s
      case Cancel(i, _) =>
        if i < |s.streams| && s.streams[i].phase.Running? then SetPhase(s, i, Cancelled) else s
      case Release(i, now) =>
        if i < |s.streams| && s.streams[i].phase.Cancelled? then
          SetPhase(s, i, Released).(guard := ReleaseScript(s.guard, now, s.streams[i].owner))
        else s;
    s'.(clock := a.now)
  }

  function Exec(c: Config, s: State, actions: seq<Action>): State
    decreases |actions|
  {
    if actions == [] then s else Exec(c, Apply(c, s, actions[0]), actions[1..])
  }

  function Init(clock: int): State {
    State(Guard(Absent, Free), [], clock)
  }

  /** One clock, and at most startDelay from the script to the context. */
  predicate Legal(c: Config, s: State, a: Action) {
    && s.clock <= a.now
    && (a.Start? && a.i < |s.streams| ==> a.now <= s.streams[a.i].at + c.startDelay)
  }

  /** No request id is used again before its stream has been released. */
  predicate Unshared(streams: seq<Stream>) {
    forall i, j | 0 <= i < j < |streams| && streams[i].owner == streams[j].owner ::
      streams[i].phase.Released? || streams[j].phase.Released?
  }

  /** `unshared` asks that clients keep to that rule. */
  predicate Timed(c: Config, s: State, actions: seq<Action>, unshared: bool)
    decreases |actions|
  {
    (unshared ==> Unshared(s.streams)) &&
    (actions == [] || (Legal(c, s, actions[0]) && Timed(c, Apply(c, s, actions[0]), actions[1..], unshared)))
  }

  ghost predicate Reachable(c: Config, s: State, unshared: bool) {
    exists clock, actions :: Timed(c, Init(clock), actions, unshared) && s == Exec(c, Init(clock), actions)
  }

  // ---------- admissions ----------

  /** The owners admitted in the interval (t - window, t], once for each admission. */
  function Admitted(streams: seq<Stream>, t: int, window: int): seq<string> {
    if streams == [] then []
    else
      var last := streams[|streams| - 1];
      Admitted(streams[..|streams| - 1], t, window) + (if t - window < last.at <= t then [last.owner] else [])
  }

  function Owners(streams: seq<Stream>, t: int, window: int): set<string> {
    set x | x in Admitted(streams, t, window)
  }

  /** The last admission of each owner. */
  function Latest(streams: seq<Stream>): Scores {
    if streams == [] then map[]
    else
      var last := streams[|streams| - 1];
      Latest(streams[..|streams| - 1])[last.owner := last.at]
  }

  predicate InOrder(streams: seq<Stream>, clock: int) {
    (forall i, j | 0 <= i < j < |streams| :: streams[i].at <= streams[j].at) &&
    (forall i | 0 <= i < |streams| :: streams[i].at <= clock)
  }

  lemma AdmittedSnoc(streams: seq<Stream>, stream: Stream, t: int, window: int)
    ensures Admitted(streams + [stream], t, window) ==
            if t - window < stream.at <= t then Admitted(streams, t, window) + [stream.owner]
            else Admitted(streams, t, window)
    ensures Latest(streams + [stream]) == Latest(streams)[stream.owner := stream.at]
  {
    assert (streams + [stream])[..|streams|] == streams;
  }

  lemma {:induction false} SamePlaces(streams: seq<Stream>, streams': seq<Stream>, t: int, window: int)
    requires |streams'| == |streams|
    requires forall i | 0 <= i < |streams| :: streams'[i].owner == streams[i].owner && streams'[i].at == streams[i].at
    ensures Admitted(streams', t, window) == Admitted(streams, t, window) && Latest(streams') == Latest(streams)
  {
    if streams != [] {
      SamePlaces(streams[..|streams| - 1], streams'[..|streams| - 1], t, window);
    }
  }

  /** The pruned set's members are the owners of the last window. */
  lemma {:induction false} OwnersAreLatest(streams: seq<Stream>, t: int, window: int)
    requires InOrder(streams, t)
    ensures Owners(streams, t, window) == Newer(Latest(streams), t - window).Keys
    ensures forall o | o in Latest(streams) :: Latest(streams)[o] <= t
  {
    if streams != [] {
      var front, last := streams[..|streams| - 1], streams[|streams| - 1];
      assert streams == front + [last];
      OwnersAreLatest(front, t, window);
      LatestBefore(front, last.at);
      AdmittedSnoc(front, last, t, window);
      hide Latest, Admitted;
      forall o ensures o in Owners(streams, t, window) <==> o in Newer(Latest(streams), t - window) {
        assert o in Owners(front, t, window) <==> o in Newer(Latest(front), t - window);
      }
    }
  }

  lemma {:induction false} LatestBefore(streams: seq<Stream>, t: int)
    requires forall i | 0 <= i < |streams| :: streams[i].at <= t
    ensures forall o | o in Latest(streams) :: Latest(streams)[o] <= t
  {
    if streams != [] {
      LatestBefore(streams[..|streams| - 1], t);
    }
  }

  /** Members seen in a window are at most all owners admitted in it. */
  lemma {:induction false} LatestWithin(streams: seq<Stream>, t: int, window: int)
    ensures Within(Latest(streams), t, window) <= Owners(streams, t, window)
  {
    if streams != [] {
      var front, last := streams[..|streams| - 1], streams[|streams| - 1];
      LatestWithin(front, t, window);
      forall o | o in Within(Latest(streams), t, window) ensures o in Owners(streams, t, window) {
        assert o == last.owner || o in Within(Latest(front), t, window);
        assert o in Owners(front, t, window) ==> o in Admitted(front, t, window);
      }
    }
  }

  // ---------- invariant ----------

  ghost predicate OwnersBounded(c: Config, streams: seq<Stream>) {
    forall t: int :: |Owners(streams, t, c.window)| <= c.limit
  }

  /** With a limit of one, admissions are a window apart, whoever makes them. */
  predicate Spaced(c: Config, streams: seq<Stream>) {
    c.limit == 1 ==> forall i, j | 0 <= i < j < |streams| :: streams[i].at + c.window <= streams[j].at
  }

  predicate DeadlinesOk(c: Config, streams: seq<Stream>) {
    forall i | 0 <= i < |streams| && streams[i].phase.Running? ::
      streams[i].phase.deadline <= streams[i].at + c.startDelay + c.timeout
  }

  ghost predicate Counted(c: Config, s: State) {
    && InOrder(s.streams, s.clock)
    && Represents(s.guard.rate, Latest(s.streams), s.clock, c.window)
    && OwnersBounded(c, s.streams)
    && Spaced(c, s.streams)
    && DeadlinesOk(c, s.streams)
  }

  /** The lock is this stream's owner's, and lasts past the time the stream may still run. */
  predicate Holds(c: Config, lock: Lock, clock: int, stream: Stream) {
    && (stream.phase.Acquired? && clock <= stream.at + c.startDelay ==> lock == Held(stream.owner, stream.at + c.lockTTL))
    && (stream.phase.Running? && clock < stream.phase.deadline ==>
          lock.Held? && lock.owner == stream.owner && stream.phase.deadline <= lock.expiresAt)
  }

  predicate LockHeld(c: Config, s: State) {
    forall i | 0 <= i < |s.streams| :: Holds(c, s.guard.lock, s.clock, s.streams[i])
  }

  lemma Aging(key: Key, log: Scores, last: int, window: int, now: int)
    requires Represents(key, log, last, window) && last <= now
    ensures Represents(key, log, now, window)
  {
  }

  lemma LogOutcome(log: Scores, now: int, window: int, limit: int, member: string)
    ensures var (log', allowed) := LogAllow(log, now, window, limit, member);
            && log' == (if allowed then log[member := now] else log)
            && (allowed <==> |Newer(log, now - window).Keys| < limit)
  {
  }

  /** An admission keeps the bound on the owners of every window: a window that shows it shows, besides it, only owners
      that the script has just counted. */
  lemma AdmissionKeepsOwners(c: Config, streams: seq<Stream>, owner: string, now: int)
    requires InOrder(streams, now) && OwnersBounded(c, streams) && |Owners(streams, now, c.window)| < c.limit
    ensures OwnersBounded(c, streams + [Stream(owner, now, Acquired)])
  {
    hide Admitted;
    var streams' := streams + [Stream(owner, now, Acquired)];
    forall t: int ensures |Owners(streams', t, c.window)| <= c.limit {
      AdmittedSnoc(streams, Stream(owner, now, Acquired), t, c.window);
      if t - c.window < now <= t {
        LaterWindow(streams, now, t, c.window);
        SmallerSet(Owners(streams', t, c.window), Owners(streams, now, c.window) + {owner});
      } else {
        assert Owners(streams', t, c.window) == Owners(streams, t, c.window);
      }
    }
  }

  lemma {:induction false} LaterWindow(streams: seq<Stream>, now: int, t: int, window: int)
    requires InOrder(streams, now) && now <= t
    ensures Owners(streams, t, window) <= Owners(streams, now, window)
  {
    if streams != [] {
      var front := streams[..|streams| - 1];
      LaterWindow(front, now, t, window);
      forall o | o in Owners(streams, t, window) ensures o in Owners(streams, now, window) {
        assert o in Admitted(front, t, window) ==> o in Owners(front, t, window) && o in Owners(front, now, window);
      }
    }
  }

  /** With a limit of one, the script admits only when the last window is empty. */
  lemma AdmissionKeepsSpace(c: Config, streams: seq<Stream>, owner: string, now: int)
    requires InOrder(streams, now) && Spaced(c, streams) && |Owners(streams, now, c.window)| < c.limit
    ensures Spaced(c, streams + [Stream(owner, now, Acquired)])
  {
    if c.limit == 1 {
      forall i | 0 <= i < |streams| ensures streams[i].at + c.window <= now {
        if now - c.window < streams[i].at {
          AdmittedMember(streams, i, now, c.window);
          NotEmpty(Owners(streams, now, c.window), streams[i].owner);
        }
      }
    }
  }

  lemma NotEmpty(s: set<string>, x: string)
    ensures x in s ==> |s| > 0
  {}

  lemma {:induction false} AdmittedMember(streams: seq<Stream>, i: nat, t: int, window: int)
    requires i < |streams| && t - window < streams[i].at <= t
    ensures streams[i].owner in Admitted(streams, t, window)
  {
    if i < |streams| - 1 {
      AdmittedMember(streams[..|streams| - 1], i, t, window);
    }
  }

  lemma AcquireCounted(c: Config, s: State, owner: string, now: int)
    requires ValidConfig(c) && Counted(c, s) && s.clock <= now
    ensures Counted(c, Apply(c, s, Acquire(owner, now)))
  {
    hide AllowScript, LogAllow, Represents, OwnersBounded, Spaced, Latest, Admitted;
    Aging(s.guard.rate, Latest(s.streams), s.clock, c.window, now);
    if !Locked(s.guard.lock, now) {
      StepRepresents(s.guard.rate, Latest(s.streams), s.clock, c.window, c.limit, Call(now, owner));
      LogOutcome(Latest(s.streams), now, c.window, c.limit, owner);
      OwnersAreLatest(s.streams, now, c.window);
      AdmittedSnoc(s.streams, Stream(owner, now, Acquired), now, c.window);
      if |Owners(s.streams, now, c.window)| < c.limit {
        AdmissionKeepsOwners(c, s.streams, owner, now);
        AdmissionKeepsSpace(c, s.streams, owner, now);
      }
    }
  }

  lemma PhaseCounted(c: Config, s: State, a: Action)
    requires ValidConfig(c) && Counted(c, s) && Legal(c, s, a) && !a.Acquire?
    ensures Counted(c, Apply(c, s, a))
  {
    hide Represents, Latest, Admitted;
    var s' := Apply(c, s, a);
    Aging(s.guard.rate, Latest(s.streams), s.clock, c.window, a.now);
    forall t: int ensures Owners(s'.streams, t, c.window) == Owners(s.streams, t, c.window) {
      SamePlaces(s.streams, s'.streams, t, c.window);
    }
    SamePlaces(s.streams, s'.streams, 0, c.window);
  }

  lemma StepHeld(c: Config, s: State, a: Action)
    requires ValidConfig(c) && LockOutlastsStream(c) && DeadlinesOk(c, s.streams) && LockHeld(c, s) && Legal(c, s, a)
    requires Unshared(s.streams)
    ensures LockHeld(c, Apply(c, s, a))
  {
    hide AllowScript;
    var s' := Apply(c, s, a);
    forall i | 0 <= i < |s'.streams| ensures Holds(c, s'.guard.lock, s'.clock, s'.streams[i]) {
      assert i < |s.streams| ==> Holds(c, s.guard.lock, s.clock, s.streams[i]);
    }
  }

  lemma {:induction false} RunCounted(c: Config, s: State, actions: seq<Action>, unshared: bool)
    requires ValidConfig(c) && Counted(c, s) && Timed(c, s, actions, unshared)
    ensures Counted(c, Exec(c, s, actions))
    decreases |actions|
  {
    hide Counted, Apply, Legal, Unshared;
    if actions != [] {
      if actions[0].Acquire? {
        assert s.clock <= actions[0].now by { LegalClock(c, s, actions[0]); }
        AcquireCounted(c, s, actions[0].owner, actions[0].now);
      } else {
        PhaseCounted(c, s, actions[0]);
      }
      RunCounted(c, Apply(c, s, actions[0]), actions[1..], unshared);
    }
  }

  lemma LegalClock(c: Config, s: State, a: Action)
    requires Legal(c, s, a)
    ensures s.clock <= a.now
  {}

  lemma {:induction false} RunHeld(c: Config, s: State, actions: seq<Action>)
    requires ValidConfig(c) && LockOutlastsStream(c) && Counted(c, s) && LockHeld(c, s) && Timed(c, s, actions, true)
    ensures LockHeld(c, Exec(c, s, actions)) && Unshared(Exec(c, s, actions).streams)
    decreases |actions|
  {
    hide LockHeld, Apply, Unshared, InOrder, Represents, OwnersBounded, Spaced, DeadlinesOk, Legal;
    if actions != [] {
      StepHeld(c, s, actions[0]);
      RunCounted(c, s, [actions[0]], false);
      assert Exec(c, Apply(c, s, actions[0]), []) == Apply(c, s, actions[0]);
      assert [actions[0]][1..] == [];
      RunHeld(c, Apply(c, s, actions[0]), actions[1..]);
    }
  }

  lemma ReachableCounted(c: Config, s: State, unshared: bool)
    requires ValidConfig(c) && Reachable(c, s, unshared)
    ensures Counted(c, s)
    ensures unshared && LockOutlastsStream(c) ==> LockHeld(c, s) && Unshared(s.streams)
  {
    hide Timed, Exec;
    var clock, actions :| Timed(c, Init(clock), actions, unshared) && s == Exec(c, Init(clock), actions);
    RunCounted(c, Init(clock), actions, unshared);
    if unshared && LockOutlastsStream(c) {
      RunHeld(c, Init(clock), actions);
    }
  }

  // ---------- main results: admissions ----------

  /** Whatever request ids are used, the script decides by the number of distinct ids admitted in the last window, and
      no window ever shows more than `limit` of them. */
  lemma GuardCountsOwners(c: Config, s: State, unshared: bool, owner: string, now: int, t: int)
    requires ValidConfig(c) && Reachable(c, s, unshared) && s.clock <= now
    ensures AcquireScript(s.guard, now, c.window, c.limit, owner, c.lockTTL).1.allowed <==>
              !Locked(s.guard.lock, now) && |Owners(s.streams, now, c.window)| < c.limit
    ensures |Owners(s.streams, t, c.window)| <= c.limit
  {
    hide Represents, AllowScript, LogAllow, Latest, Admitted;
    ReachableCounted(c, s, unshared);
    Aging(s.guard.rate, Latest(s.streams), s.clock, c.window, now);
    StepRepresents(s.guard.rate, Latest(s.streams), s.clock, c.window, c.limit, Call(now, owner));
    LogOutcome(Latest(s.streams), now, c.window, c.limit, owner);
    OwnersAreLatest(s.streams, now, c.window);
  }

  /** That number is the number of admissions exactly when no id was admitted twice in the window; then the limit also
      bounds the admissions. */
  lemma CountsEveryAdmissionIff(c: Config, s: State, unshared: bool, t: int)
    requires ValidConfig(c) && Reachable(c, s, unshared)
    ensures |Owners(s.streams, t, c.window)| == |Admitted(s.streams, t, c.window)| <==>
            NoRepeats(Admitted(s.streams, t, c.window))
    ensures NoRepeats(Admitted(s.streams, t, c.window)) ==> |Admitted(s.streams, t, c.window)| <= c.limit
  {
    hide Represents, Admitted;
    ReachableCounted(c, s, unshared);
    CountIff(Admitted(s.streams, t, c.window));
  }

  /** For arbitrary ids, released or not before they are used again, the admissions of a window stay within the limit
      exactly when the limit is one. */
  lemma AdmissionsBoundedIff(c: Config, unshared: bool)
    requires ValidConfig(c)
    ensures (forall s, t: int | Reachable(c, s, unshared) :: |Admitted(s.streams, t, c.window)| <= c.limit) <==> c.limit == 1
  {
    hide Reachable, Admitted;
    if c.limit == 1 {
      forall s, t: int | Reachable(c, s, unshared) ensures |Admitted(s.streams, t, c.window)| <= c.limit {
        ReachableCounted(c, s, unshared);
        SpacedAdmissions(c, s.streams, t);
      }
    } else {
      var s := RepeatedOwner(c, c.limit + 1, unshared);
      assert |Admitted(s.streams, 0, c.window)| > c.limit;
    }
  }

  lemma {:induction false} SpacedAdmissions(c: Config, streams: seq<Stream>, t: int)
    requires Spaced(c, streams) && c.limit == 1
    ensures |Admitted(streams, t, c.window)| <= 1
  {
    if streams != [] {
      var front, last := streams[..|streams| - 1], streams[|streams| - 1];
      SpacedAdmissions(c, front, t);
      if t - c.window < last.at <= t {
        NothingBefore(front, t, c.window);
      }
    }
  }

  lemma {:induction false} NothingBefore(streams: seq<Stream>, t: int, window: int)
    ensures (forall i | 0 <= i < |streams| :: streams[i].at <= t - window) ==> Admitted(streams, t, window) == []
  {
    if streams != [] {
      NothingBefore(streams[..|streams| - 1], t, window);
    }
  }

  // ---------- runs ----------

  lemma {:induction false} ExecAppend(c: Config, s: State, actions: seq<Action>, a: Action, unshared: bool)
    requires Timed(c, s, actions, unshared)
    requires var end := Exec(c, s, actions); Legal(c, end, a) && (unshared ==> Unshared(Apply(c, end, a).streams))
    ensures Timed(c, s, actions + [a], unshared) && Exec(c, s, actions + [a]) == Apply(c, Exec(c, s, actions), a)
    decreases |actions|
  {
    hide Apply, Legal, Unshared;
    if actions == [] {
      assert [a][1..] == [] && Timed(c, Apply(c, s, a), [], unshared);
      assert actions + [a] == [a];
    } else {
      assert (actions + [a])[1..] == actions[1..] + [a];
      ExecAppend(c, Apply(c, s, actions[0]), actions[1..], a, unshared);
    }
  }

  lemma ReachStep(c: Config, s: State, a: Action, unshared: bool) returns (s': State)
    requires Reachable(c, s, unshared) && Legal(c, s, a) && (unshared ==> Unshared(Apply(c, s, a).streams))
    ensures s' == Apply(c, s, a) && Reachable(c, s', unshared)
  {
    hide Apply, Legal, Unshared, Timed, Exec;
    var clock, actions :| Timed(c, Init(clock), actions, unshared) && s == Exec(c, Init(clock), actions);
    ExecAppend(c, Init(clock), actions, a, unshared);
    s' := Apply(c, s, a);
  }

  lemma ReachInit(c: Config, unshared: bool) returns (s: State)
    ensures s == Init(0) && Reachable(c, s, unshared)
  {
    s := Init(0);
    assert Timed(c, Init(0), [], unshared) && s == Exec(c, Init(0), []);
  }

  /** The rate key after the admissions of one owner. */
  function OneMember(owner: string, at: int, window: int): Key {
    Present(map[owner := at], at + window)
  }

  lemma AdmittedAlone(rate: Key, owner: string, now: int, window: int, limit: int)
    requires limit > 0 && window > 0
    requires Newer(Visible(rate, now), now - window).Keys <= {owner}
    requires limit > 1 || Newer(Visible(rate, now), now - window) == map[]
    ensures AllowScript(rate, now, window, limit, owner) == (OneMember(owner, now, window), Reply(true, 0))
  {
    var recent := Newer(Visible(rate, now), now - window);
    SmallerSet(recent.Keys, {owner});
    assert recent[owner := now] == map[owner := now];
  }

  /** An owner's streams, all admitted at time 0 and released. */
  function Past(n: nat): seq<Stream> {
    seq(n, _ => Stream("a", 0, Released))
  }

  function PastState(c: Config, rate: Key, n: nat, lock: Lock, phase: Phase): State {
    State(Guard(rate, lock), Past(n) + [Stream("a", 0, phase)], 0)
  }

  lemma OneRound(c: Config, rate: Key, n: nat)
    requires ValidConfig(c) && AllowScript(rate, 0, c.window, c.limit, "a") == (OneMember("a", 0, c.window), Reply(true, 0))
    ensures var after := OneMember("a", 0, c.window); var lock := Held("a", c.lockTTL);
            && Apply(c, State(Guard(rate, Free), Past(n), 0), Acquire("a", 0)) == PastState(c, after, n, lock, Acquired)
            && Apply(c, PastState(c, after, n, lock, Acquired), Start(n, 0)) ==
               PastState(c, after, n, lock, Running(c.timeout))
            && Apply(c, PastState(c, after, n, lock, Running(c.timeout)), Cancel(n, 0)) ==
               PastState(c, after, n, lock, Cancelled)
            && Apply(c, PastState(c, after, n, lock, Cancelled), Release(n, 0)) == State(Guard(after, Free), Past(n + 1), 0)
  {
    hide AllowScript;
    assert Past(n) + [Stream("a", 0, Released)] == Past(n + 1);
  }

  lemma PastUnshared(n: nat, phase: Phase)
    ensures Unshared(Past(n)) && Unshared(Past(n) + [Stream("a", 0, phase)])
  {}

  lemma {:induction false} PastAdmitted(n: nat, window: int)
    requires window > 0
    ensures |Admitted(Past(n), 0, window)| == n
  {
    if n > 0 {
      PastAdmitted(n - 1, window);
      AdmittedSnoc(Past(n - 1), Stream("a", 0, Released), 0, window);
      assert Past(n) == Past(n - 1) + [Stream("a", 0, Released)];
    }
  }

  /** One id, admitted n times at one moment, each time after its last stream was released. */
  lemma {:induction false} RepeatedOwner(c: Config, n: nat, unshared: bool) returns (s: State)
    requires ValidConfig(c) && c.limit > 1
    ensures Reachable(c, s, unshared)
    ensures s == State(Guard(if n == 0 then Absent else OneMember("a", 0, c.window), Free), Past(n), 0)
    ensures |Admitted(s.streams, 0, c.window)| == n
  {
    PastAdmitted(n, c.window);
    if n == 0 {
      s := ReachInit(c, unshared);
    } else {
      s := RepeatedOwner(c, n - 1, unshared);
      AdmittedAlone(s.guard.rate, "a", 0, c.window, c.limit);
      OneRound(c, s.guard.rate, n - 1);
      PastUnshared(n - 1, Acquired);
      PastUnshared(n - 1, Running(c.timeout));
      PastUnshared(n - 1, Cancelled);
      PastUnshared(n, Released);
      hide Reachable, AllowScript, Admitted, Apply, Unshared, OneMember, Past;
      s := ReachStep(c, s, Acquire("a", 0), unshared);
      s := ReachStep(c, s, Start(n - 1, 0), unshared);
      s := ReachStep(c, s, Cancel(n - 1, 0), unshared);
      s := ReachStep(c, s, Release(n - 1, 0), unshared);
    }
  }

  // ---------- main results: overlap ----------

  predicate Uncancelled(s: State, i: nat) {
    i < |s.streams| && s.streams[i].phase.Running? && s.clock < s.streams[i].phase.deadline
  }

  ghost predicate NoOverlap(s: State) {
    forall i: nat, j: nat | Uncancelled(s, i) && Uncancelled(s, j) :: i == j
  }

  /** No two streams of one user ever run at the same time, exactly when the lock lasts as long as a stream may run after
      its admission and no id is used again before its stream is released, or else one stream at most is admitted in that
      time. With arbitrary ids only the second holds: a late release takes the lock of a younger stream with its id. */
  lemma StreamsDoNotOverlapIff(c: Config, unshared: bool)
    requires ValidConfig(c)
    ensures (forall s | Reachable(c, s, unshared) :: NoOverlap(s)) <==> (unshared && LockOutlastsStream(c)) || OneAtATime(c)
  {
    hide Reachable;
    if (unshared && LockOutlastsStream(c)) || OneAtATime(c) {
      forall s | Reachable(c, s, unshared) ensures NoOverlap(s) {
        StreamsDoNotOverlap(c, s, unshared);
      }
    } else if LockOutlastsStream(c) {
      var s := SharedIdOverlap(c);
      assert Reachable(c, s, unshared) && !NoOverlap(s);
    } else {
      var s := ExpiredLockOverlap(c, unshared);
      assert Reachable(c, s, unshared) && !NoOverlap(s);
    }
  }

  lemma StreamsDoNotOverlap(c: Config, s: State, unshared: bool)
    requires ValidConfig(c) && Reachable(c, s, unshared) && ((unshared && LockOutlastsStream(c)) || OneAtATime(c))
    ensures NoOverlap(s)
  {
    hide Represents, OwnersBounded, Reachable;
    ReachableCounted(c, s, unshared);
    forall i: nat, j: nat | Uncancelled(s, i) && Uncancelled(s, j) ensures i == j {
      OneRuns(c, s, unshared, i, j);
      OneRuns(c, s, unshared, j, i);
    }
  }

  lemma OneRuns(c: Config, s: State, unshared: bool, i: nat, j: nat)
    requires Counted(c, s) && ((unshared && LockOutlastsStream(c)) || OneAtATime(c))
    requires unshared && LockOutlastsStream(c) ==> LockHeld(c, s) && Unshared(s.streams)
    ensures i < j && Uncancelled(s, i) ==> !Uncancelled(s, j)
  {
    hide Represents, OwnersBounded;
    if i < j < |s.streams| {
      assert unshared && LockOutlastsStream(c) ==>
        Holds(c, s.guard.lock, s.clock, s.streams[i]) && Holds(c, s.guard.lock, s.clock, s.streams[j]);
    }
  }

  /** While a stream runs, no step of another stream or request, however late, takes its lock, and every acquire is
      refused without a change. */
  lemma RunningStreamKeepsItsLock(c: Config, s: State, a: Action, i: nat)
    requires ValidConfig(c) && LockOutlastsStream(c)
    requires Reachable(c, s, true) && Legal(c, s, a) && Uncancelled(s, i) && (a.Acquire? || a.i != i)
    ensures var s' := Apply(c, s, a);
            Uncancelled(s', i) ==>
              && s'.streams[i] == s.streams[i]
              && s'.guard.lock == s.guard.lock && Locked(s'.guard.lock, a.now) && s'.guard.lock.owner == s.streams[i].owner
              && (a.Acquire? ==> s'.guard == s.guard && s'.streams == s.streams)
  {
    hide Represents, OwnersBounded, AllowScript;
    ReachableCounted(c, s, true);
    assert Holds(c, s.guard.lock, s.clock, s.streams[i]);
  }

  /** Otherwise a second request is admitted after the lock of the first has expired, while the first still runs. */
  lemma ExpiredLockOverlap(c: Config, unshared: bool) returns (s: State)
    requires ValidConfig(c) && !LockOutlastsStream(c) && !OneAtATime(c)
    ensures Reachable(c, s, unshared) && Uncancelled(s, 0) && Uncancelled(s, 1)
  {
    var t := Later(0, c);
    s := ReachInit(c, unshared);
    FirstAllowed(c, "a", 0);
    SecondAllowed(c, "a", "b", 0, t);
    hide Reachable, AllowScript, Later;
    s := ReachStep(c, s, Acquire("a", 0), unshared);
    s := ReachStep(c, s, Start(0, c.startDelay), unshared);
    s := ReachStep(c, s, Acquire("b", t), unshared);
    s := ReachStep(c, s, Start(1, t), unshared);
  }

  /** When the lock of an admission at `at` has expired, its stream may still run, and the rate admits another owner. */
  function Later(at: int, c: Config): (t: int)
    ensures t >= at + c.lockTTL && t >= at + c.startDelay && (c.limit > 1 || t >= at + c.window)
    ensures ValidConfig(c) && !LockOutlastsStream(c) && !OneAtATime(c) ==> t < at + c.startDelay + c.timeout
  {
    at + Max(c.lockTTL, Max(c.startDelay, if c.limit > 1 then 0 else c.window))
  }

  lemma FirstAllowed(c: Config, owner: string, now: int)
    requires ValidConfig(c)
    ensures AllowScript(Absent, now, c.window, c.limit, owner) == (OneMember(owner, now, c.window), Reply(true, 0))
  {
    var empty: Scores := map[];
    assert Newer(empty, now - c.window) == empty;
    AdmittedAlone(Absent, owner, now, c.window, c.limit);
  }

  lemma SecondAllowed(c: Config, owner: string, other: string, at: int, now: int)
    requires ValidConfig(c) && at <= now && (c.limit > 1 || now >= at + c.window)
    ensures AllowScript(OneMember(owner, at, c.window), now, c.window, c.limit, other).1.allowed
  {
    var recent := Newer(Visible(OneMember(owner, at, c.window), now), now - c.window);
    SmallerSet(recent.Keys, {owner});
    assert now >= at + c.window ==> recent == map[];
  }

  /** Two requests with one id: the first stream waits in its last send past the end of its lock, the second is admitted,
      the late release of the first takes the second's lock, and a third request overlaps the second. */
  lemma SharedIdOverlap(c: Config) returns (s: State)
    requires ValidConfig(c) && LockOutlastsStream(c) && !OneAtATime(c)
    ensures Reachable(c, s, false) && Uncancelled(s, 1) && Uncancelled(s, 2)
  {
    var t := Max(c.lockTTL, c.window);
    var u := t + Max(c.startDelay, if c.limit > 1 then 0 else c.window);
    s := SharedId(c, t);
    SecondAllowed(c, "a", "b", t, u);
    s := LateRelease(c, s, t);
    hide Reachable, AllowScript, OneMember;
    s := ReachStep(c, s, Acquire("b", u), false);
    s := ReachStep(c, s, Start(2, u), false);
  }

  lemma SharedId(c: Config, t: int) returns (s: State)
    requires ValidConfig(c) && t >= c.lockTTL && t >= c.window
    ensures Reachable(c, s, false)
    ensures s == State(Guard(OneMember("a", t, c.window), Held("a", t + c.lockTTL)),
                       [Stream("a", 0, Running(c.timeout)), Stream("a", t, Acquired)], t)
  {
    s := ReachInit(c, false);
    FirstAllowed(c, "a", 0);
    AgainAllowed(c, "a", 0, t);
    hide Reachable, AllowScript, OneMember;
    s := ReachStep(c, s, Acquire("a", 0), false);
    s := ReachStep(c, s, Start(0, 0), false);
    s := ReachStep(c, s, Acquire("a", t), false);
  }

  lemma LateRelease(c: Config, before: State, t: int) returns (s: State)
    requires ValidConfig(c) && LockOutlastsStream(c) && Reachable(c, before, false)
    requires before == State(Guard(OneMember("a", t, c.window), Held("a", t + c.lockTTL)),
                             [Stream("a", 0, Running(c.timeout)), Stream("a", t, Acquired)], t)
    ensures Reachable(c, s, false)
    ensures s == State(Guard(OneMember("a", t, c.window), Free),
                       [Stream("a", 0, Released), Stream("a", t, Running(t + c.startDelay + c.timeout))], t + c.startDelay)
  {
    hide Reachable, OneMember, AcquireScript;
    s := before;
    s := ReachStep(c, s, Start(1, t + c.startDelay), false);
    s := ReachStep(c, s, Cancel(0, t + c.startDelay), false);
    s := ReachStep(c, s, Release(0, t + c.startDelay), false);
  }

  lemma AgainAllowed(c: Config, owner: string, at: int, now: int)
    requires ValidConfig(c) && now >= at + c.window
    ensures AllowScript(OneMember(owner, at, c.window), now, c.window, c.limit, owner) ==
            (OneMember(owner, now, c.window), Reply(true, 0))
  {
    assert Newer(Visible(OneMember(owner, at, c.window), now), now - c.window) == map[];
    AdmittedAlone(OneMember(owner, at, c.window), owner, now, c.window, c.limit);
  }

  /** A denial while the lock is free names the exact time to come back, whatever ids are used: with no call in between,
      an acquire at now + retryAfter is admitted, and none before. */
  lemma GuardRetryAfterIsExact(c: Config, s: State, unshared: bool, owner: string, now: int, next: string, later: int)
    requires ValidConfig(c) && Reachable(c, s, unshared) && s.clock <= now <= later && !Locked(s.guard.lock, now)
    ensures var (guard, reply) := AcquireScript(s.guard, now, c.window, c.limit, owner, c.lockTTL);
            !reply.allowed && later <= now + reply.retryAfter ==>
              (AcquireScript(guard, later, c.window, c.limit, next, c.lockTTL).1.allowed <==> later == now + reply.retryAfter)
  {
    hide Represents, AllowScript, Latest, Admitted, Within;
    ReachableCounted(c, s, unshared);
    forall t: int ensures |Within(Latest(s.streams), t, c.window)| <= c.limit {
      LatestWithin(s.streams, t, c.window);
      SmallerSet(Within(Latest(s.streams), t, c.window), Owners(s.streams, t, c.window));
    }
    RetryAfterIsExact(s.guard.rate, Latest(s.streams), s.clock, c.window, c.limit, Call(now, owner), Call(later, next));
  }

  predicate OwnsLock(lock: Lock, owner: string, now: int) {
    Locked(lock, now) && lock.owner == owner
  }

  /** The two Redis keys of one user. */
  class RedisGuard {
    var rate: Key
    var lock: Lock

    constructor ()
      ensures View() == Guard(Absent, Free)
    {
      rate, lock := Absent, Free;
    }

    function View(): Guard
      reads this
    {
      Guard(rate, lock)
    }

    method Acquire(now: int, window: int, limit: int, owner: string, lockTTL: int) returns (reply: Reply)
      modifies this
      ensures (View(), reply) == AcquireScript(old(View()), now, window, limit, owner, lockTTL)
    {
      if Locked(lock, now) {
        return Reply(false, 1);
      }
      lock := Free;
      var members := Newer(Visible(rate, now), now - window);
      var expiresAt := if rate.Present? then rate.expiresAt else now;
      rate := if members == map[] then Absent else Present(members, expiresAt);
      if |members| >= limit {
        return Reply(false, if members != map[] then Max(1, Lowest(members) + window - now) else window);
      }
      rate := Present(members[owner := now], now + window);
      lock := Held(owner, now + lockTTL);
      return Reply(true, 0);
    }

    method Release(now: int, owner: string)
      modifies this`lock
      ensures forall o, t | t >= now :: OwnsLock(lock, o, t) <==> OwnsLock(old(lock), o, t) && o != owner
      ensures View() == ReleaseScript(old(View()), now, owner)
    {
      if Locked(lock, now) && lock.owner == owner {
        lock := Free;
      }
    }
  }
}
