/** The sliding-window rate limit that two Redis scripts share: a sorted set of recent admissions, pruned on every
    call and given a time to live on every admission. Times are in milliseconds of one clock. */
module Limiter {
  import opened Base
  import opened Sequences

  type Scores = map<string, int>

  /** A sorted set with its expiry; Redis keeps no empty set. */
  datatype Key = Absent | Present(members: Scores, expiresAt: int)

  datatype Reply = Reply(allowed: bool, retryAfter: int)

  /** What commands see of the key at the given time. */
  function Visible(key: Key, now: int): Scores {
    if key.Present? && now < key.expiresAt then key.members else map[]
  }

  /** What ZREMRANGEBYSCORE -inf bound leaves. */
  function Newer(scores: Scores, bound: int): (r: Scores)
    ensures forall m :: m in r <==> m in scores && scores[m] > bound
    ensures forall m | m in r :: r[m] == scores[m]
  {
    map m | m in scores && scores[m] > bound :: scores[m]
  }

  /** ZRANGE 0 0 WITHSCORES */
  function Lowest(scores: Scores): (x: int)
    requires scores != map[]
    ensures x in scores.Values && forall m | m in scores :: x <= scores[m]
  {
    assert exists x :: x in scores.Values && forall y | y in scores.Values :: x <= y by {
      var m :| m in scores;
      MinimumExists(scores.Values, scores[m]);
    }
    var x :| x in scores.Values && forall y | y in scores.Values :: x <= y;
    assert forall m | m in scores :: scores[m] in scores.Values;
    x
  }

  lemma {:induction false} MinimumExists(s: set<int>, x: int)
    requires x in s
    ensures exists m :: m in s && forall y | y in s :: m <= y
    decreases s
  {
    if y :| y in s && y < x {
      var below := set z | z in s && z < x;
      MinimumExists(below, y);
      var m :| m in below && forall z | z in below :: m <= z;
      assert forall z | z in s :: z in below || x <= z;
      assert m in s && forall z | z in s :: m <= z;
    }
  }

  /** authRateLimitScript, and the rate part of aiChatAcquireScript with the owner as member. */
  function AllowScript(key: Key, now: int, window: int, limit: int, member: string): (Key, Reply) {
    var recent := Newer(Visible(key, now), now - window);
    if |recent| >= limit then
      var retryAfter := if recent != map[] then Max(1, Lowest(recent) + window - now) else window;
      (if recent == map[] then Absent else key.(members := recent), Reply(false, retryAfter))
    else
      (Present(recent[member := now], now + window), Reply(true, 0))
  }

  // ---------- the specification: a log of every admission there ever was ----------

  function LogAllow(log: Scores, now: int, window: int, limit: int, member: string): (Scores, bool) {
    if |Newer(log, now - window)| < limit then (log[member := now], true) else (log, false)
  }

  datatype Call = Call(now: int, member: string)

  /** Calls with times that never run backwards and members that no earlier admission used. */
  predicate Orderly(calls: seq<Call>, log: Scores, last: int)
    decreases |calls|
  {
    calls == [] ||
    (&& last <= calls[0].now && calls[0].member !in log
     && (forall i | 0 < i < |calls| :: calls[i].member != calls[0].member)
     && Orderly(calls[1..], log, calls[0].now))
  }

  function Decisions(key: Key, calls: seq<Call>, window: int, limit: int): seq<bool>
    decreases |calls|
  {
    if calls == [] then []
    else
      var (key', reply) := AllowScript(key, calls[0].now, window, limit, calls[0].member);
      [reply.allowed] + Decisions(key', calls[1..], window, limit)
  }

  function LogDecisions(log: Scores, calls: seq<Call>, window: int, limit: int): seq<bool>
    decreases |calls|
  {
    if calls == [] then []
    else
      var (log', allowed) := LogAllow(log, calls[0].now, window, limit, calls[0].member);
      [allowed] + LogDecisions(log', calls[1..], window, limit)
  }

  function LogAfter(log: Scores, calls: seq<Call>, window: int, limit: int): Scores
    decreases |calls|
  {
    if calls == [] then log
    else LogAfter(LogAllow(log, calls[0].now, window, limit, calls[0].member).0, calls[1..], window, limit)
  }

  // ---------- the pruned, expiring set represents the log ----------

  /** From time `last` on, the set shows every admission of the log that can still count. */
  predicate Represents(key: Key, log: Scores, last: int, window: int) {
    && (forall m | m in log :: log[m] <= last)
    && (key.Present? ==>
          && (forall m | m in key.members :: m in log && key.members[m] == log[m])
          && (forall m | m in log && log[m] > last - window :: m in key.members)
          && (forall m | m in log :: log[m] + window <= key.expiresAt))
    && (key.Absent? ==> forall m | m in log :: log[m] <= last - window)
  }

  lemma SameWindow(key: Key, log: Scores, last: int, window: int, now: int)
    requires Represents(key, log, last, window) && last <= now
    ensures Newer(Visible(key, now), now - window) == Newer(log, now - window)
  {
  }

  lemma StepRepresents(key: Key, log: Scores, last: int, window: int, limit: int, call: Call)
    requires Represents(key, log, last, window) && last <= call.now && window > 0 && limit > 0
    ensures var (key', reply) := AllowScript(key, call.now, window, limit, call.member);
            var (log', allowed) := LogAllow(log, call.now, window, limit, call.member);
            reply.allowed == allowed && Represents(key', log', call.now, window)
  {
    hide *;
    var recent := Newer(log, call.now - window);
    SameWindow(key, log, last, window, call.now);
    ScriptKey(key, call.now, window, limit, call.member, recent);
    LogDecides(log, call.now, window, limit, call.member, recent);
    if |recent| >= limit {
      PrunedRepresents(key, log, last, call.now, window);
    } else {
      AdmittedRepresents(key, log, last, call.now, window, call.member);
    }
  }

  lemma LogDecides(log: Scores, now: int, window: int, limit: int, member: string, recent: Scores)
    requires recent == Newer(log, now - window)
    ensures LogAllow(log, now, window, limit, member) == if |recent| < limit then (log[member := now], true) else (log, false)
  {}

  /** The key that the script leaves, when the members of the last window are these. */
  lemma ScriptKey(key: Key, now: int, window: int, limit: int, member: string, recent: Scores)
    requires recent == Newer(Visible(key, now), now - window) && limit > 0
    ensures var (key', reply) := AllowScript(key, now, window, limit, member);
            && reply.allowed == (|recent| < limit)
            && (|recent| < limit ==> key' == Present(recent[member := now], now + window))
            && (|recent| >= limit ==> recent != map[] && key.Present? && key' == key.(members := recent))
  {
    EmptyCount(recent);
    if key.Absent? || now >= key.expiresAt {
      assert recent == map[];
    }
    hide Lowest, Max;
  }

  lemma EmptyCount(scores: Scores)
    ensures scores == map[] <==> |scores| == 0
  {}

  lemma PrunedRepresents(key: Key, log: Scores, last: int, now: int, window: int)
    requires Represents(key, log, last, window) && last <= now && Newer(log, now - window) != map[]
    ensures key.Present? && Represents(key.(members := Newer(log, now - window)), log, now, window)
  {
    var m :| m in Newer(log, now - window);
  }

  lemma AdmittedRepresents(key: Key, log: Scores, last: int, now: int, window: int, member: string)
    requires Represents(key, log, last, window) && last <= now && window > 0
    ensures Represents(Present(Newer(log, now - window)[member := now], now + window), log[member := now], now, window)
  {
  }

  /** Members that later calls use stay unused. */
  lemma {:induction false} StaysOrderly(calls: seq<Call>, log: Scores, last: int, member: string, at: int)
    requires Orderly(calls, log, last) && forall i | 0 <= i < |calls| :: calls[i].member != member
    ensures Orderly(calls, log[member := at], last)
    decreases |calls|
  {
    if calls != [] {
      StaysOrderly(calls[1..], log, calls[0].now, member, at);
    }
  }

  /** The script makes the decisions of a limiter that never forgets. */
  lemma {:induction false} SameDecisions(key: Key, log: Scores, last: int, calls: seq<Call>, window: int, limit: int)
    requires Represents(key, log, last, window) && Orderly(calls, log, last) && window > 0 && limit > 0
    ensures Decisions(key, calls, window, limit) == LogDecisions(log, calls, window, limit)
    decreases |calls|
  {
    hide AllowScript, LogAllow, Represents;
    if calls != [] {
      StepRepresents(key, log, last, window, limit, calls[0]);
      LogGrows(log, calls[0], window, limit);
      StaysOrderly(calls[1..], log, calls[0].now, calls[0].member, calls[0].now);
      SameDecisions(AllowScript(key, calls[0].now, window, limit, calls[0].member).0,
                    LogAllow(log, calls[0].now, window, limit, calls[0].member).0, calls[0].now, calls[1..], window, limit);
    }
  }

  lemma LogGrows(log: Scores, call: Call, window: int, limit: int)
    ensures var log' := LogAllow(log, call.now, window, limit, call.member).0;
            log' == log || log' == log[call.member := call.now]
  {
  }

  /** Limiter refinement: from an empty store on, every decision is that of the full log. */
  lemma LimiterRefinesLog(calls: seq<Call>, start: int, window: int, limit: int)
    requires Orderly(calls, map[], start) && window > 0 && limit > 0
    ensures Decisions(Absent, calls, window, limit) == LogDecisions(map[], calls, window, limit)
  {
    SameDecisions(Absent, map[], start, calls, window, limit);
  }

  // ---------- what the decisions guarantee ----------

  /** Admissions in the interval (t - window, t]. */
  function Within(log: Scores, t: int, window: int): set<string> {
    set m | m in log && t - window < log[m] <= t
  }

  ghost predicate Bounded(log: Scores, window: int, limit: int) {
    forall t: int :: |Within(log, t, window)| <= limit
  }

  lemma BoundAt(log: Scores, window: int, limit: int, t: int)
    requires Bounded(log, window, limit)
    ensures |Within(log, t, window)| <= limit
  {}

  lemma WithinAfterAdmission(log: Scores, now: int, member: string, t: int, window: int)
    requires forall m | m in log :: log[m] <= now
    ensures t - window < now <= t ==> Within(log[member := now], t, window) <= Newer(log, now - window).Keys + {member}
    ensures !(t - window < now <= t) ==> Within(log[member := now], t, window) <= Within(log, t, window)
  {}

  /** An admission keeps the bound on the members seen in a window, also of a member that was admitted before. */
  lemma AdmissionKeepsBound(log: Scores, last: int, window: int, limit: int, call: Call)
    requires (forall m | m in log :: log[m] <= last) && last <= call.now && limit > 0
    requires Bounded(log, window, limit)
    ensures Bounded(LogAllow(log, call.now, window, limit, call.member).0, window, limit)
  {
    var (log', allowed) := LogAllow(log, call.now, window, limit, call.member);
    if allowed {
      var recent := Newer(log, call.now - window).Keys;
      forall t: int ensures |Within(log', t, window)| <= limit {
        hide Bounded;
        WithinAfterAdmission(log, call.now, call.member, t, window);
        hide Within;
        if t - window < call.now <= t {
          SmallerSet(Within(log', t, window), recent + {call.member});
        } else {
          SmallerSet(Within(log', t, window), Within(log, t, window));
          BoundAt(log, window, limit, t);
        }
      }
    }
  }

  lemma {:induction false} RunKeepsBound(log: Scores, last: int, calls: seq<Call>, window: int, limit: int)
    requires (forall m | m in log :: log[m] <= last) && Bounded(log, window, limit)
    requires Orderly(calls, log, last) && limit > 0
    ensures Bounded(LogAfter(log, calls, window, limit), window, limit)
    decreases |calls|
  {
    hide Bounded;
    if calls != [] {
      AdmissionKeepsBound(log, last, window, limit, calls[0]);
      LogGrows(log, calls[0], window, limit);
      StaysOrderly(calls[1..], log, calls[0].now, calls[0].member, calls[0].now);
      RunKeepsBound(LogAllow(log, calls[0].now, window, limit, calls[0].member).0, calls[0].now, calls[1..], window, limit);
    }
  }

  /** However the calls are spaced, no interval of one window's length holds more than `limit` admissions. */
  lemma AtMostLimitPerWindow(calls: seq<Call>, start: int, window: int, limit: int, t: int)
    requires Orderly(calls, map[], start) && limit > 0
    ensures |Within(LogAfter(map[], calls, window, limit), t, window)| <= limit
  {
    EmptyBounded(window, limit);
    RunKeepsBound(map[], start, calls, window, limit);
  }

  /** Retry-after is exact: after a denial with r, and with no call in between, a call at any time before now + r is
      denied too, and a call at now + r is admitted. */
  lemma RetryAfterIsExact(key: Key, log: Scores, last: int, window: int, limit: int, call: Call, later: Call)
    requires Represents(key, log, last, window) && Bounded(log, window, limit) && window > 0 && limit > 0
    requires last <= call.now <= later.now
    ensures var (key', reply) := AllowScript(key, call.now, window, limit, call.member);
            !reply.allowed ==>
              && reply.retryAfter >= 1
              && (later.now < call.now + reply.retryAfter ==>
                    !AllowScript(key', later.now, window, limit, later.member).1.allowed)
              && (later.now == call.now + reply.retryAfter ==>
                    AllowScript(key', later.now, window, limit, later.member).1.allowed)
  {
    hide AllowScript, Represents, Bounded;
    var (key', reply) := AllowScript(key, call.now, window, limit, call.member);
    if !reply.allowed {
      StepRepresents(key, log, last, window, limit, call);
      StepRepresents(key', log, call.now, window, limit, later);
      DeniedUntil(key, log, last, window, limit, call, later.now);
    }
  }

  /** The log's count is unchanged until the oldest counted admission leaves the window, and then falls below the limit. */
  lemma DeniedUntil(key: Key, log: Scores, last: int, window: int, limit: int, call: Call, t: int)
    requires Represents(key, log, last, window) && Bounded(log, window, limit) && window > 0 && limit > 0
    requires last <= call.now <= t && !AllowScript(key, call.now, window, limit, call.member).1.allowed
    ensures var r := AllowScript(key, call.now, window, limit, call.member).1.retryAfter;
            && r >= 1
            && (t < call.now + r ==> |Newer(log, t - window)| >= limit)
            && (t == call.now + r ==> |Newer(log, t - window)| < limit)
  {
    SameWindow(key, log, last, window, call.now);
    var recent := Newer(log, call.now - window);
    assert recent != map[];
    var oldest := Lowest(recent);
    var m :| m in recent && recent[m] == oldest;
    assert Within(log, call.now, window) == recent.Keys;
    assert |Within(log, call.now, window)| <= limit;
    var rest := Newer(log, t - window);
    if t < oldest + window {
      assert rest == recent;
    } else if t == oldest + window {
      assert rest.Keys <= recent.Keys && m !in rest;
      SmallerSet(rest.Keys, recent.Keys - {m});
    }
  }

  function KeyAfter(key: Key, calls: seq<Call>, window: int, limit: int): Key
    decreases |calls|
  {
    if calls == [] then key
    else KeyAfter(AllowScript(key, calls[0].now, window, limit, calls[0].member).0, calls[1..], window, limit)
  }

  lemma {:induction false} RunRepresents(key: Key, log: Scores, last: int, calls: seq<Call>, window: int, limit: int)
    requires Represents(key, log, last, window) && Orderly(calls, log, last) && window > 0 && limit > 0
    ensures var end := if calls == [] then last else calls[|calls| - 1].now;
            Represents(KeyAfter(key, calls, window, limit), LogAfter(log, calls, window, limit), end, window)
    decreases |calls|
  {
    hide AllowScript, LogAllow, Represents;
    if calls != [] {
      StepRepresents(key, log, last, window, limit, calls[0]);
      LogGrows(log, calls[0], window, limit);
      StaysOrderly(calls[1..], log, calls[0].now, calls[0].member, calls[0].now);
      RunRepresents(AllowScript(key, calls[0].now, window, limit, calls[0].member).0,
                    LogAllow(log, calls[0].now, window, limit, calls[0].member).0, calls[0].now, calls[1..], window, limit);
    }
  }

  /** So in every run, the answer to a denied call tells exactly when to come back. */
  lemma RetryAfterIsExactInEveryRun(calls: seq<Call>, start: int, window: int, limit: int, call: Call, later: Call)
    requires Orderly(calls, map[], start) && window > 0 && limit > 0
    requires (if calls == [] then start else calls[|calls| - 1].now) <= call.now <= later.now
    ensures var key := KeyAfter(Absent, calls, window, limit);
            var (key', reply) := AllowScript(key, call.now, window, limit, call.member);
            !reply.allowed && later.now <= call.now + reply.retryAfter ==>
              (AllowScript(key', later.now, window, limit, later.member).1.allowed <==>
                  later.now == call.now + reply.retryAfter)
  {
    hide AllowScript;
    RunRepresents(Absent, map[], start, calls, window, limit);
    EmptyBounded(window, limit);
    RunKeepsBound(map[], start, calls, window, limit);
    RetryAfterIsExact(KeyAfter(Absent, calls, window, limit), LogAfter(map[], calls, window, limit),
                      if calls == [] then start else calls[|calls| - 1].now, window, limit, call, later);
  }

  lemma EmptyBounded(window: int, limit: int)
    requires limit > 0
    ensures Bounded(map[], window, limit)
  {
    forall t: int ensures |Within(map[], t, window)| <= limit {
      assert Within(map[], t, window) == {};
    }
  }

  /** The Redis key, changed in place by one command after the other. */
  class RateLimiter {
    var key: Key
    const window: int
    const limit: int

    constructor (window: int, limit: int)
      requires window > 0 && limit > 0
      ensures key == Absent && this.window == window && this.limit == limit
    {
      this.window, this.limit := window, limit;
      key := Absent;
    }

    method Allow(now: int, member: string) returns (reply: Reply)
      modifies this
      ensures (key, reply) == AllowScript(old(key), now, window, limit, member)
    {
      var members := Newer(Visible(key, now), now - window);
      var expiresAt := if key.Present? then key.expiresAt else now;
      key := if members == map[] then Absent else Present(members, expiresAt);
      var count := |members|;
      if count >= limit {
        var retryAfter := window;
        if members != map[] {
          retryAfter := Max(1, Lowest(members) + window - now);
        }
        return Reply(false, retryAfter);
      }
      members := members[member := now];
      key := Present(members, now + window);
      return Reply(true, 0);
    }
  }
}
