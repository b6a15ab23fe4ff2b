/** Refresh sessions in Redis: three atomic scripts that rotate or revoke a session, and its creation. */
module Sessions {
  import opened Base

  datatype Session = Session(user: int, email: string, nickname: string, avatar: string, hash: string, expiresAt: int)

  type Store = map<string, Session>

  /** The status a script returns: 1 with the session, 0, -1 and -2. */
  datatype Reply =
    | Rotated(session: Session)
    | Revoked
    | Missing
    | Reused
    | WrongUser

  // ---------- the scripts ----------

  function CreateScript(store: Store, id: string, session: Session): Store {
    store[id := session]
  }

  function RotateScript(store: Store, id: string, hash: string, replacement: string, now: int): (Store, Reply) {
    if id !in store then (store, Missing)
    else if store[id].expiresAt <= now then (store - {id}, Missing)
    else if store[id].hash != hash then (store - {id}, Reused)
    else
      var session := store[id].(hash := replacement);
      (store[id := session], Rotated(session))
  }

  function RotateProfileScript(store: Store, id: string, hash: string, replacement: string, user: int, nickname: string,
                         avatar: string, now: int): (Store, Reply)
  {
    if id !in store then (store, Missing)
    else if store[id].expiresAt <= now then (store - {id}, Missing)
    else if store[id].hash != hash then (store - {id}, Reused)
    else if store[id].user != user then (store, WrongUser)
    else
      var session := store[id].(hash := replacement, nickname := nickname, avatar := avatar);
      (store[id := session], Rotated(session))
  }

  function RevokeScript(store: Store, id: string, hash: string): (Store, Reply) {
    if id !in store then (store, Missing)
    else if store[id].hash != hash then (store - {id}, Reused)
    else (store - {id}, Revoked)
  }

  // ---------- runs ----------

  /** `Expire` is Redis removing a key whose time has come, which it may do at any moment after that time. */
  datatype Action =
    | Login(id: string, session: Session)
    | Refresh(id: string, hash: string, replacement: string, now: int)
    | RefreshProfile(id: string, hash: string, replacement: string, user: int, nickname: string, avatar: string, now: int)
    | Logout(id: string, hash: string)
    | Expire(id: string)

  function Step(store: Store, a: Action): (Store, Reply) {
    match a
    case Login(id, session) => (CreateScript(store, id, session), Missing)
    case Refresh(id, hash, replacement, now) => RotateScript(store, id, hash, replacement, now)
    case RefreshProfile(id, hash, replacement, user, nickname, avatar, now) =>
      RotateProfileScript(store, id, hash, replacement, user, nickname, avatar, now)
    case Logout(id, hash) => RevokeScript(store, id, hash)
    case Expire(id) => (store - {id}, Missing)
  }

  function Exec(store: Store, actions: seq<Action>): Store
    decreases |actions|
  {
    if actions == [] then store else Exec(Step(store, actions[0]).0, actions[1..])
  }

  /** The hash that an action would install for the session it names. */
  function Installs(a: Action): Option<string> {
    match a
    case Login(_, session) => Some(session.hash)
    case Refresh(_, _, replacement, _) => Some(replacement)
    case RefreshProfile(_, _, replacement, _, _, _, _) => Some(replacement)
    case _ => None
  }

  /** Session ids are random, so a login never reuses one; tokens are random, so no two actions install one hash. */
  predicate Fresh(actions: seq<Action>) {
    && (forall i, j | 0 <= i < j < |actions| && actions[i].Login? && actions[j].Login? :: actions[i].id != actions[j].id)
    && (forall i, j | 0 <= i < j < |actions| && Installs(actions[i]).Some? :: Installs(actions[i]) != Installs(actions[j]))
  }

  /** The i-th action presented this hash of session id and was answered with a rotation. */
  predicate Accepted(actions: seq<Action>, i: nat, id: string, hash: string)
    requires i < |actions|
  {
    var a := actions[i];
    (a.Refresh? || a.RefreshProfile?) && a.id == id && a.hash == hash && Step(Exec(map[], actions[..i]), a).1.Rotated?
  }

  /** The action presents this hash for session id, to any of the three scripts. */
  predicate Presents(a: Action, id: string, hash: string) {
    (a.Refresh? || a.RefreshProfile? || a.Logout?) && a.id == id && a.hash == hash
  }

  // ---------- invariants ----------

  lemma {:induction false} ExecSnoc(store: Store, actions: seq<Action>, a: Action)
    ensures Exec(store, actions + [a]) == Step(Exec(store, actions), a).0
    decreases |actions|
  {
    hide Step;
    if actions == [] {
      assert actions + [a] == [a];
      assert Exec(Step(store, a).0, []) == Step(store, a).0;
    } else {
      assert (actions + [a])[1..] == actions[1..] + [a];
      ExecSnoc(Step(store, actions[0]).0, actions[1..], a);
    }
  }

  lemma PrefixStep(actions: seq<Action>, n: nat)
    requires n < |actions|
    ensures Exec(map[], actions[..n + 1]) == Step(Exec(map[], actions[..n]), actions[n]).0
  {
    assert actions[..n + 1] == actions[..n] + [actions[n]];
    ExecSnoc(map[], actions[..n], actions[n]);
  }

  /** A stored session was logged in, and the hash it holds was installed for it, by earlier actions. */
  lemma {:induction false} StoredWasInstalled(actions: seq<Action>, n: nat, id: string)
    requires n <= |actions| && id in Exec(map[], actions[..n])
    ensures exists i ::
        0 <= i < n && actions[i].id == id && Installs(actions[i]) == Some(Exec(map[], actions[..n])[id].hash)
    ensures exists i :: 0 <= i < n && actions[i].Login? && actions[i].id == id
  {
    if n > 0 {
      PrefixStep(actions, n - 1);
      var a, before := actions[n - 1], Exec(map[], actions[..n - 1]);
      if a.id != id || (id in before && Step(before, a).0[id].hash == before[id].hash) {
        StoredWasInstalled(actions, n - 1, id);
      } else if a.Login? {
        assert actions[n - 1].id == id;
      } else {
        StoredWasInstalled(actions, n - 1, id);
        assert Installs(actions[n - 1]) == Some(Exec(map[], actions[..n])[id].hash);
      }
    }
  }

  // ---------- main results ----------

  /** Once a hash has been rotated away, its session never holds it again. */
  lemma {:induction false} SpentHashIsGone(actions: seq<Action>, i: nat, id: string, hash: string, n: nat)
    requires Fresh(actions) && i < n <= |actions| && Accepted(actions, i, id, hash)
    ensures id in Exec(map[], actions[..n]) ==> Exec(map[], actions[..n])[id].hash != hash
  {
    hide Fresh, Step, Installs;
    AcceptedHash(actions, i, id, hash);
    StoredWasInstalled(actions, i, id);
    var k :| 0 <= k < i && actions[k].id == id && Installs(actions[k]) == Some(hash);
    PrefixStep(actions, n - 1);
    InstalledOnce(actions, k, n - 1);
    HashSource(Exec(map[], actions[..n - 1]), actions[n - 1], id);
    if n - 1 > i {
      SpentHashIsGone(actions, i, id, hash, n - 1);
    }
  }

  lemma AcceptedHash(actions: seq<Action>, i: nat, id: string, hash: string)
    requires i < |actions| && Accepted(actions, i, id, hash)
    ensures id in Exec(map[], actions[..i]) && Exec(map[], actions[..i])[id].hash == hash
  {
  }

  /** A step leaves a session's hash alone or installs one. */
  lemma HashSource(store: Store, a: Action, id: string)
    ensures var store' := Step(store, a).0;
            id in store' ==> (id in store && store'[id].hash == store[id].hash) || Installs(a) == Some(store'[id].hash)
    ensures Step(store, a).1.Rotated? && a.id == id ==>
        id in Step(store, a).0 && Installs(a) == Some(Step(store, a).0[id].hash)
  {
  }

  lemma InstalledOnce(actions: seq<Action>, k: nat, n: nat)
    requires Fresh(actions) && k < n < |actions| && Installs(actions[k]).Some?
    ensures Installs(actions[n]) != Installs(actions[k])
  {
  }

  /** Over a whole run each hash is accepted by a rotation at most once, whatever session it is presented for. */
  lemma HashAcceptedAtMostOnce(actions: seq<Action>, i: nat, j: nat, id: string, id': string, hash: string)
    requires Fresh(actions) && i < |actions| && j < |actions|
    requires Accepted(actions, i, id, hash) && Accepted(actions, j, id', hash)
    ensures i == j && id == id'
  {
    hide Fresh, Exec, Step, Installs;
    AcceptedHash(actions, i, id, hash);
    AcceptedHash(actions, j, id', hash);
    HashBelongsToOneSession(actions, i, j, id, id');
    if i < j {
      SpentHashIsGone(actions, i, id, hash, j);
    } else if j < i {
      SpentHashIsGone(actions, j, id, hash, i);
    }
  }

  /** Two sessions never hold the same hash, at whatever times of a run. */
  lemma HashBelongsToOneSession(actions: seq<Action>, i: nat, j: nat, id: string, id': string)
    requires Fresh(actions) && i <= |actions| && j <= |actions|
    requires id in Exec(map[], actions[..i]) && id' in Exec(map[], actions[..j])
    requires Exec(map[], actions[..i])[id].hash == Exec(map[], actions[..j])[id'].hash
    ensures id == id'
  {
    hide Fresh, Exec, Step, Installs;
    StoredWasInstalled(actions, i, id);
    StoredWasInstalled(actions, j, id');
    var hash := Exec(map[], actions[..i])[id].hash;
    var k :| 0 <= k < i && actions[k].id == id && Installs(actions[k]) == Some(hash);
    var m :| 0 <= m < j && actions[m].id == id' && Installs(actions[m]) == Some(hash);
    if k < m {
      InstalledOnce(actions, k, m);
    } else if m < k {
      InstalledOnce(actions, m, k);
    }
  }

  /** A session that has disappeared after its login never comes back. */
  lemma {:induction false} GoneForGood(actions: seq<Action>, i: nat, id: string, m: nat, n: nat)
    requires Fresh(actions) && i < m <= n <= |actions| && actions[i].Login? && actions[i].id == id
    requires id !in Exec(map[], actions[..m])
    ensures id !in Exec(map[], actions[..n])
  {
    if m < n {
      PrefixStep(actions, n - 1);
      GoneForGood(actions, i, id, m, n - 1);
      assert !(actions[n - 1].Login? && actions[n - 1].id == id);
    }
  }

  /** Presenting a spent hash, to whichever script, ends the session for good: reuse of a stolen or replayed token
      is answered by revocation. */
  lemma ReuseEndsTheSession(actions: seq<Action>, i: nat, id: string, hash: string, j: nat, n: nat)
    requires Fresh(actions) && i < j < n <= |actions|
    requires Accepted(actions, i, id, hash) && Presents(actions[j], id, hash)
    ensures id !in Exec(map[], actions[..n])
    ensures !Step(Exec(map[], actions[..j]), actions[j]).1.Rotated?
  {
    hide Fresh, Exec;
    SpentHashIsGone(actions, i, id, hash, j);
    PrefixStep(actions, j);
    assert id !in Exec(map[], actions[..j + 1]);
    StoredWasInstalled(actions, i, id);
    var login :| 0 <= login < i && actions[login].Login? && actions[login].id == id;
    GoneForGood(actions, login, id, j + 1, n);
  }

  /** Whatever is rotated, a session keeps the user, the email and the expiry of its login. */
  lemma {:induction false} IdentityIsFixed(actions: seq<Action>, i: nat, n: nat)
    requires Fresh(actions) && i < n <= |actions| && actions[i].Login?
    ensures var id := actions[i].id; var store := Exec(map[], actions[..n]);
            id in store ==>
              && store[id].user == actions[i].session.user
              && store[id].email == actions[i].session.email
              && store[id].expiresAt == actions[i].session.expiresAt
  {
    PrefixStep(actions, n - 1);
    if n - 1 > i {
      IdentityIsFixed(actions, i, n - 1);
      assert !(actions[n - 1].Login? && actions[n - 1].id == actions[i].id);
    }
  }

  /** The right hash with the wrong user is refused without a trace: taking such a request out of a run changes neither
      the sessions at its end nor, therefore, any later answer. The answer is given exactly in that case. */
  lemma WrongUserLeavesNoTrace(actions: seq<Action>, i: nat)
    requires i < |actions|
    ensures var store, a := Exec(map[], actions[..i]), actions[i];
            Step(store, a).1.WrongUser? <==>
              a.RefreshProfile? && a.id in store && store[a.id].expiresAt > a.now && store[a.id].hash == a.hash &&
              store[a.id].user != a.user
    ensures Step(Exec(map[], actions[..i]), actions[i]).1.WrongUser? ==>
              forall n | i < n <= |actions| :: Exec(map[], actions[..n]) == Exec(map[], actions[..i] + actions[i + 1..n])
  {
    if Step(Exec(map[], actions[..i]), actions[i]).1.WrongUser? {
      PrefixStep(actions, i);
      forall n | i < n <= |actions|
        ensures Exec(map[], actions[..n]) == Exec(map[], actions[..i] + actions[i + 1..n])
      {
        Without(actions, i, n);
      }
    }
  }

  lemma {:induction false} Without(actions: seq<Action>, i: nat, n: nat)
    requires i < n <= |actions| && Exec(map[], actions[..i + 1]) == Exec(map[], actions[..i])
    ensures Exec(map[], actions[..n]) == Exec(map[], actions[..i] + actions[i + 1..n])
  {
    hide Step, Exec;
    if n == i + 1 {
      assert actions[..i] + actions[i + 1..n] == actions[..i];
    } else {
      Without(actions, i, n - 1);
      PrefixStep(actions, n - 1);
      var rest := actions[..i] + actions[i + 1..n - 1];
      assert actions[..i] + actions[i + 1..n] == rest + [actions[n - 1]];
      ExecSnoc(map[], rest, actions[n - 1]);
    }
  }

  predicate Current(store: Store, id: string, now: int) {
    id in store && now < store[id].expiresAt
  }

  predicate Rotatable(store: Store, id: string, hash: string, now: int) {
    Current(store, id, now) && store[id].hash == hash
  }

  /** Every session but this one is there, or not, as before. */
  predicate OthersKept(before: Store, after: Store, id: string) {
    after - {id} == before - {id}
  }

  /** The keys that the scripts change in place. */
  class Redis {
    var sessions: Store

    constructor ()
      ensures sessions == map[]
    {
      sessions := map[];
    }

    method Create(id: string, session: Session)
      modifies this
      ensures id in sessions && sessions[id] == session && OthersKept(old(sessions), sessions, id)
      ensures sessions == CreateScript(old(sessions), id, session)
    {
      sessions := sessions[id := session];
    }

    method Rotate(id: string, hash: string, replacement: string, now: int) returns (reply: Reply)
      modifies this
      ensures reply.Rotated? <==> Rotatable(old(sessions), id, hash, now)
      ensures reply.Rotated? ==>
                && OthersKept(old(sessions), sessions, id) && id in sessions && reply.session == sessions[id]
                && sessions[id].hash == replacement
                && sessions[id] == old(sessions)[id].(hash := sessions[id].hash)
      ensures !reply.Rotated? ==> OthersKept(old(sessions), sessions, id) && id !in sessions
      ensures reply.Reused? <==> Current(old(sessions), id, now) && old(sessions)[id].hash != hash
      ensures !reply.Revoked? && !reply.WrongUser?
      ensures (sessions, reply) == RotateScript(old(sessions), id, hash, replacement, now)
    {
      if id !in sessions {
        return Missing;
      }
      if sessions[id].expiresAt <= now {
        sessions := sessions - {id};
        return Missing;
      }
      if sessions[id].hash != hash {
        sessions := sessions - {id};
        return Reused;
      }
      sessions := sessions[id := sessions[id].(hash := replacement)];
      return Rotated(sessions[id]);
    }

    method RotateProfile(id: string, hash: string, replacement: string, user: int, nickname: string, avatar: string,
        now: int)
      returns (reply: Reply)
      modifies this
      ensures reply.Rotated? <==> Rotatable(old(sessions), id, hash, now) && old(sessions)[id].user == user
      ensures reply.Rotated? ==>
                && OthersKept(old(sessions), sessions, id) && id in sessions && reply.session == sessions[id]
                && sessions[id].hash == replacement && sessions[id].nickname == nickname && sessions[id].avatar == avatar
                && sessions[id].user == user && sessions[id].email == old(sessions)[id].email
                && sessions[id].expiresAt == old(sessions)[id].expiresAt
      ensures reply.WrongUser? <==> Rotatable(old(sessions), id, hash, now) && old(sessions)[id].user != user
      ensures reply.WrongUser? ==> sessions == old(sessions)
      ensures !reply.Rotated? && !reply.WrongUser? ==> OthersKept(old(sessions), sessions, id) && id !in sessions
      ensures reply.Reused? <==> Current(old(sessions), id, now) && old(sessions)[id].hash != hash
      ensures (sessions, reply) == RotateProfileScript(old(sessions), id, hash, replacement, user, nickname, avatar, now)
    {
      if id !in sessions {
        return Missing;
      }
      if sessions[id].expiresAt <= now {
        sessions := sessions - {id};
        return Missing;
      }
      if sessions[id].hash != hash {
        sessions := sessions - {id};
        return Reused;
      }
      if sessions[id].user != user {
        return WrongUser;
      }
      sessions := sessions[id := sessions[id].(hash := replacement, nickname := nickname, avatar := avatar)];
      return Rotated(sessions[id]);
    }

    method Revoke(id: string, hash: string) returns (reply: Reply)
      modifies this
      ensures OthersKept(old(sessions), sessions, id) && id !in sessions
      ensures reply.Revoked? <==> id in old(sessions) && old(sessions)[id].hash == hash
      ensures reply.Reused? <==> id in old(sessions) && old(sessions)[id].hash != hash
      ensures reply.Missing? <==> id !in old(sessions)
      ensures (sessions, reply) == RevokeScript(old(sessions), id, hash)
    {
      if id !in sessions {
        return Missing;
      }
      var current := sessions[id].hash;
      sessions := sessions - {id};
      return if current != hash then Reused else Revoked;
    }
  }
}
