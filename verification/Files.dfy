/** Uploaded PDF files, the document rows that refer to them, and the sweeper of leftover files. Uploads, deletions and
    sweeps run at the same time; each step below is one call into the file store or one committed transaction. */
module Files {
  import opened Base

  /** Keys are random, so a new key is one never used before. */
  datatype Key = TempKey(n: nat) | FinalKey(n: nat)

  datatype Info = Info(key: Key, modTime: int)

  datatype Graces = Graces(temp: nat, orphan: nat)

  /** What Cleanup decides about a file listed under one of its two prefixes, before it tries to delete it. */
  predicate Expired(info: Info, temporary: bool, referenced: set<Key>, now: int, graces: Graces) {
    if temporary then now - info.modTime >= graces.temp
    else now - info.modTime >= graces.orphan && info.key !in referenced
  }

  // ---------- state ----------

  /** An upload in progress: its temporary file is saved, its file is at its final place, or it failed and its
      deferred deletion is still to run. */
  datatype Upload = Saved(key: Key) | Promoted(key: Key) | Discarding(key: Key)

  /** A PDF document; `insertedAt` remembers when its row was committed. */
  datatype Document = Document(key: Key, deleted: bool, insertedAt: int)

  /** A sweep has asked for the referenced files, or has also read the clock and walks over files. */
  datatype Sweep =
    | Queried(referenced: set<Key>, queriedAt: int)
    | Walking(referenced: set<Key>, queriedAt: int, now: int, todo: seq<Info>)

  type Stamps = map<Key, int>
  type Documents = map<nat, Document>
  type Uploads = map<nat, Upload>
  type Sweeps = map<nat, Sweep>

  /** `files` holds the files with their modification times; `written` remembers those of every file there ever was.
      `removals` are the keys whose documents were deleted and whose files are still to be. */
  datatype State = State(
    files: Stamps, written: Stamps, docs: Documents, uploads: Uploads, removals: set<Key>, sweeps: Sweeps,
    clock: int, next: nat)

  datatype Action =
    | Tick(d: nat)
    | SaveTemp                      // CreatePDF: the upload is written and synced
    | Abandon(u: nat)               // its header or its text is refused
    | Promote(u: nat)               // it is renamed, which keeps its modification time
    | Insert(u: nat)                // its row is committed
    | InsertFails(u: nat)
    | Discard(u: nat, fails: bool)  // the deferred deletion
    | Crash(u: nat)                 // the process dies and leaves its file
    | Delete(d: nat)                // Delete commits
    | Remove(key: Key, fails: bool) // and deletes the file
    | Query                         // a sweep loads the referenced keys
    | Stamp(w: nat)                 // and reads the clock
    | Visit(w: nat, key: Key)       // its walk comes across a file
    | Handle(w: nat, fails: bool)   // it decides about the first file found
    | Finish(w: nat)

  function LiveKeys(docs: Documents): set<Key> {
    set d | d in docs && !docs[d].deleted :: docs[d].key
  }

  function Erase(s: State, key: Key, fails: bool): State {
    if fails then s else s.(files := s.files - {key})
  }

  function Step(s: State, a: Action, graces: Graces): State {
    match a
    case Tick(d) => s.(clock := s.clock + d)
    case SaveTemp =>
      var key := TempKey(s.next);
      s.(files := s.files[key := s.clock], written := s.written[key := s.clock],
         uploads := s.uploads[s.next := Saved(key)], next := s.next + 1)
    case Abandon(u) =>
      if u in s.uploads && s.uploads[u].Saved? then s.(uploads := s.uploads[u := Discarding(s.uploads[u].key)]) else s
    case Promote(u) =>
      if u in s.uploads && s.uploads[u].Saved? then
        var temp := s.uploads[u].key;
        if temp in s.files then
          var key := FinalKey(s.next);
          s.(files := (s.files - {temp})[key := s.files[temp]], written := s.written[key := s.files[temp]],
             uploads := s.uploads[u := Promoted(key)], next := s.next + 1)
        else
          s.(uploads := s.uploads[u := Discarding(temp)])
      else s
    case Insert(u) =>
      if u in s.uploads && s.uploads[u].Promoted? then
        s.(docs := s.docs[s.next := Document(s.uploads[u].key, false, s.clock)], uploads := s.uploads - {u},
            next := s.next + 1)
      else s
    case InsertFails(u) =>
      if u in s.uploads && s.uploads[u].Promoted? then s.(uploads := s.uploads[u := Discarding(s.uploads[u].key)]) else s
    case Discard(u, fails) =>
      if u in s.uploads && s.uploads[u].Discarding? then
        Erase(s, s.uploads[u].key, fails).(uploads := s.uploads - {u})
      else s
    case Crash(u) => s.(uploads := s.uploads - {u})
    case Delete(d) =>
      if d in s.docs && !s.docs[d].deleted then
        s.(docs := s.docs[d := s.docs[d].(deleted := true)], removals := s.removals + {s.docs[d].key})
      else s
    case Remove(key, fails) =>
      if key in s.removals then Erase(s, key, fails).(removals := s.removals - {key}) else s
    case Query => s.(sweeps := s.sweeps[s.next := Queried(LiveKeys(s.docs), s.clock)], next := s.next + 1)
    case Stamp(w) =>
      if w in s.sweeps && s.sweeps[w].Queried? then
        s.(sweeps := s.sweeps[w := Walking(s.sweeps[w].referenced, s.sweeps[w].queriedAt, s.clock, [])])
      else s
    case Visit(w, key) =>
      if w in s.sweeps && s.sweeps[w].Walking? && key in s.files then
        s.(sweeps := s.sweeps[w := s.sweeps[w].(todo := s.sweeps[w].todo + [Info(key, s.files[key])])])
      else s
    case Handle(w, fails) =>
      if w in s.sweeps && s.sweeps[w].Walking? && s.sweeps[w].todo != [] then
        var sweep := s.sweeps[w];
        var rest := s.(sweeps := s.sweeps[w := sweep.(todo := sweep.todo[1..])]);
        if Expired(sweep.todo[0], sweep.todo[0].key.TempKey?, sweep.referenced, sweep.now, graces) then
          Erase(rest, sweep.todo[0].key, fails)
        else
          rest
      else s
    case Finish(w) => s.(sweeps := s.sweeps - {w})
  }

  const INIT := State(map[], map[], map[], map[], {}, map[], 0, 0)

  function Exec(s: State, actions: seq<Action>, graces: Graces): State
    decreases |actions|
  {
    if actions == [] then s else Exec(Step(s, actions[0], graces), actions[1..], graces)
  }

  // ---------- the timing rule ----------

  /** At most `upload` passes from the last write of a file to the commit of its row, and at most `query` from a sweep's
      query to its reading of the clock. */
  datatype Delays = Delays(upload: nat, query: nat)

  predicate Timely(s: State, a: Action, delays: Delays) {
    match a
    case Insert(u) =>
      u in s.uploads && s.uploads[u].Promoted? && s.uploads[u].key in s.written ==>
        s.clock - s.written[s.uploads[u].key] <= delays.upload
    case Stamp(w) => w in s.sweeps ==> s.clock - s.sweeps[w].queriedAt <= delays.query
    case _ => true
  }

  predicate TimelyRun(s: State, actions: seq<Action>, graces: Graces, delays: Delays)
    decreases |actions|
  {
    actions == [] || (Timely(s, actions[0], delays) && TimelyRun(Step(s, actions[0], graces), actions[1..], graces, delays))
  }

  /** Every PDF document that is not deleted has its file. */
  predicate FilesPresent(s: State) {
    forall d | d in s.docs && !s.docs[d].deleted :: s.docs[d].key in s.files
  }

  // ---------- invariant ----------

  predicate StampsOk(files: Stamps, written: Stamps, next: nat) {
    && (forall k | k in files :: k in written && files[k] == written[k])
    && (forall k | k in written :: k.n < next)
  }

  predicate DocsOk(docs: Documents, files: Stamps, written: Stamps, clock: int, delays: Delays) {
    forall d | d in docs ::
      && docs[d].key.FinalKey? && docs[d].key in written
      && docs[d].insertedAt <= clock && docs[d].insertedAt <= written[docs[d].key] + delays.upload
      && (!docs[d].deleted ==> docs[d].key in files)
  }

  predicate DocIdsOk(docs: Documents, uploads: Uploads, sweeps: Sweeps, next: nat) {
    (forall d | d in docs :: d < next) && (forall u | u in uploads :: u < next) && (forall w | w in sweeps :: w < next)
  }

  predicate DocKeysDistinct(docs: Documents) {
    forall d, e | d in docs && e in docs && docs[d].key == docs[e].key :: d == e
  }

  /** The file of an upload belongs to nobody else; it may be gone, but then it is too late for its row. */
  predicate UploadsOk(uploads: Uploads, docs: Documents, files: Stamps, written: Stamps, clock: int, delays: Delays) {
    forall u | u in uploads ::
      && uploads[u].key in written
      && (uploads[u].Saved? ==> uploads[u].key.TempKey?)
      && (forall d | d in docs :: docs[d].key != uploads[u].key)
      && (uploads[u].Promoted? ==>
            uploads[u].key.FinalKey? && (uploads[u].key in files || clock > written[uploads[u].key] + delays.upload))
  }

  predicate UploadKeysDistinct(uploads: Uploads) {
    forall u, v | u in uploads && v in uploads && uploads[u].key == uploads[v].key :: u == v
  }

  predicate RemovalsOk(removals: set<Key>, docs: Documents, uploads: Uploads, written: Stamps) {
    && (forall k | k in removals :: k in written)
    && (forall d | d in docs && !docs[d].deleted :: docs[d].key !in removals)
    && (forall u | u in uploads :: uploads[u].key !in removals)
  }

  /** A live document is among the referenced ones of a sweep, or its row is younger than the sweep's query. */
  predicate SweepOk(sweep: Sweep, docs: Documents, written: Stamps, clock: int, delays: Delays) {
    && sweep.queriedAt <= clock
    && (forall d | d in docs && !docs[d].deleted ::
        docs[d].key in sweep.referenced || docs[d].insertedAt >= sweep.queriedAt)
    && (sweep.Walking? ==>
          && sweep.now <= clock && sweep.now - sweep.queriedAt <= delays.query
          && forall i | 0 <= i < |sweep.todo| ::
               sweep.todo[i].key in written && sweep.todo[i].modTime == written[sweep.todo[i].key])
  }

  predicate SweepsOk(sweeps: Sweeps, docs: Documents, written: Stamps, clock: int, delays: Delays) {
    forall w | w in sweeps :: SweepOk(sweeps[w], docs, written, clock, delays)
  }

  predicate Sound(s: State, delays: Delays) {
    && StampsOk(s.files, s.written, s.next)
    && DocsOk(s.docs, s.files, s.written, s.clock, delays)
    && DocIdsOk(s.docs, s.uploads, s.sweeps, s.next)
    && DocKeysDistinct(s.docs)
    && UploadsOk(s.uploads, s.docs, s.files, s.written, s.clock, delays)
    && UploadKeysDistinct(s.uploads)
    && RemovalsOk(s.removals, s.docs, s.uploads, s.written)
    && SweepsOk(s.sweeps, s.docs, s.written, s.clock, delays)
  }

  /** A file whose loss hurts nobody: no live document has it, and no upload that could still become one. */
  predicate Expendable(s: State, key: Key, delays: Delays) {
    && (forall d | d in s.docs && !s.docs[d].deleted :: s.docs[d].key != key)
    && (forall u | u in s.uploads && s.uploads[u].Promoted? && s.uploads[u].key == key && key in s.written ::
          s.clock > s.written[key] + delays.upload)
  }

  lemma EraseKeepsSound(s: State, key: Key, fails: bool, delays: Delays)
    requires Sound(s, delays) && Expendable(s, key, delays)
    ensures Sound(Erase(s, key, fails), delays)
  {
    hide SweepsOk, DocKeysDistinct, UploadKeysDistinct, RemovalsOk, DocIdsOk;
  }

  /** The grace period argument: a file that a sweep finds expired is expendable. */
  lemma ExpiredIsExpendable(s: State, w: nat, graces: Graces, delays: Delays)
    requires Sound(s, delays) && delays.upload + delays.query < graces.orphan
    requires w in s.sweeps && s.sweeps[w].Walking? && s.sweeps[w].todo != []
    requires Expired(s.sweeps[w].todo[0], s.sweeps[w].todo[0].key.TempKey?, s.sweeps[w].referenced, s.sweeps[w].now, graces)
    ensures Expendable(s, s.sweeps[w].todo[0].key, delays)
  {
    hide StampsOk, DocKeysDistinct, UploadKeysDistinct, RemovalsOk, DocIdsOk;
    assert SweepOk(s.sweeps[w], s.docs, s.written, s.clock, delays);
  }

  lemma SweepStepSound(s: State, a: Action, graces: Graces, delays: Delays)
    requires Sound(s, delays) && Timely(s, a, delays) && (a.Query? || a.Stamp? || a.Visit? || a.Finish?)
    ensures Sound(Step(s, a, graces), delays)
  {
    hide DocKeysDistinct, UploadKeysDistinct, RemovalsOk, UploadsOk, DocsOk;
  }

  lemma HandleSound(s: State, a: Action, graces: Graces, delays: Delays)
    requires Sound(s, delays) && delays.upload + delays.query < graces.orphan && a.Handle?
    ensures Sound(Step(s, a, graces), delays)
  {
    hide StampsOk, DocKeysDistinct, UploadKeysDistinct, RemovalsOk, UploadsOk, DocsOk, Expired, Expendable, Erase;
    var w := a.w;
    if w in s.sweeps && s.sweeps[w].Walking? && s.sweeps[w].todo != [] {
      var sweep := s.sweeps[w];
      assert SweepOk(sweep, s.docs, s.written, s.clock, delays);
      var rest := s.(sweeps := s.sweeps[w := sweep.(todo := sweep.todo[1..])]);
      if Expired(sweep.todo[0], sweep.todo[0].key.TempKey?, sweep.referenced, sweep.now, graces) {
        ExpiredIsExpendable(s, w, graces, delays);
        SameExpendable(s, rest, sweep.todo[0].key, delays);
        EraseKeepsSound(rest, sweep.todo[0].key, a.fails, delays);
      }
    }
  }

  lemma SameExpendable(s: State, s': State, key: Key, delays: Delays)
    requires s'.docs == s.docs && s'.uploads == s.uploads && s'.written == s.written && s'.clock == s.clock
    ensures Expendable(s', key, delays) == Expendable(s, key, delays)
  {}

  lemma RemoveSound(s: State, a: Action, graces: Graces, delays: Delays)
    requires Sound(s, delays) && a.Remove?
    ensures Sound(Step(s, a, graces), delays)
  {
    hide StampsOk, SweepsOk, DocKeysDistinct, UploadKeysDistinct, DocIdsOk;
    if a.key in s.removals {
      EraseKeepsSound(s, a.key, a.fails, delays);
      hide DocsOk, UploadsOk;
    }
  }

  lemma DiscardSound(s: State, a: Action, graces: Graces, delays: Delays)
    requires Sound(s, delays) && a.Discard?
    ensures Sound(Step(s, a, graces), delays)
  {
    hide StampsOk, SweepsOk, DocKeysDistinct;
    if a.u in s.uploads && s.uploads[a.u].Discarding? {
      EraseKeepsSound(s, s.uploads[a.u].key, a.fails, delays);
      hide DocsOk;
    }
  }

  function NewFile(s: State, u: nat, upload: Upload, modTime: int): State {
    s.(files := s.files[upload.key := modTime], written := s.written[upload.key := modTime],
       uploads := s.uploads[u := upload], next := s.next + 1)
  }

  lemma NewFileSound(s: State, u: nat, upload: Upload, modTime: int, delays: Delays)
    requires Sound(s, delays) && upload.key.n == s.next && u <= s.next
    requires if upload.Saved? then upload.key.TempKey? else upload.Promoted? && upload.key.FinalKey?
    ensures Sound(NewFile(s, u, upload, modTime), delays)
  {
    hide DocKeysDistinct;
    assert upload.key !in s.written;
    var s' := NewFile(s, u, upload, modTime);
    NewFileSweeps(s, s', upload.key, delays);
    hide SweepsOk;
    assert DocsOk(s'.docs, s'.files, s'.written, s'.clock, delays);
    assert UploadsOk(s'.uploads, s'.docs, s'.files, s'.written, s'.clock, delays);
    hide DocsOk, UploadsOk;
    assert UploadKeysDistinct(s'.uploads);
  }

  lemma NewFileSweeps(s: State, s': State, key: Key, delays: Delays)
    requires SweepsOk(s.sweeps, s.docs, s.written, s.clock, delays) && key !in s.written
    requires s'.sweeps == s.sweeps && s'.docs == s.docs && s'.clock == s.clock
    requires key in s'.written && s'.written == s.written[key := s'.written[key]]
    ensures SweepsOk(s'.sweeps, s'.docs, s'.written, s'.clock, delays)
  {
    forall w | w in s.sweeps ensures SweepOk(s.sweeps[w], s.docs, s'.written, s.clock, delays) {
      assert SweepOk(s.sweeps[w], s.docs, s.written, s.clock, delays);
    }
  }

  lemma SaveSound(s: State, a: Action, graces: Graces, delays: Delays)
    requires Sound(s, delays) && a.SaveTemp?
    ensures Sound(Step(s, a, graces), delays)
  {
    hide Sound;
    NewFileSound(s, s.next, Saved(TempKey(s.next)), s.clock, delays);
  }

  lemma TempIsExpendable(s: State, u: nat, delays: Delays)
    requires Sound(s, delays) && u in s.uploads && s.uploads[u].Saved?
    ensures var left := s.(uploads := s.uploads[u := Discarding(s.uploads[u].key)]);
            Sound(left, delays) && Expendable(left, s.uploads[u].key, delays) && u < s.next
  {
    hide StampsOk, DocKeysDistinct, SweepsOk;
  }

  lemma PromoteSound(s: State, a: Action, graces: Graces, delays: Delays)
    requires Sound(s, delays) && a.Promote?
    ensures Sound(Step(s, a, graces), delays)
  {
    hide Sound, Expendable;
    if a.u in s.uploads && s.uploads[a.u].Saved? {
      var temp := s.uploads[a.u].key;
      var left := s.(uploads := s.uploads[a.u := Discarding(temp)]);
      TempIsExpendable(s, a.u, delays);
      if temp in s.files {
        EraseKeepsSound(left, temp, false, delays);
        var moved := NewFile(Erase(left, temp, false), a.u, Promoted(FinalKey(s.next)), s.files[temp]);
        NewFileSound(Erase(left, temp, false), a.u, Promoted(FinalKey(s.next)), s.files[temp], delays);
        assert moved.uploads == s.uploads[a.u := Promoted(FinalKey(s.next))];
      }
    }
  }

  lemma InsertSound(s: State, a: Action, graces: Graces, delays: Delays)
    requires Sound(s, delays) && Timely(s, a, delays) && a.Insert?
    ensures Sound(Step(s, a, graces), delays)
  {
    if a.u in s.uploads && s.uploads[a.u].Promoted? {
      hide StampsOk;
      var s' := Step(s, a, graces);
      assert s.next !in s.docs;
      assert DocsOk(s'.docs, s.files, s.written, s.clock, delays);
      assert DocKeysDistinct(s'.docs);
      assert UploadsOk(s'.uploads, s'.docs, s.files, s.written, s.clock, delays);
      assert RemovalsOk(s.removals, s'.docs, s'.uploads, s.written);
      hide DocsOk, DocKeysDistinct, UploadsOk, RemovalsOk;
      forall w | w in s.sweeps ensures SweepOk(s.sweeps[w], s'.docs, s.written, s.clock, delays) {
        assert SweepOk(s.sweeps[w], s.docs, s.written, s.clock, delays);
      }
    }
  }

  lemma DeleteSound(s: State, a: Action, graces: Graces, delays: Delays)
    requires Sound(s, delays) && a.Delete?
    ensures Sound(Step(s, a, graces), delays)
  {
    hide StampsOk, UploadKeysDistinct;
    var s' := Step(s, a, graces);
    assert s'.docs.Keys == s.docs.Keys;
    assert DocKeysDistinct(s'.docs);
    assert DocsOk(s'.docs, s.files, s.written, s.clock, delays);
    assert UploadsOk(s.uploads, s'.docs, s.files, s.written, s.clock, delays);
    assert RemovalsOk(s'.removals, s'.docs, s.uploads, s.written);
    assert DocIdsOk(s'.docs, s.uploads, s.sweeps, s.next);
    forall w | w in s.sweeps ensures SweepOk(s.sweeps[w], s'.docs, s.written, s.clock, delays) {
      assert SweepOk(s.sweeps[w], s.docs, s.written, s.clock, delays);
    }
  }

  lemma TickSound(s: State, a: Action, graces: Graces, delays: Delays)
    requires Sound(s, delays) && a.Tick?
    ensures Sound(Step(s, a, graces), delays)
  {
    hide StampsOk, DocIdsOk, DocKeysDistinct, UploadKeysDistinct, RemovalsOk;
  }

  lemma UploadEndSound(s: State, a: Action, graces: Graces, delays: Delays)
    requires Sound(s, delays) && (a.Abandon? || a.InsertFails? || a.Crash?)
    ensures Sound(Step(s, a, graces), delays)
  {
    hide StampsOk, DocKeysDistinct, DocsOk, SweepsOk;
  }

  lemma StepSound(s: State, a: Action, graces: Graces, delays: Delays)
    requires Sound(s, delays) && Timely(s, a, delays) && delays.upload + delays.query < graces.orphan
    ensures Sound(Step(s, a, graces), delays)
  {
    hide Sound, Timely, Step;
    if a.SaveTemp? {
      SaveSound(s, a, graces, delays);
    } else if a.Promote? {
      PromoteSound(s, a, graces, delays);
    } else if a.Insert? {
      InsertSound(s, a, graces, delays);
    } else if a.Delete? {
      DeleteSound(s, a, graces, delays);
    } else if a.Remove? {
      RemoveSound(s, a, graces, delays);
    } else if a.Discard? {
      DiscardSound(s, a, graces, delays);
    } else if a.Handle? {
      HandleSound(s, a, graces, delays);
    } else if a.Query? || a.Stamp? || a.Visit? || a.Finish? {
      SweepStepSound(s, a, graces, delays);
    } else if a.Tick? {
      TickSound(s, a, graces, delays);
    } else {
      UploadEndSound(s, a, graces, delays);
    }
  }

  lemma {:induction false} RunSound(s: State, actions: seq<Action>, graces: Graces, delays: Delays)
    requires Sound(s, delays) && TimelyRun(s, actions, graces, delays) && delays.upload + delays.query < graces.orphan
    ensures Sound(Exec(s, actions, graces), delays)
    decreases |actions|
  {
    hide Sound, Timely, Step;
    if actions != [] {
      StepSound(s, actions[0], graces, delays);
      RunSound(Step(s, actions[0], graces), actions[1..], graces, delays);
    }
  }

  // ---------- main results ----------

  predicate AlwaysPresent(graces: Graces, delays: Delays, actions: seq<Action>) {
    TimelyRun(INIT, actions, graces, delays) ==> FilesPresent(Exec(INIT, actions, graces))
  }

  /** In every interleaving that keeps to the delays each live document has its file, exactly when the two delays
      together stay below the grace period for orphans. The grace period for temporary files does not matter. */
  lemma FilesSafeIff(graces: Graces, delays: Delays)
    ensures (forall actions :: AlwaysPresent(graces, delays, actions)) <==> delays.upload + delays.query < graces.orphan
  {
    if delays.upload + delays.query < graces.orphan {
      forall actions ensures AlwaysPresent(graces, delays, actions) {
        hide TimelyRun, Exec;
        if TimelyRun(INIT, actions, graces, delays) {
          RunSound(INIT, actions, graces, delays);
        }
      }
    } else {
      var actions := LosingRun(graces, delays);
      assert !AlwaysPresent(graces, delays, actions);
    }
  }

  lemma Prepend(s: State, a: Action, rest: seq<Action>, graces: Graces, delays: Delays)
    requires Timely(s, a, delays) && TimelyRun(Step(s, a, graces), rest, graces, delays)
    ensures TimelyRun(s, [a] + rest, graces, delays)
    ensures Exec(s, [a] + rest, graces) == Exec(Step(s, a, graces), rest, graces)
  {
    hide Step, Timely;
    assert ([a] + rest)[1..] == rest;
  }

  /** Too long a delay loses a file: the row is committed between the sweep's query and its reading of the clock. */
  lemma LosingRun(graces: Graces, delays: Delays) returns (actions: seq<Action>)
    requires delays.upload + delays.query >= graces.orphan
    ensures TimelyRun(INIT, actions, graces, delays) && !FilesPresent(Exec(INIT, actions, graces))
  {
    hide TimelyRun, Exec;
    var s1 := Step(INIT, SaveTemp, graces);
    var s2 := Step(s1, Promote(0), graces);
    var s3 := Step(s2, Tick(delays.upload), graces);
    var s4 := Step(s3, Query, graces);
    var s5 := Step(s4, Insert(0), graces);
    var s6 := Step(s5, Tick(delays.query), graces);
    var s7, end := SweptAway(s6, graces, delays);
    Prepend(s5, Tick(delays.query), end, graces, delays);
    actions := [Tick(delays.query)] + end;
    Prepend(s4, Insert(0), actions, graces, delays);
    actions := [Insert(0)] + actions;
    Prepend(s3, Query, actions, graces, delays);
    actions := [Query] + actions;
    Prepend(s2, Tick(delays.upload), actions, graces, delays);
    actions := [Tick(delays.upload)] + actions;
    Prepend(s1, Promote(0), actions, graces, delays);
    actions := [Promote(0)] + actions;
    Prepend(INIT, SaveTemp, actions, graces, delays);
    actions := [SaveTemp] + actions;
  }

  lemma SweptAway(s: State, graces: Graces, delays: Delays) returns (s': State, actions: seq<Action>)
    requires delays.upload + delays.query >= graces.orphan
    requires FinalKey(1) in s.files && s.files[FinalKey(1)] == 0 && s.clock == delays.upload + delays.query
    requires 3 in s.docs && s.docs[3] == Document(FinalKey(1), false, delays.upload)
    requires 2 in s.sweeps && s.sweeps[2] == Queried({}, delays.upload)
    ensures s' == Exec(s, actions, graces) && TimelyRun(s, actions, graces, delays) && !FilesPresent(s')
  {
    var s1 := Step(s, Stamp(2), graces);
    var s2 := Step(s1, Visit(2, FinalKey(1)), graces);
    s' := Step(s2, Handle(2, false), graces);
    assert Exec(s', [], graces) == s' && TimelyRun(s', [], graces, delays);
    hide TimelyRun, Exec;
    actions := [Handle(2, false)] + [];
    Prepend(s2, Handle(2, false), [], graces, delays);
    Prepend(s1, Visit(2, FinalKey(1)), actions, graces, delays);
    actions := [Visit(2, FinalKey(1))] + actions;
    Prepend(s, Stamp(2), actions, graces, delays);
    actions := [Stamp(2)] + actions;
  }

  // ---------- Cleanup ----------

  datatype Verdict = Skip | Drop | Fail

  /** What becomes of a listed file; `fails` says which deletions fail. */
  function VerdictOn(info: Info, temporary: bool, referenced: set<Key>, now: int, graces: Graces,
      fails: Key -> bool): (v: Verdict)
    ensures v == Skip <==>
            now - info.modTime < (if temporary then graces.temp else graces.orphan) || (!temporary && info.key in referenced)
    ensures v == Fail <==> v != Skip && fails(info.key)
  {
    if !Expired(info, temporary, referenced, now, graces) then Skip
    else if fails(info.key) then Fail
    else Drop
  }

  function Verdicts(list: seq<Info>, temporary: bool, referenced: set<Key>, now: int, graces: Graces, fails: Key -> bool)
    : (verdicts: seq<Verdict>)
    ensures |verdicts| == |list|
    ensures forall i | 0 <= i < |list| :: verdicts[i] == VerdictOn(list[i], temporary, referenced, now, graces, fails)
  {
    seq(|list|, i requires 0 <= i < |list| => VerdictOn(list[i], temporary, referenced, now, graces, fails))
  }

  function Count(verdicts: seq<Verdict>, v: Verdict): nat {
    if verdicts == [] then 0
    else Count(verdicts[..|verdicts| - 1], v) + (if verdicts[|verdicts| - 1] == v then 1 else 0)
  }

  /** Each file is counted once. */
  lemma {:induction false} CountsAddUp(verdicts: seq<Verdict>)
    ensures Count(verdicts, Skip) + Count(verdicts, Drop) + Count(verdicts, Fail) == |verdicts|
  {
    if verdicts != [] {
      CountsAddUp(verdicts[..|verdicts| - 1]);
    }
  }

  lemma CountSnoc(verdicts: seq<Verdict>, n: nat, v: Verdict)
    requires n < |verdicts|
    ensures Count(verdicts[..n + 1], v) == Count(verdicts[..n], v) + (if verdicts[n] == v then 1 else 0)
  {
    assert verdicts[..n + 1][..n] == verdicts[..n];
  }

  datatype Stats = Stats(scanned: nat, deleted: nat, skipped: nat, failed: nat)

  function Listed(list: Option<seq<Info>>): seq<Info> {
    if list.Some? then list.value else []
  }

  /** What goes wrong while CreatePDF runs, if anything does, in the order of its steps. SaveTemp removes the file of a
      write that fails or grows too large itself, and that may fail as well. */
  datatype UploadFault = NoFault | NotCreated | TooLarge | SaveFails | BadHeader | NoText | PromoteFails | InsertFailed

  class FileStore {
    var files: Stamps
    var docs: Documents
    var nextDoc: nat

    predicate Valid()
      reads this
    {
      forall d | d in docs :: d < nextDoc && (!docs[d].deleted ==> docs[d].key in files)
    }

    constructor ()
      ensures Valid() && files == map[] && docs == map[]
    {
      files, docs, nextDoc := map[], map[], 1;
    }

    /** A deletion whose error is only logged. */
    method TryDelete(key: Key, fails: Key -> bool)
      modifies this`files
      ensures files == if fails(key) then old(files) else old(files) - {key}
    {
      if !fails(key) {
        files := files - {key};
      }
    }

    /** CreatePDF from the upload on, with nobody else running: with a fault, no row is written, no other file is
        touched, and the upload leaves a file behind exactly when one was created and its deletion fails; without one,
        the row refers to the file at its final place, which keeps the time of its last write. */
    method CreatePDF(temp: Key, final: Key, savedAt: int, insertedAt: int, fault: UploadFault, fails: Key -> bool)
      returns (created: Option<nat>)
      requires Valid() && temp !in files && final !in files && temp != final
      modifies this
      ensures Valid()
      ensures created.Some? <==> fault.NoFault?
      ensures created.Some? ==>
                && created.value !in old(docs)
                && docs == old(docs)[created.value := Document(final, false, insertedAt)]
                && files == old(files)[final := savedAt]
      ensures created.None? ==>
                && docs == old(docs)
                && files == (match fault
                             case TooLarge => if fails(temp) then old(files)[temp := savedAt] else old(files)
                             case SaveFails => if fails(temp) then old(files)[temp := savedAt] else old(files)
                             case BadHeader => if fails(temp) then old(files)[temp := savedAt] else old(files)
                             case NoText => if fails(temp) then old(files)[temp := savedAt] else old(files)
                             case PromoteFails => if fails(temp) then old(files)[temp := savedAt] else old(files)
                             case InsertFailed => if fails(final) then old(files)[final := savedAt] else old(files)
                             case _ => old(files))
    {
      if fault.NotCreated? {
        return None;
      }
      files := files[temp := savedAt];
      assert files - {temp} == old(files);
      if fault.TooLarge? || fault.SaveFails? || fault.BadHeader? || fault.NoText? || fault.PromoteFails? {
        TryDelete(temp, fails);
        return None;
      }
      files := (files - {temp})[final := files[temp]];
      assert files - {final} == old(files);
      if fault.InsertFailed? {
        TryDelete(final, fails);
        return None;
      }
      created := Some(nextDoc);
      docs := docs[nextDoc := Document(final, false, insertedAt)];
      nextDoc := nextDoc + 1;
    }

    /** The inner loop of Cleanup, over the files listed under one prefix. */
    method SweepTarget(list: seq<Info>, temporary: bool, referenced: set<Key>, now: int, graces: Graces, fails: Key -> bool,
                       before: Stats) returns (stats: Stats)
      modifies this`files
      ensures var verdicts := Verdicts(list, temporary, referenced, now, graces, fails);
              && stats == Stats(before.scanned + |list|, before.deleted + Count(verdicts, Drop),
                                before.skipped + Count(verdicts, Skip), before.failed + Count(verdicts, Fail))
              && (forall k :: k in files <==> k in old(files) && forall i | 0 <= i < |list| :: list[i].key == k ==>
                  now - list[i].modTime < (if temporary then graces.temp else graces.orphan) ||
                  (!temporary && k in referenced) || fails(k))
              && (forall k | k in files :: files[k] == old(files)[k])
    {
      stats := before;
      var verdicts := Verdicts(list, temporary, referenced, now, graces, fails);
      for n := 0 to |list|
        invariant stats == Stats(before.scanned + n, before.deleted + Count(verdicts[..n], Drop),
                                 before.skipped + Count(verdicts[..n], Skip), before.failed + Count(verdicts[..n], Fail))
        invariant forall k :: k in files <==> k in old(files) && forall i | 0 <= i < n :: list[i].key == k ==>
            verdicts[i] != Drop
        invariant forall k | k in files :: files[k] == old(files)[k]
      {
        CountSnoc(verdicts, n, Drop);
        CountSnoc(verdicts, n, Skip);
        CountSnoc(verdicts, n, Fail);
        var file := list[n];
        stats := stats.(scanned := stats.scanned + 1);
        var grace := if temporary then graces.temp else graces.orphan;
        if now - file.modTime < grace {
          stats := stats.(skipped := stats.skipped + 1);
        } else if !temporary && file.key in referenced {
          stats := stats.(skipped := stats.skipped + 1);
        } else if fails(file.key) {
          stats := stats.(failed := stats.failed + 1);
        } else {
          files := files - {file.key};
          stats := stats.(deleted := stats.deleted + 1);
        }
      }
      assert verdicts[..|list|] == verdicts;
    }

    /** Cleanup; a listing is None when it fails. A file goes exactly when a listing shows it expired and its deletion
        works, and the counters balance. */
    method Cleanup(temporaries: Option<seq<Info>>, documents: Option<seq<Info>>, referenced: set<Key>, now: int,
                   graces: Graces, fails: Key -> bool) returns (stats: Stats)
      modifies this`files
      ensures var listFailures := (if temporaries.None? then 1 else 0) + (if documents.None? then 1 else 0);
              && stats.scanned + listFailures == stats.deleted + stats.skipped + stats.failed
              && stats.scanned == |Listed(temporaries)| + |Listed(documents)|
              && stats.deleted == Count(Verdicts(Listed(temporaries), true, referenced, now, graces, fails), Drop) +
                                  Count(Verdicts(Listed(documents), false, referenced, now, graces, fails), Drop)
              && stats.failed == Count(Verdicts(Listed(temporaries), true, referenced, now, graces, fails), Fail) +
                                 Count(Verdicts(Listed(documents), false, referenced, now, graces, fails),
                                     Fail) + listFailures
      ensures forall k :: k in files <==>
                k in old(files)
                && (forall i | 0 <= i < |Listed(temporaries)| :: Listed(temporaries)[i].key == k ==>
                      now - Listed(temporaries)[i].modTime < graces.temp || fails(k))
                && (forall i | 0 <= i < |Listed(documents)| :: Listed(documents)[i].key == k ==>
                      now - Listed(documents)[i].modTime < graces.orphan || k in referenced || fails(k))
      ensures forall k | k in files :: files[k] == old(files)[k]
    {
      hide VerdictOn, Count;
      stats := Stats(0, 0, 0, 0);
      NothingCounted();
      CountsAddUp(Verdicts(Listed(temporaries), true, referenced, now, graces, fails));
      CountsAddUp(Verdicts(Listed(documents), false, referenced, now, graces, fails));
      if temporaries.Some? {
        stats := SweepTarget(temporaries.value, true, referenced, now, graces, fails, stats);
      } else {
        stats := stats.(failed := stats.failed + 1);
      }
      if documents.Some? {
        stats := SweepTarget(documents.value, false, referenced, now, graces, fails, stats);
      } else {
        stats := stats.(failed := stats.failed + 1);
      }
    }
  }

  lemma NothingCounted()
    ensures forall v: Verdict :: Count([], v) == 0
  {}
}
