/** The temporary files of uploads in progress: how long an upload may take before a sweep can take its file. Unlike the
    files of documents these have no row, so their age is all that protects them. */
module TempFiles {
  import opened Files

  // ---------- the invariant ----------

  /** A temporary file is there until it is as old as its grace period. */
  predicate TempsKept(uploads: Uploads, files: Stamps, written: Stamps, clock: int, grace: nat) {
    forall u | u in uploads && uploads[u].Saved? ::
      uploads[u].key.TempKey? &&
      (uploads[u].key in files || (uploads[u].key in written && clock - written[uploads[u].key] >= grace))
  }

  predicate UploadKeys(uploads: Uploads, written: Stamps) {
    forall u | u in uploads :: uploads[u].key in written && (uploads[u].Promoted? ==> uploads[u].key.FinalKey?)
  }

  predicate FinalKeys(docs: Documents, removals: set<Key>) {
    (forall d | d in docs :: docs[d].key.FinalKey?) && (forall k | k in removals :: k.FinalKey?)
  }

  /** A sweep has read the clock, and each file's time, no later than now. */
  predicate SweepsRead(sweeps: Sweeps, written: Stamps, clock: int) {
    forall w | w in sweeps && sweeps[w].Walking? ::
      sweeps[w].now <= clock && forall i | 0 <= i < |sweeps[w].todo| ::
        sweeps[w].todo[i].key in written && sweeps[w].todo[i].modTime == written[sweeps[w].todo[i].key]
  }

  predicate Kept(s: State, graces: Graces) {
    && StampsOk(s.files, s.written, s.next)
    && TempsKept(s.uploads, s.files, s.written, s.clock, graces.temp)
    && UploadKeys(s.uploads, s.written)
    && UploadKeysDistinct(s.uploads)
    && FinalKeys(s.docs, s.removals)
    && SweepsRead(s.sweeps, s.written, s.clock)
  }

  lemma NewTempKept(s: State, a: Action, graces: Graces)
    requires Kept(s, graces) && a.SaveTemp?
    ensures Kept(Step(s, a, graces), graces)
  {}

  lemma PromoteKept(s: State, a: Action, graces: Graces)
    requires Kept(s, graces) && a.Promote?
    ensures Kept(Step(s, a, graces), graces)
  {
    if a.u in s.uploads && s.uploads[a.u].Saved? && s.uploads[a.u].key in s.files {
      assert FinalKey(s.next) !in s.written;
    }
  }

  lemma UploadStepKept(s: State, a: Action, graces: Graces)
    requires Kept(s, graces) && (a.Abandon? || a.Insert? || a.InsertFails? || a.Crash?)
    ensures Kept(Step(s, a, graces), graces)
  {
    hide SweepsRead;
  }

  lemma DiscardKept(s: State, a: Action, graces: Graces)
    requires Kept(s, graces) && a.Discard?
    ensures Kept(Step(s, a, graces), graces)
  {
    hide SweepsRead, FinalKeys;
  }

  lemma DocumentStepKept(s: State, a: Action, graces: Graces)
    requires Kept(s, graces) && (a.Delete? || a.Remove? || a.Tick?)
    ensures Kept(Step(s, a, graces), graces)
  {
    hide UploadKeysDistinct;
  }

  lemma SweepStepKept(s: State, a: Action, graces: Graces)
    requires Kept(s, graces) && (a.Query? || a.Stamp? || a.Visit? || a.Finish?)
    ensures Kept(Step(s, a, graces), graces)
  {
    hide UploadKeysDistinct, UploadKeys, TempsKept, FinalKeys;
  }

  /** Where the grace period counts. */
  lemma HandleKept(s: State, a: Action, graces: Graces)
    requires Kept(s, graces) && a.Handle?
    ensures Kept(Step(s, a, graces), graces)
  {
    hide UploadKeysDistinct, FinalKeys;
  }

  lemma StepKept(s: State, a: Action, graces: Graces)
    requires Kept(s, graces)
    ensures Kept(Step(s, a, graces), graces)
  {
    hide Kept, Step;
    if a.SaveTemp? {
      NewTempKept(s, a, graces);
    } else if a.Promote? {
      PromoteKept(s, a, graces);
    } else if a.Delete? || a.Remove? || a.Tick? {
      DocumentStepKept(s, a, graces);
    } else if a.Handle? {
      HandleKept(s, a, graces);
    } else if a.Query? || a.Stamp? || a.Visit? || a.Finish? {
      SweepStepKept(s, a, graces);
    } else if a.Discard? {
      DiscardKept(s, a, graces);
    } else {
      UploadStepKept(s, a, graces);
    }
  }

  lemma {:induction false} RunKept(s: State, actions: seq<Action>, graces: Graces)
    requires Kept(s, graces)
    ensures Kept(Exec(s, actions, graces), graces)
    decreases |actions|
  {
    hide Kept, Step;
    if actions != [] {
      StepKept(s, actions[0], graces);
      RunKept(Step(s, actions[0], graces), actions[1..], graces);
    }
  }

  // ---------- main results ----------

  /** Whatever else happens, an upload whose file is younger than the grace period is promoted: the file moves to its final
      place and keeps its time. */
  lemma YoungUploadIsPromoted(graces: Graces, actions: seq<Action>, u: nat)
    ensures var s := Exec(INIT, actions, graces); var s' := Step(s, Promote(u), graces);
            u in s.uploads && s.uploads[u].Saved? ==>
              && s.uploads[u].key in s.written
              && (s.clock - s.written[s.uploads[u].key] < graces.temp ==>
                    && s.uploads[u].key in s.files && s.uploads[u].key !in s'.files
                    && u in s'.uploads && s'.uploads[u].Promoted? && s'.uploads[u].key in s'.files
                    && s'.files[s'.uploads[u].key] == s.written[s.uploads[u].key]
                    && s'.docs == s.docs)
  {
    hide Exec;
    RunKept(INIT, actions, graces);
  }

  /** The uploads that are no older than the limit have their files. */
  predicate TempsPresent(s: State, limit: nat) {
    forall u | u in s.uploads && s.uploads[u].Saved? && s.uploads[u].key in s.written &&
               s.clock - s.written[s.uploads[u].key] <= limit ::
      s.uploads[u].key in s.files
  }

  /** In every interleaving the uploads no older than a limit have their files, exactly when the limit is below the grace
      period for temporary files. */
  lemma TempsSafeIff(graces: Graces, limit: nat)
    ensures (forall actions :: TempsPresent(Exec(INIT, actions, graces), limit)) <==> limit < graces.temp
  {
    if limit < graces.temp {
      forall actions ensures TempsPresent(Exec(INIT, actions, graces), limit) {
        hide Exec;
        RunKept(INIT, actions, graces);
      }
    } else {
      var actions := SweptUpload(graces);
      assert !TempsPresent(Exec(INIT, actions, graces), limit);
    }
  }

  /** A sweep takes the file of an upload that is as old as the grace period. */
  lemma SweptUpload(graces: Graces) returns (actions: seq<Action>)
    ensures !TempsPresent(Exec(INIT, actions, graces), graces.temp)
  {
    var s1 := Step(INIT, SaveTemp, graces);
    var s2 := Step(s1, Tick(graces.temp), graces);
    hide Exec;
    var sweep := OldFileGoes(s2, graces);
    hide Step;
    Before(s1, Tick(graces.temp), sweep, graces);
    Before(INIT, SaveTemp, [Tick(graces.temp)] + sweep, graces);
    actions := [SaveTemp] + ([Tick(graces.temp)] + sweep);
  }

  lemma OldFileGoes(s: State, graces: Graces) returns (sweep: seq<Action>)
    requires 0 in s.uploads && s.uploads[0] == Saved(TempKey(0)) && s.next == 1
    requires TempKey(0) in s.written && s.written[TempKey(0)] == 0 && s.clock == graces.temp
    requires TempKey(0) in s.files && s.files[TempKey(0)] == 0
    ensures !TempsPresent(Exec(s, sweep, graces), graces.temp)
  {
    var s1 := Step(s, Query, graces);
    var s2 := Step(s1, Stamp(1), graces);
    var s3 := Step(s2, Visit(1, TempKey(0)), graces);
    OldFileErased(s, graces);
    hide Step, Exec, TempsPresent;
    Before(s3, Handle(1, false), [], graces);
    NothingMore(Step(s3, Handle(1, false), graces), graces);
    Before(s2, Visit(1, TempKey(0)), [Handle(1, false)], graces);
    Before(s1, Stamp(1), [Visit(1, TempKey(0)), Handle(1, false)], graces);
    sweep := [Query] + [Stamp(1), Visit(1, TempKey(0)), Handle(1, false)];
    Before(s, Query, [Stamp(1), Visit(1, TempKey(0)), Handle(1, false)], graces);
  }

  lemma OldFileErased(s: State, graces: Graces)
    requires 0 in s.uploads && s.uploads[0] == Saved(TempKey(0)) && s.next == 1
    requires TempKey(0) in s.written && s.written[TempKey(0)] == 0 && s.clock == graces.temp
    requires TempKey(0) in s.files && s.files[TempKey(0)] == 0
    ensures var s1 := Step(s, Query, graces);
            var s2 := Step(s1, Stamp(1), graces);
            var s3 := Step(s2, Visit(1, TempKey(0)), graces);
            !TempsPresent(Step(s3, Handle(1, false), graces), graces.temp)
  {
    var s1 := Step(s, Query, graces);
    var s2 := Step(s1, Stamp(1), graces);
    var s3 := Step(s2, Visit(1, TempKey(0)), graces);
    var s4 := Step(s3, Handle(1, false), graces);
    assert s4.uploads[0] == Saved(TempKey(0)) && TempKey(0) !in s4.files;
  }

  lemma NothingMore(s: State, graces: Graces)
    ensures Exec(s, [], graces) == s
  {}

  lemma Before(s: State, a: Action, rest: seq<Action>, graces: Graces)
    ensures Exec(s, [a] + rest, graces) == Exec(Step(s, a, graces), rest, graces)
  {
    hide Step;
    assert ([a] + rest)[1..] == rest;
  }
}
