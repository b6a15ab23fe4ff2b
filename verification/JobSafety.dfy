/** What every run of the job protocol keeps, with arbitrary delays, clocks, losses and interleavings. */
module JobSafety {
  import opened Base
  import opened ParseJobs
  import Text

  // ---------- the invariant on rows ----------

  predicate HasResult(results: map<nat, ResultRow>, j: nat) {
    exists r | r in results :: results[r].job == j
  }

  predicate IdsInUse(db: Db) {
    && (forall d | d in db.docs :: d < db.nextDoc)
    && (forall j | j in db.jobs :: j < db.nextJob)
    && (forall r | r in db.results :: r < db.nextResult)
  }

  /** Every job belongs to its document's owner, and an active one to a document that is not deleted. */
  predicate JobsReferToDocuments(docs: map<nat, Document>, jobs: map<nat, Job>) {
    forall j | j in jobs ::
      && jobs[j].doc in docs && docs[jobs[j].doc].user == jobs[j].user
      && (Active(jobs[j].status) ==> !docs[jobs[j].doc].deleted)
  }

  predicate OneActiveJob(jobs: map<nat, Job>) {
    forall j, k | j in jobs && k in jobs && j != k && jobs[j].doc == jobs[k].doc ::
      !(Active(jobs[j].status) && Active(jobs[k].status))
  }

  /** A result row belongs to a successful job, carries its user and document, and is that job's only one. */
  predicate ResultsMatchJobs(jobs: map<nat, Job>, results: map<nat, ResultRow>) {
    && (forall r | r in results ::
          var row := results[r];
          && row.job in jobs && jobs[row.job].status == Success
          && row.user == jobs[row.job].user && row.doc == jobs[row.job].doc)
    && (forall r, q | r in results && q in results && r != q :: results[r].job != results[q].job)
  }

  predicate SuccessHasResult(jobs: map<nat, Job>, results: map<nat, ResultRow>) {
    forall j | j in jobs && jobs[j].status == Success :: HasResult(results, j)
  }

  function Content(document: Document): Option<string> {
    if document.textInput.Some? then document.textInput else document.rawText
  }

  predicate DocumentsHaveText(docs: map<nat, Document>) {
    forall d | d in docs :: Content(docs[d]).Some? && Text.Trim(Content(docs[d]).value) != ""
  }

  predicate RowsOk(db: Db) {
    && IdsInUse(db) && JobsReferToDocuments(db.docs, db.jobs) && OneActiveJob(db.jobs)
    && ResultsMatchJobs(db.jobs, db.results) && SuccessHasResult(db.jobs, db.results) && DocumentsHaveText(db.docs)
  }

  // ---------- what no step undoes ----------

  /** Rows persist; a job's user and document, a document's owner and text, a deletion,
      a successful job and a result row are final. */
  predicate Evolves(db: Db, db': Db) {
    && (forall d | d in db.docs :: d in db'.docs && db'.docs[d] == db.docs[d].(deleted := db'.docs[d].deleted)
                                   && (db.docs[d].deleted ==> db'.docs[d].deleted))
    && (forall j | j in db.jobs :: j in db'.jobs && db'.jobs[j].user == db.jobs[j].user && db'.jobs[j].doc == db.jobs[j].doc
                                   && (db.jobs[j].status == Success ==> db'.jobs[j] == db.jobs[j]))
    && (forall r | r in db.results :: r in db'.results && db'.results[r] == db.results[r])
  }

  lemma EvolvesTransitive(a: Db, b: Db, c: Db)
    requires Evolves(a, b) && Evolves(b, c)
    ensures Evolves(a, c)
  {
  }

  lemma EvolvesReflexive(db: Db)
    ensures Evolves(db, db)
  {
  }

  // ---------- each statement keeps the rows ----------

  lemma SuccessKept(db: Db, db': Db)
    requires SuccessHasResult(db.jobs, db.results)
    requires forall j | j in db'.jobs && db'.jobs[j].status == Success ::
        (j in db.jobs && db.jobs[j].status == Success) || HasResult(db'.results, j)
    requires forall r | r in db.results :: r in db'.results && db'.results[r] == db.results[r]
    ensures SuccessHasResult(db'.jobs, db'.results)
  {
    forall j | j in db'.jobs && db'.jobs[j].status == Success ensures HasResult(db'.results, j) {
      if j in db.jobs && db.jobs[j].status == Success {
        assert HasResult(db.results, j);
        var r :| r in db.results && db.results[r].job == j;
        assert db'.results[r].job == j;
      }
    }
  }

  /** A job may become active only where the unique index allows it. */
  predicate MayBe(db: Db, j: nat, job: Job)
    requires j in db.jobs
  {
    && db.jobs[j].status != Success && job.status != Success
    && job.user == db.jobs[j].user && job.doc == db.jobs[j].doc
    && (Active(job.status) ==>
          Active(db.jobs[j].status) || (job.doc in db.docs && !db.docs[job.doc].deleted && !HasActiveJob(db, job.doc)))
  }

  lemma UpdateKeepsOneActive(db: Db, j: nat, job: Job)
    requires OneActiveJob(db.jobs) && j in db.jobs && MayBe(db, j, job)
    ensures OneActiveJob(SetJob(db, j, job).jobs)
  {
    var db' := SetJob(db, j, job);
    forall k, l | k in db'.jobs && l in db'.jobs && k != l && db'.jobs[k].doc == db'.jobs[l].doc
      ensures !(Active(db'.jobs[k].status) && Active(db'.jobs[l].status))
    {
      if k != j && l != j {
        assert db.jobs[k].doc == db.jobs[l].doc;
      } else if Active(db.jobs[j].status) {
        assert db.jobs[k].doc == db.jobs[l].doc;
      }
    }
  }

  lemma UpdateKeepsReferences(db: Db, j: nat, job: Job)
    requires JobsReferToDocuments(db.docs, db.jobs) && ResultsMatchJobs(db.jobs, db.results) && j in db.jobs &&
        MayBe(db, j, job)
    ensures JobsReferToDocuments(SetJob(db, j, job).docs, SetJob(db, j, job).jobs) &&
        ResultsMatchJobs(SetJob(db, j, job).jobs, SetJob(db, j, job).results)
  {
  }

  /** Replacing an unfinished job by an unfinished one. */
  lemma JobUpdateKeepsRows(db: Db, j: nat, job: Job)
    requires RowsOk(db) && j in db.jobs && MayBe(db, j, job)
    ensures RowsOk(SetJob(db, j, job)) && Evolves(db, SetJob(db, j, job))
  {
    hide OneActiveJob, JobsReferToDocuments, ResultsMatchJobs, SuccessHasResult, DocumentsHaveText;
    UpdateKeepsOneActive(db, j, job);
    UpdateKeepsReferences(db, j, job);
    SuccessKept(db, SetJob(db, j, job));
  }

  lemma InsertDocumentKeepsRows(db: Db, document: Document)
    requires RowsOk(db)
    requires Content(document).Some? && Text.Trim(Content(document).value) != ""
    ensures RowsOk(InsertDocument(db, document)) && Evolves(db, InsertDocument(db, document))
  {
    hide OneActiveJob, ResultsMatchJobs, SuccessHasResult, Text.Trim;
  }

  lemma {:induction false} EffectiveTextIsNotBlank(text: string)
    requires EffectiveCharacters(text) >= 1
    ensures Text.Trim(text) != ""
  {
    Text.TrimEmpty(text);
    var i := EffectiveAt(text);
  }

  lemma {:induction false} EffectiveAt(text: string) returns (i: nat)
    requires EffectiveCharacters(text) >= 1
    ensures i < |text| && !Text.IsSpace(text[i])
  {
    if Text.IsSpace(text[0]) || Text.IsControl(text[0]) {
      var k := EffectiveAt(text[1..]);
      i := k + 1;
    } else {
      i := 0;
    }
  }

  lemma CreateDocumentKeepsRows(db: Db, user: int, title: string, text: string, min: nat)
    requires RowsOk(db) && min >= 1
    ensures RowsOk(CreateText(db, user, title, text).0) && Evolves(db, CreateText(db, user, title, text).0)
    ensures RowsOk(CreatePDF(db, user, text, min).0) && Evolves(db, CreatePDF(db, user, text, min).0)
  {
    hide RowsOk, Evolves, Text.Trim;
    var content := Text.Trim(text);
    Text.TrimFixpoint(text);
    EvolvesReflexive(db);
    if CreateText(db, user, title, text).1.Ok? {
      InsertDocumentKeepsRows(db, Document(user, true, Some(content), Some(content), false));
    }
    if CreatePDF(db, user, text, min).1.Ok? {
      EffectiveTextIsNotBlank(content);
      InsertDocumentKeepsRows(db, Document(user, true, None, Some(content), false));
    }
  }

  lemma DeleteDocumentKeepsRows(db: Db, user: int, doc: nat)
    requires RowsOk(db)
    ensures RowsOk(DeleteDocument(db, user, doc).0) && Evolves(db, DeleteDocument(db, user, doc).0)
  {
    hide OneActiveJob, ResultsMatchJobs, SuccessHasResult, DocumentsHaveText;
    DeletedDocumentKeepsText(db, user, doc);
  }

  lemma DeletedDocumentKeepsText(db: Db, user: int, doc: nat)
    requires DocumentsHaveText(db.docs)
    ensures DocumentsHaveText(DeleteDocument(db, user, doc).0.docs)
  {
    hide Text.Trim;
    var docs := DeleteDocument(db, user, doc).0.docs;
    assert forall d | d in docs :: d in db.docs && Content(docs[d]) == Content(db.docs[d]);
  }

  lemma CreateJobKeepsRows(db: Db, user: int, doc: nat, now: int)
    requires RowsOk(db)
    ensures RowsOk(CreateJob(db, user, doc, now).0) && Evolves(db, CreateJob(db, user, doc, now).0)
  {
    hide OneActiveJob, SuccessHasResult, DocumentsHaveText, JobsReferToDocuments, ResultsMatchJobs;
    NewJobKeepsOneActive(db, user, doc, now);
    NewJobKeepsReferences(db, user, doc, now);
    SuccessKept(db, CreateJob(db, user, doc, now).0);
  }

  lemma NewJobKeepsReferences(db: Db, user: int, doc: nat, now: int)
    requires IdsInUse(db) && JobsReferToDocuments(db.docs, db.jobs) && ResultsMatchJobs(db.jobs, db.results)
    ensures var db' := CreateJob(db, user, doc, now).0;
            JobsReferToDocuments(db'.docs, db'.jobs) && ResultsMatchJobs(db'.jobs, db'.results)
  {
    hide HasActiveJob;
  }

  lemma NewJobKeepsOneActive(db: Db, user: int, doc: nat, now: int)
    requires OneActiveJob(db.jobs)
    ensures OneActiveJob(CreateJob(db, user, doc, now).0.jobs)
  {
    var jobs := CreateJob(db, user, doc, now).0.jobs;
    forall j, k | j in jobs && k in jobs && j != k && jobs[j].doc == jobs[k].doc
      ensures !(Active(jobs[j].status) && Active(jobs[k].status))
    {
      assert j != db.nextJob ==> j in db.jobs;
      assert k != db.nextJob ==> k in db.jobs;
    }
  }

  lemma CompleteJobKeepsResults(db: Db, j: nat, user: int, doc: nat, parsed: string, now: int)
    requires ResultsMatchJobs(db.jobs, db.results) && SuccessHasResult(db.jobs, db.results) &&
        (forall r | r in db.results :: r < db.nextResult)
    requires j in db.jobs && db.jobs[j].user == user && db.jobs[j].doc == doc
    ensures ResultsMatchJobs(CompleteJob(db, j, user, doc, parsed, now).0.jobs, CompleteJob(db, j, user, doc, parsed,
        now).0.results)
    ensures SuccessHasResult(CompleteJob(db, j, user, doc, parsed, now).0.jobs, CompleteJob(db, j, user, doc, parsed,
        now).0.results)
  {
    hide SuccessHasResult;
    var (db', ok) := CompleteJob(db, j, user, doc, parsed, now);
    if ok {
      assert db'.results[db.nextResult].job == j;
      SuccessKept(db, db');
    }
  }

  lemma CompleteJobKeepsRows(db: Db, j: nat, user: int, doc: nat, parsed: string, now: int)
    requires RowsOk(db)
    requires j in db.jobs && db.jobs[j].user == user && db.jobs[j].doc == doc
    ensures RowsOk(CompleteJob(db, j, user, doc, parsed, now).0)
    ensures Evolves(db, CompleteJob(db, j, user, doc, parsed, now).0)
  {
    hide ResultsMatchJobs, SuccessHasResult, DocumentsHaveText;
    CompleteJobKeepsResults(db, j, user, doc, parsed, now);
  }

  // ---------- the invariant on states ----------

  /** A handler's snapshot names an existing job, with that job's user and document. */
  predicate SnapshotOk(db: Db, handler: Handler) {
    var phase := handler.phase;
    (phase.Claimed? || phase.Parsing? || phase.Parsed? || phase.Closing?) ==>
      handler.jobId in db.jobs && db.jobs[handler.jobId].user == phase.job.user &&
          db.jobs[handler.jobId].doc == phase.job.doc
  }

  predicate Safe(s: State) {
    RowsOk(s.db) && forall h | h in s.handlers :: SnapshotOk(s.db, s.handlers[h])
  }

  lemma SnapshotsKept(s: State, s': State)
    requires Safe(s) && RowsOk(s'.db) && Evolves(s.db, s'.db)
    requires forall h | h in s'.handlers :: s'.handlers[h].phase.Ended? || s'.handlers[h].phase.Received? ||
                                            (h in s.handlers && s'.handlers[h] == s.handlers[h])
    ensures Safe(s')
  {
    hide RowsOk;
    forall h | h in s'.handlers ensures SnapshotOk(s'.db, s'.handlers[h]) {
      if h in s.handlers {
        assert SnapshotOk(s.db, s.handlers[h]);
      }
    }
  }

  lemma EffectKeepsRows(db: Db, handler: Handler, a: Action)
    requires RowsOk(db) && SnapshotOk(db, handler) && IsHandlerStep(a) && Expects(a, handler.phase)
    ensures RowsOk(Effect(db, handler, a).0) && Evolves(db, Effect(db, handler, a).0)
  {
    hide RowsOk, Evolves, LoadingOutcome, ReadingOutcome;
    EvolvesReflexive(db);
    var j := handler.jobId;
    match a
    case Claim(h, _) =>
      if j in db.jobs && db.jobs[j].status == Pending {
        JobUpdateKeepsRows(db, j, ClaimUpdate(db, j, handler.phase.stamp).0.jobs[j]);
      }
    case Complete(h, stamp, _) =>
      hide CompleteJob;
      CompleteJobKeepsRows(db, j, handler.phase.job.user, handler.phase.job.doc, handler.phase.parsed, stamp);
    case Fail(h, stamp, _) =>
      if j in db.jobs && db.jobs[j].status == Processing {
        JobUpdateKeepsRows(db, j, FailJob(db, j, handler.phase.message, stamp).0.jobs[j]);
      }
    case _ =>
  }

  lemma EffectKeepsSnapshot(db: Db, handler: Handler, a: Action)
    requires RowsOk(db) && SnapshotOk(db, handler) && IsHandlerStep(a) && Expects(a, handler.phase)
    requires Evolves(db, Effect(db, handler, a).0)
    ensures SnapshotOk(Effect(db, handler, a).0, handler.(phase := Effect(db, handler, a).1))
  {
    hide RowsOk, Evolves, Visible, Text.Trim, ClaimUpdate, CompleteJob, FailJob;
  }

  lemma HandlerStepSafe(s: State, a: Action)
    requires Safe(s) && IsHandlerStep(a)
    ensures Safe(HandlerStep(s, a)) && Evolves(s.db, HandlerStep(s, a).db)
  {
    hide RowsOk, Effect, Evolves;
    if !InPhase(s, a) {
      EvolvesReflexive(s.db);
    } else {
      var s', handler := HandlerStep(s, a), s.handlers[a.h];
      assert SnapshotOk(s.db, handler);
      EffectKeepsRows(s.db, handler, a);
      EffectKeepsSnapshot(s.db, handler, a);
      hide SnapshotOk;
      forall h | h in s'.handlers && h != a.h ensures SnapshotOk(s'.db, s'.handlers[h]) {
        OtherSnapshot(s.db, s'.db, s.handlers[h]);
      }
    }
  }

  lemma OtherSnapshot(db: Db, db': Db, handler: Handler)
    requires SnapshotOk(db, handler) && Evolves(db, db')
    ensures SnapshotOk(db', handler)
  {}

  lemma WorkerStepSafe(c: Config, s: State, a: Action)
    requires Safe(s) && IsWorkerStep(a)
    ensures Safe(WorkerStep(c, s, a)) && Evolves(s.db, WorkerStep(c, s, a).db)
  {
    hide RowsOk, Evolves;
    EvolvesReflexive(s.db);
    var s' := WorkerStep(c, s, a);
    match a {
      case Recover(w, stamp, _) =>
        if w in s.sweeps && s.sweeps[w].todo != [] {
          var Sweep(cutoff, todo) := s.sweeps[w];
          var (db, rows) := RecoverJob(s.db, todo[0].job, todo[0].seen, cutoff, c.maxRecoveries, stamp);
          if rows == 1 {
            JobUpdateKeepsRows(s.db, todo[0].job, db.jobs[todo[0].job]);
          }
        }
      case Touch(w, stamp, _) =>
        if w in s.rounds && !Idle(s, w) && s.rounds[w].sent {
          var Round(cutoff, listed, done, _) := s.rounds[w];
          var db := TouchPending(s.db, listed[done], cutoff, stamp);
          if db != s.db {
            JobUpdateKeepsRows(s.db, listed[done], db.jobs[listed[done]]);
          }
        }
      case _ =>
    }
    SnapshotsKept(s, s');
  }

  lemma ApiStepSafe(c: Config, s: State, a: Action)
    requires ValidConfig(c) && Safe(s) && !IsHandlerStep(a) && !IsWorkerStep(a)
    ensures Safe(Apply(c, s, a)) && Evolves(s.db, Apply(c, s, a).db)
  {
    hide RowsOk, Evolves, CreateText, CreatePDF, DeleteDocument, CreateJob;
    EvolvesReflexive(s.db);
    var s' := Apply(c, s, a);
    match a {
      case PostText(user, title, text, _) => CreateDocumentKeepsRows(s.db, user, title, text, 1);
      case PostPDF(user, text, _) => CreateDocumentKeepsRows(s.db, user, "", text, c.minEffectiveChars);
      case Delete(user, doc, _) => DeleteDocumentKeepsRows(s.db, user, doc);
      case PostJob(user, doc, stamp, _) => CreateJobKeepsRows(s.db, user, doc, stamp);
      case PostRetry(user, j, stamp, _) =>
        if Retry(s.db, user, j, stamp).1.Ok? {
          JobUpdateKeepsRows(s.db, j, Retry(s.db, user, j, stamp).0.jobs[j]);
        }
      case _ =>
    }
    SnapshotsKept(s, s');
  }

  lemma StepSafe(c: Config, s: State, a: Action)
    requires ValidConfig(c) && Safe(s)
    ensures Safe(Apply(c, s, a)) && Evolves(s.db, Apply(c, s, a).db)
  {
    if IsHandlerStep(a) {
      HandlerStepSafe(s, a);
    } else if IsWorkerStep(a) {
      WorkerStepSafe(c, s, a);
    } else {
      ApiStepSafe(c, s, a);
    }
  }

  lemma {:induction false} RunSafe(c: Config, s: State, actions: seq<Action>)
    requires ValidConfig(c) && Safe(s)
    ensures Safe(Exec(c, s, actions)) && Evolves(s.db, Exec(c, s, actions).db)
    decreases |actions|
  {
    if actions != [] {
      var s' := Apply(c, s, actions[0]);
      StepSafe(c, s, actions[0]);
      RunSafe(c, s', actions[1..]);
      EvolvesTransitive(s.db, s'.db, Exec(c, s, actions).db);
    }
  }

  // ---------- main results ----------

  /** Exactly-once result: in every reachable state a job has a result exactly when it succeeded, the result
      is the only one and carries the job's user and document. */
  lemma ExactlyOneResult(c: Config, clock: int, actions: seq<Action>, j: nat)
    requires ValidConfig(c)
    ensures var db := Exec(c, Init(clock), actions).db;
            && (HasResult(db.results, j) <==> j in db.jobs && db.jobs[j].status == Success)
            && (forall r, q | r in db.results && q in db.results && db.results[r].job == j &&
                db.results[q].job == j :: r == q)
            && (forall r | r in db.results && db.results[r].job == j ::
                  db.results[r].user == db.jobs[j].user && db.results[r].doc == db.jobs[j].doc)
  {
    RunSafe(c, Init(clock), actions);
  }

  /** Once a job is a success, neither it nor its result row ever changes again, whoever writes late. */
  lemma SuccessIsFinal(c: Config, clock: int, before: seq<Action>, after: seq<Action>, j: nat)
    requires ValidConfig(c)
    ensures var s := Exec(c, Init(clock), before);
            var s' := Exec(c, s, after);
            j in s.db.jobs && s.db.jobs[j].status == Success ==>
              && j in s'.db.jobs && s'.db.jobs[j] == s.db.jobs[j]
              && exists r :: r in s.db.results && r in s'.db.results && s.db.results[r].job == j &&
                  s'.db.results[r] == s.db.results[r]
  {
    RunSafe(c, Init(clock), before);
    var s := Exec(c, Init(clock), before);
    RunSafe(c, s, after);
    if j in s.db.jobs && s.db.jobs[j].status == Success {
      assert HasResult(s.db.results, j);
    }
  }

  /** A document never has two active jobs, and a deleted one has none, so a document is deletable exactly
      when its own query for active jobs finds nothing. */
  lemma ActiveJobs(c: Config, clock: int, actions: seq<Action>, doc: nat)
    requires ValidConfig(c)
    ensures var db := Exec(c, Init(clock), actions).db;
            && (forall j, k | j in db.jobs && k in db.jobs && db.jobs[j].doc == doc && db.jobs[k].doc == doc
                  && Active(db.jobs[j].status) && Active(db.jobs[k].status) :: j == k)
            && (HasActiveJob(db, doc) ==> doc in db.docs && !db.docs[doc].deleted)
            && (forall user | Visible(db, user, doc) ::
                  DeleteDocument(db, user, doc).1.Ok? <==> !HasActiveJob(db, doc))
  {
    RunSafe(c, Init(clock), actions);
  }

  /** The unique index on results never has to refuse a row: a processing job never has a result yet. The one on active
      jobs is needed; Retry makes no check of its own and turns its refusal into a conflict. */
  lemma ProcessingJobHasNoResult(c: Config, clock: int, actions: seq<Action>, j: nat, parsed: string, now: int)
    requires ValidConfig(c)
    ensures var db := Exec(c, Init(clock), actions).db;
            j in db.jobs ==>
              (CompleteJob(db, j, db.jobs[j].user, db.jobs[j].doc, parsed, now).1 <==> db.jobs[j].status == Processing)
  {
    RunSafe(c, Init(clock), actions);
  }
}
