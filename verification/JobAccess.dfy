/** Who may change what in the job protocol, and what an acknowledged message says. */
module JobAccess {
  import opened Base
  import opened ParseJobs
  import opened JobSafety
  import Text

  predicate IsRequest(a: Action) {
    a.PostText? || a.PostPDF? || a.Delete? || a.PostJob? || a.PostRetry?
  }

  /** No document, job or result of another user changes, and what is new is the user's own. */
  predicate TouchesOnly(db: Db, db': Db, user: int) {
    && (forall d | d in db.docs && db.docs[d].user != user :: d in db'.docs && db'.docs[d] == db.docs[d])
    && (forall j | j in db.jobs && db.jobs[j].user != user :: j in db'.jobs && db'.jobs[j] == db.jobs[j])
    && (forall d | d in db'.docs && d !in db.docs :: db'.docs[d].user == user)
    && (forall j | j in db'.jobs && j !in db.jobs :: db'.jobs[j].user == user)
    && db'.results == db.results
  }

  /** A request changes only its user's rows, in whatever state of whatever run it comes. */
  lemma RequestsTouchOwnRows(c: Config, clock: int, actions: seq<Action>, a: Action)
    requires ValidConfig(c) && IsRequest(a)
    ensures var s := Exec(c, Init(clock), actions); TouchesOnly(s.db, Apply(c, s, a).db, a.user)
  {
    hide Exec;
    RunSafe(c, Init(clock), actions);
    RequestTouches(c, Exec(c, Init(clock), actions), a);
  }

  lemma RequestTouches(c: Config, s: State, a: Action)
    requires RowsOk(s.db) && IsRequest(a)
    ensures TouchesOnly(s.db, Apply(c, s, a).db, a.user)
  {
    hide RowsOk, TouchesOnly, CreateText, CreatePDF, DeleteDocument, CreateJob, Retry, HandlerStep, WorkerStep;
    match a
    case PostText(user, title, text, _) => NewDocumentTouches(s.db, user, title, text, 0);
    case PostPDF(user, text, _) => NewDocumentTouches(s.db, user, "", text, c.minEffectiveChars);
    case Delete(user, doc, _) => DeletionTouches(s.db, user, doc);
    case PostJob(user, doc, stamp, _) => JobTouches(s.db, user, doc, stamp);
    case PostRetry(user, j, stamp, _) => JobTouches(s.db, user, j, stamp);
  }

  lemma NewDocumentTouches(db: Db, user: int, title: string, text: string, minEffectiveChars: nat)
    requires RowsOk(db)
    ensures TouchesOnly(db, CreateText(db, user, title, text).0, user)
    ensures TouchesOnly(db, CreatePDF(db, user, text, minEffectiveChars).0, user)
  {
    hide JobsReferToDocuments, OneActiveJob, ResultsMatchJobs, SuccessHasResult, DocumentsHaveText, Text.Trim,
         EffectiveCharacters;
  }

  lemma DeletionTouches(db: Db, user: int, doc: nat)
    ensures TouchesOnly(db, DeleteDocument(db, user, doc).0, user)
  {}

  lemma JobTouches(db: Db, user: int, id: nat, stamp: int)
    requires RowsOk(db)
    ensures TouchesOnly(db, CreateJob(db, user, id, stamp).0, user)
    ensures TouchesOnly(db, Retry(db, user, id, stamp).0, user)
  {
    hide JobsReferToDocuments, OneActiveJob, ResultsMatchJobs, SuccessHasResult, DocumentsHaveText, HasActiveJob;
  }

  /** A text becomes a document exactly when title and text are more than white space and the text fits; a PDF when its
      text has enough characters that are neither white space nor control characters. The row keeps the trimmed text. */
  lemma DocumentsAreCreated(db: Db, user: int, title: string, text: string, minEffectiveChars: nat)
    ensures var (db', r) := CreateText(db, user, title, text);
            && (r.Ok? <==> !Text.Blank(title) && !Text.Blank(text) && |Text.Trim(text)| <= 50000)
            && (r.Err? ==> r.error == InvalidInput && db' == db)
            && (r.Ok? ==> r.value == db.nextDoc && db' == db.(nextDoc := db.nextDoc + 1,
                  docs := db.docs[db.nextDoc := Document(user, true, Some(Text.Trim(text)), Some(Text.Trim(text)), false)]))
    ensures var (db', r) := CreatePDF(db, user, text, minEffectiveChars);
            && (r.Ok? <==> |Visibles(Text.Trim(text))| >= minEffectiveChars)
            && (r.Err? ==> r.error == InvalidInput && db' == db)
            && (r.Ok? ==> r.value == db.nextDoc && db' == db.(nextDoc := db.nextDoc + 1,
                  docs := db.docs[db.nextDoc := Document(user, true, None, Some(Text.Trim(text)), false)]))
  {
    Text.TrimEmpty(title);
    Text.TrimEmpty(text);
    CountsVisibles(Text.Trim(text));
    hide Text.Trim, Text.Blank, EffectiveCharacters, Visibles;
  }

  /** The positions of a text that count. */
  function Visibles(text: string): set<nat> {
    set i: nat | i < |text| && !Text.IsSpace(text[i]) && !Text.IsControl(text[i])
  }

  lemma {:induction false} CountsVisibles(text: string)
    ensures EffectiveCharacters(text) == |Visibles(text)|
  {
    if text != "" {
      VisiblesAfterFirst(text);
      hide Text.IsSpace, Text.IsControl, Visibles;
      CountsVisibles(text[1..]);
    }
  }

  lemma VisiblesAfterFirst(text: string)
    requires text != ""
    ensures |Visibles(text)| == |Visibles(text[1..])| + (if Text.IsSpace(text[0]) || Text.IsControl(text[0]) then 0 else 1)
  {
    hide Text.IsSpace, Text.IsControl;
    var first: set<nat> := if Text.IsSpace(text[0]) || Text.IsControl(text[0]) then {} else {0};
    var later := set i: nat | i in Visibles(text[1..]) :: i + 1;
    Shifted(Visibles(text[1..]), later);
    forall i: nat ensures i in Visibles(text) <==> i in first + later {
      assert i in later <==> i > 0 && i - 1 in Visibles(text[1..]);
    }
    assert Visibles(text) == first + later && 0 !in later;
  }

  lemma {:induction false} Shifted(s: set<nat>, t: set<nat>)
    requires t == set i | i in s :: i + 1
    ensures |t| == |s|
    decreases |s|
  {
    if s != {} {
      var x :| x in s;
      var rest := s - {x};
      var moved: set<nat> := set i | i in rest :: i + 1;
      Shifted(rest, moved);
      forall y: nat ensures y in t <==> y in moved + {x + 1} {
        assert y in t <==> y > 0 && y - 1 in s;
        assert y in moved <==> y > 0 && y - 1 in rest;
      }
      assert t == moved + {x + 1};
    }
  }

  /** A worker acknowledges a message only of a job that is closed then, or of no job at all. */
  lemma AcknowledgedMeansClosed(c: Config, s: State, a: Action, h: nat)
    ensures var s' := Apply(c, s, a);
            h in s'.handlers && s'.handlers[h].phase == Ended(true) &&
            !(h in s.handlers && s.handlers[h].phase == Ended(true)) ==>
              var j := s'.handlers[h].jobId;
              (j in s'.db.jobs && (s'.db.jobs[j].status == Success || s'.db.jobs[j].status == Failed)) ||
              (a.Receive? && a.message <= 0)
  {
    if IsHandlerStep(a) {
      HandlerAcks(s, a, h);
      hide HandlerStep, WorkerStep;
    } else {
      OtherHandlers(c, s, a, h);
      hide Apply;
    }
  }

  lemma HandlerAcks(s: State, a: Action, h: nat)
    requires IsHandlerStep(a)
    ensures var s' := HandlerStep(s, a);
            h in s'.handlers ==>
              (h in s.handlers && s'.handlers[h] == s.handlers[h]) || s'.handlers[h].phase != Ended(true) ||
              (var j := s'.handlers[h].jobId;
               j in s'.db.jobs && (s'.db.jobs[j].status == Success || s'.db.jobs[j].status == Failed))
  {
    if InPhase(s, a) {
      ClosedBy(s.db, s.handlers[a.h], a);
      hide Effect;
    }
  }

  lemma OtherHandlers(c: Config, s: State, a: Action, h: nat)
    requires !IsHandlerStep(a)
    ensures var s' := Apply(c, s, a);
            h in s'.handlers ==>
              (h in s.handlers && s'.handlers[h] == s.handlers[h]) ||
              (a.Receive? && (s'.handlers[h].phase.Received? || a.message <= 0)) || s'.handlers[h].phase == Ended(false)
  {
    hide RecoverJob, TouchPending, ListStale, ListPending, CreateText, CreatePDF, DeleteDocument, CreateJob, Retry,
         HandlerStep;
  }

  lemma ClosedBy(db: Db, handler: Handler, a: Action)
    requires IsHandlerStep(a) && Expects(a, handler.phase)
    ensures var (db', phase) := Effect(db, handler, a);
            phase == Ended(true) ==>
              var j := handler.jobId; j in db'.jobs && (db'.jobs[j].status == Success || db'.jobs[j].status == Failed)
  {
    hide ReadingOutcome;
    assert a.ReadDocument? ==> !ReadingOutcome(db, handler.phase.job, a.fails).Ended? by {
      if a.ReadDocument? {
        ReadingGoesOn(db, handler.phase.job, a.fails);
      }
    }
  }

  lemma ReadingGoesOn(db: Db, job: Job, fails: bool)
    ensures !ReadingOutcome(db, job, fails).Ended?
  {
    hide Text.Trim;
  }
}
