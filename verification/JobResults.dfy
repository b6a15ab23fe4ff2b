/** The job protocol and the services on its results, side by side: the row that completeJob inserts is the row that users
    edit, confirm and turn into a project. */
module JobResults {
  import opened Base
  import J = ParseJobs
  import S = JobSafety
  import N = Normalize
  import L = Lifecycle
  import R = LifecycleSafety

  /** The columns that both models have. */
  predicate SameRows(rows: map<nat, J.ResultRow>, results: L.Results) {
    && rows.Keys == results.Keys
    && forall r | r in results ::
         results[r].user == rows[r].user && results[r].doc == rows[r].doc && results[r].job == rows[r].job
  }

  datatype State = State(jobs: J.State, db: L.Db)

  /** A step of the job protocol, with the answer that the parser gave if the step stores one, or a request to the other
      services. */
  datatype Action = OnJobs(a: J.Action, answer: N.Draft) | OnRows(request: L.Action)

  /** The parser's answers pass its own check before completeJob sees them. */
  function Apply(c: J.Config, s: State, a: Action): State {
    match a
    case OnJobs(step, answer) =>
      var jobs := J.Apply(c, s.jobs, step);
      if jobs.db.results == s.jobs.db.results then s.(jobs := jobs)
      else if !N.AcceptableDraft(answer, false) || s.jobs.db.nextResult !in jobs.db.results then s
      else
        var row := jobs.db.results[s.jobs.db.nextResult];
        State(jobs, L.InsertResult(s.db, row.user, row.doc, row.job, answer, step.now).0)
    case OnRows(request) =>
      if request.PostResult? then s else s.(db := L.Step(s.db, request).0)
  }

  function Exec(c: J.Config, s: State, actions: seq<Action>): State
    decreases |actions|
  {
    if actions == [] then s else Exec(c, Apply(c, s, actions[0]), actions[1..])
  }

  function Init(clock: int): State {
    State(J.Init(clock), L.EMPTY)
  }

  predicate Joined(s: State) {
    S.Safe(s.jobs) && R.RowsOk(s.db) && SameRows(s.jobs.db.results, s.db.results) && s.jobs.db.nextResult == s.db.nextResult
  }

  /** A step of the job protocol adds at most one result row, the next one, for a job that had none. */
  predicate AddsOne(db: J.Db, db': J.Db) {
    (db'.results == db.results && db'.nextResult == db.nextResult) ||
    (&& db.nextResult in db'.results && db'.nextResult == db.nextResult + 1
     && db'.results == db.results[db.nextResult := db'.results[db.nextResult]]
     && forall r | r in db.results :: db.results[r].job != db'.results[db.nextResult].job)
  }

  lemma JobStepAddsOne(c: J.Config, s: J.State, a: J.Action)
    ensures AddsOne(s.db, J.Apply(c, s, a).db)
  {
    if J.IsHandlerStep(a) {
      HandlerStepAddsOne(s, a);
      hide AddsOne, J.HandlerStep;
    } else if J.IsWorkerStep(a) {
      WorkerStepAddsNone(c, s, a);
      hide J.WorkerStep;
    } else {
      ApiStepAddsNone(c, s, a);
      hide J.Apply;
    }
  }

  lemma WorkerStepAddsNone(c: J.Config, s: J.State, a: J.Action)
    requires J.IsWorkerStep(a)
    ensures var db' := J.WorkerStep(c, s, a).db; db'.results == s.db.results && db'.nextResult == s.db.nextResult
  {
    hide J.ListStale, J.ListPending, J.Idle;
  }

  lemma ApiStepAddsNone(c: J.Config, s: J.State, a: J.Action)
    requires !J.IsHandlerStep(a) && !J.IsWorkerStep(a)
    ensures var db' := J.Apply(c, s, a).db; db'.results == s.db.results && db'.nextResult == s.db.nextResult
  {
    hide J.EffectiveCharacters, J.Visible, J.HasActiveJob, J.HandlerStep, J.WorkerStep;
  }

  lemma HandlerStepAddsOne(s: J.State, a: J.Action)
    requires J.IsHandlerStep(a)
    ensures AddsOne(s.db, J.HandlerStep(s, a).db)
  {
    if J.InPhase(s, a) {
      EffectAddsOne(s.db, s.handlers[a.h], a);
      hide J.Effect, AddsOne;
    }
  }

  lemma EffectAddsOne(db: J.Db, handler: J.Handler, a: J.Action)
    requires J.IsHandlerStep(a) && J.Expects(a, handler.phase)
    ensures AddsOne(db, J.Effect(db, handler, a).0)
  {
    hide J.LoadingOutcome, J.ReadingOutcome;
  }

  lemma RequestKeepsRows(db: L.Db, request: L.Action)
    ensures !request.PostResult? ==>
              var db' := L.Step(db, request).0;
              && db'.nextResult == db.nextResult && db'.results.Keys == db.results.Keys
              && forall r | r in db.results ::
                   db'.results[r].user == db.results[r].user && db'.results[r].doc == db.results[r].doc &&
                   db'.results[r].job == db.results[r].job
  {
    hide N.NormalizedUpdate, N.AcceptableDraft, N.DecodedTasks, N.FitsText, L.IsProjectOf, L.Lockable, L.FitsTask,
         L.MaxSortOrder, L.ValidOrder, L.Renumbered, L.CurrentIds, L.NewTasks;
  }

  lemma InsertKeepsSame(s: State, row: J.ResultRow, answer: N.Draft, now: int)
    requires SameRows(s.jobs.db.results, s.db.results) && s.jobs.db.nextResult == s.db.nextResult
    requires N.AcceptableDraft(answer, false) && forall r | r in s.jobs.db.results :: s.jobs.db.results[r].job != row.job
    ensures var (db', outcome) := L.InsertResult(s.db, row.user, row.doc, row.job, answer, now);
            && outcome.Accepted? && db'.nextResult == s.db.nextResult + 1
            && SameRows(s.jobs.db.results[s.jobs.db.nextResult := row], db'.results)
  {
    hide L.InsertResult, N.AcceptableDraft, R.HoldsDraft, SameRows;
    NewJob(s.jobs.db.results, s.db.results, row.job);
    InsertedResult(s.db, row, answer, now);
    AddSame(s.jobs.db.results, s.db.results, L.InsertResult(s.db, row.user, row.doc, row.job, answer, now).0.results,
        s.db.nextResult, row);
  }

  lemma NewJob(rows: map<nat, J.ResultRow>, results: L.Results, job: nat)
    requires SameRows(rows, results) && forall r | r in rows :: rows[r].job != job
    ensures forall r | r in results :: results[r].job != job
  {}

  lemma AddSame(rows: map<nat, J.ResultRow>, results: L.Results, results': L.Results, r: nat, row: J.ResultRow)
    requires SameRows(rows, results) && r in results' && results' == results[r := results'[r]]
    requires results'[r].user == row.user && results'[r].doc == row.doc && results'[r].job == row.job
    ensures SameRows(rows[r := row], results')
  {}

  lemma InsertedResult(db: L.Db, row: J.ResultRow, answer: N.Draft, now: int)
    requires N.AcceptableDraft(answer, false) && forall r | r in db.results :: db.results[r].job != row.job
    ensures var (db', outcome) := L.InsertResult(db, row.user, row.doc, row.job, answer, now);
            && outcome.Accepted? && db'.nextResult == db.nextResult + 1 && db.nextResult in db'.results
            && db'.results == db.results[db.nextResult := db'.results[db.nextResult]]
            && var added := db'.results[db.nextResult];
            && added.user == row.user && added.doc == row.doc && added.job == row.job
            && added.version == 1 && !added.confirmed && R.HoldsDraft(added.content, answer)
  {
    R.StoreHoldsDraft(answer, false);
    hide N.AcceptableDraft, L.Store, R.HoldsDraft;
  }

  lemma StepJoined(c: J.Config, s: State, a: Action)
    requires J.ValidConfig(c) && Joined(s)
    ensures Joined(Apply(c, s, a))
  {
    hide S.Safe, R.RowsOk, R.Moves, J.Apply, L.Step, L.InsertResult, N.AcceptableDraft, SameRows;
    if a.OnJobs? {
      S.StepSafe(c, s.jobs, a.a);
      JobStepAddsOne(c, s.jobs, a.a);
      var jobs := J.Apply(c, s.jobs, a.a);
      if jobs.db.results != s.jobs.db.results && N.AcceptableDraft(a.answer, false) {
        var row := jobs.db.results[s.jobs.db.nextResult];
        InsertKeepsSame(s, row, a.answer, a.a.now);
        R.InsertResultOk(s.db, row.user, row.doc, row.job, a.answer, a.a.now);
      }
    } else if !a.request.PostResult? {
      R.StepOk(s.db, a.request);
      RequestKeepsRows(s.db, a.request);
      SameAfter(s.jobs.db.results, s.db.results, L.Step(s.db, a.request).0.results);
    }
  }

  lemma SameAfter(rows: map<nat, J.ResultRow>, results: L.Results, results': L.Results)
    requires SameRows(rows, results) && results'.Keys == results.Keys
    requires forall r | r in results ::
               results'[r].user == results[r].user && results'[r].doc == results[r].doc && results'[r].job == results[r].job
    ensures SameRows(rows, results')
  {}

  lemma {:induction false} RunJoined(c: J.Config, s: State, actions: seq<Action>)
    requires J.ValidConfig(c) && Joined(s)
    ensures Joined(Exec(c, s, actions))
    decreases |actions|
  {
    hide Joined, Apply;
    if actions != [] {
      StepJoined(c, s, actions[0]);
      RunJoined(c, Apply(c, s, actions[0]), actions[1..]);
    }
  }

  /** In every interleaving of workers and requests, a project's confirmed result is the one result of a job that succeeded
      for the project's user. */
  lemma ProjectsComeFromSuccess(c: J.Config, clock: int, actions: seq<Action>, p: nat)
    requires J.ValidConfig(c)
    ensures var s := Exec(c, Init(clock), actions);
            p in s.db.projects ==>
              var r := s.db.projects[p].result;
              && r in s.db.results && s.db.results[r].confirmed && s.db.results[r].user == s.db.projects[p].user
              && var j := s.db.results[r].job;
              && j in s.jobs.db.jobs && s.jobs.db.jobs[j].status == J.Success
              && s.jobs.db.jobs[j].user == s.db.results[r].user && s.jobs.db.jobs[j].doc == s.db.results[r].doc
              && forall q | q in s.db.results && s.db.results[q].job == j :: q == r
  {
    hide Exec;
    InitJoined(clock);
    RunJoined(c, Init(clock), actions);
    JoinedProject(Exec(c, Init(clock), actions), p);
  }

  lemma InitJoined(clock: int)
    ensures Joined(Init(clock))
  {}

  lemma JoinedProject(s: State, p: nat)
    requires Joined(s)
    ensures p in s.db.projects ==>
            var r := s.db.projects[p].result;
            && r in s.db.results && s.db.results[r].confirmed && s.db.results[r].user == s.db.projects[p].user
            && var j := s.db.results[r].job;
            && j in s.jobs.db.jobs && s.jobs.db.jobs[j].status == J.Success
            && s.jobs.db.jobs[j].user == s.db.results[r].user && s.jobs.db.jobs[j].doc == s.db.results[r].doc
            && forall q | q in s.db.results && s.db.results[q].job == j :: q == r
  {
    hide R.ResultsOk, R.OneProjectPerResult, R.TasksOk, R.OrdersDistinct, S.DocumentsHaveText, S.OneActiveJob;
  }
}
