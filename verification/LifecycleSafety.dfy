/** The invariant of parse results, projects and tasks, and what one step may change. */
module LifecycleSafety {
  import opened Base
  import opened Text
  import opened Normalize
  import opened Lifecycle
  import opened Sequences

  // ---------- the invariant ----------

  predicate StoredNormal(c: StoredContent) {
    c.generated.Stored? &&
    NormalContent(Content(c.title, c.summary, c.deadline, c.deliverables, c.keyRequirements, c.riskWarnings,
        c.generated.tasks))
  }

  predicate ResultsOk(results: Results, next: nat) {
    forall r | r in results :: 0 < r < next && StoredNormal(results[r].content)
  }

  /** A project belongs to the owner of its result, which is confirmed. */
  predicate ProjectsOk(results: Results, projects: Projects, next: nat) {
    forall p | p in projects ::
      && 0 < p < next
      && projects[p].result in results
      && projects[p].user == results[projects[p].result].user
      && results[projects[p].result].confirmed
  }

  predicate OneProjectPerResult(projects: Projects) {
    forall p, q | p in projects && q in projects && projects[p].result == projects[q].result :: p == q
  }

  predicate TasksOk(projects: Projects, tasks: Tasks, next: nat) {
    forall t | t in tasks ::
      0 < t < next && tasks[t].project in projects && tasks[t].user == projects[tasks[t].project].user &&
          tasks[t].sortOrder >= 0
  }

  predicate OrdersDistinct(tasks: Tasks) {
    forall t, u | t in tasks && u in tasks && t != u && tasks[t].project == tasks[u].project ::
      tasks[t].sortOrder != tasks[u].sortOrder
  }

  predicate RowsOk(db: Db) {
    && db.nextResult > 0 && db.nextProject > 0 && db.nextTask > 0
    && ResultsOk(db.results, db.nextResult)
    && ProjectsOk(db.results, db.projects, db.nextProject)
    && OneProjectPerResult(db.projects)
    && TasksOk(db.projects, db.tasks, db.nextTask)
    && OrdersDistinct(db.tasks)
  }

  // ---------- what one step may change ----------

  /** A result row is edited only before it is confirmed, and every edit counts its version up. */
  predicate ResultMoves(row: ParseResult, row': ParseResult) {
    && row'.user == row.user && row'.doc == row.doc && row'.job == row.job
    && (row.confirmed ==> row' == row)
    && (row' == row.(confirmed := row'.confirmed, updatedAt := row'.updatedAt) || row'.version == row.version + 1)
    && (row'.version == row.version || (row'.version == row.version + 1 && row'.confirmed == row.confirmed))
  }

  /** A project row changes only with its version; a deleted one never does. */
  predicate ProjectMoves(row: Project, row': Project) {
    && row'.user == row.user && row'.doc == row.doc && row'.result == row.result
    && (row' == row || row'.version == row.version + 1)
    && (row.status == Deleted ==> row' == row)
    && (row'.status == Deleted && row.status != Deleted ==> row.status == Archived)
  }

  /** A task row changes only with its version, except for its place in the order. */
  predicate TaskMoves(row: Task, row': Task) {
    && row'.project == row.project && row'.user == row.user && row'.source == row.source && row'.manual == row.manual
    && (row' == row.(sortOrder := row'.sortOrder, updatedAt := row'.updatedAt) || row'.version == row.version + 1)
    && (row'.version == row.version || row'.version == row.version + 1)
  }

  predicate ResultsMove(db: Db, db': Db) {
    db.nextResult <= db'.nextResult && forall r | r in db.results ::
        r in db'.results && ResultMoves(db.results[r], db'.results[r])
  }

  predicate ProjectsMove(db: Db, db': Db) {
    db.nextProject <= db'.nextProject && forall p | p in db.projects ::
        p in db'.projects && ProjectMoves(db.projects[p], db'.projects[p])
  }

  /** Tasks may be deleted, but a used identifier never comes back. */
  predicate TasksMove(db: Db, db': Db) {
    db.nextTask <= db'.nextTask &&
    forall t | t in db'.tasks && t < db.nextTask :: t in db.tasks && TaskMoves(db.tasks[t], db'.tasks[t])
  }

  /** A task of an existing project appears, changes or disappears only while the project is active. */
  ghost predicate OnlyActiveTasksMove(db: Db, db': Db) {
    forall t | t in db.tasks || t in db'.tasks ::
      (t in db.tasks && t in db'.tasks && db'.tasks[t] == db.tasks[t]) ||
      (var p := if t in db.tasks then db.tasks[t].project else db'.tasks[t].project;
       p in db.projects ==> db.projects[p].status == Active && p in db'.projects && db'.projects[p].status == Active)
  }

  ghost predicate Moves(db: Db, db': Db) {
    ResultsMove(db, db') && ProjectsMove(db, db') && TasksMove(db, db') && OnlyActiveTasksMove(db, db')
  }

  // ---------- what a row holds ----------

  /** The content columns hold the draft: texts without the white space around them, each list with the first occurrences
      of its values, the tasks tidied. */
  predicate HoldsDraft(c: StoredContent, draft: Draft) {
    && c.title == Trim(draft.title) && c.summary == Trim(draft.summary) && c.deadline == draft.deadline
    && draft.deliverables.Some? && c.deliverables == FirstOccurrences(TrimAll(draft.deliverables.value))
    && draft.keyRequirements.Some? && c.keyRequirements == FirstOccurrences(TrimAll(draft.keyRequirements.value))
    && draft.riskWarnings.Some? && c.riskWarnings == FirstOccurrences(TrimAll(draft.riskWarnings.value))
    && draft.tasks.Some? && c.generated.Stored? && |c.generated.tasks| == |draft.tasks.value|
    && forall i | 0 <= i < |draft.tasks.value| :: Tidied(c.generated.tasks[i], draft.tasks.value[i])
  }

  lemma StoreHoldsDraft(draft: Draft, blankIsMedium: bool)
    requires AcceptableDraft(draft, blankIsMedium)
    ensures HoldsDraft(Store(NormalizedContent(draft, blankIsMedium)), draft)
  {
    hide Trim, FirstOccurrences, TrimAll, Acceptable, AcceptableTask, FitsText;
  }

  /** The task holds what was generated, as the task at this place of the project: not begun and never edited. */
  predicate HoldsGenerated(task: Task, g: GeneratedTask, p: nat, user: int, r: nat, place: int) {
    && task.title == g.title && task.description == g.description && task.priority == g.priority
    && task.deadline == g.deadline
    && task.project == p && task.user == user && task.source == Some(r) && !task.manual
    && task.status == Todo && task.sortOrder == place && task.version == 1
  }

  /** The project holds what its result says, under the given name: active and never edited. */
  predicate HoldsResult(project: Project, result: ParseResult, r: nat, name: string) {
    && project.user == result.user && project.doc == result.doc && project.result == r
    && project.name == Trim(name) && project.description == Some(result.content.summary)
    && project.deadline == result.content.deadline && project.status == Active && project.version == 1
  }

  // ---------- steps on results ----------

  lemma StoreIsNormal(draft: Draft, blankIsMedium: bool)
    requires AcceptableDraft(draft, blankIsMedium)
    ensures StoredNormal(Store(NormalizedContent(draft, blankIsMedium)))
  {
    hide NormalContent, AcceptableDraft;
    NormalizersAgree(draft, blankIsMedium);
    var c := NormalizedContent(draft, blankIsMedium);
    assert c == Content(c.title, c.summary, c.deadline, c.deliverables, c.keyRequirements, c.riskWarnings, c.tasks);
  }

  /** Replacing a result row, or adding one. */
  lemma ResultUpdateOk(db: Db, r: nat, row: ParseResult)
    requires RowsOk(db) && StoredNormal(row.content)
    requires r in db.results ==> ResultMoves(db.results[r], row)
    requires r !in db.results ==> r == db.nextResult
    ensures var db' := db.(results := db.results[r := row], nextResult := if r in db.results then db.nextResult else r + 1);
            RowsOk(db') && Moves(db, db')
  {
    hide StoredNormal, OneProjectPerResult, TasksOk, OrdersDistinct;
  }

  lemma InsertResultOk(db: Db, user: int, doc: nat, job: nat, draft: Draft, now: int)
    requires RowsOk(db)
    ensures RowsOk(InsertResult(db, user, doc, job, draft, now).0) &&
        Moves(db, InsertResult(db, user, doc, job, draft, now).0)
  {
    hide Moves, StoredNormal, AcceptableDraft, Store, ProjectsOk, TasksOk, OrdersDistinct, OneProjectPerResult;
    NothingMoves(db);
    var (db', outcome) := InsertResult(db, user, doc, job, draft, now);
    if outcome.Accepted? {
      StoreIsNormal(draft, false);
      ResultUpdateOk(db, db.nextResult, db'.results[db.nextResult]);
    }
  }

  lemma UpdateResultOk(db: Db, user: int, r: nat, version: int, edit: Option<Draft>, now: int)
    requires RowsOk(db)
    ensures RowsOk(UpdateResult(db, user, r, version, edit, now).0) &&
        Moves(db, UpdateResult(db, user, r, version, edit, now).0)
  {
    NothingMoves(db);
    UpdatedRow(db, user, r, version, edit, now);
    hide RowsOk, Moves, StoredNormal, UpdateResult, ResultMoves;
    var (db', outcome) := UpdateResult(db, user, r, version, edit, now);
    if outcome.Accepted? {
      ResultUpdateOk(db, r, db'.results[r]);
    }
  }

  /** What an accepted update writes. */
  lemma UpdatedRow(db: Db, user: int, r: nat, version: int, edit: Option<Draft>, now: int)
    ensures var (db', outcome) := UpdateResult(db, user, r, version, edit, now);
            if outcome.Accepted? then
              && r in db.results && r in db'.results && db' == db.(results := db.results[r := db'.results[r]])
              && ResultMoves(db.results[r], db'.results[r]) && StoredNormal(db'.results[r].content)
            else db' == db
  {
    hide StoredNormal, AcceptableDraft, Store;
    if UpdateResult(db, user, r, version, edit, now).1.Accepted? {
      StoreIsNormal(edit.value, true);
    }
  }

  lemma ConfirmOk(db: Db, user: int, r: nat, now: int)
    requires RowsOk(db)
    ensures RowsOk(Confirm(db, user, r, now).0) && Moves(db, Confirm(db, user, r, now).0)
  {
    hide Moves, StoredNormal, ProjectsOk, TasksOk, OrdersDistinct, OneProjectPerResult;
    NothingMoves(db);
    var db' := Confirm(db, user, r, now).0;
    if db' != db {
      ResultUpdateOk(db, r, db'.results[r]);
    }
  }

  // ---------- steps on projects ----------

  lemma ProjectUpdateOk(db: Db, p: nat, project: Project)
    requires RowsOk(db) && p in db.projects && ProjectMoves(db.projects[p], project)
    ensures RowsOk(SetProject(db, p, project)) && Moves(db, SetProject(db, p, project))
  {
    hide ResultsOk, OrdersDistinct;
  }

  lemma ProjectStepOk(db: Db, a: Action)
    requires RowsOk(db) && (a.PutProject? || a.PostArchive? || a.PostUnarchive? || a.RemoveProject?)
    ensures RowsOk(Step(db, a).0) && Moves(db, Step(db, a).0)
  {
    hide RowsOk, Moves, FitsText, Trim;
    NothingMoves(db);
    var db' := Step(db, a).0;
    if db' != db {
      ProjectUpdateOk(db, a.p, db'.projects[a.p]);
    }
  }

  lemma NothingMoves(db: Db)
    ensures Moves(db, db)
  {
  }

  lemma InsertProjectOk(db: Db, user: int, r: nat, name: string, generated: seq<GeneratedTask>, now: int)
    requires RowsOk(db) && r in db.results && db.results[r].user == user && db.results[r].confirmed
    requires forall p | p in db.projects :: db.projects[p].result != r
    ensures RowsOk(InsertProject(db, user, r, name, generated, now)) &&
        Moves(db, InsertProject(db, user, r, name, generated, now))
  {
    hide ResultsOk, OrdersDistinct, TasksOk, NewTasks, Moves;
    InsertedTasks(db, user, r, name, generated, now);
    InsertProjectMoves(db, user, r, name, generated, now);
  }

  lemma InsertedTasks(db: Db, user: int, r: nat, name: string, generated: seq<GeneratedTask>, now: int)
    requires RowsOk(db) && r in db.results
    ensures var db' := InsertProject(db, user, r, name, generated, now);
            TasksOk(db'.projects, db'.tasks, db'.nextTask) && OrdersDistinct(db'.tasks)
  {
    hide ResultsOk, OrdersDistinct, OneProjectPerResult;
    var added := NewTasks(generated, db.nextTask, db.nextProject, user, r, now);
    NewOrders(added, db.nextTask);
    InsertedOrders(db.tasks, added, db.nextProject);
  }

  lemma InsertProjectMoves(db: Db, user: int, r: nat, name: string, generated: seq<GeneratedTask>, now: int)
    requires RowsOk(db) && r in db.results
    ensures Moves(db, InsertProject(db, user, r, name, generated, now))
  {
    hide ResultsOk, OrdersDistinct, OneProjectPerResult;
  }

  lemma NewOrders(added: Tasks, first: nat)
    requires forall t | t in added :: added[t].sortOrder == t - first
    ensures OrdersDistinct(added)
  {
  }

  lemma InsertedOrders(tasks: Tasks, added: Tasks, p: nat)
    requires OrdersDistinct(tasks) && OrdersDistinct(added)
    requires forall t | t in tasks :: t !in added && tasks[t].project != p
    requires forall t | t in added :: added[t].project == p
    ensures OrdersDistinct(tasks + added)
  {
  }

  lemma CreateProjectOk(db: Db, user: int, r: nat, name: string, now: int)
    requires RowsOk(db)
    ensures RowsOk(CreateProject(db, user, r, name, now).0) && Moves(db, CreateProject(db, user, r, name, now).0)
  {
    hide RowsOk, Moves, FitsText, Trim, DecodedTasks, IsProjectOf;
    NothingMoves(db);
    var (db', outcome) := CreateProject(db, user, r, name, now);
    if outcome.ProjectIs? && outcome.created {
      InsertProjectOk(db, user, r, Trim(name), DecodedTasks(db.results[r].content.generated).value, now);
    }
  }

  // ---------- steps on tasks ----------

  lemma TaskUpdateOk(db: Db, t: nat, task: Task)
    requires RowsOk(db) && t in db.tasks && TaskMoves(db.tasks[t], task) && task.sortOrder == db.tasks[t].sortOrder
    requires db.projects[db.tasks[t].project].status == Active
    ensures RowsOk(SetTask(db, t, task)) && Moves(db, SetTask(db, t, task))
  {
    hide ResultsOk, ProjectsOk, OneProjectPerResult;
  }

  lemma AddedTaskOk(db: Db, t: nat, task: Task)
    requires RowsOk(db) && t == db.nextTask && task.project in db.projects && task.user == db.projects[task.project].user
    requires db.projects[task.project].status == Active
    requires task.sortOrder >= 0 && forall u | u in db.tasks &&
        db.tasks[u].project == task.project :: db.tasks[u].sortOrder < task.sortOrder
    ensures var db' := db.(tasks := db.tasks[t := task], nextTask := t + 1);
            RowsOk(db') && Moves(db, db')
  {
    hide ResultsOk, ProjectsOk, OneProjectPerResult;
  }

  lemma CreateTaskOk(db: Db, a: Action)
    requires RowsOk(db) && a.PostTask?
    ensures RowsOk(Step(db, a).0) && Moves(db, Step(db, a).0)
  {
    hide ResultsOk, ProjectsOk, OneProjectPerResult, OrdersDistinct, Moves, FitsText, Trim;
    NothingMoves(db);
    var db' := Step(db, a).0;
    if db' != db {
      var t := db.nextTask;
      forall u | u in db.tasks && db.tasks[u].project == a.p ensures db.tasks[u].sortOrder < db'.tasks[t].sortOrder {
        assert IsTaskOf(db.tasks, u, a.p, a.user);
      }
      AddedTaskOk(db, t, db'.tasks[t]);
    }
  }

  lemma TaskStepOk(db: Db, a: Action)
    requires RowsOk(db) && (a.PutTask? || a.PatchStatus? || a.RemoveTask?)
    ensures RowsOk(Step(db, a).0) && Moves(db, Step(db, a).0)
  {
    hide ResultsOk, ProjectsOk, OneProjectPerResult, OrdersDistinct, TasksOk, Moves, FitsText, Trim;
    NothingMoves(db);
    var db' := Step(db, a).0;
    if db' != db {
      if a.RemoveTask? {
        DeletedTaskOk(db, a.t);
      } else {
        TaskUpdateOk(db, a.t, db'.tasks[a.t]);
      }
    }
  }

  lemma DeletedTaskOk(db: Db, t: nat)
    requires RowsOk(db) && t in db.tasks && db.projects[db.tasks[t].project].status == Active
    ensures RowsOk(db.(tasks := db.tasks - {t})) && Moves(db, db.(tasks := db.tasks - {t}))
  {
    hide ResultsOk, ProjectsOk, OneProjectPerResult;
  }

  /** What rewriting the first n tasks does: those have their index as order, nothing else has changed. */
  lemma {:induction false} RenumberedTasks(tasks: Tasks, ids: seq<nat>, n: nat, now: int)
    requires n <= |ids| && NoRepeats(ids) && forall i | 0 <= i < |ids| :: ids[i] in tasks
    ensures forall i | 0 <= i < n ::
        Renumbered(tasks, ids, n, now)[ids[i]] == tasks[ids[i]].(sortOrder := i, updatedAt := now)
    ensures forall t | t in tasks && t !in ids[..n] :: Renumbered(tasks, ids, n, now)[t] == tasks[t]
  {
    if n > 0 {
      RenumberedTasks(tasks, ids, n - 1, now);
      var last := ids[n - 1];
      var before := Renumbered(tasks, ids, n - 1, now);
      var after := Renumbered(tasks, ids, n, now);
      assert after == before[last := before[last].(sortOrder := n - 1, updatedAt := now)];
      hide Renumbered;
      assert ids[..n] == ids[..n - 1] + [last];
      assert last !in ids[..n - 1];
      forall i | 0 <= i < n ensures after[ids[i]] == tasks[ids[i]].(sortOrder := i, updatedAt := now) {
        assert i < n - 1 ==> ids[i] != last;
      }
    }
  }

  /** A successful Reorder: the requested ids are all tasks of the project, now numbered in the requested order. */
  lemma ReorderedTasks(db: Db, user: int, p: nat, ids: seq<nat>, now: int)
    requires RowsOk(db) && Reorder(db, user, p, Some(ids), now).1.Accepted?
    ensures var db' := Reorder(db, user, p, Some(ids), now).0;
            && db' == db.(tasks := db'.tasks) && db'.tasks.Keys == db.tasks.Keys
            && (forall t :: t in ids <==> t in db.tasks && db.tasks[t].project == p)
            && (forall i | 0 <= i < |ids| :: db'.tasks[ids[i]] == db.tasks[ids[i]].(sortOrder := i, updatedAt := now))
            && (forall t | t in db.tasks && t !in ids :: db'.tasks[t] == db.tasks[t])
  {
    hide ResultsOk, ProjectsOk, OneProjectPerResult, OrdersDistinct;
    var current := CurrentIds(db.tasks, p, user);
    AllListed(ids, current);
    RenumberedTasks(db.tasks, ids, |ids|, now);
    assert ids[..|ids|] == ids;
    forall t ensures t in ids <==> t in db.tasks && db.tasks[t].project == p {
      assert t in ids <==> t in current;
    }
  }

  lemma ReorderOk(db: Db, user: int, p: nat, ids: Option<seq<nat>>, now: int)
    requires RowsOk(db)
    ensures RowsOk(Reorder(db, user, p, ids, now).0) && Moves(db, Reorder(db, user, p, ids, now).0)
  {
    hide RowsOk, Moves, Renumbered;
    NothingMoves(db);
    var (db', outcome) := Reorder(db, user, p, ids, now);
    if outcome.Accepted? {
      ReorderedTasks(db, user, p, ids.value, now);
      ReorderedOk(db, db', p, ids.value, now);
    }
  }

  lemma ReorderedOk(db: Db, db': Db, p: nat, ids: seq<nat>, now: int)
    requires RowsOk(db) && NoRepeats(ids) && p in db.projects && db.projects[p].status == Active
    requires db' == db.(tasks := db'.tasks) && db'.tasks.Keys == db.tasks.Keys
    requires forall t :: t in ids <==> t in db.tasks && db.tasks[t].project == p
    requires forall i | 0 <= i < |ids| :: db'.tasks[ids[i]] == db.tasks[ids[i]].(sortOrder := i, updatedAt := now)
    requires forall t | t in db.tasks && t !in ids :: db'.tasks[t] == db.tasks[t]
    ensures RowsOk(db') && Moves(db, db')
  {
    hide ResultsOk, ProjectsOk, OneProjectPerResult;
    ReorderedOrders(db, db', p, ids);
    forall t | t in db.tasks
      ensures db'.tasks[t] == db.tasks[t].(sortOrder := db'.tasks[t].sortOrder, updatedAt := db'.tasks[t].updatedAt)
      ensures db'.tasks[t].sortOrder >= 0
      ensures db'.tasks[t] != db.tasks[t] ==> db.tasks[t].project == p
    {
      if t in ids {
        var i :| 0 <= i < |ids| && ids[i] == t;
      }
    }
  }

  lemma ReorderedOrders(db: Db, db': Db, p: nat, ids: seq<nat>)
    requires OrdersDistinct(db.tasks) && NoRepeats(ids) && db'.tasks.Keys == db.tasks.Keys
    requires forall t :: t in ids <==> t in db.tasks && db.tasks[t].project == p
    requires forall i | 0 <= i < |ids| :: db'.tasks[ids[i]].sortOrder == i && db'.tasks[ids[i]].project == p
    requires forall t | t in db.tasks && t !in ids :: db'.tasks[t] == db.tasks[t]
    ensures OrdersDistinct(db'.tasks)
  {
    forall t, u | t in db'.tasks && u in db'.tasks && t != u && db'.tasks[t].project == db'.tasks[u].project
      ensures db'.tasks[t].sortOrder != db'.tasks[u].sortOrder
    {
      assert t in ids <==> u in ids;
      if t in ids {
        var i :| 0 <= i < |ids| && ids[i] == t;
        var k :| 0 <= k < |ids| && ids[k] == u;
      }
    }
  }

  // ---------- all steps ----------

  lemma StepOk(db: Db, a: Action)
    requires RowsOk(db)
    ensures RowsOk(Step(db, a).0) && Moves(db, Step(db, a).0)
  {
    hide RowsOk, Moves;
    if a.PostResult? {
      InsertResultOk(db, a.user, a.doc, a.job, a.draft, a.now);
    } else if a.PutResult? {
      UpdateResultOk(db, a.user, a.r, a.version, a.edit, a.now);
    } else if a.PostConfirm? {
      ConfirmOk(db, a.user, a.r, a.now);
    } else if a.PostProject? {
      CreateProjectOk(db, a.user, a.r, a.name, a.now);
    } else if a.PutProject? || a.PostArchive? || a.PostUnarchive? || a.RemoveProject? {
      ProjectStepOk(db, a);
    } else if a.PostTask? {
      CreateTaskOk(db, a);
    } else if a.PostOrder? {
      ReorderOk(db, a.user, a.p, a.ids, a.now);
    } else {
      TaskStepOk(db, a);
    }
  }

  lemma {:induction false} RunOk(db: Db, actions: seq<Action>)
    requires RowsOk(db)
    ensures RowsOk(Exec(db, actions))
    decreases |actions|
  {
    hide RowsOk, Moves, Step;
    if actions != [] {
      StepOk(db, actions[0]);
      RunOk(Step(db, actions[0]).0, actions[1..]);
    }
  }
}
