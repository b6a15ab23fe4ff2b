/** Whose rows a request may change, and on whose rows its answer may depend. */
module LifecycleAccess {
  import opened Base
  import opened Text
  import opened Sequences
  import opened Normalize
  import opened Lifecycle
  import opened LifecycleSafety
  import opened LifecycleRuns

  /** No row of another user changes, appears or disappears. */
  predicate TouchesOnly(db: Db, db': Db, user: int) {
    && (forall r | r in db.results && db.results[r].user != user :: r in db'.results && db'.results[r] == db.results[r])
    && (forall p | p in db.projects && db.projects[p].user != user :: p in db'.projects && db'.projects[p] == db.projects[p])
    && (forall t | t in db.tasks && db.tasks[t].user != user :: t in db'.tasks && db'.tasks[t] == db.tasks[t])
    && (forall r | r in db'.results && r !in db.results :: db'.results[r].user == user)
    && (forall p | p in db'.projects && p !in db.projects :: db'.projects[p].user == user)
    && (forall t | t in db'.tasks && t !in db.tasks :: db'.tasks[t].user == user)
  }

  /** A request changes only its user's rows. */
  lemma RequestsTouchOwnRows(db: Db, a: Action)
    requires Reachable(db)
    ensures TouchesOnly(db, Step(db, a).0, a.user)
  {
    ReachableOk(db);
    hide Reachable, RowsOk, TouchesOnly, InsertResult, UpdateResult, Confirm, CreateProject, UpdateProject, Transition,
         DeleteProject, CreateTask, UpdateTask, UpdateTaskStatus, DeleteTask, Reorder;
    if a.PostResult? || a.PutResult? || a.PostConfirm? {
      ResultStepTouches(db, a);
    } else if a.PostProject? {
      CreateTouches(db, a);
    } else if a.PutProject? || a.PostArchive? || a.PostUnarchive? || a.RemoveProject? {
      ProjectStepTouches(db, a);
    } else if a.PostOrder? {
      ReorderTouches(db, a);
    } else {
      TaskStepTouches(db, a);
    }
  }

  lemma ResultStepTouches(db: Db, a: Action)
    requires RowsOk(db) && (a.PostResult? || a.PutResult? || a.PostConfirm?)
    ensures TouchesOnly(db, Step(db, a).0, a.user)
  {
    hide ProjectsOk, TasksOk, OneProjectPerResult, OrdersDistinct, NormalizedUpdate, AcceptableDraft, Store, StoredNormal;
  }

  lemma ProjectStepTouches(db: Db, a: Action)
    requires a.PutProject? || a.PostArchive? || a.PostUnarchive? || a.RemoveProject?
    ensures TouchesOnly(db, Step(db, a).0, a.user)
  {
    hide FitsText, Trim;
  }

  lemma CreateTouches(db: Db, a: Action)
    requires RowsOk(db) && a.PostProject?
    ensures TouchesOnly(db, Step(db, a).0, a.user)
  {
    hide ResultsOk, OneProjectPerResult, OrdersDistinct, FitsText, Trim, DecodedTasks, IsProjectOf;
  }

  lemma TaskStepTouches(db: Db, a: Action)
    requires RowsOk(db) && (a.PostTask? || a.PutTask? || a.PatchStatus? || a.RemoveTask?)
    ensures TouchesOnly(db, Step(db, a).0, a.user)
  {
    hide ResultsOk, ProjectsOk, OneProjectPerResult, OrdersDistinct, FitsTask, Trim, MaxSortOrder;
  }

  lemma ReorderTouches(db: Db, a: Action)
    requires RowsOk(db) && a.PostOrder?
    ensures TouchesOnly(db, Step(db, a).0, a.user)
  {
    hide RowsOk, Renumbered, CurrentIds, NoRepeats;
    var (db', outcome) := Reorder(db, a.user, a.p, a.ids, a.now);
    if outcome.Accepted? {
      ReorderedTasks(db, a.user, a.p, a.ids.value, a.now);
      hide Reorder;
      forall t | t in db.tasks && db.tasks[t].user != a.user ensures db'.tasks[t] == db.tasks[t] {
        OwnerOfTask(db, t);
        assert db.tasks[t].project != a.p;
      }
    }
  }

  lemma OwnerOfTask(db: Db, t: nat)
    requires RowsOk(db) && t in db.tasks
    ensures db.tasks[t].project in db.projects && db.projects[db.tasks[t].project].user == db.tasks[t].user
  {
    hide ResultsOk, ProjectsOk, OneProjectPerResult, OrdersDistinct;
  }

  // ---------- what an answer says ----------

  /** The row that the request names exists and belongs to its user; a deleted project counts as gone. */
  predicate NamesOwnRow(db: Db, a: Action) {
    match a
    case PostResult(_, _, _, _, _) => true
    case PutResult(user, r, _, _, _) => r in db.results && db.results[r].user == user
    case PostConfirm(user, r, _) => r in db.results && db.results[r].user == user
    case PostProject(user, r, _, _) => r in db.results && db.results[r].user == user
    case PutProject(user, p, _, _, _, _, _) => OwnsProject(db, user, p)
    case PostArchive(user, p, _) => OwnsProject(db, user, p)
    case PostUnarchive(user, p, _) => OwnsProject(db, user, p)
    case RemoveProject(user, p, _) => OwnsProject(db, user, p)
    case PostTask(user, p, _, _, _, _, _) => OwnsProject(db, user, p)
    case PostOrder(user, p, _, _) => OwnsProject(db, user, p)
    case PutTask(user, t, _, _, _, _, _, _) => OwnsTask(db, user, t)
    case PatchStatus(user, t, _, _) => OwnsTask(db, user, t)
    case RemoveTask(user, t, _) => OwnsTask(db, user, t)
  }

  predicate OwnsProject(db: Db, user: int, p: nat) {
    p in db.projects && db.projects[p].user == user && db.projects[p].status != Deleted
  }

  predicate OwnsTask(db: Db, user: int, t: nat) {
    t in db.tasks && db.tasks[t].user == user && OwnsProject(db, user, db.tasks[t].project)
  }

  /** The request's own texts, identifiers and lists pass validation. */
  predicate WellFormed(a: Action) {
    match a
    case PostResult(_, _, _, draft, _) => AcceptableDraft(draft, false)
    case PutResult(_, _, version, edit, _) => version >= 1 && edit.Some? && AcceptableDraft(edit.value, true)
    case PostConfirm(_, _, _) => true
    case PostProject(user, r, name, _) => user > 0 && r > 0 && FitsText(name, MAX_NAME)
    case PutProject(user, p, version, name, description, _, _) =>
      user > 0 && p > 0 && version >= 1 && FitsText(name, MAX_NAME) &&
      (description.Some? ==> FitsText(description.value, MAX_DESCRIPTION))
    case PostArchive(user, p, _) => user > 0 && p > 0
    case PostUnarchive(user, p, _) => user > 0 && p > 0
    case RemoveProject(user, p, _) => user > 0 && p > 0
    case PostTask(user, p, title, description, priority, _, _) => user > 0 && p > 0 && FitsTask(title, description, priority)
    case PutTask(user, t, version, title, description, priority, _, _) =>
      user > 0 && t > 0 && version >= 1 && FitsTask(title, description, priority)
    case PatchStatus(user, t, _, _) => user > 0 && t > 0
    case RemoveTask(user, t, _) => user > 0 && t > 0
    case PostOrder(user, p, ids, _) => user > 0 && p > 0 && ids.Some? && NoRepeats(ids.value) && 0 !in ids.value
  }

  /** Validation comes first, then the search for the row: a request is refused as invalid exactly when it is malformed,
      and a well-formed one is answered `not found` exactly when its row is missing or another user's. */
  lemma AnswersInOrder(db: Db, a: Action)
    requires Reachable(db)
    ensures var (db', outcome) := Step(db, a);
            && (outcome == Rejected(InvalidInput) <==> !WellFormed(a))
            && (outcome == Rejected(NotFound) <==> WellFormed(a) && !NamesOwnRow(db, a))
            && (outcome.Rejected? ==> db' == db)
  {
    ReachableOk(db);
    hide Reachable, RowsOk, InsertResult, UpdateResult, Confirm, CreateProject, UpdateProject, Transition,
         DeleteProject, CreateTask, UpdateTask, UpdateTaskStatus, DeleteTask, Reorder, FitsText, FitsTask, AcceptableDraft;
    if a.PostResult? || a.PutResult? || a.PostConfirm? {
      ResultAnswers(db, a);
    } else if a.PostProject? {
      CreateAnswers(db, a);
    } else if a.PutProject? || a.PostArchive? || a.PostUnarchive? || a.RemoveProject? {
      ProjectAnswers(db, a);
    } else if a.PostOrder? {
      OrderAnswers(db, a);
    } else {
      TaskAnswers(db, a);
    }
  }

  lemma ResultAnswers(db: Db, a: Action)
    requires a.PostResult? || a.PutResult? || a.PostConfirm?
    ensures var (db', outcome) := Step(db, a);
            && (outcome == Rejected(InvalidInput) <==> !WellFormed(a))
            && (outcome == Rejected(NotFound) <==> WellFormed(a) && !NamesOwnRow(db, a))
            && (outcome.Rejected? ==> db' == db)
  {
    if a.PutResult? {
      EditAnswers(db, a);
    } else if a.PostResult? {
      InsertAnswers(db, a);
    }
    hide AcceptableDraft, InsertResult, UpdateResult;
  }

  lemma InsertAnswers(db: Db, a: Action)
    requires a.PostResult?
    ensures var (db', outcome) := Step(db, a);
            && (outcome == Rejected(InvalidInput) <==> !WellFormed(a))
            && outcome != Rejected(NotFound)
            && (outcome.Rejected? ==> db' == db)
  {
    hide AcceptableDraft, Store, NormalizedContent;
  }

  lemma EditAnswers(db: Db, a: Action)
    requires a.PutResult?
    ensures var (db', outcome) := Step(db, a);
            && (outcome == Rejected(InvalidInput) <==> !WellFormed(a))
            && (outcome == Rejected(NotFound) <==> WellFormed(a) && !NamesOwnRow(db, a))
            && (outcome.Rejected? ==> db' == db)
  {
    hide AcceptableDraft, Store, NormalizedContent;
  }

  lemma CreateAnswers(db: Db, a: Action)
    requires RowsOk(db) && a.PostProject?
    ensures var (db', outcome) := Step(db, a);
            && (outcome == Rejected(InvalidInput) <==> !WellFormed(a))
            && (outcome == Rejected(NotFound) <==> WellFormed(a) && !NamesOwnRow(db, a))
            && (outcome.Rejected? ==> db' == db)
  {
    hide RowsOk, FitsText, Trim, IsProjectOf, DecodedTasks, InsertProject;
    if a.r in db.results {
      StoredTasksDecode(db, a.r);
    }
  }

  lemma ProjectAnswers(db: Db, a: Action)
    requires a.PutProject? || a.PostArchive? || a.PostUnarchive? || a.RemoveProject?
    ensures var (db', outcome) := Step(db, a);
            && (outcome == Rejected(InvalidInput) <==> !WellFormed(a))
            && (outcome == Rejected(NotFound) <==> WellFormed(a) && !NamesOwnRow(db, a))
            && (outcome.Rejected? ==> db' == db)
  {
    hide FitsText, Trim;
  }

  lemma TaskAnswers(db: Db, a: Action)
    requires a.PostTask? || a.PutTask? || a.PatchStatus? || a.RemoveTask?
    ensures var (db', outcome) := Step(db, a);
            && (outcome == Rejected(InvalidInput) <==> !WellFormed(a))
            && (outcome == Rejected(NotFound) <==> WellFormed(a) && !NamesOwnRow(db, a))
            && (outcome.Rejected? ==> db' == db)
  {
    hide FitsTask, Trim, MaxSortOrder;
  }

  lemma OrderAnswers(db: Db, a: Action)
    requires a.PostOrder?
    ensures var (db', outcome) := Step(db, a);
            && (outcome == Rejected(InvalidInput) <==> !WellFormed(a))
            && (outcome == Rejected(NotFound) <==> WellFormed(a) && !NamesOwnRow(db, a))
            && (outcome.Rejected? ==> db' == db)
  {
    hide Renumbered, CurrentIds, NoRepeats;
  }

  /** Along any run, a well-formed edit by the owner whose row has changed since it was read is answered with a conflict;
      an edit of a result is told that the result is confirmed, once it is. */
  lemma StaleEditIsTold(db: Db, actions: seq<Action>, a: Action)
    requires Reachable(db) && WellFormed(a) && NamesOwnRow(Exec(db, actions), a)
    ensures var db' := Exec(db, actions);
            && (a.PutProject? && a.p in db.projects && a.version == db.projects[a.p].version ==>
                  db'.projects[a.p] == db.projects[a.p] || Step(db', a).1 == Rejected(Conflict))
            && (a.PutTask? && a.t in db.tasks && a.version == db.tasks[a.t].version ==>
                  SameTask(db'.tasks[a.t], db.tasks[a.t]) || Step(db', a).1 == Rejected(Conflict))
            && (a.PutResult? && a.r in db.results && a.version == db.results[a.r].version ==>
                  db'.results[a.r].content == db.results[a.r].content ||
                  Step(db', a).1 == Rejected(if db'.results[a.r].confirmed then InvalidState else Conflict))
  {
    hide Exec, FitsText, FitsTask, Trim, Store, AcceptableDraft, Reachable;
    EqualVersionsMeanEqualRows(db, actions);
  }

  /** All columns but the place in the order. */
  predicate SameTask(task: Task, task': Task) {
    task == task'.(sortOrder := task.sortOrder, updatedAt := task.updatedAt)
  }

  // ---------- what an answer depends on ----------

  /** The user has the same rows in both, and new rows will get the same identifiers. */
  predicate SameFor(db: Db, other: Db, user: int) {
    && SameResults(db.results, other.results, user) && SameResults(other.results, db.results, user)
    && SameProjects(db.projects, other.projects, user) && SameProjects(other.projects, db.projects, user)
    && SameTasks(db.tasks, other.tasks, user) && SameTasks(other.tasks, db.tasks, user)
    && db.nextResult == other.nextResult && db.nextProject == other.nextProject && db.nextTask == other.nextTask
  }

  predicate SameResults(results: Results, other: Results, user: int) {
    forall r | r in results && results[r].user == user :: r in other && other[r] == results[r]
  }

  predicate SameProjects(projects: Projects, other: Projects, user: int) {
    forall p | p in projects && projects[p].user == user :: p in other && other[p] == projects[p]
  }

  predicate SameTasks(tasks: Tasks, other: Tasks, user: int) {
    forall t | t in tasks && tasks[t].user == user :: t in other && other[t] == tasks[t]
  }

  /** The rows of other users are invisible: neither a request's answer nor what it does to its user's rows depends on
      them. */
  lemma OthersAreInvisible(db: Db, other: Db, a: Action)
    requires Reachable(db) && Reachable(other) && SameFor(db, other, a.user) && !a.PostResult?
    ensures Step(db, a).1 == Step(other, a).1
    ensures SameFor(Step(db, a).0, Step(other, a).0, a.user)
  {
    ReachableOk(db);
    ReachableOk(other);
    hide Reachable, RowsOk, SameFor, UpdateResult, Confirm, CreateProject, UpdateProject, Transition,
         DeleteProject, CreateTask, UpdateTask, UpdateTaskStatus, DeleteTask, Reorder;
    if a.PutResult? || a.PostConfirm? {
      ResultAlike(db, other, a);
    } else if a.PostProject? {
      CreateAlike(db, other, a);
    } else if a.PutProject? || a.PostArchive? || a.PostUnarchive? || a.RemoveProject? {
      ProjectAlike(db, other, a);
    } else if a.PostTask? {
      NewTaskAlike(db, other, a);
    } else if a.PostOrder? {
      OrderAlike(db, other, a);
    } else {
      TaskAlike(db, other, a);
    }
  }

  lemma ResultAlike(db: Db, other: Db, a: Action)
    requires SameFor(db, other, a.user) && (a.PutResult? || a.PostConfirm?)
    ensures Step(db, a).1 == Step(other, a).1
    ensures SameFor(Step(db, a).0, Step(other, a).0, a.user)
  {
    hide NormalizedUpdate, Store, SameProjects, SameTasks;
  }

  lemma OwnProjectAlike(db: Db, other: Db, user: int, p: nat)
    requires SameFor(db, other, user)
    ensures p in db.projects && db.projects[p].user == user <==> p in other.projects && other.projects[p].user == user
    ensures p in db.projects && db.projects[p].user == user ==> other.projects[p] == db.projects[p]
  {
    hide SameResults, SameTasks;
  }

  lemma OwnTaskAlike(db: Db, other: Db, user: int, t: nat)
    requires SameFor(db, other, user)
    ensures t in db.tasks && db.tasks[t].user == user <==> t in other.tasks && other.tasks[t].user == user
    ensures t in db.tasks && db.tasks[t].user == user ==> other.tasks[t] == db.tasks[t]
  {
    hide SameResults, SameProjects;
  }

  lemma SetProjectAlike(db: Db, other: Db, user: int, p: nat, project: Project)
    requires SameFor(db, other, user)
    ensures SameFor(SetProject(db, p, project), SetProject(other, p, project), user)
  {
    hide SameResults, SameTasks;
  }

  lemma SetTaskAlike(db: Db, other: Db, user: int, t: nat, task: Task)
    requires SameFor(db, other, user)
    ensures SameFor(SetTask(db, t, task), SetTask(other, t, task), user)
    ensures SameFor(db.(tasks := db.tasks - {t}), other.(tasks := other.tasks - {t}), user)
  {
    hide SameResults, SameProjects;
  }

  lemma ProjectAlike(db: Db, other: Db, a: Action)
    requires SameFor(db, other, a.user) && (a.PutProject? || a.PostArchive? || a.PostUnarchive? || a.RemoveProject?)
    ensures Step(db, a).1 == Step(other, a).1
    ensures SameFor(Step(db, a).0, Step(other, a).0, a.user)
  {
    hide FitsText, Trim, SameFor;
    OwnProjectAlike(db, other, a.user, a.p);
    var db' := Step(db, a).0;
    if db' != db {
      SetProjectAlike(db, other, a.user, a.p, db'.projects[a.p]);
    }
  }

  lemma CreateAlike(db: Db, other: Db, a: Action)
    requires RowsOk(db) && RowsOk(other) && SameFor(db, other, a.user) && a.PostProject?
    ensures Step(db, a).1 == Step(other, a).1
    ensures SameFor(Step(db, a).0, Step(other, a).0, a.user)
  {
    hide ResultsOk, TasksOk, OrdersDistinct, FitsText, Trim, DecodedTasks, InsertProject, SameTasks;
    if Step(db, a).1.ProjectIs? && Step(db, a).1.created {
      InsertAlike(db, other, a, DecodedTasks(db.results[a.r].content.generated).value);
    }
  }

  lemma InsertAlike(db: Db, other: Db, a: Action, generated: seq<GeneratedTask>)
    requires SameFor(db, other, a.user) && a.PostProject?
    requires a.r in db.results && a.r in other.results && other.results[a.r] == db.results[a.r]
    ensures SameFor(InsertProject(db, a.user, a.r, Trim(a.name), generated, a.now),
                    InsertProject(other, a.user, a.r, Trim(a.name), generated, a.now), a.user)
  {
    hide Trim, NewTasks, SameResults, SameTasks, SameProjects;
    var added := NewTasks(generated, db.nextTask, db.nextProject, a.user, a.r, a.now);
    var project := InsertProject(db, a.user, a.r, Trim(a.name), generated, a.now).projects[db.nextProject];
    MoreProjects(db.projects, other.projects, a.user, db.nextProject, project);
    MoreProjects(other.projects, db.projects, a.user, db.nextProject, project);
    MoreTasks(db.tasks, other.tasks, a.user, added);
    MoreTasks(other.tasks, db.tasks, a.user, added);
  }

  lemma MoreProjects(projects: Projects, other: Projects, user: int, p: nat, project: Project)
    requires SameProjects(projects, other, user)
    ensures SameProjects(projects[p := project], other[p := project], user)
  {}

  lemma MoreTasks(tasks: Tasks, other: Tasks, user: int, added: Tasks)
    requires SameTasks(tasks, other, user)
    ensures SameTasks(tasks + added, other + added, user)
  {}

  lemma NewTaskAlike(db: Db, other: Db, a: Action)
    requires SameFor(db, other, a.user) && a.PostTask?
    ensures Step(db, a).1 == Step(other, a).1
    ensures SameFor(Step(db, a).0, Step(other, a).0, a.user)
  {
    hide FitsTask, Trim, SameFor, MaxSortOrder;
    OwnProjectAlike(db, other, a.user, a.p);
    PlacesAlike(db, other, a.user, a.p);
    var (db', outcome) := Step(db, a);
    if outcome.Accepted? {
      AddTaskAlike(db, other, a.user, db'.tasks[db.nextTask]);
    }
  }

  lemma PlacesAlike(db: Db, other: Db, user: int, p: nat)
    requires SameFor(db, other, user)
    ensures MaxSortOrder(db.tasks, p, user) == MaxSortOrder(other.tasks, p, user) && db.nextTask == other.nextTask
  {
    hide SameResults, SameProjects;
  }

  lemma AddTaskAlike(db: Db, other: Db, user: int, task: Task)
    requires SameFor(db, other, user) && db.nextTask == other.nextTask
    ensures SameFor(db.(tasks := db.tasks[db.nextTask := task], nextTask := db.nextTask + 1),
                    other.(tasks := other.tasks[db.nextTask := task], nextTask := db.nextTask + 1), user)
  {
    hide SameResults, SameProjects;
  }

  lemma TaskAlike(db: Db, other: Db, a: Action)
    requires SameFor(db, other, a.user) && (a.PutTask? || a.PatchStatus? || a.RemoveTask?)
    ensures Step(db, a).1 == Step(other, a).1
    ensures SameFor(Step(db, a).0, Step(other, a).0, a.user)
  {
    hide FitsTask, Trim, SameFor;
    OwnTaskAlike(db, other, a.user, a.t);
    if a.t in db.tasks {
      OwnProjectAlike(db, other, a.user, db.tasks[a.t].project);
    }
    var db' := Step(db, a).0;
    if db' != db {
      SetTaskAlike(db, other, a.user, a.t, if a.t in db'.tasks then db'.tasks[a.t] else db.tasks[a.t]);
    }
  }

  lemma OrderAlike(db: Db, other: Db, a: Action)
    requires RowsOk(db) && RowsOk(other) && SameFor(db, other, a.user) && a.PostOrder?
    ensures Step(db, a).1 == Step(other, a).1
    ensures SameFor(Step(db, a).0, Step(other, a).0, a.user)
  {
    hide RowsOk, SameResults, Renumbered, NoRepeats;
    assert CurrentIds(db.tasks, a.p, a.user) == CurrentIds(other.tasks, a.p, a.user);
    assert Step(db, a).1 == Step(other, a).1;
    if Step(db, a).1.Accepted? {
      ReorderedTasks(db, a.user, a.p, a.ids.value, a.now);
      ReorderedTasks(other, a.user, a.p, a.ids.value, a.now);
    }
  }
}
