/** Parse results, projects and tasks: the rows, and each committed transaction as a function from rows to rows and
    an outcome. A transaction locks the rows it reads, so transactions take effect one after the other. */
module Lifecycle {
  import opened Base
  import opened Text
  import opened Normalize
  import opened Sequences
  import Oldest

  // ---------- rows ----------

  /** The content columns of a parse result as they are stored. */
  datatype StoredContent = StoredContent(
    title: string, summary: string, deadline: Option<int>,
    deliverables: seq<string>, keyRequirements: seq<string>, riskWarnings: seq<string>, generated: StoredTasks)

  function Store(c: Content): StoredContent {
    StoredContent(c.title, c.summary, c.deadline, c.deliverables, c.keyRequirements, c.riskWarnings, Encode(c.tasks))
  }

  datatype ParseResult = ParseResult(
    user: int, doc: nat, job: nat, content: StoredContent, version: int, confirmed: bool, updatedAt: int)

  datatype ProjectStatus = Active | Archived | Deleted

  datatype Project = Project(
    user: int, doc: nat, result: nat, name: string, description: Option<string>, deadline: Option<int>,
    status: ProjectStatus, version: int, updatedAt: int)

  datatype TaskStatus = Todo | Doing | Done

  datatype Task = Task(
    project: nat, user: int, source: Option<nat>, title: string, description: Option<string>, status: TaskStatus,
    priority: string, deadline: Option<int>, sortOrder: int, manual: bool, version: int, updatedAt: int)

  type Results = map<nat, ParseResult>
  type Projects = map<nat, Project>
  type Tasks = map<nat, Task>

  datatype Db = Db(results: Results, projects: Projects, tasks: Tasks, nextResult: nat, nextProject: nat, nextTask: nat)

  datatype Outcome =
    | Accepted
    | ProjectIs(project: nat, created: bool)
    | Rejected(error: Error)

  const MAX_NAME := 255
  const MAX_DESCRIPTION := 5000

  // ---------- parse results ----------

  /** The insert of completeJob; the unique index on the job refuses a second one. */
  function InsertResult(db: Db, user: int, doc: nat, job: nat, draft: Draft, now: int): (Db, Outcome) {
    if !AcceptableDraft(draft, false) then
      (db, Rejected(InvalidInput))
    else if exists r | r in db.results :: db.results[r].job == job then
      (db, Rejected(Conflict))
    else
      var row := ParseResult(user, doc, job, Store(NormalizedContent(draft, false)), 1, false, now);
      (db.(results := db.results[db.nextResult := row], nextResult := db.nextResult + 1), Accepted)
  }

  function UpdateResult(db: Db, user: int, r: nat, version: int, draft: Option<Draft>, now: int): (Db, Outcome) {
    var normalized := NormalizedUpdate(version, draft);
    if normalized.Err? then
      (db, Rejected(InvalidInput))
    else if r !in db.results || db.results[r].user != user then
      (db, Rejected(NotFound))
    else if db.results[r].confirmed then
      (db, Rejected(InvalidState))
    else if db.results[r].version != version then
      (db, Rejected(Conflict))
    else if version == MAX_INT32 then
      (db, Rejected(Internal))
    else
      var row := db.results[r].(content := Store(normalized.value), version := version + 1, updatedAt := now);
      (db.(results := db.results[r := row]), Accepted)
  }

  function Confirm(db: Db, user: int, r: nat, now: int): (Db, Outcome) {
    if r !in db.results || db.results[r].user != user then
      (db, Rejected(NotFound))
    else if db.results[r].confirmed then
      (db, Accepted)
    else
      (db.(results := db.results[r := db.results[r].(confirmed := true, updatedAt := now)]), Accepted)
  }

  // ---------- projects ----------

  predicate IsProjectOf(db: Db, p: nat, user: int, r: nat) {
    p in db.projects && db.projects[p].result == r && db.projects[p].user == user
  }

  /** Rows that project Create inserts for the generated tasks. */
  function NewTasks(generated: seq<GeneratedTask>, first: nat, project: nat, user: int, r: nat, now: int): (tasks: Tasks)
    ensures forall t :: t in tasks <==> first <= t < first + |generated|
    ensures forall t | t in tasks :: tasks[t] == NewTask(generated[t - first], project, user, r, t - first, now)
  {
    if generated == [] then map[]
    else
      var n := |generated| - 1;
      NewTasks(generated[..n], first, project, user, r, now)[first + n := NewTask(generated[n], project, user, r, n, now)]
  }

  function NewTask(g: GeneratedTask, project: nat, user: int, r: nat, index: int, now: int): Task {
    Task(project, user, Some(r), g.title, g.description, Todo, g.priority, g.deadline, index, false, 1, now)
  }

  function InsertProject(db: Db, user: int, r: nat, name: string, generated: seq<GeneratedTask>, now: int): Db
    requires r in db.results
  {
    var result := db.results[r];
    var p := db.nextProject;
    var project := Project(user, result.doc, r, name, Some(result.content.summary), result.content.deadline, Active,
        1, now);
    db.(projects := db.projects[p := project],
        tasks := db.tasks + NewTasks(generated, db.nextTask, p, user, r, now),
        nextProject := p + 1,
        nextTask := db.nextTask + |generated|)
  }

  /** The answer when the result has a project already: the same project, or a conflict once it is deleted. */
  function ExistingProject(db: Db, p: nat): Outcome
    requires p in db.projects
  {
    if db.projects[p].status == Deleted then Rejected(Conflict) else ProjectIs(p, false)
  }

  function CreateProject(db: Db, user: int, r: nat, name: string, now: int): (Db, Outcome) {
    if user <= 0 || r == 0 || !FitsText(name, MAX_NAME) then
      (db, Rejected(InvalidInput))
    else if r !in db.results || db.results[r].user != user then
      (db, Rejected(NotFound))
    else if exists p | p in db.projects :: IsProjectOf(db, p, user, r) then
      var p := FindProject(db, user, r);
      (db, ExistingProject(db, p))
    else if !db.results[r].confirmed then
      (db, Rejected(InvalidState))
    else
      var generated := DecodedTasks(db.results[r].content.generated);
      if generated.Err? then
        (db, Rejected(generated.error))
      else if exists p | p in db.projects :: db.projects[p].result == r then
        (db, Rejected(Internal))  // the unique index refuses, and no project of this user is found afterwards
      else
        (InsertProject(db, user, r, Trim(name), generated.value, now), ProjectIs(db.nextProject, true))
  }

  /** `First` takes the lowest id. */
  function FindProject(db: Db, user: int, r: nat): (p: nat)
    requires exists p | p in db.projects :: IsProjectOf(db, p, user, r)
    ensures IsProjectOf(db, p, user, r)
  {
    var found := map p | p in db.projects && IsProjectOf(db, p, user, r) :: 0;
    assert found != map[] by {
      var p :| p in db.projects && IsProjectOf(db, p, user, r);
      assert p in found;
    }
    Oldest.First(found)
  }

  /** A project that lockProject finds for the user. */
  predicate Lockable(db: Db, user: int, p: nat) {
    p in db.projects && db.projects[p].user == user && db.projects[p].status != Deleted
  }

  function SetProject(db: Db, p: nat, project: Project): Db {
    db.(projects := db.projects[p := project])
  }

  function UpdateProject(db: Db, user: int, p: nat, version: int, name: string, description: Option<string>,
                         deadline: Option<int>, now: int): (Db, Outcome)
  {
    if user <= 0 || p == 0 || version < 1 || !FitsText(name, MAX_NAME) ||
       (description.Some? && !FitsText(description.value, MAX_DESCRIPTION)) then
      (db, Rejected(InvalidInput))
    else if !Lockable(db, user, p) then
      (db, Rejected(NotFound))
    else if db.projects[p].status != Active || db.projects[p].version != version then
      (db, Rejected(Conflict))
    else if version == MAX_INT32 then
      (db, Rejected(Internal))
    else
      var text := if description.Some? then Some(Trim(description.value)) else None;
      (SetProject(db, p, db.projects[p].(name := Trim(name), description := text, deadline := deadline,
                                         version := version + 1, updatedAt := now)), Accepted)
  }

  /** Archive is Transition(Active, Archived), Unarchive is Transition(Archived, Active). */
  function Transition(db: Db, user: int, p: nat, source: ProjectStatus, target: ProjectStatus, now: int): (Db, Outcome) {
    if user <= 0 || p == 0 then
      (db, Rejected(InvalidInput))
    else if !Lockable(db, user, p) then
      (db, Rejected(NotFound))
    else if db.projects[p].status == target then
      (db, Accepted)
    else if db.projects[p].status != source then
      (db, Rejected(Conflict))
    else if db.projects[p].version == MAX_INT32 then
      (db, Rejected(Internal))
    else
      (SetProject(db, p, db.projects[p].(status := target, version := db.projects[p].version + 1, updatedAt := now)),
          Accepted)
  }

  function DeleteProject(db: Db, user: int, p: nat, now: int): (Db, Outcome) {
    if user <= 0 || p == 0 then
      (db, Rejected(InvalidInput))
    else if !Lockable(db, user, p) then
      (db, Rejected(NotFound))
    else if db.projects[p].status == Active then
      (db, Rejected(Conflict))
    else if db.projects[p].version == MAX_INT32 then
      (db, Rejected(Internal))
    else
      (SetProject(db, p, db.projects[p].(status := Deleted, version := db.projects[p].version + 1,
          updatedAt := now)), Accepted)
  }

  // ---------- tasks ----------

  predicate IsTaskOf(tasks: Tasks, t: nat, p: nat, user: int) {
    t in tasks && tasks[t].project == p && tasks[t].user == user
  }

  /** COALESCE(MAX(sort_order), -1) */
  function MaxSortOrder(tasks: Tasks, p: nat, user: int): (m: int)
    ensures forall t | IsTaskOf(tasks, t, p, user) :: tasks[t].sortOrder <= m
    ensures m == -1 || exists t :: IsTaskOf(tasks, t, p, user) && tasks[t].sortOrder == m
  {
    if !exists t | t in tasks :: IsTaskOf(tasks, t, p, user) then -1
    else
      var orders := set t | t in tasks && IsTaskOf(tasks, t, p, user) :: tasks[t].sortOrder;
      assert forall t | IsTaskOf(tasks, t, p, user) :: tasks[t].sortOrder in orders;
      assert exists m :: m in orders && forall x | x in orders :: x <= m by {
        var t :| t in tasks && IsTaskOf(tasks, t, p, user);
        MaximumExists(orders, tasks[t].sortOrder);
      }
      var m :| m in orders && forall x | x in orders :: x <= m;
      m
  }

  lemma {:induction false} MaximumExists(s: set<int>, x: int)
    requires x in s
    ensures exists m :: m in s && forall y | y in s :: y <= m
    decreases s
  {
    if y :| y in s && x < y {
      var above := set z | z in s && x < z;
      MaximumExists(above, y);
      var m :| m in above && forall z | z in above :: z <= m;
      assert forall z | z in s :: z in above || z <= x;
      assert m in s && forall z | z in s :: z <= m;
    }
  }

  predicate FitsTask(title: string, description: Option<string>, priority: string) {
    FitsText(title, MAX_TITLE) && KnownPriority(priority) &&
    (description.Some? ==> FitsText(description.value, MAX_TASK_DESCRIPTION))
  }

  function TrimOption(text: Option<string>): Option<string> {
    if text.Some? then Some(Trim(text.value)) else None
  }

  function CreateTask(db: Db, user: int, p: nat, title: string, description: Option<string>, priority: string,
                      deadline: Option<int>, now: int): (Db, Outcome)
  {
    if user <= 0 || p == 0 || !FitsTask(title, description, priority) then
      (db, Rejected(InvalidInput))
    else if !Lockable(db, user, p) then
      (db, Rejected(NotFound))
    else if db.projects[p].status != Active then
      (db, Rejected(Conflict))
    else
      var max := MaxSortOrder(db.tasks, p, user);
      if max == MAX_INT32 then
        (db, Rejected(Internal))
      else
        var task := Task(p, user, None, Trim(title), TrimOption(description), Todo, priority, deadline, max + 1,
            true, 1, now);
        (db.(tasks := db.tasks[db.nextTask := task], nextTask := db.nextTask + 1), Accepted)
  }

  /** lockWritableTask */
  function Writable(db: Db, user: int, t: nat): Outcome {
    if t !in db.tasks || db.tasks[t].user != user then Rejected(NotFound)
    else if !Lockable(db, user, db.tasks[t].project) then Rejected(NotFound)
    else if db.projects[db.tasks[t].project].status != Active then Rejected(Conflict)
    else Accepted
  }

  function SetTask(db: Db, t: nat, task: Task): Db {
    db.(tasks := db.tasks[t := task])
  }

  function UpdateTask(db: Db, user: int, t: nat, version: int, title: string, description: Option<string>, priority: string,
                      deadline: Option<int>, now: int): (Db, Outcome)
  {
    if user <= 0 || t == 0 || version < 1 || !FitsTask(title, description, priority) then
      (db, Rejected(InvalidInput))
    else if Writable(db, user, t).Rejected? then
      (db, Writable(db, user, t))
    else if db.tasks[t].version != version then
      (db, Rejected(Conflict))
    else if version == MAX_INT32 then
      (db, Rejected(Internal))
    else
      (SetTask(db, t, db.tasks[t].(title := Trim(title), description := TrimOption(description), priority := priority,
                                   deadline := deadline, version := version + 1, updatedAt := now)), Accepted)
  }

  function UpdateTaskStatus(db: Db, user: int, t: nat, status: TaskStatus, now: int): (Db, Outcome) {
    if user <= 0 || t == 0 then
      (db, Rejected(InvalidInput))
    else if Writable(db, user, t).Rejected? then
      (db, Writable(db, user, t))
    else if db.tasks[t].status == status then
      (db, Accepted)
    else if db.tasks[t].version == MAX_INT32 then
      (db, Rejected(Internal))
    else
      (SetTask(db, t, db.tasks[t].(status := status, version := db.tasks[t].version + 1, updatedAt := now)), Accepted)
  }

  function DeleteTask(db: Db, user: int, t: nat): (Db, Outcome) {
    if user <= 0 || t == 0 then
      (db, Rejected(InvalidInput))
    else if Writable(db, user, t).Rejected? then
      (db, Writable(db, user, t))
    else
      (db.(tasks := db.tasks - {t}), Accepted)
  }

  predicate ValidOrder(ids: Option<seq<nat>>) {
    ids.Some? && NoRepeats(ids.value) && 0 !in ids.value
  }

  function CurrentIds(tasks: Tasks, p: nat, user: int): set<nat> {
    set t | t in tasks && IsTaskOf(tasks, t, p, user)
  }

  /** The first n tasks of the requested order have been rewritten. */
  function Renumbered(tasks: Tasks, ids: seq<nat>, n: nat, now: int): (r: Tasks)
    requires n <= |ids| && forall i | 0 <= i < |ids| :: ids[i] in tasks
    ensures r.Keys == tasks.Keys
  {
    if n == 0 then tasks
    else
      var before := Renumbered(tasks, ids, n - 1, now);
      before[ids[n - 1] := before[ids[n - 1]].(sortOrder := n - 1, updatedAt := now)]
  }

  function Reorder(db: Db, user: int, p: nat, ids: Option<seq<nat>>, now: int): (Db, Outcome) {
    if user <= 0 || p == 0 || !ValidOrder(ids) then
      (db, Rejected(InvalidInput))
    else if !Lockable(db, user, p) then
      (db, Rejected(NotFound))
    else if db.projects[p].status != Active then
      (db, Rejected(Conflict))
    else
      var current := CurrentIds(db.tasks, p, user);
      if |current| != |ids.value| || exists i | 0 <= i < |ids.value| :: ids.value[i] !in current then
        (db, Rejected(Conflict))
      else if |ids.value| > MAX_INT32 + 1 then
        (db, Rejected(Internal))
      else
        (db.(tasks := Renumbered(db.tasks, ids.value, |ids.value|, now)), Accepted)
  }

  // ---------- runs ----------

  datatype Action =
    | PostResult(user: int, doc: nat, job: nat, draft: Draft, now: int)
    | PutResult(user: int, r: nat, version: int, edit: Option<Draft>, now: int)
    | PostConfirm(user: int, r: nat, now: int)
    | PostProject(user: int, r: nat, name: string, now: int)
    | PutProject(user: int, p: nat, version: int, name: string, description: Option<string>, deadline: Option<int>,
        now: int)
    | PostArchive(user: int, p: nat, now: int)
    | PostUnarchive(user: int, p: nat, now: int)
    | RemoveProject(user: int, p: nat, now: int)
    | PostTask(user: int, p: nat, title: string, description: Option<string>, priority: string,
        deadline: Option<int>, now: int)
    | PutTask(user: int, t: nat, version: int, title: string, description: Option<string>, priority: string,
        deadline: Option<int>, now: int)
    | PatchStatus(user: int, t: nat, status: TaskStatus, now: int)
    | RemoveTask(user: int, t: nat, now: int)
    | PostOrder(user: int, p: nat, ids: Option<seq<nat>>, now: int)

  function Step(db: Db, a: Action): (Db, Outcome) {
    match a
    case PostResult(user, doc, job, draft, now) => InsertResult(db, user, doc, job, draft, now)
    case PutResult(user, r, version, edit, now) => UpdateResult(db, user, r, version, edit, now)
    case PostConfirm(user, r, now) => Confirm(db, user, r, now)
    case PostProject(user, r, name, now) => CreateProject(db, user, r, name, now)
    case PutProject(user, p, version, name, description, deadline, now) =>
      UpdateProject(db, user, p, version, name, description, deadline, now)
    case PostArchive(user, p, now) => Transition(db, user, p, Active, Archived, now)
    case PostUnarchive(user, p, now) => Transition(db, user, p, Archived, Active, now)
    case RemoveProject(user, p, now) => DeleteProject(db, user, p, now)
    case PostTask(user, p, title, description, priority, deadline, now) =>
      CreateTask(db, user, p, title, description, priority, deadline, now)
    case PutTask(user, t, version, title, description, priority, deadline, now) =>
      UpdateTask(db, user, t, version, title, description, priority, deadline, now)
    case PatchStatus(user, t, status, now) => UpdateTaskStatus(db, user, t, status, now)
    case RemoveTask(user, t, _) => DeleteTask(db, user, t)
    case PostOrder(user, p, ids, now) => Reorder(db, user, p, ids, now)
  }

  function Exec(db: Db, actions: seq<Action>): Db
    decreases |actions|
  {
    if actions == [] then db else Exec(Step(db, actions[0]).0, actions[1..])
  }

  const EMPTY := Db(map[], map[], map[], 1, 1, 1)
}
