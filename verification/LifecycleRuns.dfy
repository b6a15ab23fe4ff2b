/** Main results about every run of the result, project and task services. */
module LifecycleRuns {
  import opened Base
  import opened Text
  import opened Sequences
  import opened Normalize
  import opened Lifecycle
  import opened LifecycleSafety

  ghost predicate Reachable(db: Db) {
    exists actions :: db == Exec(EMPTY, actions)
  }

  lemma ReachableOk(db: Db)
    requires Reachable(db)
    ensures RowsOk(db)
  {
    var actions :| db == Exec(EMPTY, actions);
    RunOk(EMPTY, actions);
  }

  lemma EmptyOk()
    ensures RowsOk(EMPTY)
  {
  }

  // ---------- what holds between any two states of a run ----------

  predicate ResultSince(row: ParseResult, row': ParseResult) {
    && row'.user == row.user && row'.doc == row.doc && row'.job == row.job
    && row.version <= row'.version
    && (row.version == row'.version ==> row' == row.(confirmed := row'.confirmed, updatedAt := row'.updatedAt))
    && (row.confirmed ==> row' == row)
  }

  predicate ProjectSince(row: Project, row': Project) {
    && row'.user == row.user && row'.doc == row.doc && row'.result == row.result
    && row.version <= row'.version
    && (row.version == row'.version ==> row' == row)
    && (row.status == Deleted ==> row' == row)
  }

  predicate TaskSince(row: Task, row': Task) {
    && row'.project == row.project && row'.user == row.user
    && row.version <= row'.version
    && (row.version == row'.version ==> row' == row.(sortOrder := row'.sortOrder, updatedAt := row'.updatedAt))
  }

  predicate Since(db: Db, db': Db) {
    && db.nextTask <= db'.nextTask
    && (forall r | r in db.results :: r in db'.results && ResultSince(db.results[r], db'.results[r]))
    && (forall p | p in db.projects :: p in db'.projects && ProjectSince(db.projects[p], db'.projects[p]))
    && (forall t | t in db'.tasks && t < db.nextTask :: t in db.tasks && TaskSince(db.tasks[t], db'.tasks[t]))
  }

  lemma MovesSince(db: Db, db': Db)
    requires Moves(db, db')
    ensures Since(db, db')
  {
    hide OnlyActiveTasksMove;
  }

  lemma SinceTransitive(a: Db, b: Db, c: Db)
    requires Since(a, b) && Since(b, c)
    ensures Since(a, c)
  {
  }

  lemma {:induction false} RunSince(db: Db, actions: seq<Action>)
    requires RowsOk(db)
    ensures RowsOk(Exec(db, actions)) && Since(db, Exec(db, actions))
    decreases |actions|
  {
    hide RowsOk, Moves, Step;
    if actions != [] {
      var next := Step(db, actions[0]).0;
      StepOk(db, actions[0]);
      MovesSince(db, next);
      RunSince(next, actions[1..]);
      SinceTransitive(db, next, Exec(db, actions));
    }
  }

  lemma {:induction false} ExecConcat(db: Db, first: seq<Action>, second: seq<Action>)
    ensures Exec(db, first + second) == Exec(Exec(db, first), second)
    decreases |first|
  {
    hide Step;
    if first == [] {
      assert first + second == second;
    } else {
      assert (first + second)[1..] == first[1..] + second;
      ExecConcat(Step(db, first[0]).0, first[1..], second);
    }
  }

  // ---------- optimistic locking ----------

  /** Along any run, a row that still has the version it had then still has the contents it had then: all of a
      project's, all but the place in the order of a task's, all but the confirmation of a result's. */
  lemma EqualVersionsMeanEqualRows(db: Db, actions: seq<Action>)
    requires Reachable(db)
    ensures var db' := Exec(db, actions);
            && (forall p | p in db.projects && p in db'.projects && db'.projects[p].version == db.projects[p].version ::
                  db'.projects[p] == db.projects[p])
            && (forall t | t in db.tasks && t in db'.tasks && db'.tasks[t].version == db.tasks[t].version ::
                  db'.tasks[t] == db.tasks[t].(sortOrder := db'.tasks[t].sortOrder, updatedAt := db'.tasks[t].updatedAt))
            && (forall r | r in db.results && r in db'.results && db'.results[r].version == db.results[r].version ::
                  db'.results[r] == db.results[r].(confirmed := db'.results[r].confirmed,
                      updatedAt := db'.results[r].updatedAt))
  {
    hide ResultsOk, ProjectsOk, OneProjectPerResult, OrdersDistinct, Exec;
    ReachableOk(db);
    RunSince(db, actions);
  }

  /** So an accepted edit overwrites nothing that its author, who read the row earlier in the run, had not seen. */
  lemma NoLostProjectEdit(db: Db, actions: seq<Action>, user: int, p: nat, name: string, description: Option<string>,
                          deadline: Option<int>, now: int)
    requires Reachable(db) && p in db.projects
    ensures var db' := Exec(db, actions);
            UpdateProject(db', user, p, db.projects[p].version, name, description, deadline, now).1.Accepted? ==>
              p in db'.projects && db'.projects[p] == db.projects[p]
  {
    hide Exec, FitsText, Trim;
    EqualVersionsMeanEqualRows(db, actions);
  }

  lemma NoLostTaskEdit(db: Db, actions: seq<Action>, user: int, t: nat, title: string, description: Option<string>,
                       priority: string, deadline: Option<int>, now: int)
    requires Reachable(db) && t in db.tasks
    ensures var db' := Exec(db, actions);
            UpdateTask(db', user, t, db.tasks[t].version, title, description, priority, deadline, now).1.Accepted? ==>
              t in db'.tasks &&
              db'.tasks[t] == db.tasks[t].(sortOrder := db'.tasks[t].sortOrder, updatedAt := db'.tasks[t].updatedAt)
  {
    hide Exec, FitsTask, Trim;
    EqualVersionsMeanEqualRows(db, actions);
  }

  lemma NoLostResultEdit(db: Db, actions: seq<Action>, user: int, r: nat, edit: Option<Draft>, now: int)
    requires Reachable(db) && r in db.results
    ensures var db' := Exec(db, actions);
            UpdateResult(db', user, r, db.results[r].version, edit, now).1.Accepted? ==>
              r in db'.results && db'.results[r].content == db.results[r].content && !db'.results[r].confirmed
  {
    hide Exec, NormalizedUpdate, Store;
    EqualVersionsMeanEqualRows(db, actions);
  }

  // ---------- one project per result ----------

  /** Once a result has a project, creating another never changes anything: the owner gets that same project back,
      or a conflict after it is deleted. */
  lemma SecondCreate(db: Db, p: nat, user: int, name: string, now: int)
    requires RowsOk(db) && p in db.projects
    ensures var r := db.projects[p].result; var (db', outcome) := CreateProject(db, user, r, name, now);
            && db' == db
            && (outcome.ProjectIs? ==> outcome == ProjectIs(p, false) && db.projects[p].status != Deleted)
            && (user == db.projects[p].user > 0 && r > 0 && FitsText(name, MAX_NAME) ==>
                  outcome == if db.projects[p].status == Deleted then Rejected(Conflict) else ProjectIs(p, false))
  {
    hide ResultsOk, TasksOk, OrdersDistinct, FitsText, Trim, DecodedTasks;
    var r := db.projects[p].result;
    if user == db.projects[p].user {
      assert IsProjectOf(db, p, user, r);
    }
  }

  function OutcomeAt(db: Db, actions: seq<Action>, i: nat): Outcome
    requires i < |actions|
  {
    Step(Exec(db, actions[..i]), actions[i]).1
  }

  /** Exactly-once project: over a whole run and all its interleaved requests, `created` is answered at most once per
      result, and every later successful answer names the same project. */
  lemma CreatedAtMostOnce(actions: seq<Action>, i: nat, j: nat)
    requires i < j < |actions| && actions[i].PostProject? && actions[j].PostProject? && actions[i].r == actions[j].r
    requires OutcomeAt(EMPTY, actions, i).ProjectIs?
    ensures OutcomeAt(EMPTY, actions, j).ProjectIs? ==>
              OutcomeAt(EMPTY, actions, j) == ProjectIs(OutcomeAt(EMPTY, actions, i).project, false)
  {
    hide RowsOk, Exec, CreateProject;
    var a := actions[i];
    var before := Exec(EMPTY, actions[..i]);
    EmptyOk();
    RunOk(EMPTY, actions[..i]);
    StepOk(before, a);
    var after := Step(before, a).0;
    var p := OutcomeAt(EMPTY, actions, i).project;
    CreatedProject(before, a.user, a.r, a.name, a.now);
    RunSince(after, actions[i + 1..j]);
    PrefixSplit(actions, i, j);
    SecondCreate(Exec(EMPTY, actions[..j]), p, actions[j].user, actions[j].name, actions[j].now);
  }

  lemma PrefixSplit(actions: seq<Action>, i: nat, j: nat)
    requires i < j < |actions|
    ensures Exec(EMPTY, actions[..j]) == Exec(Step(Exec(EMPTY, actions[..i]), actions[i]).0, actions[i + 1..j])
  {
    hide Step;
    assert actions[..j] == actions[..i] + ([actions[i]] + actions[i + 1..j]);
    ExecConcat(EMPTY, actions[..i], [actions[i]] + actions[i + 1..j]);
    assert ([actions[i]] + actions[i + 1..j])[1..] == actions[i + 1..j];
  }

  lemma CreatedProject(db: Db, user: int, r: nat, name: string, now: int)
    ensures var (db', outcome) := CreateProject(db, user, r, name, now);
            outcome.ProjectIs? ==> outcome.project in db'.projects && db'.projects[outcome.project].result == r
  {
    hide FitsText, Trim, DecodedTasks;
  }

  /** The result behind a project is confirmed, and from then on its row never changes again. */
  lemma ProjectSourceIsFixed(db: Db, actions: seq<Action>, p: nat)
    requires Reachable(db) && p in db.projects
    ensures var r := db.projects[p].result; var db' := Exec(db, actions);
            && r in db.results && db.results[r].confirmed && r in db'.results && db'.results[r] == db.results[r]
            && p in db'.projects && db'.projects[p].result == r
  {
    hide ResultsOk, OneProjectPerResult, TasksOk, OrdersDistinct, Exec;
    ReachableOk(db);
    RunSince(db, actions);
  }

  /** The new tasks are exactly the given ones, in their order, each with its index as its place. */
  predicate AddsTasks(db: Db, db': Db, generated: seq<GeneratedTask>, p: nat, user: int, r: nat) {
    RowsAdded(db.tasks, db'.tasks, db.nextTask, generated, p, user, r)
  }

  predicate RowsAdded(tasks: Tasks, tasks': Tasks, first: nat, generated: seq<GeneratedTask>, p: nat, user: int,
      r: nat) {
    && (forall t | t in tasks :: t in tasks' && tasks'[t] == tasks[t])
    && (forall t | t in tasks' && t !in tasks :: first <= t < first + |generated|)
    && (forall i: nat | i < |generated| ::
          first + i in tasks' && HoldsGenerated(tasks'[first + i], generated[i], p, user, r, i))
  }

  /** The new project is the only new row, and no project or result changes. */
  predicate AddsProject(db: Db, db': Db, r: nat, name: string)
    requires r in db.results
  {
    && db.nextProject !in db.projects && db'.results == db.results
    && db'.projects.Keys == db.projects.Keys + {db.nextProject}
    && (forall p | p in db.projects :: db'.projects[p] == db.projects[p])
    && HoldsResult(db'.projects[db.nextProject], db.results[r], r, name)
  }

  lemma StoredTasksDecode(db: Db, r: nat)
    requires RowsOk(db) && r in db.results
    ensures var generated := db.results[r].content.generated;
            generated.Stored? && DecodedTasks(generated) == Ok(generated.tasks)
  {
    hide ProjectsOk, OneProjectPerResult, TasksOk, OrdersDistinct, NormalTasks, DecodedTasks;
    DecodeIsIdentityOnNormal(db.results[r].content.generated.tasks);
  }

  /** A confirmed result without a project always becomes one: its stored tasks decode, and they become the
      project's tasks, unchanged and in their order, and the project takes over the summary and the deadline. */
  lemma ConfirmedResultBecomesProject(db: Db, r: nat, name: string, now: int)
    requires Reachable(db) && r in db.results && db.results[r].confirmed && db.results[r].user > 0 &&
        FitsText(name, MAX_NAME)
    requires forall p | p in db.projects :: db.projects[p].result != r
    ensures var (db', outcome) := CreateProject(db, db.results[r].user, r, name, now);
            && outcome == ProjectIs(db.nextProject, true)
            && db.results[r].content.generated.Stored?
            && AddsTasks(db, db', db.results[r].content.generated.tasks, db.nextProject, db.results[r].user, r)
            && AddsProject(db, db', r, name)
  {
    hide TasksOk, OneProjectPerResult, OrdersDistinct, FitsText, Trim, NormalTasks, DecodedTasks, InsertProject;
    ReachableOk(db);
    var user := db.results[r].user;
    var generated := db.results[r].content.generated;
    StoredTasksDecode(db, r);
    assert CreateProject(db, user, r, name, now) ==
        (InsertProject(db, user, r, Trim(name), generated.tasks, now), ProjectIs(db.nextProject, true));
    InsertedRows(db, user, r, Trim(name), generated.tasks, now);
    InsertedProject(db, r, name, generated.tasks, now);
  }

  lemma InsertedProject(db: Db, r: nat, name: string, generated: seq<GeneratedTask>, now: int)
    requires RowsOk(db) && r in db.results
    ensures AddsProject(db, InsertProject(db, db.results[r].user, r, Trim(name), generated, now), r, name)
  {
    hide ResultsOk, OneProjectPerResult, OrdersDistinct, TasksOk, NewTasks, Trim;
  }

  lemma AddedRows(tasks: Tasks, first: nat, generated: seq<GeneratedTask>, p: nat, user: int, r: nat, now: int)
    requires forall t | t in tasks :: t < first
    ensures RowsAdded(tasks, tasks + NewTasks(generated, first, p, user, r, now), first, generated, p, user, r)
  {
    var added := NewTasks(generated, first, p, user, r, now);
    var all := tasks + added;
    forall i: nat | i < |generated|
      ensures first + i in all && HoldsGenerated(all[first + i], generated[i], p, user, r, i)
    {
      assert first + i in added;
    }
  }

  lemma InsertedRows(db: Db, user: int, r: nat, name: string, generated: seq<GeneratedTask>, now: int)
    requires RowsOk(db) && r in db.results
    ensures AddsTasks(db, InsertProject(db, user, r, name, generated, now), generated, db.nextProject, user, r)
  {
    hide ResultsOk, ProjectsOk, OneProjectPerResult, OrdersDistinct, NewTask;
    AddedRows(db.tasks, db.nextTask, generated, db.nextProject, user, r, now);
    hide RowsOk, TasksOk, NewTasks, RowsAdded;
  }

  // ---------- frozen tasks ----------

  predicate NeverActive(db: Db, actions: seq<Action>, p: nat)
    decreases |actions|
  {
    p in db.projects && db.projects[p].status != Active &&
    (actions != [] ==> NeverActive(Step(db, actions[0]).0, actions[1..], p))
  }

  function TasksOf(tasks: Tasks, p: nat): Tasks {
    map t | t in tasks && tasks[t].project == p :: tasks[t]
  }

  lemma StepKeepsInactiveTasks(db: Db, db': Db, p: nat)
    requires Moves(db, db') && RowsOk(db') && p in db.projects && db.projects[p].status != Active
    requires forall t | t in db.tasks :: t < db.nextTask
    ensures TasksOf(db'.tasks, p) == TasksOf(db.tasks, p)
  {
    hide RowsOk, ResultsMove, ProjectsMove;
    forall t | t in db.tasks || t in db'.tasks
      ensures t in TasksOf(db.tasks, p) <==> t in TasksOf(db'.tasks, p)
      ensures t in TasksOf(db.tasks, p) ==> db'.tasks[t] == db.tasks[t]
    {
    }
  }

  /** The task set of a project is frozen for as long as the project is not active. */
  lemma {:induction false} InactiveTasksFrozen(db: Db, actions: seq<Action>, p: nat)
    requires RowsOk(db) && NeverActive(db, actions, p)
    ensures TasksOf(Exec(db, actions).tasks, p) == TasksOf(db.tasks, p)
    decreases |actions|
  {
    hide Moves, Step, ResultsOk, ProjectsOk, OneProjectPerResult, OrdersDistinct, TasksOf;
    if actions != [] {
      StepOk(db, actions[0]);
      StepKeepsInactiveTasks(db, Step(db, actions[0]).0, p);
      InactiveTasksFrozen(Step(db, actions[0]).0, actions[1..], p);
    }
  }

  lemma {:induction false} DeletedNeverActive(db: Db, actions: seq<Action>, p: nat)
    requires RowsOk(db) && p in db.projects && db.projects[p].status == Deleted
    ensures NeverActive(db, actions, p)
    decreases |actions|
  {
    hide RowsOk, Step, ResultsMove, TasksMove, OnlyActiveTasksMove;
    if actions != [] {
      StepOk(db, actions[0]);
      DeletedNeverActive(Step(db, actions[0]).0, actions[1..], p);
    }
  }

  /** Deletion is final: neither the project's row nor any of its tasks ever changes again. */
  lemma DeletedProjectIsFinal(db: Db, actions: seq<Action>, p: nat)
    requires Reachable(db) && p in db.projects && db.projects[p].status == Deleted
    ensures var db' := Exec(db, actions);
            p in db'.projects && db'.projects[p] == db.projects[p] && TasksOf(db'.tasks, p) == TasksOf(db.tasks, p)
  {
    hide RowsOk, Exec, NeverActive, TasksOf;
    ReachableOk(db);
    RunSince(db, actions);
    DeletedNeverActive(db, actions, p);
    InactiveTasksFrozen(db, actions, p);
  }

  // ---------- order ----------

  predicate Precedes(tasks: Tasks, t: nat, u: nat)
    requires t in tasks && u in tasks
  {
    tasks[t].sortOrder < tasks[u].sortOrder || (tasks[t].sortOrder == tasks[u].sortOrder && t < u)
  }

  /** The answer to `ORDER BY sort_order ASC, id ASC` over a project's tasks. */
  predicate IsListing(tasks: Tasks, p: nat, user: int, ids: seq<nat>) {
    && (forall i | 0 <= i < |ids| :: IsTaskOf(tasks, ids[i], p, user))
    && (forall t | t in tasks && IsTaskOf(tasks, t, p, user) :: t in ids)
    && (forall i, j | 0 <= i < j < |ids| :: Precedes(tasks, ids[i], ids[j]))
  }

  /** That answer is unique. */
  lemma {:induction false} ListingIsUnique(tasks: Tasks, p: nat, user: int, a: seq<nat>, b: seq<nat>)
    requires IsListing(tasks, p, user, a) && IsListing(tasks, p, user, b)
    ensures a == b
    decreases |a|
  {
    hide IsListing;
    EmptyListing(tasks, p, user, a);
    EmptyListing(tasks, p, user, b);
    if a != [] && b != [] {
      SameHead(tasks, p, user, a, b);
      TailListing(tasks, p, user, a);
      TailListing(tasks, p, user, b);
      ListingIsUnique(tasks - {a[0]}, p, user, a[1..], b[1..]);
      assert a == [a[0]] + a[1..] && b == [b[0]] + b[1..];
    }
  }

  lemma SameHead(tasks: Tasks, p: nat, user: int, a: seq<nat>, b: seq<nat>)
    requires IsListing(tasks, p, user, a) && IsListing(tasks, p, user, b) && a != [] && b != []
    ensures a[0] == b[0]
  {
    assert IsTaskOf(tasks, a[0], p, user) && IsTaskOf(tasks, b[0], p, user);
    var i :| 0 <= i < |b| && b[i] == a[0];
    var j :| 0 <= j < |a| && a[j] == b[0];
    assert i > 0 ==> Precedes(tasks, b[0], b[i]);
    assert j > 0 ==> Precedes(tasks, a[0], a[j]);
  }

  lemma EmptyListing(tasks: Tasks, p: nat, user: int, ids: seq<nat>)
    requires IsListing(tasks, p, user, ids)
    ensures ids == [] <==> forall t | t in tasks :: !IsTaskOf(tasks, t, p, user)
  {
    if ids != [] {
      assert IsTaskOf(tasks, ids[0], p, user);
    }
  }

  lemma TailListing(tasks: Tasks, p: nat, user: int, ids: seq<nat>)
    requires IsListing(tasks, p, user, ids) && ids != []
    ensures IsListing(tasks - {ids[0]}, p, user, ids[1..])
  {
    var rest := tasks - {ids[0]};
    forall i | 0 <= i < |ids[1..]| ensures IsTaskOf(rest, ids[1..][i], p, user) {
      assert Precedes(tasks, ids[0], ids[i + 1]);
    }
    forall t | t in rest && IsTaskOf(rest, t, p, user) ensures t in ids[1..] {
      assert IsTaskOf(tasks, t, p, user) && t in ids;
    }
  }

  /** In every reachable state the tasks of a project have pairwise distinct places, none of them negative. */
  lemma PlacesAreDistinct(db: Db, t: nat, u: nat)
    requires Reachable(db) && t in db.tasks && u in db.tasks && t != u && db.tasks[t].project == db.tasks[u].project
    ensures db.tasks[t].sortOrder != db.tasks[u].sortOrder && db.tasks[t].sortOrder >= 0
  {
    ReachableOk(db);
  }

  /** The request names each task of the project exactly once. */
  ghost predicate IsPermutation(db: Db, user: int, p: nat, ids: seq<nat>) {
    NoRepeats(ids) && forall t :: t in ids <==> IsTaskOf(db.tasks, t, p, user)
  }

  /** Reorder succeeds exactly for a permutation of the project's tasks whose places fit the column, and then the
      listing is the requested sequence with places 0 to n - 1; otherwise nothing changes. */
  lemma ReorderListsAsRequested(db: Db, user: int, p: nat, ids: seq<nat>, now: int)
    requires Reachable(db)
    ensures var (db', outcome) := Reorder(db, user, p, Some(ids), now);
            && (outcome.Accepted? <==>
                  && user > 0 && Lockable(db, user, p) && db.projects[p].status == Active
                  && IsPermutation(db, user, p, ids) && |ids| <= MAX_INT32 + 1)
            && (outcome.Accepted? ==>
                  && IsListing(db'.tasks, p, user, ids)
                  && forall i | 0 <= i < |ids| :: db'.tasks[ids[i]].sortOrder == i)
            && (!outcome.Accepted? ==> db' == db)
  {
    hide RowsOk, IsListing, Renumbered, IsPermutation;
    ReachableOk(db);
    if Reorder(db, user, p, Some(ids), now).1.Accepted? {
      ReorderAccepted(db, user, p, ids, now);
    } else if Lockable(db, user, p) && db.projects[p].status == Active && IsPermutation(db, user, p, ids) {
      PermutationAccepted(db, user, p, ids);
      ProjectIdsPositive(db, p);
    }
  }

  lemma ProjectIdsPositive(db: Db, p: nat)
    requires RowsOk(db) && p in db.projects
    ensures p > 0
  {
    hide ResultsOk, TasksOk, OneProjectPerResult, OrdersDistinct;
  }

  lemma ReorderAccepted(db: Db, user: int, p: nat, ids: seq<nat>, now: int)
    requires RowsOk(db) && Reorder(db, user, p, Some(ids), now).1.Accepted?
    ensures var db' := Reorder(db, user, p, Some(ids), now).0;
            && IsPermutation(db, user, p, ids) && IsListing(db'.tasks, p, user, ids)
            && (forall i | 0 <= i < |ids| :: db'.tasks[ids[i]].sortOrder == i)
  {
    hide RowsOk, Renumbered;
    ReorderedTasks(db, user, p, ids, now);
    AllListed(ids, CurrentIds(db.tasks, p, user));
    assert forall i | 0 <= i < |ids| :: ids[i] in ids;
  }

  lemma PermutationAccepted(db: Db, user: int, p: nat, ids: seq<nat>)
    requires RowsOk(db) && IsPermutation(db, user, p, ids)
    ensures ValidOrder(Some(ids)) && |CurrentIds(db.tasks, p, user)| == |ids|
    ensures forall i | 0 <= i < |ids| :: ids[i] in CurrentIds(db.tasks, p, user)
  {
    hide ResultsOk, ProjectsOk, OneProjectPerResult, OrdersDistinct;
    CountMembers(ids, CurrentIds(db.tasks, p, user));
    forall i | 0 <= i < |ids| ensures ids[i] in CurrentIds(db.tasks, p, user) {
      assert ids[i] in ids;
    }
  }
}
