/** The result, project and task services as the source runs them: rows in fields, updated in place inside a
    transaction that puts everything back when it fails. */
module LifecycleStore {
  import opened Base
  import opened Text
  import opened Sequences
  import opened Normalize
  import opened Lifecycle
  import opened LifecycleSafety
  import opened LifecycleRuns

  /** validateReorderRequest */
  method ValidateReorderRequest(user: int, p: nat, ids: Option<seq<nat>>) returns (ok: bool)
    ensures ok <==> user > 0 && p > 0 && ValidOrder(ids)
  {
    if user <= 0 || p == 0 || ids.None? {
      return false;
    }
    var requested := ids.value;
    var seen: set<nat> := {};
    for n := 0 to |requested|
      invariant forall t :: t in seen <==> t in requested[..n]
      invariant NoRepeats(requested[..n]) && 0 !in requested[..n]
    {
      var id := requested[n];
      assert requested[..n + 1] == requested[..n] + [id];
      if id == 0 {
        return false;
      }
      if id in seen {
        Repeated(requested, n);
        return false;
      }
      seen := seen + {id};
    }
    assert requested[..|requested|] == requested;
    return true;
  }

  lemma Repeated(ids: seq<nat>, n: nat)
    requires n < |ids| && ids[n] in ids[..n]
    ensures !NoRepeats(ids)
  {
    var i :| 0 <= i < n && ids[i] == ids[n];
  }

  // ---------- what an accepted request changes ----------

  /** Only this row, and its version by one; its owner and its origin stay. */
  predicate EditsResult(before: Db, after: Db, r: nat) {
    && r in before.results && r in after.results
    && after == before.(results := before.results[r := after.results[r]])
    && ResultMoves(before.results[r], after.results[r]) && after.results[r].version == before.results[r].version + 1
  }

  predicate EditsProject(before: Db, after: Db, p: nat) {
    && p in before.projects && p in after.projects
    && after == before.(projects := before.projects[p := after.projects[p]])
    && ProjectMoves(before.projects[p], after.projects[p]) && after.projects[p].version == before.projects[p].version + 1
  }

  /** Only this row, its version by one, and not its place in the order. */
  predicate EditsTask(before: Db, after: Db, t: nat) {
    && t in before.tasks && t in after.tasks
    && after == before.(tasks := before.tasks[t := after.tasks[t]])
    && TaskMoves(before.tasks[t], after.tasks[t]) && after.tasks[t].version == before.tasks[t].version + 1
    && after.tasks[t].sortOrder == before.tasks[t].sortOrder
  }

  predicate SameTexts(project: Project, project': Project) {
    project.name == project'.name && project.description == project'.description && project.deadline == project'.deadline
  }

  /** The user owns the project, and it is active. */
  predicate Open(db: Db, user: int, p: nat) {
    Lockable(db, user, p) && db.projects[p].status == Active
  }

  /** The task holds what the user gave, as a task of the project that nobody generated: not begun and never edited. */
  predicate HoldsInput(task: Task, p: nat, user: int, title: string, description: Option<string>, priority: string,
      deadline: Option<int>) {
    && task.title == Trim(title) && task.description == TrimOption(description) && task.priority == priority
    && task.deadline == deadline
    && task.project == p && task.user == user && task.source == None && task.manual
    && task.status == Todo && task.version == 1
  }

  lemma NextIdsAreNew(db: Db)
    requires RowsOk(db)
    ensures db.nextProject !in db.projects && db.nextTask !in db.tasks
  {
    hide ResultsOk, OneProjectPerResult, OrdersDistinct;
  }

  lemma FoundProject(db: Db, p: nat, user: int, r: nat)
    ensures IsProjectOf(db, p, user, r) ==>
              p in db.projects && db.projects[p].result == r && db.projects[p].user == user
  {}

  class Database {
    var results: Results
    var projects: Projects
    var tasks: Tasks
    var nextResult: nat
    var nextProject: nat
    var nextTask: nat

    function View(): Db
      reads this
    {
      Db(results, projects, tasks, nextResult, nextProject, nextTask)
    }

    ghost predicate Valid()
      reads this
    {
      RowsOk(View())
    }

    constructor ()
      ensures Valid() && View() == EMPTY
    {
      results, projects, tasks := map[], map[], map[];
      nextResult, nextProject, nextTask := 1, 1, 1;
    }

    method UpdateResult(user: int, r: nat, version: int, edit: Option<Draft>, now: int) returns (outcome: Outcome)
      requires Valid()
      modifies this`results
      ensures outcome.Accepted? <==>
                && version >= 1 && edit.Some? && AcceptableDraft(edit.value, true)
                && r in old(results) && old(results)[r].user == user && !old(results)[r].confirmed
                && old(results)[r].version == version && version != MAX_INT32
      ensures outcome.Rejected? ==> View() == old(View())
      ensures outcome.Accepted? ==>
                EditsResult(old(View()), View(), r) && !results[r].confirmed && HoldsDraft(results[r].content, edit.value)
      ensures Valid() && (View(), outcome) == Lifecycle.UpdateResult(old(View()), user, r, version, edit, now)
    {
      hide RowsOk, Moves, Store, AcceptableDraft, HoldsDraft;
      StepOk(View(), PutResult(user, r, version, edit, now));
      var normalized := NormalizeUpdate(version, edit);
      if normalized.Err? {
        return Rejected(InvalidInput);
      }
      if r !in results || results[r].user != user {
        return Rejected(NotFound);
      }
      var current := results[r];
      if current.confirmed {
        return Rejected(InvalidState);
      }
      if current.version != version {
        return Rejected(Conflict);
      }
      if version == MAX_INT32 {
        return Rejected(Internal);
      }
      StoreHoldsDraft(edit.value, true);
      results := results[r := current.(content := Store(normalized.value), version := current.version + 1,
          updatedAt := now)];
      return Accepted;
    }

    method Confirm(user: int, r: nat, now: int) returns (outcome: Outcome)
      requires Valid()
      modifies this`results
      ensures outcome.Accepted? <==> r in old(results) && old(results)[r].user == user
      ensures outcome.Rejected? ==> View() == old(View())
      ensures outcome.Accepted? ==>
                && r in results && results[r].confirmed && results[r].content == old(results)[r].content
                && results[r].version == old(results)[r].version && results[r].user == user
                && View() == old(View()).(results := old(results)[r := results[r]])
                && (old(results)[r].confirmed ==> View() == old(View()))
      ensures Valid() && (View(), outcome) == Lifecycle.Confirm(old(View()), user, r, now)
    {
      hide RowsOk, Moves;
      StepOk(View(), PostConfirm(user, r, now));
      if r !in results || results[r].user != user {
        return Rejected(NotFound);
      }
      if results[r].confirmed {
        return Accepted;
      }
      results := results[r := results[r].(confirmed := true, updatedAt := now)];
      return Accepted;
    }

    /** project.Create: the project row first, then one task per generated task, all in one transaction. */
    static method BuildTasks(list: seq<GeneratedTask>, first: nat, p: nat, user: int, r: nat,
        now: int) returns (rows: Tasks)
      ensures forall t :: t in rows <==> first <= t < first + |list|
      ensures forall i: nat | i < |list| :: HoldsGenerated(rows[first + i], list[i], p, user, r, i)
      ensures rows == NewTasks(list, first, p, user, r, now)
    {
      rows := map[];
      for i := 0 to |list|
        invariant rows == NewTasks(list[..i], first, p, user, r, now)
      {
        assert list[..i + 1][..i] == list[..i];
        rows := rows[first + i := NewTask(list[i], p, user, r, i, now)];
      }
      assert list[..|list|] == list;
    }

    method CreateProject(user: int, r: nat, name: string, now: int) returns (outcome: Outcome)
      requires Valid()
      modifies this
      ensures outcome.Rejected? ==> View() == old(View())
      ensures outcome.ProjectIs? && outcome.created <==>
                && user > 0 && r > 0 && FitsText(name, MAX_NAME)
                && r in old(results) && old(results)[r].user == user && old(results)[r].confirmed
                && forall p | p in old(projects) :: old(projects)[p].result != r
      ensures outcome.ProjectIs? && !outcome.created ==>
                && View() == old(View()) && outcome.project in projects && projects[outcome.project].result == r
                && projects[outcome.project].user == user
      ensures outcome.ProjectIs? && outcome.created ==>
                && outcome.project !in old(projects) && r in old(results) && results == old(results)
                && outcome.project in projects
                && projects == old(projects)[outcome.project := projects[outcome.project]]
                && HoldsResult(projects[outcome.project], old(results)[r], r, name)
                && results[r].content.generated.Stored?
                && AddsTasks(old(View()), View(), results[r].content.generated.tasks, outcome.project, user, r)
      ensures Valid() && (View(), outcome) == Lifecycle.CreateProject(old(View()), user, r, name, now)
    {
      hide RowsOk, Moves, FitsText, Trim, DecodedTasks, IsProjectOf, InsertProject, RowsAdded, HoldsResult;
      StepOk(View(), PostProject(user, r, name, now));
      NextIdsAreNew(View());
      if user <= 0 || r == 0 || !FitsText(name, MAX_NAME) {
        return Rejected(InvalidInput);
      }
      if r !in results || results[r].user != user {
        return Rejected(NotFound);
      }
      var result := results[r];
      if exists p | p in projects :: IsProjectOf(View(), p, user, r) {
        var p := FindProject(View(), user, r);
        FoundProject(View(), p, user, r);
        if projects[p].status == Deleted {
          return Rejected(Conflict);
        }
        return ProjectIs(p, false);
      }
      if !result.confirmed {
        return Rejected(InvalidState);
      }
      var generated := DecodeGeneratedTasks(result.content.generated);
      if generated.Err? {
        outcome := Rejected(generated.error);
      } else if exists p | p in projects :: projects[p].result == r {
        outcome := Rejected(Internal);
      } else {
        InsertedRows(View(), user, r, Trim(name), generated.value, now);
        InsertedProject(View(), r, name, generated.value, now);
        var p := InsertRows(user, r, Trim(name), generated.value, now);
        outcome := ProjectIs(p, true);
      }
      StoredTasksDecode(old(View()), r);
    }

    /** The inserts of that transaction. */
    method InsertRows(user: int, r: nat, name: string, generated: seq<GeneratedTask>, now: int) returns (p: nat)
      requires r in results
      modifies this
      ensures p == old(nextProject) && View() == InsertProject(old(View()), user, r, name, generated, now)
    {
      hide NewTasks, NewTask, HoldsGenerated;
      var result := results[r];
      p := nextProject;
      projects := projects[p := Project(user, result.doc, r, name, Some(result.content.summary),
                                        result.content.deadline, Active, 1, now)];
      nextProject := nextProject + 1;
      var rows := BuildTasks(generated, nextTask, p, user, r, now);
      tasks := tasks + rows;
      nextTask := nextTask + |generated|;
    }

    method UpdateProject(user: int, p: nat, version: int, name: string, description: Option<string>,
                         deadline: Option<int>, now: int) returns (outcome: Outcome)
      requires Valid()
      modifies this`projects
      ensures outcome.Accepted? <==>
                && user > 0 && p > 0 && version >= 1 && FitsText(name, MAX_NAME)
                && (description.Some? ==> FitsText(description.value, MAX_DESCRIPTION))
                && Open(old(View()), user, p) && old(projects)[p].version == version && version != MAX_INT32
      ensures outcome.Rejected? ==> View() == old(View())
      ensures outcome.Accepted? ==>
                && EditsProject(old(View()), View(), p) && Open(View(), user, p)
                && projects[p].name == Trim(name) && projects[p].description == TrimOption(description)
                && projects[p].deadline == deadline
      ensures Valid() && (View(), outcome) ==
          Lifecycle.UpdateProject(old(View()), user, p, version, name, description, deadline, now)
    {
      hide RowsOk, Moves, Trim;
      StepOk(View(), PutProject(user, p, version, name, description, deadline, now));
      if user <= 0 || p == 0 || version < 1 {
        return Rejected(InvalidInput);
      }
      var trimmed := Trim(name);
      if trimmed == "" || |trimmed| > MAX_NAME {
        return Rejected(InvalidInput);
      }
      var text := description;
      if description.Some? {
        var t := Trim(description.value);
        if t == "" || |t| > MAX_DESCRIPTION {
          return Rejected(InvalidInput);
        }
        text := Some(t);
      }
      if !Lockable(View(), user, p) {
        return Rejected(NotFound);
      }
      var current := projects[p];
      if current.status != Active {
        return Rejected(Conflict);
      }
      if current.version != version {
        return Rejected(Conflict);
      }
      if current.version == MAX_INT32 {
        return Rejected(Internal);
      }
      projects := projects[p := current.(name := trimmed, description := text, deadline := deadline,
                                         version := current.version + 1, updatedAt := now)];
      return Accepted;
    }

    method Archive(user: int, p: nat, now: int) returns (outcome: Outcome)
      requires Valid()
      modifies this`projects
      ensures outcome.Rejected? ==> View() == old(View())
      ensures outcome.Accepted? ==>
                && p in old(projects) && p in projects && projects[p].status == Archived
                && SameTexts(projects[p], old(projects)[p])
                && (if old(projects)[p].status == Archived then View() == old(View())
                    else old(projects)[p].status == Active && EditsProject(old(View()), View(), p))
      ensures Valid() && (View(), outcome) == Step(old(View()), PostArchive(user, p, now))
    {
      hide RowsOk, Moves;
      outcome := Transition(user, p, Active, Archived, now);
      StepOk(old(View()), PostArchive(user, p, now));
    }

    method Unarchive(user: int, p: nat, now: int) returns (outcome: Outcome)
      requires Valid()
      modifies this`projects
      ensures outcome.Rejected? ==> View() == old(View())
      ensures outcome.Accepted? ==>
                && p in old(projects) && p in projects && projects[p].status == Active
                && SameTexts(projects[p], old(projects)[p])
                && (if old(projects)[p].status == Active then View() == old(View())
                    else old(projects)[p].status == Archived && EditsProject(old(View()), View(), p))
      ensures Valid() && (View(), outcome) == Step(old(View()), PostUnarchive(user, p, now))
    {
      hide RowsOk, Moves;
      outcome := Transition(user, p, Archived, Active, now);
      StepOk(old(View()), PostUnarchive(user, p, now));
    }

    method Transition(user: int, p: nat, source: ProjectStatus, target: ProjectStatus, now: int) returns (outcome: Outcome)
      requires Valid() && source != Deleted && target != Deleted
      modifies this`projects
      ensures Valid()
      ensures outcome.Accepted? <==>
                && user > 0 && p > 0 && Lockable(old(View()), user, p)
                && (old(projects)[p].status == target ||
                    (old(projects)[p].status == source && old(projects)[p].version != MAX_INT32))
      ensures outcome.Rejected? ==> View() == old(View())
      ensures outcome.Accepted? ==>
                && p in projects && projects[p].status == target
                && (if old(projects)[p].status == target then View() == old(View()) else EditsProject(old(View()), View(), p))
                && SameTexts(projects[p], old(projects)[p])
      ensures (View(), outcome) == Lifecycle.Transition(old(View()), user, p, source, target, now)
    {
      hide RowsOk, Moves;
      if user <= 0 || p == 0 {
        return Rejected(InvalidInput);
      }
      if !Lockable(View(), user, p) {
        return Rejected(NotFound);
      }
      var current := projects[p];
      if current.status == target {
        return Accepted;
      }
      if current.status != source {
        return Rejected(Conflict);
      }
      if current.version == MAX_INT32 {
        return Rejected(Internal);
      }
      var moved := current.(status := target, version := current.version + 1, updatedAt := now);
      ProjectUpdateOk(View(), p, moved);
      projects := projects[p := moved];
      return Accepted;
    }

    method DeleteProject(user: int, p: nat, now: int) returns (outcome: Outcome)
      requires Valid()
      modifies this`projects
      ensures outcome.Accepted? <==>
                && user > 0 && p > 0 && Lockable(old(View()), user, p)
                && old(projects)[p].status == Archived && old(projects)[p].version != MAX_INT32
      ensures outcome.Rejected? ==> View() == old(View())
      ensures outcome.Accepted? ==>
                EditsProject(old(View()), View(), p) && projects[p].status == Deleted &&
                SameTexts(projects[p], old(projects)[p])
      ensures Valid() && (View(), outcome) == Lifecycle.DeleteProject(old(View()), user, p, now)
    {
      hide RowsOk, Moves;
      StepOk(View(), RemoveProject(user, p, now));
      if user <= 0 || p == 0 {
        return Rejected(InvalidInput);
      }
      if !Lockable(View(), user, p) {
        return Rejected(NotFound);
      }
      var current := projects[p];
      if current.status == Active {
        return Rejected(Conflict);
      }
      if current.version == MAX_INT32 {
        return Rejected(Internal);
      }
      projects := projects[p := current.(status := Deleted, version := current.version + 1, updatedAt := now)];
      return Accepted;
    }

    /** normalizeTaskFields */
    method NormalizeTaskFields(title: string, description: Option<string>, priority: string)
      returns (ok: bool, title': string, description': Option<string>)
      ensures ok <==> FitsTask(title, description, priority)
      ensures ok ==> title' == Trim(title) && description' == TrimOption(description)
    {
      hide Trim;
      title', description' := Trim(title), None;
      if title' == "" || |title'| > MAX_TITLE || !KnownPriority(priority) {
        return false, title', description';
      }
      if description.Some? {
        var text := Trim(description.value);
        if text == "" || |text| > MAX_TASK_DESCRIPTION {
          return false, title', description';
        }
        description' := Some(text);
      }
      return true, title', description';
    }

    method CreateTask(user: int, p: nat, title: string, description: Option<string>, priority: string,
                      deadline: Option<int>, now: int) returns (outcome: Outcome)
      requires Valid()
      modifies this`tasks, this`nextTask
      ensures outcome.Accepted? <==>
                && user > 0 && p > 0 && FitsTask(title, description, priority) && Open(old(View()), user, p)
                && MaxSortOrder(old(tasks), p, user) != MAX_INT32
      ensures outcome.Rejected? ==> View() == old(View())
      ensures outcome.Accepted? ==>
                && old(nextTask) !in old(tasks) && old(nextTask) in tasks
                && View() == old(View()).(tasks := old(tasks)[old(nextTask) := tasks[old(nextTask)]],
                                          nextTask := old(nextTask) + 1)
                && HoldsInput(tasks[old(nextTask)], p, user, title, description, priority, deadline)
                && forall t | IsTaskOf(old(tasks), t, p, user) :: old(tasks)[t].sortOrder < tasks[old(nextTask)].sortOrder
      ensures Valid() && (View(), outcome) ==
          Lifecycle.CreateTask(old(View()), user, p, title, description, priority, deadline, now)
    {
      hide RowsOk, Moves, Trim, FitsTask, MaxSortOrder;
      StepOk(View(), PostTask(user, p, title, description, priority, deadline, now));
      NextIdsAreNew(View());
      if user <= 0 || p == 0 {
        return Rejected(InvalidInput);
      }
      var ok, title', description' := NormalizeTaskFields(title, description, priority);
      if !ok {
        return Rejected(InvalidInput);
      }
      if !Lockable(View(), user, p) {
        return Rejected(NotFound);
      }
      if projects[p].status != Active {
        return Rejected(Conflict);
      }
      var max := MaxSortOrder(tasks, p, user);
      if max == MAX_INT32 {
        return Rejected(Internal);
      }
      tasks := tasks[nextTask := Task(p, user, None, title', description', Todo, priority, deadline, max + 1, true,
          1, now)];
      nextTask := nextTask + 1;
      return Accepted;
    }

    method UpdateTask(user: int, t: nat, version: int, title: string, description: Option<string>, priority: string,
                      deadline: Option<int>, now: int) returns (outcome: Outcome)
      requires Valid()
      modifies this`tasks
      ensures outcome.Accepted? <==>
                && user > 0 && t > 0 && version >= 1 && FitsTask(title, description, priority)
                && t in old(tasks) && old(tasks)[t].user == user && Open(old(View()), user, old(tasks)[t].project)
                && old(tasks)[t].version == version && version != MAX_INT32
      ensures outcome.Rejected? ==> View() == old(View())
      ensures outcome.Accepted? ==>
                && EditsTask(old(View()), View(), t) && tasks[t].status == old(tasks)[t].status
                && tasks[t].title == Trim(title) && tasks[t].description == TrimOption(description)
                && tasks[t].priority == priority && tasks[t].deadline == deadline
      ensures Valid() && (View(), outcome) ==
          Lifecycle.UpdateTask(old(View()), user, t, version, title, description, priority, deadline, now)
    {
      hide RowsOk, Moves, Trim, FitsTask;
      StepOk(View(), PutTask(user, t, version, title, description, priority, deadline, now));
      if user <= 0 || t == 0 || version < 1 {
        return Rejected(InvalidInput);
      }
      var ok, title', description' := NormalizeTaskFields(title, description, priority);
      if !ok {
        return Rejected(InvalidInput);
      }
      var locked := Writable(View(), user, t);
      if locked.Rejected? {
        return locked;
      }
      var current := tasks[t];
      if current.version != version {
        return Rejected(Conflict);
      }
      if current.version == MAX_INT32 {
        return Rejected(Internal);
      }
      tasks := tasks[t := current.(title := title', description := description', priority := priority, deadline := deadline,
                                   version := current.version + 1, updatedAt := now)];
      return Accepted;
    }

    method UpdateTaskStatus(user: int, t: nat, status: TaskStatus, now: int) returns (outcome: Outcome)
      requires Valid()
      modifies this`tasks
      ensures outcome.Accepted? <==>
                && user > 0 && t > 0 && t in old(tasks) && old(tasks)[t].user == user
                && Open(old(View()), user, old(tasks)[t].project)
                && (old(tasks)[t].status == status || old(tasks)[t].version != MAX_INT32)
      ensures outcome.Rejected? ==> View() == old(View())
      ensures outcome.Accepted? ==>
                && t in tasks && tasks[t].status == status
                && tasks[t].title == old(tasks)[t].title && tasks[t].description == old(tasks)[t].description
                && tasks[t].priority == old(tasks)[t].priority && tasks[t].deadline == old(tasks)[t].deadline
                && (if old(tasks)[t].status == status then View() == old(View()) else EditsTask(old(View()), View(), t))
      ensures Valid() && (View(), outcome) == Lifecycle.UpdateTaskStatus(old(View()), user, t, status, now)
    {
      hide RowsOk, Moves;
      StepOk(View(), PatchStatus(user, t, status, now));
      if user <= 0 || t == 0 {
        return Rejected(InvalidInput);
      }
      var locked := Writable(View(), user, t);
      if locked.Rejected? {
        return locked;
      }
      var current := tasks[t];
      if current.status == status {
        return Accepted;
      }
      if current.version == MAX_INT32 {
        return Rejected(Internal);
      }
      tasks := tasks[t := current.(status := status, version := current.version + 1, updatedAt := now)];
      return Accepted;
    }

    method DeleteTask(user: int, t: nat) returns (outcome: Outcome)
      requires Valid()
      modifies this`tasks
      ensures outcome.Accepted? <==>
                && user > 0 && t > 0 && t in old(tasks) && old(tasks)[t].user == user
                && Open(old(View()), user, old(tasks)[t].project)
      ensures View() == if outcome.Accepted? then old(View()).(tasks := old(tasks) - {t}) else old(View())
      ensures Valid() && (View(), outcome) == Lifecycle.DeleteTask(old(View()), user, t)
    {
      hide RowsOk, Moves;
      StepOk(View(), RemoveTask(user, t, 0));
      if user <= 0 || t == 0 {
        return Rejected(InvalidInput);
      }
      var locked := Writable(View(), user, t);
      if locked.Rejected? {
        return locked;
      }
      tasks := tasks - {t};
      return Accepted;
    }

    /** task.Reorder rewrites one row after the other; an index that int32 cannot hold is refused by the CHECK on
        sort_order, and the rows rewritten before it are put back. */
    method Reorder(user: int, p: nat, ids: Option<seq<nat>>, now: int) returns (outcome: Outcome)
      requires Valid()
      modifies this`tasks
      ensures Valid() && (View(), outcome) == Lifecycle.Reorder(old(View()), user, p, ids, now)
      ensures outcome.Accepted? ==> IsListing(tasks, p, user, ids.value)
      ensures outcome.Rejected? ==> tasks == old(tasks)
    {
      hide RowsOk, Moves, IsListing;
      StepOk(View(), PostOrder(user, p, ids, now));
      var ok := ValidateReorderRequest(user, p, ids);
      if !ok {
        return Rejected(InvalidInput);
      }
      if !Lockable(View(), user, p) {
        return Rejected(NotFound);
      }
      if projects[p].status != Active {
        return Rejected(Conflict);
      }
      var requested := ids.value;
      var current := CurrentIds(tasks, p, user);
      if |current| != |requested| {
        return Rejected(Conflict);
      }
      for i := 0 to |requested|
        invariant forall k | 0 <= k < i :: requested[k] in current
        modifies {}
      {
        if requested[i] !in current {
          return Rejected(Conflict);
        }
      }
      var saved := tasks;
      for index := 0 to |requested|
        invariant tasks == Renumbered(saved, requested, index, now)
        invariant index <= MAX_INT32 + 1
      {
        if index > MAX_INT32 {
          tasks := saved;
          return Rejected(Internal);
        }
        tasks := tasks[requested[index] := tasks[requested[index]].(sortOrder := index, updatedAt := now)];
      }
      ReorderAccepted(old(View()), user, p, requested, now);
      return Accepted;
    }
  }
}
