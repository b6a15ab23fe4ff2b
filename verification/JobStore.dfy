/** The job protocol as the source runs it: the rows are fields that the service and the worker update in place,
    and the worker's batch loops run over the rows their list query returned. */
module JobStore {
  import opened Base
  import opened Oldest
  import opened Sequences
  import opened ParseJobs
  import opened JobSafety
  import Text

  /** The jobs that a sweep puts back, and so publishes again. */
  function ResetIds(todo: seq<Candidate>, maxRecoveries: int): seq<nat> {
    if todo == [] then []
    else
      var last := todo[|todo| - 1];
      ResetIds(todo[..|todo| - 1], maxRecoveries) + (if last.seen >= maxRecoveries then [] else [last.job])
  }

  function StaleIds(db: Db, cutoff: int): seq<nat> {
    Select(StaleJobs(db, cutoff), BATCH)
  }

  lemma ListedStale(db: Db, cutoff: int)
    ensures var ids := StaleIds(db, cutoff); var todo := ListStale(db, cutoff);
            && |todo| == |ids| && NoRepeats(ids)
            && (forall i | 0 <= i < |ids| ::
                  ids[i] in db.jobs && IsStale(db.jobs[ids[i]], cutoff) &&
                      todo[i] == Candidate(ids[i], db.jobs[ids[i]].retryCount))
  {
    hide Select;
    var stamps := StaleJobs(db, cutoff);
    var ids := Select(stamps, BATCH);
    SelectTakesOldest(stamps, BATCH);
    forall i | 0 <= i < |ids| ensures ids[i] in stamps {
      assert ids[i] in ids;
    }
  }

  // ---------- the batches, in the columns of the rows ----------

  predicate StartedBefore(jobs: map<nat, Job>, x: nat, y: nat)
    requires x in jobs && y in jobs && jobs[x].startedAt.Some? && jobs[y].startedAt.Some?
  {
    jobs[x].startedAt.value < jobs[y].startedAt.value || (jobs[x].startedAt.value == jobs[y].startedAt.value && x < y)
  }

  predicate Overdue(jobs: map<nat, Job>, j: nat, cutoff: int) {
    j in jobs && jobs[j].status == Processing && jobs[j].startedAt.Some? && jobs[j].startedAt.value < cutoff
  }

  /** Processing jobs whose lease started before the cutoff, the longest running first, and a full hundred of them if any
      is left out. */
  predicate OldestOverdue(jobs: map<nat, Job>, cutoff: int, ids: seq<nat>) {
    && (forall i | 0 <= i < |ids| :: Overdue(jobs, ids[i], cutoff))
    && (forall i, k | 0 <= i < k < |ids| :: StartedBefore(jobs, ids[i], ids[k]))
    && (forall j | j in jobs && Overdue(jobs, j, cutoff) && j !in ids ::
          |ids| == 100 && forall i | 0 <= i < |ids| :: StartedBefore(jobs, ids[i], j))
  }

  lemma StaleBatch(db: Db, cutoff: int)
    ensures OldestOverdue(db.jobs, cutoff, StaleIds(db, cutoff)) && |StaleIds(db, cutoff)| <= 100
  {
    hide Select;
    var stamps := StaleJobs(db, cutoff);
    var ids := Select(stamps, BATCH);
    SelectTakesOldest(stamps, BATCH);
    forall i | 0 <= i < |ids| ensures ids[i] in stamps && Overdue(db.jobs, ids[i], cutoff) {
      assert ids[i] in ids;
    }
    forall i, k | 0 <= i < k < |ids| ensures StartedBefore(db.jobs, ids[i], ids[k]) {
      assert Before(stamps, ids[i], ids[k]);
    }
    forall j | Overdue(db.jobs, j, cutoff) && j !in ids
      ensures |ids| == 100 && forall i | 0 <= i < |ids| :: StartedBefore(db.jobs, ids[i], j)
    {
      assert j in stamps;
      forall i | 0 <= i < |ids| ensures StartedBefore(db.jobs, ids[i], j) {
        assert ids[i] in ids && Before(stamps, ids[i], j);
      }
    }
  }

  predicate Waiting(jobs: map<nat, Job>, j: nat, cutoff: int) {
    j in jobs && jobs[j].status == Pending && jobs[j].updatedAt < cutoff
  }

  predicate TouchedBefore(jobs: map<nat, Job>, x: nat, y: nat)
    requires x in jobs && y in jobs
  {
    jobs[x].updatedAt < jobs[y].updatedAt || (jobs[x].updatedAt == jobs[y].updatedAt && x < y)
  }

  /** Pending jobs untouched since the cutoff, the longest untouched first, and a full hundred if any is left out. */
  predicate OldestWaiting(jobs: map<nat, Job>, cutoff: int, ids: seq<nat>) {
    && (forall i | 0 <= i < |ids| :: Waiting(jobs, ids[i], cutoff))
    && (forall i, k | 0 <= i < k < |ids| :: TouchedBefore(jobs, ids[i], ids[k]))
    && (forall j | j in jobs && Waiting(jobs, j, cutoff) && j !in ids ::
          |ids| == 100 && forall i | 0 <= i < |ids| :: TouchedBefore(jobs, ids[i], j))
  }

  lemma PendingBatch(db: Db, cutoff: int)
    ensures OldestWaiting(db.jobs, cutoff, ListPending(db, cutoff)) && |ListPending(db, cutoff)| <= 100
  {
    hide Select;
    var stamps := StalePending(db, cutoff);
    var ids := Select(stamps, BATCH);
    SelectTakesOldest(stamps, BATCH);
    forall i | 0 <= i < |ids| ensures ids[i] in stamps && Waiting(db.jobs, ids[i], cutoff) {
      assert ids[i] in ids;
    }
    forall i, k | 0 <= i < k < |ids| ensures TouchedBefore(db.jobs, ids[i], ids[k]) {
      assert Before(stamps, ids[i], ids[k]);
    }
    forall j | Waiting(db.jobs, j, cutoff) && j !in ids
      ensures |ids| == 100 && forall i | 0 <= i < |ids| :: TouchedBefore(db.jobs, ids[i], j)
    {
      assert j in stamps;
      forall i | 0 <= i < |ids| ensures TouchedBefore(db.jobs, ids[i], j) {
        assert ids[i] in ids && Before(stamps, ids[i], j);
      }
    }
  }

  lemma ListedPending(db: Db, cutoff: int)
    ensures var ids := ListPending(db, cutoff);
            && (forall i | 0 <= i < |ids| ::
                  ids[i] in db.jobs && db.jobs[ids[i]].status == Pending && db.jobs[ids[i]].updatedAt < cutoff)
            && NoRepeats(ids)
  {
    var stamps := StalePending(db, cutoff);
    var ids := Select(stamps, BATCH);
    SelectTakesOldest(stamps, BATCH);
    forall i | 0 <= i < |ids| ensures ids[i] in stamps {
      assert ids[i] in ids;
    }
  }

  /** The first n listed jobs have been recovered, each at its own time, and no other job has changed. */
  predicate Treated(before: map<nat, Job>, jobs: map<nat, Job>, todo: seq<Candidate>, n: nat, maxRecoveries: int,
                    clock: nat -> int)
    requires n <= |todo|
  {
    && jobs.Keys == before.Keys
    && (forall i | 0 <= i < n :: todo[i].job in jobs &&
          jobs[todo[i].job] == Recovered(before[todo[i].job], todo[i].seen, maxRecoveries, clock(i)))
    && (forall k | k in jobs && (forall i | 0 <= i < n :: todo[i].job != k) :: jobs[k] == before[k])
  }

  predicate Distinct(todo: seq<Candidate>) {
    forall i, k | 0 <= i < k < |todo| :: todo[i].job != todo[k].job
  }

  lemma NothingTreated(jobs: map<nat, Job>, todo: seq<Candidate>, maxRecoveries: int, clock: nat -> int)
    ensures Treated(jobs, jobs, todo, 0, maxRecoveries, clock)
  {}

  lemma StillStale(before: map<nat, Job>, jobs: map<nat, Job>, todo: seq<Candidate>, n: nat, maxRecoveries: int,
                   clock: nat -> int)
    requires n < |todo| && Distinct(todo) && Treated(before, jobs, todo, n, maxRecoveries, clock) && todo[n].job in before
    ensures todo[n].job in jobs && jobs[todo[n].job] == before[todo[n].job]
  {}

  lemma TreatedNext(before: map<nat, Job>, mid: map<nat, Job>, jobs: map<nat, Job>, todo: seq<Candidate>, n: nat,
                    maxRecoveries: int, clock: nat -> int)
    requires n < |todo| && Distinct(todo) && Treated(before, mid, todo, n, maxRecoveries, clock)
    requires jobs.Keys == mid.Keys && forall k | k in jobs && k != todo[n].job :: jobs[k] == mid[k]
    requires todo[n].job in jobs && jobs[todo[n].job] == Recovered(before[todo[n].job], todo[n].seen, maxRecoveries, clock(n))
    ensures Treated(before, jobs, todo, n + 1, maxRecoveries, clock)
  {
    hide Recovered;
  }

  /** The whole batch, by the ids of its jobs. */
  predicate BatchRecovered(db: Db, jobs: map<nat, Job>, cutoff: int, maxRecoveries: int, clock: nat -> int) {
    var ids := StaleIds(db, cutoff);
    && (forall i | 0 <= i < |ids| ::
          && ids[i] in jobs && ids[i] in db.jobs
          && jobs[ids[i]] == Recovered(db.jobs[ids[i]], db.jobs[ids[i]].retryCount, maxRecoveries, clock(i))
          && jobs[ids[i]].status == (if db.jobs[ids[i]].retryCount >= maxRecoveries then Failed else Pending))
    && (forall k | k in db.jobs && k !in ids :: k in jobs && jobs[k] == db.jobs[k])
  }

  lemma AllTreated(db: Db, jobs: map<nat, Job>, cutoff: int, maxRecoveries: int, clock: nat -> int)
    requires var todo := ListStale(db, cutoff); Treated(db.jobs, jobs, todo, |todo|, maxRecoveries, clock)
    ensures BatchRecovered(db, jobs, cutoff, maxRecoveries, clock)
  {
    ListedStale(db, cutoff);
    hide ListStale, StaleIds;
    var todo, ids := ListStale(db, cutoff), StaleIds(db, cutoff);
    forall k | k in db.jobs && k !in ids ensures k in jobs && jobs[k] == db.jobs[k] {
      forall i | 0 <= i < |todo| ensures todo[i].job != k {
        assert todo[i].job == ids[i];
      }
    }
  }

  // ---------- what a user may touch ----------

  predicate OwnDocument(docs: map<nat, Document>, user: int, doc: nat) {
    doc in docs && docs[doc].user == user && !docs[doc].deleted
  }

  predicate Busy(jobs: map<nat, Job>, doc: nat) {
    exists j | j in jobs :: jobs[j].doc == doc && (jobs[j].status == Pending || jobs[j].status == Processing)
  }

  lemma BusyJobs(db: Db, user: int, doc: nat)
    requires RowsOk(db)
    ensures HasActiveJob(db, doc) <==> Busy(db.jobs, doc)
    ensures OwnDocument(db.docs, user, doc) ==>
              (Busy(db.jobs, doc) <==>
                 exists j | j in db.jobs :: db.jobs[j].doc == doc && db.jobs[j].user == user && Active(db.jobs[j].status))
    ensures db.nextJob !in db.jobs
  {
    hide OneActiveJob, ResultsMatchJobs, SuccessHasResult, DocumentsHaveText;
  }

  class Database {
    var docs: map<nat, Document>
    var jobs: map<nat, Job>
    var results: map<nat, ResultRow>
    var nextDoc: nat
    var nextJob: nat
    var nextResult: nat
    var published: seq<nat>

    function View(): Db
      reads this
    {
      Db(docs, jobs, results, nextDoc, nextJob, nextResult)
    }

    predicate Valid()
      reads this
    {
      RowsOk(View())
    }

    constructor ()
      ensures Valid() && View() == EMPTY_DB && published == []
    {
      docs, jobs, results, published := map[], map[], map[], [];
      nextDoc, nextJob, nextResult := 1, 1, 1;
    }

    method CreateJob(user: int, doc: nat, now: int) returns (r: Result<nat>)
      requires Valid()
      modifies this
      ensures r == Err(NotFound) <==> !OwnDocument(old(docs), user, doc)
      ensures r.Ok? <==> OwnDocument(old(docs), user, doc) && old(docs)[doc].ready && !Busy(old(jobs), doc)
      ensures r.Err? ==> View() == old(View())
      ensures r.Ok? ==>
                && r.value !in old(jobs) && docs == old(docs) && results == old(results)
                && jobs == old(jobs)[r.value := Job(user, doc, Pending, 0, None, None, None, now)]
      ensures Valid() && (View(), r) == ParseJobs.CreateJob(old(View()), user, doc, now)
      ensures published == old(published) + (if r.Ok? then [r.value] else [])
    {
      hide RowsOk, HasActiveJob;
      CreateJobKeepsRows(View(), user, doc, now);
      BusyJobs(View(), user, doc);
      hide Busy;
      if !Visible(View(), user, doc) {
        return Err(NotFound);
      }
      if !docs[doc].ready {
        return Err(InvalidState);
      }
      if HasActiveJob(View(), doc) {
        return Err(Conflict);
      }
      var id := nextJob;
      jobs := jobs[id := Job(user, doc, Pending, 0, None, None, None, now)];
      nextJob := nextJob + 1;
      published := published + [id];
      return Ok(id);
    }

    method Retry(user: int, j: nat, now: int) returns (r: Result<nat>)
      requires Valid()
      modifies this
      ensures r == Err(NotFound) <==> !(j in old(jobs) && old(jobs)[j].user == user)
      ensures r.Ok? <==>
                && j in old(jobs) && old(jobs)[j].user == user && old(jobs)[j].status == Failed
                && OwnDocument(old(docs), user, old(jobs)[j].doc) && !Busy(old(jobs), old(jobs)[j].doc)
                && old(jobs)[j].retryCount != MAX_INT32
      ensures r.Err? ==> View() == old(View())
      ensures r.Ok? ==>
                && r.value == j && docs == old(docs) && results == old(results)
                && jobs == old(jobs)[j := Job(user, old(jobs)[j].doc, Pending, old(jobs)[j].retryCount + 1,
                                              None, None, None, now)]
      ensures Valid() && (View(), r) == ParseJobs.Retry(old(View()), user, j, now)
      ensures published == old(published) + (if r.Ok? then [r.value] else [])
    {
      hide RowsOk, HasActiveJob;
      if j !in jobs || jobs[j].user != user {
        return Err(NotFound);
      }
      BusyJobs(View(), user, jobs[j].doc);
      hide Busy;
      var initial := jobs[j];
      if !Visible(View(), user, initial.doc) {
        return Err(InvalidState);
      }
      var locked := jobs[j];
      if locked.status != Failed {
        return Err(InvalidState);
      }
      if HasActiveJob(View(), locked.doc) {
        return Err(Conflict);
      }
      if locked.retryCount == MAX_INT32 {
        return Err(Internal);
      }
      var reset := locked.(status := Pending, retryCount := locked.retryCount + 1, error := None,
                           startedAt := None, finishedAt := None, updatedAt := now);
      JobUpdateKeepsRows(View(), j, reset);
      jobs := jobs[j := reset];
      published := published + [j];
      return Ok(j);
    }

    method DeleteDocument(user: int, doc: nat) returns (r: Result<()>)
      requires Valid()
      modifies this`docs
      ensures r == Err(NotFound) <==> !OwnDocument(old(docs), user, doc)
      ensures r.Ok? <==> OwnDocument(old(docs), user, doc) && !Busy(jobs, doc)
      ensures r.Err? ==> docs == old(docs)
      ensures r.Ok? ==>
                docs == old(docs)[doc := Document(user, old(docs)[doc].ready, old(docs)[doc].textInput,
                                                  old(docs)[doc].rawText, true)]
      ensures Valid() && (View(), r) == ParseJobs.DeleteDocument(old(View()), user, doc)
    {
      hide RowsOk;
      DeleteDocumentKeepsRows(View(), user, doc);
      BusyJobs(View(), user, doc);
      hide Busy;
      if !Visible(View(), user, doc) {
        return Err(NotFound);
      }
      if exists j | j in jobs :: jobs[j].doc == doc && jobs[j].user == user && Active(jobs[j].status) {
        return Err(Conflict);
      }
      docs := docs[doc := docs[doc].(deleted := true)];
      return Ok(());
    }

    /** claimJob: the guarded update, then the reload. */
    method ClaimJob(j: nat, stamp: int) returns (job: Option<Job>, claimed: bool)
      requires Valid()
      modifies this`jobs
      ensures claimed <==> j in old(jobs) && old(jobs)[j].status == Pending
      ensures claimed ==>
                jobs == old(jobs)[j := Job(old(jobs)[j].user, old(jobs)[j].doc, Processing, old(jobs)[j].retryCount, None,
                                           Some(stamp), None, stamp)]
      ensures !claimed ==> jobs == old(jobs)
      ensures Valid() && View() == ClaimUpdate(old(View()), j, stamp).0
      ensures claimed <==> ClaimUpdate(old(View()), j, stamp).1 == 1
      ensures job == if j in jobs then Some(jobs[j]) else None
    {
      hide RowsOk;
      claimed := false;
      if j in jobs && jobs[j].status == Pending {
        var taken := jobs[j].(status := Processing, startedAt := Some(stamp), finishedAt := None, error := None,
            updatedAt := stamp);
        JobUpdateKeepsRows(View(), j, taken);
        jobs := jobs[j := taken];
        claimed := true;
      }
      job := if j in jobs then Some(jobs[j]) else None;
    }

    /** completeJob: the insert comes first and is rolled back when the guarded update finds no processing job. */
    method CompleteJob(j: nat, job: Job, parsed: string, now: int) returns (ok: bool)
      requires Valid() && j in jobs && jobs[j].user == job.user && jobs[j].doc == job.doc
      modifies this
      ensures ok <==> old(jobs)[j].status == Processing && forall r | r in old(results) :: old(results)[r].job != j
      ensures !ok ==> View() == old(View())
      ensures ok ==>
                && docs == old(docs) && results == old(results)[old(nextResult) := ResultRow(job.user, job.doc, j, parsed)]
                && jobs == old(jobs)[j := Job(job.user, job.doc, Success, old(jobs)[j].retryCount, None,
                                              old(jobs)[j].startedAt, Some(now), now)]
      ensures Valid() && (View(), ok) == ParseJobs.CompleteJob(old(View()), j, job.user, job.doc, parsed, now)
      ensures published == old(published)
    {
      hide RowsOk;
      CompleteJobKeepsRows(View(), j, job.user, job.doc, parsed, now);
      if exists r | r in results :: results[r].job == j {
        return false;
      }
      var savedResults, savedNext := results, nextResult;
      results := results[nextResult := ResultRow(job.user, job.doc, j, parsed)];
      nextResult := nextResult + 1;
      if jobs[j].status == Processing {
        jobs := jobs[j := jobs[j].(status := Success, error := None, finishedAt := Some(now), updatedAt := now)];
        return true;
      }
      results, nextResult := savedResults, savedNext;
      return false;
    }

    method FailJob(j: nat, message: string, now: int) returns (ok: bool)
      requires Valid()
      modifies this`jobs
      ensures ok <==> j in old(jobs) && old(jobs)[j].status == Processing
      ensures !ok ==> jobs == old(jobs)
      ensures ok ==>
                jobs == old(jobs)[j := Job(old(jobs)[j].user, old(jobs)[j].doc, Failed, old(jobs)[j].retryCount,
                                           Some(message), old(jobs)[j].startedAt, Some(now), now)]
      ensures Valid() && View() == ParseJobs.FailJob(old(View()), j, message, now).0
      ensures ok <==> ParseJobs.FailJob(old(View()), j, message, now).1 == 1
    {
      hide RowsOk;
      if j in jobs && jobs[j].status == Processing {
        var closed := jobs[j].(status := Failed, error := Some(message), finishedAt := Some(now), updatedAt := now);
        JobUpdateKeepsRows(View(), j, closed);
        jobs := jobs[j := closed];
        return true;
      }
      return false;
    }

    /** processJob with nobody else running: a pending job is closed, as a success exactly when its document could
        be read and the parser answers; any other job is left alone and acknowledged exactly when it is already closed. */
    method ProcessJob(j: nat, stamp: int, readFails: bool, outcome: ParseOutcome, now: int) returns (terminal: bool)
      requires Valid()
      modifies this
      ensures Valid() && published == old(published) && docs == old(docs)
      ensures forall k | k in old(jobs) && k != j :: k in jobs && jobs[k] == old(jobs[k])
      ensures j in old(jobs) && old(jobs[j]).status == Pending ==>
                && terminal && j in jobs
                && jobs[j].status == (if !readFails && outcome.Answer? then Success else Failed)
                && jobs[j].retryCount == old(jobs[j]).retryCount
                && jobs[j].error == (if readFails then Some("source document is unavailable")
                                     else if outcome.Refused? then Some(outcome.message) else None)
                && results == if readFails || outcome.Refused? then old(results)
                              else old(results)[old(nextResult) := ResultRow(old(jobs[j]).user, old(jobs[j]).doc, j,
                                                                             outcome.parsed)]
      ensures !(j in old(jobs) && old(jobs[j]).status == Pending) ==>
                View() == old(View()) && (terminal <==>
                    j in jobs && (jobs[j].status == Success || jobs[j].status == Failed))
    {
      hide RowsOk;
      ghost var before := View();
      var job, claimed := ClaimJob(j, stamp);
      if !claimed {
        return job.Some? && (job.value.status == Success || job.value.status == Failed);
      }
      if readFails || !Visible(View(), job.value.user, job.value.doc) {
        terminal := FailJob(j, "source document is unavailable", now);
      } else {
        var document := docs[job.value.doc];
        var content := if document.textInput.Some? then document.textInput else document.rawText;
        if content.None? || Text.Trim(content.value) == "" {
          terminal := FailJob(j, "source document text is empty", now);
        } else {
          match outcome {
            case Refused(message) => terminal := FailJob(j, message, now);
            case Answer(parsed) => terminal := CompleteJob(j, job.value, parsed, now);
          }
        }
      }
      PendingHasDocument(before, j);
    }

    /** One iteration of recoverStaleJobs; the update is guarded, so a job that moved on is left alone. */
    method RecoverOne(j: nat, seen: int, cutoff: int, maxRecoveries: int, now: int)
      requires Valid()
      modifies this`jobs, this`published
      ensures Valid() && View() == RecoverJob(old(View()), j, seen, cutoff, maxRecoveries, now).0
      ensures jobs.Keys == old(jobs).Keys && forall k | k in jobs && k != j :: jobs[k] == old(jobs)[k]
      ensures !Overdue(old(jobs), j, cutoff) ==> jobs == old(jobs) && published == old(published)
      ensures Overdue(old(jobs), j, cutoff) ==>
                && jobs[j] == Recovered(old(jobs)[j], seen, maxRecoveries, now)
                && jobs[j] == (if seen >= maxRecoveries then
                                 Job(old(jobs)[j].user, old(jobs)[j].doc, Failed, old(jobs)[j].retryCount,
                                     Some("parse worker recovery limit exceeded"), old(jobs)[j].startedAt, Some(now), now)
                               else
                                 Job(old(jobs)[j].user, old(jobs)[j].doc, Pending, seen + 1, None, None, None, now))
                && published == old(published) + (if seen < maxRecoveries then [j] else [])
      ensures published == old(published) +
                (if RecoverJob(old(View()), j, seen, cutoff, maxRecoveries, now).1 == 1 &&
                    seen < maxRecoveries then [j] else [])
    {
      hide RowsOk;
      if !(j in jobs && IsStale(jobs[j], cutoff)) {
        return;
      }
      var job := jobs[j];
      if seen >= maxRecoveries {
        job := job.(status := Failed, error := Some("parse worker recovery limit exceeded"), finishedAt := Some(now),
            updatedAt := now);
      } else {
        job := job.(status := Pending, retryCount := seen + 1, error := None, startedAt := None, finishedAt := None,
            updatedAt := now);
        published := published + [j];
      }
      JobUpdateKeepsRows(View(), j, job);
      jobs := jobs[j := job];
    }

    /** recoverStaleJobs with nobody else running: of the oldest stale jobs, at most BATCH, those that were recovered
        less than maxRecoveries times go back to pending with one more retry, and the others fail. */
    method RecoverStaleJobs(cutoff: int, maxRecoveries: int, clock: nat -> int)
      requires Valid()
      modifies this
      ensures Valid()
      ensures published == old(published) + ResetIds(ListStale(old(View()), cutoff), maxRecoveries)
      ensures OldestOverdue(old(jobs), cutoff, StaleIds(old(View()), cutoff)) && |StaleIds(old(View()), cutoff)| <= 100
      ensures BatchRecovered(old(View()), jobs, cutoff, maxRecoveries, clock)
    {
      hide RowsOk, ListStale, StaleIds, Recovered, RecoverJob, Treated;
      var todo := ListStale(View(), cutoff);
      ListedStale(View(), cutoff);
      StaleBatch(View(), cutoff);
      hide OldestOverdue;
      ghost var before := jobs;
      NothingTreated(before, todo, maxRecoveries, clock);
      for n := 0 to |todo|
        invariant Valid()
        invariant published == old(published) + ResetIds(todo[..n], maxRecoveries)
        invariant Treated(before, jobs, todo, n, maxRecoveries, clock)
      {
        var Candidate(j, seen) := todo[n];
        assert todo[..n + 1][..n] == todo[..n];
        StillStale(before, jobs, todo, n, maxRecoveries, clock);
        ghost var mid := jobs;
        RecoverOne(j, seen, cutoff, maxRecoveries, clock(n));
        TreatedNext(before, mid, jobs, todo, n, maxRecoveries, clock);
      }
      assert todo[..|todo|] == todo;
      AllTreated(old(View()), jobs, cutoff, maxRecoveries, clock);
    }

    /** One iteration of reconcilePendingJobs; the update is guarded, so a job that moved on is left alone. */
    method Republish(j: nat, cutoff: int, now: int)
      requires Valid()
      modifies this`jobs, this`published
      ensures jobs == if Waiting(old(jobs), j, cutoff) then old(jobs)[j := old(jobs)[j].(updatedAt := now)] else old(jobs)
      ensures Valid() && View() == TouchPending(old(View()), j, cutoff, now) && published == old(published) + [j]
    {
      hide RowsOk;
      published := published + [j];
      if !(j in jobs && jobs[j].status == Pending && jobs[j].updatedAt < cutoff) {
        return;
      }
      var touched := jobs[j].(updatedAt := now);
      JobUpdateKeepsRows(View(), j, touched);
      jobs := jobs[j := touched];
    }

    /** reconcilePendingJobs with nobody else running: the oldest stale pending jobs, at most BATCH, are published in
        order and sent to the back of the queue, up to the first one whose publication fails. */
    method ReconcilePendingJobs(cutoff: int, clock: nat -> int, publishFails: nat -> bool) returns (ok: bool, sent: nat)
      requires Valid()
      modifies this
      ensures Valid() && jobs.Keys == old(jobs).Keys
      ensures OldestWaiting(old(jobs), cutoff, ListPending(old(View()), cutoff)) && |ListPending(old(View()), cutoff)| <= 100
      ensures var ids := ListPending(old(View()), cutoff);
              && sent <= |ids| && (ok <==> sent == |ids|) && (!ok ==> publishFails(sent))
              && (forall i | 0 <= i < sent :: !publishFails(i))
              && published == old(published) + ids[..sent]
              && (forall i | 0 <= i < sent :: ids[i] in jobs && jobs[ids[i]] == old(jobs)[ids[i]].(updatedAt := clock(i)))
              && (forall k | k in jobs && k !in ids[..sent] :: jobs[k] == old(jobs)[k])
    {
      hide RowsOk, ListPending;
      var ids := ListPending(View(), cutoff);
      ListedPending(View(), cutoff);
      PendingBatch(View(), cutoff);
      hide OldestWaiting;
      sent := 0;
      while sent < |ids|
        invariant sent <= |ids|
        invariant Valid() && docs == old(docs) && results == old(results)
        invariant jobs.Keys == old(jobs).Keys
        invariant published == old(published) + ids[..sent]
        invariant forall i | 0 <= i < sent :: !publishFails(i)
        invariant forall i | 0 <= i < sent :: jobs[ids[i]] == old(jobs)[ids[i]].(updatedAt := clock(i))
        invariant forall k | k in jobs && k !in ids[..sent] :: jobs[k] == old(jobs)[k]
      {
        var j := ids[sent];
        if publishFails(sent) {
          return false, sent;
        }
        assert j !in ids[..sent];
        assert ids[..sent + 1] == ids[..sent] + [j];
        Republish(j, cutoff, clock(sent));
        sent := sent + 1;
      }
      return true, sent;
    }
  }

  lemma PendingHasDocument(db: Db, j: nat)
    requires RowsOk(db)
    ensures j in db.jobs && db.jobs[j].status == Pending ==>
              && Visible(db, db.jobs[j].user, db.jobs[j].doc)
              && Content(db.docs[db.jobs[j].doc]).Some? && Text.Trim(Content(db.docs[db.jobs[j].doc]).value) != ""
              && !HasResult(db.results, j)
  {
    hide OneActiveJob, Text.Trim;
  }
}
