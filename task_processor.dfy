/**
 * `TaskProcessorService`: the queue worker. `process` routes a job by name;
 * a single status update validates its data and calls
 * `TasksService.updateStatus`; a batch validates its data and calls
 * `TasksService.batchUpdateStatus` once per slice of at most 500 ids,
 * concatenating the results. An error from the service is rethrown so the
 * queue retries the job: it is the `Err` of the result.
 */
module TaskProcessor {
  import opened Wrappers
  import opened Text
  import opened TaskDomain
  import opened TaskMapper
  import opened TaskTable
  import opened TaskBatch
  import opened TasksService

  /** `isValidStatus`: the value is one of the status values. */
  function IsValidStatus(v: string): (b: bool)
    ensures b <==> exists s: TaskStatus :: StatusName(s) == v
  {
    if v in StatusValues then
      assert StatusName(ParseStatus(v).value) == v;
      true
    else
      assert forall s: TaskStatus :: StatusName(s) in StatusValues;
      false
  }

  const StatusBatchJob: string := "task-status-batch"
  const OverdueJob: string := "overdue-tasks-notification"

  const MissingData: string := "Missing required data: taskId, status"
  const EmptyBatch: string := "taskIds must be a non-empty array"
  const OverdueStub: string := "Overdue tasks processed (stub)"

  /** `Invalid status value: ${status}`; an absent status prints as `undefined`. */
  function InvalidStatus(status: Option<string>): string {
    "Invalid status value: " + (if status.Some? then status.value else "undefined")
  }

  function UnknownJob(name: string): string {
    "Unknown job type: " + name
  }

  /** What a job returns when it does not throw. */
  datatype Outcome =
    | Failed(error: string)
    | StatusUpdated(taskId: string, newStatus: TaskStatus)
    | BatchUpdated(updated: nat, results: BatchResult)
    | Processed(message: string)

  /** `typeof status === 'string' ? status.toUpperCase() : status`, then `isValidStatus`. */
  function NormalizedStatus(status: Option<string>): (r: Option<TaskStatus>)
    ensures r.Some? <==> status.Some? && IsValidStatus(Upper(status.value))
    ensures r.Some? ==> StatusName(r.value) == Upper(status.value)
  {
    if status.Some? then ParseStatus(Upper(status.value)) else None
  }

  const Chunk: nat := 500

  function Flatten(c: seq<seq<string>>): seq<string> {
    if c == [] then [] else c[0] + Flatten(c[1..])
  }

  /** `taskIds.slice(i, i + 500)` for i = 0, 500, 1000, …: consecutive slices covering the ids in order. */
  function Chunks(ids: seq<string>): (c: seq<seq<string>>)
    ensures forall k :: 0 <= k < |c| ==> 1 <= |c[k]| <= Chunk
    ensures Flatten(c) == ids
    decreases |ids|
  {
    if ids == [] then []
    else
      var n := if |ids| < Chunk then |ids| else Chunk;
      var c := [ids[..n]] + Chunks(ids[n..]);
      assert c[1..] == Chunks(ids[n..]);
      assert ids == ids[..n] + ids[n..];
      c
  }

  /** The ids still to be sliced once the loop index has reached `i`. */
  function Rest(ids: seq<string>, i: nat): seq<string> {
    if i < |ids| then ids[i..] else []
  }

  /** `results.success.push(...r.success); results.failed.push(...r.failed)`. */
  function Appended(acc: BatchResult, r: BatchResult): BatchResult {
    BatchResult(acc.success + r.success, acc.failed + r.failed)
  }

  /** One `batchUpdateStatus` per slice, in order, each seeing the table the previous one left. */
  function RunChunks(rows: seq<TaskEntity>, trashed: set<string>, chunks: seq<seq<string>>, s: TaskStatus, now: int)
    : (r: (seq<TaskEntity>, BatchResult))
    ensures |r.0| == |rows|
    decreases |chunks|
  {
    if chunks == [] then (rows, NoResult)
    else
      var step := BatchStatusStep(rows, trashed, chunks[0], s, now);
      var rest := RunChunks(step.0, trashed, chunks[1..], s, now);
      (rest.0, Appended(step.1, rest.1))
  }

  /** The input ids with no visible row, in input order, duplicates kept. */
  function Absent(rows: seq<TaskEntity>, trashed: set<string>, ids: seq<string>): (a: seq<string>)
    ensures |a| <= |ids|
  {
    if ids == [] then []
    else
      (if Present(rows, trashed, ids[0]) then [] else [ids[0]]) + Absent(rows, trashed, ids[1..])
  }

  /** An id is reported absent exactly when it was asked for and has no visible row. */
  lemma {:induction false} AbsentMembers(rows: seq<TaskEntity>, trashed: set<string>, ids: seq<string>, x: string)
    ensures x in Absent(rows, trashed, ids) <==> x in ids && !Present(rows, trashed, x)
  {
    if ids != [] {
      AbsentMembers(rows, trashed, ids[1..], x);
      assert ids == [ids[0]] + ids[1..];
    }
  }

  lemma {:induction false} AbsentConcat(rows: seq<TaskEntity>, trashed: set<string>, a: seq<string>, b: seq<string>)
    ensures Absent(rows, trashed, a + b) == Absent(rows, trashed, a) + Absent(rows, trashed, b)
  {
    if a == [] {
      assert a + b == b;
    } else {
      var head: seq<string> := if Present(rows, trashed, a[0]) then [] else [a[0]];
      calc {
        Absent(rows, trashed, a + b);
        { assert (a + b)[0] == a[0] && (a + b)[1..] == a[1..] + b; }
        head + Absent(rows, trashed, a[1..] + b);
        { AbsentConcat(rows, trashed, a[1..], b); }
        head + (Absent(rows, trashed, a[1..]) + Absent(rows, trashed, b));
        (head + Absent(rows, trashed, a[1..])) + Absent(rows, trashed, b);
        Absent(rows, trashed, a) + Absent(rows, trashed, b);
      }
    }
  }

  /** What one slice reports as missing is exactly its ids with no visible row. */
  lemma {:induction false} MissingIsAbsent(rows: seq<TaskEntity>, trashed: set<string>, ids: seq<string>)
    ensures Missing(ids, Existing(rows, trashed, ids)) == Absent(rows, trashed, ids)
  {
    if ids != [] {
      MissingIsAbsent(rows, trashed, ids[1..]);
      var e := Existing(rows, trashed, ids);
      var e' := Existing(rows, trashed, ids[1..]);
      assert forall x :: x in ids[1..] ==> (x in e <==> x in e');
      assert Missing(ids[1..], e) == Missing(ids[1..], e') by {
        MissingAgree(ids[1..], e, e');
      }
    }
  }

  /** `Missing` only asks about the ids it is given. */
  lemma {:induction false} MissingAgree(ids: seq<string>, e: seq<string>, e': seq<string>)
    requires forall x :: x in ids ==> (x in e <==> x in e')
    ensures Missing(ids, e) == Missing(ids, e')
  {
    if ids != [] {
      MissingAgree(ids[1..], e, e');
    }
  }

  /** A batch status step keeps every row's id, so it keeps the primary key and which ids are stored. */
  lemma StepKeepsIds(rows: seq<TaskEntity>, trashed: set<string>, ids: seq<string>, s: TaskStatus, now: int)
    requires Unique(rows)
    ensures var r := BatchStatusStep(rows, trashed, ids, s, now).0;
              Unique(r) && forall x :: Stored(r, x) <==> Stored(rows, x)
  {
    if |ids| > 0 {
      var existing := Existing(rows, trashed, ids);
      if |existing| > 0 {
        RestatusKeepsIds(rows, IdSet(existing), s, now);
      }
    }
  }

  /**
   * Slicing does not change what fails: the failures of a chunked batch are
   * one "Task not found" per input id with no visible row, in input order.
   */
  lemma {:induction false} ChunkedFailures(rows: seq<TaskEntity>, trashed: set<string>, chunks: seq<seq<string>>,
                                           s: TaskStatus, now: int)
    requires Unique(rows)
    ensures RunChunks(rows, trashed, chunks, s, now).1.failed == Failures(Absent(rows, trashed, Flatten(chunks)))
    decreases |chunks|
  {
    if chunks != [] {
      var step := BatchStatusStep(rows, trashed, chunks[0], s, now);
      StepKeepsIds(rows, trashed, chunks[0], s, now);
      ChunkedFailures(step.0, trashed, chunks[1..], s, now);
      AbsentAgree(step.0, rows, trashed, Flatten(chunks[1..]));
      MissingIsAbsent(rows, trashed, chunks[0]);
      if chunks[0] == [] {
        assert step.1.failed == [] == Failures(Absent(rows, trashed, chunks[0]));
      } else {
        assert step.1.failed == Failures(Absent(rows, trashed, chunks[0]));
      }
      AbsentConcat(rows, trashed, chunks[0], Flatten(chunks[1..]));
      FailuresConcat(Absent(rows, trashed, chunks[0]), Absent(rows, trashed, Flatten(chunks[1..])));
    }
  }

  /** `Absent` only depends on which ids are stored. */
  lemma {:induction false} AbsentAgree(rows: seq<TaskEntity>, rows': seq<TaskEntity>, trashed: set<string>, ids: seq<string>)
    requires forall x :: Stored(rows, x) <==> Stored(rows', x)
    ensures Absent(rows, trashed, ids) == Absent(rows', trashed, ids)
  {
    if ids != [] {
      AbsentAgree(rows, rows', trashed, ids[1..]);
    }
  }

  /**
   * Slicing does not change what succeeds: an id is reported as updated
   * exactly when it is an input id with a visible row.
   */
  lemma {:induction false} ChunkedSuccess(rows: seq<TaskEntity>, trashed: set<string>, chunks: seq<seq<string>>,
                                          s: TaskStatus, now: int)
    requires Unique(rows)
    ensures forall x :: x in RunChunks(rows, trashed, chunks, s, now).1.success <==>
      x in Flatten(chunks) && Present(rows, trashed, x)
    decreases |chunks|
  {
    if chunks != [] {
      var step := BatchStatusStep(rows, trashed, chunks[0], s, now);
      StepKeepsIds(rows, trashed, chunks[0], s, now);
      ChunkedSuccess(step.0, trashed, chunks[1..], s, now);
      assert Flatten(chunks) == chunks[0] + Flatten(chunks[1..]);
      assert forall x :: x in step.1.success <==> x in chunks[0] && Present(rows, trashed, x);
    }
  }

  /**
   * `handleStatusUpdate`: what it returns and what the table holds afterwards.
   * The UPDATE issued by `updateStatus` reaches a soft-deleted row too, so the
   * second NotFound comes with the row already changed.
   */
  function StatusUpdateSpec(rows: seq<TaskEntity>, trashed: set<string>, data: JobData, now: int)
    : (r: (Result<Outcome, ServiceError>, seq<TaskEntity>))
    ensures data.taskId == "" || data.status.None? || data.status.value == "" ==> r == (Ok(Failed(MissingData)), rows)
    ensures data.taskId != "" && data.status.Some? && data.status.value != "" ==>
      var id := data.taskId;
      && (NormalizedStatus(data.status).None? ==> r == (Ok(Failed(InvalidStatus(data.status))), rows))
      && (NormalizedStatus(data.status).Some? ==>
            var s := NormalizedStatus(data.status).value;
            && (!Stored(rows, id) ==> r == (Err(NotFound(NotFoundMessage(id))), rows))
            && (Present(rows, trashed, id) ==> r == (Ok(StatusUpdated(id, s)), Restatus(rows, {id}, s, now)))
            && (Stored(rows, id) && id in trashed ==>
                  r == (Err(NotFound(NotFoundAfterUpdateMessage(id))), Restatus(rows, {id}, s, now))))
    ensures r.0.Ok? && r.0.value.Failed? ==> r.1 == rows
  {
    if data.taskId == "" || data.status.None? || data.status.value == "" then (Ok(Failed(MissingData)), rows)
    else
      match NormalizedStatus(data.status)
      case None => (Ok(Failed(InvalidStatus(data.status))), rows)
      case Some(s) =>
        StatusNameRoundTrip(s);
        var after := Restatus(rows, {data.taskId}, s, now);
        if !Stored(rows, data.taskId) then
          RestatusNothing(rows, {data.taskId}, s, now);
          (Err(NotFound(NotFoundMessage(data.taskId))), rows)
        else
          match StatusResult(rows, trashed, data.taskId, StatusName(s), now)
          case Err(e) => (Err(e), after)
          case Ok(t) => (Ok(StatusUpdated(t.id, t.status)), after)
  }

  /** `handleStatusBatch`: what it returns and what the table holds afterwards. */
  function StatusBatchSpec(rows: seq<TaskEntity>, trashed: set<string>, data: JobData, now: int)
    : (r: (Outcome, seq<TaskEntity>))
    ensures data.taskIds.None? || data.taskIds.value == [] ==> r == (Failed(EmptyBatch), rows)
    ensures data.taskIds.Some? && data.taskIds.value != [] && NormalizedStatus(data.status).None? ==>
      r == (Failed(InvalidStatus(data.status)), rows)
    ensures data.taskIds.Some? && data.taskIds.value != [] && NormalizedStatus(data.status).Some? ==> r.0.BatchUpdated?
    ensures r.0.BatchUpdated? ==> r.0.updated == |r.0.results.success|
    ensures r.0.BatchUpdated? ==>
      (r.1, r.0.results) == RunChunks(rows, trashed, Chunks(data.taskIds.value), NormalizedStatus(data.status).value, now)
  {
    if data.taskIds.None? || |data.taskIds.value| == 0 then (Failed(EmptyBatch), rows)
    else
      match NormalizedStatus(data.status)
      case None => (Failed(InvalidStatus(data.status)), rows)
      case Some(s) =>
        var run := RunChunks(rows, trashed, Chunks(data.taskIds.value), s, now);
        (BatchUpdated(|run.1.success|, run.1), run.0)
  }

  /** `process`: route by job name; an unknown name fails softly and changes nothing. */
  function ProcessSpec(rows: seq<TaskEntity>, trashed: set<string>, job: Job, now: int)
    : (r: (Result<Outcome, ServiceError>, seq<TaskEntity>))
    ensures job.name == StatusUpdateJob ==> r == StatusUpdateSpec(rows, trashed, job.data, now)
    ensures job.name == StatusBatchJob ==>
      r == (Ok(StatusBatchSpec(rows, trashed, job.data, now).0), StatusBatchSpec(rows, trashed, job.data, now).1)
    ensures job.name == OverdueJob ==> r == (Ok(Processed(OverdueStub)), rows)
    ensures job.name !in {StatusUpdateJob, StatusBatchJob, OverdueJob} ==> r == (Ok(Failed(UnknownJob(job.name))), rows)
  {
    if job.name == StatusUpdateJob then StatusUpdateSpec(rows, trashed, job.data, now)
    else if job.name == StatusBatchJob then
      var b := StatusBatchSpec(rows, trashed, job.data, now);
      (Ok(b.0), b.1)
    else if job.name == OverdueJob then (Ok(Processed(OverdueStub)), rows)
    else (Ok(Failed(UnknownJob(job.name))), rows)
  }

  /** A job that fails softly leaves the table as it was. */
  lemma FailedJobChangesNothing(rows: seq<TaskEntity>, trashed: set<string>, job: Job, now: int)
    ensures var r := ProcessSpec(rows, trashed, job, now);
              r.0.Ok? && r.0.value.Failed? ==> r.1 == rows
  {
    if job.name == StatusBatchJob {
      var b := StatusBatchSpec(rows, trashed, job.data, now);
      if b.0.Failed? {
        assert !b.0.BatchUpdated?;
      }
    }
  }

  /** One loop step of `handleStatusBatch` takes off the next slice. */
  lemma ChunksStep(ids: seq<string>, i: nat)
    requires i < |ids|
    ensures var hi := if i + Chunk < |ids| then i + Chunk else |ids|;
              Chunks(Rest(ids, i)) == [ids[i..hi]] + Chunks(Rest(ids, i + Chunk))
  {
    var hi := if i + Chunk < |ids| then i + Chunk else |ids|;
    var tail := ids[i..];
    assert tail[..hi - i] == ids[i..hi];
    assert tail[hi - i..] == Rest(ids, i + Chunk);
  }

  lemma RunChunksCons(rows: seq<TaskEntity>, trashed: set<string>, c: seq<string>, cs: seq<seq<string>>,
                      s: TaskStatus, now: int)
    ensures var step := BatchStatusStep(rows, trashed, c, s, now);
            var rest := RunChunks(step.0, trashed, cs, s, now);
              RunChunks(rows, trashed, [c] + cs, s, now) == (rest.0, Appended(step.1, rest.1))
  {
    assert ([c] + cs)[1..] == cs;
  }

  lemma AppendedAssoc(a: BatchResult, b: BatchResult, c: BatchResult)
    ensures Appended(Appended(a, b), c) == Appended(a, Appended(b, c))
  {
    assert a.success + b.success + c.success == a.success + (b.success + c.success);
    assert a.failed + b.failed + c.failed == a.failed + (b.failed + c.failed);
  }

  lemma AppendedUnit(a: BatchResult)
    ensures Appended(NoResult, a) == a && Appended(a, NoResult) == a
  {
    assert [] + a.success == a.success && a.success + [] == a.success;
    assert [] + a.failed == a.failed && a.failed + [] == a.failed;
  }

  class TaskProcessorService {
    const service: TasksService

    ghost predicate Valid()
      reads this, service, service.table
    {
      service.Valid()
    }

    constructor(s: TasksService)
      ensures service == s
    {
      service := s;
    }

    method Process(job: Job, now: int) returns (r: Result<Outcome, ServiceError>)
      requires Valid()
      modifies service.table`rows
      ensures Valid()
      ensures (r, service.table.rows) == ProcessSpec(old(service.table.rows), service.table.trashed, job, now)
    {
      if job.name == StatusUpdateJob {
        r := HandleStatusUpdate(job.data, now);
      } else if job.name == StatusBatchJob {
        var o := HandleStatusBatch(job.data, now);
        r := Ok(o);
      } else if job.name == OverdueJob {
        r := Ok(Processed(OverdueStub));
      } else {
        r := Ok(Failed(UnknownJob(job.name)));
      }
    }

    method HandleStatusUpdate(data: JobData, now: int) returns (r: Result<Outcome, ServiceError>)
      requires Valid()
      modifies service.table`rows
      ensures Valid()
      ensures (r, service.table.rows) == StatusUpdateSpec(old(service.table.rows), service.table.trashed, data, now)
    {
      if data.taskId == "" || data.status.None? || data.status.value == "" {
        return Ok(Failed(MissingData));
      }
      var normalized := Upper(data.status.value);
      if !IsValidStatus(normalized) {
        return Ok(Failed(InvalidStatus(data.status)));
      }
      ghost var before := service.table.rows;
      var s := ParseStatus(normalized).value;
      var task := service.UpdateStatus(data.taskId, normalized, now);
      if task.Err? {
        if !Stored(before, data.taskId) {
          RestatusNothing(before, {data.taskId}, s, now);
        }
        return Err(task.error);
      }
      r := Ok(StatusUpdated(task.value.id, task.value.status));
    }

    method HandleStatusBatch(data: JobData, now: int) returns (r: Outcome)
      requires Valid()
      modifies service.table`rows
      ensures Valid()
      ensures (r, service.table.rows) == StatusBatchSpec(old(service.table.rows), service.table.trashed, data, now)
    {
      if data.taskIds.None? || |data.taskIds.value| == 0 {
        return Failed(EmptyBatch);
      }
      if data.status.None? || !IsValidStatus(Upper(data.status.value)) {
        return Failed(InvalidStatus(data.status));
      }
      var s := ParseStatus(Upper(data.status.value)).value;
      var results := ProcessChunks(data.taskIds.value, s, now);
      r := BatchUpdated(|results.success|, results);
    }

    /** The slices of `taskIds`, `Chunk` ids each, updated one after another. */
    method ProcessChunks(taskIds: seq<string>, s: TaskStatus, now: int) returns (results: BatchResult)
      requires Valid()
      modifies service.table`rows
      ensures Valid()
      ensures (service.table.rows, results) == RunChunks(old(service.table.rows), service.table.trashed, Chunks(taskIds), s, now)
    {
      results := NoResult;
      var i: nat := 0;
      ghost var trashed := service.table.trashed;
      ghost var target := RunChunks(service.table.rows, trashed, Chunks(taskIds), s, now);
      assert Rest(taskIds, 0) == taskIds;
      AppendedUnit(target.1);
      while i < |taskIds|
        invariant Valid() && service.table.trashed == trashed
        invariant target == var rest := RunChunks(service.table.rows, trashed, Chunks(Rest(taskIds, i)), s, now);
                            (rest.0, Appended(results, rest.1))
        decreases |taskIds| - i
      {
        var hi := if i + Chunk < |taskIds| then i + Chunk else |taskIds|;
        var slice := taskIds[i..hi];
        ghost var rows0 := service.table.rows;
        ChunksStep(taskIds, i);
        var r := service.BatchUpdateStatus(slice, s, now);
        ghost var rest := RunChunks(service.table.rows, trashed, Chunks(Rest(taskIds, i + Chunk)), s, now);
        RunChunksCons(rows0, trashed, slice, Chunks(Rest(taskIds, i + Chunk)), s, now);
        AppendedAssoc(results, r, rest.1);
        results := Appended(results, r);
        i := i + Chunk;
      }
      assert Rest(taskIds, i) == [];
      AppendedUnit(results);
    }
  }
}
