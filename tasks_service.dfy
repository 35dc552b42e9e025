/**
 * `TasksService`: paging over the table, lookups, the update that queues a
 * status job when the status changed, single and batch deletes, and status
 * updates by id. The job queue is the `jobs` outbox; the pure functions say
 * what each call computes.
 */
module TasksService {
  import opened Wrappers
  import opened TaskDomain
  import opened TaskMapper
  import opened TaskQuery
  import opened TaskTable
  import opened TaskBatch

  datatype ServiceError =
    | NotFound(message: string)
    | InternalError(message: string)

  function NotFoundMessage(id: string): string {
    "Task with ID " + id + " not found"
  }

  function NotFoundAfterUpdateMessage(id: string): string {
    "Task with ID " + id + " not found after update"
  }

  const StatusUpdateFailed: string := "Failed to update task status"

  /**
   * The data of a queued job, as the processor reads it: a single task id
   * ("" when absent), a list of task ids (`None` when not an array) and a
   * status (`None` when absent).
   */
  datatype JobData = JobData(taskId: string, taskIds: Option<seq<string>>, status: Option<string>)

  datatype Job = Job(name: string, data: JobData)

  const StatusUpdateJob: string := "task-status-update"

  /** The `task-status-update` job queued for a task whose status is now `s`. */
  function StatusJob(id: string, s: TaskStatus): (j: Job)
    ensures j.name == StatusUpdateJob && j.data.taskId == id
    ensures j.data.status.Some? && ParseStatus(j.data.status.value) == Some(s)
  {
    StatusNameRoundTrip(s);
    Job(StatusUpdateJob, JobData(id, None, Some(StatusName(s))))
  }

  /** `Number(page) > 0 ? Number(page) : 1`; an absent page is NaN. */
  function PageNum(page: Option<int>): (n: nat)
    ensures n >= 1
    ensures page.Some? && page.value > 0 ==> n == page.value
    ensures page.None? || page.value <= 0 ==> n == 1
  {
    if page.Some? && page.value > 0 then page.value else 1
  }

  /** `Math.min(Math.max(Number(limit) || 10, 1), 100)`: absent or 0 means 10. */
  function LimitNum(limit: Option<int>): (n: nat)
    ensures 1 <= n <= 100
    ensures limit.None? || limit.value == 0 ==> n == 10
    ensures limit.Some? && 1 <= limit.value <= 100 ==> n == limit.value
    ensures limit.Some? && limit.value < 0 ==> n == 1
    ensures limit.Some? && limit.value > 100 ==> n == 100
  {
    var l := if limit.None? || limit.value == 0 then 10 else limit.value;
    if l < 1 then 1 else if l > 100 then 100 else l
  }

  /** The `andWhere` conditions `findAll` adds for its two filters. */
  function FindAllConds(status: Option<TaskStatus>, priority: Option<TaskPriority>): (c: seq<Cond>)
    ensures forall t :: AllHold(c, t) <==>
      (status.Some? ==> t.status == status.value) && (priority.Some? ==> t.priority == priority.value)
  {
    Extended(Extended([], if status.Some? then Some(StatusIs(status.value)) else None),
             if priority.Some? then Some(PriorityIs(priority.value)) else None)
  }

  datatype Page = Page(data: seq<TaskEntity>, total: nat, page: nat, limit: nat, totalPages: nat)

  /**
   * What `findAll` returns: the matching rows newest first (ties by id,
   * descending), page `PageNum(page)` of `LimitNum(limit)` rows, the number
   * of matching rows and the page count.
   */
  function Paged(rows: seq<TaskEntity>, status: Option<TaskStatus>, priority: Option<TaskPriority>,
                 page: Option<int>, limit: Option<int>): (p: Page)
    ensures p.page == PageNum(page) && p.limit == LimitNum(limit)
    ensures p.total == |Where(rows, FindAllConds(status, priority))|
    ensures p.data == Window(Sort(ByCreatedAt, Desc, Where(rows, FindAllConds(status, priority))),
                             Offset(p.page, p.limit), p.limit)
    ensures p.totalPages == CeilDiv(p.total, p.limit)
    ensures |p.data| <= p.limit && Sorted(ByCreatedAt, Desc, p.data)
    ensures forall t :: t in p.data ==>
      t in rows && (status.Some? ==> t.status == status.value) && (priority.Some? ==> t.priority == priority.value)
  {
    var pageNum := PageNum(page);
    var limitNum := LimitNum(limit);
    var a := Execute(Query(FindAllConds(status, priority), ByCreatedAt, Desc, Offset(pageNum, limitNum), limitNum), rows);
    Page(a.data, a.total, pageNum, limitNum, CeilDiv(a.total, limitNum))
  }

  /** Every page up to the page count holds at least one row. */
  lemma PagesUpToCountNonEmpty(rows: seq<TaskEntity>, status: Option<TaskStatus>, priority: Option<TaskPriority>,
                               page: Option<int>, limit: Option<int>)
    requires PageNum(page) <= Paged(rows, status, priority, page, limit).totalPages
    ensures Paged(rows, status, priority, page, limit).data != []
  {
    var p := Paged(rows, status, priority, page, limit);
    var ordered := Sort(ByCreatedAt, Desc, Where(rows, FindAllConds(status, priority)));
    assert |ordered| == p.total;
    var skip := Offset(p.page, p.limit);
    OffsetBelowTotal(p.page, p.limit, p.total);
    assert p.data == Window(ordered, skip, p.limit);
  }

  /**
   * `UpdateTaskDto`, which also inherits an optional `userId` from `CreateTaskDto`;
   * a field that was not sent is `None`/`Undefined`.
   */
  datatype UpdateTaskDto = UpdateTaskDto(
    title: Option<string>,
    description: Nullable<string>,
    status: Option<TaskStatus>,
    priority: Option<TaskPriority>,
    dueDate: Nullable<int>,
    userId: Nullable<string>)

  /** `Object.assign(task, dto)`: every field that was sent overwrites the loaded one. */
  function Assigned(e: TaskEntity, dto: UpdateTaskDto): (r: TaskEntity)
    ensures r.id == e.id && r.assigneeId == e.assigneeId
    ensures r.createdAt == e.createdAt && r.updatedAt == e.updatedAt
    ensures r.title == if dto.title.Some? then dto.title.value else e.title
    ensures r.description == if dto.description.Undefined? then e.description else dto.description
    ensures r.status == if dto.status.Some? then dto.status.value else e.status
    ensures r.priority == if dto.priority.Some? then dto.priority.value else e.priority
    ensures r.dueDate == if dto.dueDate.Undefined? then e.dueDate else dto.dueDate
    ensures r.userId == if dto.userId.Undefined? then e.userId else dto.userId
  {
    var t := if dto.title.Some? then e.(title := dto.title.value) else e;
    var d := if dto.description.Undefined? then t else t.(description := dto.description);
    var s := if dto.status.Some? then d.(status := dto.status.value) else d;
    var p := if dto.priority.Some? then s.(priority := dto.priority.value) else s;
    var u := if dto.dueDate.Undefined? then p else p.(dueDate := dto.dueDate);
    if dto.userId.Undefined? then u else u.(userId := dto.userId)
  }

  /** The row `save` leaves: unchanged when no column changed, else with `updatedAt` advanced to `now`. */
  function SavedRow(e: TaskEntity, dto: UpdateTaskDto, now: int): (r: TaskEntity)
    ensures r == e <==> Assigned(e, dto) == e || (Assigned(e, dto) == e.(updatedAt := now) && e.updatedAt == now)
    ensures r.id == e.id && r.status == Assigned(e, dto).status
    ensures r.(updatedAt := e.updatedAt) == Assigned(e, dto)
    ensures r.updatedAt == if Assigned(e, dto) == e then e.updatedAt else now
  {
    var a := Assigned(e, dto);
    if a == e then e else a.(updatedAt := now)
  }

  /** `prevStatus !== task.status`: a job is queued exactly when a different status was sent. */
  function UpdateJobs(e: TaskEntity, dto: UpdateTaskDto): (j: seq<Job>)
    ensures |j| <= 1
    ensures j != [] <==> dto.status.Some? && dto.status.value != e.status
    ensures j != [] ==> j == [StatusJob(e.id, dto.status.value)]
  {
    var a := Assigned(e, dto);
    if e.status != a.status then [StatusJob(a.id, a.status)] else []
  }

  /** The aggregate's update rule for the same fields. */
  function PatchOf(dto: UpdateTaskDto): TaskPatch {
    TaskPatch(dto.title, dto.description, dto.priority, dto.dueDate, dto.status, Undefined)
  }

  /** The service queues a job exactly when the aggregate would record a status change. */
  lemma UpdateJobsAgreeWithEvents(e: TaskEntity, dto: UpdateTaskDto)
    ensures |UpdateJobs(e, dto)| == |PatchEvents(PropsOf(e), PatchOf(dto))|
  {
  }

  /** What `remove` returns: the DELETE reaches any stored row, soft-deleted or not. */
  function RemoveResult(rows: seq<TaskEntity>, id: string): (r: Result<(), ServiceError>)
    ensures r.Ok? <==> Stored(rows, id)
    ensures r.Err? ==> r.error == NotFound(NotFoundMessage(id))
  {
    if Stored(rows, id) then Ok(()) else Err(NotFound(NotFoundMessage(id)))
  }

  /**
   * What `updateStatus` returns: the database refuses a value outside the
   * enum; NotFound when the UPDATE reached no row; a second NotFound when it
   * reached a soft-deleted row, which the re-read does not see; otherwise the
   * updated row.
   */
  function StatusResult(rows: seq<TaskEntity>, trashed: set<string>, id: string, status: string, now: int)
    : (r: Result<TaskEntity, ServiceError>)
    ensures ParseStatus(status).None? ==> r == Err(InternalError(StatusUpdateFailed))
    ensures ParseStatus(status).Some? && !Stored(rows, id) ==> r == Err(NotFound(NotFoundMessage(id)))
    ensures ParseStatus(status).Some? && Stored(rows, id) && id in trashed ==>
      r == Err(NotFound(NotFoundAfterUpdateMessage(id)))
    ensures r.Ok? <==> ParseStatus(status).Some? && Present(rows, trashed, id)
    ensures r.Ok? ==> r.value == Lookup(rows, trashed, id).value.(status := ParseStatus(status).value, updatedAt := now)
  {
    match ParseStatus(status)
    case None => Err(InternalError(StatusUpdateFailed))
    case Some(s) =>
      if !Stored(rows, id) then Err(NotFound(NotFoundMessage(id)))
      else
        match Lookup(rows, trashed, id)
        case None => Err(NotFound(NotFoundAfterUpdateMessage(id)))
        case Some(t) => Ok(t.(status := s, updatedAt := now))
  }

  /** Looking up a row after the update finds the updated row. */
  lemma {:induction false} LookupRestatus(rows: seq<TaskEntity>, trashed: set<string>, id: string, s: TaskStatus, now: int)
    requires Present(rows, trashed, id)
    ensures Lookup(Restatus(rows, {id}, s, now), trashed, id)
         == Some(Lookup(rows, trashed, id).value.(status := s, updatedAt := now))
  {
    var r := Restatus(rows, {id}, s, now);
    assert r[0] == if rows[0].id == id then rows[0].(status := s, updatedAt := now) else rows[0];
    if rows[0].id != id {
      assert r[1..] == Restatus(rows[1..], {id}, s, now);
      var t :| t in rows && t.id == id;
      assert t in rows[1..] by {
        assert rows == [rows[0]] + rows[1..];
      }
      LookupRestatus(rows[1..], trashed, id, s, now);
    }
  }

  class TasksService {
    const table: Table
    var jobs: seq<Job>

    ghost predicate Valid()
      reads this, table
    {
      table.Valid()
    }

    constructor(t: Table)
      ensures table == t && jobs == []
    {
      table := t;
      jobs := [];
    }

    /** `findAll`: one query over the visible rows; nothing changes. */
    method FindAll(status: Option<TaskStatus>, priority: Option<TaskPriority>, page: Option<int>, limit: Option<int>)
      returns (p: Page)
      ensures p == Paged(Live(table.rows, table.trashed), status, priority, page, limit)
    {
      var pageNum := PageNum(page);
      var limitNum := LimitNum(limit);
      var conds: seq<Cond> := [];
      if status.Some? {
        conds := conds + [StatusIs(status.value)];
      }
      if priority.Some? {
        conds := conds + [PriorityIs(priority.value)];
      }
      assert conds == FindAllConds(status, priority);
      var a := Execute(Query(conds, ByCreatedAt, Desc, Offset(pageNum, limitNum), limitNum), Live(table.rows, table.trashed));
      p := Page(a.data, a.total, pageNum, limitNum, CeilDiv(a.total, limitNum));
    }

    /** `findOne`: the row, or NotFound. */
    method FindOne(id: string) returns (r: Result<TaskEntity, ServiceError>)
      ensures r.Ok? <==> Present(table.rows, table.trashed, id)
      ensures r.Ok? ==> r.value in table.rows && r.value.id == id
      ensures r.Err? ==> r.error == NotFound(NotFoundMessage(id))
    {
      var task := Lookup(table.rows, table.trashed, id);
      if task.None? {
        return Err(NotFound(NotFoundMessage(id)));
      }
      return Ok(task.value);
    }

    /** `update`: load, assign, save, and queue a status job when the status changed. */
    method Update(id: string, dto: UpdateTaskDto, now: int) returns (r: Result<TaskEntity, ServiceError>)
      requires Valid()
      modifies table`rows, this`jobs
      ensures Valid()
      ensures !Present(old(table.rows), table.trashed, id) ==>
        r == Err(NotFound(NotFoundMessage(id))) && table.rows == old(table.rows) && jobs == old(jobs)
      ensures Present(old(table.rows), table.trashed, id) ==>
        var e := Lookup(old(table.rows), table.trashed, id).value;
        && r == Ok(SavedRow(e, dto, now))
        && table.rows == Saved(old(table.rows), SavedRow(e, dto, now))
        && jobs == old(jobs) + UpdateJobs(e, dto)
    {
      var task := Lookup(table.rows, table.trashed, id);
      if task.None? {
        return Err(NotFound(NotFoundMessage(id)));
      }
      var prevStatus := task.value.status;
      var merged := Assigned(task.value, dto);
      var saved := if merged == task.value then task.value else merged.(updatedAt := now);
      table.Save(saved);
      if prevStatus != saved.status {
        jobs := jobs + [StatusJob(saved.id, saved.status)];
      }
      r := Ok(saved);
    }

    /** `remove`: a hard delete by id; NotFound when no row was affected. */
    method Remove(id: string) returns (r: Result<(), ServiceError>)
      requires Valid()
      modifies table`rows
      ensures Valid()
      ensures table.rows == Removed(old(table.rows), {id})
      ensures r == RemoveResult(old(table.rows), id)
    {
      var affected := table.DeleteWhereIn({id});
      if affected == 0 {
        return Err(NotFound(NotFoundMessage(id)));
      }
      r := Ok(());
    }

    /** `updateStatus`: an UPDATE by id with a raw status string, then the updated row. */
    method UpdateStatus(id: string, status: string, now: int) returns (r: Result<TaskEntity, ServiceError>)
      requires Valid()
      modifies table`rows
      ensures Valid()
      ensures r == StatusResult(old(table.rows), table.trashed, id, status, now)
      ensures ParseStatus(status).None? ==> table.rows == old(table.rows)
      ensures ParseStatus(status).Some? ==> table.rows == Restatus(old(table.rows), {id}, ParseStatus(status).value, now)
    {
      var s := ParseStatus(status);
      if s.None? {
        return Err(InternalError(StatusUpdateFailed));
      }
      ghost var before := table.rows;
      var affected := table.UpdateStatusWhereIn({id}, s.value, now);
      if affected == 0 {
        return Err(NotFound(NotFoundMessage(id)));
      }
      RestatusKeepsIds(before, {id}, s.value, now);
      var updated := Lookup(table.rows, table.trashed, id);
      if updated.None? {
        return Err(NotFound(NotFoundAfterUpdateMessage(id)));
      }
      LookupRestatus(before, table.trashed, id, s.value, now);
      r := Ok(updated.value);
    }

    /** `batchUpdateStatus`: find the existing ids, update them in one statement, report the rest as failed. */
    method BatchUpdateStatus(taskIds: seq<string>, status: TaskStatus, now: int) returns (b: BatchResult)
      requires Valid()
      modifies table`rows
      ensures Valid()
      ensures (table.rows, b) == BatchStatusStep(old(table.rows), table.trashed, taskIds, status, now)
    {
      if |taskIds| == 0 {
        return NoResult;
      }
      var existingIds := Existing(table.rows, table.trashed, taskIds);
      var missing := Missing(taskIds, existingIds);
      var success: seq<string> := [];
      if |existingIds| > 0 {
        var _ := table.UpdateStatusWhereIn(IdSet(existingIds), status, now);
        success := success + existingIds;
      }
      assert success == existingIds;
      var failed := FailAll(missing);
      b := BatchResult(success, failed);
    }

    /** `batchRemove`: find the existing ids, delete them in one statement, report the rest as failed. */
    method BatchRemove(taskIds: seq<string>) returns (b: BatchResult)
      requires Valid()
      modifies table`rows
      ensures Valid()
      ensures (table.rows, b) == BatchRemoveStep(old(table.rows), table.trashed, taskIds)
    {
      if |taskIds| == 0 {
        return NoResult;
      }
      var existingIds := Existing(table.rows, table.trashed, taskIds);
      var missing := Missing(taskIds, existingIds);
      var success: seq<string> := [];
      if |existingIds| > 0 {
        var _ := table.DeleteWhereIn(IdSet(existingIds));
        success := success + existingIds;
      }
      assert success == existingIds;
      var failed := FailAll(missing);
      b := BatchResult(success, failed);
    }
  }

  /** `for (const id of missing) failed.push({ id, error: 'Task not found' })`. */
  method FailAll(missing: seq<string>) returns (failed: seq<Failure>)
    ensures failed == Failures(missing)
  {
    failed := [];
    var i := 0;
    while i < |missing|
      invariant 0 <= i <= |missing|
      invariant failed == Failures(missing[..i])
    {
      assert missing[..i + 1] == missing[..i] + [missing[i]];
      FailuresConcat(missing[..i], [missing[i]]);
      failed := failed + [Failure(missing[i], NotFoundError)];
      i := i + 1;
    }
    assert missing[..i] == missing;
  }
}
