/**
 * The `Task` aggregate: a task's properties plus the domain events recorded
 * since they were last pulled. `create` and `rehydrate` build one, `update`
 * and `changeStatus` assign its properties one by one and record a status
 * change, `pullEvents` hands the recorded events over and clears the list.
 *
 * Dates are milliseconds since the epoch; `new Date()` and `randomUUID()`
 * are the `now` and `id` parameters.
 */
module TaskDomain {
  import opened Wrappers

  /** The three statuses, in declaration order. */
  datatype TaskStatus = Pending | InProgress | Completed

  /** The three priorities, in declaration order. */
  datatype TaskPriority = Low | Medium | High

  /** The string value of each status, as stored and as sent in jobs. */
  function StatusName(s: TaskStatus): string {
    match s
    case Pending => "PENDING"
    case InProgress => "IN_PROGRESS"
    case Completed => "COMPLETED"
  }

  function PriorityName(p: TaskPriority): string {
    match p
    case Low => "LOW"
    case Medium => "MEDIUM"
    case High => "HIGH"
  }

  /** `Object.values(TaskStatus)`. */
  const StatusValues: seq<string> := ["PENDING", "IN_PROGRESS", "COMPLETED"]

  /** The status whose value is `v`, if any. */
  function ParseStatus(v: string): (r: Option<TaskStatus>)
    ensures r.Some? <==> v in StatusValues
    ensures r.Some? ==> StatusName(r.value) == v
  {
    if v == "PENDING" then Some(Pending)
    else if v == "IN_PROGRESS" then Some(InProgress)
    else if v == "COMPLETED" then Some(Completed)
    else None
  }

  /** The status names and `ParseStatus` are inverse to each other. */
  lemma StatusNameRoundTrip(s: TaskStatus)
    ensures ParseStatus(StatusName(s)) == Some(s)
    ensures StatusName(s) in StatusValues
  {
  }

  /** An optional property of a JavaScript object: undefined, null, or set. */
  datatype Nullable<T> = Undefined | Null | Value(value: T)

  /** `x ?? null`: undefined becomes null, anything else stays. */
  function OrNull<T>(x: Nullable<T>): (r: Nullable<T>)
    ensures r != Undefined
    ensures x != Undefined ==> r == x
    ensures x == Undefined ==> r == Null
  {
    if x.Undefined? then Null else x
  }

  /** `TaskProps`. */
  datatype TaskProps = TaskProps(
    id: string,
    title: string,
    description: Nullable<string>,
    status: TaskStatus,
    priority: TaskPriority,
    userId: Nullable<string>,
    assigneeId: Nullable<string>,
    dueDate: Nullable<int>,
    createdAt: int,
    updatedAt: int)

  /** `TaskCreatedEvent` and `TaskStatusChangedEvent`. */
  datatype TaskEvent =
    | TaskCreated(taskId: string, userId: Nullable<string>)
    | TaskStatusChanged(taskId: string, from: TaskStatus, to: TaskStatus)

  /** The input of `Task.create`; `status` is `None` when not given. */
  datatype CreateInput = CreateInput(
    title: string,
    description: Nullable<string>,
    priority: TaskPriority,
    userId: Nullable<string>,
    assigneeId: Nullable<string>,
    dueDate: Nullable<int>,
    status: Option<TaskStatus>)

  /**
   * The fields of `update`: a `None`/`Undefined` field is not given. The
   * nullable ones may be given as null.
   */
  datatype TaskPatch = TaskPatch(
    title: Option<string>,
    description: Nullable<string>,
    priority: Option<TaskPriority>,
    dueDate: Nullable<int>,
    status: Option<TaskStatus>,
    assigneeId: Nullable<string>)

  const NoChanges: TaskPatch := TaskPatch(None, Undefined, None, Undefined, None, Undefined)

  /** The properties `create` gives a new task: status defaults to pending, absent optionals become null, both timestamps are `now`. */
  function Created(input: CreateInput, id: string, now: int): (p: TaskProps)
    ensures p.id == id && p.title == input.title && p.priority == input.priority
    ensures p.status == (if input.status.Some? then input.status.value else Pending)
    ensures p.description == OrNull(input.description) && p.userId == OrNull(input.userId)
    ensures p.assigneeId == OrNull(input.assigneeId) && p.dueDate == OrNull(input.dueDate)
    ensures p.createdAt == now && p.updatedAt == now
    ensures p.description != Undefined && p.userId != Undefined && p.assigneeId != Undefined && p.dueDate != Undefined
  {
    TaskProps(id, input.title, OrNull(input.description),
              if input.status.Some? then input.status.value else Pending,
              input.priority, OrNull(input.userId), OrNull(input.assigneeId), OrNull(input.dueDate), now, now)
  }

  /**
   * The properties after `update`: each given field is taken (a given
   * nullable one through `?? null`), every other field keeps its value, and
   * `updatedAt` becomes `now` whether or not anything changed.
   */
  function Patched(p: TaskProps, f: TaskPatch, now: int): (r: TaskProps)
    ensures r.id == p.id && r.userId == p.userId && r.createdAt == p.createdAt && r.updatedAt == now
    ensures r.title == (if f.title.Some? then f.title.value else p.title)
    ensures r.description == (if f.description.Undefined? then p.description else f.description)
    ensures r.priority == (if f.priority.Some? then f.priority.value else p.priority)
    ensures r.dueDate == (if f.dueDate.Undefined? then p.dueDate else f.dueDate)
    ensures r.assigneeId == (if f.assigneeId.Undefined? then p.assigneeId else f.assigneeId)
    ensures r.status == (if f.status.Some? then f.status.value else p.status)
  {
    p.(title := if f.title.Some? then f.title.value else p.title,
       description := if f.description.Undefined? then p.description else OrNull(f.description),
       priority := if f.priority.Some? then f.priority.value else p.priority,
       dueDate := if f.dueDate.Undefined? then p.dueDate else OrNull(f.dueDate),
       assigneeId := if f.assigneeId.Undefined? then p.assigneeId else OrNull(f.assigneeId),
       status := if f.status.Some? then f.status.value else p.status,
       updatedAt := now)
  }

  /** The events `update` records: one status change exactly when a status is given and differs from the current one. */
  function PatchEvents(p: TaskProps, f: TaskPatch): (e: seq<TaskEvent>)
    ensures |e| <= 1
    ensures e != [] <==> f.status.Some? && f.status.value != p.status
    ensures e != [] ==> e[0] == TaskStatusChanged(p.id, p.status, f.status.value)
  {
    if f.status.Some? && f.status.value != p.status then [TaskStatusChanged(p.id, p.status, f.status.value)] else []
  }

  /** Applying the same update twice is applying it once, and the second application records nothing. */
  lemma PatchIdempotent(p: TaskProps, f: TaskPatch, now: int, later: int)
    ensures Patched(Patched(p, f, now), f, later) == Patched(p, f, later)
    ensures PatchEvents(Patched(p, f, now), f) == []
  {
  }

  /** An update that gives no field only moves `updatedAt` and records nothing. */
  lemma EmptyPatch(p: TaskProps, now: int)
    ensures Patched(p, NoChanges, now) == p.(updatedAt := now)
    ensures PatchEvents(p, NoChanges) == []
  {
  }

  /** The properties after `changeStatus(to)`: unchanged when `to` is the current status, otherwise the status and `updatedAt` change. */
  function StatusChanged(p: TaskProps, to: TaskStatus, now: int): (r: TaskProps)
    ensures p.status == to ==> r == p
    ensures p.status != to ==> r == p.(status := to, updatedAt := now)
  {
    if p.status == to then p else p.(status := to, updatedAt := now)
  }

  /** The events `changeStatus(to)` records. */
  function StatusEvents(p: TaskProps, to: TaskStatus): (e: seq<TaskEvent>)
    ensures e == PatchEvents(p, NoChanges.(status := Some(to)))
  {
    if p.status == to then [] else [TaskStatusChanged(p.id, p.status, to)]
  }

  /**
   * `changeStatus(to)` and `update({ status: to })` record the same events and
   * reach the same status; they differ only in that `update` always moves
   * `updatedAt`, while `changeStatus` to the current status changes nothing at all.
   */
  lemma ChangeStatusAgreesWithUpdate(p: TaskProps, to: TaskStatus, now: int)
    ensures StatusEvents(p, to) == PatchEvents(p, NoChanges.(status := Some(to)))
    ensures p.status != to ==> StatusChanged(p, to, now) == Patched(p, NoChanges.(status := Some(to)), now)
    ensures p.status == to ==> StatusChanged(p, to, now) == p && Patched(p, NoChanges.(status := Some(to)), now) == p.(updatedAt := now)
  {
  }

  /** `changeStatus` is idempotent: the second call to the same status changes nothing and records nothing. */
  lemma ChangeStatusIdempotent(p: TaskProps, to: TaskStatus, now: int, later: int)
    ensures StatusChanged(StatusChanged(p, to, now), to, later) == StatusChanged(p, to, now)
    ensures StatusEvents(StatusChanged(p, to, now), to) == []
  {
  }

  class Task {
    var props: TaskProps
    var events: seq<TaskEvent>

    /** `Task.create`: one `TaskCreated` event is recorded. */
    constructor Create(input: CreateInput, id: string, now: int)
      ensures props == Created(input, id, now)
      ensures events == [TaskCreated(id, OrNull(input.userId))]
    {
      props := TaskProps(id, input.title, OrNull(input.description),
                         if input.status.Some? then input.status.value else Pending,
                         input.priority, OrNull(input.userId), OrNull(input.assigneeId), OrNull(input.dueDate), now, now);
      events := [];
      new;
      Record(TaskCreated(props.id, OrNull(props.userId)));
    }

    /** `Task.rehydrate`: a copy of the properties and no events. */
    constructor Rehydrate(p: TaskProps)
      ensures props == p && events == []
    {
      props := p;
      events := [];
    }

    method Record(e: TaskEvent)
      modifies this`events
      ensures events == old(events) + [e]
    {
      events := events + [e];
    }

    method Update(f: TaskPatch, now: int)
      modifies this
      ensures props == Patched(old(props), f, now)
      ensures events == old(events) + PatchEvents(old(props), f)
    {
      var prevStatus := props.status;
      if f.title.Some? {
        props := props.(title := f.title.value);
      }
      if !f.description.Undefined? {
        props := props.(description := OrNull(f.description));
      }
      if f.priority.Some? {
        props := props.(priority := f.priority.value);
      }
      if !f.dueDate.Undefined? {
        props := props.(dueDate := OrNull(f.dueDate));
      }
      if !f.assigneeId.Undefined? {
        props := props.(assigneeId := OrNull(f.assigneeId));
      }
      if f.status.Some? && f.status.value != prevStatus {
        props := props.(status := f.status.value);
        Record(TaskStatusChanged(props.id, prevStatus, f.status.value));
      }
      props := props.(updatedAt := now);
    }

    method ChangeStatus(to: TaskStatus, now: int)
      modifies this
      ensures props == StatusChanged(old(props), to, now)
      ensures events == old(events) + StatusEvents(old(props), to)
    {
      if props.status == to {
        return;
      }
      var from := props.status;
      props := props.(status := to);
      props := props.(updatedAt := now);
      Record(TaskStatusChanged(props.id, from, to));
    }

    /** Hands over the recorded events, in recording order, and leaves none behind. */
    method PullEvents() returns (e: seq<TaskEvent>)
      modifies this`events
      ensures e == old(events) && events == []
    {
      e := events;
      events := [];
    }

    /** `data`: a copy of the properties. */
    function Data(): TaskProps
      reads this
    {
      props
    }
  }
}
