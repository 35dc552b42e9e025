/**
 * `TaskMapper`: the field-by-field copy between the aggregate's properties
 * and the `tasks` table row. Both directions pass every optional field
 * through `?? null`, so a round trip only ever turns undefined into null.
 */
module TaskMapper {
  import opened TaskDomain

  /**
   * A row of the `tasks` table as the mapper fills it. The entity class
   * declares no `assigneeId` column; the mapper sets the property anyway,
   * so the row carries it here.
   */
  datatype TaskEntity = TaskEntity(
    id: string,
    title: string,
    description: Nullable<string>,
    status: TaskStatus,
    priority: TaskPriority,
    userId: Nullable<string>,
    assigneeId: Nullable<string>,
    dueDate: Nullable<int>,
    createdAt: int,
    updatedAt: int)

  /** The properties with every undefined optional field replaced by null. */
  function Normalized(d: TaskProps): (r: TaskProps)
    ensures r.description != Undefined && r.userId != Undefined && r.assigneeId != Undefined && r.dueDate != Undefined
    ensures r == d <==> d.description != Undefined && d.userId != Undefined && d.assigneeId != Undefined && d.dueDate != Undefined
  {
    d.(description := OrNull(d.description), userId := OrNull(d.userId),
       assigneeId := OrNull(d.assigneeId), dueDate := OrNull(d.dueDate))
  }

  /** `toEntity(t)`, from `t.data`: identity and timestamps copied, optionals through `?? null`. */
  function ToEntity(d: TaskProps): (e: TaskEntity)
    ensures e.id == d.id && e.title == d.title && e.status == d.status && e.priority == d.priority
    ensures e.createdAt == d.createdAt && e.updatedAt == d.updatedAt
    ensures e.description == OrNull(d.description) && e.userId == OrNull(d.userId)
    ensures e.assigneeId == OrNull(d.assigneeId) && e.dueDate == OrNull(d.dueDate)
  {
    TaskEntity(d.id, d.title, OrNull(d.description), d.status, d.priority,
               OrNull(d.userId), OrNull(d.assigneeId), OrNull(d.dueDate), d.createdAt, d.updatedAt)
  }

  /** The properties `toDomain(e)` rehydrates from. */
  function PropsOf(e: TaskEntity): (d: TaskProps)
    ensures d.id == e.id && d.title == e.title && d.status == e.status && d.priority == e.priority
    ensures d.createdAt == e.createdAt && d.updatedAt == e.updatedAt
    ensures d.description == OrNull(e.description) && d.userId == OrNull(e.userId)
    ensures d.assigneeId == OrNull(e.assigneeId) && d.dueDate == OrNull(e.dueDate)
  {
    TaskProps(e.id, e.title, OrNull(e.description), e.status, e.priority,
              OrNull(e.userId), OrNull(e.assigneeId), OrNull(e.dueDate), e.createdAt, e.updatedAt)
  }

  /** `toDomain`: a rehydrated aggregate, so it carries no pending events. */
  method ToDomain(e: TaskEntity) returns (t: Task)
    ensures fresh(t)
    ensures t.props == PropsOf(e) && t.events == []
  {
    var p := PropsOf(e);
    t := new Task.Rehydrate(p);
  }

  /** Aggregate to row and back gives the same data, with undefined optionals normalised to null. */
  lemma DomainRoundTrip(d: TaskProps)
    ensures PropsOf(ToEntity(d)) == Normalized(d)
    ensures Normalized(d) == d ==> PropsOf(ToEntity(d)) == d
  {
  }

  /** Row to aggregate and back gives the same row, once the row's own undefined optionals are read as null. */
  lemma EntityRoundTrip(e: TaskEntity)
    ensures ToEntity(PropsOf(e)) == ToEntity(PropsOf(ToEntity(PropsOf(e))))
    ensures ToEntity(PropsOf(e)) == e <==>
              e.description != Undefined && e.userId != Undefined && e.assigneeId != Undefined && e.dueDate != Undefined
  {
  }

  /** Normalising is idempotent. */
  lemma NormalizedIdempotent(d: TaskProps)
    ensures Normalized(Normalized(d)) == Normalized(d)
  {
  }
}
