/**
 * `TaskReadRepositoryImpl.list`: filter, sort and page the tasks, either by
 * keyset (a `(createdAt, id)` cursor) or by offset. The query builder's
 * conditions are accumulated one `andWhere` at a time by `BuildConditions`;
 * `Listed` states what the whole call returns.
 */
module TaskReadRepository {
  import opened Wrappers
  import opened Text
  import opened TaskDomain
  import opened TaskMapper
  import opened TaskQuery

  /**
   * `ListTasksFilter`. String filters are "" when absent (an empty string is
   * falsy and skipped like an absent one); dates are milliseconds.
   */
  datatype ListTasksFilter = ListTasksFilter(
    status: Option<TaskStatus>,
    priority: Option<TaskPriority>,
    search: string,
    userId: string,
    assigneeId: string,
    dueFrom: Option<int>,
    dueTo: Option<int>,
    createdFrom: Option<int>,
    createdTo: Option<int>,
    sort: Option<SortField>,
    order: Option<string>,
    page: Option<int>,
    limit: Option<int>,
    cursorCreatedAt: Option<int>,
    cursorId: string)

  datatype ListResult =
    | KeysetPage(data: seq<TaskEntity>, nextCursor: Option<Cursor>, page: nat, limit: nat, totalPages: nat)
    | OffsetPage(data: seq<TaskEntity>, total: nat, page: nat, limit: nat, totalPages: nat)

  /** The query builder refuses an order other than ASC or DESC. */
  datatype ListError = InvalidOrder(order: string)

  predicate StatusOk(f: ListTasksFilter, t: TaskEntity) { f.status.Some? ==> t.status == f.status.value }
  predicate PriorityOk(f: ListTasksFilter, t: TaskEntity) { f.priority.Some? ==> t.priority == f.priority.value }
  /** ILIKE on the title OR the description; a null description does not match. */
  predicate SearchOk(f: ListTasksFilter, t: TaskEntity) {
    f.search != "" ==> Like(t.title, f.search) || (t.description.Value? && Like(t.description.value, f.search))
  }
  predicate UserOk(f: ListTasksFilter, t: TaskEntity) { f.userId != "" ==> t.userId == Value(f.userId) }
  predicate AssigneeOk(f: ListTasksFilter, t: TaskEntity) { f.assigneeId != "" ==> t.assigneeId == Value(f.assigneeId) }
  /** Due-date bounds are inclusive; a null due date fails them. */
  predicate DueFromOk(f: ListTasksFilter, t: TaskEntity) {
    f.dueFrom.Some? ==> t.dueDate.Value? && t.dueDate.value >= f.dueFrom.value
  }
  predicate DueToOk(f: ListTasksFilter, t: TaskEntity) {
    f.dueTo.Some? ==> t.dueDate.Value? && t.dueDate.value <= f.dueTo.value
  }
  /** Creation-date bounds are inclusive. */
  predicate CreatedFromOk(f: ListTasksFilter, t: TaskEntity) { f.createdFrom.Some? ==> t.createdAt >= f.createdFrom.value }
  predicate CreatedToOk(f: ListTasksFilter, t: TaskEntity) { f.createdTo.Some? ==> t.createdAt <= f.createdTo.value }

  /** Every filter that is present holds of the row: the filters combine conjunctively. */
  predicate Matches(f: ListTasksFilter, t: TaskEntity) {
    && StatusOk(f, t) && PriorityOk(f, t) && SearchOk(f, t) && UserOk(f, t) && AssigneeOk(f, t)
    && DueFromOk(f, t) && DueToOk(f, t) && CreatedFromOk(f, t) && CreatedToOk(f, t)
  }

  /** Keyset paging applies exactly when both cursor parts are present. */
  predicate KeysetMode(f: ListTasksFilter) {
    f.cursorCreatedAt.Some? && f.cursorId != ""
  }

  function CursorOf(f: ListTasksFilter): Cursor
    requires KeysetMode(f)
  {
    Cursor(f.cursorCreatedAt.value, f.cursorId)
  }

  /** Past the cursor in the direction of the sort: strictly below it under DESC, strictly above it otherwise. */
  predicate PastCursor(f: ListTasksFilter, d: Direction, t: TaskEntity)
    requires KeysetMode(f)
  {
    if d == Desc then KeyBefore(t.createdAt, t.id, CursorOf(f)) else KeyAfter(t.createdAt, t.id, CursorOf(f))
  }

  /** The rows the WHERE clause keeps: matching, and past the cursor in keyset mode. */
  predicate Selects(f: ListTasksFilter, d: Direction, t: TaskEntity) {
    Matches(f, t) && (KeysetMode(f) ==> PastCursor(f, d, t))
  }

  function Selected(f: ListTasksFilter, d: Direction, rows: seq<TaskEntity>): (r: seq<TaskEntity>)
    ensures forall t :: t in r <==> t in rows && Selects(f, d, t)
  {
    if rows == [] then []
    else
      assert rows == [rows[0]] + rows[1..];
      (if Selects(f, d, rows[0]) then [rows[0]] else []) + Selected(f, d, rows[1..])
  }

  /** `(f.order ?? 'DESC').toUpperCase()`, as the query builder accepts it. */
  function OrderOf(f: ListTasksFilter): (r: Result<Direction, ListError>)
    ensures f.order.None? ==> r == Ok(Desc)
    ensures f.order.Some? ==> (r == Ok(Desc) <==> Upper(f.order.value) == "DESC")
    ensures f.order.Some? ==> (r == Ok(Asc) <==> Upper(f.order.value) == "ASC")
    ensures r.Err? ==> f.order.Some? && r.error == InvalidOrder(Upper(f.order.value))
  {
    var o := Upper(if f.order.Some? then f.order.value else "DESC");
    if o == "DESC" then Ok(Desc) else if o == "ASC" then Ok(Asc) else Err(InvalidOrder(o))
  }

  /** `Math.min(Math.max(limit ?? 20, 1), 100)`. */
  function ClampLimit(limit: Option<int>): (r: nat)
    ensures 1 <= r <= 100
    ensures limit.None? ==> r == 20
    ensures limit.Some? && 1 <= limit.value <= 100 ==> r == limit.value
    ensures limit.Some? && limit.value < 1 ==> r == 1
    ensures limit.Some? && limit.value > 100 ==> r == 100
  {
    var l := if limit.Some? then limit.value else 20;
    var atLeastOne := if l < 1 then 1 else l;
    if atLeastOne > 100 then 100 else atLeastOne
  }

  /** `Math.max(page ?? 1, 1)`. */
  function ClampPage(page: Option<int>): (r: nat)
    ensures r >= 1
    ensures page.Some? && page.value >= 1 ==> r == page.value
    ensures page.None? || page.value < 1 ==> r == 1
  {
    if page.Some? && page.value >= 1 then page.value else 1
  }

  /** A window of the sorted selection: sorted, and made of matching rows only. */
  lemma WindowFacts(f: ListTasksFilter, d: Direction, srt: SortField, rows: seq<TaskEntity>, skip: nat, take: nat)
    ensures var w := Window(Sort(srt, d, Selected(f, d, rows)), skip, take);
              Sorted(srt, d, w) && |w| <= take && forall t :: t in w ==> t in rows && Selects(f, d, t)
  {
    var selected := Selected(f, d, rows);
    var ordered := Sort(srt, d, selected);
    WindowOfSorted(srt, d, ordered, skip, take);
    assert forall t :: t in ordered ==> t in selected by {
      forall t | t in ordered ensures t in selected {
        assert t in multiset(ordered);
      }
    }
  }

  function SortOf(f: ListTasksFilter): SortField {
    if f.sort.Some? then f.sort.value else ByCreatedAt
  }

  /** Keyset mode: the first `limit` selected rows, the last one's key as the next cursor, page and totalPages 0. */
  function KeysetListing(f: ListTasksFilter, d: Direction, rows: seq<TaskEntity>): (r: ListResult)
    requires KeysetMode(f)
    ensures r.KeysetPage? && r.limit == ClampLimit(f.limit) && r.page == 0 && r.totalPages == 0
    ensures r.data == Window(Sort(SortOf(f), d, Selected(f, d, rows)), 0, r.limit)
    ensures Sorted(SortOf(f), d, r.data) && |r.data| <= r.limit
    ensures forall t :: t in r.data ==> t in rows && Matches(f, t) && PastCursor(f, d, t)
    ensures r.data == [] ==> r.nextCursor.None?
    ensures r.data != [] ==> r.nextCursor == Some(Cursor(r.data[|r.data| - 1].createdAt, r.data[|r.data| - 1].id))
  {
    var lim := ClampLimit(f.limit);
    WindowFacts(f, d, SortOf(f), rows, 0, lim);
    var data := Window(Sort(SortOf(f), d, Selected(f, d, rows)), 0, lim);
    KeysetPage(data, if data == [] then None else Some(Cursor(data[|data| - 1].createdAt, data[|data| - 1].id)), 0, lim, 0)
  }

  /** Offset mode: page `page` of the selected rows, with the total and the page count of all of them. */
  function OffsetListing(f: ListTasksFilter, d: Direction, rows: seq<TaskEntity>): (r: ListResult)
    requires !KeysetMode(f)
    ensures r.OffsetPage? && r.limit == ClampLimit(f.limit) && r.page == ClampPage(f.page)
    ensures r.total == |Selected(f, d, rows)| && r.totalPages == CeilDiv(r.total, r.limit)
    ensures r.data == Window(Sort(SortOf(f), d, Selected(f, d, rows)), Offset(r.page, r.limit), r.limit)
    ensures Sorted(SortOf(f), d, r.data) && |r.data| <= r.limit
    ensures forall t :: t in r.data ==> t in rows && Matches(f, t)
  {
    var lim := ClampLimit(f.limit);
    var page := ClampPage(f.page);
    var skip := Offset(page, lim);
    WindowFacts(f, d, SortOf(f), rows, skip, lim);
    var selected := Selected(f, d, rows);
    OffsetPage(Window(Sort(SortOf(f), d, selected), skip, lim), |selected|, page, lim, CeilDiv(|selected|, lim))
  }

  /**
   * What `list` returns: an order other than ASC or DESC is refused;
   * otherwise keyset paging exactly when both cursor parts are present, offset
   * paging when not. `rows` are the rows the query can see: callers pass
   * `TaskTable.Live` of the table, as `getMany` skips soft-deleted rows.
   */
  function Listed(f: ListTasksFilter, rows: seq<TaskEntity>): (r: Result<ListResult, ListError>)
    ensures OrderOf(f).Err? ==> r == Err(OrderOf(f).error)
    ensures r.Ok? <==> OrderOf(f).Ok?
    ensures r.Ok? && KeysetMode(f) ==> r.value == KeysetListing(f, OrderOf(f).value, rows)
    ensures r.Ok? && !KeysetMode(f) ==> r.value == OffsetListing(f, OrderOf(f).value, rows)
  {
    match OrderOf(f)
    case Err(e) => Err(e)
    case Ok(d) => if KeysetMode(f) then Ok(KeysetListing(f, d, rows)) else Ok(OffsetListing(f, d, rows))
  }

  /** One `andWhere`, issued only when its filter is present. */
  method AndWhere(conds: seq<Cond>, c: Option<Cond>) returns (r: seq<Cond>)
    ensures |r| == if c.Some? then |conds| + 1 else |conds|
    ensures forall t :: AllHold(r, t) <==> AllHold(conds, t) && (c.Some? ==> Holds(c.value, t))
  {
    r := conds;
    if c.Some? {
      HoldsExtended(conds, c.value);
      r := conds + [c.value];
    }
  }

  /** The keyset comparison, in the direction of the sort. */
  function CursorCond(f: ListTasksFilter, d: Direction): (c: Option<Cond>)
    ensures c.Some? <==> KeysetMode(f)
    ensures forall t :: KeysetMode(f) ==> (Holds(c.value, t) <==> PastCursor(f, d, t))
  {
    if !KeysetMode(f) then None
    else if d == Desc then Some(RowBefore(CursorOf(f)))
    else Some(RowAfter(CursorOf(f)))
  }

  /** `WHERE task.id IS NOT NULL`, then one `andWhere` per present attribute filter. */
  method AttributeConditions(f: ListTasksFilter) returns (conds: seq<Cond>)
    ensures forall t :: AllHold(conds, t) <==>
      StatusOk(f, t) && PriorityOk(f, t) && SearchOk(f, t) && UserOk(f, t) && AssigneeOk(f, t)
  {
    conds := [IdNotNull];
    assert conds[..0] == [];
    assert forall t :: AllHold(conds, t);
    conds := AndWhere(conds, if f.status.Some? then Some(StatusIs(f.status.value)) else None);
    conds := AndWhere(conds, if f.priority.Some? then Some(PriorityIs(f.priority.value)) else None);
    conds := AndWhere(conds, if f.search != "" then Some(TitleOrDescriptionLike(f.search)) else None);
    conds := AndWhere(conds, if f.userId != "" then Some(UserIs(f.userId)) else None);
    conds := AndWhere(conds, if f.assigneeId != "" then Some(AssigneeIs(f.assigneeId)) else None);
  }

  /** One `andWhere` per present date bound. */
  method DateConditions(f: ListTasksFilter, conds: seq<Cond>) returns (r: seq<Cond>)
    ensures forall t :: AllHold(r, t) <==>
      AllHold(conds, t) && DueFromOk(f, t) && DueToOk(f, t) && CreatedFromOk(f, t) && CreatedToOk(f, t)
  {
    r := AndWhere(conds, if f.dueFrom.Some? then Some(DueFrom(f.dueFrom.value)) else None);
    r := AndWhere(r, if f.dueTo.Some? then Some(DueTo(f.dueTo.value)) else None);
    r := AndWhere(r, if f.createdFrom.Some? then Some(CreatedFrom(f.createdFrom.value)) else None);
    r := AndWhere(r, if f.createdTo.Some? then Some(CreatedTo(f.createdTo.value)) else None);
  }

  /** The conditions `list` adds: the filters, then the keyset comparison in keyset mode. */
  method BuildConditions(f: ListTasksFilter, d: Direction) returns (conds: seq<Cond>)
    ensures forall t :: AllHold(conds, t) <==> Selects(f, d, t)
  {
    conds := AttributeConditions(f);
    conds := DateConditions(f, conds);
    assert forall t :: AllHold(conds, t) <==> Matches(f, t);
    conds := AndWhere(conds, CursorCond(f, d));
  }

  /** Filtering by the built conditions is filtering by the filter's meaning. */
  lemma {:induction false} WhereIsSelected(f: ListTasksFilter, d: Direction, rows: seq<TaskEntity>, conds: seq<Cond>)
    requires forall t :: AllHold(conds, t) <==> Selects(f, d, t)
    ensures Where(rows, conds) == Selected(f, d, rows)
  {
    if rows != [] {
      WhereIsSelected(f, d, rows[1..], conds);
    }
  }

  /** `list`: builds the query step by step and runs it over the visible rows `rows` (see `Listed`). */
  method List(f: ListTasksFilter, rows: seq<TaskEntity>) returns (r: Result<ListResult, ListError>)
    ensures r == Listed(f, rows)
  {
    var sort := SortOf(f);
    var order := OrderOf(f);
    if order.Err? {
      return Err(order.error);
    }
    var d := order.value;
    var conds := BuildConditions(f, d);
    WhereIsSelected(f, d, rows, conds);
    if f.cursorCreatedAt.Some? && f.cursorId != "" {
      var take := ClampLimit(f.limit);
      var answer := Execute(Query(conds, sort, d, 0, take), rows);
      var data := answer.data;
      var next := if |data| > 0 then Some(Cursor(data[|data| - 1].createdAt, data[|data| - 1].id)) else None;
      r := Ok(KeysetPage(data, next, 0, take, 0));
      assert r.value == KeysetListing(f, d, rows);
    } else {
      var page := ClampPage(f.page);
      var limit := ClampLimit(f.limit);
      var answer := Execute(Query(conds, sort, d, Offset(page, limit), limit), rows);
      r := Ok(OffsetPage(answer.data, answer.total, page, limit, CeilDiv(answer.total, limit)));
      assert r.value == OffsetListing(f, d, rows);
    }
  }

  /** In offset mode every page up to the page count is non-empty. */
  lemma OffsetPagesNonEmpty(f: ListTasksFilter, d: Direction, rows: seq<TaskEntity>)
    requires !KeysetMode(f)
    requires OffsetListing(f, d, rows).page <= OffsetListing(f, d, rows).totalPages
    ensures OffsetListing(f, d, rows).data != []
  {
    var r := OffsetListing(f, d, rows);
    var ordered := Sort(SortOf(f), d, Selected(f, d, rows));
    assert |ordered| == r.total;
    OffsetBelowTotal(r.page, r.limit, r.total);
    assert r.data == Window(ordered, Offset(r.page, r.limit), r.limit);
  }
}
