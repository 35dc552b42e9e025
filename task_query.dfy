/**
 * The query the read side of tasks sends to the database: a conjunction of
 * conditions over rows of the `tasks` table, an ORDER BY on one column with
 * the id as tie-breaker, and an optional OFFSET and LIMIT. `Execute` is what
 * PostgreSQL answers, with the page and the total count.
 */
module TaskQuery {
  import opened Wrappers
  import opened Text
  import opened TaskDomain
  import opened TaskMapper

  /** The columns `list` may sort by. */
  datatype SortField = ByCreatedAt | ByUpdatedAt | ByDueDate | ByPriority | ByStatus

  datatype Direction = Asc | Desc

  /** A keyset position: the `(createdAt, id)` of the last row already seen. */
  datatype Cursor = Cursor(createdAt: int, id: string)

  /** One WHERE condition, as `andWhere` adds it. */
  datatype Cond =
    | IdNotNull
    | StatusIs(status: TaskStatus)
    | PriorityIs(priority: TaskPriority)
    | TitleOrDescriptionLike(term: string)
    | UserIs(userId: string)
    | AssigneeIs(assigneeId: string)
    | DueFrom(from: int)
    | DueTo(to: int)
    | CreatedFrom(from: int)
    | CreatedTo(to: int)
    | RowBefore(cursor: Cursor)
    | RowAfter(cursor: Cursor)

  datatype Query = Query(conds: seq<Cond>, sort: SortField, dir: Direction, skip: nat, take: nat)

  /** `ILIKE '%term%'`: a case-insensitive substring test (wildcards inside `term` are not modelled). */
  predicate Like(s: string, term: string) {
    Contains(Lower(s), Lower(term))
  }

  /** `(a.createdAt, a.id) < (c.createdAt, c.id)` as a row-value comparison. */
  predicate KeyBefore(createdAt: int, id: string, c: Cursor) {
    createdAt < c.createdAt || (createdAt == c.createdAt && StrLt(id, c.id))
  }

  /** `(a.createdAt, a.id) > (c.createdAt, c.id)`. */
  predicate KeyAfter(createdAt: int, id: string, c: Cursor) {
    createdAt > c.createdAt || (createdAt == c.createdAt && StrLt(c.id, id))
  }

  /** Whether a condition holds of a row; a comparison with a null column does not hold. */
  predicate Holds(c: Cond, t: TaskEntity) {
    match c
    case IdNotNull => true
    case StatusIs(s) => t.status == s
    case PriorityIs(p) => t.priority == p
    case TitleOrDescriptionLike(q) => Like(t.title, q) || (t.description.Value? && Like(t.description.value, q))
    case UserIs(u) => t.userId == Value(u)
    case AssigneeIs(a) => t.assigneeId == Value(a)
    case DueFrom(d) => t.dueDate.Value? && t.dueDate.value >= d
    case DueTo(d) => t.dueDate.Value? && t.dueDate.value <= d
    case CreatedFrom(d) => t.createdAt >= d
    case CreatedTo(d) => t.createdAt <= d
    case RowBefore(k) => KeyBefore(t.createdAt, t.id, k)
    case RowAfter(k) => KeyAfter(t.createdAt, t.id, k)
  }

  /** The conjunction of the conditions, built up one `andWhere` at a time. */
  predicate AllHold(conds: seq<Cond>, t: TaskEntity) {
    conds == [] || (AllHold(conds[..|conds| - 1], t) && Holds(conds[|conds| - 1], t))
  }

  /** `AllHold` over one more condition. */
  lemma HoldsExtended(conds: seq<Cond>, c: Cond)
    ensures forall t :: AllHold(conds + [c], t) <==> AllHold(conds, t) && Holds(c, t)
  {
    assert (conds + [c])[..|conds|] == conds;
  }

  /** The conditions with one more `andWhere` when `c` is present. */
  function Extended(conds: seq<Cond>, c: Option<Cond>): (r: seq<Cond>)
    ensures forall t :: AllHold(r, t) <==> AllHold(conds, t) && (c.Some? ==> Holds(c.value, t))
  {
    if c.Some? then
      HoldsExtended(conds, c.value);
      conds + [c.value]
    else conds
  }

  /** The rows the WHERE clause keeps, in table order. */
  function Where(rows: seq<TaskEntity>, conds: seq<Cond>): (r: seq<TaskEntity>)
    ensures forall t :: t in r <==> t in rows && AllHold(conds, t)
    ensures multiset(r) <= multiset(rows)
    ensures |r| <= |rows|
  {
    if rows == [] then []
    else
      assert rows == [rows[0]] + rows[1..];
      (if AllHold(conds, rows[0]) then [rows[0]] else []) + Where(rows[1..], conds)
  }

  /**
   * The sort key of a row: the column's value ranked so that NULL comes
   * after every value (PostgreSQL's default), then the id. Enums sort in
   * declaration order.
   */
  datatype Key = Key(nullRank: int, value: int, id: string)

  function Rank(s: TaskStatus): int {
    match s
    case Pending => 0
    case InProgress => 1
    case Completed => 2
  }

  function PriorityRank(p: TaskPriority): int {
    match p
    case Low => 0
    case Medium => 1
    case High => 2
  }

  function KeyOf(f: SortField, t: TaskEntity): Key {
    match f
    case ByCreatedAt => Key(0, t.createdAt, t.id)
    case ByUpdatedAt => Key(0, t.updatedAt, t.id)
    case ByDueDate => if t.dueDate.Value? then Key(0, t.dueDate.value, t.id) else Key(1, 0, t.id)
    case ByPriority => Key(0, PriorityRank(t.priority), t.id)
    case ByStatus => Key(0, Rank(t.status), t.id)
  }

  predicate KeyLe(a: Key, b: Key) {
    a.nullRank < b.nullRank
    || (a.nullRank == b.nullRank && (a.value < b.value || (a.value == b.value && StrLe(a.id, b.id))))
  }

  /** Row `a` may come before row `b` under `ORDER BY col dir, id dir`. */
  predicate Precedes(f: SortField, d: Direction, a: TaskEntity, b: TaskEntity) {
    if d == Asc then KeyLe(KeyOf(f, a), KeyOf(f, b)) else KeyLe(KeyOf(f, b), KeyOf(f, a))
  }

  lemma KeyLeTotal(a: Key, b: Key)
    ensures KeyLe(a, b) || KeyLe(b, a)
  {
    StrLeTotal(a.id, b.id);
  }

  lemma KeyLeTrans(a: Key, b: Key, c: Key)
    requires KeyLe(a, b) && KeyLe(b, c)
    ensures KeyLe(a, c)
  {
    if a.nullRank == b.nullRank == c.nullRank && a.value == b.value == c.value {
      StrLeTrans(a.id, b.id, c.id);
    }
  }

  lemma PrecedesTotal(f: SortField, d: Direction, a: TaskEntity, b: TaskEntity)
    ensures Precedes(f, d, a, b) || Precedes(f, d, b, a)
  {
    KeyLeTotal(KeyOf(f, a), KeyOf(f, b));
  }

  lemma PrecedesTrans(f: SortField, d: Direction, a: TaskEntity, b: TaskEntity, c: TaskEntity)
    requires Precedes(f, d, a, b) && Precedes(f, d, b, c)
    ensures Precedes(f, d, a, c)
  {
    if d == Asc {
      KeyLeTrans(KeyOf(f, a), KeyOf(f, b), KeyOf(f, c));
    } else {
      KeyLeTrans(KeyOf(f, c), KeyOf(f, b), KeyOf(f, a));
    }
  }

  /** Under a sort on `createdAt`, order and keyset agree: a row precedes another exactly when its key is not past it. */
  lemma CreatedAtOrderIsKeyset(d: Direction, a: TaskEntity, b: TaskEntity)
    requires a.id != b.id
    ensures d == Desc ==> (Precedes(ByCreatedAt, d, a, b) <==> KeyBefore(b.createdAt, b.id, Cursor(a.createdAt, a.id)))
    ensures d == Asc ==> (Precedes(ByCreatedAt, d, a, b) <==> KeyAfter(b.createdAt, b.id, Cursor(a.createdAt, a.id)))
  {
    StrLeTotal(a.id, b.id);
    if StrLe(a.id, b.id) && StrLe(b.id, a.id) {
      StrLeAntisym(a.id, b.id);
    }
  }

  ghost predicate Sorted(f: SortField, d: Direction, s: seq<TaskEntity>) {
    forall i, j :: 0 <= i < j < |s| ==> Precedes(f, d, s[i], s[j])
  }

  /** Insertion of one row into its place among rows already in order. */
  function Insert(f: SortField, d: Direction, x: TaskEntity, s: seq<TaskEntity>): (r: seq<TaskEntity>)
    ensures multiset(r) == multiset(s) + multiset{x}
    ensures |r| == |s| + 1
  {
    if s == [] then [x]
    else if Precedes(f, d, x, s[0]) then [x] + s
    else
      assert s == [s[0]] + s[1..];
      [s[0]] + Insert(f, d, x, s[1..])
  }

  /** A row that precedes every row of an ordered sequence can lead it. */
  lemma ConsSorted(f: SortField, d: Direction, y: TaskEntity, s: seq<TaskEntity>)
    requires Sorted(f, d, s)
    requires forall j :: 0 <= j < |s| ==> Precedes(f, d, y, s[j])
    ensures Sorted(f, d, [y] + s)
  {
    var r := [y] + s;
    forall i, j | 0 <= i < j < |r| ensures Precedes(f, d, r[i], r[j]) {
      if i == 0 {
        assert r[j] == s[j - 1];
      } else {
        assert r[i] == s[i - 1] && r[j] == s[j - 1];
      }
    }
  }

  /** The head of an ordered sequence precedes every later row. */
  lemma HeadPrecedes(f: SortField, d: Direction, s: seq<TaskEntity>, t: TaskEntity)
    requires Sorted(f, d, s) && |s| > 0 && t in s[1..]
    ensures Precedes(f, d, s[0], t)
  {
    var k :| 0 <= k < |s[1..]| && s[1..][k] == t;
    assert s[k + 1] == t;
  }

  lemma InsertMember(f: SortField, d: Direction, x: TaskEntity, s: seq<TaskEntity>, t: TaskEntity)
    requires t in Insert(f, d, x, s)
    ensures t == x || t in s
  {
    assert t in multiset(Insert(f, d, x, s));
  }

  /** Inserting into rows in order keeps them in order. */
  lemma {:induction false} InsertSorted(f: SortField, d: Direction, x: TaskEntity, s: seq<TaskEntity>)
    requires Sorted(f, d, s)
    ensures Sorted(f, d, Insert(f, d, x, s))
  {
    if s == [] {
    } else if Precedes(f, d, x, s[0]) {
      forall j | 0 <= j < |s| ensures Precedes(f, d, x, s[j]) {
        if j > 0 { PrecedesTrans(f, d, x, s[0], s[j]); }
      }
      ConsSorted(f, d, x, s);
    } else {
      PrecedesTotal(f, d, x, s[0]);
      var tail := s[1..];
      assert Sorted(f, d, tail) by {
        forall i, j | 0 <= i < j < |tail| ensures Precedes(f, d, tail[i], tail[j]) {
          assert tail[i] == s[i + 1] && tail[j] == s[j + 1];
        }
      }
      InsertSorted(f, d, x, tail);
      var rest := Insert(f, d, x, tail);
      forall j | 0 <= j < |rest| ensures Precedes(f, d, s[0], rest[j]) {
        InsertMember(f, d, x, tail, rest[j]);
        if rest[j] != x {
          HeadPrecedes(f, d, s, rest[j]);
        }
      }
      ConsSorted(f, d, s[0], rest);
    }
  }

  /** The rows in ORDER BY order. */
  function Sort(f: SortField, d: Direction, s: seq<TaskEntity>): (r: seq<TaskEntity>)
    ensures Sorted(f, d, r)
    ensures multiset(r) == multiset(s) && |r| == |s|
  {
    if s == [] then []
    else
      assert s == [s[0]] + s[1..];
      var rest := Sort(f, d, s[1..]);
      InsertSorted(f, d, s[0], rest);
      Insert(f, d, s[0], rest)
  }

  /** `s.slice(skip, skip + take)`. */
  function Window(s: seq<TaskEntity>, skip: nat, take: nat): (r: seq<TaskEntity>)
    ensures |r| <= take
    ensures skip + take <= |s| ==> |r| == take
    ensures skip <= |s| ==> r == s[skip..if skip + take <= |s| then skip + take else |s|]
    ensures skip >= |s| ==> r == []
  {
    if skip >= |s| then [] else if skip + take <= |s| then s[skip..skip + take] else s[skip..]
  }

  /** A window of a sorted sequence is sorted and holds only elements of it. */
  lemma WindowOfSorted(f: SortField, d: Direction, s: seq<TaskEntity>, skip: nat, take: nat)
    requires Sorted(f, d, s)
    ensures Sorted(f, d, Window(s, skip, take))
    ensures forall t :: t in Window(s, skip, take) ==> t in s
  {
    var w := Window(s, skip, take);
    if skip < |s| {
      forall t | t in w ensures t in s {
        var i :| 0 <= i < |w| && w[i] == t;
        assert t == s[skip + i];
      }
    }
  }

  /** The rows a query returns, and the count of all rows its WHERE clause matches. */
  datatype Answer = Answer(data: seq<TaskEntity>, total: nat)

  function Execute(q: Query, rows: seq<TaskEntity>): (a: Answer)
    ensures a.total == |Where(rows, q.conds)|
    ensures a.data == Window(Sort(q.sort, q.dir, Where(rows, q.conds)), q.skip, q.take)
    ensures |a.data| <= q.take
    ensures forall t :: t in a.data ==> t in rows && AllHold(q.conds, t)
    ensures Sorted(q.sort, q.dir, a.data)
  {
    var matching := Where(rows, q.conds);
    var ordered := Sort(q.sort, q.dir, matching);
    WindowOfSorted(q.sort, q.dir, ordered, q.skip, q.take);
    assert forall t :: t in ordered ==> t in matching by {
      forall t | t in ordered ensures t in matching {
        assert t in multiset(ordered);
      }
    }
    Answer(Window(ordered, q.skip, q.take), |matching|)
  }

  /** `Math.ceil(total / size)` for a positive page size. */
  function CeilDiv(total: nat, size: nat): (r: nat)
    requires size > 0
    ensures (r - 1) * size < total <= r * size || (total == 0 && r == 0)
  {
    (total + size - 1) / size
  }

  /** The number of pages covers every row and wastes less than one page. */
  lemma CeilDivBounds(total: nat, size: nat)
    requires size > 0
    ensures total <= CeilDiv(total, size) * size < total + size
  {
  }

  /** `(page - 1) * limit`: the rows before page `page`. */
  function Offset(page: nat, limit: nat): (skip: nat)
    requires page >= 1
    ensures skip == (page - 1) * limit
  {
    (page - 1) * limit
  }

  lemma MulMonotone(a: nat, b: nat, c: nat)
    requires a <= b
    ensures a * c <= b * c
  {
  }

  /** A page numbered up to the page count starts before the last row. */
  lemma OffsetBelowTotal(page: nat, limit: nat, total: nat)
    requires limit > 0 && 1 <= page <= CeilDiv(total, limit)
    ensures Offset(page, limit) < total
  {
    var pages := CeilDiv(total, limit);
    MulMonotone(page - 1, pages - 1, limit);
  }
}
