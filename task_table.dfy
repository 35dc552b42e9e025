/**
 * The `tasks` table as the services and handlers see it through TypeORM: a
 * sequence of rows with distinct ids, in table order, plus the ids that have
 * been soft-deleted. The table is taken to have the delete-date column that
 * `softDelete` needs; TypeORM then hides a soft-deleted row from SELECTs,
 * while UPDATE and DELETE still reach it.
 *
 * The statements issued against it are the methods of `Table`; the functions
 * beside it say what each statement leaves behind.
 */
module TaskTable {
  import opened Wrappers
  import opened TaskDomain
  import opened TaskMapper

  /** The primary key: no two rows share an id. */
  predicate Unique(rows: seq<TaskEntity>) {
    forall i, j :: 0 <= i < j < |rows| ==> rows[i].id != rows[j].id
  }

  predicate Distinct(ids: seq<string>) {
    forall i, j :: 0 <= i < j < |ids| ==> ids[i] != ids[j]
  }

  /** A row with this id is stored, soft-deleted or not: what UPDATE and DELETE reach. */
  predicate Stored(rows: seq<TaskEntity>, id: string) {
    exists t :: t in rows && t.id == id
  }

  /** A row with this id exists and is not soft-deleted: what SELECT reaches. */
  predicate Present(rows: seq<TaskEntity>, trashed: set<string>, id: string) {
    id !in trashed && Stored(rows, id)
  }

  /** The rows queries see, in table order. */
  function Live(rows: seq<TaskEntity>, trashed: set<string>): (r: seq<TaskEntity>)
    ensures forall t :: t in r <==> t in rows && t.id !in trashed
  {
    if rows == [] then []
    else
      assert rows == [rows[0]] + rows[1..];
      (if rows[0].id in trashed then [] else [rows[0]]) + Live(rows[1..], trashed)
  }

  /**
   * `find({ where: { id: In(ids) }, select: ['id'] })` mapped to the ids: each
   * visible row whose id was asked for, once, in table order.
   */
  function Existing(rows: seq<TaskEntity>, trashed: set<string>, ids: seq<string>): (e: seq<string>)
    ensures forall x :: x in e <==> x in ids && Present(rows, trashed, x)
    ensures |e| <= |rows|
  {
    if rows == [] then []
    else
      assert rows == [rows[0]] + rows[1..];
      (if rows[0].id in ids && rows[0].id !in trashed then [rows[0].id] else []) + Existing(rows[1..], trashed, ids)
  }

  /** The lookup answers each id once, since ids are the primary key. */
  lemma {:induction false} ExistingDistinct(rows: seq<TaskEntity>, trashed: set<string>, ids: seq<string>)
    requires Unique(rows)
    ensures Distinct(Existing(rows, trashed, ids))
  {
    if rows != [] {
      ExistingDistinct(rows[1..], trashed, ids);
      forall t | t in rows[1..] ensures t.id != rows[0].id {
        var k :| 0 <= k < |rows[1..]| && rows[1..][k] == t;
        assert rows[k + 1] == t;
      }
    }
  }

  /** `findOne({ where: { id } })`: the visible row with this id, if any. */
  function Lookup(rows: seq<TaskEntity>, trashed: set<string>, id: string): (r: Option<TaskEntity>)
    ensures r.Some? <==> Present(rows, trashed, id)
    ensures r.Some? ==> r.value in rows && r.value.id == id
  {
    if id in trashed || rows == [] then None
    else if rows[0].id == id then Some(rows[0])
    else
      assert rows == [rows[0]] + rows[1..];
      Lookup(rows[1..], trashed, id)
  }

  /**
   * The number of rows a statement `WHERE id IN (ids)` affects. TypeORM adds
   * its "not soft-deleted" condition to SELECTs only, so soft-deleted rows count.
   */
  function Affected(rows: seq<TaskEntity>, ids: set<string>): (n: nat)
    ensures n <= |rows|
    ensures n == 0 <==> forall x :: x in ids ==> !Stored(rows, x)
  {
    if rows == [] then 0
    else
      assert rows == [rows[0]] + rows[1..];
      (if rows[0].id in ids then 1 else 0) + Affected(rows[1..], ids)
  }

  /**
   * `UPDATE tasks SET status = s WHERE id IN (ids)`: every row named, hidden
   * or not, gets the status, and `updatedAt` (an `UpdateDateColumn`) becomes
   * `now`; every other row is unchanged and no row moves.
   */
  function Restatus(rows: seq<TaskEntity>, ids: set<string>, s: TaskStatus, now: int)
    : (r: seq<TaskEntity>)
    ensures |r| == |rows|
    ensures forall i :: 0 <= i < |rows| ==> r[i].id == rows[i].id
    ensures forall i :: 0 <= i < |rows| && rows[i].id in ids ==> r[i] == rows[i].(status := s, updatedAt := now)
    ensures forall i :: 0 <= i < |rows| && rows[i].id !in ids ==> r[i] == rows[i]
  {
    if rows == [] then []
    else
      var t := rows[0];
      [if t.id in ids then t.(status := s, updatedAt := now) else t] + Restatus(rows[1..], ids, s, now)
  }

  /** `DELETE FROM tasks WHERE id IN (ids)`: exactly the rows named go, hidden or not. */
  function Removed(rows: seq<TaskEntity>, ids: set<string>): (r: seq<TaskEntity>)
    ensures forall t :: t in r <==> t in rows && t.id !in ids
    ensures |r| <= |rows|
  {
    if rows == [] then []
    else
      assert rows == [rows[0]] + rows[1..];
      (if rows[0].id in ids then [] else [rows[0]]) + Removed(rows[1..], ids)
  }

  /** `save(entity)` of a loaded row: the row with its id is replaced in place. */
  function Saved(rows: seq<TaskEntity>, e: TaskEntity): (r: seq<TaskEntity>)
    ensures |r| == |rows|
    ensures forall i :: 0 <= i < |rows| ==> r[i] == if rows[i].id == e.id then e else rows[i]
  {
    if rows == [] then [] else [if rows[0].id == e.id then e else rows[0]] + Saved(rows[1..], e)
  }

  /** An update keeps the ids, hence the primary key and which ids are stored. */
  lemma RestatusKeepsIds(rows: seq<TaskEntity>, ids: set<string>, s: TaskStatus, now: int)
    requires Unique(rows)
    ensures var r := Restatus(rows, ids, s, now);
              Unique(r) && forall x :: Stored(r, x) <==> Stored(rows, x)
  {
    var r := Restatus(rows, ids, s, now);
    forall i, j | 0 <= i < j < |r| ensures r[i].id != r[j].id {
      assert r[i].id == rows[i].id && r[j].id == rows[j].id;
    }
    forall x ensures Stored(r, x) <==> Stored(rows, x) {
      if Stored(rows, x) {
        var t :| t in rows && t.id == x;
        var k :| 0 <= k < |rows| && rows[k] == t;
        assert r[k] in r;
      }
      if Stored(r, x) {
        var t :| t in r && t.id == x;
        var k :| 0 <= k < |r| && r[k] == t;
        assert rows[k] in rows;
      }
    }
  }

  /** An update that names no stored row changes nothing. */
  lemma RestatusNothing(rows: seq<TaskEntity>, ids: set<string>, s: TaskStatus, now: int)
    requires forall x :: x in ids ==> !Stored(rows, x)
    ensures Restatus(rows, ids, s, now) == rows
  {
    var r := Restatus(rows, ids, s, now);
    forall i | 0 <= i < |rows| ensures r[i] == rows[i] {
      assert rows[i] in rows;
    }
  }

  /** Setting a status twice at the same time is setting it once. */
  lemma RestatusIdempotent(rows: seq<TaskEntity>, ids: set<string>, s: TaskStatus, now: int)
    ensures var r := Restatus(rows, ids, s, now);
              Restatus(r, ids, s, now) == r
  {
    var r := Restatus(rows, ids, s, now);
    assert Restatus(r, ids, s, now) == r by {
      var q := Restatus(r, ids, s, now);
      assert forall i :: 0 <= i < |r| ==> q[i] == r[i];
    }
  }

  /** A delete keeps the primary key, removes exactly the ids named and leaves every other id as it was. */
  lemma {:induction false} RemovedFacts(rows: seq<TaskEntity>, ids: set<string>)
    requires Unique(rows)
    ensures var r := Removed(rows, ids);
              && Unique(r)
              && (forall x :: x in ids ==> !Stored(r, x))
              && (forall x :: x !in ids ==> (Stored(r, x) <==> Stored(rows, x)))
  {
    if rows != [] {
      RemovedFacts(rows[1..], ids);
      var rest := Removed(rows[1..], ids);
      forall t | t in rest ensures t.id != rows[0].id {
        var k :| 0 <= k < |rows[1..]| && rows[1..][k] == t;
        assert rows[k + 1] == t;
      }
      var head: seq<TaskEntity> := if rows[0].id in ids then [] else [rows[0]];
      assert Removed(rows, ids) == head + rest;
      forall x | x !in ids ensures Stored(Removed(rows, ids), x) <==> Stored(rows, x) {
        if Stored(rows, x) {
          var t :| t in rows && t.id == x;
          assert t in Removed(rows, ids);
        }
      }
    }
  }

  /** Soft-deleting the present ids named hides exactly them. */
  function Trashed(rows: seq<TaskEntity>, trashed: set<string>, ids: set<string>): (r: set<string>)
    ensures forall x :: x in r <==> x in trashed || (x in ids && Present(rows, trashed, x))
  {
    trashed + set x | x in ids && Present(rows, trashed, x)
  }

  class Table {
    var rows: seq<TaskEntity>
    var trashed: set<string>

    ghost predicate Valid()
      reads this
    {
      Unique(rows)
    }

    constructor(initial: seq<TaskEntity>)
      requires Unique(initial)
      ensures Valid() && rows == initial && trashed == {}
    {
      rows := initial;
      trashed := {};
    }

    /** `UPDATE … SET status … WHERE id IN (…)`; returns the number of rows affected. */
    method UpdateStatusWhereIn(ids: set<string>, s: TaskStatus, now: int) returns (affected: nat)
      requires Valid()
      modifies this`rows
      ensures Valid()
      ensures rows == Restatus(old(rows), ids, s, now)
      ensures affected == Affected(old(rows), ids)
    {
      RestatusKeepsIds(rows, ids, s, now);
      affected := Affected(rows, ids);
      rows := Restatus(rows, ids, s, now);
    }

    /** `DELETE … WHERE id IN (…)`; returns the number of rows affected. */
    method DeleteWhereIn(ids: set<string>) returns (affected: nat)
      requires Valid()
      modifies this`rows
      ensures Valid()
      ensures rows == Removed(old(rows), ids)
      ensures affected == Affected(old(rows), ids)
    {
      RemovedFacts(rows, ids);
      affected := Affected(rows, ids);
      rows := Removed(rows, ids);
    }

    /** `softDelete({ id: In(ids) })`: the rows stay, hidden. */
    method SoftDeleteWhereIn(ids: set<string>)
      modifies this`trashed
      ensures trashed == Trashed(rows, old(trashed), ids)
    {
      trashed := Trashed(rows, trashed, ids);
    }

    /** `save` of a loaded, visible row. */
    method Save(e: TaskEntity)
      requires Valid()
      modifies this`rows
      ensures Valid()
      ensures rows == Saved(old(rows), e)
    {
      rows := Saved(rows, e);
    }
  }
}
