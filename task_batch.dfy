/**
 * The batch result shared by `TasksService.batchUpdateStatus`,
 * `TasksService.batchRemove`, the two batch command handlers and the queue
 * processor: the ids that exist succeed, every other input id fails with
 * "Task not found", in input order and with its duplicates.
 *
 * The three `…Step` functions state a whole batch call: what the table holds
 * afterwards and what the caller gets back.
 */
module TaskBatch {
  import opened TaskDomain
  import opened TaskMapper
  import opened TaskTable

  /** `{ id, error }`. */
  datatype Failure = Failure(id: string, error: string)

  /** `{ success, failed }`. */
  datatype BatchResult = BatchResult(success: seq<string>, failed: seq<Failure>)

  const NotFoundError: string := "Task not found"

  /** `{ success: [], failed: [] }`. */
  const NoResult: BatchResult := BatchResult([], [])

  /** `ids.filter(id => !existing.includes(id))`: the ids asked for and not found, in input order. */
  function Missing(ids: seq<string>, existing: seq<string>): (m: seq<string>)
    ensures forall x :: x in m <==> x in ids && x !in existing
    ensures |m| <= |ids|
  {
    if ids == [] then []
    else
      assert ids == [ids[0]] + ids[1..];
      (if ids[0] in existing then [] else [ids[0]]) + Missing(ids[1..], existing)
  }

  /** `missing.map(id => ({ id, error: 'Task not found' }))`. */
  function Failures(ids: seq<string>): (f: seq<Failure>)
    ensures |f| == |ids|
    ensures forall i :: 0 <= i < |ids| ==> f[i] == Failure(ids[i], NotFoundError)
  {
    if ids == [] then [] else [Failure(ids[0], NotFoundError)] + Failures(ids[1..])
  }

  /** The ids named by a list of failures. */
  function FailedIds(fs: seq<Failure>): (ids: seq<string>)
    ensures |ids| == |fs|
    ensures forall i :: 0 <= i < |fs| ==> ids[i] == fs[i].id
  {
    if fs == [] then [] else [fs[0].id] + FailedIds(fs[1..])
  }

  /**
   * The result for input ids `ids` when the lookup found `existing`: empty
   * for no ids (no lookup is made), otherwise the found ids and one failure
   * per missing input id.
   */
  function Partition(ids: seq<string>, existing: seq<string>): (r: BatchResult)
    ensures ids == [] ==> r == NoResult
    ensures ids != [] ==> r.success == existing && FailedIds(r.failed) == Missing(ids, existing)
    ensures forall f :: f in r.failed ==> f.error == NotFoundError
  {
    if |ids| == 0 then NoResult
    else
      FailedIdsOfFailures(Missing(ids, existing));
      BatchResult(existing, Failures(Missing(ids, existing)))
  }

  lemma FailedIdsOfFailures(ids: seq<string>)
    ensures FailedIds(Failures(ids)) == ids
  {
  }

  /** A missing id fails once per occurrence in the input; a found one never fails. */
  lemma {:induction false} MissingCount(ids: seq<string>, existing: seq<string>, x: string)
    ensures multiset(Missing(ids, existing))[x] == if x in existing then 0 else multiset(ids)[x]
  {
    if ids != [] {
      var rest := Missing(ids[1..], existing);
      MissingCount(ids[1..], existing, x);
      assert multiset(ids) == multiset([ids[0]]) + multiset(ids[1..]) by {
        assert ids == [ids[0]] + ids[1..];
      }
      if ids[0] in existing {
        assert Missing(ids, existing) == rest;
      } else {
        assert Missing(ids, existing) == [ids[0]] + rest;
        assert multiset(Missing(ids, existing)) == multiset([ids[0]]) + multiset(rest);
      }
    }
  }

  /** Filtering the concatenation of two inputs is concatenating their filterings. */
  lemma {:induction false} MissingConcat(a: seq<string>, b: seq<string>, existing: seq<string>)
    ensures Missing(a + b, existing) == Missing(a, existing) + Missing(b, existing)
  {
    if a != [] {
      MissingConcat(a[1..], b, existing);
      assert (a + b)[0] == a[0] && (a + b)[1..] == a[1..] + b;
      assert Missing(a + b, existing) == (if a[0] in existing then [] else [a[0]]) + Missing(a[1..] + b, existing);
    } else {
      assert a + b == b;
    }
  }

  lemma {:induction false} FailuresConcat(a: seq<string>, b: seq<string>)
    ensures Failures(a + b) == Failures(a) + Failures(b)
  {
    if a != [] {
      FailuresConcat(a[1..], b);
      assert (a + b)[1..] == a[1..] + b;
    }
  }

  /**
   * When the lookup only finds input ids, every input id either succeeds or
   * fails, and none does both.
   */
  lemma PartitionCovers(ids: seq<string>, existing: seq<string>)
    requires forall x :: x in existing ==> x in ids
    ensures var r := Partition(ids, existing);
              forall x :: (x in ids <==> x in r.success || x in FailedIds(r.failed))
                       && !(x in r.success && x in FailedIds(r.failed))
  {
  }

  /** The ids of a set of found ids, as the `In (…)` list. */
  function IdSet(ids: seq<string>): (r: set<string>)
    ensures forall x :: x in r <==> x in ids
  {
    set x | x in ids
  }

  /**
   * A batch status update: no ids, no statement; otherwise the lookup, one
   * UPDATE of the ids found (none when nothing was found) and the partition.
   * Exactly the visible rows whose id was asked for get the status.
   */
  function BatchStatusStep(rows: seq<TaskEntity>, trashed: set<string>, ids: seq<string>, s: TaskStatus, now: int)
    : (r: (seq<TaskEntity>, BatchResult))
    ensures r.1 == Partition(ids, Existing(rows, trashed, ids))
    ensures |r.0| == |rows|
    ensures forall i :: 0 <= i < |rows| && rows[i].id in ids && rows[i].id !in trashed ==>
      r.0[i] == rows[i].(status := s, updatedAt := now)
    ensures forall i :: 0 <= i < |rows| && (rows[i].id !in ids || rows[i].id in trashed) ==> r.0[i] == rows[i]
  {
    if |ids| == 0 then (rows, NoResult)
    else
      var existing := Existing(rows, trashed, ids);
      var after := if |existing| > 0 then Restatus(rows, IdSet(existing), s, now) else rows;
      assert forall i :: 0 <= i < |rows| ==> (rows[i].id in existing <==> rows[i].id in ids && rows[i].id !in trashed) by {
        forall i | 0 <= i < |rows| && rows[i].id in ids && rows[i].id !in trashed ensures rows[i].id in existing {
          assert rows[i] in rows;
        }
      }
      (after, Partition(ids, existing))
  }

  /** A batch hard delete (`TasksService.batchRemove`): exactly the visible rows asked for go. */
  function BatchRemoveStep(rows: seq<TaskEntity>, trashed: set<string>, ids: seq<string>): (r: (seq<TaskEntity>, BatchResult))
    ensures r.1 == Partition(ids, Existing(rows, trashed, ids))
    ensures forall t :: t in r.0 <==> t in rows && !(t.id in ids && t.id !in trashed)
  {
    if |ids| == 0 then (rows, NoResult)
    else
      var existing := Existing(rows, trashed, ids);
      var after := if |existing| > 0 then Removed(rows, IdSet(existing)) else rows;
      assert forall t :: t in rows ==> (t.id in existing <==> t.id in ids && t.id !in trashed);
      (after, Partition(ids, existing))
  }

  /** A batch soft delete (the batch-remove handler): exactly the visible ids asked for become hidden. */
  function BatchTrashStep(rows: seq<TaskEntity>, trashed: set<string>, ids: seq<string>): (r: (set<string>, BatchResult))
    ensures r.1 == Partition(ids, Existing(rows, trashed, ids))
    ensures forall x :: x in r.0 <==> x in trashed || (x in ids && Present(rows, trashed, x))
  {
    if |ids| == 0 then (trashed, NoResult)
    else
      var existing := Existing(rows, trashed, ids);
      var after := if |existing| > 0 then Trashed(rows, trashed, IdSet(existing)) else trashed;
      (after, Partition(ids, existing))
  }

  /** After a batch soft delete no id of the batch is found any more. */
  lemma TrashedNotFound(rows: seq<TaskEntity>, trashed: set<string>, ids: seq<string>)
    ensures forall x :: x in ids ==> !Present(rows, BatchTrashStep(rows, trashed, ids).0, x)
  {
  }
}
