/**
 * `BatchRemoveHandler.execute`: the batch remove command, run inside a unit
 * of work. The partition is computed with `map`/`filter`; the ids found are
 * soft-deleted in one statement.
 *
 * `softDelete` needs a delete-date column, and the `Task` entity declares
 * none, so TypeORM refuses the statement; `ExecuteAsWritten` states that,
 * and `Execute` the soft delete the handler evidently means, on a table
 * with the column.
 */
module BatchRemoveHandler {
  import opened Wrappers
  import opened TaskMapper
  import opened TaskTable
  import opened TaskBatch

  datatype BatchRemoveCommand = BatchRemoveCommand(ids: seq<string>)

  /** TypeORM's `MissingDeleteDateColumnError`; the unit of work rolls back and rethrows it. */
  datatype HandlerError = MissingDeleteDateColumn

  /**
   * The handler as written, on the `Task` entity without a delete-date
   * column: once some id is found, `softDelete` throws and nothing is
   * hidden; a batch that finds nothing issues no statement and succeeds.
   */
  function ExecuteAsWritten(rows: seq<TaskEntity>, trashed: set<string>, ids: seq<string>)
    : (r: Result<(set<string>, BatchResult), HandlerError>)
    ensures r.Err? <==> exists x :: x in ids && Present(rows, trashed, x)
    ensures r.Ok? ==> r.value == (trashed, Partition(ids, Existing(rows, trashed, ids)))
  {
    if |ids| == 0 then Ok((trashed, NoResult))
    else
      var existing := Existing(rows, trashed, ids);
      if |existing| > 0 then
        assert existing[0] in existing;
        Err(MissingDeleteDateColumn)
      else
        Ok((trashed, Partition(ids, existing)))
  }

  /**
   * The handler as written fails exactly on the batches the intended soft
   * delete would hide something for; it never hides a row.
   */
  lemma AsWrittenFailsWhereSoftDeleteActs(rows: seq<TaskEntity>, trashed: set<string>, ids: seq<string>)
    ensures ExecuteAsWritten(rows, trashed, ids).Err? <==> BatchTrashStep(rows, trashed, ids).0 != trashed
    ensures ExecuteAsWritten(rows, trashed, ids).Ok? ==>
      ExecuteAsWritten(rows, trashed, ids).value == BatchTrashStep(rows, trashed, ids)
  {
    var after := BatchTrashStep(rows, trashed, ids).0;
    if ExecuteAsWritten(rows, trashed, ids).Err? {
      var x :| x in ids && Present(rows, trashed, x);
      assert x in after && x !in trashed;
    }
    if after != trashed {
      var x :| x in after && x !in trashed;
      assert x in ids && Present(rows, trashed, x);
    }
  }

  /**
   * A one-row example of `AsWrittenFailsWhereSoftDeleteActs`, on the sequence a
   * soft delete is meant for: remove task `a` in a batch, then
   * delete it by id. As written the batch throws and the row is still
   * there to delete; with a delete-date column the batch succeeds.
   */
  lemma OneRowAsWrittenVsCorrected(t: TaskEntity)
    ensures ExecuteAsWritten([t], {}, [t.id]) == Err(MissingDeleteDateColumn)
    ensures Stored([t], t.id)
    ensures BatchTrashStep([t], {}, [t.id]) == ({t.id}, BatchResult([t.id], []))
  {
    assert Present([t], {}, t.id) by {
      assert t in [t];
    }
    assert Existing([t], {}, [t.id]) == [t.id];
    assert Missing([t.id], [t.id]) == [];
    assert Failures([]) == [];
    assert Trashed([t], {}, IdSet([t.id])) == {t.id};
  }

  /** The handler on a table with a delete-date column. */
  method Execute(table: Table, cmd: BatchRemoveCommand) returns (b: BatchResult)
    modifies table`trashed
    ensures table.rows == old(table.rows)
    ensures (table.trashed, b) == BatchTrashStep(table.rows, old(table.trashed), cmd.ids)
  {
    if |cmd.ids| == 0 {
      return NoResult;
    }
    var existingIds := Existing(table.rows, table.trashed, cmd.ids);
    var missing := Missing(cmd.ids, existingIds);
    if |existingIds| > 0 {
      table.SoftDeleteWhereIn(IdSet(existingIds));
    }
    b := BatchResult(existingIds, Failures(missing));
  }
}
