/**
 * `BatchUpdateStatusHandler.execute`: the batch status command, run inside a
 * unit of work. The partition is computed with `map`/`filter`; one UPDATE
 * is issued for the ids found.
 */
module BatchUpdateStatusHandler {
  import opened TaskDomain
  import opened TaskTable
  import opened TaskBatch

  datatype BatchUpdateStatusCommand = BatchUpdateStatusCommand(ids: seq<string>, status: TaskStatus)

  method Execute(table: Table, cmd: BatchUpdateStatusCommand, now: int) returns (b: BatchResult)
    requires table.Valid()
    modifies table`rows
    ensures table.Valid()
    ensures (table.rows, b) == BatchStatusStep(old(table.rows), table.trashed, cmd.ids, cmd.status, now)
  {
    if |cmd.ids| == 0 {
      return NoResult;
    }
    var existingIds := Existing(table.rows, table.trashed, cmd.ids);
    var missing := Missing(cmd.ids, existingIds);
    if |existingIds| > 0 {
      var _ := table.UpdateStatusWhereIn(IdSet(existingIds), cmd.status, now);
    }
    b := BatchResult(existingIds, Failures(missing));
  }
}
