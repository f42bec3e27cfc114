/**
 * The source runner: no statement is dry run. An external source's schema
 * is built from its declared columns; any other source only has to exist
 * in the warehouse.
 */
module SourceRunner {
  import opened Wrappers
  import opened Exceptions
  import opened Schema
  import opened Manifest
  import opened DryRunResults
  import opened ColumnsMetadata
  import opened Warehouse

  /**
   * What `run` returns: an external source is SUCCESS with the table its
   * columns describe, or FAILURE with no table and the value error the
   * mapping raised; a source that exists is SUCCESS and one that does not
   * is FAILURE with a source-missing error, both with no table.
   */
  ghost function SourceOutcome(node: Node, exists_: bool): (r: DryRunResult)
    ensures r.node == node && r.lintingErrors == []
    ensures !IsExternalSource(node) ==> r.table.None?
    ensures !IsExternalSource(node) ==> (r.status == DryRunStatus.SUCCESS <==> exists_)
    ensures !IsExternalSource(node) && !exists_ ==> r.exception == Some(SourceMissing(node.uniqueId))
    ensures IsExternalSource(node) ==> (r.status == DryRunStatus.SUCCESS <==> ColumnFields(node.columns).Ok?)
    ensures IsExternalSource(node) && r.status == DryRunStatus.SUCCESS ==>
      r.table == Some(Table(ColumnFields(node.columns).value))
    ensures IsExternalSource(node) && r.status != DryRunStatus.SUCCESS ==>
      r.table.None? && r.exception == Some(ColumnFields(node.columns).error) && IsValueError(r.exception.value)
  {
    if IsExternalSource(node) then
      match ColumnFields(node.columns)
      case Ok(fields) => NewResult(node, Some(Table(fields)), DryRunStatus.SUCCESS, None)
      case Err(e) => NewResult(node, None, DryRunStatus.FAILURE, Some(e))
    else if exists_ then NewResult(node, None, DryRunStatus.SUCCESS, None)
    else NewResult(node, None, DryRunStatus.FAILURE, Some(SourceMissing(node.uniqueId)))
  }

  /**
   * `SourceRunner.run`: straight-line updates of the status, exception and
   * table; only a non-external source asks the warehouse whether it exists,
   * and no query is ever sent. Every error the column mapping raises is a
   * value error, so its `except ValueError` always applies.
   */
  method Run(warehouse: SqlRunner, node: Node) returns (r: DryRunResult)
    modifies warehouse
    ensures IsExternalSource(node) ==>
      warehouse.log == old(warehouse.log) && r == SourceOutcome(node, true)
    ensures !IsExternalSource(node) ==>
      warehouse.log == old(warehouse.log) + [ExistsCall(node.uniqueId)]
      && r == SourceOutcome(node, warehouse.nodeExists(node))
  {
    var exception: Option<Error> := None;
    var predictedTable: Option<Table> := None;
    var status := DryRunStatus.SUCCESS;
    if IsExternalSource(node) {
      var mapped := MapColumnsToTable(node.columns);
      if mapped.Err? {
        status := DryRunStatus.FAILURE;
        exception := Some(mapped.error);
      } else {
        predictedTable := Some(mapped.value);
      }
    } else {
      var found := warehouse.NodeExists(node);
      if !found {
        status := DryRunStatus.FAILURE;
        exception := Some(SourceMissing(node.uniqueId));
      }
    }
    return NewResult(node, predictedTable, status, exception);
  }

  /** No statement is dry run for a source: its calls never include a query. */
  lemma NoQueryForSources(log: seq<Call>, node: Node)
    ensures QueriesIn(log + [ExistsCall(node.uniqueId)]) == QueriesIn(log)
  {
    QueriesInAppend(log, [ExistsCall(node.uniqueId)]);
    assert QueriesIn([ExistsCall(node.uniqueId)]) == [];
  }
}
