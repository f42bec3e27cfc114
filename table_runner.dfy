/** The table runner: one dry-run query of the statement with its header. */
module TableRunner {
  import opened Wrappers
  import opened Exceptions
  import opened Strings
  import opened Manifest
  import opened DryRunResults
  import opened Literals
  import opened Statements
  import opened Warehouse
  import ModelRunner

  /** `_modify_sql`: the header, if the node has a non-empty one, on its own line before the statement. */
  function ModifySql(node: Node, sql: string): (r: string)
    ensures HasSqlHeader(node) ==> r == node.config.sqlHeader.value + "\n" + sql
    ensures !HasSqlHeader(node) ==> r == sql
    ensures node.config.materialized == Some("table") ==> r == ModelRunner.ModifySql(node, sql)
  {
    if node.config.sqlHeader.Some? && node.config.sqlHeader.value != "" then
      node.config.sqlHeader.value + "\n" + sql
    else sql
  }

  /**
   * `TableRunner.run`: an upstream failure is a FAILURE result and nothing
   * is sent to the warehouse; otherwise exactly one query, of the statement
   * with its header, whose status, table and exception the result carries.
   */
  method Run(warehouse: SqlRunner, results: map<string, DryRunResult>, node: Node,
             replaceUpstreamSql: (string, seq<DryRunResult>) -> string) returns (r: Result<DryRunResult>)
    modifies warehouse
    ensures var inserted := Literals.InsertDependantSqlLiterals(node, results, replaceUpstreamSql);
      && (inserted.Err? && inserted.error.UpstreamFailed? ==>
            r == Ok(NewResult(node, None, DryRunStatus.FAILURE, Some(inserted.error)))
            && warehouse.log == old(warehouse.log))
      && (inserted.Err? && !inserted.error.UpstreamFailed? ==>
            r == Err(inserted.error) && warehouse.log == old(warehouse.log))
      && (inserted.Ok? ==>
            var response := warehouse.answer(ModifySql(node, inserted.value));
            && warehouse.log == old(warehouse.log) + [QueryCall(ModifySql(node, inserted.value))]
            && r == Ok(NewResult(node, response.table, response.status, response.exception)))
  {
    var inserted := Literals.InsertDependantSqlLiterals(node, results, replaceUpstreamSql);
    if inserted.Err? {
      if inserted.error.UpstreamFailed? {
        return Ok(NewResult(node, None, DryRunStatus.FAILURE, Some(inserted.error)));
      }
      return Err(inserted.error);
    }
    var runSql := ModifySql(node, inserted.value);
    var status, modelSchema, exception := warehouse.Query(runSql);
    return Ok(NewResult(node, modelSchema, status, exception));
  }
}
