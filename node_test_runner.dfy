/**
 * The test runner: a first query of the raw compiled code for the bytes it
 * would process, then a query of the code with its upstreams substituted.
 */
module NodeTestRunner {
  import opened Wrappers
  import opened Exceptions
  import opened Manifest
  import opened DryRunResults
  import opened Literals
  import opened Warehouse

  /**
   * `NodeTestRunner.run`: an upstream failure is a FAILURE result with zero
   * bytes and nothing is sent; otherwise the compiled code is queried for
   * its byte count, then the substituted code, unchanged by any header or
   * wrap, for status, table and exception.
   */
  method Run(warehouse: SqlRunner, results: map<string, DryRunResult>, node: Node,
             replaceUpstreamSql: (string, seq<DryRunResult>) -> string) returns (r: Result<ByteCountedResult>)
    modifies warehouse
    ensures var inserted := Literals.InsertDependantSqlLiterals(node, results, replaceUpstreamSql);
      && (inserted.Err? && inserted.error.UpstreamFailed? ==>
            r == Ok(ByteCountedResult(NewResult(node, None, DryRunStatus.FAILURE, Some(inserted.error)), 0))
            && warehouse.log == old(warehouse.log))
      && (inserted.Err? && !inserted.error.UpstreamFailed? ==>
            r == Err(inserted.error) && warehouse.log == old(warehouse.log))
      && (inserted.Ok? ==>
            var second := warehouse.answer(inserted.value);
            && warehouse.log == old(warehouse.log) + [QueryCall(node.compiledCode), QueryCall(inserted.value)]
            && r == Ok(ByteCountedResult(NewResult(node, second.table, second.status, second.exception),
                                         warehouse.answer(node.compiledCode).totalBytesProcessed)))
  {
    var inserted := Literals.InsertDependantSqlLiterals(node, results, replaceUpstreamSql);
    if inserted.Err? {
      if inserted.error.UpstreamFailed? {
        return Ok(ByteCountedResult(NewResult(node, None, DryRunStatus.FAILURE, Some(inserted.error)), 0));
      }
      return Err(inserted.error);
    }
    var _, _, totalBytesProcessed, _ := warehouse.QueryWithBytes(node.compiledCode);
    var status, predictedTable, _, exception := warehouse.QueryWithBytes(inserted.value);
    return Ok(ByteCountedResult(NewResult(node, predictedTable, status, exception), totalBytesProcessed));
  }
}
