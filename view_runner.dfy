/**
 * The view runner: a first query of the compiled code for the bytes it
 * would process, then a query creating the view from the rewritten code.
 */
module ViewRunner {
  import opened Wrappers
  import opened Exceptions
  import opened Strings
  import opened Manifest
  import opened DryRunResults
  import opened Literals
  import opened Statements
  import opened Warehouse
  import ModelRunner

  /** `_modify_sql`: the statement wrapped as a view named by the alias, then the header before it. */
  function ModifySql(node: Node, sql: string): (r: string)
    ensures !HasSqlHeader(node) ==> UnwrapView(AliasRef(node), r) == Some(sql)
    ensures HasSqlHeader(node) ==> r == node.config.sqlHeader.value + "\n" + WrapAsView(AliasRef(node), sql)
    ensures node.config.materialized == Some("view") ==> r == ModelRunner.ModifySql(node, sql)
  {
    var wrapped := "CREATE OR REPLACE VIEW " + BqLiteral(TableRef(node.database, node.dbSchema, node.alias))
                   + " AS (\n" + sql + "\n)";
    assert wrapped == WrapAsView(AliasRef(node), sql);
    ViewRoundTrip(AliasRef(node), sql);
    AddSqlHeader(wrapped, node)
  }

  /** The first statement: the compiled code with its header, with no substitution and no wrap. */
  function BytesSql(node: Node): (r: string)
    ensures EndsWith(r, node.compiledCode)
    ensures !HasSqlHeader(node) ==> r == node.compiledCode
  {
    AddSqlHeader(node.compiledCode, node)
  }

  /**
   * `ViewRunner.run`: an upstream failure is a FAILURE result with zero
   * bytes and nothing is sent; otherwise two queries, the first for its
   * byte count only and the second for status, table and exception.
   */
  method Run(warehouse: SqlRunner, results: map<string, DryRunResult>, node: Node,
             replaceUpstreamSql: (string, seq<DryRunResult>) -> string) returns (r: Result<ByteCountedResult>)
    modifies warehouse
    ensures var inserted := Literals.InsertDependantSqlLiterals(node, results, replaceUpstreamSql);
      && (inserted.Err? && inserted.error.UpstreamFailed? ==>
            r == Ok(ByteCountedResult(NewResult(node, None, DryRunStatus.FAILURE, Some(inserted.error)), 0))
            && warehouse.log == old(warehouse.log))
      && (inserted.Err? && !inserted.error.UpstreamFailed? ==>
            r == Err(inserted.error) && warehouse.log == old(warehouse.log))
      && (inserted.Ok? ==>
            var second := warehouse.answer(ModifySql(node, inserted.value));
            && warehouse.log == old(warehouse.log) + [QueryCall(BytesSql(node)), QueryCall(ModifySql(node, inserted.value))]
            && r == Ok(ByteCountedResult(NewResult(node, second.table, second.status, second.exception),
                                         warehouse.answer(BytesSql(node)).totalBytesProcessed)))
  {
    var inserted := Literals.InsertDependantSqlLiterals(node, results, replaceUpstreamSql);
    if inserted.Err? {
      if inserted.error.UpstreamFailed? {
        return Ok(ByteCountedResult(NewResult(node, None, DryRunStatus.FAILURE, Some(inserted.error)), 0));
      }
      return Err(inserted.error);
    }
    var _, _, totalBytesProcessed, _ := warehouse.QueryWithBytes(BytesSql(node));
    var runSql := ModifySql(node, inserted.value);
    var status, modelSchema, _, exception := warehouse.QueryWithBytes(runSql);
    return Ok(ByteCountedResult(NewResult(node, modelSchema, status, exception), totalBytesProcessed));
  }
}
