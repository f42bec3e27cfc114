/**
 * The outcome of dry running one node: its predicted table, a status, the
 * exception that explains a failure, and the column-linting outcome.
 */
module DryRunResults {
  import opened Wrappers
  import opened Exceptions
  import opened Schema
  import opened Manifest

  datatype DryRunStatus = SUCCESS | FAILURE | SKIPPED

  datatype LintingStatus = SUCCESS | FAILURE | SKIPPED

  function StatusValue(s: DryRunStatus): string
  {
    match s
    case SUCCESS => "SUCCESS"
    case FAILURE => "FAILURE"
    case SKIPPED => "SKIPPED"
  }

  datatype LintingError = LintingError(rule: string, message: string)

  datatype DryRunResult = DryRunResult(
    node: Node,
    table: Option<Table>,
    status: DryRunStatus,
    exception: Option<Error>,
    lintingStatus: LintingStatus,
    lintingErrors: seq<LintingError>)

  /**
   * The result of a runner that also reports the bytes its first query would
   * process (the view and test runners).
   */
  datatype ByteCountedResult = ByteCountedResult(result: DryRunResult, totalBytesProcessed: int)

  /** `DryRunResult(node, table, status, exception)`: linting starts out SKIPPED with no errors. */
  function NewResult(node: Node, table: Option<Table>, status: DryRunStatus, exception: Option<Error>): (r: DryRunResult)
    ensures r.node == node && r.table == table && r.status == status && r.exception == exception
    ensures r.lintingStatus == LintingStatus.SKIPPED && r.lintingErrors == []
  {
    DryRunResult(node, table, status, exception, LintingStatus.SKIPPED, [])
  }

  /** `DryRunResult.replace_table`: a new result with the given table and the linting outcome dropped. */
  function ReplaceTable(r: DryRunResult, table: Table): (r': DryRunResult)
    ensures r'.node == r.node && r'.status == r.status && r'.exception == r.exception
    ensures r'.table == Some(table)
    ensures r'.lintingStatus == LintingStatus.SKIPPED && r'.lintingErrors == []
  {
    NewResult(r.node, Some(table), r.status, r.exception)
  }

  /** `DryRunResult.with_linting_errors`: linting fails exactly when there is an error. */
  function WithLintingErrors(r: DryRunResult, errors: seq<LintingError>): (r': DryRunResult)
    ensures r'.node == r.node && r'.table == r.table && r'.status == r.status && r'.exception == r.exception
    ensures r'.lintingErrors == errors
    ensures r'.lintingStatus == LintingStatus.FAILURE <==> |errors| > 0
    ensures r'.lintingStatus == LintingStatus.SUCCESS <==> |errors| == 0
  {
    var lintingStatus := if |errors| > 0 then LintingStatus.FAILURE else LintingStatus.SUCCESS;
    DryRunResult(r.node, r.table, r.status, r.exception, lintingStatus, errors)
  }

  /** Replacing the table forgets any earlier linting, and linting again forgets the earlier linting. */
  lemma LintingIsReplaced(r: DryRunResult, table: Table, e1: seq<LintingError>, e2: seq<LintingError>)
    ensures ReplaceTable(WithLintingErrors(r, e1), table) == ReplaceTable(r, table)
    ensures WithLintingErrors(WithLintingErrors(r, e1), e2) == WithLintingErrors(r, e2)
  {
  }
}
