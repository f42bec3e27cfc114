/**
 * The exceptions the dry runner raises or records in a result, as one error
 * datatype. A raised exception that propagates to the caller is an `Err` of
 * `Result`; an exception that is caught and stored in a result is a value of
 * `Error` held in an `Option`.
 */
module Exceptions {
  /** An upstream whose result was not SUCCESS: its id and its status, as printed. */
  datatype FailedUpstream = FailedUpstream(uniqueId: string, status: string)

  datatype Error =
    | NotCompiled(nodeId: string)
    | UpstreamFailed(nodeId: string, failed: seq<FailedUpstream>)
    | NodeExecution(nodeId: string, cause: Error)
    | SchemaChange(added: set<string>, removed: set<string>)
    | SnapshotConfig(missing: string)
    | ManifestValidation(failingNodes: seq<string>)
    | SourceMissing(nodeId: string)
    | UnknownSchema(nodeId: string, column: string)
    | InvalidColumnSpecification(detail: string)
    | UnknownDataType(detail: string)
      /** An exception the warehouse reported for a dry-run query. */
    | Warehouse(message: string)
    | KeyError(key: string)
    | ValueError(detail: string)
    | RuntimeError(detail: string)

  /**
   * `InvalidColumnSpecification` and `UnknownDataTypeException` are value
   * errors: the source runner catches them with `except ValueError`.
   */
  predicate IsValueError(e: Error)
  {
    e.ValueError? || e.InvalidColumnSpecification? || e.UnknownDataType?
  }

  datatype Result<T> = Ok(value: T) | Err(error: Error)
  {
    predicate IsFailure() { Err? }
  }
}
