/**
 * The abstract warehouse (`SQLRunner`) that the node runners dry run their
 * statements against. What the warehouse answers is given by three oracle
 * functions fixed when it is built; a ghost log records every call a runner
 * makes, in order, so that the runners' contracts can say which statements
 * they sent and how many.
 */
module Warehouse {
  import opened Wrappers
  import opened Exceptions
  import opened Schema
  import opened Manifest
  import opened DryRunResults

  /**
   * The warehouse's answer to one dry-run query: a status, the predicted
   * table, the bytes the query would process and the exception it reported.
   * The three-part `query` leaves out the byte count.
   */
  datatype QueryResponse = QueryResponse(
    status: DryRunStatus,
    table: Option<Table>,
    totalBytesProcessed: int,
    exception: Option<Error>)

  /** One call on the warehouse. */
  datatype Call = QueryCall(sql: string) | SchemaCall(nodeId: string) | ExistsCall(nodeId: string)

  /** The statements sent as dry-run queries, in order. */
  function QueriesIn(log: seq<Call>): (r: seq<string>)
    ensures |r| <= |log|
    ensures forall s :: s in r <==> QueryCall(s) in log
  {
    if log == [] then []
    else
      var rest := QueriesIn(log[1..]);
      assert forall c :: c in log <==> c == log[0] || c in log[1..];
      if log[0].QueryCall? then [log[0].sql] + rest else rest
  }

  /** Dry-run queries sent one after another are logged one after another. */
  lemma {:induction false} QueriesInAppend(a: seq<Call>, b: seq<Call>)
    ensures QueriesIn(a + b) == QueriesIn(a) + QueriesIn(b)
    decreases |a|
  {
    if a == [] {
      assert a + b == b;
    } else {
      assert (a + b)[0] == a[0];
      assert (a + b)[1..] == a[1..] + b;
      QueriesInAppend(a[1..], b);
    }
  }

  class SqlRunner {
    /** What a dry run of each statement returns. */
    const answer: string -> QueryResponse
    /** `get_node_schema`: the table the node currently has in the warehouse, if any. */
    const schemaOf: Node -> Option<Table>
    /** `node_exists`: whether the node's table exists in the warehouse. */
    const nodeExists: Node -> bool
    /** Every call made so far, oldest first. */
    ghost var log: seq<Call>

    constructor (answer: string -> QueryResponse, schemaOf: Node -> Option<Table>, nodeExists: Node -> bool)
      ensures this.answer == answer && this.schemaOf == schemaOf && this.nodeExists == nodeExists
      ensures log == []
    {
      this.answer := answer;
      this.schemaOf := schemaOf;
      this.nodeExists := nodeExists;
      log := [];
    }

    /** `query`, the three-part form: status, predicted table and exception. */
    method Query(sql: string) returns (status: DryRunStatus, table: Option<Table>, exception: Option<Error>)
      modifies this
      ensures log == old(log) + [QueryCall(sql)]
      ensures status == answer(sql).status && table == answer(sql).table && exception == answer(sql).exception
    {
      var response := answer(sql);
      log := log + [QueryCall(sql)];
      status, table, exception := response.status, response.table, response.exception;
    }

    /** `query`, the four-part form that the view and test runners read, with the bytes processed. */
    method QueryWithBytes(sql: string) returns (status: DryRunStatus, table: Option<Table>, bytes: int, exception: Option<Error>)
      modifies this
      ensures log == old(log) + [QueryCall(sql)]
      ensures status == answer(sql).status && table == answer(sql).table
      ensures bytes == answer(sql).totalBytesProcessed && exception == answer(sql).exception
    {
      var response := answer(sql);
      log := log + [QueryCall(sql)];
      status, table, bytes, exception := response.status, response.table, response.totalBytesProcessed, response.exception;
    }

    /** `get_node_schema`. */
    method GetNodeSchema(node: Node) returns (t: Option<Table>)
      modifies this
      ensures log == old(log) + [SchemaCall(node.uniqueId)]
      ensures t == schemaOf(node)
    {
      log := log + [SchemaCall(node.uniqueId)];
      t := schemaOf(node);
    }

    /** `node_exists`. */
    method NodeExists(node: Node) returns (b: bool)
      modifies this
      ensures log == old(log) + [ExistsCall(node.uniqueId)]
      ensures b == nodeExists(node)
    {
      log := log + [ExistsCall(node.uniqueId)];
      b := nodeExists(node);
    }
  }
}
