/**
 * The incremental runner: the statement is preprocessed (literals, header,
 * `_dbt_max_partition` declaration) and dry run; unless the model is being
 * fully refreshed, the existing table is read, a MERGE into it is dry run to
 * check that the shared columns' types agree, and the on-schema-change
 * handler reconciles the two schemas; a time-ingestion partitioned model
 * finally gains the `_PARTITIONTIME` column.
 */
module IncrementalRunner {
  import opened Wrappers
  import opened Exceptions
  import opened Seqs
  import opened Strings
  import opened Schema
  import opened Manifest
  import opened DryRunResults
  import opened Literals
  import opened Parsing
  import opened Statements
  import opened SchemaChangeHandlers
  import opened Warehouse

  /** The preprocessor's steps: upstream literals, then the header, then the declaration. */
  const Steps: seq<Step> := [InsertLiterals, SqlHeader, MaxPartition]

  /**
   * The preprocessed statement: the literal step's output with the header
   * and then the declaration put in front of it, or the literal step's error.
   */
  lemma PreprocessSteps(node: Node, results: map<string, DryRunResult>, substitute: Substitute)
    ensures var inserted := InsertLiteralsStep(node.compiledCode, node, results, substitute);
      Preprocess(Steps, node.compiledCode, node, results, substitute) ==
        if inserted.Err? then Err(inserted.error)
        else Ok(AddDbtMaxPartitionDeclaration(AddSqlHeader(inserted.value, node), node))
  {
    assert Steps == [InsertLiterals] + [SqlHeader, MaxPartition];
    var inserted := InsertLiteralsStep(node.compiledCode, node, results, substitute);
    if inserted.Ok? {
      HeaderThenDeclaration(inserted.value, node, results, substitute);
    }
  }

  /** The last two steps never raise: the header, then the declaration. */
  lemma HeaderThenDeclaration(sql: string, node: Node, results: map<string, DryRunResult>, substitute: Substitute)
    ensures Preprocess([SqlHeader, MaxPartition], sql, node, results, substitute)
            == Ok(AddDbtMaxPartitionDeclaration(AddSqlHeader(sql, node), node))
  {
    var headed := AddSqlHeader(sql, node);
    assert [SqlHeader, MaxPartition][1..] == [MaxPartition];
    assert [MaxPartition][1..] == [];
    assert Preprocess([MaxPartition], headed, node, results, substitute)
        == Ok(AddDbtMaxPartitionDeclaration(headed, node));
  }

  /** With a header and a declaration to add, the declaration comes first, then the header. */
  lemma DeclarationPrecedesHeader(node: Node, results: map<string, DryRunResult>, substitute: Substitute)
    requires HasSqlHeader(node) && NeedsMaxPartition(node)
    requires InsertLiteralsStep(node.compiledCode, node, results, substitute).Ok?
    ensures Preprocess(Steps, node.compiledCode, node, results, substitute) ==
      Ok(MaxPartitionDeclaration(node.config.partitionBy.value) + "\n"
         + (node.config.sqlHeader.value + "\n" + InsertLiteralsStep(node.compiledCode, node, results, substitute).value))
  {
    PreprocessSteps(node, results, substitute);
  }

  // ---------------------------------------------------------------------------
  // The merge check

  /** What the merge check does: nothing, raise, or dry run a MERGE statement. */
  datatype MergePlan = Skip | Raise(error: Error) | Check(sql: string)

  /**
   * The merge check is skipped without a predicted table, for code with a
   * recursive CTE and when no column name is shared; a predicted table with
   * no literal raises; otherwise the MERGE of the table's literal into the
   * node's table over the shared names is dry run.
   */
  ghost function PlanMerge(node: Node, initial: DryRunResult, target: Table, values: ExampleValues): (p: MergePlan)
    ensures p.Skip? <==> initial.table.None? || WithRecursive(CodeTokens(node.compiledCode))
                         || CommonFieldNames(initial.table.value, target) == {}
    ensures p.Raise? ==> initial.table.Some? && TableLiteral(values, initial.table.value).Err?
                         && p.error == TableLiteral(values, initial.table.value).error
    ensures p.Check? ==> initial.table.Some? && TableLiteral(values, initial.table.value).Ok?
    ensures p.Check? ==> var common := SortedSet(CommonFieldNames(initial.table.value, target));
      && common != []
      && p.sql == MergeSql(TableRefOf(node), common, TableLiteral(values, initial.table.value).value)
  {
    if initial.table.None? || WithRecursive(CodeTokens(node.compiledCode)) then Skip
    else
      var common := CommonFieldNames(initial.table.value, target);
      if common == {} then Skip
      else
        var literal := TableLiteral(values, initial.table.value);
        if literal.Err? then Raise(literal.error)
        else
          var names := SortedSet(common);
          assert names != [] by {
            var n :| n in common;
            assert n in names;
          }
          Check(MergeSql(TableRefOf(node), names, literal.value))
  }

  /** A run of part of the runner: what it returns and the calls it makes on the warehouse. */
  datatype Outcome = Outcome(result: Result<DryRunResult>, calls: seq<Call>)

  /** The merge check's outcome: a failed MERGE keeps its status and exception and drops the table. */
  ghost function MergeOutcome(node: Node, initial: DryRunResult, target: Table, values: ExampleValues,
                              answer: string -> QueryResponse): (o: Outcome)
    ensures |o.calls| <= 1
    ensures o.result.Ok? && o.result.value != initial ==>
      && o.result.value.table.None?
      && o.result.value.status != DryRunStatus.SUCCESS
      && o.calls != [] && o.calls[0].QueryCall?
      && o.result.value == NewResult(node, None, answer(o.calls[0].sql).status, answer(o.calls[0].sql).exception)
    ensures o.result.Err? ==> o.calls == []
  {
    match PlanMerge(node, initial, target, values)
    case Skip => Outcome(Ok(initial), [])
    case Raise(e) => Outcome(Err(e), [])
    case Check(sql) =>
      var response := answer(sql);
      if response.status == DryRunStatus.SUCCESS then Outcome(Ok(initial), [QueryCall(sql)])
      else Outcome(Ok(NewResult(node, None, response.status, response.exception)), [QueryCall(sql)])
  }

  /** `_verify_merge_type_compatibility`. */
  method VerifyMerge(warehouse: SqlRunner, node: Node, initial: DryRunResult, target: Table, values: ExampleValues)
    returns (r: Result<DryRunResult>)
    modifies warehouse
    ensures r == MergeOutcome(node, initial, target, values, warehouse.answer).result
    ensures warehouse.log == old(warehouse.log) + MergeOutcome(node, initial, target, values, warehouse.answer).calls
  {
    ghost var plan := PlanMerge(node, initial, target, values);
    if initial.table.None? {
      assert plan.Skip?;
      return Ok(initial);
    }
    var recursive := SqlHasRecursiveCtes(node.compiledCode);
    if recursive {
      assert plan.Skip?;
      return Ok(initial);
    }
    var common := CommonFieldNames(initial.table.value, target);
    if common == {} {
      assert plan.Skip?;
      return Ok(initial);
    }
    var selectLiteral := TableLiteral(values, initial.table.value);
    if selectLiteral.Err? {
      assert plan == Raise(selectLiteral.error);
      return Err(selectLiteral.error);
    }
    var names := SetToSeq(common);
    DistinctSameElements(names, SortedSet(common));
    MergeSqlColumnOrder(TableRefOf(node), names, SortedSet(common), selectLiteral.value);
    assert plan == Check(MergeSql(TableRefOf(node), names, selectLiteral.value));
    var status, _, exception := warehouse.Query(MergeSql(TableRefOf(node), names, selectLiteral.value));
    if status == DryRunStatus.SUCCESS {
      return Ok(initial);
    }
    return Ok(NewResult(node, None, status, exception));
  }

  // ---------------------------------------------------------------------------
  // The ingestion-time partition column

  /** The column a time-ingestion partitioned table is given. */
  const PartitionTimeField := TableField("_PARTITIONTIME", TIMESTAMP, Some(NULLABLE), NoFields, None)

  /**
   * `_replace_partition_with_time_ingestion_column`: with a table and a
   * partitioning, the table's fields unchanged followed by `_PARTITIONTIME`.
   */
  function ReplacePartition(r: DryRunResult): (r': DryRunResult)
    ensures r.table.None? || r.node.config.partitionBy.None? ==> r' == r
    ensures r.table.Some? && r.node.config.partitionBy.Some? ==>
      && r'.table.Some?
      && |r'.table.value.fields| == |r.table.value.fields| + 1
      && r'.table.value.fields[..|r.table.value.fields|] == r.table.value.fields
      && r'.table.value.fields[|r.table.value.fields|] == PartitionTimeField
      && r'.node == r.node && r'.status == r.status && r'.exception == r.exception
  {
    if r.table.None? || r.node.config.partitionBy.None? then r
    else
      var finalFields := r.table.value.fields + [PartitionTimeField];
      ReplaceTable(r, Table(finalFields))
  }

  /** The partition column adds its one name to the table's names. */
  lemma PartitionColumnNames(r: DryRunResult)
    requires r.table.Some? && r.node.config.partitionBy.Some?
    ensures FieldNames(ReplacePartition(r).table.value) == FieldNames(r.table.value) + {"_PARTITIONTIME"}
  {
    var fs := r.table.value.fields;
    assert ReplacePartition(r).table.value == Table(fs + [PartitionTimeField]);
    NamesOfSnoc(fs, PartitionTimeField);
  }

  /** One more field adds its one name. */
  lemma NamesOfSnoc(fs: seq<TableField>, f: TableField)
    ensures FieldNames(Table(fs + [f])) == FieldNames(Table(fs)) + {f.name}
  {
    NamesOfConcat(fs, [f]);
    assert NamesOf([f]) == {f.name};
  }

  // ---------------------------------------------------------------------------
  // The run

  /** The last step of a run: a successful time-ingestion partitioned result gains the partition column. */
  function Finish(node: Node, r: DryRunResult): DryRunResult
  {
    if r.status == DryRunStatus.SUCCESS && IsTimeIngestionPartitioned(node) then ReplacePartition(r) else r
  }

  /** The schema reconciliation after a merge check that did not raise: only a successful result is handled. */
  function Reconcile(node: Node, merged: DryRunResult, target: Table): (r: DryRunResult)
    ensures merged.status != DryRunStatus.SUCCESS ==> r == merged
    ensures merged.status == DryRunStatus.SUCCESS ==>
      r == ApplyHandler(node.config.onSchemaChange.GetOr(IGNORE), merged, target)
  {
    if merged.status == DryRunStatus.SUCCESS
    then ApplyHandler(node.config.onSchemaChange.GetOr(IGNORE), merged, target)
    else merged
  }

  /** The merge check as a function of the first result and the existing table. */
  type MergeCheck = (DryRunResult, Table) -> Outcome

  /** `merge` is the merge check of `node` against a warehouse answering `answer`. */
  ghost predicate ChecksMerge(merge: MergeCheck, node: Node, values: ExampleValues, answer: string -> QueryResponse)
  {
    forall first, target {:trigger MergeOutcome(node, first, target, values, answer)} ::
      merge(first, target) == MergeOutcome(node, first, target, values, answer)
  }

  /** The merge check of `node`, first result and existing table left open. */
  ghost function MergeOf(node: Node, values: ExampleValues, answer: string -> QueryResponse): (merge: MergeCheck)
    ensures ChecksMerge(merge, node, values, answer)
  {
    (first, target) => MergeOutcome(node, first, target, values, answer)
  }

  /**
   * The checks against the existing table after a first query: for a
   * success that is not fully refreshed, the existing table is read and, if
   * there is one, the merge check and the schema reconciliation run.
   */
  ghost function TargetOutcome(schemaOf: Node -> Option<Table>, node: Node, first: DryRunResult,
                               globalFullRefresh: bool, merge: MergeCheck): (o: Outcome)
  {
    if first.status == DryRunStatus.SUCCESS && !ShouldFullRefresh(node, globalFullRefresh) then
      match schemaOf(node)
      case None => Outcome(Ok(first), [SchemaCall(node.uniqueId)])
      case Some(target) =>
        var checked := merge(first, target);
        match checked.result
        case Err(e) => Outcome(Err(e), [SchemaCall(node.uniqueId)] + checked.calls)
        case Ok(merged) => Outcome(Ok(Reconcile(node, merged, target)), [SchemaCall(node.uniqueId)] + checked.calls)
    else
      Outcome(Ok(first), [])
  }

  /** What `run` does with the preprocessed statement: the query, the checks and the partition column. */
  ghost function QueryOutcome(answer: string -> QueryResponse, schemaOf: Node -> Option<Table>, node: Node,
                              sql: string, globalFullRefresh: bool, merge: MergeCheck): (o: Outcome)
  {
    var response := answer(sql);
    var first := NewResult(node, response.table, response.status, response.exception);
    var checked := TargetOutcome(schemaOf, node, first, globalFullRefresh, merge);
    var result := match checked.result
      case Err(e) => Err(e)
      case Ok(r) => Ok(Finish(node, r));
    Outcome(result, [QueryCall(sql)] + checked.calls)
  }

  /** `IncrementalRunner.run` as a function of what the warehouse answers. */
  ghost function RunOutcome(answer: string -> QueryResponse, schemaOf: Node -> Option<Table>,
                            results: map<string, DryRunResult>, node: Node, substitute: Substitute,
                            values: ExampleValues, globalFullRefresh: bool): (o: Outcome)
  {
    var pre := Preprocess(Steps, node.compiledCode, node, results, substitute);
    if pre.Err? then
      if pre.error.UpstreamFailed? then Outcome(Ok(NewResult(node, None, DryRunStatus.FAILURE, Some(pre.error))), [])
      else Outcome(Err(pre.error), [])
    else
      QueryOutcome(answer, schemaOf, node, pre.value, globalFullRefresh, MergeOf(node, values, answer))
  }

  /** `IncrementalRunner.run`, proved to make the calls and return the result of `RunOutcome`. */
  method Run(warehouse: SqlRunner, results: map<string, DryRunResult>, node: Node, substitute: Substitute,
             values: ExampleValues, globalFullRefresh: bool) returns (r: Result<DryRunResult>)
    modifies warehouse
    ensures var o := RunOutcome(warehouse.answer, warehouse.schemaOf, results, node, substitute,
                                values, globalFullRefresh);
      r == o.result && warehouse.log == old(warehouse.log) + o.calls
  {
    var preprocessor := new SqlPreprocessor(Steps);
    var runSql := preprocessor.Call(node, results, substitute);
    if runSql.Err? {
      if runSql.error.UpstreamFailed? {
        return Ok(NewResult(node, None, DryRunStatus.FAILURE, Some(runSql.error)));
      }
      return Err(runSql.error);
    }
    r := QueryAndCheck(warehouse, node, runSql.value, values, globalFullRefresh, MergeOf(node, values, warehouse.answer));
  }

  /** The part of `run` from the first query on. */
  method QueryAndCheck(warehouse: SqlRunner, node: Node, runSql: string, values: ExampleValues,
                       globalFullRefresh: bool, ghost merge: MergeCheck) returns (r: Result<DryRunResult>)
    requires ChecksMerge(merge, node, values, warehouse.answer)
    modifies warehouse
    ensures var o := QueryOutcome(warehouse.answer, warehouse.schemaOf, node, runSql, globalFullRefresh, merge);
      r == o.result && warehouse.log == old(warehouse.log) + o.calls
  {
    var status, modelSchema, exception := warehouse.Query(runSql);
    var result := NewResult(node, modelSchema, status, exception);
    ghost var checked := TargetOutcome(warehouse.schemaOf, node, result, globalFullRefresh, merge);
    var checkedResult := CheckAgainstTarget(warehouse, node, result, values, globalFullRefresh, merge);
    assert warehouse.log == old(warehouse.log) + ([QueryCall(runSql)] + checked.calls);
    if checkedResult.Err? {
      return Err(checkedResult.error);
    }
    result := checkedResult.value;
    if result.status == DryRunStatus.SUCCESS && IsTimeIngestionPartitioned(node) {
      result := ReplacePartition(result);
    }
    return Ok(result);
  }

  /** The part of `run` that reads the existing table, checks the MERGE and applies the handler. */
  method CheckAgainstTarget(warehouse: SqlRunner, node: Node, first: DryRunResult, values: ExampleValues,
                            globalFullRefresh: bool, ghost merge: MergeCheck) returns (r: Result<DryRunResult>)
    requires ChecksMerge(merge, node, values, warehouse.answer)
    modifies warehouse
    ensures var o := TargetOutcome(warehouse.schemaOf, node, first, globalFullRefresh, merge);
      r == o.result && warehouse.log == old(warehouse.log) + o.calls
  {
    r := Ok(first);
    if first.status == DryRunStatus.SUCCESS && !ShouldFullRefresh(node, globalFullRefresh) {
      var targetTable := warehouse.GetNodeSchema(node);
      if targetTable.Some? {
        r := MergeAndReconcile(warehouse, node, first, targetTable.value, values, merge);
        assert warehouse.log == old(warehouse.log) + ([SchemaCall(node.uniqueId)] + merge(first, targetTable.value).calls);
      }
    }
  }

  /** The merge check against an existing table, then the on-schema-change handler on a success. */
  method MergeAndReconcile(warehouse: SqlRunner, node: Node, first: DryRunResult, target: Table,
                           values: ExampleValues, ghost merge: MergeCheck) returns (r: Result<DryRunResult>)
    requires ChecksMerge(merge, node, values, warehouse.answer)
    modifies warehouse
    ensures var checked := merge(first, target);
      && warehouse.log == old(warehouse.log) + checked.calls
      && r == (if checked.result.Err? then Err(checked.result.error) else Ok(Reconcile(node, checked.result.value, target)))
  {
    var merged := VerifyMerge(warehouse, node, first, target, values);
    if merged.Err? {
      return Err(merged.error);
    }
    var result := merged.value;
    var onSchemaChange := node.config.onSchemaChange.GetOr(IGNORE);
    if result.status == DryRunStatus.SUCCESS {
      result := ApplyHandler(onSchemaChange, result, target);
    }
    return Ok(result);
  }

  // ---------------------------------------------------------------------------
  // Properties of a run

  /** The checks against the existing table dry run at most one statement, the MERGE. */
  lemma TargetMakesAtMostOneQuery(schemaOf: Node -> Option<Table>, node: Node, first: DryRunResult,
                                  globalFullRefresh: bool, merge: MergeCheck)
    requires forall f, t :: |merge(f, t).calls| <= 1
    ensures |QueriesIn(TargetOutcome(schemaOf, node, first, globalFullRefresh, merge).calls)| <= 1
  {
    if first.status == DryRunStatus.SUCCESS && !ShouldFullRefresh(node, globalFullRefresh) && schemaOf(node).Some? {
      var checked := merge(first, schemaOf(node).value);
      QueriesInAppend([SchemaCall(node.uniqueId)], checked.calls);
      assert QueriesIn([SchemaCall(node.uniqueId)]) == [];
    }
  }

  /** At most two dry-run queries: the statement and the MERGE. */
  lemma AtMostTwoQueries(answer: string -> QueryResponse, schemaOf: Node -> Option<Table>,
                         results: map<string, DryRunResult>, node: Node, substitute: Substitute,
                         values: ExampleValues, globalFullRefresh: bool)
    ensures |QueriesIn(RunOutcome(answer, schemaOf, results, node, substitute, values, globalFullRefresh).calls)| <= 2
  {
    var pre := Preprocess(Steps, node.compiledCode, node, results, substitute);
    if pre.Ok? {
      var merge := MergeOf(node, values, answer);
      forall f, t ensures |merge(f, t).calls| <= 1 {
        assert merge(f, t) == MergeOutcome(node, f, t, values, answer);
      }
      var first := NewResult(node, answer(pre.value).table, answer(pre.value).status, answer(pre.value).exception);
      var checked := TargetOutcome(schemaOf, node, first, globalFullRefresh, merge);
      TargetMakesAtMostOneQuery(schemaOf, node, first, globalFullRefresh, merge);
      QueriesInAppend([QueryCall(pre.value)], checked.calls);
    }
  }

  /** An upstream failure is a FAILURE result with no table, and no call is made. */
  lemma UpstreamFailureMakesNoCall(answer: string -> QueryResponse, schemaOf: Node -> Option<Table>,
                                   results: map<string, DryRunResult>, node: Node, substitute: Substitute,
                                   values: ExampleValues, globalFullRefresh: bool)
    requires InsertLiteralsStep(node.compiledCode, node, results, substitute).Err?
    requires InsertLiteralsStep(node.compiledCode, node, results, substitute).error.UpstreamFailed?
    ensures var o := RunOutcome(answer, schemaOf, results, node, substitute, values, globalFullRefresh);
      && o.calls == []
      && o.result.Ok? && o.result.value.status == DryRunStatus.FAILURE && o.result.value.table.None?
      && o.result.value.exception == Some(InsertLiteralsStep(node.compiledCode, node, results, substitute).error)
  {
    PreprocessSteps(node, results, substitute);
  }

  /** A failed first query or a full refresh never reads the existing table: one query and nothing else. */
  lemma NoTargetLookup(answer: string -> QueryResponse, schemaOf: Node -> Option<Table>,
                       results: map<string, DryRunResult>, node: Node, substitute: Substitute,
                       values: ExampleValues, globalFullRefresh: bool)
    requires Preprocess(Steps, node.compiledCode, node, results, substitute).Ok?
    requires var sql := Preprocess(Steps, node.compiledCode, node, results, substitute).value;
      answer(sql).status != DryRunStatus.SUCCESS || ShouldFullRefresh(node, globalFullRefresh)
    ensures var sql := Preprocess(Steps, node.compiledCode, node, results, substitute).value;
      var o := RunOutcome(answer, schemaOf, results, node, substitute, values, globalFullRefresh);
      && o.calls == [QueryCall(sql)]
      && o.result == Ok(Finish(node, NewResult(node, answer(sql).table, answer(sql).status, answer(sql).exception)))
  {
  }

  /** A MERGE that fails gives its status and exception with no table; no handler and no partition column follow. */
  lemma FailedMergeIsFinal(answer: string -> QueryResponse, schemaOf: Node -> Option<Table>,
                           results: map<string, DryRunResult>, node: Node, substitute: Substitute,
                           values: ExampleValues, globalFullRefresh: bool)
    requires Preprocess(Steps, node.compiledCode, node, results, substitute).Ok?
    requires var sql := Preprocess(Steps, node.compiledCode, node, results, substitute).value;
      var first := NewResult(node, answer(sql).table, answer(sql).status, answer(sql).exception);
      && answer(sql).status == DryRunStatus.SUCCESS && !ShouldFullRefresh(node, globalFullRefresh)
      && schemaOf(node).Some?
      && PlanMerge(node, first, schemaOf(node).value, values).Check?
      && answer(PlanMerge(node, first, schemaOf(node).value, values).sql).status != DryRunStatus.SUCCESS
    ensures var sql := Preprocess(Steps, node.compiledCode, node, results, substitute).value;
      var first := NewResult(node, answer(sql).table, answer(sql).status, answer(sql).exception);
      var merge := answer(PlanMerge(node, first, schemaOf(node).value, values).sql);
      RunOutcome(answer, schemaOf, results, node, substitute, values, globalFullRefresh).result
        == Ok(NewResult(node, None, merge.status, merge.exception))
  {
  }

  /** Without `on_schema_change`, a successful check leaves the existing table as the prediction. */
  lemma MissingOnSchemaChangeIgnores(node: Node, merged: DryRunResult, target: Table)
    requires merged.status == DryRunStatus.SUCCESS && node.config.onSchemaChange.None?
    ensures Reconcile(node, merged, target).table == Some(target)
    ensures Reconcile(node, merged, target).status == DryRunStatus.SUCCESS
  {
  }

  /** A successful run of a time-ingestion partitioned model ends with exactly one `_PARTITIONTIME` column. */
  lemma PartitionColumnLast(node: Node, r: DryRunResult)
    requires r.node == node && r.table.Some? && r.status == DryRunStatus.SUCCESS && IsTimeIngestionPartitioned(node)
    ensures Finish(node, r).table.Some?
    ensures Finish(node, r).table.value.fields == r.table.value.fields + [PartitionTimeField]
  {
    var fs := Finish(node, r).table.value.fields;
    assert fs == fs[..|r.table.value.fields|] + [fs[|r.table.value.fields|]];
  }
}
