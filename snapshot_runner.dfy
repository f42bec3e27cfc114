/**
 * The snapshot runner: the statement with upstream literals is dry run; a
 * successful prediction gains dbt's snapshot metadata columns and is then
 * checked against the snapshot's `unique_key`, `strategy`, `updated_at` and
 * `check_cols` settings.
 */
module SnapshotRunner {
  import opened Wrappers
  import opened Exceptions
  import opened Schema
  import opened Manifest
  import opened DryRunResults
  import opened Statements
  import opened Warehouse

  /** `_check_cols_missing`: the listed check columns that are not field names; none for unset, empty or "all". */
  function CheckColsMissing(node: Node, table: Table): (r: set<string>)
    ensures node.config.checkCols.None? || node.config.checkCols == Some(AllColumns) ==> r == {}
    ensures node.config.checkCols.Some? && node.config.checkCols.value.Columns? ==>
      forall c :: c in r <==> c in node.config.checkCols.value.columns && c !in FieldNames(table)
  {
    match node.config.checkCols
    case None => {}
    case Some(AllColumns) => {}
    case Some(Columns(columns)) => set c | c in columns && c !in FieldNames(table)
  }

  // ---------------------------------------------------------------------------
  // The snapshot metadata columns

  /** A metadata column, added for every config or only for those its filter accepts. */
  datatype SnapshotField = SnapshotField(tableField: TableField, filter: Option<NodeConfig -> bool>)

  /** A nullable column of the given type with no sub-fields and no description. */
  function MetaColumn(name: string, fieldType: FieldType): TableField
  {
    TableField(name, fieldType, Some(NULLABLE), NoFields, None)
  }

  /** `DBT_SNAPSHOT_FIELDS`, in order; `dbt_is_deleted` only for `hard_deletes: new_record`. */
  const DbtSnapshotFields: seq<SnapshotField> := [
    SnapshotField(MetaColumn("dbt_scd_id", STRING), None),
    SnapshotField(MetaColumn("dbt_updated_at", TIMESTAMP), None),
    SnapshotField(MetaColumn("dbt_valid_from", TIMESTAMP), None),
    SnapshotField(MetaColumn("dbt_valid_to", TIMESTAMP), None),
    SnapshotField(MetaColumn("dbt_is_deleted", STRING), Some((config: NodeConfig) => config.hardDeletes == Some(HardDeletesNewRecord)))
  ]

  /** The columns of `fs` whose filter is absent or accepts `config`, in order. */
  function Selected(fs: seq<SnapshotField>, config: NodeConfig): (r: seq<TableField>)
    ensures |r| <= |fs|
  {
    if fs == [] then []
    else
      var head := if fs[0].filter.None? || fs[0].filter.value(config) then [fs[0].tableField] else [];
      head + Selected(fs[1..], config)
  }

  /**
   * The metadata columns a snapshot with this config gains: always the four
   * that track validity, and `dbt_is_deleted` last when deletions are kept as
   * new records.
   */
  lemma {:induction false} SnapshotFieldsOrder(config: NodeConfig)
    ensures Selected(DbtSnapshotFields, config) ==
      [MetaColumn("dbt_scd_id", STRING), MetaColumn("dbt_updated_at", TIMESTAMP),
       MetaColumn("dbt_valid_from", TIMESTAMP), MetaColumn("dbt_valid_to", TIMESTAMP)]
      + (if config.hardDeletes == Some(HardDeletesNewRecord) then [MetaColumn("dbt_is_deleted", STRING)] else [])
  {
    var fs := DbtSnapshotFields;
    assert Selected(fs[4..], config)
        == (if config.hardDeletes == Some(HardDeletesNewRecord) then [MetaColumn("dbt_is_deleted", STRING)] else []) by {
      assert fs[4..][1..] == [];
      assert fs[4..][0].filter.value(config) == (config.hardDeletes == Some(HardDeletesNewRecord));
    }
    assert Selected(fs[3..], config) == [fs[3].tableField] + Selected(fs[4..], config) by {
      assert fs[3..][1..] == fs[4..];
    }
    assert Selected(fs[2..], config) == [fs[2].tableField] + Selected(fs[3..], config) by {
      assert fs[2..][1..] == fs[3..];
    }
    assert Selected(fs[1..], config) == [fs[1].tableField] + Selected(fs[2..], config) by {
      assert fs[1..][1..] == fs[2..];
    }
  }

  /** `_get_snapshot_fields`: each metadata column that applies, appended in turn. */
  method GetSnapshotFields(config: NodeConfig) returns (fields: seq<TableField>)
    ensures fields == Selected(DbtSnapshotFields, config)
  {
    fields := [];
    var i := 0;
    while i < |DbtSnapshotFields|
      invariant 0 <= i <= |DbtSnapshotFields|
      invariant Selected(DbtSnapshotFields, config) == fields + Selected(DbtSnapshotFields[i..], config)
    {
      var field := DbtSnapshotFields[i];
      assert DbtSnapshotFields[i..][0] == field;
      assert DbtSnapshotFields[i..][1..] == DbtSnapshotFields[i + 1..];
      if field.filter.None? || field.filter.value(config) {
        fields := fields + [field.tableField];
      }
      i := i + 1;
    }
  }

  // ---------------------------------------------------------------------------
  // Validation

  /** The result with the table kept, as a FAILURE naming the snapshot setting that is not met. */
  function ConfigFailure(result: DryRunResult, setting: string): DryRunResult
  {
    NewResult(result.node, result.table, DryRunStatus.FAILURE, Some(SnapshotConfig(setting)))
  }

  /**
   * The snapshot settings that the table's columns meet, stated all at once:
   * a single unique key among the names, and a strategy whose own columns
   * are among them.
   */
  predicate SettingsMet(config: NodeConfig, table: Table)
  {
    var names := FieldNames(table);
    && config.uniqueKey.Some? && config.uniqueKey.value.KeyColumn?
    && config.uniqueKey.value.column in names
    && config.strategy.Some?
    && (config.strategy.value.TimestampStrategy? ==> config.updatedAt.Some? && config.updatedAt.value in names)
    && (config.strategy.value.CheckStrategy? ==>
          (config.checkCols.Some? && config.checkCols.value.Columns? ==>
             forall c :: c in config.checkCols.value.columns ==> c in names))
  }

  /**
   * `_validate_snapshot_config`: no table raises a value error and a list of
   * unique keys a runtime error; a missing key, `updated_at` column or check
   * column makes the result a FAILURE that keeps its table; a strategy that
   * is neither "timestamp" nor "check" raises a value error.
   */
  function ValidateSnapshotConfig(node: Node, result: DryRunResult): (r: Result<DryRunResult>)
    ensures result.table.None? ==> r.Err? && r.error.ValueError?
    ensures result.table.Some? && node.config.uniqueKey.Some? && node.config.uniqueKey.value.KeyColumns? ==>
      r.Err? && r.error.RuntimeError?
    ensures r.Err? ==> result.table.None? || node.config.uniqueKey.Some?
    ensures r.Ok? ==> r.value.node == result.node && r.value.table == result.table
    ensures r.Ok? && r.value != result ==>
      r.value.status == DryRunStatus.FAILURE && r.value.exception.Some? && r.value.exception.value.SnapshotConfig?
    ensures result.status == DryRunStatus.SUCCESS ==>
      (r == Ok(result) <==> result.table.Some? && SettingsMet(node.config, result.table.value))
  {
    if result.table.None? then Err(ValueError("table"))
    else if node.config.uniqueKey.Some? && node.config.uniqueKey.value.KeyColumns? then Err(RuntimeError(node.uniqueId))
    else
      var names := FieldNames(result.table.value);
      if node.config.uniqueKey.None? || node.config.uniqueKey.value.column !in names then
        Ok(ConfigFailure(result, "unique_key"))
      else
        match node.config.strategy
        case Some(TimestampStrategy) =>
          if node.config.updatedAt.None? || node.config.updatedAt.value !in names then
            Ok(ConfigFailure(result, "updated_at"))
          else Ok(result)
        case Some(CheckStrategy) =>
          if CheckColsMissing(node, result.table.value) != {} then
            Ok(ConfigFailure(result, "check_cols"))
          else Ok(result)
        case None => Err(ValueError("strategy"))
  }

  // ---------------------------------------------------------------------------
  // The run

  /** The successful prediction with the metadata columns after its own. */
  function WithSnapshotFields(result: DryRunResult): (r: DryRunResult)
    requires result.table.Some?
    ensures r.node == result.node && r.status == result.status && r.exception == result.exception
    ensures r.table.Some?
    ensures |r.table.value.fields| == |result.table.value.fields| + |Selected(DbtSnapshotFields, result.node.config)|
    ensures r.table.value.fields[..|result.table.value.fields|] == result.table.value.fields
    ensures r.table.value.fields[|result.table.value.fields|..] == Selected(DbtSnapshotFields, result.node.config)
  {
    var fields := result.table.value.fields + Selected(DbtSnapshotFields, result.node.config);
    result.(table := Some(Table(fields)))
  }

  /** What the run makes of the warehouse's answer to its query. */
  function Outcome(node: Node, response: QueryResponse): (r: Result<DryRunResult>)
    ensures response.status != DryRunStatus.SUCCESS || response.table.None? ==>
      r == Ok(NewResult(node, response.table, response.status, response.exception))
  {
    var result := NewResult(node, response.table, response.status, response.exception);
    if result.status == DryRunStatus.SUCCESS && result.table.Some? then
      ValidateSnapshotConfig(node, WithSnapshotFields(result))
    else Ok(result)
  }

  /** The preprocessor has the one literal step. */
  lemma PreprocessIsInsert(node: Node, results: map<string, DryRunResult>, substitute: Substitute)
    ensures Preprocess([InsertLiterals], node.compiledCode, node, results, substitute)
      == InsertLiteralsStep(node.compiledCode, node, results, substitute)
  {
    assert [InsertLiterals][1..] == [];
  }

  /**
   * `SnapshotRunner.run`: an upstream failure is a FAILURE result and no
   * query is sent; otherwise one query of the statement with its upstream
   * literals, whose answer `Outcome` turns into the result.
   */
  method Run(warehouse: SqlRunner, results: map<string, DryRunResult>, node: Node, substitute: Substitute)
    returns (r: Result<DryRunResult>)
    modifies warehouse
    ensures var inserted := InsertLiteralsStep(node.compiledCode, node, results, substitute);
      && (inserted.Err? && inserted.error.UpstreamFailed? ==>
            r == Ok(NewResult(node, None, DryRunStatus.FAILURE, Some(inserted.error)))
            && warehouse.log == old(warehouse.log))
      && (inserted.Err? && !inserted.error.UpstreamFailed? ==>
            r == Err(inserted.error) && warehouse.log == old(warehouse.log))
      && (inserted.Ok? ==>
            && warehouse.log == old(warehouse.log) + [QueryCall(inserted.value)]
            && r == Outcome(node, warehouse.answer(inserted.value)))
  {
    var preprocessor := new SqlPreprocessor([InsertLiterals]);
    var runSql := preprocessor.Call(node, results, substitute);
    PreprocessIsInsert(node, results, substitute);
    if runSql.Err? {
      if runSql.error.UpstreamFailed? {
        return Ok(NewResult(node, None, DryRunStatus.FAILURE, Some(runSql.error)));
      }
      return Err(runSql.error);
    }
    var status, predictedTable, exception := warehouse.Query(runSql.value);
    var result := NewResult(node, predictedTable, status, exception);
    if result.status == DryRunStatus.SUCCESS && result.table.Some? {
      var snapshotFields := GetSnapshotFields(node.config);
      result := result.(table := Some(Table(result.table.value.fields + snapshotFields)));
      r := ValidateSnapshotConfig(node, result);
      return;
    }
    return Ok(result);
  }

  // ---------------------------------------------------------------------------
  // Properties of a run

  /**
   * Validation sees the metadata columns: a snapshot keyed on `dbt_scd_id`
   * with the timestamp strategy on `dbt_updated_at` passes whatever the
   * query predicted.
   */
  lemma MetadataColumnsValidate(node: Node, response: QueryResponse)
    requires response.status == DryRunStatus.SUCCESS && response.table.Some?
    requires node.config.uniqueKey == Some(KeyColumn("dbt_scd_id"))
    requires node.config.strategy == Some(TimestampStrategy) && node.config.updatedAt == Some("dbt_updated_at")
    ensures Outcome(node, response) == Ok(WithSnapshotFields(NewResult(node, response.table, response.status, response.exception)))
  {
    var result := WithSnapshotFields(NewResult(node, response.table, response.status, response.exception));
    var n := |response.table.value.fields|;
    SnapshotFieldsOrder(node.config);
    assert result.table.value.fields[n].name == "dbt_scd_id";
    assert result.table.value.fields[n + 1].name == "dbt_updated_at";
  }

  /** A validated run keeps the predicted columns, in order, followed by the metadata columns. */
  lemma ValidatedTableHasMetadata(node: Node, response: QueryResponse)
    requires response.status == DryRunStatus.SUCCESS && response.table.Some?
    requires Outcome(node, response).Ok?
    ensures Outcome(node, response).value.table ==
      Some(Table(response.table.value.fields + Selected(DbtSnapshotFields, node.config)))
  {
  }
}
