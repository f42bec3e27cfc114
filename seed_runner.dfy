/**
 * The seed runner: a seed's schema is read off its CSV file rather than
 * dry run. Each column becomes a field named after it, typed by the
 * `column_types` override when there is one and otherwise by the type the
 * warehouse infers for the column's values.
 */
module SeedRunner {
  import opened Wrappers
  import opened Exceptions
  import opened Strings
  import opened Schema
  import opened Manifest
  import opened DryRunResults

  /**
   * One column of the seed's CSV file: its header and the type the
   * warehouse's `convert_agate_type` infers for it, if any.
   */
  datatype CsvColumn = CsvColumn(name: string, inferredType: Option<string>)

  /** `column_types.get(name) or inferred`: a non-empty override wins. */
  function ColumnType(node: Node, column: CsvColumn): (t: Option<string>)
    ensures column.name in node.config.columnTypes && node.config.columnTypes[column.name] != "" ==>
      t == Some(node.config.columnTypes[column.name])
    ensures column.name !in node.config.columnTypes || node.config.columnTypes[column.name] == "" ==>
      t == column.inferredType
  {
    if column.name in node.config.columnTypes && node.config.columnTypes[column.name] != ""
    then Some(node.config.columnTypes[column.name])
    else column.inferredType
  }

  /** A column has a type, and its upper-cased name is a member of the field type enumeration. */
  predicate Typed(node: Node, column: CsvColumn)
  {
    ColumnType(node, column).Some? && ParseFieldType(Upper(ColumnType(node, column).value)).Some?
  }

  /** The field for a typed column: its name and type, no mode, no sub-fields, no description. */
  function FieldOf(node: Node, column: CsvColumn): TableField
    requires Typed(node, column)
  {
    TableField(column.name, ParseFieldType(Upper(ColumnType(node, column).value)).value, None, NoFields, None)
  }

  /**
   * The fields of the columns in order; the first column without a type
   * gives an unknown-schema error naming it, and the first whose type is
   * not a member of the enumeration gives a key error.
   */
  function SeedFields(node: Node, columns: seq<CsvColumn>): (r: Result<seq<TableField>>)
    ensures r.Ok? <==> forall i :: 0 <= i < |columns| ==> Typed(node, columns[i])
    ensures r.Ok? ==> |r.value| == |columns|
    ensures r.Ok? ==> forall i :: 0 <= i < |columns| ==> Typed(node, columns[i]) && r.value[i] == FieldOf(node, columns[i])
    ensures r.Err? ==> exists i :: 0 <= i < |columns| && FirstUntyped(node, columns, i) && r.error == UntypedError(node, columns[i])
    decreases |columns|
  {
    if columns == [] then Ok([])
    else if !Typed(node, columns[0]) then
      assert FirstUntyped(node, columns, 0);
      Err(UntypedError(node, columns[0]))
    else
      match SeedFields(node, columns[1..])
      case Err(e) =>
        var i :| 0 <= i < |columns[1..]| && FirstUntyped(node, columns[1..], i) && e == UntypedError(node, columns[1..][i]);
        assert FirstUntyped(node, columns, i + 1);
        Err(e)
      case Ok(rest) =>
        assert forall i :: 0 < i < |columns| ==> columns[i] == columns[1..][i - 1];
        Ok([FieldOf(node, columns[0])] + rest)
  }

  /** Column `i` is the first one without a usable type. */
  predicate FirstUntyped(node: Node, columns: seq<CsvColumn>, i: int)
  {
    0 <= i < |columns| && !Typed(node, columns[i]) && forall j :: 0 <= j < i ==> Typed(node, columns[j])
  }

  /** No type at all is an unknown schema; a type outside the enumeration is the lookup's key error. */
  function UntypedError(node: Node, column: CsvColumn): Error
  {
    if ColumnType(node, column).None? then UnknownSchema(node.uniqueId, column.name)
    else KeyError(Upper(ColumnType(node, column).value))
  }

  /**
   * What `run` returns for these columns: SUCCESS with the fields, a FAILURE
   * with no table for an untyped column, or the key error raised.
   */
  function SeedOutcome(node: Node, columns: seq<CsvColumn>): (r: Result<DryRunResult>)
  {
    if node.rootPath.None? || node.rootPath.value == "" then Err(ValueError(node.uniqueId))
    else
      match SeedFields(node, columns)
      case Ok(fields) => Ok(NewResult(node, Some(Table(fields)), DryRunStatus.SUCCESS, None))
      case Err(e) =>
        if e.UnknownSchema? then Ok(NewResult(node, None, DryRunStatus.FAILURE, Some(e)))
        else Err(e)
  }

  /** `SeedRunner.run`, the CSV file read into `columns`: the typing loop with its early return. */
  method Run(node: Node, columns: seq<CsvColumn>) returns (r: Result<DryRunResult>)
    ensures r == SeedOutcome(node, columns)
  {
    if node.rootPath.None? || node.rootPath.value == "" {
      return Err(ValueError(node.uniqueId));
    }
    var fields: seq<TableField> := [];
    for i := 0 to |columns|
      invariant |fields| == i
      invariant forall j :: 0 <= j < i ==> Typed(node, columns[j]) && fields[j] == FieldOf(node, columns[j])
    {
      var column := columns[i];
      var newType := ColumnType(node, column);
      if newType.None? {
        assert FirstUntyped(node, columns, i);
        return Ok(NewResult(node, None, DryRunStatus.FAILURE, Some(UnknownSchema(node.uniqueId, column.name))));
      }
      var fieldType := ParseFieldType(Upper(newType.value));
      if fieldType.None? {
        assert FirstUntyped(node, columns, i);
        return Err(KeyError(Upper(newType.value)));
      }
      fields := fields + [TableField(column.name, fieldType.value, None, NoFields, None)];
    }
    assert fields == SeedFields(node, columns).value;
    return Ok(NewResult(node, Some(Table(fields)), DryRunStatus.SUCCESS, None));
  }

  /** `validate_node`: a seed is never rejected before its run. */
  function ValidateNode(node: Node): (r: Option<DryRunResult>)
    ensures r.None?
  {
    None
  }

  // ---------------------------------------------------------------------------
  // Properties of a run

  /** Only the first untyped column is reported: the answer does not depend on the columns after it. */
  lemma {:induction false} FirstUntypedDecides(node: Node, columns: seq<CsvColumn>, i: int, later: seq<CsvColumn>)
    requires FirstUntyped(node, columns, i)
    ensures SeedFields(node, columns[..i + 1] + later) == Err(UntypedError(node, columns[i]))
    decreases i
  {
    var cs := columns[..i + 1] + later;
    if i == 0 {
      assert cs[0] == columns[0];
    } else {
      assert cs[0] == columns[0];
      assert cs[1..] == columns[1..][..i] + later;
      assert FirstUntyped(node, columns[1..], i - 1);
      FirstUntypedDecides(node, columns[1..], i - 1, later);
    }
  }

  /** An override names the field's type whatever the warehouse would infer. */
  lemma OverrideWins(node: Node, columns: seq<CsvColumn>, i: int)
    requires 0 <= i < |columns|
    requires SeedOutcome(node, columns).Ok? && SeedOutcome(node, columns).value.status == DryRunStatus.SUCCESS
    requires columns[i].name in node.config.columnTypes && node.config.columnTypes[columns[i].name] != ""
    ensures SeedOutcome(node, columns).value.table.Some?
    ensures FieldTypeValue(SeedOutcome(node, columns).value.table.value.fields[i].fieldType)
      == Upper(node.config.columnTypes[columns[i].name])
  {
  }
}
