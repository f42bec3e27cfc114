/**
 * Literal SQL for a predicted table: every field becomes a constant value of
 * its type, so that `(SELECT <value> as `name`, ...)` stands in for the table
 * in a downstream query. Also the check, before substitution, that every
 * upstream already ran successfully.
 */
module Literals {
  import opened Wrappers
  import opened Exceptions
  import opened Strings
  import opened Seqs
  import opened Schema
  import opened Manifest
  import opened DryRunResults

  /**
   * The active table of example values. Production values of STRING and
   * BYTES fields embed a random UUID, which is supplied as `uuid`.
   */
  datatype ExampleValues = ProductionValues(uuid: string) | TestValues

  /** The module-level choice of example values (`_ACTIVE_EXAMPLE_VALUES`). */
  class ExampleValueSettings {
    const uuid: string
    var active: ExampleValues

    /** At import, the production values are active. */
    constructor (uuid: string)
      ensures this.uuid == uuid && active == ProductionValues(uuid)
    {
      this.uuid := uuid;
      active := ProductionValues(uuid);
    }

    /** `enable_test_example_values`: switches between the test and the production values. */
    method EnableTestExampleValues(enabled: bool)
      modifies this
      ensures active == if enabled then TestValues else ProductionValues(uuid)
    {
      if enabled {
        active := TestValues;
      } else {
        active := ProductionValues(uuid);
      }
    }
  }

  /** `_EXAMPLE_VALUES`: no entry for STRUCT and RECORD. */
  function ProductionExample(t: FieldType, uuid: string): Option<string>
  {
    match t
    case STRING => Some("'" + uuid + "'")
    case BYTES => Some("b'" + uuid + "'")
    case INTEGER => Some("1")
    case INT64 => Some("1")
    case FLOAT => Some("1.0")
    case FLOAT64 => Some("1.0")
    case BOOLEAN => Some("true")
    case BOOL => Some("true")
    case TIMESTAMP => Some("TIMESTAMP('2021-01-01')")
    case DATE => Some("DATE('2021-01-01')")
    case TIME => Some("TIME(12,0,0)")
    case DATETIME => Some("DATETIME(2021,1,1,12,0,0)")
    case GEOGRAPHY => Some("ST_GeogPoint(0.0, 0.0)")
    case INTERVAL => Some("MAKE_INTERVAL(1)")
    case NUMERIC => Some("CAST(1 AS NUMERIC)")
    case BIGNUMERIC => Some("CAST(2 AS BIGNUMERIC)")
    case JSON => Some("PARSE_JSON('{\"a\": 1}')")
    case RANGE => Some("RANGE(DATE '2022-12-01', DATE '2022-12-31')")
    case RECORD => None
    case STRUCT => None
  }

  /** `_EXAMPLE_VALUES_TEST`: fixed strings and bytes, no entry for STRUCT and RECORD. */
  function TestExample(t: FieldType): Option<string>
  {
    match t
    case STRING => Some("'foo'")
    case BYTES => Some("b'foo'")
    case INTEGER => Some("1")
    case INT64 => Some("1")
    case FLOAT => Some("1.0")
    case FLOAT64 => Some("1.0")
    case BOOLEAN => Some("true")
    case BOOL => Some("true")
    case TIMESTAMP => Some("TIMESTAMP('2021-01-01')")
    case DATE => Some("DATE('2021-01-01')")
    case TIME => Some("TIME(12,0,0)")
    case DATETIME => Some("DATETIME(2021,1,1,12,0,0)")
    case INTERVAL => Some("MAKE_INTERVAL(1)")
    case GEOGRAPHY => Some("ST_GeogPoint(0.0, 0.0)")
    case NUMERIC => Some("CAST(1 AS NUMERIC)")
    case BIGNUMERIC => Some("CAST(2 AS BIGNUMERIC)")
    case JSON => Some("PARSE_JSON('{\"a\": 1}')")
    case RANGE => Some("RANGE(DATE '2022-12-01', DATE '2022-12-31')")
    case RECORD => None
    case STRUCT => None
  }

  predicate IsComplex(t: FieldType)
  {
    t == RECORD || t == STRUCT
  }

  /** `get_example_value`: a KeyError for the types the active table has no entry for. */
  function ExampleValue(values: ExampleValues, t: FieldType): (r: Result<string>)
    ensures r.Err? <==> IsComplex(t)
    ensures r.Err? ==> r.error == KeyError(FieldTypeValue(t))
  {
    var entry := match values
      case ProductionValues(uuid) => ProductionExample(t, uuid)
      case TestValues => TestExample(t);
    match entry
    case None => Err(KeyError(FieldTypeValue(t)))
    case Some(v) => Ok(v)
  }

  /** Only the STRING and BYTES values differ between the two tables, and only by the UUID. */
  lemma ExampleValuesDifferOnlyInUuid(uuid: string, t: FieldType)
    ensures t != STRING && t != BYTES ==> ExampleValue(ProductionValues(uuid), t) == ExampleValue(TestValues, t)
    ensures t == STRING ==> ExampleValue(ProductionValues(uuid), t) == Ok("'" + uuid + "'")
    ensures t == BYTES ==> ExampleValue(ProductionValues(uuid), t) == Ok("b'" + uuid + "'")
  {
  }

  /** A REPEATED field's value is the one-element array `[v]`; any other mode keeps `v`. */
  function Bracketed(mode: Option<FieldMode>, v: string): string
  {
    if mode == Some(REPEATED) then "[" + v + "]" else v
  }

  /**
   * The value part of a field's literal: a STRUCT of the sub-field literals
   * for a complex field with sub-fields, otherwise the example value of its
   * type; wrapped in brackets when the field is REPEATED.
   */
  function ValueLiteral(values: ExampleValues, f: TableField): (r: Result<string>)
    decreases f, 0
    ensures r.Ok? && f.mode == Some(REPEATED) ==>
      |r.value| >= 2 && r.value[0] == '[' && r.value[|r.value| - 1] == ']'
    ensures r.Ok? && IsComplex(f.fieldType) && f.HasSubFields() ==>
      FieldLiterals(values, f.fields.list).Ok? &&
      r.value == Bracketed(f.mode, "STRUCT(" + Join(FieldLiterals(values, f.fields.list).value, ",") + ")")
    ensures !(IsComplex(f.fieldType) && f.HasSubFields()) ==>
      (r.Ok? <==> ExampleValue(values, f.fieldType).Ok?) &&
      (r.Ok? ==> r.value == Bracketed(f.mode, ExampleValue(values, f.fieldType).value))
  {
    var dummy :=
      if IsComplex(f.fieldType) && f.HasSubFields() then
        match FieldLiterals(values, f.fields.list)
        case Err(e) => Err(e)
        case Ok(literals) => Ok("STRUCT(" + Join(literals, ",") + ")")
      else ExampleValue(values, f.fieldType);
    match dummy
    case Err(e) => Err(e)
    case Ok(v) => Ok(Bracketed(f.mode, v))
  }

  /** `get_sql_literal_from_field`: the value named after the field. */
  function FieldLiteral(values: ExampleValues, f: TableField): (r: Result<string>)
    decreases f, 1
    ensures r.Ok? ==> ValueLiteral(values, f).Ok? && EndsWith(r.value, " as `" + f.name + "`")
    ensures r.Ok? ==> StartsWith(r.value, ValueLiteral(values, f).value)
    ensures ValueLiteral(values, f).Err? ==> r.Err?
  {
    match ValueLiteral(values, f)
    case Err(e) => Err(e)
    case Ok(v) =>
      var s := v + " as `" + f.name + "`";
      assert s[..|v|] == v;
      Ok(s)
  }

  /** The literals of a list of fields, in order; the first failure decides the error. */
  function FieldLiterals(values: ExampleValues, fs: seq<TableField>): (r: Result<seq<string>>)
    decreases fs, 2
    ensures r.Ok? ==> |r.value| == |fs|
    ensures r.Ok? ==> forall i :: 0 <= i < |fs| ==> FieldLiteral(values, fs[i]) == Ok(r.value[i])
    ensures r.Err? <==> exists i :: 0 <= i < |fs| && FieldLiteral(values, fs[i]).Err?
  {
    if fs == [] then Ok([])
    else
      match FieldLiteral(values, fs[0])
      case Err(e) => Err(e)
      case Ok(first) =>
        match FieldLiterals(values, fs[1..])
        case Err(e) =>
          var i :| 0 <= i < |fs[1..]| && FieldLiteral(values, fs[1..][i]).Err?;
          assert FieldLiteral(values, fs[i + 1]).Err?;
          Err(e)
        case Ok(rest) =>
          assert forall i :: 0 < i < |fs| ==> fs[i] == fs[1..][i - 1];
          Ok([first] + rest)
  }

  /** `get_sql_literal_from_table`: a one-row SELECT of the field literals in table order. */
  function TableLiteral(values: ExampleValues, t: Table): (r: Result<string>)
    ensures r.Ok? <==> FieldLiterals(values, t.fields).Ok?
    ensures r.Ok? ==> r.value == "(SELECT " + Join(FieldLiterals(values, t.fields).value, ",") + ")"
  {
    match FieldLiterals(values, t.fields)
    case Err(e) => Err(e)
    case Ok(literals) => Ok("(SELECT " + Join(literals, ",") + ")")
  }

  /**
   * A field has a literal exactly when no STRUCT or RECORD field without
   * sub-fields is reached on the way down: those fall through to the example
   * table, which has no entry for them.
   */
  predicate Literalisable(f: TableField)
  {
    if IsComplex(f.fieldType) then
      f.HasSubFields() && forall i :: 0 <= i < |f.fields.list| ==> Literalisable(f.fields.list[i])
    else true
  }

  lemma {:induction false} FieldLiteralDefinedIff(values: ExampleValues, f: TableField)
    ensures FieldLiteral(values, f).Ok? <==> Literalisable(f)
  {
    if IsComplex(f.fieldType) && f.HasSubFields() {
      forall i | 0 <= i < |f.fields.list|
        ensures FieldLiteral(values, f.fields.list[i]).Ok? <==> Literalisable(f.fields.list[i])
      {
        FieldLiteralDefinedIff(values, f.fields.list[i]);
      }
    }
  }

  /** A one-field table selects that field's literal alone. */
  lemma SingleFieldTable(values: ExampleValues, f: TableField, literal: string)
    requires FieldLiteral(values, f) == Ok(literal)
    ensures FieldLiterals(values, [f]) == Ok([literal])
    ensures TableLiteral(values, Table([f])) == Ok("(SELECT " + literal + ")")
  {
    assert [f][1..] == [];
    assert [f][0] == f;
    assert FieldLiterals(values, []) == Ok([]);
    assert FieldLiterals(values, [f]) == Ok([literal] + []);
    assert [literal] + [] == [literal];
  }

  lemma FieldLiteralOf(values: ExampleValues, f: TableField, value: string)
    requires ValueLiteral(values, f) == Ok(value)
    ensures FieldLiteral(values, f) == Ok(value + " as `" + f.name + "`")
  {
  }

  /** A complex field with a single sub-field is a STRUCT of that sub-field's literal. */
  lemma SingleFieldStruct(values: ExampleValues, f: TableField, literal: string)
    requires IsComplex(f.fieldType) && f.fields.Fields? && |f.fields.list| == 1
    requires FieldLiteral(values, f.fields.list[0]) == Ok(literal)
    ensures var struct := "STRUCT(" + literal + ")";
      ValueLiteral(values, f) == Ok(if f.mode == Some(REPEATED) then "[" + struct + "]" else struct)
  {
    var sub := f.fields.list[0];
    assert f.fields.list == [sub];
    SingleFieldTable(values, sub, literal);
    assert Join([literal], ",") == literal;
  }

  /** A one-field table selects that field's value named after it. */
  lemma OneFieldTable(values: ExampleValues, f: TableField, value: string)
    requires ValueLiteral(values, f) == Ok(value)
    ensures TableLiteral(values, Table([f])) == Ok("(SELECT " + value + " as `" + f.name + "`)")
  {
    FieldLiteralOf(values, f, value);
    SingleFieldTable(values, f, value + " as `" + f.name + "`");
    assert "(SELECT " + (value + " as `" + f.name + "`") + ")" == "(SELECT " + value + " as `" + f.name + "`)";
  }

  /** The literal that the test module expects for a NULLABLE INTEGER in test mode. */
  lemma TestModeIntegerLiteral()
    ensures TableLiteral(TestValues, Table([TableField("foo", INTEGER, Some(NULLABLE), NoFields, None)]))
      == Ok("(SELECT 1 as `foo`)")
  {
    var foo := TableField("foo", INTEGER, Some(NULLABLE), NoFields, None);
    assert ValueLiteral(TestValues, foo) == Ok("1");
    OneFieldTable(TestValues, foo, "1");
    assert "(SELECT " + "1" + " as `" + "foo" + "`)" == "(SELECT 1 as `foo`)";
  }

  /** The literal that the test module expects for a REPEATED STRING in test mode. */
  lemma TestModeRepeatedStringLiteral()
    ensures TableLiteral(TestValues, Table([TableField("foo", STRING, Some(REPEATED), NoFields, None)]))
      == Ok("(SELECT ['foo'] as `foo`)")
  {
    var repeated := TableField("foo", STRING, Some(REPEATED), NoFields, None);
    assert ExampleValue(TestValues, STRING) == Ok("'foo'");
    assert ValueLiteral(TestValues, repeated) == Ok("[" + "'foo'" + "]");
    OneFieldTable(TestValues, repeated, "[" + "'foo'" + "]");
    assert "(SELECT " + ("[" + "'foo'" + "]") + " as `" + "foo" + "`)" == "(SELECT ['foo'] as `foo`)";
  }

  /** A STRUCT of one STRING sub-field, plain or REPEATED, in test mode. */
  lemma StructOfStringLiteral(outer: string, inner: string, repeated: bool)
    ensures var struct := "STRUCT(" + ("'foo'" + " as `" + inner + "`") + ")";
      var value := if repeated then "[" + struct + "]" else struct;
      TableLiteral(TestValues, Table([TableField(outer, STRUCT, if repeated then Some(REPEATED) else None,
        Fields([TableField(inner, STRING, None, NoFields, None)]), None)]))
      == Ok("(SELECT " + value + " as `" + outer + "`)")
  {
    var bar := TableField(inner, STRING, None, NoFields, None);
    FieldLiteralOf(TestValues, bar, "'foo'");
    var lit := "'foo'" + " as `" + inner + "`";
    var foo := TableField(outer, STRUCT, if repeated then Some(REPEATED) else None, Fields([bar]), None);
    SingleFieldStruct(TestValues, foo, lit);
    var struct := "STRUCT(" + lit + ")";
    OneFieldTable(TestValues, foo, if repeated then "[" + struct + "]" else struct);
  }

  /** A STRUCT holding a RECORD of one INTEGER sub-field, in test mode. */
  lemma NestedStructLiteral(outer: string, middle: string, inner: string)
    ensures TableLiteral(TestValues, Table([TableField(outer, STRUCT, None, Fields([
        TableField(middle, RECORD, None, Fields([TableField(inner, INTEGER, None, NoFields, None)]), None)]), None)]))
      == var bazLit := "1" + " as `" + inner + "`";
         var barLit := "STRUCT(" + bazLit + ")" + " as `" + middle + "`";
         Ok("(SELECT " + ("STRUCT(" + barLit + ")" + " as `" + outer + "`") + ")")
  {
    var baz := TableField(inner, INTEGER, None, NoFields, None);
    FieldLiteralOf(TestValues, baz, "1");
    var bazLit := "1" + " as `" + inner + "`";
    var record := TableField(middle, RECORD, None, Fields([baz]), None);
    SingleFieldStruct(TestValues, record, bazLit);
    FieldLiteralOf(TestValues, record, "STRUCT(" + bazLit + ")");
    var recordLit := "STRUCT(" + bazLit + ")" + " as `" + middle + "`";
    var foo := TableField(outer, STRUCT, None, Fields([record]), None);
    SingleFieldStruct(TestValues, foo, recordLit);
    FieldLiteralOf(TestValues, foo, "STRUCT(" + recordLit + ")");
    var fooLit := "STRUCT(" + recordLit + ")" + " as `" + outer + "`";
    SingleFieldTable(TestValues, foo, fooLit);
  }

  // ---------------------------------------------------------------------------
  // Upstream results (`insert_dependant_sql_literals`)

  /** `[results.get_result(n) for n in deep_nodes if n in results.keys()]`. */
  function UpstreamResults(deepNodes: seq<string>, results: map<string, DryRunResult>): (r: seq<DryRunResult>)
    ensures |r| <= |deepNodes|
    ensures forall x :: x in r <==> exists n :: n in deepNodes && n in results && results[n] == x
  {
    if deepNodes == [] then []
    else
      var rest := UpstreamResults(deepNodes[1..], results);
      assert forall n :: n in deepNodes <==> n == deepNodes[0] || n in deepNodes[1..];
      if deepNodes[0] in results then [results[deepNodes[0]]] + rest else rest
  }

  function FailedUpstreams(upstreams: seq<DryRunResult>): seq<DryRunResult>
  {
    Filter(upstreams, (u: DryRunResult) => u.status != DryRunStatus.SUCCESS)
  }

  function CompletedUpstreams(upstreams: seq<DryRunResult>): seq<DryRunResult>
  {
    Filter(upstreams, (u: DryRunResult) => u.table.Some?)
  }

  /** The id and status of each failed upstream, in order, for the exception. */
  function FailureReport(failed: seq<DryRunResult>): (r: seq<FailedUpstream>)
    ensures |r| == |failed|
    ensures forall i :: 0 <= i < |r| ==>
      r[i] == FailedUpstream(failed[i].node.uniqueId, StatusValue(failed[i].status))
  {
    if failed == [] then []
    else [FailedUpstream(failed[0].node.uniqueId, StatusValue(failed[0].status))] + FailureReport(failed[1..])
  }

  /**
   * The checks shared by both versions of `insert_dependant_sql_literals`:
   * KeyError before the scheduler has set the deep dependencies, an
   * UpstreamFailed naming every present upstream that is not SUCCESS, and
   * otherwise the upstream results that have a table, to be substituted.
   */
  function SubstitutableUpstreams(node: Node, results: map<string, DryRunResult>): (r: Result<seq<DryRunResult>>)
    ensures node.dependsOn.deepNodes.None? <==> r == Err(KeyError(node.uniqueId))
    ensures node.dependsOn.deepNodes.Some? ==>
      (r.Err? <==> exists n :: n in node.dependsOn.deepNodes.value && n in results &&
                               results[n].status != DryRunStatus.SUCCESS)
    ensures node.dependsOn.deepNodes.Some? && r.Err? ==>
      r.error == UpstreamFailed(node.uniqueId,
        FailureReport(FailedUpstreams(UpstreamResults(node.dependsOn.deepNodes.value, results))))
    ensures r.Ok? ==> forall u :: u in r.value <==>
      u.table.Some? && exists n :: n in node.dependsOn.deepNodes.value && n in results && results[n] == u
    ensures r.Ok? ==> forall u :: u in r.value ==> u.status == DryRunStatus.SUCCESS
  {
    match node.dependsOn.deepNodes
    case None => Err(KeyError(node.uniqueId))
    case Some(deep) =>
      var upstreams := UpstreamResults(deep, results);
      var failed := FailedUpstreams(upstreams);
      if failed != [] then
        assert failed[0] in failed;
        Err(UpstreamFailed(node.uniqueId, FailureReport(failed)))
      else
        assert forall u :: u in upstreams ==> u.status == DryRunStatus.SUCCESS;
        Ok(CompletedUpstreams(upstreams))
  }

  /**
   * `insert_dependant_sql_literals` of the literals module: the compiled code
   * with the completed upstreams substituted by `replaceUpstreamSql`, which
   * stands for the SQL parser's rewrite.
   */
  function InsertDependantSqlLiterals(node: Node, results: map<string, DryRunResult>,
                                      replaceUpstreamSql: (string, seq<DryRunResult>) -> string): (r: Result<string>)
    ensures node.dependsOn.deepNodes.None? ==> r == Err(KeyError(node.uniqueId))
    ensures r.Err? <==> SubstitutableUpstreams(node, results).Err?
    ensures r.Err? ==> r.error == SubstitutableUpstreams(node, results).error
    ensures r.Ok? ==> r.value == replaceUpstreamSql(node.compiledCode, SubstitutableUpstreams(node, results).value)
  {
    match SubstitutableUpstreams(node, results)
    case Err(e) => Err(e)
    case Ok(completed) => Ok(replaceUpstreamSql(node.compiledCode, completed))
  }
}
