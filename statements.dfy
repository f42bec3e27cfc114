/**
 * The SQL preprocessing pipeline: the steps that rewrite a node's compiled
 * code before it is dry run (upstream literals, the SQL header, the view
 * wrap and the `_dbt_max_partition` declaration), and the preprocessor that
 * folds a list of them over the compiled code.
 */
module Statements {
  import opened Wrappers
  import opened Exceptions
  import opened Strings
  import opened Schema
  import opened Manifest
  import opened DryRunResults
  import opened Literals

  /** The scripting variable that incremental models compare their partitions against. */
  const MaxPartitionVariable := "_dbt_max_partition"

  /**
   * `PARTITION_DATA_TYPES_VALUES_MAPPING`: the value `_dbt_max_partition`
   * defaults to. A time type defaults to the current value of that type, an
   * integer partition to 100.
   */
  function PartitionDefault(t: PartitionDataType): (r: string)
    ensures t == INT64_PARTITION <==> r == "100"
    ensures t != INT64_PARTITION ==> StartsWith(r, "CURRENT_") && EndsWith(r, "()")
  {
    match t
    case TIMESTAMP_PARTITION => "CURRENT_TIMESTAMP()"
    case DATETIME_PARTITION => "CURRENT_DATETIME()"
    case DATE_PARTITION => "CURRENT_DATE()"
    case INT64_PARTITION => "100"
  }

  lemma UpperWord(word: string, upper: string)
    requires |word| == |upper| && forall i :: 0 <= i < |word| ==> UpperChar(word[i]) == upper[i]
    ensures Upper(word) == upper
  {
  }

  /** A time partition defaults to `CURRENT_<TYPE>()`, the type being its data type upper-cased. */
  lemma TimeDefaultNamesItsType(t: PartitionDataType)
    requires t != INT64_PARTITION
    ensures PartitionDefault(t) == "CURRENT_" + Upper(PartitionDataTypeValue(t)) + "()"
  {
    match t
    case TIMESTAMP_PARTITION => TimestampDefault();
    case DATETIME_PARTITION => DatetimeDefault();
    case DATE_PARTITION => DateDefault();
  }

  lemma TimestampDefault()
    ensures PartitionDefault(TIMESTAMP_PARTITION) == "CURRENT_" + Upper("timestamp") + "()"
  {
    UpperWord("timestamp", "TIMESTAMP");
    assert "CURRENT_" + "TIMESTAMP" + "()" == "CURRENT_TIMESTAMP()";
  }

  lemma DatetimeDefault()
    ensures PartitionDefault(DATETIME_PARTITION) == "CURRENT_" + Upper("datetime") + "()"
  {
    UpperWord("datetime", "DATETIME");
    assert "CURRENT_" + "DATETIME" + "()" == "CURRENT_DATETIME()";
  }

  lemma DateDefault()
    ensures PartitionDefault(DATE_PARTITION) == "CURRENT_" + Upper("date") + "()"
  {
    UpperWord("date", "DATE");
  }

  /** The statement declaring `_dbt_max_partition` with the partition's type and default. */
  function MaxPartitionDeclaration(p: PartitionBy): (r: string)
    ensures StartsWith(r, "declare " + MaxPartitionVariable + " " + PartitionDataTypeValue(p.dataType) + " default ")
    ensures EndsWith(r, PartitionDefault(p.dataType) + ";")
    ensures r == "declare " + MaxPartitionVariable + " " + PartitionDataTypeValue(p.dataType) + " default "
      + PartitionDefault(p.dataType) + ";"
  {
    var head := "declare " + MaxPartitionVariable + " " + PartitionDataTypeValue(p.dataType) + " default ";
    var tail := PartitionDefault(p.dataType) + ";";
    assert (head + tail)[..|head|] == head;
    assert (head + tail)[|head + tail| - |tail|..] == tail;
    head + tail
  }

  // ---------------------------------------------------------------------------
  // The steps

  /** Python truthiness of `config.sql_header`: set and not empty. */
  predicate HasSqlHeader(node: Node)
  {
    node.config.sqlHeader.Some? && node.config.sqlHeader.value != ""
  }

  /**
   * `add_sql_header`: the header on a line of its own above the statement,
   * or the statement unchanged when there is no header.
   */
  function AddSqlHeader(sql: string, node: Node): (r: string)
    ensures HasSqlHeader(node) ==> r == node.config.sqlHeader.value + "\n" + sql
    ensures !HasSqlHeader(node) ==> r == sql
    ensures EndsWith(r, sql)
  {
    if HasSqlHeader(node) then
      var r := node.config.sqlHeader.value + "\n" + sql;
      assert r[|r| - |sql|..] == sql;
      r
    else
      assert sql[|sql| - |sql|..] == sql;
      sql
  }

  function ViewPrefix(ref: TableRef): string
  {
    "CREATE OR REPLACE VIEW " + BqLiteral(ref) + " AS (\n"
  }

  const ViewSuffix := "\n)"

  /** The statement that creates or replaces view `ref` as `sql`, embedded unchanged. */
  function WrapAsView(ref: TableRef, sql: string): (r: string)
    ensures StartsWith(r, ViewPrefix(ref)) && EndsWith(r, ViewSuffix)
    ensures |r| == |ViewPrefix(ref)| + |sql| + |ViewSuffix|
    ensures r[|ViewPrefix(ref)|..|r| - |ViewSuffix|] == sql
  {
    var r := ViewPrefix(ref) + sql + ViewSuffix;
    assert r[..|ViewPrefix(ref)|] == ViewPrefix(ref);
    assert r[|r| - |ViewSuffix|..] == ViewSuffix;
    r
  }

  /** The statement a view definition wraps, if `s` is a view definition for `ref`. */
  function UnwrapView(ref: TableRef, s: string): (r: Option<string>)
    ensures r.Some? ==> |r.value| == |s| - |ViewPrefix(ref)| - |ViewSuffix|
  {
    if |s| >= |ViewPrefix(ref)| + |ViewSuffix| && StartsWith(s, ViewPrefix(ref)) && EndsWith(s, ViewSuffix)
    then Some(s[|ViewPrefix(ref)|..|s| - |ViewSuffix|])
    else None
  }

  /**
   * The view the model and view runners create: the node's database and
   * schema, named by its alias as it is (without the fallback to the name
   * that `table_ref` has).
   */
  function AliasRef(node: Node): (r: TableRef)
    ensures node.alias != "" ==> r == TableRefOf(node)
  {
    TableRef(node.database, node.dbSchema, node.alias)
  }

  /** The view wrap loses nothing: the wrapped statement is recovered from it. */
  lemma ViewRoundTrip(ref: TableRef, sql: string)
    ensures UnwrapView(ref, WrapAsView(ref, sql)) == Some(sql)
  {
  }

  /** Two different statements never wrap to the same view definition. */
  lemma WrapAsViewInjective(ref: TableRef, a: string, b: string)
    requires WrapAsView(ref, a) == WrapAsView(ref, b)
    ensures a == b
  {
    ViewRoundTrip(ref, a);
    ViewRoundTrip(ref, b);
  }

  /** `create_or_replace_view`: the statement as a view named by the node's table reference. */
  function CreateOrReplaceView(sql: string, node: Node): (r: string)
    ensures UnwrapView(TableRefOf(node), r) == Some(sql)
    ensures StartsWith(r, "CREATE OR REPLACE VIEW " + BqLiteral(TableRefOf(node)) + " AS (\n")
  {
    ViewRoundTrip(TableRefOf(node), sql);
    WrapAsView(TableRefOf(node), sql)
  }

  /** The view statement for a node whose alias is its id, as the statement tests build it. */
  lemma CreateOrReplaceViewExample(node: Node)
    requires node.database == "my_db" && node.dbSchema == "my_schema" && node.alias == "a"
    ensures CreateOrReplaceView("SELECT * FROM foo", node)
            == "CREATE OR REPLACE VIEW `my_db`.`my_schema`.`a` AS (\n" + "SELECT * FROM foo" + "\n)"
  {
    ExampleViewPrefix(TableRefOf(node));
  }

  lemma ExampleViewPrefix(ref: TableRef)
    requires ref == TableRef("my_db", "my_schema", "a")
    ensures ViewPrefix(ref) == "CREATE OR REPLACE VIEW `my_db`.`my_schema`.`a` AS (\n"
  {
    ExampleBqLiteral(ref);
    ExampleViewPrefixText();
  }

  lemma ExampleViewPrefixText()
    ensures "CREATE OR REPLACE VIEW " + "`my_db`.`my_schema`.`a`" + " AS (\n"
            == "CREATE OR REPLACE VIEW `my_db`.`my_schema`.`a` AS (\n"
  {
    assert "CREATE OR REPLACE VIEW " + "`my_db`.`my_schema`.`a`" == "CREATE OR REPLACE VIEW `my_db`.`my_schema`.`a`";
  }

  lemma ExampleBqLiteral(ref: TableRef)
    requires ref == TableRef("my_db", "my_schema", "a")
    ensures BqLiteral(ref) == "`my_db`.`my_schema`.`a`"
  {
    assert "`" + "my_db" == "`my_db";
    assert "`my_db" + "`.`" == "`my_db`.`";
    assert "`my_db`.`" + "my_schema" == "`my_db`.`my_schema";
    assert "`my_db`.`my_schema" + "`.`" == "`my_db`.`my_schema`.`";
    assert "`my_db`.`my_schema`.`" + "a" == "`my_db`.`my_schema`.`a";
    assert "`my_db`.`my_schema`.`a" + "`" == "`my_db`.`my_schema`.`a`";
  }

  /**
   * Whether `add_dbt_max_partition_declaration` declares the variable: the
   * node is partitioned and its ORIGINAL compiled code mentions the variable.
   */
  predicate NeedsMaxPartition(node: Node)
  {
    node.config.partitionBy.Some? && Contains(node.compiledCode, MaxPartitionVariable)
  }

  /** `add_dbt_max_partition_declaration`: the declaration on a line above the statement, when needed. */
  function AddDbtMaxPartitionDeclaration(sql: string, node: Node): (r: string)
    ensures NeedsMaxPartition(node) ==>
      r == MaxPartitionDeclaration(node.config.partitionBy.value) + "\n" + sql
    ensures !NeedsMaxPartition(node) ==> r == sql
    ensures EndsWith(r, sql)
  {
    if NeedsMaxPartition(node) then
      var r := MaxPartitionDeclaration(node.config.partitionBy.value) + "\n" + sql;
      assert r[|r| - |sql|..] == sql;
      r
    else
      assert sql[|sql| - |sql|..] == sql;
      sql
  }

  /** Whether the declaration is added depends on the node alone, never on the statement so far. */
  lemma MaxPartitionIgnoresStatement(node: Node, a: string, b: string)
    ensures AddDbtMaxPartitionDeclaration(a, node) == a <==> AddDbtMaxPartitionDeclaration(b, node) == b
  {
    if NeedsMaxPartition(node) {
      var d := MaxPartitionDeclaration(node.config.partitionBy.value) + "\n";
      assert |d + a| > |a| && |d + b| > |b|;
    }
  }

  // ---------------------------------------------------------------------------
  // Upstream literals (`insert_dependant_sql_literals` of the statements module)

  /**
   * `replace_upstream_sql(sql, node, table)`: the SQL parser's rewrite of the
   * references to `node` in `sql` into the literal of `table`.
   */
  type Substitute = (string, Node, Table) -> string

  /** Every upstream to substitute has a table. */
  predicate AllHaveTables(ups: seq<DryRunResult>)
  {
    forall u :: u in ups ==> u.table.Some?
  }

  /** The statement after substituting each upstream in turn, first to last. */
  function ReplaceAll(sql: string, ups: seq<DryRunResult>, substitute: Substitute): (r: string)
    requires AllHaveTables(ups)
    ensures ups == [] ==> r == sql
    ensures |ups| == 1 ==> r == substitute(sql, ups[0].node, ups[0].table.value)
    decreases |ups|
  {
    if ups == [] then sql
    else ReplaceAll(substitute(sql, ups[0].node, ups[0].table.value), ups[1..], substitute)
  }

  /** Substituting a list of upstreams is substituting its first part, then its second. */
  lemma {:induction false} ReplaceAllAppend(sql: string, a: seq<DryRunResult>, b: seq<DryRunResult>, substitute: Substitute)
    requires AllHaveTables(a) && AllHaveTables(b)
    ensures AllHaveTables(a + b)
    ensures ReplaceAll(sql, a + b, substitute) == ReplaceAll(ReplaceAll(sql, a, substitute), b, substitute)
    decreases |a|
  {
    if a != [] {
      var next := substitute(sql, a[0].node, a[0].table.value);
      assert (a + b)[0] == a[0];
      assert (a + b)[1..] == a[1..] + b;
      ReplaceAllAppend(next, a[1..], b, substitute);
    } else {
      assert a + b == b;
    }
  }

  /**
   * The step as a function: the upstream checks of the literals module, then
   * every completed upstream substituted into the statement in order.
   */
  function InsertLiteralsStep(sql: string, node: Node, results: map<string, DryRunResult>,
                              substitute: Substitute): (r: Result<string>)
    ensures node.dependsOn.deepNodes.None? ==> r == Err(KeyError(node.uniqueId))
    ensures r.Err? <==> SubstitutableUpstreams(node, results).Err?
    ensures r.Err? ==> r.error == SubstitutableUpstreams(node, results).error
    ensures r.Ok? ==> r.value == ReplaceAll(sql, SubstitutableUpstreams(node, results).value, substitute)
  {
    match SubstitutableUpstreams(node, results)
    case Err(e) => Err(e)
    case Ok(completed) => Ok(ReplaceAll(sql, completed, substitute))
  }

  /** Both versions of `insert_dependant_sql_literals` raise on exactly the same inputs, with the same error. */
  lemma InsertLiteralsAgree(sql: string, node: Node, results: map<string, DryRunResult>,
                            substitute: Substitute, replaceUpstreamSql: (string, seq<DryRunResult>) -> string)
    ensures InsertLiteralsStep(sql, node, results, substitute).Err?
            <==> Literals.InsertDependantSqlLiterals(node, results, replaceUpstreamSql).Err?
    ensures InsertLiteralsStep(sql, node, results, substitute).Err? ==>
            InsertLiteralsStep(sql, node, results, substitute).error
            == Literals.InsertDependantSqlLiterals(node, results, replaceUpstreamSql).error
  {
  }

  /**
   * Upstreams without a table are not substituted: when no present upstream
   * has one and all of them succeeded, the statement comes back unchanged.
   */
  lemma InsertLiteralsWithoutTables(sql: string, node: Node, results: map<string, DryRunResult>, substitute: Substitute)
    requires node.dependsOn.deepNodes.Some?
    requires forall n :: n in node.dependsOn.deepNodes.value && n in results ==>
      results[n].status == DryRunStatus.SUCCESS && results[n].table.None?
    ensures InsertLiteralsStep(sql, node, results, substitute) == Ok(sql)
  {
  }

  /** `insert_dependant_sql_literals`: the checks, then one substitution per completed upstream. */
  method InsertDependantSqlLiterals(sql: string, node: Node, results: map<string, DryRunResult>,
                                    substitute: Substitute) returns (r: Result<string>)
    ensures r == InsertLiteralsStep(sql, node, results, substitute)
  {
    var checked := SubstitutableUpstreams(node, results);
    if checked.Err? {
      return Err(checked.error);
    }
    var completed := checked.value;
    var newSql := sql;
    for i := 0 to |completed|
      invariant ReplaceAll(newSql, completed[i..], substitute) == ReplaceAll(sql, completed, substitute)
    {
      assert completed[i..][1..] == completed[i + 1..];
      newSql := substitute(newSql, completed[i].node, completed[i].table.value);
    }
    r := Ok(newSql);
  }

  // ---------------------------------------------------------------------------
  // The preprocessor

  /** The steps a preprocessor can be built from. */
  datatype Step = InsertLiterals | SqlHeader | ViewWrap | MaxPartition

  /** One step applied to the statement so far; only the literal step can raise. */
  function ApplyStep(step: Step, sql: string, node: Node, results: map<string, DryRunResult>,
                     substitute: Substitute): (r: Result<string>)
    ensures step != InsertLiterals ==> r.Ok?
    ensures step == SqlHeader || step == MaxPartition ==> r.Ok? && EndsWith(r.value, sql)
  {
    match step
    case InsertLiterals => InsertLiteralsStep(sql, node, results, substitute)
    case SqlHeader => Ok(AddSqlHeader(sql, node))
    case ViewWrap => Ok(CreateOrReplaceView(sql, node))
    case MaxPartition => Ok(AddDbtMaxPartitionDeclaration(sql, node))
  }

  /**
   * The steps applied left to right, each to the previous one's output,
   * starting from `sql`; the first step that raises ends the fold.
   */
  function Preprocess(steps: seq<Step>, sql: string, node: Node, results: map<string, DryRunResult>,
                      substitute: Substitute): (r: Result<string>)
    ensures steps == [] ==> r == Ok(sql)
    ensures InsertLiterals !in steps ==> r.Ok?
    decreases |steps|
  {
    if steps == [] then Ok(sql)
    else
      match ApplyStep(steps[0], sql, node, results, substitute)
      case Err(e) => Err(e)
      case Ok(next) =>
        assert InsertLiterals !in steps ==> InsertLiterals !in steps[1..];
        Preprocess(steps[1..], next, node, results, substitute)
  }

  /** Running two lists of steps one after the other is running their concatenation. */
  lemma {:induction false} PreprocessAppend(a: seq<Step>, b: seq<Step>, sql: string, node: Node,
                                            results: map<string, DryRunResult>, substitute: Substitute)
    ensures Preprocess(a + b, sql, node, results, substitute) ==
      match Preprocess(a, sql, node, results, substitute)
      case Err(e) => Err(e)
      case Ok(s) => Preprocess(b, s, node, results, substitute)
    decreases |a|
  {
    if a == [] {
      assert a + b == b;
    } else {
      assert (a + b)[0] == a[0];
      assert (a + b)[1..] == a[1..] + b;
      match ApplyStep(a[0], sql, node, results, substitute)
      case Err(e) =>
      case Ok(next) => PreprocessAppend(a[1..], b, next, node, results, substitute);
    }
  }

  /** The literal step raises exactly when the whole preprocessing of a list starting with it does. */
  lemma PreprocessRaisesLikeLiterals(steps: seq<Step>, node: Node, results: map<string, DryRunResult>,
                                     substitute: Substitute)
    requires steps != [] && steps[0] == InsertLiterals && InsertLiterals !in steps[1..]
    ensures Preprocess(steps, node.compiledCode, node, results, substitute).Err?
            <==> SubstitutableUpstreams(node, results).Err?
    ensures Preprocess(steps, node.compiledCode, node, results, substitute).Err? ==>
            Preprocess(steps, node.compiledCode, node, results, substitute).error
            == SubstitutableUpstreams(node, results).error
  {
  }

  /** One step, run for its effect on the statement (the literal step by its loop). */
  method RunStep(step: Step, sql: string, node: Node, results: map<string, DryRunResult>,
                 substitute: Substitute) returns (r: Result<string>)
    ensures r == ApplyStep(step, sql, node, results, substitute)
  {
    match step
    case InsertLiterals => r := InsertDependantSqlLiterals(sql, node, results, substitute);
    case SqlHeader => r := Ok(AddSqlHeader(sql, node));
    case ViewWrap => r := Ok(CreateOrReplaceView(sql, node));
    case MaxPartition => r := Ok(AddDbtMaxPartitionDeclaration(sql, node));
  }

  /** `SQLPreprocessor`: a fixed list of steps, applied to a node's compiled code when called. */
  class SqlPreprocessor {
    const transformers: seq<Step>

    constructor (transformers: seq<Step>)
      ensures this.transformers == transformers
    {
      this.transformers := transformers;
    }

    /** `__call__`: the compiled code rewritten by each step in turn; a raising step ends the call. */
    method Call(node: Node, results: map<string, DryRunResult>, substitute: Substitute) returns (r: Result<string>)
      ensures r == Preprocess(transformers, node.compiledCode, node, results, substitute)
    {
      var sql := node.compiledCode;
      var i := 0;
      assert transformers[0..] == transformers;
      while i < |transformers|
        invariant 0 <= i <= |transformers|
        invariant Preprocess(transformers, node.compiledCode, node, results, substitute)
                  == Preprocess(transformers[i..], sql, node, results, substitute)
      {
        assert transformers[i..][0] == transformers[i];
        assert transformers[i..][1..] == transformers[i + 1..];
        var next := RunStep(transformers[i], sql, node, results, substitute);
        if next.Err? {
          return Err(next.error);
        }
        sql := next.value;
        i := i + 1;
      }
      r := Ok(sql);
    }
  }
}
