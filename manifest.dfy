/**
 * The manifest's node model: table references, partition settings, node
 * configuration and the node-level predicates the runners consult.
 */
module Manifest {
  import opened Wrappers
  import opened Exceptions
  import opened Strings

  datatype OnSchemaChange = APPEND_NEW_COLUMNS | FAIL | IGNORE | SYNC_ALL_COLUMNS

  datatype TableRef = TableRef(database: string, dbSchema: string, name: string)

  function Backticked(s: string): string
  {
    "`" + s + "`"
  }

  /** `TableRef.bq_literal`: the three backtick-quoted parts joined by ".". */
  function BqLiteral(r: TableRef): (s: string)
    ensures s == Join([Backticked(r.database), Backticked(r.dbSchema), Backticked(r.name)], ".")
    ensures StartsWith(s, "`") && EndsWith(s, "`")
  {
    var s := "`" + r.database + "`.`" + r.dbSchema + "`.`" + r.name + "`";
    assert Join([Backticked(r.dbSchema), Backticked(r.name)], ".") == Backticked(r.dbSchema) + "." + Backticked(r.name);
    s
  }

  /** Index of the first occurrence of `c` in `s`, or `|s|` when there is none. */
  function IndexOfChar(s: string, c: char): (i: nat)
    ensures i <= |s|
    ensures i < |s| ==> s[i] == c
    ensures forall j :: 0 <= j < i ==> s[j] != c
  {
    if s == [] || s[0] == c then 0 else 1 + IndexOfChar(s[1..], c)
  }

  lemma {:induction false} IndexOfCharAfter(a: string, c: char, rest: string)
    requires c !in a
    ensures IndexOfChar(a + [c] + rest, c) == |a|
    decreases |a|
  {
    if a != [] {
      assert (a + [c] + rest)[1..] == a[1..] + [c] + rest;
      IndexOfCharAfter(a[1..], c, rest);
    } else {
      assert a + [c] + rest == [c] + rest;
    }
  }

  /** A quoted identifier without backticks inside is recovered from the front of a literal. */
  lemma BacktickedPrefix(a: string, b: string, rest1: string, rest2: string)
    requires '`' !in a && '`' !in b
    requires Backticked(a) + rest1 == Backticked(b) + rest2
    ensures a == b && rest1 == rest2
  {
    var s := Backticked(a) + rest1;
    assert s[1..] == a + ['`'] + rest1;
    assert s[1..] == b + ['`'] + rest2;
    IndexOfCharAfter(a, '`', rest1);
    IndexOfCharAfter(b, '`', rest2);
    assert a == s[1..][..|a|];
    assert b == s[1..][..|b|];
    assert rest1 == s[|a| + 2..];
    assert rest2 == s[|b| + 2..];
  }

  lemma BqLiteralParts(r: TableRef)
    ensures BqLiteral(r) == Backticked(r.database) + ("." + (Backticked(r.dbSchema) + ("." + Backticked(r.name))))
  {
  }

  /** Table references whose parts hold no backtick render to distinct literals. */
  lemma BqLiteralInjective(r1: TableRef, r2: TableRef)
    requires '`' !in r1.database && '`' !in r1.dbSchema && '`' !in r1.name
    requires '`' !in r2.database && '`' !in r2.dbSchema && '`' !in r2.name
    requires BqLiteral(r1) == BqLiteral(r2)
    ensures r1 == r2
  {
    var n1, n2 := Backticked(r1.name), Backticked(r2.name);
    var t1 := Backticked(r1.dbSchema) + ("." + n1);
    var t2 := Backticked(r2.dbSchema) + ("." + n2);
    BqLiteralParts(r1);
    BqLiteralParts(r2);
    BacktickedPrefix(r1.database, r2.database, "." + t1, "." + t2);
    assert t1 == ("." + t1)[1..] && t2 == ("." + t2)[1..];
    BacktickedPrefix(r1.dbSchema, r2.dbSchema, "." + n1, "." + n2);
    assert n1 == ("." + n1)[1..] && n2 == ("." + n2)[1..];
    BacktickedPrefix(r1.name, r2.name, [], []);
  }

  // ---------------------------------------------------------------------------
  // Partitioning

  datatype PartitionDataType = TIMESTAMP_PARTITION | DATE_PARTITION | DATETIME_PARTITION | INT64_PARTITION

  /** The literal value of `PartitionBy.data_type`. */
  function PartitionDataTypeValue(t: PartitionDataType): string
  {
    match t
    case TIMESTAMP_PARTITION => "timestamp"
    case DATE_PARTITION => "date"
    case DATETIME_PARTITION => "datetime"
    case INT64_PARTITION => "int64"
  }

  datatype IntPartitionRange = IntPartitionRange(start: int, end: int, interval: int)

  datatype PartitionBy = PartitionBy(
    field: string,
    dataType: PartitionDataType,
    range: Option<IntPartitionRange>,
    timeIngestionPartitioning: Option<bool>)

  /**
   * Building a `PartitionBy`: the `data_type` given is lower-cased first and
   * must then be one of the four literal values; otherwise validation fails.
   */
  function ParsePartitionBy(field: string, dataType: string, range: Option<IntPartitionRange>,
                            timeIngestionPartitioning: Option<bool>): (r: Result<PartitionBy>)
    ensures r.Ok? <==> exists t :: PartitionDataTypeValue(t) == Lower(dataType)
    ensures r.Ok? ==> PartitionDataTypeValue(r.value.dataType) == Lower(dataType)
    ensures r.Ok? ==> r.value.field == field && r.value.range == range
                      && r.value.timeIngestionPartitioning == timeIngestionPartitioning
  {
    var lowered := Lower(dataType);
    var t :=
      if lowered == "timestamp" then Some(TIMESTAMP_PARTITION)
      else if lowered == "date" then Some(DATE_PARTITION)
      else if lowered == "datetime" then Some(DATETIME_PARTITION)
      else if lowered == "int64" then Some(INT64_PARTITION)
      else None;
    if t.None? then
      assert forall t :: PartitionDataTypeValue(t) != lowered;
      Err(ValueError(dataType))
    else
      assert PartitionDataTypeValue(t.value) == lowered;
      Ok(PartitionBy(field, t.value, range, timeIngestionPartitioning))
  }

  /** Upper-case data types are accepted and stored lower-case. */
  lemma PartitionByCaseInsensitive()
    ensures ParsePartitionBy("a_field", "TIMESTAMP", None, None)
            == Ok(PartitionBy("a_field", TIMESTAMP_PARTITION, None, None))
  {
    LowerTimestamp();
  }

  lemma LowerTimestamp()
    ensures Lower("TIMESTAMP") == "timestamp"
  {
  }

  // ---------------------------------------------------------------------------
  // Nodes

  /** A metadata value; `Null` is a JSON null, read back as Python's None. */
  datatype MetaValue = Null | Bool(b: bool) | Int(i: int) | Str(s: string)

  type NodeMeta = map<string, MetaValue>

  datatype UniqueKey = KeyColumn(column: string) | KeyColumns(columns: seq<string>)

  datatype SnapshotStrategy = TimestampStrategy | CheckStrategy

  /** `check_cols`: the literal "all" or a list of column names. */
  datatype CheckCols = AllColumns | Columns(columns: seq<string>)

  datatype HardDeletes = HardDeletesIgnore | HardDeletesInvalidate | HardDeletesNewRecord

  datatype NodeConfig = NodeConfig(
    enabled: bool,
    materialized: Option<string>,
    onSchemaChange: Option<OnSchemaChange>,
    sqlHeader: Option<string>,
    uniqueKey: Option<UniqueKey>,
    updatedAt: Option<string>,
    strategy: Option<SnapshotStrategy>,
    checkCols: Option<CheckCols>,
    partitionBy: Option<PartitionBy>,
    meta: Option<NodeMeta>,
    fullRefresh: Option<bool>,
    columnTypes: map<string, string>,
    hardDeletes: Option<HardDeletes>)

  datatype ManifestColumn = ManifestColumn(name: string, description: Option<string>, dataType: Option<string>)

  datatype ExternalConfig = ExternalConfig(location: string, dryRunColumns: seq<ManifestColumn>)

  /**
   * `depends_on`: the direct upstream ids and the runnable upstream ids that
   * the scheduler fills in (`deep_nodes`, None until then).
   */
  datatype NodeDependsOn = NodeDependsOn(macros: seq<string>, nodes: seq<string>, deepNodes: Option<seq<string>>)

  datatype Node = Node(
    name: string,
    config: NodeConfig,
    uniqueId: string,
    dependsOn: NodeDependsOn,
    compiled: bool,
    compiledCode: string,
    database: string,
    dbSchema: string,
    alias: string,
    language: Option<string>,
    resourceType: string,
    originalFilePath: string,
    rootPath: Option<string>,
    columns: map<string, ManifestColumn>,
    meta: Option<NodeMeta>,
    external: Option<ExternalConfig>)

  /** The alias a node is built with: the given alias unless missing or empty, else the name. */
  function DefaultAlias(alias: Option<string>, name: string): (r: string)
    ensures alias.Some? && alias.value != "" ==> r == alias.value
    ensures alias.None? || alias.value == "" ==> r == name
  {
    match alias
    case Some(a) => if a != "" then a else name
    case None => name
  }

  /** `Node.table_ref`: the node's database and schema, named by its alias, or its name if the alias is empty. */
  function TableRefOf(n: Node): (r: TableRef)
    ensures r.database == n.database && r.dbSchema == n.dbSchema
    ensures r.name == (if n.alias != "" then n.alias else n.name)
  {
    TableRef(n.database, n.dbSchema, if n.alias != "" then n.alias else n.name)
  }

  /** A node built from a non-empty name always names its table by the defaulted alias. */
  lemma TableRefUsesDefaultAlias(n: Node, alias: Option<string>)
    requires n.name != "" && n.alias == DefaultAlias(alias, n.name)
    ensures TableRefOf(n).name == n.alias != ""
    ensures alias.Some? && alias.value != "" ==> TableRefOf(n).name == alias.value
  {
  }

  /** `meta.get(key) if meta else None`, where a stored null also reads as None. */
  function MetaLookup(meta: Option<NodeMeta>, key: string): (r: Option<MetaValue>)
    ensures r.Some? <==> meta.Some? && key in meta.value && meta.value[key] != Null
    ensures r.Some? ==> r.value == meta.value[key]
  {
    if meta.Some? && key in meta.value && meta.value[key] != Null then Some(meta.value[key]) else None
  }

  /** `Node.get_combined_metadata`: the config-level value unless it is None, else the node-level value. */
  function CombinedMetadata(n: Node, key: string): (r: Option<MetaValue>)
    ensures MetaLookup(n.config.meta, key).Some? ==> r == MetaLookup(n.config.meta, key)
    ensures MetaLookup(n.config.meta, key).None? ==> r == MetaLookup(n.meta, key)
    ensures r.Some? ==> r.value != Null
  {
    var nodeMeta := MetaLookup(n.meta, key);
    var configMeta := MetaLookup(n.config.meta, key);
    if configMeta.Some? then configMeta else nodeMeta
  }

  /** `Node.is_external_source`. */
  function IsExternalSource(n: Node): (r: bool)
    ensures r <==> n.external.Some? && n.resourceType == "source"
  {
    n.external.Some? && n.resourceType == "source"
  }

  /** `Node.get_should_full_refresh`: the node's own setting wins over the global flag. */
  function ShouldFullRefresh(n: Node, globalFullRefresh: bool): (r: bool)
    ensures n.config.fullRefresh.Some? ==> r == n.config.fullRefresh.value
    ensures n.config.fullRefresh.None? ==> r == globalFullRefresh
  {
    match n.config.fullRefresh
    case Some(b) => b
    case None => globalFullRefresh
  }

  /** `Node.is_time_ingestion_partitioned`: only an explicit True counts. */
  function IsTimeIngestionPartitioned(n: Node): (r: bool)
    ensures r <==> n.config.partitionBy.Some? && n.config.partitionBy.value.timeIngestionPartitioning == Some(true)
  {
    match n.config.partitionBy
    case None => false
    case Some(p) => p.timeIngestionPartitioning == Some(true)
  }

  datatype Manifest = Manifest(nodes: map<string, Node>, sources: map<string, Node>)

  /** `Manifest.all_nodes`: nodes and sources together, the source winning on a shared id. */
  function AllNodes(m: Manifest): (r: map<string, Node>)
    ensures r.Keys == m.nodes.Keys + m.sources.Keys
    ensures forall k :: k in m.sources ==> r[k] == m.sources[k]
    ensures forall k :: k in m.nodes && k !in m.sources ==> r[k] == m.nodes[k]
  {
    m.nodes + m.sources
  }
}
