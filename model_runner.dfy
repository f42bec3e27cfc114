/**
 * The model runner: the older runner for models of every materialization,
 * with its own append and sync handlers, its SQL rewrite (view wrap, header,
 * `_dbt_max_partition` declaration) and its run against the warehouse.
 */
module ModelRunner {
  import opened Wrappers
  import opened Exceptions
  import opened Strings
  import opened Schema
  import opened Manifest
  import opened DryRunResults
  import opened Literals
  import opened Statements
  import opened SchemaChangeHandlers
  import opened Warehouse

  // ---------------------------------------------------------------------------
  // Dictionaries from field name to field

  /*
   * A Python dict `{field.name: field ...}` is its values in insertion
   * order; the key of each value is its name, so no two values share a name.
   */

  predicate DistinctNames(fs: seq<TableField>)
  {
    forall i, j :: 0 <= i < j < |fs| ==> fs[i].name != fs[j].name
  }

  /** The position of the field named `n`, or `|fs|` when there is none. */
  function IndexOfName(fs: seq<TableField>, n: string): (i: nat)
    ensures i <= |fs|
    ensures i < |fs| ==> fs[i].name == n
    ensures forall j :: 0 <= j < i ==> fs[j].name != n
    ensures i < |fs| <==> n in NamesOf(fs)
  {
    if fs == [] || fs[0].name == n then 0 else 1 + IndexOfName(fs[1..], n)
  }

  /** `d[f.name] = f`: a known key keeps its place and takes the new value; a new key goes last. */
  function Put(d: seq<TableField>, f: TableField): (r: seq<TableField>)
    ensures DistinctNames(d) ==> DistinctNames(r)
    ensures NamesOf(r) == NamesOf(d) + {f.name}
  {
    var i := IndexOfName(d, f.name);
    if i < |d| then
      ReplaceSameName(d, i, f);
      d[i := f]
    else
      AppendNewName(d, f);
      d + [f]
  }

  lemma ReplaceSameName(d: seq<TableField>, i: nat, f: TableField)
    requires i < |d| && d[i].name == f.name
    ensures DistinctNames(d) ==> DistinctNames(d[i := f])
    ensures NamesOf(d[i := f]) == NamesOf(d) + {f.name}
  {
    assert forall k :: 0 <= k < |d| ==> d[i := f][k].name == d[k].name;
  }

  lemma AppendNewName(d: seq<TableField>, f: TableField)
    requires f.name !in NamesOf(d)
    ensures DistinctNames(d) ==> DistinctNames(d + [f])
    ensures NamesOf(d + [f]) == NamesOf(d) + {f.name}
  {
    NamesOfConcat(d, [f]);
    assert NamesOf([f]) == {f.name};
  }

  /** The names of a non-empty list: its head's and its tail's. */
  lemma NamesOfHeadTail(fs: seq<TableField>)
    requires fs != []
    ensures NamesOf(fs) == {fs[0].name} + NamesOf(fs[1..])
  {
    assert fs == [fs[0]] + fs[1..];
    NamesOfCons(fs[0], fs[1..]);
  }

  /** Each field put in turn, first to last: `d.update(...)` and the dict comprehension. */
  function PutAll(d: seq<TableField>, fs: seq<TableField>): (r: seq<TableField>)
    ensures DistinctNames(d) ==> DistinctNames(r)
    ensures NamesOf(r) == NamesOf(d) + NamesOf(fs)
    decreases |fs|
  {
    if fs == [] then d
    else
      NamesOfHeadTail(fs);
      UnionStep(NamesOf(d), fs[0].name, NamesOf(fs[1..]), NamesOf(fs));
      PutAll(Put(d, fs[0]), fs[1..])
  }

  /** Adding one name and then the rest adds all of them. */
  lemma UnionStep(a: set<string>, n: string, b: set<string>, c: set<string>)
    requires c == {n} + b
    ensures (a + {n}) + b == a + c
  {
  }

  /** `{field.name: field for field in fields}`. */
  function DictOf(fs: seq<TableField>): (r: seq<TableField>)
    ensures DistinctNames(r) && NamesOf(r) == NamesOf(fs)
  {
    PutAll([], fs)
  }

  /** `e[f.name]` when `e` has the key, else `f`. */
  function Lookup(f: TableField, e: seq<TableField>): (g: TableField)
    ensures g.name == f.name
    ensures f.name in NamesOf(e) ==> g in e
    ensures f.name !in NamesOf(e) ==> g == f
  {
    var i := IndexOfName(e, f.name);
    if i < |e| then e[i] else f
  }

  /** `d` with the value of every key that `e` also has taken from `e`. */
  function Overridden(d: seq<TableField>, e: seq<TableField>): (r: seq<TableField>)
    ensures |r| == |d|
    ensures forall i :: 0 <= i < |d| ==> r[i] == Lookup(d[i], e)
    decreases |d|
  {
    if d == [] then [] else [Lookup(d[0], e)] + Overridden(d[1..], e)
  }

  /** Looking up a name other than the first key's skips that key. */
  lemma {:induction false} LookupTail(f: TableField, e: seq<TableField>)
    requires e != [] && f.name != e[0].name
    ensures Lookup(f, e[1..]) == Lookup(f, e)
  {
    assert IndexOfName(e, f.name) == 1 + IndexOfName(e[1..], f.name);
  }

  lemma {:induction false} OverriddenReplace(d: seq<TableField>, e: seq<TableField>, j: nat)
    requires DistinctNames(d) && DistinctNames(e) && e != []
    requires j < |d| && d[j].name == e[0].name
    ensures Overridden(d[j := e[0]], e[1..]) == Overridden(d, e)
  {
    var rest := e[1..];
    assert e == [e[0]] + rest;
    NamesOfCons(e[0], rest);
    assert Lookup(e[0], rest) == e[0];
    var d' := d[j := e[0]];
    forall i | 0 <= i < |d| ensures Overridden(d', rest)[i] == Overridden(d, e)[i] {
      if i != j {
        LookupTail(d[i], e);
      }
    }
  }

  lemma {:induction false} OverriddenAppend(d: seq<TableField>, e: seq<TableField>)
    requires DistinctNames(e) && e != [] && e[0].name !in NamesOf(d)
    ensures Overridden(d + [e[0]], e[1..]) == Overridden(d, e) + [e[0]]
  {
    var rest := e[1..];
    assert e == [e[0]] + rest;
    NamesOfCons(e[0], rest);
    assert Lookup(e[0], rest) == e[0];
    var d' := d + [e[0]];
    forall i | 0 <= i < |d'| ensures Overridden(d', rest)[i] == (Overridden(d, e) + [e[0]])[i] {
      if i < |d| {
        assert d'[i] == d[i] && d[i].name != e[0].name;
        LookupTail(d[i], e);
      }
    }
  }

  /** A name no field has does not change the filter. */
  lemma {:induction false} WithoutNamesExtra(fs: seq<TableField>, names: set<string>, n: string)
    requires n !in NamesOf(fs)
    ensures WithoutNames(fs, names + {n}) == WithoutNames(fs, names)
  {
    if fs != [] {
      assert fs == [fs[0]] + fs[1..];
      NamesOfCons(fs[0], fs[1..]);
      WithoutNamesExtra(fs[1..], names, n);
    }
  }

  /**
   * Updating a dict: its keys keep their order and take the other dict's
   * values where it has them, and the other dict's new keys follow in its order.
   */
  lemma {:induction false} PutAllSpec(d: seq<TableField>, e: seq<TableField>)
    requires DistinctNames(d) && DistinctNames(e)
    ensures PutAll(d, e) == Overridden(d, e) + WithoutNames(e, NamesOf(d))
    decreases |e|
  {
    if e == [] {
      assert Overridden(d, e) == d;
    } else {
      assert DistinctNames(e[1..]);
      PutAllSpec(Put(d, e[0]), e[1..]);
      PutStep(d, e);
    }
  }

  /** One put moves the first field of `e` from the pending fields into the dict. */
  lemma {:induction false} PutStep(d: seq<TableField>, e: seq<TableField>)
    requires DistinctNames(d) && DistinctNames(e) && e != []
    ensures Overridden(Put(d, e[0]), e[1..]) + WithoutNames(e[1..], NamesOf(Put(d, e[0])))
            == Overridden(d, e) + WithoutNames(e, NamesOf(d))
  {
    if e[0].name in NamesOf(d) {
      PutKnownStep(d, e);
    } else {
      var e0, rest := e[0], e[1..];
      PutNew(d, e0);
      PutNewStep(d, e);
      assert Overridden(Put(d, e0), rest) + WithoutNames(rest, NamesOf(Put(d, e0)))
          == Overridden(d + [e0], rest) + WithoutNames(rest, NamesOf(d) + {e0.name});
    }
  }

  lemma {:induction false} PutKnownStep(d: seq<TableField>, e: seq<TableField>)
    requires DistinctNames(d) && DistinctNames(e) && e != [] && e[0].name in NamesOf(d)
    ensures Overridden(Put(d, e[0]), e[1..]) + WithoutNames(e[1..], NamesOf(Put(d, e[0])))
            == Overridden(d, e) + WithoutNames(e, NamesOf(d))
  {
    PutKnown(d, e[0]);
    OverriddenReplace(d, e, IndexOfName(d, e[0].name));
    WithoutNamesKnownHead(e, NamesOf(d));
  }

  lemma PutKnown(d: seq<TableField>, f: TableField)
    requires f.name in NamesOf(d)
    ensures Put(d, f) == d[IndexOfName(d, f.name) := f]
    ensures NamesOf(Put(d, f)) == NamesOf(d)
  {
  }

  /** A field whose name is already taken is dropped. */
  lemma WithoutNamesKnownHead(e: seq<TableField>, names: set<string>)
    requires e != [] && e[0].name in names
    ensures WithoutNames(e, names) == WithoutNames(e[1..], names)
  {
    assert e == [e[0]] + e[1..];
  }

  lemma {:induction false} PutNewStep(d: seq<TableField>, e: seq<TableField>)
    requires DistinctNames(e) && e != [] && e[0].name !in NamesOf(d)
    ensures Overridden(d + [e[0]], e[1..]) + WithoutNames(e[1..], NamesOf(d) + {e[0].name})
            == Overridden(d, e) + WithoutNames(e, NamesOf(d))
  {
    OverriddenAppend(d, e);
    WithoutNamesNewHead(e, NamesOf(d));
    Regroup(Overridden(d + [e[0]], e[1..]), Overridden(d, e), e[0],
            WithoutNames(e[1..], NamesOf(d) + {e[0].name}), WithoutNames(e, NamesOf(d)));
  }

  lemma Regroup<T>(a: seq<T>, o: seq<T>, x: T, w: seq<T>, v: seq<T>)
    requires a == o + [x] && v == [x] + w
    ensures a + w == o + v
  {
  }

  lemma {:induction false} PutNew(d: seq<TableField>, f: TableField)
    requires f.name !in NamesOf(d)
    ensures Put(d, f) == d + [f]
  {
  }

  /** A field whose name is new stays, and its name then filters nothing further. */
  lemma {:induction false} WithoutNamesNewHead(e: seq<TableField>, names: set<string>)
    requires DistinctNames(e) && e != [] && e[0].name !in names
    ensures WithoutNames(e, names) == [e[0]] + WithoutNames(e[1..], names + {e[0].name})
  {
    assert e == [e[0]] + e[1..];
    NamesOfCons(e[0], e[1..]);
    WithoutNamesExtra(e[1..], names, e[0].name);
  }

  /** A list of fields with distinct names is its own dict. */
  lemma {:induction false} DictOfDistinct(fs: seq<TableField>)
    requires DistinctNames(fs)
    ensures DictOf(fs) == fs
  {
    PutAllSpec([], fs);
    var none: seq<TableField> := [];
    assert NamesOf(none) == {};
    assert Overridden(none, fs) == [];
    WithoutNamesNone(fs, {});
  }

  // ---------------------------------------------------------------------------
  // This file's handlers

  /**
   * `append_new_columns_handler` of this file: the predicted fields by name,
   * updated with the target's, so shared names take the target's definition
   * and target-only names follow.
   */
  function OldAppendNewColumnsHandler(r: DryRunResult, target: Table): (r': DryRunResult)
    ensures r.table.None? ==> r' == r
    ensures r.table.Some? ==> r'.table.Some? && r' == ReplaceTable(r, r'.table.value)
    ensures r.table.Some? ==> FieldNames(r'.table.value) == FieldNames(r.table.value) + FieldNames(target)
    ensures r.table.Some? ==> DistinctNames(r'.table.value.fields)
  {
    match r.table
    case None => r
    case Some(predicted) => ReplaceTable(r, Table(PutAll(DictOf(predicted.fields), DictOf(target.fields))))
  }

  /**
   * With distinct names on both sides, the predicted names come first in
   * predicted order, each with the target's field where the target has the
   * name, and then the target-only fields in target order.
   */
  lemma {:induction false} OldAppendOrder(r: DryRunResult, target: Table)
    requires r.table.Some? && DistinctNames(r.table.value.fields) && DistinctNames(target.fields)
    ensures OldAppendNewColumnsHandler(r, target).table ==
      Some(Table(Overridden(r.table.value.fields, target.fields)
                 + WithoutNames(target.fields, FieldNames(r.table.value))))
  {
    DictOfDistinct(r.table.value.fields);
    DictOfDistinct(target.fields);
    PutAllSpec(r.table.value.fields, target.fields);
  }

  /** Both append handlers end with the same field names, though in different orders. */
  lemma AppendVersionsSameNames(r: DryRunResult, target: Table)
    requires r.table.Some?
    ensures FieldNames(OldAppendNewColumnsHandler(r, target).table.value)
            == FieldNames(AppendNewColumnsHandler(r, target).table.value)
  {
  }

  /** `sync_all_columns_handler` of this file: the result unchanged. */
  function OldSyncAllColumnsHandler(r: DryRunResult, target: Table): (r': DryRunResult)
    ensures r' == r
  {
    r
  }

  /** This file's `ON_SCHEMA_CHANGE_TABLE_HANDLER`; its ignore and fail handlers are the same as the later ones. */
  function OldApplyHandler(onSchemaChange: OnSchemaChange, r: DryRunResult, target: Table): (r': DryRunResult)
    ensures onSchemaChange == IGNORE ==> r' == IgnoreHandler(r, target)
    ensures onSchemaChange == APPEND_NEW_COLUMNS ==> r' == OldAppendNewColumnsHandler(r, target)
    ensures onSchemaChange == SYNC_ALL_COLUMNS ==> r' == r
    ensures onSchemaChange == FAIL ==> r' == FailHandler(r, target)
  {
    match onSchemaChange
    case IGNORE => IgnoreHandler(r, target)
    case APPEND_NEW_COLUMNS => OldAppendNewColumnsHandler(r, target)
    case SYNC_ALL_COLUMNS => OldSyncAllColumnsHandler(r, target)
    case FAIL => FailHandler(r, target)
  }

  // ---------------------------------------------------------------------------
  // The run

  /** `_modify_sql`: a view wrap for views, then the header, then for incremental models the declaration. */
  function ModifySql(node: Node, sql: string): (r: string)
    ensures node.config.materialized == Some("view") ==> r == AddSqlHeader(WrapAsView(AliasRef(node), sql), node)
    ensures node.config.materialized == Some("incremental") ==>
      r == AddDbtMaxPartitionDeclaration(AddSqlHeader(sql, node), node)
    ensures node.config.materialized != Some("view") && node.config.materialized != Some("incremental") ==>
      r == AddSqlHeader(sql, node)
  {
    var viewed := if node.config.materialized == Some("view") then WrapAsView(AliasRef(node), sql) else sql;
    var headed := AddSqlHeader(viewed, node);
    if node.config.materialized == Some("incremental") then AddDbtMaxPartitionDeclaration(headed, node) else headed
  }

  /** With a header and a declaration, the declaration comes first, then the header, then the statement. */
  lemma DeclarationBeforeHeader(node: Node, sql: string)
    requires node.config.materialized == Some("incremental")
    requires HasSqlHeader(node) && NeedsMaxPartition(node)
    ensures ModifySql(node, sql) ==
      MaxPartitionDeclaration(node.config.partitionBy.value) + "\n" + (node.config.sqlHeader.value + "\n" + sql)
  {
  }

  /** Only incremental models get the declaration, whatever their code mentions. */
  lemma DeclarationOnlyForIncremental(node: Node, sql: string)
    requires node.config.materialized != Some("incremental")
    ensures ModifySql(node, sql) == AddSqlHeader(if node.config.materialized == Some("view")
                                                 then WrapAsView(AliasRef(node), sql) else sql, node)
  {
  }

  /** A view model is created under the same name `create_or_replace_view` uses when the alias is set. */
  lemma ViewWrapMatchesStatements(node: Node, sql: string)
    requires node.config.materialized == Some("view") && node.alias != ""
    ensures ModifySql(node, sql) == AddSqlHeader(CreateOrReplaceView(sql, node), node)
  {
  }

  /** What `run` returns once the query has been answered and, if asked for, the target schema read. */
  function Outcome(node: Node, response: QueryResponse, target: Option<Table>): (r: DryRunResult)
    ensures r.node == node
    ensures response.status != DryRunStatus.SUCCESS || node.config.materialized != Some("incremental") || target.None? ==>
      r == NewResult(node, response.table, response.status, response.exception)
    ensures response.status == DryRunStatus.SUCCESS && node.config.materialized == Some("incremental") && target.Some? ==>
      r == OldApplyHandler(node.config.onSchemaChange.GetOr(IGNORE),
                           NewResult(node, response.table, response.status, response.exception), target.value)
  {
    var result := NewResult(node, response.table, response.status, response.exception);
    if response.status == DryRunStatus.SUCCESS && node.config.materialized == Some("incremental") && target.Some?
    then OldApplyHandler(node.config.onSchemaChange.GetOr(IGNORE), result, target.value)
    else result
  }

  /** A missing `on_schema_change` behaves as ignore: the result takes the target table. */
  lemma MissingOnSchemaChangeIgnores(node: Node, response: QueryResponse, target: Table)
    requires response.status == DryRunStatus.SUCCESS && node.config.materialized == Some("incremental")
    requires node.config.onSchemaChange.None?
    ensures Outcome(node, response, Some(target)).table == Some(target)
    ensures Outcome(node, response, Some(target)).status == DryRunStatus.SUCCESS
  {
  }

  /**
   * `ModelRunner.run`: an upstream failure is a FAILURE result without any
   * call on the warehouse; otherwise one dry-run query of the rewritten
   * statement, then for a successful incremental model one schema lookup.
   * Errors other than an upstream failure propagate.
   */
  method Run(warehouse: SqlRunner, results: map<string, DryRunResult>, node: Node,
             replaceUpstreamSql: (string, seq<DryRunResult>) -> string) returns (r: Result<DryRunResult>)
    modifies warehouse
    ensures var inserted := Literals.InsertDependantSqlLiterals(node, results, replaceUpstreamSql);
      && (inserted.Err? && inserted.error.UpstreamFailed? ==>
            r == Ok(NewResult(node, None, DryRunStatus.FAILURE, Some(inserted.error)))
            && warehouse.log == old(warehouse.log))
      && (inserted.Err? && !inserted.error.UpstreamFailed? ==>
            r == Err(inserted.error) && warehouse.log == old(warehouse.log))
      && (inserted.Ok? ==>
            var sql := ModifySql(node, inserted.value);
            var response := warehouse.answer(sql);
            var lookup := response.status == DryRunStatus.SUCCESS && node.config.materialized == Some("incremental");
            && warehouse.log == old(warehouse.log) + [QueryCall(sql)] + (if lookup then [SchemaCall(node.uniqueId)] else [])
            && r == Ok(Outcome(node, response, if lookup then warehouse.schemaOf(node) else None)))
  {
    var inserted := Literals.InsertDependantSqlLiterals(node, results, replaceUpstreamSql);
    if inserted.Err? {
      if inserted.error.UpstreamFailed? {
        return Ok(NewResult(node, None, DryRunStatus.FAILURE, Some(inserted.error)));
      }
      return Err(inserted.error);
    }
    var runSql := ModifySql(node, inserted.value);
    var status, predictedTable, exception := warehouse.Query(runSql);
    var result := NewResult(node, predictedTable, status, exception);
    if status == DryRunStatus.SUCCESS && node.config.materialized == Some("incremental") {
      var targetTable := warehouse.GetNodeSchema(node);
      if targetTable.Some? {
        var onSchemaChange := node.config.onSchemaChange.GetOr(IGNORE);
        result := OldApplyHandler(onSchemaChange, result, targetTable.value);
      }
    }
    return Ok(result);
  }
}
