/**
 * The `on_schema_change` handlers of incremental models: how a predicted
 * table is reconciled with the table the warehouse already holds.
 */
module SchemaChangeHandlers {
  import opened Wrappers
  import opened Exceptions
  import opened Schema
  import opened Manifest
  import opened DryRunResults

  // ---------------------------------------------------------------------------
  // Field lists by name

  /** The names of a list of fields. */
  function NamesOf(fs: seq<TableField>): (r: set<string>)
    ensures r == FieldNames(Table(fs))
    ensures forall n :: n in r <==> exists i :: 0 <= i < |fs| && fs[i].name == n
  {
    set f | f in fs :: f.name
  }

  lemma NamesOfCons(f: TableField, fs: seq<TableField>)
    ensures NamesOf([f] + fs) == {f.name} + NamesOf(fs)
  {
    assert forall g :: g in [f] + fs <==> g == f || g in fs;
  }

  lemma NamesOfConcat(a: seq<TableField>, b: seq<TableField>)
    ensures NamesOf(a + b) == NamesOf(a) + NamesOf(b)
  {
    assert forall g :: g in a + b <==> g in a || g in b;
  }

  /** Filtering by name, one field at a time: the names kept are those of the first field, if kept, and the rest's. */
  lemma FilterNamesStep(fs: seq<TableField>, rest: seq<TableField>, names: set<string>, keep: bool)
    requires fs != []
    requires forall f :: f in rest ==> f in fs[1..]
    ensures forall f :: f in (if keep then [fs[0]] + rest else rest) <==> (keep && f == fs[0]) || f in rest
    ensures NamesOf(fs) == {fs[0].name} + NamesOf(fs[1..])
    ensures NamesOf(if keep then [fs[0]] + rest else rest) == (if keep then {fs[0].name} else {}) + NamesOf(rest)
  {
    NamesOfCons(fs[0], fs[1..]);
    assert fs == [fs[0]] + fs[1..];
    if keep {
      NamesOfCons(fs[0], rest);
    }
  }

  /** `[f for f in fs if f.name not in names]`. */
  function WithoutNames(fs: seq<TableField>, names: set<string>): (r: seq<TableField>)
    ensures |r| <= |fs|
    ensures forall f :: f in r <==> f in fs && f.name !in names
    ensures NamesOf(r) == NamesOf(fs) - names
  {
    if fs == [] then []
    else
      var rest := WithoutNames(fs[1..], names);
      FilterNamesStep(fs, rest, names, fs[0].name !in names);
      if fs[0].name !in names then [fs[0]] + rest else rest
  }

  /** `[f for f in fs if f.name in names]`. */
  function WithNames(fs: seq<TableField>, names: set<string>): (r: seq<TableField>)
    ensures |r| <= |fs|
    ensures forall f :: f in r <==> f in fs && f.name in names
    ensures NamesOf(r) == NamesOf(fs) * names
  {
    if fs == [] then []
    else
      var rest := WithNames(fs[1..], names);
      FilterNamesStep(fs, rest, names, fs[0].name in names);
      if fs[0].name in names then [fs[0]] + rest else rest
  }

  /** Filtering out names no field has changes nothing. */
  lemma {:induction false} WithoutNamesNone(fs: seq<TableField>, names: set<string>)
    requires NamesOf(fs) * names == {}
    ensures WithoutNames(fs, names) == fs
  {
    if fs != [] {
      assert fs == [fs[0]] + fs[1..];
      NamesOfCons(fs[0], fs[1..]);
      assert fs[0].name in NamesOf(fs);
      assert fs[0].name in NamesOf(fs) * names <==> fs[0].name in names;
      WithoutNamesNone(fs[1..], names);
      assert WithoutNames(fs, names) == [fs[0]] + WithoutNames(fs[1..], names);
    }
  }

  /** Keeping every name the fields have changes nothing. */
  lemma {:induction false} WithNamesAll(fs: seq<TableField>, names: set<string>)
    requires NamesOf(fs) <= names
    ensures WithNames(fs, names) == fs
  {
    if fs != [] {
      NamesOfCons(fs[0], fs[1..]);
      assert fs == [fs[0]] + fs[1..];
      WithNamesAll(fs[1..], names);
    }
  }

  /** Filtering a concatenation filters each part. */
  lemma {:induction false} WithoutNamesConcat(a: seq<TableField>, b: seq<TableField>, names: set<string>)
    ensures WithoutNames(a + b, names) == WithoutNames(a, names) + WithoutNames(b, names)
  {
    if a == [] {
      assert a + b == b;
    } else {
      assert (a + b)[0] == a[0];
      assert (a + b)[1..] == a[1..] + b;
      WithoutNamesConcat(a[1..], b, names);
    }
  }

  // ---------------------------------------------------------------------------
  // The handlers

  /** The predicted fields the target lacks, in predicted order. */
  function NewColumns(predicted: Table, target: Table): (r: seq<TableField>)
    ensures forall f :: f in r <==> f in predicted.fields && f.name !in FieldNames(target)
    ensures NamesOf(r) == FieldNames(predicted) - FieldNames(target)
  {
    WithoutNames(predicted.fields, FieldNames(target))
  }

  /** The target fields the prediction still has, in target order. */
  function ExistingColumns(predicted: Table, target: Table): (r: seq<TableField>)
    ensures forall f :: f in r <==> f in target.fields && f.name in FieldNames(predicted)
    ensures NamesOf(r) == FieldNames(target) * FieldNames(predicted)
  {
    WithNames(target.fields, FieldNames(predicted))
  }

  /** `ignore_handler`: the result takes the target table as it is. */
  function IgnoreHandler(r: DryRunResult, target: Table): (r': DryRunResult)
    ensures r'.table == Some(target)
    ensures r'.node == r.node && r'.status == r.status && r'.exception == r.exception
  {
    ReplaceTable(r, target)
  }

  /**
   * `append_new_columns_handler`: the target's fields in target order, then
   * the predicted fields the target lacks; nothing without a prediction.
   */
  function AppendNewColumnsHandler(r: DryRunResult, target: Table): (r': DryRunResult)
    ensures r.table.None? ==> r' == r
    ensures r.table.Some? ==> r' == ReplaceTable(r, Table(target.fields + NewColumns(r.table.value, target)))
    ensures r.table.Some? ==> FieldNames(r'.table.value) == FieldNames(target) + FieldNames(r.table.value)
  {
    match r.table
    case None => r
    case Some(predicted) =>
      NamesOfConcat(target.fields, NewColumns(predicted, target));
      ReplaceTable(r, Table(target.fields + NewColumns(predicted, target)))
  }

  /**
   * `sync_all_columns_handler`: the target's fields the prediction keeps, in
   * target order, then the predicted fields the target lacks.
   */
  function SyncAllColumnsHandler(r: DryRunResult, target: Table): (r': DryRunResult)
    ensures r.table.None? ==> r' == r
    ensures r.table.Some? ==>
      r' == ReplaceTable(r, Table(ExistingColumns(r.table.value, target) + NewColumns(r.table.value, target)))
    ensures r.table.Some? ==> FieldNames(r'.table.value) == FieldNames(r.table.value)
  {
    match r.table
    case None => r
    case Some(predicted) =>
      NamesOfConcat(ExistingColumns(predicted, target), NewColumns(predicted, target));
      ReplaceTable(r, Table(ExistingColumns(predicted, target) + NewColumns(predicted, target)))
  }

  /**
   * `fail_handler`: FAILURE with a schema-change error naming the added and
   * removed fields when the name sets differ; otherwise the target table
   * with the status and exception kept.
   */
  function FailHandler(r: DryRunResult, target: Table): (r': DryRunResult)
    ensures r.table.None? ==> r' == r
    ensures r.table.Some? && FieldNames(r.table.value) != FieldNames(target) ==>
      r' == NewResult(r.node, None, DryRunStatus.FAILURE,
                      Some(SchemaChange(FieldNames(r.table.value) - FieldNames(target),
                                        FieldNames(target) - FieldNames(r.table.value))))
    ensures r.table.Some? && FieldNames(r.table.value) == FieldNames(target) ==>
      r' == NewResult(r.node, Some(target), r.status, r.exception)
  {
    match r.table
    case None => r
    case Some(predicted) =>
      var added := FieldNames(predicted) - FieldNames(target);
      var removed := FieldNames(target) - FieldNames(predicted);
      if added != {} || removed != {} then
        NewResult(r.node, None, DryRunStatus.FAILURE, Some(SchemaChange(added, removed)))
      else
        assert FieldNames(predicted) == FieldNames(target);
        NewResult(r.node, Some(target), r.status, r.exception)
  }

  /** `ON_SCHEMA_CHANGE_TABLE_HANDLER`: one handler for each `on_schema_change` value. */
  function ApplyHandler(onSchemaChange: OnSchemaChange, r: DryRunResult, target: Table): (r': DryRunResult)
    ensures onSchemaChange == IGNORE ==> r' == IgnoreHandler(r, target)
    ensures onSchemaChange == APPEND_NEW_COLUMNS ==> r' == AppendNewColumnsHandler(r, target)
    ensures onSchemaChange == SYNC_ALL_COLUMNS ==> r' == SyncAllColumnsHandler(r, target)
    ensures onSchemaChange == FAIL ==> r' == FailHandler(r, target)
  {
    match onSchemaChange
    case IGNORE => IgnoreHandler(r, target)
    case APPEND_NEW_COLUMNS => AppendNewColumnsHandler(r, target)
    case SYNC_ALL_COLUMNS => SyncAllColumnsHandler(r, target)
    case FAIL => FailHandler(r, target)
  }

  // ---------------------------------------------------------------------------
  // Properties

  /** Only FAIL can change the status, and only to FAILURE; the node is never changed. */
  lemma HandlersKeepStatus(onSchemaChange: OnSchemaChange, r: DryRunResult, target: Table)
    ensures ApplyHandler(onSchemaChange, r, target).node == r.node
    ensures onSchemaChange != FAIL ==> ApplyHandler(onSchemaChange, r, target).status == r.status
    ensures ApplyHandler(onSchemaChange, r, target).status in {r.status, DryRunStatus.FAILURE}
  {
  }

  /** Appending again to the same target changes nothing more. */
  lemma AppendIdempotent(r: DryRunResult, target: Table)
    ensures AppendNewColumnsHandler(AppendNewColumnsHandler(r, target), target)
            == AppendNewColumnsHandler(r, target)
  {
    if r.table.Some? {
      var added := NewColumns(r.table.value, target);
      var once := Table(target.fields + added);
      WithoutNamesConcat(target.fields, added, FieldNames(target));
      assert NamesOf(target.fields) * FieldNames(target) == NamesOf(target.fields);
      WithoutNamesAll(target.fields, FieldNames(target));
      WithoutNamesNone(added, FieldNames(target));
      assert NewColumns(once, target) == added;
    }
  }

  /** Everything whose name is in `names` is filtered out. */
  lemma {:induction false} WithoutNamesAll(fs: seq<TableField>, names: set<string>)
    requires NamesOf(fs) <= names
    ensures WithoutNames(fs, names) == []
  {
    if fs != [] {
      NamesOfCons(fs[0], fs[1..]);
      WithoutNamesAll(fs[1..], names);
    }
  }

  /** Synchronising again with the same target changes nothing more. */
  lemma SyncIdempotent(r: DryRunResult, target: Table)
    ensures SyncAllColumnsHandler(SyncAllColumnsHandler(r, target), target)
            == SyncAllColumnsHandler(r, target)
  {
    if r.table.Some? {
      var predicted := r.table.value;
      var kept := ExistingColumns(predicted, target);
      var added := NewColumns(predicted, target);
      var once := Table(kept + added);
      assert FieldNames(once) == FieldNames(predicted);
      assert ExistingColumns(once, target) == kept;
      WithoutNamesConcat(kept, added, FieldNames(target));
      WithoutNamesAll(kept, FieldNames(target));
      WithoutNamesNone(added, FieldNames(target));
      assert NewColumns(once, target) == added;
    }
  }

  /** After a successful FAIL check the result holds exactly the target table. */
  lemma FailKeepsTarget(r: DryRunResult, target: Table)
    requires r.table.Some?
    requires FailHandler(r, target).status == DryRunStatus.SUCCESS
    ensures r.status == DryRunStatus.SUCCESS
    ensures FailHandler(r, target).table == Some(target)
    ensures FieldNames(r.table.value) == FieldNames(target)
  {
  }

  /** The append test: the target's order is kept and the new column follows. */
  lemma AppendPreservesTargetOrder(r: DryRunResult, c1: TableField, c2: TableField, c3: TableField,
                                   t2: TableField, t1: TableField)
    requires c1.name == "col_1" && c2.name == "col_2" && c3.name == "col_3"
    requires t1.name == "col_1" && t2.name == "col_2"
    requires r.table == Some(Table([c1, c2, c3]))
    ensures AppendNewColumnsHandler(r, Table([t2, t1])).table == Some(Table([t2, t1, c3]))
  {
    var target := Table([t2, t1]);
    var names := FieldNames(target);
    assert names == {"col_2", "col_1"};
    assert "col_3" != "col_1" && "col_3" != "col_2";
    assert WithoutNames([c3], names) == [c3];
    assert WithoutNames([c2, c3], names) == [c3] by { assert [c2, c3][1..] == [c3]; }
    assert WithoutNames([c1, c2, c3], names) == [c3] by { assert [c1, c2, c3][1..] == [c2, c3]; }
    assert target.fields + [c3] == [t2, t1, c3];
  }

  /**
   * The sync test: predicted columns col_3, col_2, col_4 against target
   * columns col_1, col_2, col_3 give the kept target columns in target
   * order, col_2 and col_3, then the new column col_4.
   */
  lemma SyncPreservesTargetOrder(r: DryRunResult, target: Table)
    requires r.table.Some? && |r.table.value.fields| == 3 && |target.fields| == 3
    requires r.table.value.fields[0].name == "col_3" && r.table.value.fields[1].name == "col_2"
    requires r.table.value.fields[2].name == "col_4"
    requires target.fields[0].name == "col_1" && target.fields[1].name == "col_2"
    requires target.fields[2].name == "col_3"
    ensures SyncAllColumnsHandler(r, target).table ==
      Some(Table([target.fields[1], target.fields[2], r.table.value.fields[2]]))
  {
    SyncTable(r, target);
    SyncExampleFields(r.table.value, target);
  }

  lemma SyncExampleFields(predicted: Table, target: Table)
    requires |predicted.fields| == 3 && |target.fields| == 3
    requires predicted.fields[0].name == "col_3" && predicted.fields[1].name == "col_2"
    requires predicted.fields[2].name == "col_4"
    requires target.fields[0].name == "col_1" && target.fields[1].name == "col_2"
    requires target.fields[2].name == "col_3"
    ensures ExistingColumns(predicted, target) + NewColumns(predicted, target) ==
      [target.fields[1], target.fields[2], predicted.fields[2]]
  {
    SyncExampleKept(predicted, target);
    SyncExampleAdded(predicted, target);
    LastTwoThenLast(target.fields, predicted.fields);
  }

  lemma LastTwoThenLast(a: seq<TableField>, b: seq<TableField>)
    requires |a| == 3 && |b| == 3
    ensures a[1..] + b[2..] == [a[1], a[2], b[2]]
  {
  }

  lemma SyncTable(r: DryRunResult, target: Table)
    requires r.table.Some?
    ensures SyncAllColumnsHandler(r, target).table ==
      Some(Table(ExistingColumns(r.table.value, target) + NewColumns(r.table.value, target)))
  {
  }

  lemma SyncExampleKept(predicted: Table, target: Table)
    requires |predicted.fields| == 3 && |target.fields| == 3
    requires predicted.fields[0].name == "col_3" && predicted.fields[1].name == "col_2"
    requires predicted.fields[2].name == "col_4"
    requires target.fields[0].name == "col_1" && target.fields[1].name == "col_2"
    requires target.fields[2].name == "col_3"
    ensures ExistingColumns(predicted, target) == target.fields[1..]
  {
    var names := FieldNames(predicted);
    var fs := target.fields;
    ExampleNames(predicted.fields, "col_3", "col_2", "col_4", "col_1");
    assert fs[1].name in names && fs[2].name in names && fs[0].name !in names;
    WithNamesKeeps(fs[2..], names);
    WithNamesKeeps(fs[1..], names);
    assert fs[1..][1..] == fs[2..] && fs[2..][1..] == [];
  }

  lemma SyncExampleAdded(predicted: Table, target: Table)
    requires |predicted.fields| == 3 && |target.fields| == 3
    requires predicted.fields[0].name == "col_3" && predicted.fields[1].name == "col_2"
    requires predicted.fields[2].name == "col_4"
    requires target.fields[0].name == "col_1" && target.fields[1].name == "col_2"
    requires target.fields[2].name == "col_3"
    ensures NewColumns(predicted, target) == predicted.fields[2..]
  {
    var names := FieldNames(target);
    var fs := predicted.fields;
    ExampleNames(target.fields, "col_1", "col_2", "col_3", "col_4");
    assert fs[0].name in names && fs[1].name in names && fs[2].name !in names;
    WithoutNamesDrops(fs, names);
    assert fs[1..][1..] == fs[2..] && fs[2..][1..] == [];
    WithoutNamesDrops(fs[1..], names);
    WithoutNamesKeeps(fs[2..], names);
  }

  /** The names of three fields named `a`, `b` and `c`, and a name `d` none of them has. */
  lemma ExampleNames(fs: seq<TableField>, a: string, b: string, c: string, d: string)
    requires |fs| == 3 && fs[0].name == a && fs[1].name == b && fs[2].name == c
    requires d != a && d != b && d != c
    ensures a in NamesOf(fs) && b in NamesOf(fs) && c in NamesOf(fs) && d !in NamesOf(fs)
  {
    assert fs[0] in fs && fs[1] in fs && fs[2] in fs;
  }

  /** A list whose first field is kept by name starts the filtered list. */
  lemma WithNamesKeeps(fs: seq<TableField>, names: set<string>)
    requires fs != [] && fs[0].name in names
    ensures WithNames(fs, names) == [fs[0]] + WithNames(fs[1..], names)
  {
  }

  lemma WithoutNamesKeeps(fs: seq<TableField>, names: set<string>)
    requires fs != [] && fs[0].name !in names
    ensures WithoutNames(fs, names) == [fs[0]] + WithoutNames(fs[1..], names)
  {
  }

  lemma WithoutNamesDrops(fs: seq<TableField>, names: set<string>)
    requires fs != [] && fs[0].name in names
    ensures WithoutNames(fs, names) == WithoutNames(fs[1..], names)
  {
  }
}
