/**
 * Column metadata from the manifest and predicted tables, related through
 * dotted column names: "parent.child" names the sub-field `child` of the
 * RECORD or STRUCT column `parent`.
 */
module ColumnsMetadata {
  import opened Wrappers
  import opened Exceptions
  import opened Strings
  import opened Seqs
  import opened Schema
  import opened Manifest

  // ---------------------------------------------------------------------------
  // From a table to dotted names (`_extract_fields`, `expand_table_fields`)

  /** The dotted names of one field: its own name, then those of its sub-fields. */
  function FieldPaths(f: TableField, prefix: string): seq<string>
  {
    [prefix + f.name] + if f.HasSubFields() then ExtractFields(f.fields.list, prefix + f.name + ".") else []
  }

  /** `_extract_fields`: the dotted names of the fields in order, each field before its sub-fields. */
  function ExtractFields(fields: seq<TableField>, prefix: string): seq<string>
  {
    if fields == [] then []
    else ExtractFields(fields[..|fields| - 1], prefix) + FieldPaths(fields[|fields| - 1], prefix)
  }

  /**
   * The dotted paths of a list of fields, defined without order: every field
   * name, and "name." followed by every path of a field's non-empty sub-fields.
   */
  function PathSet(fields: seq<TableField>): set<string>
  {
    (set f | f in fields :: f.name) +
    (set f, q | f in fields && f.HasSubFields() && q in PathSet(f.fields.list) :: f.name + "." + q)
  }

  /** The names `_extract_fields` lists are the paths, each behind the prefix. */
  lemma {:induction false} ExtractFieldsPaths(fields: seq<TableField>, prefix: string)
    ensures forall x :: x in ExtractFields(fields, prefix) <==> exists q :: q in PathSet(fields) && x == prefix + q
    decreases fields, 1
  {
    if fields != [] {
      var init := fields[..|fields| - 1];
      var last := fields[|fields| - 1];
      ExtractFieldsPaths(init, prefix);
      FieldPathsPaths(last, prefix);
      assert fields == init + [last];
      forall x ensures x in ExtractFields(fields, prefix) <==> exists q :: q in PathSet(fields) && x == prefix + q {
        if x in ExtractFields(fields, prefix) {
          if x in ExtractFields(init, prefix) {
            var q :| q in PathSet(init) && x == prefix + q;
            PathSetMonotone(init, fields, q);
          } else {
            assert x in FieldPaths(last, prefix);
            var q :| q in FieldPathSet(last) && x == prefix + q;
            PathSetOfMember(fields, last, q);
          }
        }
        if exists q :: q in PathSet(fields) && x == prefix + q {
          var q :| q in PathSet(fields) && x == prefix + q;
          PathSetSplit(init, last, fields, q);
        }
      }
    } else {
      assert PathSet(fields) == {};
    }
  }

  /** The paths contributed by one field. */
  function FieldPathSet(f: TableField): set<string>
  {
    {f.name} + if f.HasSubFields() then (set q | q in PathSet(f.fields.list) :: f.name + "." + q) else {}
  }

  lemma {:induction false} FieldPathsPaths(f: TableField, prefix: string)
    ensures forall x :: x in FieldPaths(f, prefix) <==> exists q :: q in FieldPathSet(f) && x == prefix + q
    decreases f, 0
  {
    if f.HasSubFields() {
      ExtractFieldsPaths(f.fields.list, prefix + f.name + ".");
      forall x ensures x in FieldPaths(f, prefix) <==> exists q :: q in FieldPathSet(f) && x == prefix + q {
        SubPathStep(f, prefix, x);
      }
    }
  }

  /** One path behind a field with sub-fields, given the paths of its sub-fields. */
  lemma SubPathStep(f: TableField, prefix: string, x: string)
    requires f.HasSubFields()
    requires forall y :: y in ExtractFields(f.fields.list, prefix + f.name + ".") <==>
      exists q :: q in PathSet(f.fields.list) && y == prefix + f.name + "." + q
    ensures x in FieldPaths(f, prefix) <==> exists q :: q in FieldPathSet(f) && x == prefix + q
  {
    if x in ExtractFields(f.fields.list, prefix + f.name + ".") {
      var q :| q in PathSet(f.fields.list) && x == prefix + f.name + "." + q;
      SubPathOut(f, prefix, q);
    }
    if exists q :: q in FieldPathSet(f) && x == prefix + q {
      var q :| q in FieldPathSet(f) && x == prefix + q;
      if q != f.name {
        SubPathIn(f, prefix, q);
      }
    }
  }

  lemma SubPathOut(f: TableField, prefix: string, q: string)
    requires f.HasSubFields() && q in PathSet(f.fields.list)
    ensures f.name + "." + q in FieldPathSet(f)
    ensures prefix + f.name + "." + q == prefix + (f.name + "." + q)
  {
  }

  lemma SubPathIn(f: TableField, prefix: string, q: string)
    requires f.HasSubFields() && q in FieldPathSet(f) && q != f.name
    ensures exists q2 :: q2 in PathSet(f.fields.list) && prefix + q == prefix + f.name + "." + q2
  {
    var q2 :| q2 in PathSet(f.fields.list) && q == f.name + "." + q2;
    assert prefix + q == prefix + f.name + "." + q2;
  }

  lemma PathSetMonotone(a: seq<TableField>, b: seq<TableField>, q: string)
    requires forall f :: f in a ==> f in b
    requires q in PathSet(a)
    ensures q in PathSet(b)
  {
  }

  lemma PathSetOfMember(fields: seq<TableField>, f: TableField, q: string)
    requires f in fields && q in FieldPathSet(f)
    ensures q in PathSet(fields)
  {
    if q != f.name {
      var q2 :| q2 in PathSet(f.fields.list) && q == f.name + "." + q2;
    }
  }

  lemma PathSetSplit(init: seq<TableField>, last: TableField, fields: seq<TableField>, q: string)
    requires fields == init + [last] && q in PathSet(fields)
    ensures q in PathSet(init) || q in FieldPathSet(last)
  {
    if q !in (set f | f in fields :: f.name) {
      var f, q2 :| f in fields && f.HasSubFields() && q2 in PathSet(f.fields.list) && q == f.name + "." + q2;
      if f != last {
        assert f in init;
      }
    }
  }

  /** `expand_table_fields`: the set of dotted paths of a table, sub-fields at every depth included. */
  function ExpandTableFields(t: Table): (r: set<string>)
    ensures r == PathSet(t.fields)
  {
    ExtractFieldsPaths(t.fields, "");
    assert forall q :: "" + q == q;
    set x | x in ExtractFields(t.fields, "")
  }

  /** `_extract_fields` as written: a loop over the fields that recurses into sub-fields. */
  method ExtractFieldNames(tableFields: seq<TableField>, prefix: string) returns (fieldNames: seq<string>)
    ensures fieldNames == ExtractFields(tableFields, prefix)
    decreases tableFields
  {
    fieldNames := [];
    for i := 0 to |tableFields|
      invariant fieldNames == ExtractFields(tableFields[..i], prefix)
    {
      var field := tableFields[i];
      assert tableFields[..i + 1][..i] == tableFields[..i];
      fieldNames := fieldNames + [prefix + field.name];
      if field.HasSubFields() {
        var nested := ExtractFieldNames(field.fields.list, prefix + field.name + ".");
        fieldNames := fieldNames + nested;
      }
    }
    assert tableFields[..|tableFields|] == tableFields;
  }

  // ---------------------------------------------------------------------------
  // Data types with a repeated marker (`_split_column_data_type_and_mode`)

  const RepeatedSuffix := "[]"

  /**
   * `_split_column_data_type_and_mode`: a trailing "[]" means REPEATED and is
   * stripped, anything else is NULLABLE; the rest must be a type's value.
   */
  function SplitColumnDataTypeAndMode(dataType: string): (r: Result<(FieldType, FieldMode)>)
    ensures r.Ok? ==> (r.value.1 == REPEATED <==> EndsWith(dataType, RepeatedSuffix))
    ensures r.Ok? ==> r.value.1 == REPEATED || r.value.1 == NULLABLE
    ensures r.Ok? ==> dataType == FieldTypeValue(r.value.0) + (if r.value.1 == REPEATED then RepeatedSuffix else "")
    ensures r.Err? ==> r.error.UnknownDataType?
  {
    var repeated := EndsWith(dataType, RepeatedSuffix);
    var mode := if repeated then REPEATED else NULLABLE;
    var clean := if repeated then dataType[..|dataType| - |RepeatedSuffix|] else dataType;
    assert repeated ==> dataType == clean + RepeatedSuffix;
    match ParseFieldType(clean)
    case None => Err(UnknownDataType(clean))
    case Some(t) => Ok((t, mode))
  }

  /** No type's value ends in "[]". */
  lemma TypeValueNotRepeated(t: FieldType)
    ensures !EndsWith(FieldTypeValue(t), RepeatedSuffix)
  {
  }

  /** Writing a type with or without "[]" and splitting it again gives back the type and the mode. */
  lemma SplitDataTypeRoundTrip(t: FieldType)
    ensures SplitColumnDataTypeAndMode(FieldTypeValue(t)) == Ok((t, NULLABLE))
    ensures SplitColumnDataTypeAndMode(FieldTypeValue(t) + RepeatedSuffix) == Ok((t, REPEATED))
  {
    TypeValueNotRepeated(t);
    ParseFieldTypeValue(t);
    var s := FieldTypeValue(t) + RepeatedSuffix;
    assert EndsWith(s, RepeatedSuffix);
    assert s[..|s| - |RepeatedSuffix|] == FieldTypeValue(t);
  }

  /** A data type that names no type, with or without "[]", is rejected. */
  lemma SplitDataTypeUnknown(dataType: string)
    requires forall t :: FieldTypeValue(t) != dataType && FieldTypeValue(t) + RepeatedSuffix != dataType
    ensures SplitColumnDataTypeAndMode(dataType).Err?
  {
  }

  // ---------------------------------------------------------------------------
  // From dotted column metadata to fields (`_to_fields`, `map_columns_to_table`)

  /** `val.split(".")[0]`: a column name up to its first ".". */
  function Root(c: string): string
  {
    c[..IndexOfChar(c, '.')]
  }

  /** A name other than its root is the root, a ".", and the rest. */
  lemma RootOfDotted(m: string)
    requires Root(m) != m
    ensures |m| > |Root(m)| && m == Root(m) + "." + m[|Root(m)| + 1..]
  {
    var i := IndexOfChar(m, '.');
    assert i < |m|;
    assert m == m[..i] + [m[i]] + m[i + 1..];
  }

  /** `col[n:]`, which is empty when the string is shorter than `n`. */
  function Suffix(s: string, n: nat): string
  {
    if n <= |s| then s[n..] else ""
  }

  /** A run of consecutive sorted keys that share a root, as `itertools.groupby` yields it. */
  datatype Group = Group(root: string, members: seq<string>)

  function Flatten(groups: seq<Group>): seq<string>
  {
    if groups == [] then [] else groups[0].members + Flatten(groups[1..])
  }

  /** `groupby(keys, root)`: the maximal runs of consecutive keys with equal roots. */
  function GroupByRoot(keys: seq<string>): (r: seq<Group>)
    ensures Flatten(r) == keys
    ensures forall i :: 0 <= i < |r| ==> r[i].members != []
    ensures forall i, m :: 0 <= i < |r| && m in r[i].members ==> Root(m) == r[i].root
    ensures forall i :: 0 < i < |r| ==> r[i - 1].root != r[i].root
  {
    if keys == [] then []
    else
      var rest := GroupByRoot(keys[1..]);
      var root := Root(keys[0]);
      if rest != [] && rest[0].root == root then
        var r := [Group(root, [keys[0]] + rest[0].members)] + rest[1..];
        assert r[1..] == rest[1..];
        assert Flatten(r) == [keys[0]] + rest[0].members + Flatten(rest[1..]);
        assert keys == [keys[0]] + keys[1..];
        r
      else
        var r := [Group(root, [keys[0]])] + rest;
        assert r[1..] == rest;
        assert keys == [keys[0]] + keys[1..];
        r
  }

  /** What holds of the groups `_to_fields` loops over: sorted keys that all have a column. */
  predicate GroupsWellFormed(cols: map<string, ManifestColumn>, groups: seq<Group>)
  {
    StrictlySorted(Flatten(groups)) &&
    (forall k :: k in Flatten(groups) ==> k in cols) &&
    (forall i :: 0 <= i < |groups| ==> groups[i].members != []) &&
    (forall i, m :: 0 <= i < |groups| && m in groups[i].members ==> Root(m) == groups[i].root)
  }

  lemma StrictlySortedConcat(a: seq<string>, b: seq<string>)
    requires StrictlySorted(a + b)
    ensures StrictlySorted(a) && StrictlySorted(b)
  {
    assert forall i :: 0 <= i < |a| ==> (a + b)[i] == a[i];
    assert forall i :: 0 <= i < |b| ==> (a + b)[|a| + i] == b[i];
  }

  lemma GroupsTail(cols: map<string, ManifestColumn>, groups: seq<Group>)
    requires groups != [] && GroupsWellFormed(cols, groups)
    ensures GroupsWellFormed(cols, groups[1..])
    ensures StrictlySorted(groups[0].members)
    ensures forall m :: m in groups[0].members ==> m in cols
  {
    StrictlySortedConcat(groups[0].members, Flatten(groups[1..]));
    forall i, m | 0 <= i < |groups[1..]| && m in groups[1..][i].members
      ensures Root(m) == groups[1..][i].root
    {
      assert groups[1..][i] == groups[i + 1];
    }
  }

  /** `_get_sub_field_map`'s keys: the names after the root's members, with "root." stripped. */
  function SubFieldNames(root: string, members: seq<string>): (r: seq<string>)
    requires members != []
    ensures |r| == |members| - 1
  {
    seq(|members| - 1, i requires 0 <= i < |members| - 1 => Suffix(members[i + 1], |root| + 1))
  }

  /** The members after the root are "root.<name>" for distinct names. */
  lemma SubFieldNamesOfGroup(root: string, members: seq<string>)
    requires members != [] && members[0] == root && StrictlySorted(members)
    requires forall m :: m in members ==> Root(m) == root
    ensures var names := SubFieldNames(root, members);
      Distinct(names) && forall i :: 0 <= i < |names| ==> members[i + 1] == root + "." + names[i]
  {
    var names := SubFieldNames(root, members);
    forall i | 0 <= i < |names| ensures members[i + 1] == root + "." + names[i] {
      var m := members[i + 1];
      assert m in members;
      LexLessIrreflexive(root);
      assert m != root;
      RootOfDotted(m);
    }
    forall i, j | 0 <= i < j < |names| ensures names[i] != names[j] {
      LexLessIrreflexive(members[i + 1]);
    }
  }

  /** One group that `_to_fields` turns into a field: sorted keys with its root, all with a column. */
  predicate GroupWellFormed(cols: map<string, ManifestColumn>, g: Group)
  {
    g.members != [] && StrictlySorted(g.members) &&
    (forall m :: m in g.members ==> m in cols && Root(m) == g.root)
  }

  /**
   * `_get_sub_field_map`: the columns of a group after its root, keyed by
   * their names with "root." stripped.
   */
  function SubFieldMap(cols: map<string, ManifestColumn>, g: Group): (r: map<string, ManifestColumn>)
    requires GroupWellFormed(cols, g) && g.members[0] == g.root
    ensures forall n :: n in r ==> g.root + "." + n in cols && r[n] == cols[g.root + "." + n]
  {
    var names := SubFieldNames(g.root, g.members);
    SubFieldNamesOfGroup(g.root, g.members);
    map n | n in names :: cols[g.root + "." + n]
  }

  /** The sub-field map holds one entry per member after the root, so it is smaller than `cols`. */
  lemma SubFieldMapKeys(cols: map<string, ManifestColumn>, g: Group)
    requires GroupWellFormed(cols, g) && g.members[0] == g.root
    ensures |SubFieldMap(cols, g)| == |g.members| - 1 < |cols|
    ensures forall n :: n in SubFieldMap(cols, g) <==> n in SubFieldNames(g.root, g.members)
  {
    var names := SubFieldNames(g.root, g.members);
    SubFieldNamesOfGroup(g.root, g.members);
    var r := SubFieldMap(cols, g);
    assert r.Keys == set n | n in names;
    DistinctCardinality(names);
    StrictlySortedDistinct(g.members);
    DistinctSubset(g.members, cols.Keys);
  }

  /**
   * The field of one group, as the body of `_to_fields`' loop builds it: the
   * group must start with its root column, which needs a data type; the
   * remaining members become the sub-fields, built recursively before the
   * root's own type and mode are split off.
   */
  ghost function GroupField(cols: map<string, ManifestColumn>, g: Group): (r: Result<TableField>)
    requires GroupWellFormed(cols, g)
    ensures r.Ok? ==> FieldOfGroup(cols, g, r.value)
    ensures r.Err? && g.members[0] != g.root ==> r.error == InvalidColumnSpecification(g.root)
    ensures r.Err? ==> IsValueError(r.error)
    decreases |g.members|, 0, 0
  {
    var root := g.root;
    if g.members[0] != root then Err(InvalidColumnSpecification(root))
    else
      assert root in g.members;
      var column := cols[root];
      if column.dataType.None? || column.dataType.value == "" then Err(UnknownDataType(root))
      else
        var subMap := SubFieldMap(cols, g);
        SubFieldMapKeys(cols, g);
        var sub: Result<NestedFields> :=
          if |subMap| == 0 then Ok(NoFields)
          else
            match ColumnFields(subMap)
            case Err(e) => Err(e)
            case Ok(fs) => Ok(Fields(fs));
        match sub
        case Err(e) => Err(e)
        case Ok(subFields) =>
          match SplitColumnDataTypeAndMode(column.dataType.value)
          case Err(e) => Err(e)
          case Ok(typeAndMode) =>
            var f := TableField(root, typeAndMode.0, Some(typeAndMode.1), subFields, None);
            Ok(f)
  }

  /**
   * What a field built from a group is: named after the root column, whose
   * data type it spells out, with sub-fields exactly when the group has more
   * than the root.
   */
  predicate FieldOfGroup(cols: map<string, ManifestColumn>, g: Group, f: TableField)
  {
    f.name == g.root && f.name in cols && f.description.None? && f.mode.Some? &&
    cols[f.name].dataType == Some(FieldTypeValue(f.fieldType) + if f.mode.value == REPEATED then RepeatedSuffix else "") &&
    (f.HasSubFields() <==> |g.members| > 1)
  }

  /** The fields of the groups in order; the first group that fails decides the error. */
  ghost function FieldsOfGroups(cols: map<string, ManifestColumn>, groups: seq<Group>): (r: Result<seq<TableField>>)
    requires GroupsWellFormed(cols, groups)
    ensures r.Ok? ==> |r.value| == |groups|
    ensures r.Ok? ==> forall i :: 0 <= i < |groups| ==> FieldOfGroup(cols, groups[i], r.value[i])
    ensures r.Err? ==> IsValueError(r.error)
    decreases |Flatten(groups)|, 1, |groups|
  {
    if groups == [] then Ok([])
    else
      GroupsTail(cols, groups);
      match GroupField(cols, groups[0])
      case Err(e) => Err(e)
      case Ok(field) =>
        match FieldsOfGroups(cols, groups[1..])
        case Err(e) => Err(e)
        case Ok(rest) => Ok([field] + rest)
  }

  /** `_to_fields` on the sorted keys of `cols`: no columns is an error. */
  ghost function ColumnFieldsOf(cols: map<string, ManifestColumn>, keys: seq<string>): (r: Result<seq<TableField>>)
    requires StrictlySorted(keys) && forall k :: k in keys ==> k in cols
    ensures keys == [] ==> r == Err(InvalidColumnSpecification("columns"))
    ensures r.Ok? ==> r.value != []
    ensures r.Err? ==> IsValueError(r.error)
    decreases |keys|, 2, 0
  {
    if keys == [] then Err(InvalidColumnSpecification("columns"))
    else FieldsOfGroups(cols, GroupByRoot(keys))
  }

  /** `sorted(cols.keys())`: the column names in ascending order, each once. */
  ghost function SortedKeys(cols: map<string, ManifestColumn>): (r: seq<string>)
    ensures StrictlySorted(r) && forall k :: k in r <==> k in cols
    ensures |r| == |cols|
  {
    SortedKeysExist(cols.Keys);
    var s :| StrictlySorted(s) && forall k :: k in s <==> k in cols;
    StrictlySortedDistinct(s);
    DistinctCardinality(s);
    assert (set k | k in s) == cols.Keys;
    s
  }

  /** What `_to_fields` computes for `cols`. */
  ghost function ColumnFields(cols: map<string, ManifestColumn>): (r: Result<seq<TableField>>)
    ensures |cols| == 0 ==> r == Err(InvalidColumnSpecification("columns"))
    ensures r.Ok? ==> r.value != []
    ensures r.Err? ==> IsValueError(r.error)
    decreases |cols|, 3, 0
  {
    var keys := SortedKeys(cols);
    if |keys| == 0 then Err(InvalidColumnSpecification("columns")) else ColumnFieldsOf(cols, keys)
  }

  /**
   * The column names in ascending order. A map has no order of its own, so
   * its keys are first gathered one by one and then sorted.
   */
  method SortedColumnNames(cols: map<string, ManifestColumn>) returns (keys: seq<string>)
    ensures keys == SortedKeys(cols)
  {
    var rest := cols.Keys;
    var names: seq<string> := [];
    while rest != {}
      invariant rest <= cols.Keys
      invariant Distinct(names)
      invariant forall k :: k in names <==> k in cols && k !in rest
      decreases |rest|
    {
      var k :| k in rest;
      assert k !in names;
      names := names + [k];
      rest := rest - {k};
    }
    keys := Sort(names);
    SortOfDistinct(names);
    SortMembers(names);
    StrictlySortedUnique(keys, SortedKeys(cols));
  }

  /** The fields of the done groups ahead of the outcome for the remaining ones. */
  function PrependFields(done: seq<TableField>, r: Result<seq<TableField>>): Result<seq<TableField>>
  {
    match r
    case Ok(rest) => Ok(done + rest)
    case Err(e) => Err(e)
  }

  /** A group whose field fails makes its error the outcome of `_to_fields`' loop. */
  lemma PrependErr(cols: map<string, ManifestColumn>, groups: seq<Group>, done: seq<TableField>)
    requires groups != [] && GroupsWellFormed(cols, groups) && GroupWellFormed(cols, groups[0])
    requires GroupField(cols, groups[0]).Err?
    ensures PrependFields(done, FieldsOfGroups(cols, groups)) == Err(GroupField(cols, groups[0]).error)
  {
  }

  /** A group whose field succeeds moves that field to the done ones. */
  lemma PrependOk(cols: map<string, ManifestColumn>, groups: seq<Group>, done: seq<TableField>)
    requires groups != [] && GroupsWellFormed(cols, groups) && GroupsWellFormed(cols, groups[1..])
    requires GroupWellFormed(cols, groups[0]) && GroupField(cols, groups[0]).Ok?
    ensures PrependFields(done, FieldsOfGroups(cols, groups)) ==
      PrependFields(done + [GroupField(cols, groups[0]).value], FieldsOfGroups(cols, groups[1..]))
  {
    var f := GroupField(cols, groups[0]).value;
    match FieldsOfGroups(cols, groups[1..])
    case Err(e) =>
    case Ok(rest) =>
      assert done + ([f] + rest) == done + [f] + rest;
  }

  /**
   * `_to_fields`: one field per root column, in ascending order of names,
   * sub-fields built from the dotted columns under it. Raises
   * InvalidColumnSpecification for no columns or a struct field without its
   * root column, UnknownDataTypeException for a root column without a data
   * type or with one outside the BigQuery types.
   */
  method ToFields(cols: map<string, ManifestColumn>) returns (r: Result<seq<TableField>>)
    ensures r == ColumnFields(cols)
    decreases |cols|, 1
  {
    if |cols| == 0 {
      return Err(InvalidColumnSpecification("columns"));
    }
    var sortedColumns := SortedColumnNames(cols);
    var groups := GroupByRoot(sortedColumns);
    ghost var expected := FieldsOfGroups(cols, groups);
    assert ColumnFields(cols) == expected;
    var fields: seq<TableField> := [];
    var i := 0;
    assert groups[0..] == groups;
    assert expected == PrependFields(fields, expected) by {
      if expected.Ok? {
        assert [] + expected.value == expected.value;
      }
    }
    while i < |groups|
      invariant 0 <= i <= |groups|
      invariant GroupsWellFormed(cols, groups[i..])
      invariant expected == PrependFields(fields, FieldsOfGroups(cols, groups[i..]))
    {
      GroupsTail(cols, groups[i..]);
      assert groups[i..][0] == groups[i] && groups[i..][1..] == groups[i + 1..];
      var field := GroupToField(cols, groups[i]);
      if field.Err? {
        PrependErr(cols, groups[i..], fields);
        return Err(field.error);
      }
      PrependOk(cols, groups[i..], fields);
      fields := fields + [field.value];
      i := i + 1;
    }
    assert groups[i..] == [];
    assert fields + [] == fields;
    return Ok(fields);
  }

  /** The body of `_to_fields`' loop for one group of columns. */
  method GroupToField(cols: map<string, ManifestColumn>, g: Group) returns (r: Result<TableField>)
    requires GroupWellFormed(cols, g)
    ensures r == GroupField(cols, g)
    decreases |cols|, 0
  {
    if g.members[0] != g.root {
      return Err(InvalidColumnSpecification(g.root));
    }
    assert g.root in g.members;
    var column := cols[g.root];
    if column.dataType.None? || column.dataType.value == "" {
      return Err(UnknownDataType(g.root));
    }
    var subFieldMap := SubFieldMap(cols, g);
    SubFieldMapKeys(cols, g);
    var subFields := NoFields;
    if |subFieldMap| != 0 {
      var sub := ToFields(subFieldMap);
      if sub.Err? {
        return Err(sub.error);
      }
      subFields := Fields(sub.value);
    }
    var split := SplitColumnDataTypeAndMode(column.dataType.value);
    if split.Err? {
      return Err(split.error);
    }
    return Ok(TableField(g.root, split.value.0, Some(split.value.1), subFields, None));
  }

  /** `map_columns_to_table`: the table the column metadata describes. */
  method MapColumnsToTable(columns: map<string, ManifestColumn>) returns (r: Result<Table>)
    ensures r.Ok? <==> ColumnFields(columns).Ok?
    ensures r.Ok? ==> r.value.fields == ColumnFields(columns).value
    ensures r.Err? ==> r.error == ColumnFields(columns).error
  {
    var fields := ToFields(columns);
    if fields.Err? {
      return Err(fields.error);
    }
    return Ok(Table(fields.value));
  }

  // ---------------------------------------------------------------------------
  // Round trip: the table built from the columns expands back to their names

  /** A path of a list of fields is a path of one of them. */
  lemma PathSetMembers(fields: seq<TableField>, q: string)
    ensures q in PathSet(fields) <==> exists f :: f in fields && q in FieldPathSet(f)
  {
    if exists f :: f in fields && q in FieldPathSet(f) {
      var f :| f in fields && q in FieldPathSet(f);
      PathSetOfMember(fields, f, q);
    }
    if q in PathSet(fields) && q !in (set f | f in fields :: f.name) {
      var f, q2 :| f in fields && f.HasSubFields() && q2 in PathSet(f.fields.list) && q == f.name + "." + q2;
      assert q in FieldPathSet(f);
    }
  }

  lemma PathSetCons(f: TableField, rest: seq<TableField>)
    ensures PathSet([f] + rest) == FieldPathSet(f) + PathSet(rest)
  {
    forall q ensures q in PathSet([f] + rest) <==> q in FieldPathSet(f) + PathSet(rest) {
      PathSetMembers([f] + rest, q);
      PathSetMembers(rest, q);
    }
  }

  /** A built group field keeps the root first and takes its sub-fields from the columns under the root. */
  lemma GroupFieldShape(cols: map<string, ManifestColumn>, g: Group)
    requires GroupWellFormed(cols, g) && GroupField(cols, g).Ok?
    ensures g.members[0] == g.root
    ensures |SubFieldMap(cols, g)| == 0 ==> GroupField(cols, g).value.fields == NoFields
    ensures |SubFieldMap(cols, g)| != 0 ==>
      ColumnFields(SubFieldMap(cols, g)).Ok? &&
      GroupField(cols, g).value.fields == Fields(ColumnFields(SubFieldMap(cols, g)).value)
  {
    assert g.members[0] == g.root;
    var subMap := SubFieldMap(cols, g);
    var column := cols[g.root];
    assert column.dataType.Some? && column.dataType.value != "";
    var split := SplitColumnDataTypeAndMode(column.dataType.value);
    assert split.Ok?;
    if |subMap| != 0 {
      assert ColumnFields(subMap).Ok?;
      assert GroupField(cols, g) == Ok(TableField(g.root, split.value.0, Some(split.value.1), Fields(ColumnFields(subMap).value), None));
    } else {
      assert GroupField(cols, g) == Ok(TableField(g.root, split.value.0, Some(split.value.1), NoFields, None));
    }
  }

  /** The members of a group are its root and "root." before each sub-field name. */
  lemma GroupMembers(g: Group, names: seq<string>, m: string)
    requires g.members != [] && g.members[0] == g.root && |names| == |g.members| - 1
    requires forall i :: 0 <= i < |names| ==> g.members[i + 1] == g.root + "." + names[i]
    ensures m in g.members <==> m == g.root || exists q :: q in names && m == g.root + "." + q
  {
    if m in g.members && m != g.root {
      var i :| 0 <= i < |g.members| && g.members[i] == m;
      assert m == g.root + "." + names[i - 1];
    }
    if m != g.root && exists q :: q in names && m == g.root + "." + q {
      var q :| q in names && m == g.root + "." + q;
      var j :| 0 <= j < |names| && names[j] == q;
      assert g.members[j + 1] == m;
    }
  }

  lemma {:induction false} GroupFieldPaths(cols: map<string, ManifestColumn>, g: Group)
    requires GroupWellFormed(cols, g) && GroupField(cols, g).Ok?
    ensures FieldPathSet(GroupField(cols, g).value) == set m | m in g.members
    decreases |g.members|, 0, 0
  {
    var f := GroupField(cols, g).value;
    var root := g.root;
    var subMap := SubFieldMap(cols, g);
    SubFieldMapKeys(cols, g);
    GroupFieldShape(cols, g);
    var names := SubFieldNames(root, g.members);
    SubFieldNamesOfGroup(root, g.members);
    if |subMap| == 0 {
      assert g.members == [root];
    } else {
      ColumnFieldsPaths(subMap);
      NestedFieldPaths(f, g, names);
    }
  }

  lemma NestedFieldPaths(f: TableField, g: Group, names: seq<string>)
    requires g.members != [] && g.members[0] == g.root && |names| == |g.members| - 1
    requires forall i :: 0 <= i < |names| ==> g.members[i + 1] == g.root + "." + names[i]
    requires f.name == g.root && f.HasSubFields() && PathSet(f.fields.list) == set n | n in names
    ensures FieldPathSet(f) == set m | m in g.members
  {
    forall m ensures m in FieldPathSet(f) <==> m in g.members {
      GroupMembers(g, names, m);
    }
  }

  lemma {:induction false} FieldsOfGroupsPaths(cols: map<string, ManifestColumn>, groups: seq<Group>)
    requires GroupsWellFormed(cols, groups) && FieldsOfGroups(cols, groups).Ok?
    ensures PathSet(FieldsOfGroups(cols, groups).value) == set k | k in Flatten(groups)
    decreases |Flatten(groups)|, 1, |groups|
  {
    if groups != [] {
      GroupsTail(cols, groups);
      var f := GroupField(cols, groups[0]).value;
      GroupFieldPaths(cols, groups[0]);
      FieldsOfGroupsPaths(cols, groups[1..]);
      PathSetCons(f, FieldsOfGroups(cols, groups[1..]).value);
    }
  }

  lemma {:induction false} ColumnFieldsOfPaths(cols: map<string, ManifestColumn>, keys: seq<string>)
    requires StrictlySorted(keys) && forall k :: k in keys ==> k in cols
    requires ColumnFieldsOf(cols, keys).Ok?
    ensures PathSet(ColumnFieldsOf(cols, keys).value) == set k | k in keys
    decreases |keys|, 2, 0
  {
    FieldsOfGroupsPaths(cols, GroupByRoot(keys));
  }

  /**
   * Expanding the table built from column metadata gives back exactly the
   * column names: `map_columns_to_table` and `expand_table_fields` are
   * inverse on metadata they accept.
   */
  lemma {:induction false} ColumnFieldsPaths(cols: map<string, ManifestColumn>)
    requires ColumnFields(cols).Ok?
    ensures PathSet(ColumnFields(cols).value) == cols.Keys
    decreases |cols|, 3, 0
  {
    ColumnFieldsOfPaths(cols, SortedKeys(cols));
  }

  lemma ExpandColumnsTable(cols: map<string, ManifestColumn>)
    requires ColumnFields(cols).Ok?
    ensures ExpandTableFields(Table(ColumnFields(cols).value)) == cols.Keys
  {
    ColumnFieldsPaths(cols);
  }

  // ---------------------------------------------------------------------------
  // What a successful `_to_fields` guarantees about the columns

  lemma {:induction false} FlattenMember(groups: seq<Group>, j: int, m: string)
    requires 0 <= j < |groups| && m in groups[j].members
    ensures m in Flatten(groups)
  {
    if j > 0 {
      FlattenMember(groups[1..], j - 1, m);
    }
  }

  lemma {:induction false} FlattenHas(groups: seq<Group>, m: string)
    requires m in Flatten(groups)
    ensures exists j :: 0 <= j < |groups| && m in groups[j].members
  {
    if m !in groups[0].members {
      FlattenHas(groups[1..], m);
      var j :| 0 <= j < |groups[1..]| && m in groups[1..][j].members;
      assert m in groups[j + 1].members;
    }
  }

  /** The first key of a sorted list comes before every key of the rest of the groups. */
  lemma HeadBeforeRest(groups: seq<Group>, x: string)
    requires groups != [] && groups[0].members != [] && StrictlySorted(Flatten(groups))
    requires x in Flatten(groups[1..])
    ensures LexLess(groups[0].members[0], x)
  {
    var a := groups[0].members;
    var b := Flatten(groups[1..]);
    assert Flatten(groups) == a + b;
    var k :| 0 <= k < |b| && b[k] == x;
    assert (a + b)[0] == a[0] && (a + b)[|a| + k] == x;
  }

  /** Every group that gave a field starts with its root column. */
  lemma {:induction false} FieldsOfGroupsRoots(cols: map<string, ManifestColumn>, groups: seq<Group>)
    requires GroupsWellFormed(cols, groups) && FieldsOfGroups(cols, groups).Ok?
    ensures forall j :: 0 <= j < |groups| ==> groups[j].members[0] == groups[j].root
    decreases |groups|
  {
    if groups != [] {
      GroupsTail(cols, groups);
      GroupFieldShape(cols, groups[0]);
      FieldsOfGroupsRoots(cols, groups[1..]);
      forall j | 1 <= j < |groups| ensures groups[j].members[0] == groups[j].root {
        assert groups[j] == groups[1..][j - 1];
      }
    }
  }

  /** Fields come out in ascending order of their names, as the groups of sorted keys do. */
  lemma {:induction false} FieldsOfGroupsSorted(cols: map<string, ManifestColumn>, groups: seq<Group>)
    requires GroupsWellFormed(cols, groups) && FieldsOfGroups(cols, groups).Ok?
    ensures var fs := FieldsOfGroups(cols, groups).value;
      forall i, j :: 0 <= i < j < |fs| ==> LexLess(fs[i].name, fs[j].name)
    decreases |groups|
  {
    if groups != [] {
      GroupsTail(cols, groups);
      var fs := FieldsOfGroups(cols, groups).value;
      FieldsOfGroupsSorted(cols, groups[1..]);
      FieldsOfGroupsRoots(cols, groups);
      forall i, j | 0 <= i < j < |fs| ensures LexLess(fs[i].name, fs[j].name) {
        assert fs[1..] == FieldsOfGroups(cols, groups[1..]).value;
        if i == 0 {
          assert fs[j].name == groups[j].members[0];
          FlattenMember(groups[1..], j - 1, groups[j].members[0]);
          HeadBeforeRest(groups, fs[j].name);
        } else {
          assert fs[i] == fs[1..][i - 1] && fs[j] == fs[1..][j - 1];
        }
      }
    }
  }

  /** Every key lies under one of the fields: the one named after its root. */
  lemma FieldsOfGroupsCover(cols: map<string, ManifestColumn>, groups: seq<Group>, k: string)
    requires GroupsWellFormed(cols, groups) && FieldsOfGroups(cols, groups).Ok?
    requires k in Flatten(groups)
    ensures exists i :: 0 <= i < |groups| && FieldsOfGroups(cols, groups).value[i].name == Root(k)
  {
    FlattenHas(groups, k);
  }

  lemma ColumnFieldsUnfold(cols: map<string, ManifestColumn>)
    requires ColumnFields(cols).Ok?
    ensures GroupsWellFormed(cols, GroupByRoot(SortedKeys(cols)))
    ensures Flatten(GroupByRoot(SortedKeys(cols))) == SortedKeys(cols)
    ensures ColumnFields(cols) == FieldsOfGroups(cols, GroupByRoot(SortedKeys(cols)))
  {
  }

  /** Top-level fields come out in ascending order of their names. */
  lemma ColumnFieldsSorted(cols: map<string, ManifestColumn>)
    requires ColumnFields(cols).Ok?
    ensures var fs := ColumnFields(cols).value;
      forall i, j :: 0 <= i < j < |fs| ==> LexLess(fs[i].name, fs[j].name)
  {
    ColumnFieldsUnfold(cols);
    FieldsOfGroupsSorted(cols, GroupByRoot(SortedKeys(cols)));
  }

  /**
   * Every column's root names a top-level field, so a dotted column whose
   * root is not declared makes `_to_fields` fail.
   */
  lemma ColumnFieldsRoots(cols: map<string, ManifestColumn>)
    requires ColumnFields(cols).Ok?
    ensures var fs := ColumnFields(cols).value;
      forall k :: k in cols ==> Root(k) in cols && exists i :: 0 <= i < |fs| && fs[i].name == Root(k)
  {
    ColumnFieldsUnfold(cols);
    var groups := GroupByRoot(SortedKeys(cols));
    forall k | k in cols ensures exists i :: 0 <= i < |groups| && FieldsOfGroups(cols, groups).value[i].name == Root(k) {
      FieldsOfGroupsCover(cols, groups, k);
    }
  }

  /**
   * Each top-level field is a declared column whose data type spells out the
   * field's type, followed by "[]" when the mode is REPEATED.
   */
  lemma ColumnFieldsTypes(cols: map<string, ManifestColumn>)
    requires ColumnFields(cols).Ok?
    ensures var fs := ColumnFields(cols).value;
      forall i :: 0 <= i < |fs| ==>
        fs[i].name in cols && fs[i].mode.Some? &&
        cols[fs[i].name].dataType == Some(FieldTypeValue(fs[i].fieldType) + if fs[i].mode.value == REPEATED then RepeatedSuffix else "")
  {
    ColumnFieldsUnfold(cols);
  }
}
