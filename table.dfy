/**
 * Predicted and warehouse table schemas: fields with a BigQuery type, an
 * optional mode, optional nested sub-fields and an optional description.
 */
module Schema {
  import opened Wrappers
  import opened Exceptions

  datatype FieldMode = NULLABLE | REQUIRED | REPEATED

  /** The BigQuery column types; RANGE is included because the literal tables name it. */
  datatype FieldType =
    | STRING | BYTES | INTEGER | INT64 | FLOAT | FLOAT64 | BOOLEAN | BOOL
    | TIMESTAMP | DATE | TIME | DATETIME | INTERVAL | GEOGRAPHY | NUMERIC
    | BIGNUMERIC | STRUCT | JSON | RECORD | RANGE

  /** The enumeration value of a type; every member's value equals its name. */
  function FieldTypeValue(t: FieldType): string
  {
    match t
    case STRING => "STRING"
    case BYTES => "BYTES"
    case INTEGER => "INTEGER"
    case INT64 => "INT64"
    case FLOAT => "FLOAT"
    case FLOAT64 => "FLOAT64"
    case BOOLEAN => "BOOLEAN"
    case BOOL => "BOOL"
    case TIMESTAMP => "TIMESTAMP"
    case DATE => "DATE"
    case TIME => "TIME"
    case DATETIME => "DATETIME"
    case INTERVAL => "INTERVAL"
    case GEOGRAPHY => "GEOGRAPHY"
    case NUMERIC => "NUMERIC"
    case BIGNUMERIC => "BIGNUMERIC"
    case STRUCT => "STRUCT"
    case JSON => "JSON"
    case RECORD => "RECORD"
    case RANGE => "RANGE"
  }

  /**
   * `BigQueryFieldType(s)`: the member whose value is `s`, or None where
   * Python raises ValueError. As values equal names, this is also the lookup
   * `BigQueryFieldType[s]` (which raises KeyError instead).
   */
  function ParseFieldType(s: string): (r: Option<FieldType>)
    ensures r.Some? ==> FieldTypeValue(r.value) == s
    ensures r.None? ==> forall t :: FieldTypeValue(t) != s
  {
    if s == "STRING" then Some(STRING)
    else if s == "BYTES" then Some(BYTES)
    else if s == "INTEGER" then Some(INTEGER)
    else if s == "INT64" then Some(INT64)
    else if s == "FLOAT" then Some(FLOAT)
    else if s == "FLOAT64" then Some(FLOAT64)
    else if s == "BOOLEAN" then Some(BOOLEAN)
    else if s == "BOOL" then Some(BOOL)
    else if s == "TIMESTAMP" then Some(TIMESTAMP)
    else if s == "DATE" then Some(DATE)
    else if s == "TIME" then Some(TIME)
    else if s == "DATETIME" then Some(DATETIME)
    else if s == "INTERVAL" then Some(INTERVAL)
    else if s == "GEOGRAPHY" then Some(GEOGRAPHY)
    else if s == "NUMERIC" then Some(NUMERIC)
    else if s == "BIGNUMERIC" then Some(BIGNUMERIC)
    else if s == "STRUCT" then Some(STRUCT)
    else if s == "JSON" then Some(JSON)
    else if s == "RECORD" then Some(RECORD)
    else if s == "RANGE" then Some(RANGE)
    else None
  }

  /** Every member is found again from its value, so values are distinct. */
  lemma ParseFieldTypeValue(t: FieldType)
    ensures ParseFieldType(FieldTypeValue(t)) == Some(t)
  {
  }

  function FieldModeValue(m: FieldMode): string
  {
    match m
    case NULLABLE => "NULLABLE"
    case REQUIRED => "REQUIRED"
    case REPEATED => "REPEATED"
  }

  /** `BigQueryFieldMode(s)`, None where Python raises ValueError. */
  function ParseFieldMode(s: string): (r: Option<FieldMode>)
    ensures r.Some? ==> FieldModeValue(r.value) == s
    ensures r.None? ==> forall m :: FieldModeValue(m) != s
  {
    if s == "NULLABLE" then Some(NULLABLE)
    else if s == "REQUIRED" then Some(REQUIRED)
    else if s == "REPEATED" then Some(REPEATED)
    else None
  }

  datatype TableField = TableField(
    name: string,
    fieldType: FieldType,
    mode: Option<FieldMode>,
    fields: NestedFields,
    description: Option<string>)
  {
    /** `if field.fields:` — there are sub-fields and the list is not empty. */
    predicate HasSubFields()
    {
      fields.Fields? && |fields.list| > 0
    }
  }

  /** `Optional[List[TableField]]`: `NoFields` is Python's None. */
  datatype NestedFields = NoFields | Fields(list: seq<TableField>)

  datatype Table = Table(fields: seq<TableField>)

  /** `Table.field_names`: the names of the top-level fields. */
  function FieldNames(t: Table): (r: set<string>)
    ensures forall n :: n in r <==> exists i :: 0 <= i < |t.fields| && t.fields[i].name == n
  {
    set f | f in t.fields :: f.name
  }

  /** `Table.common_field_names`: the top-level names the two tables share. */
  function CommonFieldNames(t: Table, other: Table): (r: set<string>)
    ensures r <= FieldNames(t) && r <= FieldNames(other)
    ensures forall n :: n in FieldNames(t) && n in FieldNames(other) ==> n in r
  {
    FieldNames(t) * FieldNames(other)
  }

  // ---------------------------------------------------------------------------
  // Converting a warehouse schema (`Table.map_fields`)

  /** A column as the BigQuery client reports it: type and mode are plain strings. */
  datatype SchemaField = SchemaField(
    name: string,
    fieldType: string,
    mode: Option<string>,
    fields: SchemaFields,
    description: Option<string>)

  /** `Optional[List[SchemaField]]`: `NoSchema` is Python's None. */
  datatype SchemaFields = NoSchema | Schema(list: seq<SchemaField>)

  /** A mode string that the TableField validator accepts: absent or a member's value. */
  predicate ValidMode(m: Option<string>)
  {
    m.None? || ParseFieldMode(m.value).Some?
  }

  /**
   * One converted field. The sub-schema is converted first (it is an argument
   * of the constructor), then the type and mode are validated; a failure is
   * pydantic's ValidationError, a ValueError.
   */
  function ConvertField(f: SchemaField): (r: Result<TableField>)
    ensures r.Ok? ==> r.value.name == f.name && r.value.description == f.description
    ensures r.Ok? ==> FieldTypeValue(r.value.fieldType) == f.fieldType
    ensures r.Ok? ==> (f.mode.None? <==> r.value.mode.None?)
    ensures r.Ok? && f.mode.Some? ==> FieldModeValue(r.value.mode.value) == f.mode.value
    ensures ParseFieldType(f.fieldType).None? || !ValidMode(f.mode) ==> r.Err?
    ensures r.Ok? ==> ConvertFields(f.fields) == Ok(r.value.fields)
    ensures ConvertFields(f.fields).Err? ==> r.Err?
  {
    match ConvertFields(f.fields)
    case Err(e) => Err(e)
    case Ok(sub) =>
      match ParseFieldType(f.fieldType)
      case None => Err(ValueError(f.name))
      case Some(t) =>
        if !ValidMode(f.mode) then Err(ValueError(f.name))
        else
          var mode := if f.mode.None? then None else ParseFieldMode(f.mode.value);
          Ok(TableField(f.name, t, mode, sub, f.description))
  }

  /** The fields of a list converted in order; the first failing field decides the error. */
  function ConvertList(fs: seq<SchemaField>): (r: Result<seq<TableField>>)
    ensures r.Ok? ==> |r.value| == |fs|
    ensures r.Ok? ==> forall i :: 0 <= i < |fs| ==> ConvertField(fs[i]) == Ok(r.value[i])
    ensures (exists i :: 0 <= i < |fs| && ConvertField(fs[i]).Err?) ==> r.Err?
  {
    if fs == [] then Ok([])
    else
      match ConvertList(fs[..|fs| - 1])
      case Err(e) => Err(e)
      case Ok(init) =>
        match ConvertField(fs[|fs| - 1])
        case Err(e) => Err(e)
        case Ok(last) => Ok(init + [last])
  }

  /** `Table.map_fields` as a function: None stays None, a list is converted element-wise. */
  function ConvertFields(schema: SchemaFields): (r: Result<NestedFields>)
    ensures r.Ok? ==> (r.value.NoFields? <==> schema.NoSchema?)
    ensures r.Ok? && schema.Schema? ==> ConvertList(schema.list) == Ok(r.value.list)
    ensures schema.Schema? && ConvertList(schema.list).Err? ==> r.Err?
  {
    match schema
    case NoSchema => Ok(NoFields)
    case Schema(list) =>
      match ConvertList(list)
      case Err(e) => Err(e)
      case Ok(fields) => Ok(Fields(fields))
  }

  /**
   * `Table.map_fields`: builds the converted fields with a loop, recursing
   * into each field's sub-schema.
   */
  method MapFields(schema: SchemaFields) returns (r: Result<NestedFields>)
    ensures r == ConvertFields(schema)
    decreases schema
  {
    if schema.NoSchema? {
      return Ok(NoFields);
    }
    var newFields: seq<TableField> := [];
    var i := 0;
    while i < |schema.list|
      invariant 0 <= i <= |schema.list|
      invariant ConvertList(schema.list[..i]) == Ok(newFields)
    {
      var field := schema.list[i];
      ConvertStep(schema.list, i, newFields);
      var sub := MapFields(field.fields);
      if sub.Err? {
        return Err(sub.error);
      }
      var t := ParseFieldType(field.fieldType);
      if t.None? || !ValidMode(field.mode) {
        return Err(ValueError(field.name));
      }
      var mode := if field.mode.None? then None else ParseFieldMode(field.mode.value);
      newFields := newFields + [TableField(field.name, t.value, mode, sub.value, field.description)];
      i := i + 1;
    }
    assert schema.list[..i] == schema.list;
    return Ok(Fields(newFields));
  }

  /** One field more: the list so far grows by the converted field, or the whole list fails with it. */
  lemma ConvertStep(fs: seq<SchemaField>, i: nat, done: seq<TableField>)
    requires i < |fs| && ConvertList(fs[..i]) == Ok(done)
    ensures ConvertField(fs[i]).Ok? ==> ConvertList(fs[..i + 1]) == Ok(done + [ConvertField(fs[i]).value])
    ensures ConvertField(fs[i]).Err? ==> ConvertList(fs) == Err(ConvertField(fs[i]).error)
  {
    assert fs[..i + 1][..i] == fs[..i];
    if ConvertField(fs[i]).Err? {
      ConvertListFailsAt(fs, i + 1);
    }
  }

  /** A failure at the end of a prefix is the failure of the whole list. */
  lemma {:induction false} ConvertListFailsAt(fs: seq<SchemaField>, n: nat)
    requires 0 < n <= |fs|
    requires ConvertList(fs[..n - 1]).Ok? && ConvertField(fs[n - 1]).Err?
    ensures ConvertList(fs[..n]) == Err(ConvertField(fs[n - 1]).error)
    ensures ConvertList(fs) == ConvertList(fs[..n])
    decreases |fs| - n
  {
    assert fs[..n][..n - 1] == fs[..n - 1];
    if n < |fs| {
      assert fs[..n + 1][..n] == fs[..n];
      ConvertListPrefixErr(fs, n + 1);
      assert fs[..|fs|] == fs;
    } else {
      assert fs[..n] == fs;
    }
  }

  lemma {:induction false} ConvertListPrefixErr(fs: seq<SchemaField>, n: nat)
    requires 0 < n <= |fs|
    requires ConvertList(fs[..n - 1]).Err?
    ensures ConvertList(fs) == ConvertList(fs[..n - 1])
    decreases |fs| - n
  {
    assert fs[..n][..n - 1] == fs[..n - 1];
    if n < |fs| {
      ConvertListPrefixErr(fs, n + 1);
    } else {
      assert fs[..n] == fs;
    }
  }
}
