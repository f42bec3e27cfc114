/**
 * Column linting: comparing the columns a node documents in the manifest
 * with the dotted column names of the table the dry run predicted, and
 * recording one linting error per column that is documented but not
 * produced, or produced but not documented.
 */
module ColumnLinting {
  import opened Seqs
  import opened Strings
  import opened Schema
  import opened Manifest
  import opened DryRunResults
  import opened ColumnsMetadata

  /** The message for a documented column the table does not have. */
  function ExtraMessage(column: string): string
  {
    "Extra column in metadata: '" + column + "'"
  }

  /** The message for a column of the table that is not documented. */
  function UndocumentedMessage(column: string): string
  {
    "Column not documented in metadata: '" + column + "'"
  }

  /** Manifest keys that are not among the table's dotted names. */
  function ExtraColumns(manifest: map<string, ManifestColumn>, t: Table): (cs: set<string>)
    ensures forall c :: c in cs <==> c in manifest && c !in PathSet(t.fields)
  {
    manifest.Keys - ExpandTableFields(t)
  }

  /** Dotted names of the table that are not manifest keys. */
  function UndocumentedColumns(manifest: map<string, ManifestColumn>, t: Table): (cs: set<string>)
    ensures forall c :: c in cs <==> c in PathSet(t.fields) && c !in manifest
  {
    ExpandTableFields(t) - manifest.Keys
  }

  /** One message per column, in the order of `columns`. */
  function Messages(columns: seq<string>, message: string -> string): (ms: seq<string>)
    ensures |ms| == |columns| && forall i :: 0 <= i < |ms| ==> ms[i] == message(columns[i])
  {
    seq(|columns|, i requires 0 <= i < |columns| => message(columns[i]))
  }

  /**
   * The messages `get_extra_documented_columns` returns. The source walks a
   * set, whose order Python leaves unspecified; the model lists the columns
   * in ascending order.
   */
  ghost function ExtraDocumented(manifest: map<string, ManifestColumn>, t: Table): seq<string>
  {
    Messages(SortedSet(ExtraColumns(manifest, t)), ExtraMessage)
  }

  /** The messages `get_undocumented_columns` returns, in ascending column order. */
  ghost function Undocumented(manifest: map<string, ManifestColumn>, t: Table): seq<string>
  {
    Messages(SortedSet(UndocumentedColumns(manifest, t)), UndocumentedMessage)
  }

  /** The elements of a set of names in ascending order. */
  method SortedNames(names: set<string>) returns (s: seq<string>)
    ensures s == SortedSet(names)
  {
    var drawn := SetToSeq(names);
    s := Sort(drawn);
    SortOfDistinct(drawn);
    SortMembers(drawn);
    StrictlySortedUnique(s, SortedSet(names));
  }

  /** The messages for `columns`, appended one by one. */
  method AppendMessages(columns: seq<string>, message: string -> string) returns (errors: seq<string>)
    ensures errors == Messages(columns, message)
  {
    errors := [];
    for i := 0 to |columns|
      invariant errors == Messages(columns[..i], message)
    {
      errors := errors + [message(columns[i])];
    }
    assert columns[..|columns|] == columns;
  }

  /** `get_extra_documented_columns`. */
  method GetExtraDocumentedColumns(manifest: map<string, ManifestColumn>, dryRun: Table) returns (errors: seq<string>)
    ensures errors == ExtraDocumented(manifest, dryRun)
  {
    var extra := manifest.Keys - ExpandTableFields(dryRun);
    var columns := SortedNames(extra);
    errors := AppendMessages(columns, ExtraMessage);
  }

  /** `get_undocumented_columns`. */
  method GetUndocumentedColumns(manifest: map<string, ManifestColumn>, dryRun: Table) returns (errors: seq<string>)
    ensures errors == Undocumented(manifest, dryRun)
  {
    var missing := ExpandTableFields(dryRun) - manifest.Keys;
    var columns := SortedNames(missing);
    errors := AppendMessages(columns, UndocumentedMessage);
  }

  /** The rules of `RULES`, in the dictionary's order. */
  datatype Rule = UndocumentedColumnsRule | ExtraDocumentedColumnsRule

  const Rules: seq<Rule> := [UndocumentedColumnsRule, ExtraDocumentedColumnsRule]

  function RuleName(rule: Rule): string
  {
    match rule
    case UndocumentedColumnsRule => "UNDOCUMENTED_COLUMNS"
    case ExtraDocumentedColumnsRule => "EXTRA_DOCUMENTED_COLUMNS"
  }

  ghost function RuleMessages(rule: Rule, manifest: map<string, ManifestColumn>, t: Table): seq<string>
  {
    match rule
    case UndocumentedColumnsRule => Undocumented(manifest, t)
    case ExtraDocumentedColumnsRule => ExtraDocumented(manifest, t)
  }

  /** Each message of a rule as a linting error tagged with the rule's name. */
  function Tagged(rule: Rule, messages: seq<string>): (es: seq<LintingError>)
    ensures |es| == |messages|
    ensures forall i :: 0 <= i < |es| ==> es[i] == LintingError(RuleName(rule), messages[i])
  {
    seq(|messages|, i requires 0 <= i < |messages| => LintingError(RuleName(rule), messages[i]))
  }

  /** The errors of the rules in `rules`, one rule after the other. */
  ghost function RuleErrors(rules: seq<Rule>, manifest: map<string, ManifestColumn>, t: Table): seq<LintingError>
  {
    if rules == [] then []
    else RuleErrors(rules[..|rules| - 1], manifest, t)
         + Tagged(rules[|rules| - 1], RuleMessages(rules[|rules| - 1], manifest, t))
  }

  /**
   * What `lint_columns` returns: a result without a table as it is; otherwise
   * the result with the undocumented-column errors followed by the
   * extra-column errors.
   */
  ghost function Linted(node: Node, result: DryRunResult): DryRunResult
  {
    if result.table.None? then result
    else WithLintingErrors(result, RuleErrors(Rules, node.columns, result.table.value))
  }

  /** `lint_columns`: runs each rule and extends the list of errors with its tagged messages. */
  method LintColumns(node: Node, result: DryRunResult) returns (r: DryRunResult)
    ensures r == Linted(node, result)
  {
    if result.table.None? {
      return result;
    }
    var table := result.table.value;
    var allErrors: seq<LintingError> := [];
    for i := 0 to |Rules|
      invariant allErrors == RuleErrors(Rules[..i], node.columns, table)
    {
      var rule := Rules[i];
      var errorMessages;
      match rule {
        case UndocumentedColumnsRule =>
          errorMessages := GetUndocumentedColumns(node.columns, table);
        case ExtraDocumentedColumnsRule =>
          errorMessages := GetExtraDocumentedColumns(node.columns, table);
      }
      var errors := Tagged(rule, errorMessages);
      assert Rules[..i + 1][..i] == Rules[..i];
      allErrors := allErrors + errors;
    }
    assert Rules[..|Rules|] == Rules;
    r := WithLintingErrors(result, allErrors);
  }

  // ---------------------------------------------------------------------------
  // Properties of column linting

  lemma MessagesMembers(columns: seq<string>, message: string -> string, m: string)
    ensures m in Messages(columns, message) <==> exists c :: c in columns && m == message(c)
  {
    var ms := Messages(columns, message);
    if m in ms {
      var i :| 0 <= i < |ms| && ms[i] == m;
      assert columns[i] in columns;
    }
    if exists c :: c in columns && m == message(c) {
      var c :| c in columns && m == message(c);
      var i :| 0 <= i < |columns| && columns[i] == c;
      assert ms[i] == m;
    }
  }

  /**
   * Extra-documented: one message per manifest key that is not a dotted name
   * of the table, and no other message.
   */
  lemma ExtraDocumentedMessages(manifest: map<string, ManifestColumn>, t: Table)
    ensures |ExtraDocumented(manifest, t)| == |ExtraColumns(manifest, t)|
    ensures forall m :: m in ExtraDocumented(manifest, t) <==>
      exists c :: c in manifest && c !in PathSet(t.fields) && m == ExtraMessage(c)
  {
    var cs := ExtraColumns(manifest, t);
    DistinctCardinality(SortedSet(cs));
    assert (set k | k in SortedSet(cs)) == cs;
    forall m ensures m in ExtraDocumented(manifest, t) <==>
      exists c :: c in manifest && c !in PathSet(t.fields) && m == ExtraMessage(c) {
      MessagesMembers(SortedSet(cs), ExtraMessage, m);
    }
  }

  /** Undocumented: one message per dotted name of the table that is not a manifest key. */
  lemma UndocumentedMessages(manifest: map<string, ManifestColumn>, t: Table)
    ensures |Undocumented(manifest, t)| == |UndocumentedColumns(manifest, t)|
    ensures forall m :: m in Undocumented(manifest, t) <==>
      exists c :: c in PathSet(t.fields) && c !in manifest && m == UndocumentedMessage(c)
  {
    var cs := UndocumentedColumns(manifest, t);
    DistinctCardinality(SortedSet(cs));
    assert (set k | k in SortedSet(cs)) == cs;
    forall m ensures m in Undocumented(manifest, t) <==>
      exists c :: c in PathSet(t.fields) && c !in manifest && m == UndocumentedMessage(c) {
      MessagesMembers(SortedSet(cs), UndocumentedMessage, m);
    }
  }

  /** Matching is by manifest key: the columns' own `name` entries play no part. */
  lemma KeysNotNames(manifest: map<string, ManifestColumn>, manifest': map<string, ManifestColumn>, t: Table)
    requires manifest.Keys == manifest'.Keys
    ensures ExtraDocumented(manifest, t) == ExtraDocumented(manifest', t)
    ensures Undocumented(manifest, t) == Undocumented(manifest', t)
  {
    assert ExtraColumns(manifest, t) == ExtraColumns(manifest', t);
    assert UndocumentedColumns(manifest, t) == UndocumentedColumns(manifest', t);
  }

  /** The errors of the two rules: the undocumented ones first, then the extra ones, each tagged. */
  lemma LintingErrorsOrder(manifest: map<string, ManifestColumn>, t: Table)
    ensures var es := RuleErrors(Rules, manifest, t);
      var u := Undocumented(manifest, t);
      var x := ExtraDocumented(manifest, t);
      |es| == |u| + |x| &&
      (forall i :: 0 <= i < |u| ==> es[i] == LintingError("UNDOCUMENTED_COLUMNS", u[i])) &&
      (forall i :: 0 <= i < |x| ==> es[|u| + i] == LintingError("EXTRA_DOCUMENTED_COLUMNS", x[i]))
  {
    RuleErrorsOfRules(manifest, t);
    var u := Tagged(UndocumentedColumnsRule, Undocumented(manifest, t));
    var x := Tagged(ExtraDocumentedColumnsRule, ExtraDocumented(manifest, t));
    forall i | 0 <= i < |x|
      ensures (u + x)[|u| + i] == x[i]
    {
    }
  }

  lemma RuleErrorsOfRules(manifest: map<string, ManifestColumn>, t: Table)
    ensures RuleErrors(Rules, manifest, t) ==
      Tagged(UndocumentedColumnsRule, Undocumented(manifest, t)) + Tagged(ExtraDocumentedColumnsRule, ExtraDocumented(manifest, t))
  {
    RuleErrorsSnoc([], UndocumentedColumnsRule, manifest, t);
    RuleErrorsSnoc([UndocumentedColumnsRule], ExtraDocumentedColumnsRule, manifest, t);
    assert [] + [UndocumentedColumnsRule] == [UndocumentedColumnsRule];
    assert [UndocumentedColumnsRule] + [ExtraDocumentedColumnsRule] == Rules;
    assert RuleErrors([], manifest, t) == [];
  }

  lemma RuleErrorsSnoc(rules: seq<Rule>, rule: Rule, manifest: map<string, ManifestColumn>, t: Table)
    ensures RuleErrors(rules + [rule], manifest, t) == RuleErrors(rules, manifest, t) + Tagged(rule, RuleMessages(rule, manifest, t))
  {
    assert (rules + [rule])[..|rules|] == rules;
  }

  /**
   * Linting a result with a table keeps everything but the linting outcome,
   * and fails exactly when the manifest keys differ from the table's dotted
   * names; a result without a table is left as it is.
   */
  lemma LintingFailsIffColumnsDiffer(node: Node, result: DryRunResult)
    ensures result.table.None? ==> Linted(node, result) == result
    ensures result.table.Some? ==>
      var r := Linted(node, result);
      r.node == result.node && r.table == result.table && r.status == result.status &&
      r.exception == result.exception &&
      (r.lintingStatus == LintingStatus.FAILURE <==> node.columns.Keys != PathSet(result.table.value.fields)) &&
      (r.lintingStatus == LintingStatus.SUCCESS <==> node.columns.Keys == PathSet(result.table.value.fields))
  {
    if result.table.Some? {
      var t := result.table.value;
      LintingErrorsOrder(node.columns, t);
      ExtraDocumentedMessages(node.columns, t);
      UndocumentedMessages(node.columns, t);
      var extra := ExtraColumns(node.columns, t);
      var undocumented := UndocumentedColumns(node.columns, t);
      if node.columns.Keys != PathSet(t.fields) {
        if exists c :: c in node.columns.Keys && c !in PathSet(t.fields) {
          var c :| c in node.columns.Keys && c !in PathSet(t.fields);
          assert c in extra;
        } else {
          var c :| c in PathSet(t.fields) && c !in node.columns.Keys;
          assert c in undocumented;
        }
      } else {
        assert extra == {} && undocumented == {};
      }
    }
  }
}
