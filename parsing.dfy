/**
 * The two small SQL text helpers: spotting a recursive common table
 * expression by its tokens, and the MERGE statement used to check that a
 * predicted schema can be inserted into an incremental model's table.
 */
module Parsing {
  import opened Strings
  import opened Manifest

  // ---------------------------------------------------------------------------
  // `sql_has_recursive_ctes`

  /** The tokens the detection looks at: the code lower-cased, then split on whitespace. */
  function CodeTokens(code: string): seq<string>
  {
    Split(Lower(code))
  }

  /** Some token "with" is immediately followed by the token "recursive". */
  predicate WithRecursive(tokens: seq<string>)
  {
    exists i :: 0 <= i < |tokens| - 1 && tokens[i] == "with" && tokens[i + 1] == "recursive"
  }

  /** `sql_has_recursive_ctes`: a scan over adjacent token pairs that stops at the first match. */
  method SqlHasRecursiveCtes(code: string) returns (found: bool)
    ensures found <==> WithRecursive(CodeTokens(code))
    ensures |CodeTokens(code)| < 2 ==> !found
  {
    var codeTokens := Split(Lower(code));
    var index := 0;
    while index < |codeTokens| - 1
      invariant 0 <= index && (index == 0 || index <= |codeTokens| - 1)
      invariant forall i :: 0 <= i < index ==> !(codeTokens[i] == "with" && codeTokens[i + 1] == "recursive")
    {
      if codeTokens[index..index + 2] == ["with", "recursive"] {
        assert codeTokens[index] == codeTokens[index..index + 2][0];
        assert codeTokens[index + 1] == codeTokens[index..index + 2][1];
        return true;
      }
      index := index + 1;
    }
    return false;
  }

  lemma LowerConcat(a: string, b: string)
    ensures Lower(a + b) == Lower(a) + Lower(b)
  {
  }

  /** Lower-casing leaves whitespace alone. */
  lemma LowerSpace(w: string)
    requires AllSpace(w)
    ensures Lower(w) == w
  {
  }

  /** The first token of `x + y` ends inside `x` when `x` holds a whitespace character. */
  lemma {:induction false} TokenLengthPrefix(x: string, y: string)
    requires TokenLength(x) < |x|
    ensures TokenLength(x + y) == TokenLength(x)
    decreases |x|
  {
    if !IsSpace(x[0]) {
      assert (x + y)[1..] == x[1..] + y;
      TokenLengthPrefix(x[1..], y);
    }
  }

  /** Whitespace separates tokens: splitting `x + w + y` splits `x` and `y` apart. */
  lemma {:induction false} SplitAtSpace(x: string, w: string, y: string)
    requires w != [] && AllSpace(w)
    ensures Split(x + w + y) == Split(x) + Split(y)
    decreases |x|, 1
  {
    var s := x + w + y;
    if x == [] {
      assert s == w + y;
      SplitSkipsSpace(w, y);
    } else if IsSpace(x[0]) {
      assert s[1..] == x[1..] + w + y;
      SplitAtSpace(x[1..], w, y);
    } else if TokenLength(x) < |x| {
      SplitAfterToken(x, w, y);
    } else {
      SplitAfterWord(x, w, y);
    }
  }

  /** The first token of `x` ends inside `x`: it is split off, then the rest of `x`. */
  lemma {:induction false} SplitAfterToken(x: string, w: string, y: string)
    requires w != [] && AllSpace(w)
    requires x != [] && !IsSpace(x[0]) && TokenLength(x) < |x|
    ensures Split(x + w + y) == Split(x) + Split(y)
    decreases |x|, 0
  {
    var s := x + w + y;
    var n := TokenLength(x);
    TokenLengthPrefix(x, w + y);
    assert s == x + (w + y);
    assert s[..n] == x[..n];
    assert s[n..] == x[n..] + w + y;
    SplitAtSpace(x[n..], w, y);
  }

  /** `x` is a single word: it is one token, and the whitespace after it produces none. */
  lemma SplitAfterWord(x: string, w: string, y: string)
    requires w != [] && AllSpace(w)
    requires x != [] && !IsSpace(x[0]) && TokenLength(x) == |x|
    ensures Split(x + w + y) == Split(x) + Split(y)
  {
    var s := x + w + y;
    var n := TokenLength(x);
    TokenLengthOfWord(x, w + y);
    assert s == x + (w + y);
    assert s[0] == x[0];
    assert s[..n] == x;
    assert s[n..] == w + y;
    SplitSkipsSpace(w, y);
    assert x[..n] == x && x[n..] == [];
    assert Split(x) == [x];
  }

  /** Tokens never straddle whitespace. */
  lemma CodeTokensAtSpace(a: string, w: string, b: string)
    requires w != [] && AllSpace(w)
    ensures CodeTokens(a + w + b) == CodeTokens(a) + CodeTokens(b)
  {
    LowerConcat(a + w, b);
    LowerConcat(a, w);
    LowerSpace(w);
    SplitAtSpace(Lower(a), w, Lower(b));
  }

  /**
   * The amount and kind of whitespace between two stretches of code does not
   * change the tokens, so it cannot change the detection either.
   */
  lemma WhitespaceInsensitive(a: string, w1: string, w2: string, b: string)
    requires w1 != [] && AllSpace(w1) && w2 != [] && AllSpace(w2)
    ensures CodeTokens(a + w1 + b) == CodeTokens(a + w2 + b)
  {
    CodeTokensAtSpace(a, w1, b);
    CodeTokensAtSpace(a, w2, b);
  }

  lemma LowerUpperChar(c: char)
    ensures LowerChar(UpperChar(c)) == LowerChar(c)
  {
  }

  /** Upper-case code is read the same as the code itself: the detection ignores letter case. */
  lemma CaseInsensitive(code: string)
    ensures CodeTokens(Upper(code)) == CodeTokens(code)
  {
    forall i | 0 <= i < |code| ensures Lower(Upper(code))[i] == Lower(code)[i] {
      LowerUpperChar(code[i]);
    }
    assert Lower(Upper(code)) == Lower(code);
  }

  /** A word without whitespace is one token, whatever its letter case. */
  lemma WordToken(word: string, lowered: string)
    requires Lower(word) == lowered && lowered != [] && forall i :: 0 <= i < |lowered| ==> !IsSpace(lowered[i])
    ensures CodeTokens(word) == [lowered]
  {
    assert lowered + [] == lowered;
    TokenLengthOfWord(lowered, []);
    assert lowered[..|lowered|] == lowered && lowered[|lowered|..] == [];
    assert Split(lowered) == [lowered] + Split([]);
  }

  /** The two words, whitespace after each, then the rest of the code. */
  lemma WithRecursiveTokens(withWord: string, w1: string, recursiveWord: string, w2: string, post: string)
    requires Lower(withWord) == "with" && Lower(recursiveWord) == "recursive"
    requires w1 != [] && AllSpace(w1) && w2 != [] && AllSpace(w2)
    ensures CodeTokens(withWord + w1 + (recursiveWord + w2 + post)) == ["with", "recursive"] + CodeTokens(post)
  {
    var rest := recursiveWord + w2 + post;
    WordThenSpace(recursiveWord, "recursive", w2, post);
    WordThenSpace(withWord, "with", w1, rest);
    assert ["with"] + (["recursive"] + CodeTokens(post)) == ["with", "recursive"] + CodeTokens(post);
  }

  /** A word, whitespace, then the rest: the word's token comes first. */
  lemma WordThenSpace(word: string, lowered: string, w: string, rest: string)
    requires Lower(word) == lowered && lowered != [] && forall i :: 0 <= i < |lowered| ==> !IsSpace(lowered[i])
    requires w != [] && AllSpace(w)
    ensures CodeTokens(word + w + rest) == [lowered] + CodeTokens(rest)
  {
    WordToken(word, lowered);
    CodeTokensAtSpace(word, w, rest);
  }

  /**
   * "WITH RECURSIVE" as two words, in any letter case, separated from the
   * code around them by whitespace, is detected.
   */
  lemma WithRecursiveDetected(pre: string, w0: string, withWord: string, w1: string, recursiveWord: string,
                              w2: string, post: string)
    requires Lower(withWord) == "with" && Lower(recursiveWord) == "recursive"
    requires AllSpace(w0) && (pre == [] || w0 != [])
    requires w1 != [] && AllSpace(w1) && w2 != [] && AllSpace(w2)
    ensures WithRecursive(CodeTokens(pre + w0 + (withWord + w1 + (recursiveWord + w2 + post))))
  {
    var tail := withWord + w1 + (recursiveWord + w2 + post);
    var code := pre + w0 + tail;
    WithRecursiveTokens(withWord, w1, recursiveWord, w2, post);
    var tailTokens := CodeTokens(tail);
    if pre == [] {
      assert code == w0 + tail by { assert pre + w0 == w0; }
      LowerConcat(w0, tail);
      LowerSpace(w0);
      SplitSkipsSpace(w0, Lower(tail));
      assert CodeTokens(code) == tailTokens;
      assert tailTokens[0] == "with" && tailTokens[1] == "recursive";
    } else {
      CodeTokensAtSpace(pre, w0, tail);
      var tokens := CodeTokens(code);
      var k := |CodeTokens(pre)|;
      assert tokens[k] == "with" && tokens[k + 1] == "recursive";
    }
  }

  // ---------------------------------------------------------------------------
  // `get_merge_sql`

  /** A line made only of spaces and tabs, which `dedent` empties. */
  predicate BlankLine(line: string)
  {
    line != [] && forall i :: 0 <= i < |line| ==> line[i] == ' ' || line[i] == '\t'
  }

  function ClearLine(line: string): string
  {
    if BlankLine(line) then "" else line
  }

  /** One line of text and the text after it. */
  function Line(line: string, rest: string): string
  {
    line + "\n" + rest
  }

  /**
   * `textwrap.dedent` on text one of whose lines has no indentation: the
   * common margin is empty, so the only change is that lines made only of
   * spaces and tabs become empty.
   */
  function ClearBlankLines(s: string): (r: string)
    decreases |s|
  {
    var n := IndexOfChar(s, '\n');
    if n == |s| then ClearLine(s) else Line(ClearLine(s[..n]), ClearBlankLines(s[n + 1..]))
  }

  lemma ClearBlankLinesOfLine(line: string)
    requires '\n' !in line
    ensures ClearBlankLines(line) == ClearLine(line)
  {
  }

  /** The first line of a text is cleared on its own. */
  lemma ClearBlankLinesStep(line: string, rest: string)
    requires '\n' !in line
    ensures ClearBlankLines(Line(line, rest)) == Line(ClearLine(line), ClearBlankLines(rest))
  {
    var s := Line(line, rest);
    IndexOfCharAfter(line, '\n', rest);
    assert s[..|line|] == line;
    assert s[|line| + 1..] == rest;
  }

  /** A text cut at its first newline is its first line followed by the rest. */
  lemma SplitFirstLine(a: string, b: string, n: nat)
    requires n < |a| && a[n] == '\n'
    ensures Line(a, b) == Line(a[..n], Line(a[n + 1..], b))
  {
    assert a == Line(a[..n], a[n + 1..]);
  }

  /** Clearing blank lines works line by line: it commutes with joining two texts by a newline. */
  lemma {:induction false} ClearBlankLinesJoin(a: string, b: string)
    ensures ClearBlankLines(Line(a, b)) == Line(ClearBlankLines(a), ClearBlankLines(b))
    decreases |a|
  {
    var n := IndexOfChar(a, '\n');
    if n == |a| {
      ClearBlankLinesStep(a, b);
      ClearBlankLinesOfLine(a);
    } else {
      var a1 := a[..n];
      var a2 := a[n + 1..];
      SplitFirstLine(a, b, n);
      ClearBlankLinesStep(a1, Line(a2, b));
      ClearBlankLinesJoin(a2, b);
      assert ClearBlankLines(a) == Line(ClearLine(a1), ClearBlankLines(a2));
      LineAssoc(ClearLine(a1), ClearBlankLines(a2), ClearBlankLines(b));
    }
  }

  lemma LineAssoc(x: string, y: string, z: string)
    ensures Line(Line(x, y), z) == Line(x, Line(y, z))
  {
  }

  /** The column list of the MERGE statement: the names sorted and joined by ",". */
  function ValuesCsv(commonFieldNames: seq<string>): string
  {
    Join(Sort(commonFieldNames), ",")
  }

  // The fixed lines of the template, with the template's own indentation.
  const Indent := "                "
  const UsingLine := Indent + "USING ("
  const SelectIndent := Indent + "  "
  const CloseLine := Indent + ")"
  const OnFalseLine := Indent + "ON False"
  const NotMatchedLine := Indent + "WHEN NOT MATCHED THEN "
  const LastLine := "            "

  function InsertLine(valuesCsv: string): string
  {
    Indent + ("INSERT (" + valuesCsv + ") ")
  }

  function ValuesLine(valuesCsv: string): string
  {
    Indent + ("VALUES (" + valuesCsv + ")")
  }

  /** The statement `get_merge_sql` writes before `dedent`, line by line. */
  function MergeTemplate(target: string, selectStatement: string, valuesCsv: string): string
  {
    Line("MERGE " + target,
    Line(UsingLine,
    Line(SelectIndent + selectStatement,
    Line(CloseLine,
    Line(OnFalseLine,
    Line(NotMatchedLine,
    Line(InsertLine(valuesCsv),
    Line(ValuesLine(valuesCsv),
    LastLine))))))))
  }

  /**
   * `get_merge_sql`: merge the select statement's rows into the target table
   * with a condition that never matches, inserting the common columns.
   */
  function MergeSql(tableRef: TableRef, commonFieldNames: seq<string>, selectStatement: string): string
  {
    ClearBlankLines(MergeTemplate(BqLiteral(tableRef), selectStatement, ValuesCsv(commonFieldNames)))
  }

  /** A line with a character other than a space or a tab is kept. */
  lemma KeptLine(line: string, rest: string)
    requires '\n' !in line && !BlankLine(line)
    ensures ClearBlankLines(Line(line, rest)) == Line(line, ClearBlankLines(rest))
  {
    ClearBlankLinesStep(line, rest);
  }

  lemma NotBlankAt(line: string, i: int)
    requires 0 <= i < |line| && line[i] != ' ' && line[i] != '\t'
    ensures !BlankLine(line)
  {
  }

  /** A template line: the indentation, then text that starts with neither a space nor a tab. */
  lemma IndentedLine(text: string)
    requires '\n' !in text && text != [] && text[0] != ' ' && text[0] != '\t'
    ensures '\n' !in Indent + text && !BlankLine(Indent + text)
  {
    assert '\n' !in Indent;
    NotBlankAt(Indent + text, |Indent|);
  }

  /** A template line is kept as it is. */
  lemma KeptIndented(text: string, rest: string)
    requires '\n' !in text && text != [] && text[0] != ' ' && text[0] != '\t'
    ensures ClearBlankLines(Line(Indent + text, rest)) == Line(Indent + text, ClearBlankLines(rest))
  {
    IndentedLine(text);
    KeptLine(Indent + text, rest);
  }

  lemma LastLineCleared()
    ensures ClearBlankLines(LastLine) == ""
  {
    assert BlankLine(LastLine);
    ClearBlankLinesOfLine(LastLine);
  }

  // Each line of the template other than the first and the last is kept.

  lemma UsingKept(rest: string)
    ensures ClearBlankLines(Line(UsingLine, rest)) == Line(UsingLine, ClearBlankLines(rest))
  {
    KeptIndented("USING (", rest);
  }

  lemma CloseKept(rest: string)
    ensures ClearBlankLines(Line(CloseLine, rest)) == Line(CloseLine, ClearBlankLines(rest))
  {
    KeptIndented(")", rest);
  }

  lemma OnFalseKept(rest: string)
    ensures ClearBlankLines(Line(OnFalseLine, rest)) == Line(OnFalseLine, ClearBlankLines(rest))
  {
    KeptIndented("ON False", rest);
  }

  lemma NotMatchedKept(rest: string)
    ensures ClearBlankLines(Line(NotMatchedLine, rest)) == Line(NotMatchedLine, ClearBlankLines(rest))
  {
    KeptIndented("WHEN NOT MATCHED THEN ", rest);
  }

  lemma InsertKept(csv: string, rest: string)
    requires '\n' !in csv
    ensures ClearBlankLines(Line(InsertLine(csv), rest)) == Line(InsertLine(csv), ClearBlankLines(rest))
  {
    KeptIndented("INSERT (" + csv + ") ", rest);
  }

  lemma ValuesKept(csv: string, rest: string)
    requires '\n' !in csv
    ensures ClearBlankLines(Line(ValuesLine(csv), rest)) == Line(ValuesLine(csv), ClearBlankLines(rest))
  {
    KeptIndented("VALUES (" + csv + ")", rest);
  }

  /** The template's lines after the select statement, down to the indentation of its last line. */
  lemma MergeTemplateTail(csv: string)
    requires '\n' !in csv
    ensures ClearBlankLines(Line(CloseLine, Line(OnFalseLine, Line(NotMatchedLine,
              Line(InsertLine(csv), Line(ValuesLine(csv), LastLine)))))) ==
            Line(CloseLine, Line(OnFalseLine, Line(NotMatchedLine,
              Line(InsertLine(csv), Line(ValuesLine(csv), "")))))
  {
    var t8 := Line(ValuesLine(csv), LastLine);
    var t7 := Line(InsertLine(csv), t8);
    var t6 := Line(NotMatchedLine, t7);
    var t5 := Line(OnFalseLine, t6);
    LastLineCleared();
    ValuesKept(csv, LastLine);
    InsertKept(csv, t8);
    NotMatchedKept(t7);
    OnFalseKept(t6);
    CloseKept(t5);
  }

  /**
   * The MERGE statement in full: it merges into the table's literal, embeds
   * the select inside USING ( ... ) with only its blank lines cleared, merges
   * ON False, and names the same sorted column list in INSERT and VALUES; the
   * indentation of the template's last line is dropped.
   */
  lemma MergeSqlText(tableRef: TableRef, commonFieldNames: seq<string>, selectStatement: string)
    requires '\n' !in BqLiteral(tableRef) && '\n' !in ValuesCsv(commonFieldNames)
    ensures var csv := ValuesCsv(commonFieldNames);
      MergeSql(tableRef, commonFieldNames, selectStatement) ==
        Line("MERGE " + BqLiteral(tableRef),
        Line(UsingLine,
        Line(ClearBlankLines(SelectIndent + selectStatement),
        Line(CloseLine,
        Line(OnFalseLine,
        Line(NotMatchedLine,
        Line(InsertLine(csv),
        Line(ValuesLine(csv),
        ""))))))))
  {
    var csv := ValuesCsv(commonFieldNames);
    var t4 := Line(CloseLine, Line(OnFalseLine, Line(NotMatchedLine,
                Line(InsertLine(csv), Line(ValuesLine(csv), LastLine)))));
    var t3 := Line(SelectIndent + selectStatement, t4);
    var t2 := Line(UsingLine, t3);
    var l1 := "MERGE " + BqLiteral(tableRef);
    NotBlankAt(l1, 0);
    KeptLine(l1, t2);
    UsingKept(t3);
    ClearBlankLinesJoin(SelectIndent + selectStatement, t4);
    MergeTemplateTail(csv);
  }

  /** The column list depends only on which names are common, not on their order. */
  lemma MergeSqlColumnOrder(tableRef: TableRef, names1: seq<string>, names2: seq<string>, selectStatement: string)
    requires multiset(names1) == multiset(names2)
    ensures MergeSql(tableRef, names1, selectStatement) == MergeSql(tableRef, names2, selectStatement)
  {
    SortedUnique(Sort(names1), Sort(names2));
  }
}
