/**
 * The parts of Python's `str` that the dry runner relies on: `sep.join`,
 * `in`, `endswith`, `lower`/`upper`, whitespace `split()` and the ordering that
 * `sorted` uses (code point by code point, a proper prefix first).
 */
module Strings {
  import opened Seqs

  /** `sep.join(parts)`. */
  function Join(parts: seq<string>, sep: string): string
  {
    if |parts| == 0 then ""
    else if |parts| == 1 then parts[0]
    else parts[0] + sep + Join(parts[1..], sep)
  }

  /** `sub in s` for strings. */
  predicate Contains(s: string, sub: string)
  {
    exists i :: 0 <= i <= |s| - |sub| && OccursAt(s, i, sub)
  }

  /** `sub` occurs in `s` starting at index `i`. */
  predicate OccursAt(s: string, i: int, sub: string)
  {
    0 <= i <= |s| - |sub| && s[i..i + |sub|] == sub
  }

  /** `s.endswith(suffix)`. */
  predicate EndsWith(s: string, suffix: string)
  {
    |suffix| <= |s| && s[|s| - |suffix|..] == suffix
  }

  predicate StartsWith(s: string, prefix: string)
  {
    |prefix| <= |s| && s[..|prefix|] == prefix
  }

  /** ASCII case mapping (`str.lower` and `str.upper` on ASCII text). */
  function LowerChar(c: char): char
  {
    if 'A' <= c <= 'Z' then (c as int + 32) as char else c
  }

  function UpperChar(c: char): char
  {
    if 'a' <= c <= 'z' then (c as int - 32) as char else c
  }

  function Lower(s: string): (r: string)
    ensures |r| == |s| && forall i :: 0 <= i < |s| ==> r[i] == LowerChar(s[i])
  {
    if s == [] then [] else [LowerChar(s[0])] + Lower(s[1..])
  }

  function Upper(s: string): (r: string)
    ensures |r| == |s| && forall i :: 0 <= i < |s| ==> r[i] == UpperChar(s[i])
  {
    if s == [] then [] else [UpperChar(s[0])] + Upper(s[1..])
  }

  /** The characters for which Python's `str.isspace` holds. */
  predicate IsSpace(c: char)
  {
    var n := c as int;
    n == 0x20 || 0x09 <= n <= 0x0d || 0x1c <= n <= 0x1f || n == 0x85 || n == 0xa0 ||
    n == 0x1680 || 0x2000 <= n <= 0x200a || n == 0x2028 || n == 0x2029 || n == 0x202f ||
    n == 0x205f || n == 0x3000
  }

  /** Length of the run of non-whitespace characters that starts `s`. */
  function TokenLength(s: string): (n: nat)
    ensures n <= |s|
    ensures forall i :: 0 <= i < n ==> !IsSpace(s[i])
    ensures n < |s| ==> IsSpace(s[n])
  {
    if s == [] || IsSpace(s[0]) then 0 else 1 + TokenLength(s[1..])
  }

  /** `s.split()`: the maximal runs of non-whitespace characters, in order. */
  function Split(s: string): (r: seq<string>)
    ensures forall k :: 0 <= k < |r| ==> r[k] != [] && forall i :: 0 <= i < |r[k]| ==> !IsSpace(r[k][i])
    decreases |s|
  {
    if s == [] then []
    else if IsSpace(s[0]) then Split(s[1..])
    else
      var n := TokenLength(s);
      [s[..n]] + Split(s[n..])
  }

  predicate AllSpace(s: string)
  {
    forall i :: 0 <= i < |s| ==> IsSpace(s[i])
  }

  /** Leading whitespace produces no token. */
  lemma {:induction false} SplitSkipsSpace(w: string, s: string)
    requires AllSpace(w)
    ensures Split(w + s) == Split(s)
    decreases |w|
  {
    if w != [] {
      assert (w + s)[0] == w[0] && IsSpace(w[0]);
      assert (w + s)[1..] == w[1..] + s;
      assert Split(w + s) == Split(w[1..] + s);
      SplitSkipsSpace(w[1..], s);
    } else {
      assert w + s == s;
    }
  }

  /**
   * A word followed by whitespace is a token of its own: splitting
   * `word + w + rest` gives `[word]` followed by the tokens of `rest`.
   */
  lemma SplitWord(word: string, w: string, rest: string)
    requires word != [] && (forall i :: 0 <= i < |word| ==> !IsSpace(word[i]))
    requires w != [] && AllSpace(w)
    ensures Split(word + w + rest) == [word] + Split(rest)
  {
    var s := word + w + rest;
    TokenLengthOfWord(word, w + rest);
    assert s == word + (w + rest);
    assert s[..|word|] == word;
    assert s[|word|..] == w + rest;
    SplitSkipsSpace(w, rest);
  }

  lemma {:induction false} TokenLengthOfWord(word: string, tail: string)
    requires forall i :: 0 <= i < |word| ==> !IsSpace(word[i])
    requires tail == [] || IsSpace(tail[0])
    ensures TokenLength(word + tail) == |word|
    decreases |word|
  {
    if word != [] {
      assert (word + tail)[1..] == word[1..] + tail;
      TokenLengthOfWord(word[1..], tail);
    } else {
      assert word + tail == tail;
    }
  }

  // ---------------------------------------------------------------------------
  // String order and sorting

  /** `a < b` on Python strings. */
  predicate LexLess(a: string, b: string)
  {
    |b| > 0 && (|a| == 0 || a[0] < b[0] || (a[0] == b[0] && LexLess(a[1..], b[1..])))
  }

  lemma {:induction false} LexLessIrreflexive(a: string)
    ensures !LexLess(a, a)
  {
    if |a| > 0 { LexLessIrreflexive(a[1..]); }
  }

  lemma {:induction false} LexLessAsymmetric(a: string, b: string)
    ensures LexLess(a, b) ==> !LexLess(b, a)
  {
    if |a| > 0 && |b| > 0 && a[0] == b[0] { LexLessAsymmetric(a[1..], b[1..]); }
  }

  lemma {:induction false} LexLessTransitive(a: string, b: string, c: string)
    requires LexLess(a, b) && LexLess(b, c)
    ensures LexLess(a, c)
  {
    if |a| > 0 && a[0] == b[0] && b[0] == c[0] { LexLessTransitive(a[1..], b[1..], c[1..]); }
  }

  lemma {:induction false} LexLessTotal(a: string, b: string)
    ensures a == b || LexLess(a, b) || LexLess(b, a)
  {
    if |a| > 0 && |b| > 0 && a[0] == b[0] {
      LexLessTotal(a[1..], b[1..]);
      if a[1..] == b[1..] {
        assert a == [a[0]] + a[1..] && b == [b[0]] + b[1..];
      }
    }
  }

  /** Ascending order, as `sorted` leaves a list of strings. */
  predicate Sorted(s: seq<string>)
  {
    forall i, j :: 0 <= i < j < |s| ==> !LexLess(s[j], s[i])
  }

  function Insert(x: string, s: seq<string>): (r: seq<string>)
    requires Sorted(s)
    ensures Sorted(r) && multiset(r) == multiset(s) + multiset{x}
  {
    if s == [] then [x]
    else if !LexLess(s[0], x) then
      assert forall j :: 0 < j < |s| ==> !LexLess(s[j], x) by {
        forall j | 0 < j < |s| ensures !LexLess(s[j], x) {
          if LexLess(s[j], x) {
            LexLessTotal(s[0], s[j]);
            if s[0] != s[j] { LexLessTransitive(s[0], s[j], x); }
          }
        }
      }
      [x] + s
    else
      assert s == [s[0]] + s[1..];
      var t := Insert(x, s[1..]);
      LexLessAsymmetric(s[0], x);
      assert forall j :: 0 <= j < |t| ==> !LexLess(t[j], s[0]) by {
        forall j | 0 <= j < |t| ensures !LexLess(t[j], s[0]) {
          assert t[j] in multiset(t);
          if t[j] != x {
            assert t[j] in multiset(s[1..]);
            var k :| 0 <= k < |s[1..]| && s[1..][k] == t[j];
            assert s[k + 1] == t[j];
          }
        }
      }
      [s[0]] + t
  }

  /** `sorted(xs)` on a list of strings (insertion sort; the result is unique). */
  function Sort(xs: seq<string>): (r: seq<string>)
    ensures Sorted(r) && multiset(r) == multiset(xs)
  {
    if xs == [] then []
    else
      assert xs == [xs[0]] + xs[1..];
      Insert(xs[0], Sort(xs[1..]))
  }

  /** Sorting keeps exactly the elements of the list. */
  lemma SortMembers(xs: seq<string>)
    ensures forall x :: x in Sort(xs) <==> x in xs
  {
    forall x ensures x in Sort(xs) <==> x in xs {
      assert x in Sort(xs) <==> x in multiset(Sort(xs));
      assert x in xs <==> x in multiset(xs);
    }
  }

  /** Two ascending lists with the same elements are the same list. */
  lemma {:induction false} SortedUnique(a: seq<string>, b: seq<string>)
    requires Sorted(a) && Sorted(b) && multiset(a) == multiset(b)
    ensures a == b
    decreases |a|
  {
    if a != [] {
      SortedHeadsEqual(a, b);
      assert a == [a[0]] + a[1..] && b == [b[0]] + b[1..];
      MultisetTail(a);
      MultisetTail(b);
      SortedUnique(a[1..], b[1..]);
    } else {
      assert |b| == |multiset(b)| == 0;
    }
  }

  lemma MultisetTail(a: seq<string>)
    requires a != []
    ensures multiset(a[1..]) == multiset(a) - multiset{a[0]}
  {
    assert a == [a[0]] + a[1..];
  }

  lemma SortedHeadsEqual(a: seq<string>, b: seq<string>)
    requires Sorted(a) && Sorted(b) && multiset(a) == multiset(b) && a != []
    ensures b != [] && a[0] == b[0]
  {
    assert a[0] in multiset(b);
    assert b != [] && b[0] in multiset(a);
    var i :| 0 <= i < |b| && b[i] == a[0];
    var j :| 0 <= j < |a| && a[j] == b[0];
    assert !LexLess(a[0], b[0]) by { if i > 0 { assert !LexLess(b[i], b[0]); } else { LexLessIrreflexive(a[0]); } }
    assert !LexLess(b[0], a[0]) by { if j > 0 { assert !LexLess(a[j], a[0]); } else { LexLessIrreflexive(a[0]); } }
    LexLessTotal(a[0], b[0]);
  }

  /** Ascending without repeats, as `sorted` leaves the keys of a dict. */
  predicate StrictlySorted(s: seq<string>)
  {
    forall i, j :: 0 <= i < j < |s| ==> LexLess(s[i], s[j])
  }

  lemma SortedDistinctStrict(s: seq<string>)
    requires Sorted(s) && Distinct(s)
    ensures StrictlySorted(s)
  {
    forall i, j | 0 <= i < j < |s| ensures LexLess(s[i], s[j]) {
      LexLessTotal(s[i], s[j]);
    }
  }

  /** Sorting a list without duplicates gives a strictly ascending list. */
  lemma SortOfDistinct(xs: seq<string>)
    requires Distinct(xs)
    ensures StrictlySorted(Sort(xs)) && Distinct(Sort(xs))
  {
    DistinctMultiset(xs, Sort(xs));
    SortedDistinctStrict(Sort(xs));
  }

  lemma StrictlySortedDistinct(s: seq<string>)
    requires StrictlySorted(s)
    ensures Distinct(s)
  {
    forall i, j | 0 <= i < j < |s| ensures s[i] != s[j] {
      LexLessIrreflexive(s[i]);
    }
  }

  /** Two strictly ascending lists with the same elements are the same list. */
  lemma {:induction false} StrictlySortedUnique(a: seq<string>, b: seq<string>)
    requires StrictlySorted(a) && StrictlySorted(b)
    requires forall x :: x in a <==> x in b
    ensures a == b
    decreases |a|
  {
    if a == [] {
      NoElementsEmpty(b);
    } else {
      assert a[0] in b;
      assert b != [];
      if a[0] != b[0] {
        var k :| 0 <= k < |b| && b[k] == a[0];
        assert b[0] in b;
        var j :| 0 <= j < |a| && a[j] == b[0];
        assert k > 0 && j > 0;
        LexLessAsymmetric(a[0], b[0]);
      }
      forall x ensures x in a[1..] <==> x in b[1..] {
        if x in a[1..] {
          var i :| 1 <= i < |a| && a[i] == x;
          LexLessIrreflexive(x);
          assert x in b && x != b[0];
        }
        if x in b[1..] {
          var i :| 1 <= i < |b| && b[i] == x;
          LexLessIrreflexive(x);
          assert x in a && x != a[0];
        }
      }
      StrictlySortedUnique(a[1..], b[1..]);
      assert a == [a[0]] + a[1..] && b == [b[0]] + b[1..];
    }
  }

  lemma NoElementsEmpty(b: seq<string>)
    ensures (forall x :: x !in b) ==> b == []
  {
    if b != [] {
      assert b[0] in b;
    }
  }

  // ---------------------------------------------------------------------------
  // Sets of strings as lists

  /** A list of the given keys, each once, in no particular order. */
  lemma {:induction false} KeyEnumeration(ks: set<string>) returns (s: seq<string>)
    ensures Distinct(s) && forall k :: k in s <==> k in ks
    decreases |ks|
  {
    if ks == {} {
      s := [];
    } else {
      var k :| k in ks;
      var t := KeyEnumeration(ks - {k});
      s := [k] + t;
      forall i, j | 0 <= i < j < |s| ensures s[i] != s[j] {
        if i == 0 {
          assert s[j] in t;
        } else {
          assert s[i] == t[i - 1] && s[j] == t[j - 1];
        }
      }
    }
  }

  lemma SortedKeysExist(ks: set<string>)
    ensures exists s :: StrictlySorted(s) && forall k :: k in s <==> k in ks
  {
    var t := KeyEnumeration(ks);
    SortOfDistinct(t);
    SortMembers(t);
    assert StrictlySorted(Sort(t)) && forall k :: k in Sort(t) <==> k in ks;
  }

  /** `sorted(ks)` for a set: its elements in ascending order, each once. */
  ghost function SortedSet(ks: set<string>): (r: seq<string>)
    ensures StrictlySorted(r) && Distinct(r)
    ensures forall k :: k in r <==> k in ks
  {
    SortedKeysExist(ks);
    var s :| StrictlySorted(s) && forall k :: k in s <==> k in ks;
    StrictlySortedDistinct(s);
    s
  }

  /** The elements of a set, each once, in the order they are drawn. */
  method SetToSeq(ks: set<string>) returns (names: seq<string>)
    ensures Distinct(names) && forall k :: k in names <==> k in ks
  {
    var rest := ks;
    names := [];
    while rest != {}
      invariant rest <= ks
      invariant Distinct(names)
      invariant forall k :: k in names <==> k in ks && k !in rest
      decreases |rest|
    {
      var k :| k in rest;
      names := names + [k];
      rest := rest - {k};
    }
  }
}
