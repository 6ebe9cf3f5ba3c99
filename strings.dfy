/** The few Python string operations the core relies on, over `seq<char>`. */
module Strings {

  /** `s.replace(old, new)` for one-character `old` and `new`. */
  function ReplaceChar(s: string, from: char, to: char): (r: string)
    ensures |r| == |s|
    ensures forall i :: 0 <= i < |s| ==> r[i] == (if s[i] == from then to else s[i])
  {
    if s == [] then [] else [if s[0] == from then to else s[0]] + ReplaceChar(s[1..], from, to)
  }

  /** ASCII-only `str.lower()`. */
  function Lower(s: string): (r: string)
    ensures |r| == |s|
    ensures forall i :: 0 <= i < |s| ==>
      r[i] == (if 'A' <= s[i] <= 'Z' then (s[i] as int + 32) as char else s[i])
  {
    if s == [] then [] else
      [if 'A' <= s[0] <= 'Z' then (s[0] as int + 32) as char else s[0]] + Lower(s[1..])
  }

  predicate IsDigit(c: char) { '0' <= c <= '9' }

  /** Decimal digits of a natural number, most significant first. */
  function NatToString(n: nat): (r: string)
    ensures r != []
    ensures forall i :: 0 <= i < |r| ==> IsDigit(r[i])
    decreases n
  {
    var d := ['0' + (n % 10) as char];
    if n < 10 then d else NatToString(n / 10) + d
  }

  /** Python's `f"{n:.0f}"` (and `str(n)`) for an integer `n`. */
  function IntToString(n: int): (r: string)
    ensures r != []
    ensures forall i :: 0 <= i < |r| ==> IsDigit(r[i]) || (i == 0 && r[i] == '-')
    ensures (r[0] == '-') <==> n < 0
  {
    if n < 0 then "-" + NatToString(-n) else NatToString(n)
  }

  /** Python's `f"{n:.2f}"` for an integer `n`. */
  function IntToString2(n: int): (r: string)
    ensures |r| >= 4 && r[|r| - 3..] == ".00"
  {
    IntToString(n) + ".00"
  }

  /** Python's `str(b)` for a boolean. */
  function BoolToString(b: bool): string {
    if b then "True" else "False"
  }

  /** `"".join(parts)`. */
  function Concat(parts: seq<string>): (r: string)
    ensures (r == []) <==> (forall i :: 0 <= i < |parts| ==> parts[i] == [])
  {
    if parts == [] then [] else parts[0] + Concat(parts[1..])
  }

  /**
   * `sep.join(s)` where `s` is itself a string: Python iterates over the
   * characters of `s`, so the result interleaves `sep` between them.
   */
  function JoinChars(sep: string, s: string): (r: string)
    ensures |s| <= 1 ==> r == s
    ensures |s| > 0 ==> |r| == |s| + (|s| - 1) * |sep| && r[0] == s[0]
    ensures (r == []) <==> (s == [])
  {
    if |s| <= 1 then s else [s[0]] + sep + JoinChars(sep, s[1..])
  }

  /**
   * `sep.join(a + b)` is `sep.join(a) + sep + sep.join(b)`: `sep` sits
   * between every two neighbouring characters and nowhere else, so by
   * induction the result is `s[0] + sep + s[1] + sep + ... + s[|s| - 1]`.
   */
  lemma {:induction false} JoinCharsAppend(sep: string, a: string, b: string)
    requires a != [] && b != []
    ensures JoinChars(sep, a + b) == JoinChars(sep, a) + sep + JoinChars(sep, b)
  {
    assert (a + b)[0] == a[0] && (a + b)[1..] == a[1..] + b;
    if |a| > 1 {
      JoinCharsAppend(sep, a[1..], b);
    }
  }

  /** Adding one character at the end adds a separator and that character. */
  lemma JoinCharsSnoc(sep: string, s: string, c: char)
    requires s != []
    ensures JoinChars(sep, s + [c]) == JoinChars(sep, s) + sep + [c]
  {
    JoinCharsAppend(sep, s, [c]);
  }

  // ---------------------------------------------------------------------
  // Python's ordering of `str` values (code point by code point) and
  // `list.sort()` on a list of strings.
  // ---------------------------------------------------------------------

  /** `a <= b` for Python strings. */
  predicate StrLe(a: string, b: string) {
    a == [] || (b != [] && (a[0] < b[0] || (a[0] == b[0] && StrLe(a[1..], b[1..]))))
  }

  lemma {:induction false} StrLeTotal(a: string, b: string)
    ensures StrLe(a, b) || StrLe(b, a)
  {
    if a != [] && b != [] && a[0] == b[0] {
      StrLeTotal(a[1..], b[1..]);
    }
  }

  lemma {:induction false} StrLeReflexive(a: string)
    ensures StrLe(a, a)
  {
    if a != [] { StrLeReflexive(a[1..]); }
  }

  lemma {:induction false} StrLeAntisymmetric(a: string, b: string)
    requires StrLe(a, b) && StrLe(b, a)
    ensures a == b
  {
    if a != [] && b != [] {
      StrLeAntisymmetric(a[1..], b[1..]);
      assert a == [a[0]] + a[1..];
      assert b == [b[0]] + b[1..];
    }
  }

  lemma {:induction false} StrLeTransitive(a: string, b: string, c: string)
    requires StrLe(a, b) && StrLe(b, c)
    ensures StrLe(a, c)
  {
    if a != [] && b != [] && c != [] && a[0] == b[0] && b[0] == c[0] {
      StrLeTransitive(a[1..], b[1..], c[1..]);
    }
  }

  ghost predicate SortedStrings(s: seq<string>) {
    forall i, j :: 0 <= i < j < |s| ==> StrLe(s[i], s[j])
  }

  /** Insert `x` before the first element it is not greater than. */
  function InsertString(x: string, s: seq<string>): seq<string> {
    if s == [] then [x]
    else if StrLe(x, s[0]) then [x] + s
    else [s[0]] + InsertString(x, s[1..])
  }

  /** Inserting into a sorted list keeps it sorted and adds exactly `x`. */
  lemma {:induction false} InsertStringSpec(x: string, s: seq<string>)
    requires SortedStrings(s)
    ensures SortedStrings(InsertString(x, s))
    ensures multiset(InsertString(x, s)) == multiset(s) + multiset{x}
  {
    if s != [] {
      if StrLe(x, s[0]) {
        InsertFront(x, s);
      } else {
        InsertStringSpec(x, s[1..]);
        InsertBehind(x, s, InsertString(x, s[1..]));
      }
    }
  }

  lemma InsertFront(x: string, s: seq<string>)
    requires SortedStrings(s) && s != [] && StrLe(x, s[0])
    ensures SortedStrings([x] + s)
  {
    forall j | 0 < j < |s| ensures StrLe(x, s[j]) { StrLeTransitive(x, s[0], s[j]); }
  }

  lemma InsertBehind(x: string, s: seq<string>, t: seq<string>)
    requires SortedStrings(s) && s != [] && !StrLe(x, s[0])
    requires SortedStrings(t) && multiset(t) == multiset(s[1..]) + multiset{x}
    ensures SortedStrings([s[0]] + t)
    ensures multiset([s[0]] + t) == multiset(s) + multiset{x}
  {
    StrLeTotal(x, s[0]);
    assert s == [s[0]] + s[1..];
    forall j | 0 <= j < |t| ensures StrLe(s[0], t[j]) {
      assert t[j] in multiset(t);
      if t[j] != x {
        assert t[j] in multiset(s[1..]);
        var k :| 0 <= k < |s[1..]| && s[1..][k] == t[j];
        assert s[k + 1] == t[j];
      }
    }
  }

  /** The result of Python's `list.sort()` on a list of strings (insertion sort). */
  function SortStrings(s: seq<string>): seq<string> {
    if s == [] then [] else InsertString(s[|s| - 1], SortStrings(s[..|s| - 1]))
  }

  /** Sorting yields a sorted permutation of its input. */
  lemma {:induction false} SortStringsSpec(s: seq<string>)
    ensures SortedStrings(SortStrings(s))
    ensures multiset(SortStrings(s)) == multiset(s)
  {
    if s != [] {
      assert s == s[..|s| - 1] + [s[|s| - 1]];
      SortStringsSpec(s[..|s| - 1]);
      InsertStringSpec(s[|s| - 1], SortStrings(s[..|s| - 1]));
    }
  }

  /** Two sorted lists with the same elements are the same list. */
  lemma {:induction false} SortedUnique(a: seq<string>, b: seq<string>)
    requires SortedStrings(a) && SortedStrings(b)
    requires multiset(a) == multiset(b)
    ensures a == b
  {
    if a == [] {
      assert |b| == |multiset(b)| == 0;
    } else {
      assert |b| == |multiset(b)| == |multiset(a)| == |a|;
      assert a[0] in multiset(b);
      var j :| 0 <= j < |b| && b[j] == a[0];
      assert b[0] in multiset(a);
      var i :| 0 <= i < |a| && a[i] == b[0];
      assert StrLe(b[0], a[0]) by { if j > 0 { assert StrLe(b[0], b[j]); } else { StrLeReflexive(a[0]); } }
      assert StrLe(a[0], b[0]) by { if i > 0 { assert StrLe(a[0], a[i]); } else { StrLeReflexive(b[0]); } }
      StrLeAntisymmetric(a[0], b[0]);
      assert a == [a[0]] + a[1..];
      assert b == [b[0]] + b[1..];
      assert multiset(a) == multiset{a[0]} + multiset(a[1..]);
      assert multiset(b) == multiset{b[0]} + multiset(b[1..]);
      assert multiset(a[1..]) == multiset(a) - multiset{a[0]};
      assert multiset(b[1..]) == multiset(b) - multiset{b[0]};
      SortedUnique(a[1..], b[1..]);
    }
  }

  /** Sorting sees only which strings there are, not their order. */
  lemma SortStringsPermutationInvariant(a: seq<string>, b: seq<string>)
    requires multiset(a) == multiset(b)
    ensures SortStrings(a) == SortStrings(b)
  {
    SortStringsSpec(a);
    SortStringsSpec(b);
    SortedUnique(SortStrings(a), SortStrings(b));
  }
}
