/**
 * The child order of `_get_children_and_actions`: drop children without a
 * position, stably sort ascending by `(position.y, position.x)`, then reverse.
 */
module ChildOrder {
  import opened Wrappers
  import opened Geometry
  import opened Elements

  type SortKey = (int, int)

  /** `(position.y, position.x)`; only applied to children that have a position. */
  function Key(e: Element): SortKey {
    if e.position.Some? then (e.position.value.y, e.position.value.x) else (0, 0)
  }

  /** Python's tuple order on `(y, x)`. */
  predicate KeyLe(a: SortKey, b: SortKey) {
    a.0 < b.0 || (a.0 == b.0 && a.1 <= b.1)
  }

  predicate KeyLt(a: SortKey, b: SortKey) {
    a.0 < b.0 || (a.0 == b.0 && a.1 < b.1)
  }

  ghost predicate Ascending(s: seq<Element>) {
    forall i, j :: 0 <= i < j < |s| ==> KeyLe(Key(s[i]), Key(s[j]))
  }

  /** Non-increasing lexicographically in `(y, x)`. */
  ghost predicate Descending(s: seq<Element>) {
    forall i, j :: 0 <= i < j < |s| ==> KeyLe(Key(s[j]), Key(s[i]))
  }

  /** `[element for element in children_all if element.position is not None]`. */
  function WithPosition(es: seq<Element>): (r: seq<Element>)
    ensures forall i :: 0 <= i < |r| ==> r[i].position.Some?
  {
    if es == [] then []
    else if es[0].position.Some? then [es[0]] + WithPosition(es[1..]) else WithPosition(es[1..])
  }

  /** Each child with a position is kept exactly as often as it occurs, and no other child is kept. */
  lemma {:induction false} WithPositionCount(es: seq<Element>)
    ensures forall e :: multiset(WithPosition(es))[e] == (if e.position.Some? then multiset(es)[e] else 0)
  {
    if es != [] {
      assert es == [es[0]] + es[1..];
      WithPositionCount(es[1..]);
    }
  }

  /** The filter keeps the native order: it distributes over concatenation. */
  lemma {:induction false} WithPositionAppend(a: seq<Element>, b: seq<Element>)
    ensures WithPosition(a + b) == WithPosition(a) + WithPosition(b)
  {
    if a == [] {
      assert a + b == b;
    } else {
      assert (a + b)[1..] == a[1..] + b;
      WithPositionAppend(a[1..], b);
    }
  }

  /** The elements of `s` whose key is `k`, in their order in `s`. */
  function WithKey(s: seq<Element>, k: SortKey): seq<Element> {
    if s == [] then [] else (if Key(s[0]) == k then [s[0]] else []) + WithKey(s[1..], k)
  }

  lemma {:induction false} WithKeyAppend(a: seq<Element>, b: seq<Element>, k: SortKey)
    ensures WithKey(a + b, k) == WithKey(a, k) + WithKey(b, k)
  {
    if a == [] {
      assert a + b == b;
    } else {
      assert (a + b)[1..] == a[1..] + b;
      WithKeyAppend(a[1..], b, k);
    }
  }

  lemma {:induction false} WithKeyNone(s: seq<Element>, k: SortKey)
    requires forall i :: 0 <= i < |s| ==> Key(s[i]) != k
    ensures WithKey(s, k) == []
  {
    if s != [] { WithKeyNone(s[1..], k); }
  }

  /** Insert after every element whose key is not greater: keeps equal keys in arrival order. */
  function InsertByKey(e: Element, s: seq<Element>): seq<Element> {
    if s == [] then [e]
    else if KeyLt(Key(e), Key(s[0])) then [e] + s
    else [s[0]] + InsertByKey(e, s[1..])
  }

  /** Inserting into an ascending list keeps it ascending and adds exactly `e`. */
  lemma {:induction false} InsertByKeySpec(e: Element, s: seq<Element>)
    requires Ascending(s)
    ensures Ascending(InsertByKey(e, s))
    ensures multiset(InsertByKey(e, s)) == multiset(s) + multiset{e}
  {
    if s != [] {
      if KeyLt(Key(e), Key(s[0])) {
        InsertByKeyFront(e, s);
      } else {
        InsertByKeySpec(e, s[1..]);
        InsertByKeyBehind(e, s, InsertByKey(e, s[1..]));
      }
    }
  }

  lemma InsertByKeyFront(e: Element, s: seq<Element>)
    requires Ascending(s) && s != [] && KeyLt(Key(e), Key(s[0]))
    ensures Ascending([e] + s)
  {
    forall j | 0 <= j < |s| ensures KeyLe(Key(e), Key(s[j])) {
      assert j == 0 || KeyLe(Key(s[0]), Key(s[j]));
    }
  }

  lemma InsertByKeyBehind(e: Element, s: seq<Element>, t: seq<Element>)
    requires Ascending(s) && s != [] && !KeyLt(Key(e), Key(s[0]))
    requires Ascending(t) && multiset(t) == multiset(s[1..]) + multiset{e}
    ensures Ascending([s[0]] + t)
    ensures multiset([s[0]] + t) == multiset(s) + multiset{e}
  {
    assert s == [s[0]] + s[1..];
    forall j | 0 <= j < |t| ensures KeyLe(Key(s[0]), Key(t[j])) {
      assert t[j] in multiset(t);
      if t[j] != e {
        assert t[j] in multiset(s[1..]);
        var m :| 0 <= m < |s[1..]| && s[1..][m] == t[j];
        assert s[m + 1] == t[j];
      }
    }
  }

  /** Python's stable `sorted(children, key=lambda c: (c.position.y, c.position.x))`. */
  function SortByKey(s: seq<Element>): seq<Element> {
    if s == [] then [] else InsertByKey(s[|s| - 1], SortByKey(s[..|s| - 1]))
  }

  /** Sorting yields an ascending permutation of its input. */
  lemma {:induction false} SortByKeySpec(s: seq<Element>)
    ensures Ascending(SortByKey(s))
    ensures multiset(SortByKey(s)) == multiset(s)
  {
    if s != [] {
      assert s == s[..|s| - 1] + [s[|s| - 1]];
      SortByKeySpec(s[..|s| - 1]);
      InsertByKeySpec(s[|s| - 1], SortByKey(s[..|s| - 1]));
    }
  }

  lemma {:induction false} InsertStable(e: Element, s: seq<Element>, k: SortKey)
    requires Ascending(s)
    ensures WithKey(InsertByKey(e, s), k) == WithKey(s, k) + (if Key(e) == k then [e] else [])
  {
    if s == [] {
    } else if KeyLt(Key(e), Key(s[0])) {
      assert InsertByKey(e, s) == [e] + s;
      InsertStableFront(e, s, k);
    } else {
      var t := InsertByKey(e, s[1..]);
      assert InsertByKey(e, s) == [s[0]] + t;
      assert ([s[0]] + t)[1..] == t;
      InsertStable(e, s[1..], k);
    }
  }

  lemma InsertStableFront(e: Element, s: seq<Element>, k: SortKey)
    requires Ascending(s) && s != [] && KeyLt(Key(e), Key(s[0]))
    ensures WithKey([e] + s, k) == WithKey(s, k) + (if Key(e) == k then [e] else [])
  {
    assert ([e] + s)[1..] == s;
    if Key(e) == k {
      forall i | 0 <= i < |s| ensures Key(s[i]) != k {
        assert i == 0 || KeyLe(Key(s[0]), Key(s[i]));
      }
      WithKeyNone(s, k);
    }
  }

  /** Sorting keeps the elements of each key in their original order (stability). */
  lemma {:induction false} SortStable(s: seq<Element>, k: SortKey)
    ensures WithKey(SortByKey(s), k) == WithKey(s, k)
  {
    if s != [] {
      var init, last := s[..|s| - 1], s[|s| - 1];
      assert s == init + [last];
      SortStable(init, k);
      SortByKeySpec(init);
      InsertStable(last, SortByKey(init), k);
      WithKeyAppend(init, [last], k);
    }
  }

  /** `list.reverse()`. */
  function Reverse(s: seq<Element>): (r: seq<Element>)
    ensures |r| == |s|
    ensures forall i :: 0 <= i < |s| ==> r[i] == s[|s| - 1 - i]
  {
    if s == [] then [] else Reverse(s[1..]) + [s[0]]
  }

  lemma {:induction false} ReverseMultiset(s: seq<Element>)
    ensures multiset(Reverse(s)) == multiset(s)
  {
    if s != [] {
      ReverseMultiset(s[1..]);
      assert s == [s[0]] + s[1..];
    }
  }

  lemma {:induction false} WithKeyReverse(s: seq<Element>, k: SortKey)
    ensures WithKey(Reverse(s), k) == Reverse(WithKey(s, k))
  {
    if s != [] {
      WithKeyReverse(s[1..], k);
      WithKeyAppend(Reverse(s[1..]), [s[0]], k);
      var w := if Key(s[0]) == k then [s[0]] else [];
      assert WithKey(s, k) == w + WithKey(s[1..], k);
      assert Reverse(w + WithKey(s[1..], k)) == Reverse(WithKey(s[1..], k)) + w by {
        ReverseAppend(w, WithKey(s[1..], k));
      }
    }
  }

  lemma ReverseAppend(a: seq<Element>, b: seq<Element>)
    requires |a| <= 1
    ensures Reverse(a + b) == Reverse(b) + a
  {
    if a == [] { assert a + b == b; }
    else {
      assert (a + b)[1..] == b;
    }
  }

  /** The order the source gives the children it built. */
  function OrderChildren(built: seq<Element>): seq<Element> {
    Reverse(SortByKey(WithPosition(built)))
  }

  /**
   * The ordered children are exactly the built children that have a
   * position (as a multiset), all have a position, and they are
   * non-increasing in `(y, x)`.
   */
  lemma OrderChildrenSpec(built: seq<Element>)
    ensures multiset(OrderChildren(built)) == multiset(WithPosition(built))
    ensures forall e :: multiset(OrderChildren(built))[e] == (if e.position.Some? then multiset(built)[e] else 0)
    ensures forall i :: 0 <= i < |OrderChildren(built)| ==> OrderChildren(built)[i].position.Some?
    ensures Descending(OrderChildren(built))
  {
    var sorted := SortByKey(WithPosition(built));
    SortByKeySpec(WithPosition(built));
    WithPositionCount(built);
    ReverseMultiset(sorted);
    forall i | 0 <= i < |OrderChildren(built)| ensures OrderChildren(built)[i].position.Some? {
      assert OrderChildren(built)[i] in multiset(WithPosition(built));
    }
  }

  /** Every ordered child is one of the built children, and has a position. */
  lemma OrderChildrenMembers(built: seq<Element>)
    ensures forall c :: c in OrderChildren(built) ==> c in built && c.position.Some?
  {
    OrderChildrenSpec(built);
    forall c | c in OrderChildren(built) ensures c in built && c.position.Some? {
      assert c in multiset(OrderChildren(built));
      assert c in multiset(WithPosition(built));
    }
  }

  lemma WithPositionSingle(e: Element)
    ensures WithPosition([e]) == if e.position.Some? then [e] else []
  {
    assert [e][1..] == [];
  }

  lemma WithKeySingle(e: Element, k: SortKey)
    ensures WithKey([e], k) == if Key(e) == k then [e] else []
  {
    assert [e][1..] == [];
  }

  /** Keeping one key and keeping the positioned children commute, both keeping the native order. */
  lemma {:induction false} WithKeyWithPosition(s: seq<Element>, k: SortKey)
    ensures WithKey(WithPosition(s), k) == WithPosition(WithKey(s, k))
  {
    if s != [] {
      var h, t := s[0], s[1..];
      assert s == [h] + t;
      WithKeyWithPosition(t, k);
      WithPositionAppend([h], t);
      WithPositionSingle(h);
      WithKeyAppend([h], t, k);
      WithKeySingle(h, k);
      WithKeyAppend(WithPosition([h]), WithPosition(t), k);
      WithPositionAppend(WithKey([h], k), WithKey(t, k));
      if h.position.Some? {
        WithKeySingle(h, k);
        WithPositionSingle(h);
      } else {
        assert WithKey([], k) == [];
        assert WithPosition([]) == [];
      }
    }
  }

  /** A key other than `(0, 0)` belongs only to positioned children. */
  lemma {:induction false} WithKeyPositioned(s: seq<Element>, k: SortKey)
    requires k != (0, 0)
    ensures WithPosition(WithKey(s, k)) == WithKey(s, k)
  {
    if s != [] {
      var h, t := s[0], s[1..];
      assert s == [h] + t;
      WithKeyPositioned(t, k);
      WithKeyAppend([h], t, k);
      WithKeySingle(h, k);
      WithPositionAppend(WithKey([h], k), WithKey(t, k));
      if Key(h) == k {
        WithPositionSingle(h);
      } else {
        assert WithPosition([]) == [];
      }
    }
  }

  /**
   * Children with equal `(y, x)` come out in the reverse of their order in
   * the native child list; a key other than `(0, 0)` is never that of a
   * child without a position, so for it the native children themselves
   * are reversed.
   */
  lemma OrderChildrenEqualKeys(built: seq<Element>, k: SortKey)
    ensures WithKey(OrderChildren(built), k) == Reverse(WithPosition(WithKey(built, k)))
    ensures k != (0, 0) ==> WithKey(OrderChildren(built), k) == Reverse(WithKey(built, k))
  {
    WithKeyReverse(SortByKey(WithPosition(built)), k);
    SortStable(WithPosition(built), k);
    WithKeyWithPosition(built, k);
    if k != (0, 0) {
      WithKeyPositioned(built, k);
    }
  }

  /** Children at (y=10, x=5), (y=10, x=20), (y=30, x=0) come out as (30, 0), (10, 20), (10, 5). */
  lemma OrderExample(a: Element, b: Element, c: Element)
    requires a.position == Some(Point(5, 10))
    requires b.position == Some(Point(20, 10))
    requires c.position == Some(Point(0, 30))
    ensures OrderChildren([a, b, c]) == [c, b, a]
  {
    FilterExample(a, b, c);
    SortExample(a, b, c);
    ReverseExample(a, b, c);
  }

  lemma FilterExample(a: Element, b: Element, c: Element)
    requires a.position.Some? && b.position.Some? && c.position.Some?
    ensures WithPosition([a, b, c]) == [a, b, c]
  {
    WithPositionSingle(a);
    WithPositionSingle(b);
    WithPositionSingle(c);
    WithPositionAppend([a], [b]);
    assert [a] + [b] == [a, b];
    WithPositionAppend([a, b], [c]);
    assert [a, b] + [c] == [a, b, c];
  }

  lemma SortExample(a: Element, b: Element, c: Element)
    requires Key(a) == (10, 5) && Key(b) == (10, 20) && Key(c) == (30, 0)
    ensures SortByKey([a, b, c]) == [a, b, c]
  {
    assert [a, b, c][..2] == [a, b];
    assert [a, b][..1] == [a];
    assert [a][..0] == [];
    assert SortByKey([a]) == [a];
    assert InsertByKey(b, [a]) == [a] + InsertByKey(b, []);
    assert SortByKey([a, b]) == [a, b];
    assert [a, b][1..] == [b];
    assert InsertByKey(c, [b]) == [b] + InsertByKey(c, []);
    assert InsertByKey(c, [a, b]) == [a] + InsertByKey(c, [b]);
  }

  lemma ReverseExample(a: Element, b: Element, c: Element)
    ensures Reverse([a, b, c]) == [c, b, a]
  {
  }
}
