/**
 * `UIElement.to_dict`: the dictionary an element is written out as, and a
 * reader for it. The reader is the partner of `to_dict`: it recovers every
 * field `to_dict` exports (positions and sizes from their text form), so
 * what the dictionary keeps and what it loses is stated exactly.
 */
module Serializer {
  import opened Wrappers
  import opened Geometry
  import opened Json
  import opened Strings
  import opened Elements

  /** The keys of `to_dict`. */
  const KeyId: string := "id"
  const KeyName: string := "name"
  const KeyRole: string := "role"
  const KeyDescription: string := "description"
  const KeyRoleDescription: string := "role_description"
  const KeyValue: string := "value"
  const KeyAbsolutePosition: string := "absolute_position"
  const KeyPosition: string := "position"
  const KeySize: string := "size"
  const KeyEnabled: string := "enabled"
  const KeyBbox: string := "bbox"
  const KeyVisibleBbox: string := "visible_bbox"
  const KeyChildren: string := "children"

  /** The keys of `to_dict`, in insertion order. */
  const DictKeys: seq<string> := [KeyId, KeyName, KeyRole, KeyDescription, KeyRoleDescription, KeyValue,
    KeyAbsolutePosition, KeyPosition, KeySize, KeyEnabled, KeyBbox, KeyVisibleBbox, KeyChildren]

  /** `f"{x:.2f};{y:.2f}"`, or `""` when there is no point. */
  function PointText(p: Option<Point>): string {
    if p.None? then "" else IntToString2(p.value.x) + ";" + IntToString2(p.value.y)
  }

  /** `f"{width:.0f};{height:.0f}"`, or `""` when there is no size. */
  function SizeText(s: Option<Size>): string {
    if s.None? then "" else IntToString(s.value.width) + ";" + IntToString(s.value.height)
  }

  /** A bounding box is a list of four integers; a missing one is `null`. */
  function RectJson(r: Option<Rect>): Json {
    if r.None? then JNull else JArr([JInt(r.value.x0), JInt(r.value.y0), JInt(r.value.x1), JInt(r.value.y1)])
  }

  function OptStrJson(s: Option<string>): Json {
    if s.None? then JNull else JStr(s.value)
  }

  /** The dictionary `to_dict` returns, from the values it puts under each key. */
  function Dict(id: string, name: Option<string>, role: string, description: Option<string>,
                roleDescription: Option<string>, value: Json, absolutePosition: string, position: string,
                size: string, enabled: bool, bbox: Option<Rect>, visibleBbox: Option<Rect>,
                children: seq<Json>): Json
  {
    JObj([(KeyId, JStr(id)),
          (KeyName, OptStrJson(name)),
          (KeyRole, JStr(role)),
          (KeyDescription, OptStrJson(description)),
          (KeyRoleDescription, OptStrJson(roleDescription)),
          (KeyValue, value),
          (KeyAbsolutePosition, JStr(absolutePosition)),
          (KeyPosition, JStr(position)),
          (KeySize, JStr(size)),
          (KeyEnabled, JBool(enabled)),
          (KeyBbox, RectJson(bbox)),
          (KeyVisibleBbox, RectJson(visibleBbox)),
          (KeyChildren, JArr(children))])
  }

  /** `to_dict`. */
  function ToDict(e: Element): Json
    decreases e, 1
  {
    Dict(e.identifier, e.name, e.role, e.description, e.roleDescription, ValueJson(e.value),
         PointText(e.absolutePosition), PointText(e.position), SizeText(e.size), e.enabled,
         e.bbox, e.visibleBbox, ChildrenToDict(e.children))
  }

  /** The `value` entry: a nested element is dumped to a JSON string, a date becomes its text. */
  function ValueJson(v: ElemValue): Json
    decreases v, 0
  {
    match v
    case NoValue => JNull
    case Plain(j) => j
    case Date(t) => JStr(t)
    case Nested(n) => JDumped(ToDict(n))
  }

  /** `children_to_dict`: one dictionary per child, in order. */
  function ChildrenToDict(cs: seq<Element>): (r: seq<Json>)
    ensures |r| == |cs|
    decreases cs, 0
  {
    if cs == [] then [] else [ToDict(cs[0])] + ChildrenToDict(cs[1..])
  }

  /** Every dictionary has exactly the thirteen keys, in the source's order. */
  lemma ToDictKeys(e: Element)
    ensures ToDict(e).JObj? && Keys(ToDict(e).fields) == DictKeys
  {
    DictKeysInOrder(e.identifier, e.name, e.role, e.description, e.roleDescription, ValueJson(e.value),
         PointText(e.absolutePosition), PointText(e.position), SizeText(e.size), e.enabled,
         e.bbox, e.visibleBbox, ChildrenToDict(e.children));
  }

  lemma DictKeysInOrder(id: string, name: Option<string>, role: string, description: Option<string>,
                        roleDescription: Option<string>, value: Json, absolutePosition: string, position: string,
                        size: string, enabled: bool, bbox: Option<Rect>, visibleBbox: Option<Rect>,
                        children: seq<Json>)
    ensures var d := Dict(id, name, role, description, roleDescription, value, absolutePosition, position,
                          size, enabled, bbox, visibleBbox, children);
            d.JObj? && Keys(d.fields) == DictKeys
  {
  }

  // ---------------------------------------------------------------------
  // What a dictionary records about an element.
  // ---------------------------------------------------------------------

  /** The value as the dictionary records it: a JSON value, or a nested element's record. */
  datatype RecValue = RPlain(j: Json) | RNested(r: Record)

  datatype Record = Record(
    id: string, name: Option<string>, role: string, description: Option<string>,
    roleDescription: Option<string>, value: RecValue, absolutePosition: Option<Point>,
    position: Option<Point>, size: Option<Size>, enabled: bool, bbox: Option<Rect>,
    visibleBbox: Option<Rect>, children: seq<Record>)

  /**
   * The fields of an element that `to_dict` exports. The handle, the center,
   * the action items, the content identifier and the depth limit are not among
   * them; a date is kept only as its text and "no value" as `null`.
   */
  function RecordOf(e: Element): Record
    decreases e, 1
  {
    var value := match e.value
      case NoValue => RPlain(JNull)
      case Plain(j) => RPlain(j)
      case Date(t) => RPlain(JStr(t))
      case Nested(n) => RNested(RecordOf(n));
    Record(e.identifier, e.name, e.role, e.description, e.roleDescription, value,
           e.absolutePosition, e.position, e.size, e.enabled, e.bbox, e.visibleBbox,
           RecordsOf(e.children))
  }

  function RecordsOf(cs: seq<Element>): (r: seq<Record>)
    ensures |r| == |cs|
    decreases cs, 0
  {
    if cs == [] then [] else [RecordOf(cs[0])] + RecordsOf(cs[1..])
  }

  /**
   * A plain value is never itself a dumped document, anywhere in the tree
   * (native values are scalars, arrays and strings), so a reader can tell a
   * nested element from a plain value.
   */
  ghost predicate PlainValuesRaw(e: Element)
    decreases e
  {
    (e.value.Plain? ==> !e.value.j.JDumped?)
    && (e.value.Nested? ==> PlainValuesRaw(e.value.elem))
    && forall c :: c in e.children ==> PlainValuesRaw(c)
  }

  // ---------------------------------------------------------------------
  // Reading a dictionary back.
  // ---------------------------------------------------------------------

  function DigitValue(c: char): nat {
    if IsDigit(c) then c as int - '0' as int else 0
  }

  /** Decimal digits to a number, most significant first. */
  function ParseNat(s: string): nat {
    if s == [] then 0 else 10 * ParseNat(s[..|s| - 1]) + DigitValue(s[|s| - 1])
  }

  function ParseInt(s: string): int {
    if s != [] && s[0] == '-' then -(ParseNat(s[1..]) as int) else ParseNat(s)
  }

  /** The text before and after the first `c`; all of `s` when there is none. */
  function SplitAt(s: string, c: char): (string, string) {
    if s == [] then ([], [])
    else if s[0] == c then ([], s[1..])
    else
      var rest := SplitAt(s[1..], c);
      ([s[0]] + rest.0, rest.1)
  }

  function DropSuffix(s: string, n: nat): string {
    if |s| >= n then s[..|s| - n] else s
  }

  function ParsePoint(t: string): Option<Point> {
    if t == [] then None
    else
      var parts := SplitAt(t, ';');
      Some(Point(ParseInt(DropSuffix(parts.0, 3)), ParseInt(DropSuffix(parts.1, 3))))
  }

  function ParseSize(t: string): Option<Size> {
    if t == [] then None
    else
      var parts := SplitAt(t, ';');
      Some(Size(ParseInt(parts.0), ParseInt(parts.1)))
  }

  function ParseRect(j: Json): Option<Option<Rect>> {
    match j
    case JNull => Some(None)
    case JArr(items) =>
      if |items| == 4 && items[0].JInt? && items[1].JInt? && items[2].JInt? && items[3].JInt? then
        Some(Some(Rect(items[0].i, items[1].i, items[2].i, items[3].i)))
      else None
    case _ => None
  }

  function ParseOptStr(j: Json): Option<Option<string>> {
    match j
    case JNull => Some(None)
    case JStr(s) => Some(Some(s))
    case _ => None
  }

  /** The entries before the value: id, name, role, description, role description. */
  datatype Header = Header(id: string, name: Option<string>, role: string, description: Option<string>,
                           roleDescription: Option<string>)

  /** The entries after the value but before the children. */
  datatype Placement = Placement(absolutePosition: Option<Point>, position: Option<Point>, size: Option<Size>,
                               enabled: bool, bbox: Option<Rect>, visibleBbox: Option<Rect>)

  function ReadHeader(fs: seq<(string, Json)>): Option<Header>
    requires |fs| == 13
  {
    var name, description, roleDescription := ParseOptStr(fs[1].1), ParseOptStr(fs[3].1), ParseOptStr(fs[4].1);
    if fs[0].1.JStr? && fs[2].1.JStr? && name.Some? && description.Some? && roleDescription.Some? then
      Some(Header(fs[0].1.s, name.value, fs[2].1.s, description.value, roleDescription.value))
    else None
  }

  function ReadPlacement(fs: seq<(string, Json)>): Option<Placement>
    requires |fs| == 13
  {
    var bbox, visibleBbox := ParseRect(fs[10].1), ParseRect(fs[11].1);
    if fs[6].1.JStr? && fs[7].1.JStr? && fs[8].1.JStr? && fs[9].1.JBool? && bbox.Some? && visibleBbox.Some? then
      Some(Placement(ParsePoint(fs[6].1.s), ParsePoint(fs[7].1.s), ParseSize(fs[8].1.s), fs[9].1.b,
                    bbox.value, visibleBbox.value))
    else None
  }

  function Assemble(h: Option<Header>, v: Option<RecValue>, g: Option<Placement>, kids: Option<seq<Record>>)
    : Option<Record>
  {
    if h.None? || v.None? || g.None? || kids.None? then None
    else Some(Record(h.value.id, h.value.name, h.value.role, h.value.description, h.value.roleDescription,
                     v.value, g.value.absolutePosition, g.value.position, g.value.size, g.value.enabled,
                     g.value.bbox, g.value.visibleBbox, kids.value))
  }

  /** Read a dictionary written by `to_dict`; `None` for anything else. */
  function Decode(j: Json): Option<Record>
    decreases j, 2
  {
    if !j.JObj? || |j.fields| != 13 || Keys(j.fields) != DictKeys || !j.fields[12].1.JArr? then None
    else Assemble(ReadHeader(j.fields), DecodeValue(j.fields[5].1), ReadPlacement(j.fields),
                  DecodeAll(j.fields[12].1.items))
  }

  /** A dumped document holds a nested element; anything else is a plain value. */
  function DecodeValue(j: Json): Option<RecValue>
    decreases j, 1
  {
    if j.JDumped? then
      var r := Decode(j.doc);
      if r.None? then None else Some(RNested(r.value))
    else Some(RPlain(j))
  }

  function DecodeAll(items: seq<Json>): Option<seq<Record>>
    decreases items, 0
  {
    if items == [] then Some([])
    else
      var head, tail := Decode(items[0]), DecodeAll(items[1..]);
      if head.None? || tail.None? then None else Some([head.value] + tail.value)
  }

  // ---------------------------------------------------------------------
  // The round trip.
  // ---------------------------------------------------------------------

  lemma {:induction false} ParseNatToString(n: nat)
    ensures ParseNat(NatToString(n)) == n
    decreases n
  {
    var s := NatToString(n);
    var d := ['0' + (n % 10) as char];
    if n < 10 {
      assert s == d;
      assert s[..0] == [];
    } else {
      ParseNatToString(n / 10);
      assert s == NatToString(n / 10) + d;
      assert s[..|s| - 1] == NatToString(n / 10);
    }
  }

  lemma ParseIntToString(n: int)
    ensures ParseInt(IntToString(n)) == n
  {
    if n < 0 {
      ParseNatToString(-n);
      assert IntToString(n)[1..] == NatToString(-n);
    } else {
      ParseNatToString(n);
    }
  }

  lemma {:induction false} SplitAtFirst(a: string, c: char, b: string)
    requires c !in a
    ensures SplitAt(a + [c] + b, c) == (a, b)
  {
    if a == [] {
      assert a + [c] + b == [c] + b;
    } else {
      assert (a + [c] + b)[1..] == a[1..] + [c] + b;
      SplitAtFirst(a[1..], c, b);
      assert [a[0]] + a[1..] == a;
    }
  }

  lemma NoSeparatorInNumber(n: int)
    ensures ';' !in IntToString(n)
    ensures ';' !in IntToString2(n)
  {
    var s := IntToString(n);
    assert forall i :: 0 <= i < |s| ==> s[i] != ';';
    assert IntToString2(n) == s + ".00";
  }

  /** The position text reads back as the point it was written from. */
  lemma PointTextRoundTrip(p: Option<Point>)
    ensures ParsePoint(PointText(p)) == p
  {
    if p.Some? {
      var a, b := IntToString2(p.value.x), IntToString2(p.value.y);
      NoSeparatorInNumber(p.value.x);
      SplitAtFirst(a, ';', b);
      assert DropSuffix(a, 3) == IntToString(p.value.x);
      assert DropSuffix(b, 3) == IntToString(p.value.y);
      ParseIntToString(p.value.x);
      ParseIntToString(p.value.y);
    }
  }

  /** The size text reads back as the size it was written from. */
  lemma SizeTextRoundTrip(s: Option<Size>)
    ensures ParseSize(SizeText(s)) == s
  {
    if s.Some? {
      NoSeparatorInNumber(s.value.width);
      SplitAtFirst(IntToString(s.value.width), ';', IntToString(s.value.height));
      ParseIntToString(s.value.width);
      ParseIntToString(s.value.height);
    }
  }

  /** Reading back a dictionary of `to_dict` gives exactly the exported fields. */
  lemma {:induction false} DecodeToDict(e: Element)
    requires PlainValuesRaw(e)
    ensures Decode(ToDict(e)) == Some(RecordOf(e))
    decreases e, 1
  {
    DecodeAllChildren(e.children);
    if e.value.Nested? {
      DecodeToDict(e.value.elem);
    }
    DecodeDict(e.identifier, e.name, e.role, e.description, e.roleDescription, ValueJson(e.value),
               PointText(e.absolutePosition), PointText(e.position), SizeText(e.size), e.enabled,
               e.bbox, e.visibleBbox, ChildrenToDict(e.children), RecordOf(e).value, RecordsOf(e.children));
    PointTextRoundTrip(e.absolutePosition);
    PointTextRoundTrip(e.position);
    SizeTextRoundTrip(e.size);
  }

  /** Reading a dictionary decodes each entry on its own. */
  lemma DecodeDict(id: string, name: Option<string>, role: string, description: Option<string>,
                   roleDescription: Option<string>, value: Json, absolutePosition: string, position: string,
                   size: string, enabled: bool, bbox: Option<Rect>, visibleBbox: Option<Rect>,
                   children: seq<Json>, v: RecValue, kids: seq<Record>)
    requires DecodeValue(value) == Some(v)
    requires DecodeAll(children) == Some(kids)
    ensures Decode(Dict(id, name, role, description, roleDescription, value, absolutePosition, position,
                        size, enabled, bbox, visibleBbox, children))
         == Some(Record(id, name, role, description, roleDescription, v, ParsePoint(absolutePosition),
                        ParsePoint(position), ParseSize(size), enabled, bbox, visibleBbox, kids))
  {
    var d := Dict(id, name, role, description, roleDescription, value, absolutePosition, position,
                  size, enabled, bbox, visibleBbox, children);
    DictKeysInOrder(id, name, role, description, roleDescription, value, absolutePosition, position,
                    size, enabled, bbox, visibleBbox, children);
    DictEntries(id, name, role, description, roleDescription, value, absolutePosition, position,
                size, enabled, bbox, visibleBbox, children);
  }

  lemma DictEntries(id: string, name: Option<string>, role: string, description: Option<string>,
                    roleDescription: Option<string>, value: Json, absolutePosition: string, position: string,
                    size: string, enabled: bool, bbox: Option<Rect>, visibleBbox: Option<Rect>,
                    children: seq<Json>)
    ensures var fs := Dict(id, name, role, description, roleDescription, value, absolutePosition, position,
                           size, enabled, bbox, visibleBbox, children).fields;
            |fs| == 13 && fs[5].1 == value && fs[12].1 == JArr(children)
            && ReadHeader(fs) == Some(Header(id, name, role, description, roleDescription))
            && ReadPlacement(fs) == Some(Placement(ParsePoint(absolutePosition), ParsePoint(position),
                                                 ParseSize(size), enabled, bbox, visibleBbox))
  {
    DictHeader(id, name, role, description, roleDescription, value, absolutePosition, position,
                           size, enabled, bbox, visibleBbox, children);
    DictPlacement(id, name, role, description, roleDescription, value, absolutePosition, position,
                           size, enabled, bbox, visibleBbox, children);
  }

  lemma DictHeader(id: string, name: Option<string>, role: string, description: Option<string>,
                    roleDescription: Option<string>, value: Json, absolutePosition: string, position: string,
                    size: string, enabled: bool, bbox: Option<Rect>, visibleBbox: Option<Rect>,
                    children: seq<Json>)
    ensures var fs := Dict(id, name, role, description, roleDescription, value, absolutePosition, position,
                           size, enabled, bbox, visibleBbox, children).fields;
            |fs| == 13 && fs[5].1 == value && fs[12].1 == JArr(children)
            && ReadHeader(fs) == Some(Header(id, name, role, description, roleDescription))
  {
  }

  lemma DictPlacement(id: string, name: Option<string>, role: string, description: Option<string>,
                    roleDescription: Option<string>, value: Json, absolutePosition: string, position: string,
                    size: string, enabled: bool, bbox: Option<Rect>, visibleBbox: Option<Rect>,
                    children: seq<Json>)
    ensures var fs := Dict(id, name, role, description, roleDescription, value, absolutePosition, position,
                           size, enabled, bbox, visibleBbox, children).fields;
            |fs| == 13 && ReadPlacement(fs) == Some(Placement(ParsePoint(absolutePosition), ParsePoint(position),
                                                 ParseSize(size), enabled, bbox, visibleBbox))
  {
  }

  lemma {:induction false} DecodeAllChildren(cs: seq<Element>)
    requires forall c :: c in cs ==> PlainValuesRaw(c)
    ensures DecodeAll(ChildrenToDict(cs)) == Some(RecordsOf(cs))
    decreases cs, 0
  {
    if cs != [] {
      DecodeToDict(cs[0]);
      DecodeAllChildren(cs[1..]);
    }
  }

  /** A date and the plain string of its text are written out alike. */
  lemma DateLooksLikeString(e: Element, t: string)
    ensures ToDict(e.(value := Date(t))) == ToDict(e.(value := Plain(JStr(t))))
  {
  }

  /** "No value" and a plain `null` are written out alike. */
  lemma NoValueLooksLikeNull(e: Element)
    ensures ToDict(e.(value := NoValue)) == ToDict(e.(value := Plain(JNull)))
  {
  }
}
