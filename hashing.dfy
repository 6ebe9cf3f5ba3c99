/**
 * The two identity strings of an element: the structural `identifier`
 * (geometry, enabled flag, role) and the `content_identifier` aggregated
 * from the children. md5 is a parameter: any function whose outputs are
 * 32-character lowercase hex digests.
 */
module Hashing {
  import opened Wrappers
  import opened Strings
  import opened Geometry
  import opened Elements

  predicate IsHexDigest(d: string) {
    |d| == 32 && forall i :: 0 <= i < |d| ==> d[i] in "0123456789abcdef"
  }

  /** `hashlib.md5(s.encode()).hexdigest()`, left abstract. */
  type Md5 = string -> string

  /** What every md5 hex digest is: 32 lowercase hex characters. */
  ghost predicate IsMd5(md5: Md5) {
    forall s :: IsHexDigest(md5(s))
  }

  /** `hash_from_string`: the empty string and None hash to the empty string. */
  function HashFromString(md5: Md5, s: Option<string>): string {
    if s.None? || s.value == "" then "" else md5(s.value)
  }

  lemma HashFromStringSpec(md5: Md5, s: Option<string>)
    requires IsMd5(md5)
    ensures HashFromString(md5, s) == "" <==> (s.None? || s.value == "")
    ensures HashFromString(md5, s) != "" ==> IsHexDigest(HashFromString(md5, s))
  {
  }

  /** The text `component_hash` digests: `"{x};{y}" + "{w};{h}" + str(enabled) + role`. */
  function StructureString(p: Point, s: Size, enabled: bool, role: string): string {
    IntToString(p.x) + ";" + IntToString(p.y) + IntToString(s.width) + ";" + IntToString(s.height)
      + BoolToString(enabled) + role
  }

  /** `component_hash`: a digest of the structure string, or "" when position or size is missing. */
  function ComponentHash(md5: Md5, position: Option<Point>, size: Option<Size>, enabled: bool, role: string)
    : string
  {
    if position.None? || size.None? then ""
    else HashFromString(md5, Some(StructureString(position.value, size.value, enabled, role)))
  }

  /** The identifier is "" exactly when the geometry is incomplete; otherwise it digests the structure string. */
  lemma ComponentHashSpec(md5: Md5, position: Option<Point>, size: Option<Size>, enabled: bool, role: string)
    requires IsMd5(md5)
    ensures var r := ComponentHash(md5, position, size, enabled, role);
      (r == "" <==> (position.None? || size.None?))
      && (r != "" ==> IsHexDigest(r) && r == md5(StructureString(position.value, size.value, enabled, role)))
  {
    if position.Some? && size.Some? {
      var text := StructureString(position.value, size.value, enabled, role);
      assert IntToString(position.value.x) != [];
      assert |text| > 0;
    }
  }

  /** `str(value)` of the source, left abstract for `ContentHash`. */
  type ValueString = ElemValue -> string

  /**
   * `content_hash`: a digest of description, role description, name and
   * `str(value)`, absent fields read as "". The construction never calls it.
   */
  function ContentHash(md5: Md5, show: ValueString, e: Element): string {
    var value := if e.value.NoValue? then "" else show(e.value);
    HashFromString(md5, Some(e.description.GetOr("") + e.roleDescription.GetOr("") + e.name.GetOr("") + value))
  }

  /** The content digest is "" exactly when all four texts are empty. */
  lemma ContentHashSpec(md5: Md5, show: ValueString, e: Element)
    requires IsMd5(md5)
    ensures ContentHash(md5, show, e) == "" <==>
      (e.description.GetOr("") == "" && e.roleDescription.GetOr("") == "" && e.name.GetOr("") == ""
       && (e.value.NoValue? || show(e.value) == ""))
  {
  }

  /**
   * `children_content_hash`: "" for no children; otherwise the digest of
   * `content_hash.join(structure_hash)` where `content_hash` digests the
   * SORTED child content identifiers and `structure_hash` digests the child
   * identifiers in tree order.
   */
  function ContentIdentifierOf(md5: Md5, children: seq<Element>): string {
    if |children| == 0 then ""
    else
      var contentHash := HashFromString(md5, Some(Concat(SortStrings(ContentIdentifiers(children)))));
      var structureHash := HashFromString(md5, Some(Concat(Identifiers(children))));
      HashFromString(md5, Some(JoinChars(contentHash, structureHash)))
  }

  /**
   * The content identifier is "" exactly when every child identifier is ""
   * (the structure digest is then "", and so is the join); otherwise it is a digest.
   */
  lemma ContentIdentifierSpec(md5: Md5, children: seq<Element>)
    requires IsMd5(md5)
    ensures var r := ContentIdentifierOf(md5, children);
      (r == "" <==> forall i :: 0 <= i < |children| ==> children[i].identifier == "")
      && (r != "" ==> IsHexDigest(r))
  {
    if |children| > 0 {
      var contentHash := HashFromString(md5, Some(Concat(SortStrings(ContentIdentifiers(children)))));
      var structureHash := HashFromString(md5, Some(Concat(Identifiers(children))));
      StructureHashEmpty(md5, children);
      HashFromStringSpec(md5, Some(JoinChars(contentHash, structureHash)));
    }
  }

  /** The digest of the concatenated identifiers is "" exactly when every identifier is "". */
  lemma StructureHashEmpty(md5: Md5, children: seq<Element>)
    requires IsMd5(md5)
    ensures HashFromString(md5, Some(Concat(Identifiers(children)))) == "" <==>
      forall i :: 0 <= i < |children| ==> children[i].identifier == ""
  {
    var ids := Identifiers(children);
    HashFromStringSpec(md5, Some(Concat(ids)));
    assert (forall i :: 0 <= i < |ids| ==> ids[i] == []) <==>
           (forall i :: 0 <= i < |children| ==> children[i].identifier == "");
  }

  /** `calculate_hashes`: recompute the element's own two identity strings, nothing else. */
  function WithHashes(md5: Md5, e: Element): Element {
    e.(identifier := ComponentHash(md5, e.position, e.size, e.enabled, e.role),
       contentIdentifier := ContentIdentifierOf(md5, e.children))
  }

  /** Hashing changes the identifier and the content identifier and no other field. */
  lemma WithHashesSpec(md5: Md5, e: Element)
    ensures WithHashes(md5, e).identifier == ComponentHash(md5, e.position, e.size, e.enabled, e.role)
    ensures WithHashes(md5, e).contentIdentifier == ContentIdentifierOf(md5, e.children)
    ensures WithHashes(md5, e).(identifier := e.identifier, contentIdentifier := e.contentIdentifier) == e
  {
  }

  /** The imperative `children_content_hash`: two lists built in a loop, one sorted in place. */
  method ChildrenContentHash(md5: Md5, children: seq<Element>) returns (r: string)
    ensures r == ContentIdentifierOf(md5, children)
  {
    if |children| == 0 {
      return "";
    }
    var allContentHashes: seq<string> := [];
    var allHashes: seq<string> := [];
    var i := 0;
    while i < |children|
      invariant 0 <= i <= |children|
      invariant |allContentHashes| == i && |allHashes| == i
      invariant forall j :: 0 <= j < i ==> allContentHashes[j] == children[j].contentIdentifier
      invariant forall j :: 0 <= j < i ==> allHashes[j] == children[j].identifier
    {
      allContentHashes := allContentHashes + [children[i].contentIdentifier];
      allHashes := allHashes + [children[i].identifier];
      i := i + 1;
    }
    assert allContentHashes == ContentIdentifiers(children);
    assert allHashes == Identifiers(children);
    allContentHashes := SortStrings(allContentHashes);
    var contentHash := HashFromString(md5, Some(Concat(allContentHashes)));
    var contentStructureHash := HashFromString(md5, Some(Concat(allHashes)));
    r := HashFromString(md5, Some(JoinChars(contentHash, contentStructureHash)));
  }

  /** A leaf has the empty content identifier. */
  lemma LeafContentIdentifier(md5: Md5)
    ensures ContentIdentifierOf(md5, []) == ""
  {
  }

  /**
   * The content identifier is invariant under any reordering of the
   * children's content identifiers, as long as the identifiers keep their order.
   */
  lemma ContentIdentifierPermutationInvariant(md5: Md5, a: seq<Element>, b: seq<Element>)
    requires multiset(ContentIdentifiers(a)) == multiset(ContentIdentifiers(b))
    requires Identifiers(a) == Identifiers(b)
    ensures ContentIdentifierOf(md5, a) == ContentIdentifierOf(md5, b)
  {
    SortStringsPermutationInvariant(ContentIdentifiers(a), ContentIdentifiers(b));
  }

  /**
   * When every child's content identifier is "", the join has an empty
   * separator and the content identifier is the digest of the structure digest.
   */
  lemma {:induction false} EmptyContentJoin(md5: Md5, children: seq<Element>)
    requires IsMd5(md5)
    requires |children| > 0
    requires forall i :: 0 <= i < |children| ==> children[i].contentIdentifier == ""
    requires exists i :: 0 <= i < |children| && children[i].identifier != ""
    ensures ContentIdentifierOf(md5, children) == md5(md5(Concat(Identifiers(children))))
  {
    var cids := SortStrings(ContentIdentifiers(children));
    EmptyContentConcat(children);
    var ids := Concat(Identifiers(children));
    var i :| 0 <= i < |children| && children[i].identifier != "";
    assert Identifiers(children)[i] != "";
    var structureHash := md5(ids);
    assert HashFromString(md5, Some(ids)) == structureHash;
    JoinEmptySeparator(structureHash);
  }

  /** Sorting content identifiers that are all "" and concatenating them gives "". */
  lemma EmptyContentConcat(children: seq<Element>)
    requires forall i :: 0 <= i < |children| ==> children[i].contentIdentifier == ""
    ensures Concat(SortStrings(ContentIdentifiers(children))) == ""
  {
    var cs := ContentIdentifiers(children);
    SortStringsSpec(cs);
    AllEmptyPermutation(cs, SortStrings(cs));
  }

  lemma AllEmptyPermutation(a: seq<string>, b: seq<string>)
    requires multiset(a) == multiset(b)
    requires forall i :: 0 <= i < |a| ==> a[i] == ""
    ensures forall k :: 0 <= k < |b| ==> b[k] == ""
  {
    forall k | 0 <= k < |b| ensures b[k] == "" {
      assert b[k] in multiset(a);
    }
  }

  lemma {:induction false} JoinEmptySeparator(s: string)
    ensures JoinChars("", s) == s
  {
    if |s| > 1 {
      JoinEmptySeparator(s[1..]);
      assert s == [s[0]] + s[1..];
    }
  }
}
