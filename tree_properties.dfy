/**
 * What the construction in `TreeBuilder` guarantees: invariants that hold at
 * every node of a built tree (hashes, child order, visibility clipping,
 * `max_depth`), and the per-node facts of `__init__` (role default,
 * window-relative position, missing geometry, center, wrapper flattening).
 */
module TreeProperties {
  import opened Wrappers
  import opened Geometry
  import opened Accessibility
  import opened Elements
  import opened Hashing
  import opened ChildOrder
  import opened TreeBuilder

  // -----------------------------------------------------------------------
  // Tree-wide invariants
  // -----------------------------------------------------------------------

  /** A visible rectangle lies inside its parent's, whenever both exist. */
  predicate NestedIn(child: Option<Rect>, parent: Option<Rect>) {
    parent.Some? && child.Some? ==> Contained(child.value, parent.value)
  }

  /**
   * At every node the children all have a position, are non-increasing in
   * `(y, x)`, and are visible only inside the node's visible rectangle.
   */
  ghost predicate WellPlaced(e: Element)
    decreases e
  {
    && Descending(e.children)
    && forall c :: c in e.children ==> c.position.Some? && NestedIn(c.visibleBbox, e.visibleBbox) && WellPlaced(c)
  }

  /** No path of children below `e` is longer than `d` (none at all when `d <= 0`). */
  ghost predicate DepthAtMost(e: Element, d: int)
    decreases e
  {
    (d <= 0 ==> e.children == []) && forall c :: c in e.children ==> DepthAtMost(c, d - 1)
  }

  /** The shape facts of an element built under a parent with rectangle `parentVisible`. */
  ghost predicate Shaped(e: Element, parentVisible: Option<Rect>, maxDepth: Option<int>) {
    WellPlaced(e) && NestedIn(e.visibleBbox, parentVisible) && (maxDepth.Some? ==> DepthAtMost(e, maxDepth.value))
  }

  /** `Shaped` for every element of a list built under the same parent. */
  ghost predicate AllShaped(es: seq<Element>, visible: Option<Rect>, depth: Option<int>) {
    forall c :: c in es ==> Shaped(c, visible, depth)
  }

  /**
   * At every node the identifier digests the node's own geometry, enabled
   * flag and role, and the content identifier is computed from the children
   * (`calculate_hashes` ran bottom-up).
   */
  ghost predicate Hashed(md5: Md5, e: Element)
    decreases e
  {
    && e.identifier == ComponentHash(md5, e.position, e.size, e.enabled, e.role)
    && e.contentIdentifier == ContentIdentifierOf(md5, e.children)
    && forall c :: c in e.children ==> Hashed(md5, c)
  }

  ghost predicate AllHashed(md5: Md5, es: seq<Element>) {
    forall c :: c in es ==> Hashed(md5, c)
  }

  // --- shape: one lemma per function of the construction, by mutual induction ---

  /** Every element `UIElement(...)` builds is well placed, clipped to its parent, and within `max_depth`. */
  lemma {:induction false} BuildShape(p: Provider, h: Option<Handle>, ox: int, oy: int, maxDepth: Option<int>,
                                      parentVisible: Option<Rect>, md5: Md5, fuel: nat, r: Result<Element, BuildError>)
    requires r == Build(p, h, ox, oy, maxDepth, parentVisible, md5, fuel)
    ensures r.Success? ==> Shaped(r.value, parentVisible, maxDepth)
    decreases fuel, 1
  {
    if fuel > 0 {
      NodeShape(p, h, ox, oy, maxDepth, parentVisible, md5, fuel - 1, r);
    }
  }

  lemma {:induction false} NodeShape(p: Provider, h: Option<Handle>, ox: int, oy: int, maxDepth: Option<int>,
                                     parentVisible: Option<Rect>, md5: Md5, fuel: nat, r: Result<Element, BuildError>)
    requires r == Node(p, h, ox, oy, maxDepth, parentVisible, md5, fuel)
    ensures r.Success? ==> Shaped(r.value, parentVisible, maxDepth)
    decreases fuel, 7
  {
    var a := Lookup(p, h);
    var role := a.role.GetOr("No role");
    if !(role == "AXWindow" && a.position.None?) {
      var offsets := Offsets(a, role, ox, oy);
      var position := if a.position.Some? then Some(Relative(a.position.value, offsets.0, offsets.1)) else None;
      var bboxes := SetBboxes(position, a.size, parentVisible);
      var base := Element(h, role, NameOf(a), a.enabled.GetOr(false), Some(""), Some(""), NoValue,
                          a.position, position, a.size, None, bboxes.0, bboxes.1, None, [], "", "", maxDepth);
      assert NestedIn(base.visibleBbox, parentVisible);
      if position.Some? && a.size.Some? {
        CompleteShape(p, h, a, base, position.value, a.size.value, offsets.0, offsets.1, maxDepth, md5, fuel, r);
      }
    }
  }

  lemma {:induction false} CompleteShape(p: Provider, h: Option<Handle>, a: NativeAttrs, base: Element,
                                         pos: Point, size: Size, offX: int, offY: int, maxDepth: Option<int>,
                                         md5: Md5, fuel: nat, r: Result<Element, BuildError>)
    requires r == Complete(p, h, a, base, pos, size, offX, offY, maxDepth, md5, fuel)
    ensures r.Success? ==>
      WellPlaced(r.value) && r.value.visibleBbox == base.visibleBbox
      && (maxDepth.Some? ==> DepthAtMost(r.value, maxDepth.value))
    decreases fuel, 6
  {
    if r.Success? {
      var e := r.value;
      if DepthLeft(maxDepth) {
        var kids := ChildrenAndActions(p, h, base.role, pos, size, base.visibleBbox, offX, offY, maxDepth, md5, fuel);
        ChildrenAndActionsShape(p, h, base.role, pos, size, base.visibleBbox, offX, offY, maxDepth, md5, fuel, kids);
        assert e.children == kids.value.0 && e.visibleBbox == base.visibleBbox;
      } else {
        assert e.children == [] && e.visibleBbox == base.visibleBbox;
      }
      ShapedNode(e, maxDepth);
    }
  }

  /** The shape facts of a node follow from those of its children. */
  lemma ShapedNode(e: Element, maxDepth: Option<int>)
    requires AllShaped(e.children, e.visibleBbox, DecDepth(maxDepth))
    requires Descending(e.children)
    requires forall c :: c in e.children ==> c.position.Some?
    requires !DepthLeft(maxDepth) ==> e.children == []
    ensures WellPlaced(e) && (maxDepth.Some? ==> DepthAtMost(e, maxDepth.value))
  {
    PlacedNode(e, DecDepth(maxDepth));
    if maxDepth.Some? {
      DepthNode(e, maxDepth.value);
    }
  }

  lemma PlacedNode(e: Element, depth: Option<int>)
    requires AllShaped(e.children, e.visibleBbox, depth)
    requires Descending(e.children)
    requires forall c :: c in e.children ==> c.position.Some?
    ensures WellPlaced(e)
  {
    forall c | c in e.children
      ensures c.position.Some? && NestedIn(c.visibleBbox, e.visibleBbox) && WellPlaced(c)
    {
      assert Shaped(c, e.visibleBbox, depth);
    }
  }

  lemma DepthNode(e: Element, d: int)
    requires AllShaped(e.children, e.visibleBbox, Some(d - 1))
    requires d <= 0 ==> e.children == []
    ensures DepthAtMost(e, d)
  {
    forall c | c in e.children
      ensures DepthAtMost(c, d - 1)
    {
      assert Shaped(c, e.visibleBbox, Some(d - 1));
    }
  }

  lemma {:induction false} ChildrenAndActionsShape(p: Provider, h: Option<Handle>, role: string, start: Point,
                                                   size: Size, visible: Option<Rect>, ox: int, oy: int,
                                                   maxDepth: Option<int>, md5: Md5, fuel: nat,
                                                   r: Result<(seq<Element>, seq<string>), BuildError>)
    requires r == ChildrenAndActions(p, h, role, start, size, visible, ox, oy, maxDepth, md5, fuel)
    ensures r.Success? ==>
      AllShaped(r.value.0, visible, DecDepth(maxDepth)) && Descending(r.value.0)
      && forall c :: c in r.value.0 ==> c.position.Some?
    decreases fuel, 5
  {
    var a := Lookup(p, h);
    var built :=
      if a.children.Some? && |a.children.value| > 0
      then ChildrenOf(p, ChildSource(p, h, role, start, size), ox, oy, maxDepth, visible, md5, fuel)
      else Success([]);
    if a.children.Some? && |a.children.value| > 0 {
      ChildrenOfShape(p, ChildSource(p, h, role, start, size), ox, oy, maxDepth, visible, md5, fuel, built);
    }
    if built.Success? {
      OrderChildrenSpec(built.value);
      OrderChildrenMembers(built.value);
    }
  }

  lemma {:induction false} ChildrenOfShape(p: Provider, h: Option<Handle>, ox: int, oy: int,
                                           maxDepth: Option<int>, visible: Option<Rect>, md5: Md5, fuel: nat,
                                           r: Result<seq<Element>, BuildError>)
    requires r == ChildrenOf(p, h, ox, oy, maxDepth, visible, md5, fuel)
    ensures r.Success? ==> AllShaped(r.value, visible, DecDepth(maxDepth))
    decreases fuel, 4
  {
    if DepthLeft(maxDepth) {
      BuildAllShape(p, FoundChildren(Lookup(p, h)), ox, oy, DecDepth(maxDepth), visible, md5, fuel, r);
    }
  }

  lemma {:induction false} BuildAllShape(p: Provider, hs: seq<Handle>, ox: int, oy: int,
                                         maxDepth: Option<int>, visible: Option<Rect>, md5: Md5, fuel: nat,
                                         r: Result<seq<Element>, BuildError>)
    requires r == BuildAll(p, hs, ox, oy, maxDepth, visible, md5, fuel)
    ensures r.Success? ==> AllShaped(r.value, visible, maxDepth)
    decreases fuel, 3, |hs|
  {
    if hs != [] && r.Success? {
      var prefix := BuildAll(p, hs[..|hs| - 1], ox, oy, maxDepth, visible, md5, fuel);
      var last := Build(p, Some(hs[|hs| - 1]), ox, oy, maxDepth, visible, md5, fuel);
      BuildAllShape(p, hs[..|hs| - 1], ox, oy, maxDepth, visible, md5, fuel, prefix);
      BuildShape(p, Some(hs[|hs| - 1]), ox, oy, maxDepth, visible, md5, fuel, last);
      assert r.value == prefix.value + [last.value];
    }
  }

  // --- hashes: the same induction for `Hashed` ---

  /** Every element `UIElement(...)` builds carries the hashes `calculate_hashes` computes, at every node. */
  lemma {:induction false} BuildHashed(p: Provider, h: Option<Handle>, ox: int, oy: int, maxDepth: Option<int>,
                                       parentVisible: Option<Rect>, md5: Md5, fuel: nat, r: Result<Element, BuildError>)
    requires r == Build(p, h, ox, oy, maxDepth, parentVisible, md5, fuel)
    ensures r.Success? ==> Hashed(md5, r.value)
    decreases fuel, 1
  {
    if fuel > 0 {
      NodeHashed(p, h, ox, oy, maxDepth, parentVisible, md5, fuel - 1, r);
    } else {
      assert r.Failure?;
    }
  }

  lemma {:induction false} NodeHashed(p: Provider, h: Option<Handle>, ox: int, oy: int, maxDepth: Option<int>,
                                      parentVisible: Option<Rect>, md5: Md5, fuel: nat, r: Result<Element, BuildError>)
    requires r == Node(p, h, ox, oy, maxDepth, parentVisible, md5, fuel)
    ensures r.Success? ==> Hashed(md5, r.value)
    decreases fuel, 7
  {
    var a := Lookup(p, h);
    var role := a.role.GetOr("No role");
    if !(role == "AXWindow" && a.position.None?) {
      var offsets := Offsets(a, role, ox, oy);
      var position := if a.position.Some? then Some(Relative(a.position.value, offsets.0, offsets.1)) else None;
      var bboxes := SetBboxes(position, a.size, parentVisible);
      var base := Element(h, role, NameOf(a), a.enabled.GetOr(false), Some(""), Some(""), NoValue,
                          a.position, position, a.size, None, bboxes.0, bboxes.1, None, [], "", "", maxDepth);
      if position.Some? && a.size.Some? {
        CompleteHashed(p, h, a, base, position.value, a.size.value, offsets.0, offsets.1, maxDepth, md5, fuel, r);
      }
    }
  }

  lemma {:induction false} CompleteHashed(p: Provider, h: Option<Handle>, a: NativeAttrs, base: Element,
                                          pos: Point, size: Size, offX: int, offY: int, maxDepth: Option<int>,
                                          md5: Md5, fuel: nat, r: Result<Element, BuildError>)
    requires r == Complete(p, h, a, base, pos, size, offX, offY, maxDepth, md5, fuel)
    ensures r.Success? ==> Hashed(md5, r.value)
    decreases fuel, 6
  {
    if r.Success? && DepthLeft(maxDepth) {
      var kids := ChildrenAndActions(p, h, base.role, pos, size, base.visibleBbox, offX, offY, maxDepth, md5, fuel);
      ChildrenAndActionsHashed(p, h, base.role, pos, size, base.visibleBbox, offX, offY, maxDepth, md5, fuel, kids);
      assert r.value.children == kids.value.0;
    }
  }

  lemma {:induction false} ChildrenAndActionsHashed(p: Provider, h: Option<Handle>, role: string, start: Point,
                                                    size: Size, visible: Option<Rect>, ox: int, oy: int,
                                                    maxDepth: Option<int>, md5: Md5, fuel: nat,
                                                    r: Result<(seq<Element>, seq<string>), BuildError>)
    requires r == ChildrenAndActions(p, h, role, start, size, visible, ox, oy, maxDepth, md5, fuel)
    ensures r.Success? ==> AllHashed(md5, r.value.0)
    decreases fuel, 5
  {
    var a := Lookup(p, h);
    var built :=
      if a.children.Some? && |a.children.value| > 0
      then ChildrenOf(p, ChildSource(p, h, role, start, size), ox, oy, maxDepth, visible, md5, fuel)
      else Success([]);
    if a.children.Some? && |a.children.value| > 0 {
      ChildrenOfHashed(p, ChildSource(p, h, role, start, size), ox, oy, maxDepth, visible, md5, fuel, built);
    }
    if built.Success? {
      OrderChildrenMembers(built.value);
    }
  }

  lemma {:induction false} ChildrenOfHashed(p: Provider, h: Option<Handle>, ox: int, oy: int,
                                            maxDepth: Option<int>, visible: Option<Rect>, md5: Md5, fuel: nat,
                                            r: Result<seq<Element>, BuildError>)
    requires r == ChildrenOf(p, h, ox, oy, maxDepth, visible, md5, fuel)
    ensures r.Success? ==> AllHashed(md5, r.value)
    decreases fuel, 4
  {
    if DepthLeft(maxDepth) {
      BuildAllHashed(p, FoundChildren(Lookup(p, h)), ox, oy, DecDepth(maxDepth), visible, md5, fuel, r);
    }
  }

  lemma {:induction false} BuildAllHashed(p: Provider, hs: seq<Handle>, ox: int, oy: int,
                                          maxDepth: Option<int>, visible: Option<Rect>, md5: Md5, fuel: nat,
                                          r: Result<seq<Element>, BuildError>)
    requires r == BuildAll(p, hs, ox, oy, maxDepth, visible, md5, fuel)
    ensures r.Success? ==> AllHashed(md5, r.value)
    decreases fuel, 3, |hs|
  {
    if hs != [] && r.Success? {
      var prefix := BuildAll(p, hs[..|hs| - 1], ox, oy, maxDepth, visible, md5, fuel);
      var last := Build(p, Some(hs[|hs| - 1]), ox, oy, maxDepth, visible, md5, fuel);
      BuildAllHashed(p, hs[..|hs| - 1], ox, oy, maxDepth, visible, md5, fuel, prefix);
      BuildHashed(p, Some(hs[|hs| - 1]), ox, oy, maxDepth, visible, md5, fuel, last);
      assert r.value == prefix.value + [last.value];
    }
  }
}
