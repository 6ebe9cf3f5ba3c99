/**
 * What `UIElement.__init__` leaves in each field of one element, and the
 * properties of `find_root_element`.
 */
module NodeFacts {
  import opened Wrappers
  import opened Geometry
  import opened Accessibility
  import opened Elements
  import opened Hashing
  import opened ChildOrder
  import opened TreeBuilder

  /** The fields `__init__` sets before the early return, as the provider answers them. */
  predicate Attributes(e: Element, p: Provider, h: Option<Handle>, ox: int, oy: int,
                       maxDepth: Option<int>, parentVisible: Option<Rect>)
  {
    var a := Lookup(p, h);
    && e.handle == h
    && e.role == a.role.GetOr("No role")
    && e.name == NameOf(a)
    && e.enabled == a.enabled.GetOr(false)
    && e.absolutePosition == a.position
    && e.size == a.size
    && e.maxDepth == maxDepth
    && (e.position.Some? <==> a.position.Some?)
    && (a.position.Some? && e.role == "AXWindow" ==>
          e.position == Some(Point(Min(a.position.value.x, 0), Min(a.position.value.y, 0))))
    && (a.position.Some? && e.role != "AXWindow" ==> e.position == Some(Relative(a.position.value, ox, oy)))
    && (e.bbox, e.visibleBbox) == SetBboxes(e.position, e.size, parentVisible)
  }

  /** The remainder of the construction never touches the fields set before it. */
  lemma CompleteKeeps(p: Provider, h: Option<Handle>, a: NativeAttrs, base: Element, pos: Point, size: Size,
                      offX: int, offY: int, maxDepth: Option<int>, md5: Md5, fuel: nat, r: Result<Element, BuildError>)
    requires r == Complete(p, h, a, base, pos, size, offX, offY, maxDepth, md5, fuel)
    ensures r.Success? ==>
      && r.value.handle == base.handle && r.value.role == base.role && r.value.name == base.name
      && r.value.enabled == base.enabled && r.value.absolutePosition == base.absolutePosition
      && r.value.position == base.position && r.value.size == base.size && r.value.bbox == base.bbox
      && r.value.visibleBbox == base.visibleBbox && r.value.maxDepth == base.maxDepth
  {
  }

  /**
   * Role defaults to "No role", the name has its spaces replaced, enabled
   * defaults to false; the absolute position is the raw one; a window's
   * position is its own, less its non-negative part; any other position is
   * made relative to the non-negative offsets; the rectangles are `_set_bboxes`'.
   */
  lemma {:induction false} BuildAttributes(p: Provider, h: Option<Handle>, ox: int, oy: int, maxDepth: Option<int>,
                                           parentVisible: Option<Rect>, md5: Md5, fuel: nat,
                                           r: Result<Element, BuildError>)
    requires r == Build(p, h, ox, oy, maxDepth, parentVisible, md5, fuel)
    ensures r.Success? ==> Attributes(r.value, p, h, ox, oy, maxDepth, parentVisible)
  {
    if fuel > 0 {
      var a := Lookup(p, h);
      var role := a.role.GetOr("No role");
      if !(role == "AXWindow" && a.position.None?) {
        var offsets := Offsets(a, role, ox, oy);
        var position := if a.position.Some? then Some(Relative(a.position.value, offsets.0, offsets.1)) else None;
        var bboxes := SetBboxes(position, a.size, parentVisible);
        var base := Element(h, role, NameOf(a), a.enabled.GetOr(false), Some(""), Some(""), NoValue,
                            a.position, position, a.size, None, bboxes.0, bboxes.1, None, [], "", "", maxDepth);
        assert Attributes(base, p, h, ox, oy, maxDepth, parentVisible);
        if position.Some? && a.size.Some? {
          CompleteKeeps(p, h, a, base, position.value, a.size.value, offsets.0, offsets.1, maxDepth, md5, fuel - 1, r);
        }
      }
    }
  }

  /** The element `__init__` has built at the early return (`Node`'s `base`). */
  function BaseOf(p: Provider, h: Option<Handle>, ox: int, oy: int, maxDepth: Option<int>,
                  parentVisible: Option<Rect>): Element
    requires !(Lookup(p, h).role.GetOr("No role") == "AXWindow" && Lookup(p, h).position.None?)
  {
    var a := Lookup(p, h);
    var role := a.role.GetOr("No role");
    var offsets := Offsets(a, role, ox, oy);
    var position := if a.position.Some? then Some(Relative(a.position.value, offsets.0, offsets.1)) else None;
    var bboxes := SetBboxes(position, a.size, parentVisible);
    Element(h, role, NameOf(a), a.enabled.GetOr(false), Some(""), Some(""), NoValue,
            a.position, position, a.size, None, bboxes.0, bboxes.1, None, [], "", "", maxDepth)
  }

  /**
   * The three ways `__init__` ends: the recursion limit, the window without
   * a position, the early return for missing geometry (value, description,
   * center, actions, children and hashes all left at their initial values),
   * and the full construction.
   */
  lemma BuildOutcomes(p: Provider, h: Option<Handle>, ox: int, oy: int, maxDepth: Option<int>,
                      parentVisible: Option<Rect>, md5: Md5, fuel: nat, r: Result<Element, BuildError>)
    requires r == Build(p, h, ox, oy, maxDepth, parentVisible, md5, fuel)
    ensures fuel == 0 ==> r == Failure(RecursionLimit)
    ensures var a := Lookup(p, h);
      fuel > 0 && a.role == Some("AXWindow") && a.position.None? ==> r == Failure(NoWindowPosition)
    ensures var a := Lookup(p, h);
      fuel > 0 && !(a.role == Some("AXWindow") && a.position.None?) && (a.position.None? || a.size.None?) ==>
        && r == Success(BaseOf(p, h, ox, oy, maxDepth, parentVisible))
        && r.value.children == [] && r.value.identifier == "" && r.value.contentIdentifier == ""
        && r.value.value == NoValue && r.value.description == Some("") && r.value.roleDescription == Some("")
        && r.value.doubledCenter.None? && r.value.actionItems.None?
        && r.value.bbox.None? && r.value.visibleBbox.None?
    ensures var a := Lookup(p, h);
      fuel > 0 && a.position.Some? && a.size.Some? ==>
        var base := BaseOf(p, h, ox, oy, maxDepth, parentVisible);
        var offsets := Offsets(a, base.role, ox, oy);
        r == Complete(p, h, a, base, base.position.value, a.size.value, offsets.0, offsets.1, maxDepth, md5, fuel - 1)
  {
  }

  /** The full construction reads description and role description from the provider and sets the center. */
  lemma CompleteCenter(p: Provider, h: Option<Handle>, a: NativeAttrs, base: Element, pos: Point, size: Size,
                       offX: int, offY: int, maxDepth: Option<int>, md5: Md5, fuel: nat, r: Result<Element, BuildError>)
    requires r == Complete(p, h, a, base, pos, size, offX, offY, maxDepth, md5, fuel)
    ensures r.Success? ==>
      && r.value.description == a.description && r.value.roleDescription == a.roleDescription
      && r.value.doubledCenter == Some(CenterPoint(pos, size, offX, offY))
  {
  }

  /** The actions are the provider's, or none at all when the depth is used up, which also leaves no children. */
  lemma CompleteActions(p: Provider, h: Option<Handle>, a: NativeAttrs, base: Element, pos: Point, size: Size,
                        offX: int, offY: int, maxDepth: Option<int>, md5: Md5, fuel: nat, r: Result<Element, BuildError>)
    requires r == Complete(p, h, a, base, pos, size, offX, offY, maxDepth, md5, fuel)
    ensures r.Success? ==>
      && r.value.actionItems == Some(if DepthLeft(maxDepth) then ActionsOf(Lookup(p, h)) else [])
      && (!DepthLeft(maxDepth) ==> r.value.children == [] && r.value.contentIdentifier == "")
  {
  }

  /** The hashes are those `calculate_hashes` computes from the finished fields. */
  lemma CompleteHashes(p: Provider, h: Option<Handle>, a: NativeAttrs, base: Element, pos: Point, size: Size,
                       offX: int, offY: int, maxDepth: Option<int>, md5: Md5, fuel: nat, r: Result<Element, BuildError>)
    requires r == Complete(p, h, a, base, pos, size, offX, offY, maxDepth, md5, fuel)
    ensures r.Success? ==>
      && r.value.identifier == ComponentHash(md5, base.position, base.size, base.enabled, base.role)
      && r.value.contentIdentifier == ContentIdentifierOf(md5, r.value.children)
  {
  }

  /**
   * `self.center` is the absolute center whenever the offsets it adds back
   * are the ones subtracted: non-negative offsets, or a window at
   * non-negative coordinates. A negative offset is added without having been
   * subtracted, so the center moves by it.
   */
  lemma BuildCenter(p: Provider, h: Option<Handle>, ox: int, oy: int, maxDepth: Option<int>,
                    parentVisible: Option<Rect>, md5: Md5, fuel: nat, r: Result<Element, BuildError>)
    requires r == Build(p, h, ox, oy, maxDepth, parentVisible, md5, fuel)
    ensures r.Success? ==> CenterFacts(Lookup(p, h), ox, oy, r.value.doubledCenter)
  {
    BuildCenterEquation(p, h, ox, oy, maxDepth, parentVisible, md5, fuel, r);
    var a := Lookup(p, h);
    if a.position.Some? && a.size.Some? {
      CenterArithmetic(a, ox, oy);
    }
  }

  lemma {:induction false} BuildCenterEquation(p: Provider, h: Option<Handle>, ox: int, oy: int, maxDepth: Option<int>,
                                               parentVisible: Option<Rect>, md5: Md5, fuel: nat,
                                               r: Result<Element, BuildError>)
    requires r == Build(p, h, ox, oy, maxDepth, parentVisible, md5, fuel)
    ensures r.Success? && Lookup(p, h).position.Some? && Lookup(p, h).size.Some? ==>
      r.value.doubledCenter ==
        Some(DoubledCenterOf(Lookup(p, h).role.GetOr("No role"), Lookup(p, h).position.value, Lookup(p, h).size.value, ox, oy))
  {
    if fuel > 0 {
      NodeCenter(p, h, ox, oy, maxDepth, parentVisible, md5, fuel - 1, r);
    }
  }

  lemma NodeCenter(p: Provider, h: Option<Handle>, ox: int, oy: int, maxDepth: Option<int>,
                   parentVisible: Option<Rect>, md5: Md5, fuel: nat, r: Result<Element, BuildError>)
    requires r == Node(p, h, ox, oy, maxDepth, parentVisible, md5, fuel)
    ensures r.Success? && Lookup(p, h).position.Some? && Lookup(p, h).size.Some? ==>
      r.value.doubledCenter ==
        Some(DoubledCenterOf(Lookup(p, h).role.GetOr("No role"), Lookup(p, h).position.value, Lookup(p, h).size.value, ox, oy))
  {
    var a := Lookup(p, h);
    var role := a.role.GetOr("No role");
    if a.position.Some? && a.size.Some? {
      var offsets := Offsets(a, role, ox, oy);
      var position := Some(Relative(a.position.value, offsets.0, offsets.1));
      var bboxes := SetBboxes(position, a.size, parentVisible);
      var base := Element(h, role, NameOf(a), a.enabled.GetOr(false), Some(""), Some(""), NoValue,
                          a.position, position, a.size, None, bboxes.0, bboxes.1, None, [], "", "", maxDepth);
      CompleteCenterAt(p, h, a, base, ox, oy, maxDepth, md5, fuel, r);
    }
  }

  lemma CompleteCenterAt(p: Provider, h: Option<Handle>, a: NativeAttrs, base: Element, ox: int, oy: int,
                         maxDepth: Option<int>, md5: Md5, fuel: nat, r: Result<Element, BuildError>)
    requires a.position.Some? && a.size.Some?
    requires r == Complete(p, h, a, base,
                           Relative(a.position.value, Offsets(a, a.role.GetOr("No role"), ox, oy).0,
                                    Offsets(a, a.role.GetOr("No role"), ox, oy).1),
                           a.size.value, Offsets(a, a.role.GetOr("No role"), ox, oy).0,
                           Offsets(a, a.role.GetOr("No role"), ox, oy).1, maxDepth, md5, fuel)
    ensures r.Success? ==>
      r.value.doubledCenter == Some(DoubledCenterOf(a.role.GetOr("No role"), a.position.value, a.size.value, ox, oy))
  {
    var offsets := Offsets(a, a.role.GetOr("No role"), ox, oy);
    CompleteCenter(p, h, a, base, Relative(a.position.value, offsets.0, offsets.1), a.size.value,
                   offsets.0, offsets.1, maxDepth, md5, fuel, r);
    assert offsets == (if a.role.GetOr("No role") == "AXWindow" then a.position.value.x else ox,
                       if a.role.GetOr("No role") == "AXWindow" then a.position.value.y else oy);
  }

  /** Twice the center `__init__` computes from the raw position and size and the offsets it was given. */
  function DoubledCenterOf(role: string, q: Point, s: Size, ox: int, oy: int): Point {
    var offX := if role == "AXWindow" then q.x else ox;
    var offY := if role == "AXWindow" then q.y else oy;
    CenterPoint(Relative(q, offX, offY), s, offX, offY)
  }

  /** How twice the center relates to the raw position and size (nothing is set without them). */
  predicate CenterFacts(a: NativeAttrs, ox: int, oy: int, center: Option<Point>) {
    a.position.Some? && a.size.Some? ==>
      var q := a.position.value;
      var s := a.size.value;
      var isWindow := a.role == Some("AXWindow");
      && center.Some?
      && ((!isWindow && ox >= 0 && oy >= 0) || (isWindow && q.x >= 0 && q.y >= 0) ==>
            center == Some(Point(2 * q.x + s.width, 2 * q.y + s.height)))
      && (!isWindow && ox < 0 ==> center.value.x == 2 * (q.x + ox) + s.width)
      && (!isWindow && oy < 0 ==> center.value.y == 2 * (q.y + oy) + s.height)
  }

  lemma CenterArithmetic(a: NativeAttrs, ox: int, oy: int)
    requires a.position.Some? && a.size.Some?
    ensures CenterFacts(a, ox, oy, Some(DoubledCenterOf(a.role.GetOr("No role"), a.position.value, a.size.value, ox, oy)))
  {
  }

  /**
   * With the depth used up (`max_depth <= 0`) an element with geometry has no
   * children, an empty action list and the empty content identifier; otherwise
   * its actions are the provider's.
   */
  lemma {:induction false} BuildDepth(p: Provider, h: Option<Handle>, ox: int, oy: int, maxDepth: Option<int>,
                                      parentVisible: Option<Rect>, md5: Md5, fuel: nat, r: Result<Element, BuildError>)
    requires r == Build(p, h, ox, oy, maxDepth, parentVisible, md5, fuel)
    ensures r.Success? ==> DepthFacts(Lookup(p, h), maxDepth, r.value)
  {
    if fuel > 0 {
      NodeDepth(p, h, ox, oy, maxDepth, parentVisible, md5, fuel - 1, r);
    }
  }

  lemma NodeDepth(p: Provider, h: Option<Handle>, ox: int, oy: int, maxDepth: Option<int>,
                  parentVisible: Option<Rect>, md5: Md5, fuel: nat, r: Result<Element, BuildError>)
    requires r == Node(p, h, ox, oy, maxDepth, parentVisible, md5, fuel)
    ensures r.Success? ==> DepthFacts(Lookup(p, h), maxDepth, r.value)
  {
    var a := Lookup(p, h);
    var role := a.role.GetOr("No role");
    if a.position.Some? && a.size.Some? {
      var offsets := Offsets(a, role, ox, oy);
      var position := Some(Relative(a.position.value, offsets.0, offsets.1));
      var bboxes := SetBboxes(position, a.size, parentVisible);
      var base := Element(h, role, NameOf(a), a.enabled.GetOr(false), Some(""), Some(""), NoValue,
                          a.position, position, a.size, None, bboxes.0, bboxes.1, None, [], "", "", maxDepth);
      CompleteActions(p, h, a, base, position.value, a.size.value, offsets.0, offsets.1, maxDepth, md5, fuel, r);
    }
  }

  /** Children and actions as `max_depth` allows them, for an element with position and size. */
  predicate DepthFacts(a: NativeAttrs, maxDepth: Option<int>, e: Element) {
    a.position.Some? && a.size.Some? ==>
      && (!DepthLeft(maxDepth) ==> e.children == [] && e.actionItems == Some([]) && e.contentIdentifier == "")
      && (DepthLeft(maxDepth) ==> e.actionItems == Some(ActionsOf(a)))
  }

  // --- where the children come from ---

  /** `c` was built from one of the AXChildren of `source` (never from AXVisibleChildren). */
  predicate NativeChildOf(p: Provider, source: Option<Handle>, c: Element) {
    var a := Lookup(p, source);
    a.children.Some? && c.handle.Some? && c.handle.value in a.children.value
  }

  /** The i-th element built for a list of handles is the element of the i-th handle. */
  lemma {:induction false} BuildAllAttributes(p: Provider, hs: seq<Handle>, ox: int, oy: int,
                                              maxDepth: Option<int>, visible: Option<Rect>, md5: Md5, fuel: nat,
                                              r: Result<seq<Element>, BuildError>)
    requires r == BuildAll(p, hs, ox, oy, maxDepth, visible, md5, fuel)
    ensures r.Success? ==>
      |r.value| == |hs| && forall i :: 0 <= i < |hs| ==> Attributes(r.value[i], p, Some(hs[i]), ox, oy, maxDepth, visible)
    decreases |hs|
  {
    if hs != [] && r.Success? {
      var prefix := BuildAll(p, hs[..|hs| - 1], ox, oy, maxDepth, visible, md5, fuel);
      var last := Build(p, Some(hs[|hs| - 1]), ox, oy, maxDepth, visible, md5, fuel);
      BuildAllAttributes(p, hs[..|hs| - 1], ox, oy, maxDepth, visible, md5, fuel, prefix);
      BuildAttributes(p, Some(hs[|hs| - 1]), ox, oy, maxDepth, visible, md5, fuel, last);
      assert r.value == prefix.value + [last.value];
    }
  }

  /** The children facts of `_get_children_and_actions`. */
  ghost predicate ChildrenFrom(p: Provider, source: Option<Handle>, es: seq<Element>, ox: int, oy: int,
                               maxDepth: Option<int>, visible: Option<Rect>)
  {
    forall c :: c in es ==> NativeChildOf(p, source, c) && Attributes(c, p, c.handle, ox, oy, maxDepth, visible)
  }

  /**
   * Every child is built from an AXChildren handle of the element itself, or,
   * for a pass-through AXGroup wrapper, of its one child; the children are
   * built with the element's offsets, one less depth and its visible rectangle.
   */
  lemma ChildrenProvenance(p: Provider, h: Option<Handle>, role: string, start: Point, size: Size,
                           visible: Option<Rect>, ox: int, oy: int, maxDepth: Option<int>, md5: Md5, fuel: nat,
                           r: Result<(seq<Element>, seq<string>), BuildError>)
    requires r == ChildrenAndActions(p, h, role, start, size, visible, ox, oy, maxDepth, md5, fuel)
    ensures r.Success? ==>
      ChildrenFrom(p, ChildSource(p, h, role, start, size), r.value.0, ox, oy, DecDepth(maxDepth), visible)
  {
    var a := Lookup(p, h);
    var source := ChildSource(p, h, role, start, size);
    if a.children.Some? && |a.children.value| > 0 {
      var built := ChildrenOf(p, source, ox, oy, maxDepth, visible, md5, fuel);
      if built.Success? && DepthLeft(maxDepth) {
        var hs := FoundChildren(Lookup(p, source));
        assert Lookup(p, source).children.Some?;
        BuildAllAttributes(p, hs, ox, oy, DecDepth(maxDepth), visible, md5, fuel, built);
        OrderChildrenMembers(built.value);
        forall c | c in OrderChildren(built.value)
          ensures NativeChildOf(p, source, c) && Attributes(c, p, c.handle, ox, oy, DecDepth(maxDepth), visible)
        {
          var i :| 0 <= i < |built.value| && built.value[i] == c;
          assert Attributes(c, p, Some(hs[i]), ox, oy, DecDepth(maxDepth), visible);
        }
      }
    }
  }

  lemma CompleteChildren(p: Provider, h: Option<Handle>, a: NativeAttrs, base: Element, pos: Point, size: Size,
                         offX: int, offY: int, maxDepth: Option<int>, md5: Md5, fuel: nat,
                         r: Result<Element, BuildError>)
    requires r == Complete(p, h, a, base, pos, size, offX, offY, maxDepth, md5, fuel)
    ensures r.Success? ==>
      ChildrenFrom(p, ChildSource(p, h, base.role, pos, size), r.value.children, offX, offY, DecDepth(maxDepth),
                   base.visibleBbox)
  {
    if r.Success? && DepthLeft(maxDepth) {
      var kids := ChildrenAndActions(p, h, base.role, pos, size, base.visibleBbox, offX, offY, maxDepth, md5, fuel);
      ChildrenProvenance(p, h, base.role, pos, size, base.visibleBbox, offX, offY, maxDepth, md5, fuel, kids);
      assert r.value.children == kids.value.0;
    }
  }

  /**
   * The children of a built element come from its own AXChildren, or from its
   * only child's when it is a pass-through AXGroup wrapper (compared at the
   * window-relative position), and are clipped to its visible rectangle.
   */
  ghost predicate ChildrenFacts(p: Provider, h: Option<Handle>, ox: int, oy: int, maxDepth: Option<int>,
                                parentVisible: Option<Rect>, e: Element)
  {
    var a := Lookup(p, h);
    var role := a.role.GetOr("No role");
    a.position.Some? && a.size.Some? ==>
    var offsets := Offsets(a, role, ox, oy);
    var position := Relative(a.position.value, offsets.0, offsets.1);
    ChildrenFrom(p, ChildSource(p, h, role, position, a.size.value), e.children, offsets.0, offsets.1,
                 DecDepth(maxDepth), SetBboxes(Some(position), a.size, parentVisible).1)
  }

  lemma BuildChildren(p: Provider, h: Option<Handle>, ox: int, oy: int, maxDepth: Option<int>,
                      parentVisible: Option<Rect>, md5: Md5, fuel: nat, r: Result<Element, BuildError>)
    requires r == Build(p, h, ox, oy, maxDepth, parentVisible, md5, fuel)
    ensures r.Success? ==> ChildrenFacts(p, h, ox, oy, maxDepth, parentVisible, r.value)
  {
    if fuel > 0 {
      NodeChildren(p, h, ox, oy, maxDepth, parentVisible, md5, fuel - 1, r);
    }
  }

  lemma NodeChildren(p: Provider, h: Option<Handle>, ox: int, oy: int, maxDepth: Option<int>,
                     parentVisible: Option<Rect>, md5: Md5, fuel: nat, r: Result<Element, BuildError>)
    requires r == Node(p, h, ox, oy, maxDepth, parentVisible, md5, fuel)
    ensures r.Success? ==> ChildrenFacts(p, h, ox, oy, maxDepth, parentVisible, r.value)
  {
    var a := Lookup(p, h);
    var role := a.role.GetOr("No role");
    if a.position.Some? && a.size.Some? {
      var offsets := Offsets(a, role, ox, oy);
      var position := Some(Relative(a.position.value, offsets.0, offsets.1));
      var bboxes := SetBboxes(position, a.size, parentVisible);
      var base := Element(h, role, NameOf(a), a.enabled.GetOr(false), Some(""), Some(""), NoValue,
                          a.position, position, a.size, None, bboxes.0, bboxes.1, None, [], "", "", maxDepth);
      CompleteChildren(p, h, a, base, position.value, a.size.value, offsets.0, offsets.1, maxDepth, md5, fuel, r);
    }
  }

  /**
   * Children of an element that is clipped out entirely (no visible
   * rectangle) are not clipped at all: `_set_bboxes` treats a missing parent
   * rectangle as no parent.
   */
  lemma HiddenParentQuirk(p: Provider, h: Option<Handle>, ox: int, oy: int, maxDepth: Option<int>,
                          parentVisible: Option<Rect>, md5: Md5, fuel: nat, r: Result<Element, BuildError>)
    requires r == Build(p, h, ox, oy, maxDepth, parentVisible, md5, fuel)
    requires Lookup(p, h).position.Some? && Lookup(p, h).size.Some?
    requires r.Success? && r.value.visibleBbox.None?
    ensures forall c :: c in r.value.children ==> c.visibleBbox == c.bbox
    ensures forall c :: c in r.value.children && c.position.Some? && c.size.Some? ==>
      c.visibleBbox == Some(BBox(c.position.value, c.size.value))
  {
    BuildChildren(p, h, ox, oy, maxDepth, parentVisible, md5, fuel, r);
    BuildAttributes(p, h, ox, oy, maxDepth, parentVisible, md5, fuel, r);
  }

  /**
   * The wrapper test compares the child's raw position with the group's own
   * position after it was made window-relative (`self.position` is the same
   * object as `start_position`): with a positive offset a child at exactly
   * the group's place is not flattened, while with non-positive offsets the
   * comparison is between raw positions.
   */
  lemma WrapperComparedRelative(p: Provider, h: Option<Handle>, q: Point, size: Size, ox: int, oy: int)
    requires Lookup(p, h).children.Some? && |Lookup(p, h).children.value| == 1
    requires Lookup(p, Some(Lookup(p, h).children.value[0])).position == Some(q)
    ensures ox > 0 ==> !IsPassThroughWrapper(p, h, "AXGroup", Relative(q, ox, oy), size)
    ensures oy > 0 ==> !IsPassThroughWrapper(p, h, "AXGroup", Relative(q, ox, oy), size)
    ensures ox <= 0 && oy <= 0 ==>
      (IsPassThroughWrapper(p, h, "AXGroup", Relative(q, ox, oy), size) <==>
        var c := Lookup(p, Some(Lookup(p, h).children.value[0]));
        c.size == Some(size) && c.children.Some? && |c.children.value| > 0)
  {
  }

  /** `is_button` of a built element: its AXRole is AXButton (a missing role reads "No role"). */
  lemma BuildIsButton(p: Provider, h: Option<Handle>, ox: int, oy: int, maxDepth: Option<int>,
                      parentVisible: Option<Rect>, md5: Md5, fuel: nat, r: Result<Element, BuildError>)
    requires r == Build(p, h, ox, oy, maxDepth, parentVisible, md5, fuel)
    requires r.Success?
    ensures IsButton(r.value) <==> Lookup(p, h).role == Some("AXButton")
  {
    BuildAttributes(p, h, ox, oy, maxDepth, parentVisible, md5, fuel, r);
  }

  // --- find_root_element ---

  /** The handle reached after `k` parent links, or None once the chain ends. */
  function Ancestor(p: Provider, h: Handle, k: nat): Option<Handle>
    decreases k
  {
    if k == 0 then Some(h)
    else match Lookup(p, Some(h)).parent
      case None => None
      case Some(q) => Ancestor(p, q, k - 1)
  }

  /** The first `k` handles of the parent chain exist and none is an AXWindow or AXHostingView. */
  ghost predicate PlainPrefix(p: Provider, h: Handle, k: nat) {
    forall j :: 0 <= j < k ==> Ancestor(p, h, j).Some? && !IsRootLike(Lookup(p, Ancestor(p, h, j)))
  }

  lemma {:induction false} PlainPrefixStep(p: Provider, h: Handle, q: Handle, k: nat)
    requires Lookup(p, Some(h)).parent == Some(q) && !IsRootLike(Lookup(p, Some(h)))
    requires PlainPrefix(p, q, k)
    ensures PlainPrefix(p, h, k + 1)
  {
    forall j | 0 <= j < k + 1
      ensures Ancestor(p, h, j).Some? && !IsRootLike(Lookup(p, Ancestor(p, h, j)))
    {
      if j > 0 {
        assert Ancestor(p, h, j) == Ancestor(p, q, j - 1);
      }
    }
  }

  /**
   * `find_root_element` returns the first AXWindow or AXHostingView on the
   * chain of parents starting at the element itself; None when the chain
   * ends before one.
   */
  lemma {:induction false} FindRootFirst(p: Provider, h: Handle, fuel: nat, r: Result<Option<Handle>, BuildError>)
    requires r == FindRootElement(p, h, fuel)
    ensures r.Success? && r.value.Some? ==>
      exists k :: 0 <= k < fuel && Ancestor(p, h, k) == r.value && PlainPrefix(p, h, k)
    ensures r.Success? && r.value.None? ==>
      exists k :: 0 < k <= fuel && Ancestor(p, h, k).None? && PlainPrefix(p, h, k)
    decreases fuel
  {
    if fuel > 0 {
      var a := Lookup(p, Some(h));
      if IsRootLike(a) {
        assert Ancestor(p, h, 0) == r.value && PlainPrefix(p, h, 0);
      } else if a.parent.Some? {
        var q := a.parent.value;
        FindRootFirst(p, q, fuel - 1, r);
        if r.Success? && r.value.Some? {
          var k :| 0 <= k < fuel - 1 && Ancestor(p, q, k) == r.value && PlainPrefix(p, q, k);
          PlainPrefixStep(p, h, q, k);
          assert Ancestor(p, h, k + 1) == r.value;
        } else if r.Success? {
          var k :| 0 < k <= fuel - 1 && Ancestor(p, q, k).None? && PlainPrefix(p, q, k);
          PlainPrefixStep(p, h, q, k);
          assert Ancestor(p, h, k + 1).None?;
        }
      } else {
        assert Ancestor(p, h, 1).None? && PlainPrefix(p, h, 1);
      }
    }
  }

  /** Enough fuel finds the first AXWindow or AXHostingView of the parent chain. */
  lemma {:induction false} FindRootReaches(p: Provider, h: Handle, k: nat, fuel: nat)
    requires k < fuel
    requires Ancestor(p, h, k).Some? && IsRootLike(Lookup(p, Ancestor(p, h, k)))
    requires PlainPrefix(p, h, k)
    ensures FindRootElement(p, h, fuel) == Success(Ancestor(p, h, k))
    decreases k
  {
    if k > 0 {
      assert Ancestor(p, h, 0).Some? && !IsRootLike(Lookup(p, Ancestor(p, h, 0)));
      var q := Lookup(p, Some(h)).parent.value;
      forall j | 0 <= j < k - 1
        ensures Ancestor(p, q, j).Some? && !IsRootLike(Lookup(p, Ancestor(p, q, j)))
      {
        assert Ancestor(p, h, j + 1) == Ancestor(p, q, j);
      }
      FindRootReaches(p, q, k - 1, fuel - 1);
    }
  }

  /** More fuel never changes a result that was reached. */
  lemma {:induction false} FindRootMonotone(p: Provider, h: Handle, fuel: nat, more: nat)
    requires fuel <= more
    requires FindRootElement(p, h, fuel).Success?
    ensures FindRootElement(p, h, more) == FindRootElement(p, h, fuel)
    decreases fuel
  {
    var a := Lookup(p, Some(h));
    if !IsRootLike(a) && a.parent.Some? {
      FindRootMonotone(p, a.parent.value, fuel - 1, more - 1);
    }
  }

  /** An element that is its own parent and neither root role exhausts the recursion, whatever the limit. */
  lemma {:induction false} FindRootSelfParent(p: Provider, h: Handle, fuel: nat)
    requires Lookup(p, Some(h)).parent == Some(h) && !IsRootLike(Lookup(p, Some(h)))
    ensures FindRootElement(p, h, fuel) == Failure(RecursionLimit)
    decreases fuel
  {
    if fuel > 0 {
      FindRootSelfParent(p, h, fuel - 1);
    }
  }
}
