/**
 * Tree construction (`UIElement.__init__`, `_get_children_and_actions`,
 * `children`, `find_root_element`) over an attribute provider.
 *
 * The functions are the specification; the methods follow the source's
 * step-by-step code and are proved equal to them. `fuel` bounds the depth
 * of recursion: running out stands for Python's RecursionError, which the
 * source would raise on a deep or cyclic native graph.
 */
module TreeBuilder {
  import opened Wrappers
  import opened Strings
  import opened Geometry
  import opened Json
  import opened Accessibility
  import opened Elements
  import opened Hashing
  import opened ChildOrder

  datatype BuildError =
    | RecursionLimit     // the recursion ran out of fuel
    | NoWindowPosition   // `start_position.x` on an AXWindow without a position

  /** `max_depth is None or max_depth > 0`. */
  predicate DepthLeft(maxDepth: Option<int>) {
    maxDepth.None? || maxDepth.value > 0
  }

  /** `max_depth - 1 if max_depth is not None else None`. */
  function DecDepth(maxDepth: Option<int>): (r: Option<int>)
    ensures r.None? <==> maxDepth.None?
    ensures r.Some? ==> r.value == maxDepth.value - 1
  {
    if maxDepth.None? then None else Some(maxDepth.value - 1)
  }

  /** The title with every space replaced by `_`, or None. */
  function NameOf(a: NativeAttrs): Option<string> {
    if a.title.Some? then Some(ReplaceChar(a.title.value, ' ', '_')) else None
  }

  /** `position.x -= max(0, offset_x)`, `position.y -= max(0, offset_y)`. */
  function Relative(p: Point, ox: int, oy: int): (r: Point)
    ensures ox >= 0 ==> r.x == p.x - ox
    ensures ox < 0 ==> r.x == p.x
    ensures oy >= 0 ==> r.y == p.y - oy
    ensures oy < 0 ==> r.y == p.y
  {
    Point(p.x - Max(0, ox), p.y - Max(0, oy))
  }

  /** Twice `(position.x + offset_x + width / 2, position.y + offset_y + height / 2)`. */
  function CenterPoint(pos: Point, size: Size, offX: int, offY: int): Point {
    Point(2 * (pos.x + offX) + size.width, 2 * (pos.y + offY) + size.height)
  }

  /** The offsets after the AXWindow reset (the window's own absolute position). */
  function Offsets(a: NativeAttrs, role: string, ox: int, oy: int): (int, int)
    requires role == "AXWindow" ==> a.position.Some?
  {
    if role == "AXWindow" then (a.position.value.x, a.position.value.y) else (ox, oy)
  }

  /**
   * The wrapper-flattening trigger: an AXGroup with exactly one native child
   * whose raw position equals `start` (the group's own position, already made
   * window-relative) and whose size equals `size`, and that child has
   * children of its own.
   */
  predicate IsPassThroughWrapper(p: Provider, h: Option<Handle>, role: string, start: Point, size: Size) {
    var kids := Lookup(p, h).children;
    role == "AXGroup" && kids.Some? && |kids.value| == 1
    && var c := Lookup(p, Some(kids.value[0]));
       c.position == Some(start) && c.size == Some(size) && c.children.Some? && |c.children.value| > 0
  }

  /** Whose native children become this element's children. */
  function ChildSource(p: Provider, h: Option<Handle>, role: string, start: Point, size: Size)
    : (r: Option<Handle>)
    ensures IsPassThroughWrapper(p, h, role, start, size) ==> r == Some(Lookup(p, h).children.value[0])
    ensures !IsPassThroughWrapper(p, h, role, start, size) ==> r == h
  {
    if IsPassThroughWrapper(p, h, role, start, size) then Some(Lookup(p, h).children.value[0]) else h
  }

  /** The actions, or [] when the call failed or returned none. */
  function ActionsOf(a: NativeAttrs): (r: seq<string>)
    ensures r == [] || (a.actions == Some(r))
  {
    if a.actions.Some? && |a.actions.value| > 0 then a.actions.value else []
  }

  /** The native child handles `children()` iterates: AXChildren, else AXVisibleChildren, else none. */
  function FoundChildren(a: NativeAttrs): seq<Handle> {
    if a.children.Some? then a.children.value
    else if a.visibleChildren.Some? then a.visibleChildren.value
    else []
  }

  /**
   * `UIElement(element, offset_x, offset_y, max_depth, parents_visible_bbox)`;
   * no fuel left stands for the interpreter's recursion limit.
   */
  function Build(p: Provider, h: Option<Handle>, ox: int, oy: int, maxDepth: Option<int>,
                 parentVisible: Option<Rect>, md5: Md5, fuel: nat): Result<Element, BuildError>
    decreases fuel, 1
  {
    if fuel == 0 then Failure(RecursionLimit)
    else Node(p, h, ox, oy, maxDepth, parentVisible, md5, fuel - 1)
  }

  /** The body of `__init__`: attributes, offsets, position, rectangles, then `Complete`. */
  function Node(p: Provider, h: Option<Handle>, ox: int, oy: int, maxDepth: Option<int>,
                parentVisible: Option<Rect>, md5: Md5, fuel: nat): Result<Element, BuildError>
    decreases fuel, 7
  {
    var a := Lookup(p, h);
    var role := a.role.GetOr("No role");
    if role == "AXWindow" && a.position.None? then Failure(NoWindowPosition)
    else
      var offsets := Offsets(a, role, ox, oy);
      var position := if a.position.Some? then Some(Relative(a.position.value, offsets.0, offsets.1)) else None;
      var bboxes := SetBboxes(position, a.size, parentVisible);
      var base := Element(h, role, NameOf(a), a.enabled.GetOr(false), Some(""), Some(""), NoValue,
                          a.position, position, a.size, None, bboxes.0, bboxes.1, None, [], "", "", maxDepth);
      if position.None? || a.size.None? then Success(base)
      else Complete(p, h, a, base, position.value, a.size.value, offsets.0, offsets.1, maxDepth, md5, fuel)
  }

  /** The rest of `__init__` once position and size are known: value, children, actions, hashes. */
  function Complete(p: Provider, h: Option<Handle>, a: NativeAttrs, base: Element, pos: Point, size: Size,
                    offX: int, offY: int, maxDepth: Option<int>, md5: Md5, fuel: nat): Result<Element, BuildError>
    decreases fuel, 6
  {
    var value := BuildValue(p, a.value, offX, offY, md5, fuel);
    if value.Failure? then Failure(value.error)
    else
      var kids := if DepthLeft(maxDepth)
                  then ChildrenAndActions(p, h, base.role, pos, size, base.visibleBbox, offX, offY, maxDepth, md5, fuel)
                  else Success(([], []));
      if kids.Failure? then Failure(kids.error)
      else
        Success(WithHashes(md5, base.(
          description := a.description,
          roleDescription := a.roleDescription,
          value := value.value,
          doubledCenter := Some(CenterPoint(pos, size, offX, offY)),
          actionItems := Some(kids.value.1),
          children := kids.value.0)))
  }

  /** `self.value`: a nested element is built with unbounded depth and no parent rectangle. */
  function BuildValue(p: Provider, v: Option<NativeValue>, ox: int, oy: int, md5: Md5, fuel: nat)
    : Result<ElemValue, BuildError>
    decreases fuel, 2
  {
    match v
    case None => Success(NoValue)
    case Some(NPlain(j)) => Success(Plain(j))
    case Some(NDate(t)) => Success(Date(t))
    case Some(NElement(nh)) =>
      match Build(p, Some(nh), ox, oy, None, None, md5, fuel)
      case Failure(err) => Failure(err)
      case Success(e) => Success(Nested(e))
  }

  /** `_get_children_and_actions`: the ordered children and the action names. */
  function ChildrenAndActions(p: Provider, h: Option<Handle>, role: string, start: Point, size: Size,
                              visible: Option<Rect>, ox: int, oy: int, maxDepth: Option<int>,
                              md5: Md5, fuel: nat): Result<(seq<Element>, seq<string>), BuildError>
    decreases fuel, 5
  {
    var a := Lookup(p, h);
    var built :=
      if a.children.Some? && |a.children.value| > 0
      then ChildrenOf(p, ChildSource(p, h, role, start, size), ox, oy, maxDepth, visible, md5, fuel)
      else Success([]);
    match built
    case Failure(err) => Failure(err)
    case Success(es) => Success((OrderChildren(es), ActionsOf(a)))
  }

  /** `UIElement.children(element, ...)`: one element per native child, depth decremented. */
  function ChildrenOf(p: Provider, h: Option<Handle>, ox: int, oy: int, maxDepth: Option<int>,
                      visible: Option<Rect>, md5: Md5, fuel: nat): Result<seq<Element>, BuildError>
    decreases fuel, 4
  {
    if DepthLeft(maxDepth)
    then BuildAll(p, FoundChildren(Lookup(p, h)), ox, oy, DecDepth(maxDepth), visible, md5, fuel)
    else Success([])
  }

  /** Build every handle in order; the first failure is the result. */
  function BuildAll(p: Provider, hs: seq<Handle>, ox: int, oy: int, maxDepth: Option<int>,
                    visible: Option<Rect>, md5: Md5, fuel: nat): Result<seq<Element>, BuildError>
    decreases fuel, 3, |hs|
  {
    if hs == [] then Success([])
    else
      match BuildAll(p, hs[..|hs| - 1], ox, oy, maxDepth, visible, md5, fuel)
      case Failure(err) => Failure(err)
      case Success(es) =>
        match Build(p, Some(hs[|hs| - 1]), ox, oy, maxDepth, visible, md5, fuel)
        case Failure(err) => Failure(err)
        case Success(e) => Success(es + [e])
  }

  /** Once a prefix of the handles fails, so does the whole list, with the same error. */
  lemma {:induction false} BuildAllPrefixFailure(p: Provider, hs: seq<Handle>, k: nat, ox: int, oy: int,
                                                 maxDepth: Option<int>, visible: Option<Rect>, md5: Md5, fuel: nat)
    requires k <= |hs|
    requires BuildAll(p, hs[..k], ox, oy, maxDepth, visible, md5, fuel).Failure?
    ensures BuildAll(p, hs, ox, oy, maxDepth, visible, md5, fuel)
         == BuildAll(p, hs[..k], ox, oy, maxDepth, visible, md5, fuel)
    decreases |hs|
  {
    if k < |hs| {
      var n := |hs| - 1;
      assert hs[..n][..k] == hs[..k];
      BuildAllPrefixFailure(p, hs[..n], k, ox, oy, maxDepth, visible, md5, fuel);
    } else {
      assert hs[..k] == hs;
    }
  }

  // -----------------------------------------------------------------------
  // The source's imperative code, proved equal to the functions above.
  // -----------------------------------------------------------------------

  /** `UIElement.__init__`, field by field, with `self.position` aliasing `start_position`. */
  method NewElement(p: Provider, h: Option<Handle>, offsetX: int, offsetY: int, maxDepth: Option<int>,
                    parentsVisibleBbox: Option<Rect>, md5: Md5, fuel: nat)
    returns (r: Result<Element, BuildError>)
    ensures r == Build(p, h, offsetX, offsetY, maxDepth, parentsVisibleBbox, md5, fuel)
    decreases fuel, 1
  {
    if fuel == 0 {
      return Failure(RecursionLimit);
    }
    var a := Lookup(p, h);
    var role := a.role.GetOr("No role");
    var name := NameOf(a);
    var enabled := a.enabled.GetOr(false);
    var startPosition := a.position;
    var offX, offY := offsetX, offsetY;
    if role == "AXWindow" {
      if startPosition.None? {
        return Failure(NoWindowPosition);
      }
      offX, offY := startPosition.value.x, startPosition.value.y;
    }
    var absolutePosition := startPosition;
    if startPosition.Some? {
      // `self.position` is the very object `start_position` names
      startPosition := Some(Relative(startPosition.value, offX, offY));
    }
    var position := startPosition;
    var size := a.size;
    var bboxes := SetBboxes(position, size, parentsVisibleBbox);
    var e := Element(h, role, name, enabled, Some(""), Some(""), NoValue,
                     absolutePosition, position, size, None, bboxes.0, bboxes.1, None, [], "", "", maxDepth);
    if startPosition.None? || size.None? {
      return Success(e);
    }
    r := CompleteElement(p, h, a, e, offX, offY, md5, fuel - 1);
  }

  /**
   * The part of `__init__` that runs once position and size are known:
   * the center, the value, children and actions, and `calculate_hashes`.
   */
  method CompleteElement(p: Provider, h: Option<Handle>, a: NativeAttrs, e: Element,
                         offX: int, offY: int, md5: Md5, fuel: nat)
    returns (r: Result<Element, BuildError>)
    requires e.position.Some? && e.size.Some?
    ensures r == Complete(p, h, a, e, e.position.value, e.size.value, offX, offY, e.maxDepth, md5, fuel)
    decreases fuel, 6
  {
    var position, size := e.position.value, e.size.value;
    var center := CenterPoint(position, size, offX, offY);
    var value := SetValue(p, a.value, offX, offY, md5, fuel);
    if value.Failure? {
      return Failure(value.error);
    }
    var kids: Result<(seq<Element>, seq<string>), BuildError> := Success(([], []));
    if DepthLeft(e.maxDepth) {
      kids := GetChildrenAndActions(p, h, e.role, position, size, e.visibleBbox, offX, offY, e.maxDepth, md5, fuel);
    }
    if kids.Failure? {
      return Failure(kids.error);
    }
    var children, actionItems := kids.value.0, kids.value.1;
    var done := e.(description := a.description, roleDescription := a.roleDescription, value := value.value,
                   doubledCenter := Some(center), actionItems := Some(actionItems), children := children);
    // calculate_hashes; `ChildrenContentHash` is its loop, proved equal to `ContentIdentifierOf`
    r := Success(WithHashes(md5, done));
  }

  /** The "set value" step of `__init__`: arrays are copied item by item, elements built. */
  method SetValue(p: Provider, attributeValue: Option<NativeValue>, offsetX: int, offsetY: int, md5: Md5, fuel: nat)
    returns (r: Result<ElemValue, BuildError>)
    ensures r == BuildValue(p, attributeValue, offsetX, offsetY, md5, fuel)
    decreases fuel, 2
  {
    if attributeValue.None? {
      return Success(NoValue);
    }
    match attributeValue.value
    case NPlain(j) => r := Success(Plain(j));
    case NDate(t) => r := Success(Date(t));
    case NElement(nh) =>
      var nested := NewElement(p, Some(nh), offsetX, offsetY, None, None, md5, fuel);
      if nested.Failure? {
        return Failure(nested.error);
      }
      r := Success(Nested(nested.value));
  }

  /** `_get_children_and_actions`. */
  method GetChildrenAndActions(p: Provider, h: Option<Handle>, role: string, startPosition: Point, size: Size,
                               visibleBbox: Option<Rect>, offsetX: int, offsetY: int, maxDepth: Option<int>,
                               md5: Md5, fuel: nat)
    returns (r: Result<(seq<Element>, seq<string>), BuildError>)
    ensures r == ChildrenAndActions(p, h, role, startPosition, size, visibleBbox, offsetX, offsetY, maxDepth, md5, fuel)
    decreases fuel, 5
  {
    var actionItems: seq<string> := [];
    var childrenAll: seq<Element> := [];
    var a := Lookup(p, h);
    var children := a.children;
    if a.actions.Some? && |a.actions.value| > 0 {
      actionItems := a.actions.value;
    }
    if children.Some? && |children.value| > 0 {
      // a pass-through AXGroup wrapper hands over its one child's children
      var source := h;
      if IsPassThroughWrapper(p, h, role, startPosition, size) {
        source := Some(children.value[0]);
      }
      var found := Children(p, source, offsetX, offsetY, maxDepth, visibleBbox, md5, fuel);
      if found.Failure? {
        return Failure(found.error);
      }
      childrenAll := found.value;
    }
    childrenAll := WithPosition(childrenAll);
    childrenAll := SortByKey(childrenAll);
    childrenAll := Reverse(childrenAll);
    r := Success((childrenAll, actionItems));
  }

  /** The class method `children`: a loop building one element per native child. */
  method Children(p: Provider, h: Option<Handle>, offsetX: int, offsetY: int, maxDepth: Option<int>,
                  visibleBbox: Option<Rect>, md5: Md5, fuel: nat)
    returns (r: Result<seq<Element>, BuildError>)
    ensures r == ChildrenOf(p, h, offsetX, offsetY, maxDepth, visibleBbox, md5, fuel)
    decreases fuel, 4
  {
    var a := Lookup(p, h);
    var foundChildren := FoundChildren(a);
    var result: seq<Element> := [];
    if maxDepth.None? || maxDepth.value > 0 {
      var childDepth := if maxDepth.Some? then Some(maxDepth.value - 1) else None;
      var i := 0;
      while i < |foundChildren|
        invariant 0 <= i <= |foundChildren|
        invariant BuildAll(p, foundChildren[..i], offsetX, offsetY, childDepth, visibleBbox, md5, fuel) == Success(result)
      {
        var child := NewElement(p, Some(foundChildren[i]), offsetX, offsetY, childDepth, visibleBbox, md5, fuel);
        assert foundChildren[..i + 1][..i] == foundChildren[..i];
        if child.Failure? {
          BuildAllPrefixFailure(p, foundChildren, i + 1, offsetX, offsetY, childDepth, visibleBbox, md5, fuel);
          return Failure(child.error);
        }
        result := result + [child.value];
        i := i + 1;
      }
      assert foundChildren[..i] == foundChildren;
    }
    r := Success(result);
  }

  // -----------------------------------------------------------------------
  // find_root_element
  // -----------------------------------------------------------------------

  predicate IsRootLike(a: NativeAttrs) {
    a.role == Some("AXWindow") || a.subrole == Some("AXHostingView")
  }

  /**
   * `find_root_element`: the handle itself when it is an AXWindow or an
   * AXHostingView, else the root of its parent, else None. There is no
   * cycle guard; a cyclic parent chain exhausts the fuel.
   */
  function FindRootElement(p: Provider, h: Handle, fuel: nat): (r: Result<Option<Handle>, BuildError>)
    ensures r.Success? && r.value.Some? ==> IsRootLike(Lookup(p, r.value))
    decreases fuel
  {
    if fuel == 0 then Failure(RecursionLimit)
    else
      var a := Lookup(p, Some(h));
      if IsRootLike(a) then Success(Some(h))
      else if a.parent.Some? then FindRootElement(p, a.parent.value, fuel - 1)
      else Success(None)
  }
}
