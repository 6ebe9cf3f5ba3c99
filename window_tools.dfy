/**
 * The debugging helpers of `window_tools.py`: the role colour table, window
 * equality, and `segment_image`, which outlines every drawable descendant of
 * a window on a screenshot. The image is a canvas object whose only state is
 * the log of rectangles drawn on it.
 */
module WindowTools {
  import opened Wrappers
  import opened Geometry
  import opened Elements

  // ---------------------------------------------------------------------
  // color_for_role
  // ---------------------------------------------------------------------

  const DefaultColor: string := "red"

  /** `color_for_role`: the first test that matches decides (two roles are tested twice). */
  function ColorForRole(role: string): string {
    if role == "AXButton" then "blue"
    else if role == "AXTextField" then "green"
    else if role == "AXStaticText" then "yellow"
    else if role == "AXImage" then "purple"
    else if role == "AXGroup" then "orange"
    else if role == "AXScrollBar" then "brown"
    else if role == "AXRow" then "pink"
    else if role == "AXColumn" then "cyan"
    else if role == "AXCell" then "magenta"
    else if role == "AXTable" then "lightblue"
    else if role == "AXOutline" then "lightgreen"
    else if role == "AXLayoutArea" then "lightyellow"
    else if role == "AXLayoutItem" then "lavender"
    else if role == "AXHandle" then "peachpuff"
    else if role == "AXSplitter" then "lightsalmon"
    else if role == "AXIncrementor" then "lightpink"
    else if role == "AXBusyIndicator" then "lightcyan"
    else if role == "AXProgressIndicator" then "plum"
    else if role == "AXToolbar" then "darkred"
    else if role == "AXPopover" then "darkblue"
    else if role == "AXMenu" then "darkgreen"
    else if role == "AXMenuItem" then "olive"
    else if role == "AXMenuBar" then "rebeccapurple"
    else if role == "AXMenuBarItem" then "darkorange"
    else if role == "AXMenuButton" then "saddlebrown"
    else if role == "AXMenuItemCheckbox" then "palevioletred"
    else if role == "AXMenuItemRadio" then "darkcyan"
    else if role == "AXMenuItemPopover" then "darkmagenta"
    else if role == "AXMenuItemSplitter" then "black"
    else if role == "AXMenuItemTable" then "white"
    else if role == "AXMenuItemTextField" then "lightgray"
    else if role == "AXMenuItemStaticText" then "darkgray"
    else if role == "AXMenuItemImage" then "salmon"
    else if role == "AXMenuItemGroup" then "lightblue"
    else if role == "AXMenuItemScrollBar" then "lightgreen"
    else if role == "AXMenuItemRow" then "lightyellow"
    else if role == "AXMenuItemColumn" then "lavender"
    else if role == "AXMenuItemCell" then "peachpuff"
    else if role == "AXMenuItemOutline" then "burlywood"
    else if role == "AXMenuItemLayoutArea" then "lightpink"
    else if role == "AXMenuItemLayoutItem" then "lightcyan"
    else if role == "AXMenuItemHandle" then "plum"
    else if role == "AXMenuItemSplitter" then "darkred"
    else if role == "AXMenuItemIncrementor" then "darkblue"
    else if role == "AXMenuItemBusyIndicator" then "darkgreen"
    else if role == "AXMenuItemProgressIndicator" then "darkyellow"
    else if role == "AXMenuItemToolbar" then "rebeccapurple"
    else if role == "AXMenuItemPopover" then "darkorange"
    else DefaultColor
  }

  /** The roles `color_for_role` tests for. */
  const MappedRoles: set<string> := {
    "AXButton", "AXTextField", "AXStaticText", "AXImage", "AXGroup", "AXScrollBar", "AXRow", "AXColumn",
    "AXCell", "AXTable", "AXOutline", "AXLayoutArea", "AXLayoutItem", "AXHandle", "AXSplitter",
    "AXIncrementor", "AXBusyIndicator", "AXProgressIndicator", "AXToolbar", "AXPopover", "AXMenu",
    "AXMenuItem", "AXMenuBar", "AXMenuBarItem", "AXMenuButton", "AXMenuItemCheckbox", "AXMenuItemRadio",
    "AXMenuItemPopover", "AXMenuItemSplitter", "AXMenuItemTable", "AXMenuItemTextField",
    "AXMenuItemStaticText", "AXMenuItemImage", "AXMenuItemGroup", "AXMenuItemScrollBar", "AXMenuItemRow",
    "AXMenuItemColumn", "AXMenuItemCell", "AXMenuItemOutline", "AXMenuItemLayoutArea",
    "AXMenuItemLayoutItem", "AXMenuItemHandle", "AXMenuItemIncrementor", "AXMenuItemBusyIndicator",
    "AXMenuItemProgressIndicator", "AXMenuItemToolbar"}

  /** Every role outside the chain is drawn red. */
  lemma UnmappedIsRed(role: string)
    requires role !in MappedRoles
    ensures ColorForRole(role) == DefaultColor
  {
  }

  /** Entries of the chain, including both roles that are tested twice: the first test wins. */
  lemma ColorExamples()
    ensures ColorForRole("AXButton") == "blue"
    ensures ColorForRole("AXGroup") == "orange"
    ensures ColorForRole("AXMenuItemSplitter") == "black"
    ensures ColorForRole("AXMenuItemPopover") == "darkmagenta"
    ensures ColorForRole("AXWindow") == DefaultColor
  {
  }

  // ---------------------------------------------------------------------
  // windows_are_equal
  // ---------------------------------------------------------------------

  /** `windows_are_equal`: same name, role, position and size. */
  predicate WindowsAreEqual(a: Element, b: Element) {
    a.name == b.name && a.role == b.role && a.position == b.position && a.size == b.size
  }

  /** Window equality is an equivalence. */
  lemma WindowsAreEqualEquivalence(a: Element, b: Element, c: Element)
    ensures WindowsAreEqual(a, a)
    ensures WindowsAreEqual(a, b) ==> WindowsAreEqual(b, a)
    ensures WindowsAreEqual(a, b) && WindowsAreEqual(b, c) ==> WindowsAreEqual(a, c)
  {
  }

  /** Children, hashes and rectangles play no part in window equality. */
  lemma WindowsAreEqualIgnoresTree(a: Element, children: seq<Element>, identifier: string)
    ensures WindowsAreEqual(a, a.(children := children, identifier := identifier, bbox := None, visibleBbox := None))
  {
  }

  // ---------------------------------------------------------------------
  // segment_image
  // ---------------------------------------------------------------------

  /** `draw.rectangle([top_left, bottom_right], outline=colour, width=w)`. */
  datatype DrawOp = DrawOp(topLeft: Point, bottomRight: Point, color: string, width: int)

  /** The `ImageDraw` canvas: everything drawn on it, in order. */
  class Canvas {
    var ops: seq<DrawOp>

    constructor ()
      ensures ops == []
    {
      ops := [];
    }

    method Rectangle(topLeft: Point, bottomRight: Point, color: string, width: int)
      modifies this
      ensures ops == old(ops) + [DrawOp(topLeft, bottomRight, color, width)]
    {
      ops := ops + [DrawOp(topLeft, bottomRight, color, width)];
    }
  }

  /** A child is outlined only with a visible box and a size with non-zero width and height. */
  predicate Drawable(c: Element) {
    c.visibleBbox.Some? && c.size.Some? && c.size.value.width != 0 && c.size.value.height != 0
  }

  /** The height offset: 2, or 0 for an element less than 2 high. */
  function HeightOffset(s: Size): int {
    if s.height < 2 then 0 else 2
  }

  /** The clamp: an axis of the bottom-right corner that is negative or behind the top-left becomes the top-left's. */
  function Clamp(topLeft: int, bottomRight: int): int {
    if bottomRight < 0 || bottomRight < topLeft then topLeft else bottomRight
  }

  /**
   * The rectangle drawn for a drawable child, the display scale being `scale`
   * and `palette` the colour function (`ColorForRole` in `segment_image`).
   */
  function RectFor(c: Element, scale: int, palette: string -> string): DrawOp
    requires Drawable(c)
  {
    var b := c.visibleBbox.value;
    var topLeft := Point(b.x0 * scale, b.y0 * scale);
    var x1, y1 := b.x1 * scale - 1, b.y1 * scale - HeightOffset(c.size.value) + 1;
    DrawOp(topLeft, Point(Clamp(topLeft.x, x1), Clamp(topLeft.y, y1)), palette(c.role), 2)
  }

  /** Everything `segment_image` draws for `e`: its children's outlines, in pre-order. */
  function SegmentOps(e: Element, scale: int, palette: string -> string): seq<DrawOp>
    decreases e, 2
  {
    SegmentChildren(e.children, scale, palette)
  }

  /** The outlines for a list of siblings, first sibling first. */
  function SegmentChildren(cs: seq<Element>, scale: int, palette: string -> string): seq<DrawOp>
    decreases cs, 1
  {
    if cs == [] then [] else SegmentChildren(cs[..|cs| - 1], scale, palette) + ChildOps(cs[|cs| - 1], scale, palette)
  }

  /** One child: skipped entirely, or its own outline followed by its subtree's. */
  function ChildOps(c: Element, scale: int, palette: string -> string): seq<DrawOp>
    decreases c, 3
  {
    if Drawable(c) then [RectFor(c, scale, palette)] + SegmentOps(c, scale, palette) else []
  }

  /**
   * `segment_image` with an open drawer: nothing when there is no image
   * path, otherwise the outlines of `e`'s subtree are appended to the canvas.
   * The source colours each outline with `ColorForRole`; here the colour
   * function is the parameter `palette`, which `SegmentWindow` fixes.
   */
  method SegmentImage(imagePath: Option<string>, e: Element, canvas: Canvas, scale: int, palette: string -> string)
    modifies canvas
    ensures canvas.ops == old(canvas.ops) + (if imagePath.None? then [] else SegmentOps(e, scale, palette))
    decreases e
  {
    if imagePath.None? {
      return;
    }
    var i := 0;
    while i < |e.children|
      invariant 0 <= i <= |e.children|
      invariant canvas.ops == old(canvas.ops) + SegmentChildren(e.children[..i], scale, palette)
    {
      var child := e.children[i];
      assert e.children[..i + 1][..i] == e.children[..i];
      assert SegmentChildren(e.children[..i + 1], scale, palette) == SegmentChildren(e.children[..i], scale, palette) + ChildOps(child, scale, palette);
      if !Drawable(child) {
        i := i + 1;
        continue;
      }
      var b := child.visibleBbox.value;
      var size := child.size.value;
      var heightOffset := 2;
      if size.height < 2 {
        heightOffset := 0;
      }
      var retinaPosition := Point(b.x0 * scale, b.y0 * scale);
      var bottomRight := Point(b.x1 * scale - 1, b.y1 * scale - heightOffset + 1);
      var color := palette(child.role);
      if bottomRight.x < 0 || bottomRight.x < retinaPosition.x {
        bottomRight := bottomRight.(x := retinaPosition.x);
      }
      if bottomRight.y < 0 || bottomRight.y < retinaPosition.y {
        bottomRight := bottomRight.(y := retinaPosition.y);
      }
      assert DrawOp(retinaPosition, bottomRight, color, 2) == RectFor(child, scale, palette);
      canvas.Rectangle(retinaPosition, bottomRight, color, 2);
      SegmentImage(imagePath, child, canvas, scale, palette);
      i := i + 1;
    }
    assert e.children[..|e.children|] == e.children;
  }

  /** The top-level call (`image_drawer=None`): a fresh canvas holding exactly the outlines. */
  method SegmentWindow(imagePath: Option<string>, window: Element, scale: int) returns (canvas: Canvas)
    ensures fresh(canvas)
    ensures canvas.ops == (if imagePath.None? then [] else SegmentOps(window, scale, ColorForRole))
  {
    canvas := new Canvas();
    SegmentImage(imagePath, window, canvas, scale, ColorForRole);
  }

  // ---------------------------------------------------------------------
  // Properties of the outlines
  // ---------------------------------------------------------------------

  /** After the clamp the bottom-right corner is never left of or above the top-left one. */
  lemma RectOrdered(c: Element, scale: int, palette: string -> string)
    requires Drawable(c)
    ensures var op := RectFor(c, scale, palette);
      op.topLeft.x <= op.bottomRight.x && op.topLeft.y <= op.bottomRight.y
  {
  }

  /** An axis of the corner keeps its computed value exactly when that is neither negative nor behind. */
  lemma ClampExact(topLeft: int, bottomRight: int)
    ensures Clamp(topLeft, bottomRight) == bottomRight <==> (bottomRight >= 0 && bottomRight >= topLeft) || bottomRight == topLeft
    ensures Clamp(topLeft, bottomRight) != bottomRight ==> Clamp(topLeft, bottomRight) == topLeft
  {
  }

  predicate OpOrdered(op: DrawOp) {
    op.topLeft.x <= op.bottomRight.x && op.topLeft.y <= op.bottomRight.y && op.width == 2
  }

  predicate AllOrdered(ops: seq<DrawOp>) {
    forall k :: 0 <= k < |ops| ==> OpOrdered(ops[k])
  }

  lemma AllOrderedAppend(a: seq<DrawOp>, b: seq<DrawOp>)
    requires AllOrdered(a) && AllOrdered(b)
    ensures AllOrdered(a + b)
  {
    forall k | 0 <= k < |a + b| ensures OpOrdered((a + b)[k]) {
      if k < |a| { assert (a + b)[k] == a[k]; } else { assert (a + b)[k] == b[k - |a|]; }
    }
  }

  /** Every rectangle in the log is ordered and two pixels wide. */
  lemma {:induction false} SegmentOpsWellFormed(e: Element, scale: int, palette: string -> string)
    ensures AllOrdered(SegmentOps(e, scale, palette))
    decreases e, 2
  {
    ChildrenWellFormed(e.children, scale, palette);
  }

  lemma {:induction false} ChildrenWellFormed(cs: seq<Element>, scale: int, palette: string -> string)
    ensures AllOrdered(SegmentChildren(cs, scale, palette))
    decreases cs, 1
  {
    if cs != [] {
      var init, last := cs[..|cs| - 1], cs[|cs| - 1];
      ChildrenWellFormed(init, scale, palette);
      if Drawable(last) {
        RectOrdered(last, scale, palette);
        SegmentOpsWellFormed(last, scale, palette);
        AllOrderedAppend([RectFor(last, scale, palette)], SegmentOps(last, scale, palette));
      }
      AllOrderedAppend(SegmentChildren(init, scale, palette), ChildOps(last, scale, palette));
    }
  }

  /** The number of elements in a tree. */
  function TreeSize(e: Element): nat
    decreases e, 1
  {
    1 + ForestSize(e.children)
  }

  function ForestSize(cs: seq<Element>): nat
    decreases cs, 0
  {
    if cs == [] then 0 else ForestSize(cs[..|cs| - 1]) + TreeSize(cs[|cs| - 1])
  }

  /** The root is never outlined: at most one rectangle per proper descendant. */
  lemma {:induction false} SegmentOpsBound(e: Element, scale: int, palette: string -> string)
    ensures |SegmentOps(e, scale, palette)| <= TreeSize(e) - 1
    decreases e, 1
  {
    ChildrenBound(e.children, scale, palette);
  }

  lemma {:induction false} ChildrenBound(cs: seq<Element>, scale: int, palette: string -> string)
    ensures |SegmentChildren(cs, scale, palette)| <= ForestSize(cs)
    decreases cs, 0
  {
    if cs != [] {
      ChildrenBound(cs[..|cs| - 1], scale, palette);
      SegmentOpsBound(cs[|cs| - 1], scale, palette);
    }
  }

  /** The root's own box, size and role play no part: only its children are drawn. */
  lemma SegmentIgnoresRoot(e: Element, scale: int, palette: string -> string, visibleBbox: Option<Rect>, size: Option<Size>, role: string)
    ensures SegmentOps(e.(visibleBbox := visibleBbox, size := size, role := role), scale, palette) == SegmentOps(e, scale, palette)
  {
  }

  /** A skipped child contributes nothing, whatever its subtree: the walk does not descend into it. */
  lemma SkippedSubtreeIgnored(c: Element, children: seq<Element>, scale: int, palette: string -> string)
    requires !Drawable(c)
    ensures ChildOps(c.(children := children), scale, palette) == []
    ensures ChildOps(c, scale, palette) == []
  {
  }

  /** A drawable child's outline comes first, then its subtree's (pre-order). */
  lemma {:induction false} PreOrder(cs: seq<Element>, i: nat, scale: int, palette: string -> string)
    requires i < |cs| && Drawable(cs[i])
    ensures SegmentChildren(cs, scale, palette)
         == SegmentChildren(cs[..i], scale, palette) + [RectFor(cs[i], scale, palette)] + SegmentOps(cs[i], scale, palette)
            + SegmentChildren(cs[i + 1..], scale, palette)
  {
    SiblingsSplit(cs, i + 1, scale, palette);
    assert cs[..i + 1][..i] == cs[..i];
  }

  /** The siblings' outlines split at any index. */
  lemma {:induction false} SiblingsSplit(cs: seq<Element>, i: nat, scale: int, palette: string -> string)
    requires i <= |cs|
    ensures SegmentChildren(cs, scale, palette) == SegmentChildren(cs[..i], scale, palette) + SegmentChildren(cs[i..], scale, palette)
    decreases |cs|
  {
    if i == |cs| {
      assert cs[..i] == cs;
      assert cs[i..] == [];
    } else {
      var init := cs[..|cs| - 1];
      SiblingsSplit(init, i, scale, palette);
      assert init[..i] == cs[..i];
      assert cs[i..][..|cs[i..]| - 1] == init[i..];
      assert cs[i..][|cs[i..]| - 1] == cs[|cs| - 1];
    }
  }
}
