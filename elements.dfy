/** The finished accessibility element (the fields of `UIElement`). */
module Elements {
  import opened Wrappers
  import opened Geometry
  import opened Json
  import opened Accessibility

  /** `self.value`: nothing, a plain value (list values are copied item by item), a date, or a nested element. */
  datatype ElemValue = NoValue | Plain(j: Json) | Date(text: string) | Nested(elem: Element)

  datatype Element = Element(
    handle: Option<Handle>,          // ax_element
    role: string,
    name: Option<string>,
    enabled: bool,
    description: Option<string>,
    roleDescription: Option<string>,
    value: ElemValue,
    absolutePosition: Option<Point>,
    position: Option<Point>,
    size: Option<Size>,
    /** Twice `self.center` (the source halves the size; doubling keeps it integral); None when never set. */
    doubledCenter: Option<Point>,
    bbox: Option<Rect>,
    visibleBbox: Option<Rect>,
    /** None when the attribute is never set (the early return for missing geometry). */
    actionItems: Option<seq<string>>,
    children: seq<Element>,
    identifier: string,
    contentIdentifier: string,
    maxDepth: Option<int>)

  /** `is_button`. */
  predicate IsButton(e: Element) {
    e.role == "AXButton"
  }

  /** The child identifiers, in tree order. */
  function Identifiers(children: seq<Element>): (ids: seq<string>)
    ensures |ids| == |children|
    ensures forall i :: 0 <= i < |children| ==> ids[i] == children[i].identifier
  {
    if children == [] then [] else [children[0].identifier] + Identifiers(children[1..])
  }

  /** The child content identifiers, in tree order. */
  function ContentIdentifiers(children: seq<Element>): (cids: seq<string>)
    ensures |cids| == |children|
    ensures forall i :: 0 <= i < |children| ==> cids[i] == children[i].contentIdentifier
  {
    if children == [] then [] else [children[0].contentIdentifier] + ContentIdentifiers(children[1..])
  }
}
