/**
 * Points, sizes and integer rectangles, and the visibility clipping of a
 * bounding box against its parent's visible rectangle (`_set_bboxes`).
 */
module Geometry {
  import opened Wrappers

  datatype Point = Point(x: int, y: int)
  datatype Size = Size(width: int, height: int)
  /** `[x0, y0, x1, y1]`: top-left and bottom-right corners. */
  datatype Rect = Rect(x0: int, y0: int, x1: int, y1: int)

  predicate WellFormed(r: Rect) {
    r.x0 <= r.x1 && r.y0 <= r.y1
  }

  /** `inner` lies inside `outer` on both axes. */
  predicate Contained(inner: Rect, outer: Rect) {
    outer.x0 <= inner.x0 && inner.x1 <= outer.x1 && outer.y0 <= inner.y0 && inner.y1 <= outer.y1
  }

  function Min(a: int, b: int): int { if a <= b then a else b }
  function Max(a: int, b: int): int { if a <= b then b else a }

  /** `[int(x), int(y), int(x + w), int(y + h)]`, coordinates being integers already. */
  function BBox(p: Point, s: Size): (r: Rect)
    ensures r.x0 == p.x && r.y0 == p.y
    ensures r.x1 - r.x0 == s.width && r.y1 - r.y0 == s.height
  {
    Rect(p.x, p.y, p.x + s.width, p.y + s.height)
  }

  /** The strict separation test of the source: touching edges still overlap. */
  predicate Disjoint(b: Rect, parent: Rect) {
    b.x0 > parent.x1 || b.y0 > parent.y1 || b.x1 < parent.x0 || b.y1 < parent.y0
  }

  /** The visible part of `b` given the parent's visible rectangle. */
  function Clip(b: Rect, parentVisible: Option<Rect>): (r: Option<Rect>)
    ensures parentVisible.None? ==> r == Some(b)
    ensures parentVisible.Some? && Disjoint(b, parentVisible.value) ==> r.None?
    ensures parentVisible.Some? && !Disjoint(b, parentVisible.value) ==>
      r.Some? && Contained(r.value, b) && Contained(r.value, parentVisible.value)
    ensures parentVisible.Some? && !Disjoint(b, parentVisible.value) ==>
      forall q :: Contained(q, b) && Contained(q, parentVisible.value) ==> Contained(q, r.value)
  {
    match parentVisible
    case None => Some(b)
    case Some(pv) =>
      if Disjoint(b, pv) then None
      else Some(Rect(Max(b.x0, pv.x0), Max(b.y0, pv.y0), Min(b.x1, pv.x1), Min(b.y1, pv.y1)))
  }

  /** The pair `(bbox, visible_bbox)` computed from position, size and the parent's rectangle. */
  function SetBboxes(position: Option<Point>, size: Option<Size>, parentVisible: Option<Rect>)
    : (r: (Option<Rect>, Option<Rect>))
    ensures (position.None? || size.None?) ==> r == (None, None)
    ensures position.Some? && size.Some? ==>
      r.0 == Some(BBox(position.value, size.value)) && r.1 == Clip(r.0.value, parentVisible)
  {
    if position.None? || size.None? then (None, None)
    else
      var b := BBox(position.value, size.value);
      (Some(b), Clip(b, parentVisible))
  }

  /** Clipping two well-formed rectangles that overlap gives a well-formed rectangle. */
  lemma ClipWellFormed(b: Rect, parentVisible: Option<Rect>)
    requires WellFormed(b)
    requires parentVisible.Some? ==> WellFormed(parentVisible.value)
    ensures Clip(b, parentVisible).Some? ==> WellFormed(Clip(b, parentVisible).value)
  {
  }
}
