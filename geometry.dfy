/**
  Box area and intersection-over-union (Jaccard overlap) of two boxes
  [xmin, ymin, xmax, ymax], in normalized coordinates or in pixels, where
  a pixel box counts its last row and column (the "+1" convention).
 */
module Geometry {

  datatype Box = Box(xmin: real, ymin: real, xmax: real, ymax: real)

  function Max(a: real, b: real): real { if a >= b then a else b }

  function Min(a: real, b: real): real { if a <= b then a else b }

  /** A box with positive extent on both axes. */
  predicate IsProper(b: Box) {
    b.xmin < b.xmax && b.ymin < b.ymax
  }

  /** The extra pixel added to each side length unless boxes are normalized. */
  function Pad(normalized: bool): real {
    if normalized then 0.0 else 1.0
  }

  function Width(b: Box, normalized: bool): real {
    b.xmax - b.xmin + Pad(normalized)
  }

  function Height(b: Box, normalized: bool): real {
    b.ymax - b.ymin + Pad(normalized)
  }

  /** Area of a box; degenerate extents are not clamped. */
  function Area(b: Box, normalized: bool): (a: real)
    ensures IsProper(b) ==> a > 0.0
  {
    var w, h := Width(b, normalized), Height(b, normalized);
    MulPositive(w, h);
    w * h
  }

  lemma MulPositive(a: real, b: real)
    ensures 0.0 < a && 0.0 < b ==> 0.0 < a * b
  {
    if 0.0 < a && 0.0 < b {
      assert 0.0 * b < a * b;
    }
  }

  /** The early rejection test: the boxes touch at most along an edge. */
  predicate Disjoint(pred: Box, gt: Box) {
    pred.xmin >= gt.xmax || pred.xmax <= gt.xmin || pred.ymin >= gt.ymax || pred.ymax <= gt.ymin
  }

  function Intersection(pred: Box, gt: Box): Box {
    Box(Max(pred.xmin, gt.xmin), Max(pred.ymin, gt.ymin), Min(pred.xmax, gt.xmax), Min(pred.ymax, gt.ymax))
  }

  function UnionArea(pred: Box, gt: Box, normalized: bool): real {
    Area(pred, normalized) + Area(gt, normalized) - Area(Intersection(pred, gt), normalized)
  }

  /** The overlap is computable: the boxes are rejected early or their union is not empty. */
  predicate OverlapDefined(pred: Box, gt: Box, normalized: bool) {
    Disjoint(pred, gt) || UnionArea(pred, gt, normalized) != 0.0
  }

  function JaccardOverlap(pred: Box, gt: Box, normalized: bool): real
    requires OverlapDefined(pred, gt, normalized)
  {
    if Disjoint(pred, gt) then 0.0
    else Area(Intersection(pred, gt), normalized) / UnionArea(pred, gt, normalized)
  }

  lemma MulMonotone(a: real, b: real, c: real, d: real)
    requires 0.0 < a <= c && 0.0 < b <= d
    ensures 0.0 < a * b <= c * d
  {
    assert a * b <= c * b;
    assert c * b <= c * d;
  }

  lemma RatioBounds(x: real, y: real)
    requires 0.0 < x <= y
    ensures 0.0 < x / y <= 1.0
  {
    var q := x / y;
    assert q * y == x;
  }

  /** The intersection of two overlapping proper boxes is no wider and no taller than either box. */
  lemma IntersectionExtents(pred: Box, gt: Box, normalized: bool)
    requires IsProper(pred) && IsProper(gt) && !Disjoint(pred, gt)
    ensures var i := Intersection(pred, gt);
      && 0.0 < Width(i, normalized) <= Width(pred, normalized) && Width(i, normalized) <= Width(gt, normalized)
      && 0.0 < Height(i, normalized) <= Height(pred, normalized) && Height(i, normalized) <= Height(gt, normalized)
  {
  }

  lemma IntersectionWithin(pred: Box, gt: Box, normalized: bool)
    requires IsProper(pred) && IsProper(gt) && !Disjoint(pred, gt)
    ensures 0.0 < Area(Intersection(pred, gt), normalized) <= Area(pred, normalized)
    ensures Area(Intersection(pred, gt), normalized) <= Area(gt, normalized)
  {
    IntersectionExtents(pred, gt, normalized);
    AreaWithin(Intersection(pred, gt), pred, normalized);
    AreaWithin(Intersection(pred, gt), gt, normalized);
  }

  /** A box no wider and no taller than another, with positive extents, has a positive area no larger than the other's. */
  lemma AreaWithin(inner: Box, outer: Box, normalized: bool)
    requires 0.0 < Width(inner, normalized) <= Width(outer, normalized)
    requires 0.0 < Height(inner, normalized) <= Height(outer, normalized)
    ensures 0.0 < Area(inner, normalized) <= Area(outer, normalized)
  {
    MulMonotone(Width(inner, normalized), Height(inner, normalized), Width(outer, normalized), Height(outer, normalized));
    assert Area(inner, normalized) == Width(inner, normalized) * Height(inner, normalized);
    assert Area(outer, normalized) == Width(outer, normalized) * Height(outer, normalized);
  }

  /** The overlap does not depend on which box is the prediction. */
  lemma OverlapSymmetric(pred: Box, gt: Box, normalized: bool)
    requires OverlapDefined(pred, gt, normalized)
    ensures OverlapDefined(gt, pred, normalized)
    ensures JaccardOverlap(pred, gt, normalized) == JaccardOverlap(gt, pred, normalized)
  {
    assert Intersection(pred, gt) == Intersection(gt, pred);
  }

  /** A proper box overlaps itself exactly, under both conventions. */
  lemma OverlapOfSelf(b: Box, normalized: bool)
    requires IsProper(b)
    ensures OverlapDefined(b, b, normalized)
    ensures JaccardOverlap(b, b, normalized) == 1.0
  {
    assert Intersection(b, b) == b;
    var a := Area(b, normalized);
    assert UnionArea(b, b, normalized) == a > 0.0;
    assert a / a == 1.0;
  }

  /**
    For proper boxes the overlap is defined, lies in [0, 1], and is zero
    exactly when the early rejection test fires.
   */
  lemma OverlapBounds(pred: Box, gt: Box, normalized: bool)
    requires IsProper(pred) && IsProper(gt)
    ensures OverlapDefined(pred, gt, normalized)
    ensures 0.0 <= JaccardOverlap(pred, gt, normalized) <= 1.0
    ensures JaccardOverlap(pred, gt, normalized) == 0.0 <==> Disjoint(pred, gt)
  {
    if !Disjoint(pred, gt) {
      IntersectionWithin(pred, gt, normalized);
      var inter, union := Area(Intersection(pred, gt), normalized), UnionArea(pred, gt, normalized);
      assert 0.0 < inter <= union;
      RatioBounds(inter, union);
    }
  }
}
