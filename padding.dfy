/**
  Removing the zero padding of a ground-truth batch: padded batches mark the
  end of the real boxes with a box whose four coordinates are all zero.
 */
module Padding {
  import opened Options
  import opened Geometry

  predicate IsZeroBox(b: Box) {
    b.xmin == 0.0 && b.ymin == 0.0 && b.xmax == 0.0 && b.ymax == 0.0
  }

  /** The slice `s[:n]`, which stops at the end of `s` when `n` is past it. */
  function Take<T>(s: seq<T>, n: nat): (t: seq<T>)
    ensures t <= s && |t| == if n <= |s| then n else |s|
  {
    if n <= |s| then s[..n] else s
  }

  /**
    Cuts the boxes at the first all-zero box (the longest prefix without one)
    and cuts labels and difficult flags to the same count.
   */
  method PruneZeroPadding(gtBox: seq<Box>, gtLabel: seq<int>, difficult: Option<seq<bool>>)
    returns (boxes: seq<Box>, labels: seq<int>, flags: Option<seq<bool>>)
    ensures boxes <= gtBox
    ensures forall k :: 0 <= k < |boxes| ==> !IsZeroBox(boxes[k])
    ensures |boxes| == |gtBox| || IsZeroBox(gtBox[|boxes|])
    ensures labels == Take(gtLabel, |boxes|)
    ensures flags.None? <==> difficult.None?
    ensures difficult.Some? ==> flags == Some(Take(difficult.value, |boxes|))
    ensures |gtLabel| == |gtBox| ==> |labels| == |boxes|
    ensures difficult.Some? && |difficult.value| == |gtBox| ==> |flags.value| == |boxes|
  {
    var validCnt := 0;
    while validCnt < |gtBox|
      invariant 0 <= validCnt <= |gtBox|
      invariant forall k :: 0 <= k < validCnt ==> !IsZeroBox(gtBox[k])
    {
      if IsZeroBox(gtBox[validCnt]) {
        break;
      }
      validCnt := validCnt + 1;
    }
    boxes := gtBox[..validCnt];
    labels := Take(gtLabel, validCnt);
    flags := if difficult.Some? then Some(Take(difficult.value, validCnt)) else None;
  }
}
