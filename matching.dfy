/**
  Judging one image's detections against its ground truth, as the record
  step of DetectionMAP.update does: each detection is matched greedily to the
  same-class ground-truth box it overlaps most, and becomes a true positive,
  a false positive, or (on a difficult box that is not evaluated) nothing.
 */
module Matching {
  import opened Options
  import opened Geometry
  import opened Ranking

  /** One row `[label, score, xmin, ymin, xmax, ymax]` of the detection array, its label already truncated to an int. */
  datatype Detection = Detection(cls: int, score: real, box: Box)

  /** One image's ground truth: boxes, class labels and difficult flags. */
  datatype GroundTruth = GroundTruth(boxes: seq<Box>, labels: seq<int>, difficult: seq<bool>)

  /** Every label has a box and a difficult flag. */
  predicate WellFormed(g: GroundTruth) {
    |g.labels| <= |g.boxes| && |g.difficult| == |g.labels|
  }

  /** The evaluator's fixed configuration that matching depends on. */
  datatype Settings = Settings(overlapThresh: real, normalized: bool, evaluateDifficult: bool)

  /** The difficult flags of an update: when none are given, no box is difficult. */
  function DifficultFlags(difficult: Option<seq<bool>>, n: nat): (f: seq<bool>)
    requires difficult.Some? ==> |difficult.value| == n
    ensures |f| == n
  {
    if difficult.Some? then difficult.value else seq(n, _ => false)
  }

  /** Ground-truth box k counts towards its class's total: difficult boxes count only when evaluated. */
  predicate Counted(g: GroundTruth, s: Settings, k: nat)
    requires k < |g.difficult|
  {
    s.evaluateDifficult || !g.difficult[k]
  }

  /** Number of counted ground-truth boxes of class c among the first n. */
  function CountedOfClass(g: GroundTruth, s: Settings, c: int, n: nat): nat
    requires WellFormed(g) && n <= |g.labels|
  {
    if n == 0 then 0
    else CountedOfClass(g, s, c, n - 1) + (if Counted(g, s, n - 1) && g.labels[n - 1] == c then 1 else 0)
  }

  /** Number of claimed (visited) ground-truth boxes of class c among the first n. */
  function VisitedOfClass(visited: seq<bool>, labels: seq<int>, c: int, n: nat): nat
    requires |visited| == |labels| && n <= |labels|
  {
    if n == 0 then 0
    else VisitedOfClass(visited, labels, c, n - 1) + (if visited[n - 1] && labels[n - 1] == c then 1 else 0)
  }

  /** Number of detections of class c among the first n. */
  function LabelCount(dets: seq<Detection>, c: int, n: nat): nat
    requires n <= |dets|
  {
    if n == 0 then 0 else LabelCount(dets, c, n - 1) + (if dets[n - 1].cls == c then 1 else 0)
  }

  /** The overlap of `box` with every ground-truth box of class `cls` can be computed. */
  predicate Comparable(box: Box, cls: int, g: GroundTruth, normalized: bool)
    requires WellFormed(g)
  {
    forall k :: 0 <= k < |g.labels| && g.labels[k] == cls ==> OverlapDefined(box, g.boxes[k], normalized)
  }

  /**
    The (max_idx, max_overlap) pair after scanning the first n ground-truth
    boxes: it starts at (-1, -1.0) and a box of the detection's class takes
    over only with a strictly larger overlap.
   */
  function BestMatch(box: Box, cls: int, g: GroundTruth, normalized: bool, n: nat): (m: (int, real))
    requires WellFormed(g) && n <= |g.labels| && Comparable(box, cls, g, normalized)
    ensures m == (-1, -1.0) ||
            (0 <= m.0 < n && g.labels[m.0] == cls && -1.0 < m.1 == JaccardOverlap(box, g.boxes[m.0], normalized))
  {
    if n == 0 then (-1, -1.0)
    else
      var before := BestMatch(box, cls, g, normalized, n - 1);
      if g.labels[n - 1] == cls && JaccardOverlap(box, g.boxes[n - 1], normalized) > before.1
      then (n - 1, JaccardOverlap(box, g.boxes[n - 1], normalized))
      else before
  }

  /**
    The greedy match is the FIRST box of the detection's class with the
    largest overlap, provided that overlap exceeds -1; no match means every
    such box overlaps by at most -1 (there are none for proper boxes).
   */
  lemma {:induction false} BestMatchIsFirstMaximal(box: Box, cls: int, g: GroundTruth, normalized: bool, n: nat)
    requires WellFormed(g) && n <= |g.labels| && Comparable(box, cls, g, normalized)
    ensures var m := BestMatch(box, cls, g, normalized, n);
      && (forall k :: 0 <= k < n && g.labels[k] == cls ==> JaccardOverlap(box, g.boxes[k], normalized) <= m.1)
      && (m.0 >= 0 ==> forall k :: 0 <= k < m.0 && g.labels[k] == cls ==> JaccardOverlap(box, g.boxes[k], normalized) < m.1)
  {
    if n > 0 {
      BestMatchIsFirstMaximal(box, cls, g, normalized, n - 1);
    }
  }

  /** A proper detection box finds a match whenever a proper box of its class exists. */
  lemma ProperBoxesMatch(box: Box, cls: int, g: GroundTruth, normalized: bool, k: nat)
    requires WellFormed(g) && Comparable(box, cls, g, normalized)
    requires k < |g.labels| && g.labels[k] == cls && IsProper(box) && IsProper(g.boxes[k])
    ensures BestMatch(box, cls, g, normalized, |g.labels|).0 >= 0
  {
    BestMatchIsFirstMaximal(box, cls, g, normalized, |g.labels|);
    OverlapBounds(box, g.boxes[k], normalized);
  }

  /** The inner scan of update (detection_eval.py lines 661-669) over all ground-truth boxes. */
  method FindBestMatch(box: Box, cls: int, g: GroundTruth, normalized: bool) returns (maxIdx: int, maxOverlap: real)
    requires WellFormed(g) && Comparable(box, cls, g, normalized)
    ensures (maxIdx, maxOverlap) == BestMatch(box, cls, g, normalized, |g.labels|)
  {
    maxIdx, maxOverlap := -1, -1.0;
    for i := 0 to |g.labels|
      invariant (maxIdx, maxOverlap) == BestMatch(box, cls, g, normalized, i)
    {
      if g.labels[i] == cls {
        var overlap := JaccardOverlap(box, g.boxes[i], normalized);
        if overlap > maxOverlap {
          maxOverlap := overlap;
          maxIdx := i;
        }
      }
    }
  }

  /** What a detection turns into: a true positive claiming box gt, a false positive, or nothing. */
  datatype Verdict = TruePositive(gt: nat) | FalsePositive | Ignored

  /**
    The decision of detection_eval.py lines 671-680 for a best match m: above the threshold, a
    match on a difficult box that is not evaluated is ignored, a match on an
    unclaimed box is a true positive and a match on a claimed box a duplicate
    (false positive); at or below the threshold it is a false positive.
   */
  function Judge(m: (int, real), g: GroundTruth, s: Settings, visited: seq<bool>): (v: Verdict)
    requires WellFormed(g) && |visited| == |g.labels| && s.overlapThresh >= -1.0
    requires m == (-1, -1.0) || 0 <= m.0 < |g.labels|
    ensures v.TruePositive? <==> m.1 > s.overlapThresh && m.0 >= 0 && Counted(g, s, m.0) && !visited[m.0]
    ensures v.TruePositive? ==> v.gt == m.0
    ensures v.Ignored? <==> m.1 > s.overlapThresh && m.0 >= 0 && !Counted(g, s, m.0)
  {
    if m.1 > s.overlapThresh then
      if s.evaluateDifficult || !g.difficult[m.0] then
        if !visited[m.0] then TruePositive(m.0) else FalsePositive
      else Ignored
    else FalsePositive
  }

  /** The per-class record lists and the claimed flags of the image's ground-truth boxes. */
  datatype MatchState = MatchState(records: seq<seq<Record>>, visited: seq<bool>)

  /** The detections can be judged: known classes, computable overlaps, and a threshold of at least -1. */
  predicate Admissible(dets: seq<Detection>, g: GroundTruth, s: Settings, classNum: nat) {
    && WellFormed(g)
    && s.overlapThresh >= -1.0
    && forall i :: 0 <= i < |dets| ==>
         0 <= dets[i].cls < classNum && Comparable(dets[i].box, dets[i].cls, g, s.normalized)
  }

  /** Judges one detection and appends its record to its class, claiming the box of a true positive. */
  function MatchStep(st: MatchState, d: Detection, g: GroundTruth, s: Settings): MatchState
    requires WellFormed(g) && |st.visited| == |g.labels| && s.overlapThresh >= -1.0
    requires 0 <= d.cls < |st.records| && Comparable(d.box, d.cls, g, s.normalized)
  {
    var m := BestMatch(d.box, d.cls, g, s.normalized, |g.labels|);
    match Judge(m, g, s, st.visited)
    case TruePositive(k) =>
      MatchState(st.records[d.cls := st.records[d.cls] + [Record(d.score, true)]], st.visited[k := true])
    case FalsePositive =>
      MatchState(st.records[d.cls := st.records[d.cls] + [Record(d.score, false)]], st.visited)
    case Ignored => st
  }

  /** The state after judging the first n detections in order. */
  function MatchAll(init: MatchState, dets: seq<Detection>, g: GroundTruth, s: Settings, n: nat): (r: MatchState)
    requires Admissible(dets, g, s, |init.records|) && |init.visited| == |g.labels| && n <= |dets|
    ensures |r.records| == |init.records| && |r.visited| == |init.visited|
  {
    if n == 0 then init else MatchStep(MatchAll(init, dets, g, s, n - 1), dets[n - 1], g, s)
  }

  lemma {:induction false} VisitedOfClassClaim(visited: seq<bool>, labels: seq<int>, c: int, n: nat, k: nat)
    requires |visited| == |labels| && n <= |labels| && k < |labels| && !visited[k]
    ensures VisitedOfClass(visited[k := true], labels, c, n)
            == VisitedOfClass(visited, labels, c, n) + (if k < n && labels[k] == c then 1 else 0)
  {
    if n > 0 {
      VisitedOfClassClaim(visited, labels, c, n - 1, k);
    }
  }

  /** One judged detection keeps the books of MatchAllAccounting for class c. */
  lemma MatchStepAccounting(st: MatchState, d: Detection, g: GroundTruth, s: Settings, c: int)
    requires WellFormed(g) && |st.visited| == |g.labels| && s.overlapThresh >= -1.0
    requires 0 <= d.cls < |st.records| && Comparable(d.box, d.cls, g, s.normalized) && 0 <= c < |st.records|
    ensures var r := MatchStep(st, d, g, s);
      && st.records[c] <= r.records[c]
      && Positives(r.records[c]) - Positives(st.records[c])
         == VisitedOfClass(r.visited, g.labels, c, |g.labels|) - VisitedOfClass(st.visited, g.labels, c, |g.labels|)
      && |r.records[c]| <= |st.records[c]| + (if d.cls == c then 1 else 0)
      && (s.evaluateDifficult ==> |r.records[c]| == |st.records[c]| + (if d.cls == c then 1 else 0))
      && (forall k :: 0 <= k < |g.labels| && r.visited[k] ==> st.visited[k] || Counted(g, s, k))
  {
    var m := BestMatch(d.box, d.cls, g, s.normalized, |g.labels|);
    var v := Judge(m, g, s, st.visited);
    if v.TruePositive? {
      VisitedOfClassClaim(st.visited, g.labels, c, |g.labels|, m.0);
      if c == d.cls {
        PositivesConcat(st.records[c], [Record(d.score, true)]);
      }
    } else if v.FalsePositive? && c == d.cls {
      PositivesConcat(st.records[c], [Record(d.score, false)]);
    }
  }

  /**
    Matching keeps the books: every claimed box is counted, every class's
    old records stay a prefix of its list, each class gains exactly one true
    positive per box of that class it claims, and at most one record per
    detection of that class (exactly one when difficult boxes are evaluated).
   */
  lemma {:induction false} MatchAllAccounting(init: MatchState, dets: seq<Detection>, g: GroundTruth, s: Settings, n: nat)
    requires Admissible(dets, g, s, |init.records|) && |init.visited| == |g.labels| && n <= |dets|
    requires forall k :: 0 <= k < |init.visited| ==> !init.visited[k]
    ensures var r := MatchAll(init, dets, g, s, n);
      && (forall k :: 0 <= k < |g.labels| && r.visited[k] ==> Counted(g, s, k))
      && (forall c :: 0 <= c < |init.records| ==>
            && init.records[c] <= r.records[c]
            && Positives(r.records[c]) == Positives(init.records[c]) + VisitedOfClass(r.visited, g.labels, c, |g.labels|)
            && |r.records[c]| <= |init.records[c]| + LabelCount(dets, c, n)
            && (s.evaluateDifficult ==> |r.records[c]| == |init.records[c]| + LabelCount(dets, c, n)))
  {
    if n == 0 {
      forall c | 0 <= c < |init.records|
        ensures VisitedOfClass(init.visited, g.labels, c, |g.labels|) == 0
      {
        NoneVisited(init.visited, g.labels, c, |g.labels|);
      }
    } else {
      MatchAllAccounting(init, dets, g, s, n - 1);
      var st, d := MatchAll(init, dets, g, s, n - 1), dets[n - 1];
      forall c | 0 <= c < |init.records|
        ensures var r := MatchStep(st, d, g, s);
          && init.records[c] <= r.records[c]
          && Positives(r.records[c]) == Positives(init.records[c]) + VisitedOfClass(r.visited, g.labels, c, |g.labels|)
          && |r.records[c]| <= |init.records[c]| + LabelCount(dets, c, n)
          && (s.evaluateDifficult ==> |r.records[c]| == |init.records[c]| + LabelCount(dets, c, n))
      {
        MatchStepAccounting(st, d, g, s, c);
      }
      if |init.records| > 0 {
        MatchStepAccounting(st, d, g, s, 0);
      }
    }
  }

  lemma {:induction false} NoneVisited(visited: seq<bool>, labels: seq<int>, c: int, n: nat)
    requires |visited| == |labels| && n <= |labels|
    requires forall k :: 0 <= k < |visited| ==> !visited[k]
    ensures VisitedOfClass(visited, labels, c, n) == 0
  {
    if n > 0 {
      NoneVisited(visited, labels, c, n - 1);
    }
  }

  /** Only counted boxes can be claimed, so a class never has more claimed boxes than counted ones. */
  lemma {:induction false} VisitedAtMostCounted(visited: seq<bool>, g: GroundTruth, s: Settings, c: int, n: nat)
    requires WellFormed(g) && |visited| == |g.labels| && n <= |g.labels|
    requires forall k :: 0 <= k < |g.labels| && visited[k] ==> Counted(g, s, k)
    ensures VisitedOfClass(visited, g.labels, c, n) <= CountedOfClass(g, s, c, n)
  {
    if n > 0 {
      VisitedAtMostCounted(visited, g, s, c, n - 1);
    }
  }

  /**
    A class's true positives never outnumber its counted ground truths: if
    they did not before an image, they do not after it, once the image's
    counted boxes are added.
   */
  lemma PositivesWithinTruths(init: MatchState, dets: seq<Detection>, g: GroundTruth, s: Settings, c: nat, total: nat)
    requires Admissible(dets, g, s, |init.records|) && |init.visited| == |g.labels|
    requires forall k :: 0 <= k < |init.visited| ==> !init.visited[k]
    requires c < |init.records| && Positives(init.records[c]) <= total
    ensures Positives(MatchAll(init, dets, g, s, |dets|).records[c]) <= total + CountedOfClass(g, s, c, |g.labels|)
  {
    MatchAllAccounting(init, dets, g, s, |dets|);
    var r := MatchAll(init, dets, g, s, |dets|);
    VisitedAtMostCounted(r.visited, g, s, c, |g.labels|);
  }
}
