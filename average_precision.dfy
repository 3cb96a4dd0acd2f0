/**
  Reducing one class's precision/recall curve to an average precision, by
  11-point interpolation or by the integral (right Riemann sum) method.
 */
module AveragePrecision {
  import opened Ranking
  import Geometry

  function Abs(x: real): real { if x < 0.0 then -x else x }

  /** The recall level j/10 of the 11-point interpolation. */
  function Level(j: int): real { j as real / 10.0 }

  /** Recall steps closer than this are merged by the integral method. */
  const RECALL_GAP: real := 0.000001

  /**
    The shape every precision/recall curve of a ranking has (lemma CurveShape):
    recall is nonnegative and never decreases, precision lies in [0, 1], and a
    curve whose first step already has positive recall starts at precision 1.
   */
  predicate IsPrCurve(p: seq<real>, r: seq<real>) {
    && |p| == |r|
    && (forall i :: 0 <= i < |r| ==> 0.0 <= r[i] && 0.0 <= p[i] <= 1.0)
    && (forall i, j :: 0 <= i <= j < |r| ==> r[i] <= r[j])
    && (|r| > 0 && r[0] > 0.0 ==> p[0] == 1.0)
  }

  lemma DivMonotone(a: real, b: real, c: real)
    requires 0.0 <= a <= b && c > 0.0
    ensures 0.0 <= a / c <= b / c
  {
    assert (a / c) * c == a && (b / c) * c == b;
  }

  lemma DivAtMostOne(a: real, c: real)
    requires 0.0 <= a <= c && c > 0.0
    ensures 0.0 <= a / c <= 1.0
  {
    DivMonotone(a, c, c);
  }

  lemma CurveStepBounds(s: seq<Record>, count: nat, i: nat)
    requires count > 0 && i < |s|
    ensures 0.0 <= PrecisionAt(s, i) <= 1.0
    ensures 0.0 <= RecallAt(s, i, count)
    ensures Positives(s) <= count ==> RecallAt(s, i, count) <= 1.0
  {
    var hits := Positives(s[..i + 1]);
    PositivesAtMostLength(s[..i + 1]);
    DivAtMostOne(hits as real, (i + 1) as real);
    DivMonotone(0.0, hits as real, count as real);
    if Positives(s) <= count {
      PositivesOfPrefixGrow(s, i + 1, |s|);
      assert s[..|s|] == s;
      DivAtMostOne(hits as real, count as real);
    }
  }

  lemma RecallGrows(s: seq<Record>, count: nat, i: nat, j: nat)
    requires count > 0 && i <= j < |s|
    ensures RecallAt(s, i, count) <= RecallAt(s, j, count)
  {
    PositivesOfPrefixGrow(s, i + 1, j + 1);
    DivMonotone(Positives(s[..i + 1]) as real, Positives(s[..j + 1]) as real, count as real);
  }

  /** The precision and recall curves of any ranking have the shape IsPrCurve. */
  lemma CurveShape(s: seq<Record>, count: nat)
    requires count > 0
    ensures IsPrCurve(PrecisionCurve(s), RecallCurve(s, count))
    ensures Positives(s) <= count ==> forall i :: 0 <= i < |s| ==> RecallCurve(s, count)[i] <= 1.0
  {
    var p, r := PrecisionCurve(s), RecallCurve(s, count);
    forall i | 0 <= i < |s|
      ensures 0.0 <= r[i] && 0.0 <= p[i] <= 1.0
      ensures Positives(s) <= count ==> r[i] <= 1.0
    {
      CurveStepBounds(s, count, i);
    }
    forall i, j | 0 <= i <= j < |s| ensures r[i] <= r[j] {
      RecallGrows(s, count, i, j);
    }
    if |s| > 0 {
      LeadingPrecision(s, count);
    }
  }

  /** The first ranked record either misses (recall 0) or hits (precision 1). */
  lemma LeadingPrecision(s: seq<Record>, count: nat)
    requires count > 0 && |s| > 0
    ensures RecallAt(s, 0, count) > 0.0 ==> PrecisionAt(s, 0) == 1.0
  {
    PositivesAtMostLength(s[..1]);
    if Positives(s[..1]) == 0 {
      assert RecallAt(s, 0, count) == 0.0 / count as real == 0.0;
    }
  }

  // ---------------------------------------------------------------------------
  // 11-point interpolation

  /** The largest of 0 and the precisions p[lo..hi]. */
  function MaxIn(p: seq<real>, lo: nat, hi: nat): real
    requires lo <= hi <= |p|
    decreases hi - lo
  {
    if lo == hi then 0.0 else Geometry.Max(p[lo], MaxIn(p, lo + 1, hi))
  }

  /** The largest of 0 and the precisions at steps lo.. whose recall reaches t. */
  function MaxAtRecallFrom(p: seq<real>, r: seq<real>, t: real, lo: nat): real
    requires |p| == |r| && lo <= |p|
    decreases |p| - lo
  {
    if lo == |p| then 0.0
    else if r[lo] >= t then Geometry.Max(p[lo], MaxAtRecallFrom(p, r, t, lo + 1))
    else MaxAtRecallFrom(p, r, t, lo + 1)
  }

  /** Interpolated precision at recall level t: the best precision among steps with recall at least t, 0 if none. */
  function MaxAtRecall(p: seq<real>, r: seq<real>, t: real): real
    requires |p| == |r|
  {
    MaxAtRecallFrom(p, r, t, 0)
  }

  lemma {:induction false} MaxAtRecallFromIsMaximum(p: seq<real>, r: seq<real>, t: real, lo: nat)
    requires |p| == |r| && lo <= |p|
    requires forall i :: 0 <= i < |p| ==> 0.0 <= p[i]
    ensures forall i :: lo <= i < |p| && r[i] >= t ==> p[i] <= MaxAtRecallFrom(p, r, t, lo)
    ensures (exists i :: lo <= i < |p| && r[i] >= t) ==>
              exists i :: lo <= i < |p| && r[i] >= t && p[i] == MaxAtRecallFrom(p, r, t, lo)
    ensures (forall i :: lo <= i < |p| ==> r[i] < t) ==> MaxAtRecallFrom(p, r, t, lo) == 0.0
    decreases |p| - lo
  {
    if lo < |p| {
      MaxAtRecallFromIsMaximum(p, r, t, lo + 1);
      var rest := MaxAtRecallFrom(p, r, t, lo + 1);
      if r[lo] >= t && p[lo] < rest {
        assert exists i :: lo + 1 <= i < |p| && r[i] >= t;
      }
    }
  }

  /**
    MaxAtRecall is the maximum precision over the steps whose recall reaches
    t, attained by one of them, and 0 when no step reaches t.
   */
  lemma MaxAtRecallIsMaximum(p: seq<real>, r: seq<real>, t: real)
    requires |p| == |r|
    requires forall i :: 0 <= i < |p| ==> 0.0 <= p[i]
    ensures forall i :: 0 <= i < |p| && r[i] >= t ==> p[i] <= MaxAtRecall(p, r, t)
    ensures (exists i :: 0 <= i < |p| && r[i] >= t) ==>
              exists i :: 0 <= i < |p| && r[i] >= t && p[i] == MaxAtRecall(p, r, t)
    ensures (forall i :: 0 <= i < |p| ==> r[i] < t) ==> MaxAtRecall(p, r, t) == 0.0
  {
    MaxAtRecallFromIsMaximum(p, r, t, 0);
  }

  lemma {:induction false} MaxAtRecallFromBounds(p: seq<real>, r: seq<real>, t: real, lo: nat)
    requires IsPrCurve(p, r) && lo <= |p|
    ensures 0.0 <= MaxAtRecallFrom(p, r, t, lo) <= 1.0
    decreases |p| - lo
  {
    if lo < |p| {
      MaxAtRecallFromBounds(p, r, t, lo + 1);
    }
  }

  /** When every step from lo on reaches t, the filtered maximum is the plain one. */
  lemma {:induction false} AllReachLevel(p: seq<real>, r: seq<real>, t: real, lo: nat)
    requires |p| == |r| && lo <= |p|
    requires forall k :: lo <= k < |p| ==> r[k] >= t
    ensures MaxAtRecallFrom(p, r, t, lo) == MaxIn(p, lo, |p|)
    decreases |p| - lo
  {
    if lo < |p| {
      AllReachLevel(p, r, t, lo + 1);
    }
  }

  /** Steps below t before cut do not contribute. */
  lemma {:induction false} NoneReachLevel(p: seq<real>, r: seq<real>, t: real, lo: nat, cut: nat)
    requires |p| == |r| && lo <= cut <= |p|
    requires forall k :: lo <= k < cut ==> r[k] < t
    ensures MaxAtRecallFrom(p, r, t, lo) == MaxAtRecallFrom(p, r, t, cut)
    decreases cut - lo
  {
    if lo < cut {
      NoneReachLevel(p, r, t, lo + 1, cut);
    }
  }

  lemma {:induction false} MaxInAtMost(p: seq<real>, lo: nat, hi: nat, m: real)
    requires lo <= hi <= |p| && 0.0 <= m
    requires forall k :: lo <= k < hi ==> p[k] <= m
    ensures MaxIn(p, lo, hi) <= m
    decreases hi - lo
  {
    if lo < hi {
      MaxInAtMost(p, lo + 1, hi, m);
    }
  }

  /** A curve starting at precision 1 has maximum 1 over any nonempty prefix. */
  lemma LeadingMaximum(p: seq<real>, r: seq<real>, hi: nat)
    requires IsPrCurve(p, r) && 1 <= hi <= |p| && p[0] == 1.0
    ensures MaxIn(p, 0, hi) == 1.0
  {
    MaxInAtMost(p, 1, hi, 1.0);
  }

  /**
    When the downward scan of one level ends, having stopped at step i (or
    run past step 0 when i = -1), the running maximum m is the interpolated
    precision at that level.
   */
  lemma ScanSettlesLevel(p: seq<real>, r: seq<real>, t: real, i: int, s: nat, m: real, seeded: bool)
    requires IsPrCurve(p, r) && -1 <= i <= s < |p|
    requires forall k :: i < k <= s ==> r[k] >= t
    requires i >= 0 ==> r[i] < t
    requires seeded ==> m == MaxIn(p, i + 1, |p|) && forall k :: s < k < |p| ==> r[k] >= t
    requires !seeded ==> m == MaxIn(p, i + 1, s + 1) && r[0] > 0.0 && r[0] >= t
    ensures m == MaxAtRecall(p, r, t)
  {
    if i >= 0 {
      NoneReachLevel(p, r, t, 0, i + 1);
      AllReachLevel(p, r, t, i + 1);
    } else if seeded {
      AllReachLevel(p, r, t, 0);
    } else {
      // every step reaches t, so the maximum is the leading precision 1
      AllReachLevel(p, r, t, 0);
      LeadingMaximum(p, r, s + 1);
      LeadingMaximum(p, r, |p|);
    }
  }

  /**
    The envelope scan of detection_eval.py lines 712-724: for each level j from 10 down to 0 it
    scans steps downward from start_idx, raising max_precisions[j] while recall
    reaches j/10; at the first step below the level it records start_idx and
    seeds max_precisions[j - 1]. The result is the interpolated precision at
    each level.
   */
  method ElevenPointMaxPrecisions(precision: seq<real>, recall: seq<real>) returns (maxPrecisions: seq<real>)
    requires IsPrCurve(precision, recall) && |precision| > 0
    ensures |maxPrecisions| == 11
    ensures forall j :: 0 <= j <= 10 ==> maxPrecisions[j] == MaxAtRecall(precision, recall, Level(j))
  {
    var n := |precision|;
    maxPrecisions := seq(11, _ => 0.0);
    var startIdx := n - 1;
    var j := 10;
    while j >= 0
      invariant -1 <= j <= 10 && 0 <= startIdx < n && |maxPrecisions| == 11
      invariant forall jj :: j < jj <= 10 ==> maxPrecisions[jj] == MaxAtRecall(precision, recall, Level(jj))
      invariant forall jj :: 0 <= jj < j ==> maxPrecisions[jj] == 0.0
      invariant j >= 0 ==>
        || (maxPrecisions[j] == MaxIn(precision, startIdx + 1, n) &&
            forall k :: startIdx < k < n ==> recall[k] >= Level(j))
        || (maxPrecisions[j] == 0.0 && recall[0] > 0.0 && recall[0] >= Level(j))
    {
      // seeded: maxPrecisions[j] already holds the maximum over the steps after startIdx
      ghost var seeded := maxPrecisions[j] == MaxIn(precision, startIdx + 1, n) &&
                          forall k :: startIdx < k < n ==> recall[k] >= Level(j);
      ghost var s, before := startIdx, maxPrecisions;
      var i := startIdx;
      while i >= 0
        invariant -1 <= i <= s && startIdx == s && |maxPrecisions| == 11
        invariant forall jj :: 0 <= jj < 11 && jj != j ==> maxPrecisions[jj] == before[jj]
        invariant forall k :: i < k <= s ==> recall[k] >= Level(j)
        invariant seeded ==> maxPrecisions[j] == MaxIn(precision, i + 1, n)
        invariant !seeded ==> maxPrecisions[j] == MaxIn(precision, i + 1, s + 1) &&
                              recall[0] > 0.0 && recall[0] >= Level(j)
      {
        if recall[i] < Level(j) {
          startIdx := i;
          if j > 0 {
            maxPrecisions := maxPrecisions[j - 1 := maxPrecisions[j]];
            break;
          }
        } else {
          if maxPrecisions[j] < precision[i] {
            maxPrecisions := maxPrecisions[j := precision[i]];
          }
        }
        i := i - 1;
      }
      ScanSettlesLevel(precision, recall, Level(j), i, s, maxPrecisions[j], seeded);
      j := j - 1;
    }
  }

  function Sum(s: seq<real>): real {
    if |s| == 0 then 0.0 else s[0] + Sum(s[1..])
  }

  lemma {:induction false} SumBounds(s: seq<real>)
    requires forall i :: 0 <= i < |s| ==> 0.0 <= s[i] <= 1.0
    ensures 0.0 <= Sum(s) <= |s| as real
  {
    if |s| > 0 {
      SumBounds(s[1..]);
    }
  }

  /** The interpolated precisions at the 11 recall levels 0, 0.1, ..., 1. */
  function ElevenPointLevels(p: seq<real>, r: seq<real>): (m: seq<real>)
    requires |p| == |r|
    ensures |m| == 11
  {
    seq(11, j requires 0 <= j < 11 => MaxAtRecall(p, r, Level(j)))
  }

  /** 11-point interpolated AP: the mean of the interpolated precisions at the 11 levels. */
  function ElevenPointValue(p: seq<real>, r: seq<real>): real
    requires |p| == |r|
  {
    Sum(ElevenPointLevels(p, r)) / 11.0
  }

  lemma ElevenPointBounds(p: seq<real>, r: seq<real>)
    requires IsPrCurve(p, r)
    ensures 0.0 <= ElevenPointValue(p, r) <= 1.0
  {
    var m := ElevenPointLevels(p, r);
    forall j | 0 <= j < 11 ensures 0.0 <= m[j] <= 1.0 {
      MaxAtRecallFromBounds(p, r, Level(j), 0);
    }
    SumBounds(m);
  }
  /**
    The 11-point branch for one class (detection_eval.py lines 712-725): the
    envelope max_precisions and the AP, its mean.
   */
  method ElevenPointAP(precision: seq<real>, recall: seq<real>) returns (ap: real, maxPrecisions: seq<real>)
    requires IsPrCurve(precision, recall) && |precision| > 0
    ensures maxPrecisions == ElevenPointLevels(precision, recall)
    ensures ap == ElevenPointValue(precision, recall)
    ensures 0.0 <= ap <= 1.0
  {
    maxPrecisions := ElevenPointMaxPrecisions(precision, recall);
    assert maxPrecisions == ElevenPointLevels(precision, recall);
    ElevenPointBounds(precision, recall);
    ap := Sum(maxPrecisions) / 11.0;
  }


  // ---------------------------------------------------------------------------
  // Integral method

  /**
    The running (ap, prev_recall) of the integral loop after k steps: a step
    whose recall moved more than RECALL_GAP from the last counted recall adds
    its precision times that move.
   */
  function IntegralFold(p: seq<real>, r: seq<real>, k: nat): (real, real)
    requires |p| == |r| && k <= |p|
  {
    if k == 0 then (0.0, 0.0)
    else
      var before := IntegralFold(p, r, k - 1);
      var gap := Abs(r[k - 1] - before.1);
      if gap > RECALL_GAP then (before.0 + p[k - 1] * gap, r[k - 1]) else before
  }

  function IntegralValue(p: seq<real>, r: seq<real>): real
    requires |p| == |r|
  {
    IntegralFold(p, r, |p|).0
  }

  /** The integral loop of detection_eval.py lines 730-736. */
  method IntegralAP(precision: seq<real>, recall: seq<real>) returns (ap: real)
    requires |precision| == |recall|
    ensures ap == IntegralValue(precision, recall)
  {
    ap := 0.0;
    var prevRecall := 0.0;
    for i := 0 to |precision|
      invariant (ap, prevRecall) == IntegralFold(precision, recall, i)
    {
      var recallGap := Abs(recall[i] - prevRecall);
      ghost var next := IntegralFold(precision, recall, i + 1);
      if recallGap > RECALL_GAP {
        ap := ap + precision[i] * recallGap;
        prevRecall := recall[i];
      }
      assert ap == next.0 && prevRecall == next.1;
    }
  }

  lemma ScaledAtMost(x: real, g: real)
    requires 0.0 <= x <= 1.0 && 0.0 <= g
    ensures 0.0 <= x * g <= g
  {
    assert x * g <= 1.0 * g;
  }

  /** One integral step keeps 0 <= ap <= prev_recall <= the step's recall. */
  lemma FoldBoundsStep(p: seq<real>, r: seq<real>, k: nat)
    requires |p| == |r| && 0 < k <= |p| && 0.0 <= p[k - 1] <= 1.0
    requires 0.0 <= IntegralFold(p, r, k - 1).0 <= IntegralFold(p, r, k - 1).1 <= r[k - 1]
    ensures 0.0 <= IntegralFold(p, r, k).0 <= IntegralFold(p, r, k).1 <= r[k - 1]
  {
    var ap, prev := IntegralFold(p, r, k - 1).0, IntegralFold(p, r, k - 1).1;
    var gap := r[k - 1] - prev;
    if gap > RECALL_GAP {
      ScaledAtMost(p[k - 1], gap);
      FoldStepOnRise(p, r, k, gap);
      var gain := p[k - 1] * gap;
      assert IntegralFold(p, r, k).0 == ap + gain;
      assert gain <= gap;
      assert IntegralFold(p, r, k).1 == r[k - 1];
    } else {
      assert Abs(r[k - 1] - prev) == gap;
      FoldStepFlat(p, r, k);
    }
  }

  lemma {:induction false} IntegralFoldBounds(p: seq<real>, r: seq<real>, k: nat)
    requires IsPrCurve(p, r) && k <= |p|
    ensures 0.0 <= IntegralFold(p, r, k).0 <= IntegralFold(p, r, k).1
    ensures k == 0 ==> IntegralFold(p, r, k).1 == 0.0
    ensures k > 0 ==> IntegralFold(p, r, k).1 <= r[k - 1]
  {
    if k > 0 {
      IntegralFoldBounds(p, r, k - 1);
      assert IntegralFold(p, r, k - 1).1 <= r[k - 1] by {
        if k > 1 {
          assert r[k - 2] <= r[k - 1];
        }
      }
      FoldBoundsStep(p, r, k);
    }
  }

  /**
    Integral AP lies between 0 and the recall finally reached, since precision
    never exceeds 1 and the counted recall moves add up to that recall.
   */
  lemma IntegralBounds(p: seq<real>, r: seq<real>)
    requires IsPrCurve(p, r)
    ensures 0.0 <= IntegralValue(p, r)
    ensures |p| > 0 ==> IntegralValue(p, r) <= r[|r| - 1]
  {
    IntegralFoldBounds(p, r, |p|);
  }

  /** Sum of the precisions at the ranks of the true positives among the first k records. */
  function HitPrecisionSum(s: seq<Record>, k: nat): real
    requires k <= |s|
  {
    if k == 0 then 0.0
    else HitPrecisionSum(s, k - 1) + (if s[k - 1].pos then PrecisionAt(s, k - 1) else 0.0)
  }

  /** One more true positive moves recall by 1/count and adds its precision over count. */
  lemma HitStep(h: real, before: real, prec: real, c: real)
    requires 0.0 < c < 1000000.0
    ensures (before + 1.0) / c - before / c == 1.0 / c > RECALL_GAP
    ensures h / c + prec * ((before + 1.0) / c - before / c) == (h + prec) / c
  {
    assert (before + 1.0) / c == before / c + 1.0 / c;
    assert 1.0 / c > RECALL_GAP by {
      assert c * (1.0 / c) == 1.0;
    }
    assert prec * (1.0 / c) == prec / c;
  }

  lemma HitGain(ap: real, h: real, before: real, prec: real, c: real, gap: real)
    requires 0.0 < c < 1000000.0 && ap == h / c && gap == (before + 1.0) / c - before / c
    ensures gap > RECALL_GAP && ap + prec * gap == (h + prec) / c
  {
    HitStep(h, before, prec, c);
  }

  /** A step whose recall rose by more than RECALL_GAP adds its precision times the rise. */
  lemma FoldStepOnRise(p: seq<real>, r: seq<real>, k: nat, rise: real)
    requires |p| == |r| && 0 < k <= |p|
    requires r[k - 1] - IntegralFold(p, r, k - 1).1 == rise > RECALL_GAP
    ensures IntegralFold(p, r, k).0 == IntegralFold(p, r, k - 1).0 + p[k - 1] * rise
    ensures IntegralFold(p, r, k).1 == r[k - 1]
  {
  }

  /** A step whose recall stayed within RECALL_GAP of the last counted recall adds nothing. */
  lemma FoldStepFlat(p: seq<real>, r: seq<real>, k: nat)
    requires |p| == |r| && 0 < k <= |p|
    requires Abs(r[k - 1] - IntegralFold(p, r, k - 1).1) <= RECALL_GAP
    ensures IntegralFold(p, r, k).0 == IntegralFold(p, r, k - 1).0
    ensures IntegralFold(p, r, k).1 == IntegralFold(p, r, k - 1).1
  {
  }

  /** The integral fold of a ranking after k steps, given the claimed value after k - 1. */
  predicate FoldMatchesRanking(s: seq<Record>, count: nat, k: nat)
    requires 0 < count && k <= |s|
  {
    && IntegralFold(PrecisionCurve(s), RecallCurve(s, count), k).0 == HitPrecisionSum(s, k) / count as real
    && IntegralFold(PrecisionCurve(s), RecallCurve(s, count), k).1 == Positives(s[..k]) as real / count as real
  }

  /** One more true positive on a fold that so far tracks (h / c, before / c). */
  lemma FoldStepOnHit(p: seq<real>, r: seq<real>, k: nat, h: real, before: real, c: real)
    requires |p| == |r| && 0 < k <= |p| && 0.0 < c < 1000000.0
    requires IntegralFold(p, r, k - 1).0 == h / c && IntegralFold(p, r, k - 1).1 == before / c
    requires r[k - 1] == (before + 1.0) / c
    ensures IntegralFold(p, r, k).0 == (h + p[k - 1]) / c
    ensures IntegralFold(p, r, k).1 == (before + 1.0) / c
  {
    var rise := r[k - 1] - IntegralFold(p, r, k - 1).1;
    HitGain(IntegralFold(p, r, k - 1).0, h, before, p[k - 1], c, rise);
    FoldStepOnRise(p, r, k, rise);
  }

  lemma RankingStepOnHit(s: seq<Record>, count: nat, k: nat)
    requires 0 < count < 1000000 && 0 < k <= |s| && s[k - 1].pos
    requires FoldMatchesRanking(s, count, k - 1)
    ensures FoldMatchesRanking(s, count, k)
  {
    var p, r, c := PrecisionCurve(s), RecallCurve(s, count), count as real;
    var before, after := Positives(s[..k - 1]) as real, Positives(s[..k]) as real;
    assert after == before + 1.0 by {
      PositivesOfLongerPrefix(s, k - 1);
    }
    assert r[k - 1] == after / c;
    FoldStepOnHit(p, r, k, HitPrecisionSum(s, k - 1), before, c);
    assert HitPrecisionSum(s, k) == HitPrecisionSum(s, k - 1) + p[k - 1];
  }

  lemma RankingStepOnMiss(s: seq<Record>, count: nat, k: nat)
    requires 0 < count && 0 < k <= |s| && !s[k - 1].pos
    requires FoldMatchesRanking(s, count, k - 1)
    ensures FoldMatchesRanking(s, count, k)
  {
    var p, r := PrecisionCurve(s), RecallCurve(s, count);
    PositivesOfLongerPrefix(s, k - 1);
    assert r[k - 1] == Positives(s[..k - 1]) as real / count as real;
    FoldStepFlat(p, r, k);
    assert HitPrecisionSum(s, k) == HitPrecisionSum(s, k - 1);
  }

  lemma {:induction false} IntegralFoldOfRanking(s: seq<Record>, count: nat, k: nat)
    requires 0 < count < 1000000 && k <= |s|
    ensures FoldMatchesRanking(s, count, k)
  {
    if k == 0 {
      assert s[..0] == [];
      assert 0.0 / count as real == 0.0;
    } else {
      IntegralFoldOfRanking(s, count, k - 1);
      if s[k - 1].pos {
        RankingStepOnHit(s, count, k);
      } else {
        RankingStepOnMiss(s, count, k);
      }
    }
  }

  /**
    With fewer than a million ground truths every new true positive moves
    recall by more than RECALL_GAP, so integral AP is the classic VOC sum: the
    precision at each true positive's rank, summed and divided by the number
    of ground truths.
   */
  lemma IntegralIsHitPrecisionMean(s: seq<Record>, count: nat)
    requires 0 < count < 1000000
    ensures IntegralValue(PrecisionCurve(s), RecallCurve(s, count)) == HitPrecisionSum(s, |s|) / count as real
  {
    IntegralFoldOfRanking(s, count, |s|);
  }
}
