/**
  The DetectionMAP evaluator: it gathers, image by image, each class's
  ground-truth count and judged detections, and turns them into per-class
  average precisions and their mean (mAP).
 */
module Evaluator {
  import opened Options
  import opened Geometry
  import opened Ranking
  import opened AveragePrecision
  import opened Matching

  /** The two supported ways of reducing a precision/recall curve: '11point' and 'integral'. */
  datatype MapType = ElevenPoint | Integral

  /**
    The average precision of one class with count > 0 ground truths: its
    records are ranked by descending score and the resulting curve is
    reduced by the chosen method.
   */
  function ClassAP(records: seq<Record>, count: nat, mt: MapType): real
    requires count > 0
  {
    var ranked := SortByScore(records);
    var p, r := PrecisionCurve(ranked), RecallCurve(ranked, count);
    if mt == ElevenPoint then ElevenPointValue(p, r) else IntegralValue(p, r)
  }

  /** A class whose true positives do not outnumber its ground truths has an AP in [0, 1]. */
  lemma ClassAPBounds(records: seq<Record>, count: nat, mt: MapType)
    requires count > 0 && Positives(records) <= count
    ensures 0.0 <= ClassAP(records, count, mt) <= 1.0
  {
    var ranked := SortByScore(records);
    var p, r := PrecisionCurve(ranked), RecallCurve(ranked, count);
    SortByScoreIsStableSort(records);
    CurveShape(ranked, count);
    if mt == ElevenPoint {
      ElevenPointBounds(p, r);
    } else {
      IntegralBounds(p, r);
    }
  }

  lemma {:induction false} AllPositives(s: seq<Record>)
    requires forall i :: 0 <= i < |s| ==> s[i].pos
    ensures Positives(s) == |s|
  {
    if |s| > 0 {
      AllPositives(s[1..]);
    }
  }

  lemma {:induction false} SumOfOnes(s: seq<real>)
    requires forall i :: 0 <= i < |s| ==> s[i] == 1.0
    ensures Sum(s) == |s| as real
  {
    if |s| > 0 {
      SumOfOnes(s[1..]);
    }
  }

  lemma {:induction false} HitPrecisionSumOfHits(s: seq<Record>, k: nat)
    requires k <= |s| && forall i :: 0 <= i < |s| ==> s[i].pos
    ensures HitPrecisionSum(s, k) == k as real
  {
    if k > 0 {
      HitPrecisionSumOfHits(s, k - 1);
      PerfectPrecisionAt(s, k - 1);
    }
  }

  lemma PerfectPrecisionAt(s: seq<Record>, i: nat)
    requires i < |s| && forall j :: 0 <= j < |s| ==> s[j].pos
    ensures PrecisionAt(s, i) == 1.0
  {
    var q, n := s[..i + 1], (i + 1) as real;
    assert forall j :: 0 <= j < |q| ==> q[j].pos;
    AllPositives(q);
    assert n / n == 1.0;
  }

  /** A ranking of true positives only has precision 1 everywhere and reaches recall 1 when it finds every ground truth. */
  lemma PerfectCurve(s: seq<Record>)
    requires 0 < |s| && forall i :: 0 <= i < |s| ==> s[i].pos
    ensures forall i :: 0 <= i < |s| ==> PrecisionCurve(s)[i] == 1.0
    ensures RecallCurve(s, |s|)[|s| - 1] == 1.0
  {
    forall i | 0 <= i < |s| ensures PrecisionCurve(s)[i] == 1.0 {
      PerfectPrecisionAt(s, i);
    }
    var n := |s| as real;
    assert s[..|s|] == s;
    AllPositives(s);
    assert n / n == 1.0;
  }

  lemma PerfectElevenPoint(s: seq<Record>)
    requires 0 < |s| && forall i :: 0 <= i < |s| ==> s[i].pos
    ensures ElevenPointValue(PrecisionCurve(s), RecallCurve(s, |s|)) == 1.0
  {
    var p, r := PrecisionCurve(s), RecallCurve(s, |s|);
    PerfectCurve(s);
    var m := ElevenPointLevels(p, r);
    forall j | 0 <= j < 11 ensures m[j] == 1.0 {
      MaxAtRecallIsMaximum(p, r, Level(j));
      assert r[|s| - 1] >= Level(j);
    }
    SumOfOnes(m);
  }

  lemma PerfectIntegral(s: seq<Record>)
    requires 0 < |s| < 1000000 && forall i :: 0 <= i < |s| ==> s[i].pos
    ensures IntegralValue(PrecisionCurve(s), RecallCurve(s, |s|)) == 1.0
  {
    var n := |s| as real;
    IntegralIsHitPrecisionMean(s, |s|);
    HitPrecisionSumOfHits(s, |s|);
    assert n / n == 1.0;
  }

  /**
    A class whose detections are all true positives and find every one of
    its ground truths has AP 1 under both methods.
   */
  lemma PerfectDetectionsScoreOne(records: seq<Record>, mt: MapType)
    requires 0 < |records| && (mt == Integral ==> |records| < 1000000)
    requires forall i :: 0 <= i < |records| ==> records[i].pos
    ensures ClassAP(records, |records|, mt) == 1.0
  {
    var ranked := SortByScore(records);
    SortByScoreIsStableSort(records);
    forall i | 0 <= i < |ranked| ensures ranked[i].pos {
      assert ranked[i] in multiset(records);
    }
    if mt == ElevenPoint {
      PerfectElevenPoint(ranked);
    } else {
      PerfectIntegral(ranked);
    }
  }

  /** Sum of the APs of the classes below k that have ground truth and detections. */
  function ApTotal(recs: seq<seq<Record>>, counts: seq<nat>, mt: MapType, k: nat): real
    requires |recs| == |counts| && k <= |counts|
  {
    if k == 0 then 0.0
    else ApTotal(recs, counts, mt, k - 1) +
         (if counts[k - 1] == 0 || |recs[k - 1]| == 0 then 0.0 else ClassAP(recs[k - 1], counts[k - 1], mt))
  }

  /** Number of classes below k that have ground truth. */
  function ValidClasses(counts: seq<nat>, k: nat): nat
    requires k <= |counts|
  {
    if k == 0 then 0 else ValidClasses(counts, k - 1) + (if counts[k - 1] > 0 then 1 else 0)
  }

  /**
    mAP: the AP total over the classes with ground truth, divided by their
    number; a class with ground truth but no detections adds 0, and with no
    such class at all the (zero) total is returned undivided.
   */
  function MeanAP(recs: seq<seq<Record>>, counts: seq<nat>, mt: MapType): real
    requires |recs| == |counts|
  {
    var valid := ValidClasses(counts, |counts|);
    var total := ApTotal(recs, counts, mt, |counts|);
    if valid > 0 then total / valid as real else total
  }

  /** Balanced classes contribute an AP total between 0 and their number. */
  predicate Balanced(recs: seq<seq<Record>>, counts: seq<nat>) {
    |recs| == |counts| && forall c :: 0 <= c < |counts| ==> Positives(recs[c]) <= counts[c]
  }

  lemma {:induction false} ApTotalBounds(recs: seq<seq<Record>>, counts: seq<nat>, mt: MapType, k: nat)
    requires Balanced(recs, counts) && k <= |counts|
    ensures 0.0 <= ApTotal(recs, counts, mt, k) <= ValidClasses(counts, k) as real
  {
    if k > 0 {
      ApTotalBounds(recs, counts, mt, k - 1);
      if counts[k - 1] > 0 {
        ClassAPBounds(recs[k - 1], counts[k - 1], mt);
      }
    }
  }

  /** mAP lies in [0, 1], and is 0 when no class has ground truth. */
  lemma MeanAPBounds(recs: seq<seq<Record>>, counts: seq<nat>, mt: MapType)
    requires Balanced(recs, counts)
    ensures 0.0 <= MeanAP(recs, counts, mt) <= 1.0
    ensures ValidClasses(counts, |counts|) == 0 ==> MeanAP(recs, counts, mt) == 0.0
  {
    var valid := ValidClasses(counts, |counts|);
    ApTotalBounds(recs, counts, mt, |counts|);
    if valid > 0 {
      DivAtMostOne(ApTotal(recs, counts, mt, |counts|), valid as real);
    }
  }

  /**
    Detections of a class without ground truth do not affect mAP: neither
    their number nor their scores matter.
   */
  lemma {:induction false} ApTotalIgnoresClassesWithoutTruth(recs: seq<seq<Record>>, other: seq<seq<Record>>, counts: seq<nat>, mt: MapType, k: nat)
    requires |recs| == |counts| && |other| == |counts| && k <= |counts|
    requires forall c :: 0 <= c < |counts| && counts[c] > 0 ==> recs[c] == other[c]
    ensures ApTotal(recs, counts, mt, k) == ApTotal(other, counts, mt, k)
  {
    if k > 0 {
      ApTotalIgnoresClassesWithoutTruth(recs, other, counts, mt, k - 1);
    }
  }

  lemma MeanAPIgnoresClassesWithoutTruth(recs: seq<seq<Record>>, other: seq<seq<Record>>, counts: seq<nat>, mt: MapType)
    requires |recs| == |counts| && |other| == |counts|
    requires forall c :: 0 <= c < |counts| && counts[c] > 0 ==> recs[c] == other[c]
    ensures MeanAP(recs, counts, mt) == MeanAP(other, counts, mt)
  {
    ApTotalIgnoresClassesWithoutTruth(recs, other, counts, mt, |counts|);
  }

  /**
    The per-class part of accumulate (detection_eval.py lines 704-740): tp/fp accumulation,
    precision and recall lists, then the 11-point or integral reduction.
   */
  method ClassAveragePrecision(records: seq<Record>, count: nat, mt: MapType) returns (ap: real, maxPrecisions: Option<seq<real>>)
    requires count > 0 && |records| > 0
    ensures ap == ClassAP(records, count, mt)
    ensures Positives(records) <= count ==> 0.0 <= ap <= 1.0
    ensures maxPrecisions.Some? <==> mt == ElevenPoint
    ensures maxPrecisions.Some? ==> |maxPrecisions.value| == 11 && ap == Sum(maxPrecisions.value) / 11.0
  {
    var precision, recall := PrecisionRecallCurve(records, count);
    if mt == ElevenPoint {
      CurveShape(SortByScore(records), count);
      var m;
      ap, m := ElevenPointAP(precision, recall);
      maxPrecisions := Some(m);
    } else {
      ap := IntegralAP(precision, recall);
      maxPrecisions := None;
      if Positives(records) <= count {
        ClassAPBounds(records, count, mt);
      }
    }
  }


  /**
    The per-class AP slot after accumulate: a class with ground truth and
    detections holds its AP; any other class keeps what it held before.
   */
  function StoredAP(records: seq<Record>, count: nat, mt: MapType, prior: Option<real>): Option<real> {
    if count > 0 && |records| > 0 then Some(ClassAP(records, count, mt)) else prior
  }

  /** Some class has both ground truth and detections, so accumulate computes an AP for it. */
  predicate SomeClassScored(recs: seq<seq<Record>>, counts: seq<nat>) {
    exists c :: 0 <= c < |counts| && c < |recs| && counts[c] > 0 && |recs[c]| > 0
  }

  /** The image's ground truth as update sees it, with absent difficult flags read as all false. */
  function Truth(gtBoxes: seq<Box>, gtLabels: seq<int>, difficult: Option<seq<bool>>): (g: GroundTruth)
    requires difficult.Some? ==> |difficult.value| == |gtLabels|
    ensures g.labels == gtLabels && g.boxes == gtBoxes
    ensures difficult.Some? ==> g.difficult == difficult.value
    ensures difficult.None? ==> |g.difficult| == |gtLabels| && forall k :: 0 <= k < |gtLabels| ==> !g.difficult[k]
  {
    GroundTruth(gtBoxes, gtLabels, DifficultFlags(difficult, |gtLabels|))
  }

  /** Matching state at the start of an image: the evaluator's records and no box claimed. */
  function Unclaimed(records: seq<seq<Record>>, n: nat): (st: MatchState)
    ensures st.records == records && |st.visited| == n && forall k :: 0 <= k < n ==> !st.visited[k]
  {
    MatchState(records, seq(n, _ => false))
  }

  class DetectionMAP {
    const classNum: nat
    const overlapThresh: real
    const mapType: MapType
    const isBboxNormalized: bool
    const evaluateDifficult: bool

    /** Per class: the (score, pos) record of every judged detection, in arrival order. */
    var scorePoss: array<seq<Record>>
    /** Per class: the number of counted ground-truth boxes seen so far. */
    var gtCounts: array<nat>
    var mAP: Option<real>
    var aps: array<Option<real>>

    function Config(): Settings {
      Settings(overlapThresh, isBboxNormalized, evaluateDifficult)
    }

    /**
      The evaluator's invariant: one entry per class in every table, no class
      with more true positives than counted ground truths, and every computed
      AP and mAP in [0, 1].
     */
    ghost predicate Valid()
      reads this, scorePoss, gtCounts, aps
    {
      && scorePoss.Length == classNum && gtCounts.Length == classNum && aps.Length == classNum
      && overlapThresh >= -1.0
      && (forall c :: 0 <= c < classNum ==> Positives(scorePoss[c]) <= gtCounts[c])
      && (mAP.Some? ==> 0.0 <= mAP.value <= 1.0)
      && (forall c :: 0 <= c < classNum && aps[c].Some? ==> 0.0 <= aps[c].value <= 1.0)
    }

    /** Nothing gathered and nothing computed yet. */
    ghost predicate Cleared()
      reads this, scorePoss, gtCounts, aps
    {
      && scorePoss.Length == classNum && gtCounts.Length == classNum && aps.Length == classNum
      && mAP.None?
      && forall c :: 0 <= c < classNum ==> scorePoss[c] == [] && gtCounts[c] == 0 && aps[c].None?
    }

    constructor(classNum: nat, overlapThresh: real, mapType: MapType, isBboxNormalized: bool, evaluateDifficult: bool)
      requires overlapThresh >= -1.0
      ensures this.classNum == classNum && this.overlapThresh == overlapThresh && this.mapType == mapType
      ensures this.isBboxNormalized == isBboxNormalized && this.evaluateDifficult == evaluateDifficult
      ensures Valid() && Cleared()
      ensures fresh(scorePoss) && fresh(gtCounts) && fresh(aps)
    {
      this.classNum := classNum;
      this.overlapThresh := overlapThresh;
      this.mapType := mapType;
      this.isBboxNormalized := isBboxNormalized;
      this.evaluateDifficult := evaluateDifficult;
      scorePoss := new seq<Record>[classNum](_ => []);
      gtCounts := new nat[classNum](_ => 0);
      mAP := None;
      aps := new Option<real>[classNum](_ => None);
    }

    /** Discards everything gathered and computed, with fresh per-class tables. */
    method Reset()
      requires overlapThresh >= -1.0
      modifies this
      ensures Valid() && Cleared()
      ensures fresh(scorePoss) && fresh(gtCounts) && fresh(aps)
    {
      scorePoss := new seq<Record>[classNum](_ => []);
      gtCounts := new nat[classNum](_ => 0);
      mAP := None;
      aps := new Option<real>[classNum](_ => None);
    }

    /**
      Adds one image: every counted ground-truth box raises its class's
      count, and every detection is judged against the image's boxes, in
      order, and recorded in its class.
     */
    method Update(dets: seq<Detection>, gtBoxes: seq<Box>, gtLabels: seq<int>, difficult: Option<seq<bool>>)
      requires Valid()
      requires |gtLabels| <= |gtBoxes| && (difficult.Some? ==> |difficult.value| == |gtLabels|)
      requires forall k :: 0 <= k < |gtLabels| && Counted(Truth(gtBoxes, gtLabels, difficult), Config(), k) ==>
                 0 <= gtLabels[k] < classNum
      requires Admissible(dets, Truth(gtBoxes, gtLabels, difficult), Config(), classNum)
      modifies scorePoss, gtCounts
      ensures Valid()
      ensures forall c :: 0 <= c < classNum ==>
                gtCounts[c] == old(gtCounts[c]) + CountedOfClass(Truth(gtBoxes, gtLabels, difficult), Config(), c, |gtLabels|)
      ensures scorePoss[..] ==
                MatchAll(Unclaimed(old(scorePoss[..]), |gtLabels|), dets, Truth(gtBoxes, gtLabels, difficult), Config(), |dets|).records
    {
      var g, cfg := Truth(gtBoxes, gtLabels, difficult), Config();
      ghost var oldCounts, oldRecords := gtCounts[..], scorePoss[..];
      CountTruths(g);
      ghost var newCounts, init := gtCounts[..], Unclaimed(oldRecords, |gtLabels|);
      var visited := seq(|gtLabels|, _ => false);
      for i := 0 to |dets|
        invariant gtCounts[..] == newCounts
        invariant MatchState(scorePoss[..], visited) == MatchAll(init, dets, g, cfg, i)
      {
        visited := RecordDetection(dets[i], g, visited);
      }
      forall c | 0 <= c < classNum ensures Positives(scorePoss[c]) <= gtCounts[c] {
        PositivesWithinTruths(init, dets, g, cfg, c, oldCounts[c]);
      }
    }

    /** The first loop of update (detection_eval.py lines 652-654): every counted box raises its class's count. */
    method CountTruths(g: GroundTruth)
      requires gtCounts.Length == classNum && WellFormed(g)
      requires forall k :: 0 <= k < |g.labels| && Counted(g, Config(), k) ==> 0 <= g.labels[k] < classNum
      modifies gtCounts
      ensures forall c :: 0 <= c < classNum ==> gtCounts[c] == old(gtCounts[c]) + CountedOfClass(g, Config(), c, |g.labels|)
    {
      for k := 0 to |g.labels|
        invariant forall c :: 0 <= c < classNum ==> gtCounts[c] == old(gtCounts[c]) + CountedOfClass(g, Config(), c, k)
      {
        if evaluateDifficult || !g.difficult[k] {
          gtCounts[g.labels[k]] := gtCounts[g.labels[k]] + 1;
        }
      }
    }

    /**
      Judges one detection of an update (detection_eval.py lines 659-680) against the image's
      ground truth and appends its record to its class; returns the claimed
      flags with the box of a true positive newly claimed.
     */
    method RecordDetection(d: Detection, g: GroundTruth, visited: seq<bool>) returns (claimed: seq<bool>)
      requires scorePoss.Length == classNum && overlapThresh >= -1.0
      requires WellFormed(g) && |visited| == |g.labels|
      requires 0 <= d.cls < classNum && Comparable(d.box, d.cls, g, isBboxNormalized)
      modifies scorePoss
      ensures MatchState(scorePoss[..], claimed) == MatchStep(MatchState(old(scorePoss[..]), visited), d, g, Config())
    {
      claimed := visited;
      var maxIdx, maxOverlap := FindBestMatch(d.box, d.cls, g, isBboxNormalized);
      if maxOverlap > overlapThresh {
        if evaluateDifficult || !g.difficult[maxIdx] {
          if !visited[maxIdx] {
            scorePoss[d.cls] := scorePoss[d.cls] + [Record(d.score, true)];
            claimed := visited[maxIdx := true];
          } else {
            scorePoss[d.cls] := scorePoss[d.cls] + [Record(d.score, false)];
          }
        }
      } else {
        scorePoss[d.cls] := scorePoss[d.cls] + [Record(d.score, false)];
      }
    }

    /**
      Computes every class's AP and the mAP from the gathered records: classes
      without ground truth are skipped, classes with ground truth but no
      detections count with AP 0, and the others get their AP stored.
     */
    method Accumulate()
      requires Valid()
      modifies this`mAP, aps
      ensures Valid()
      ensures mAP == Some(MeanAP(scorePoss[..], gtCounts[..], mapType))
      ensures forall c :: 0 <= c < classNum ==> aps[c] == StoredAP(scorePoss[c], gtCounts[c], mapType, old(aps[c]))
    {
      ghost var recs, counts, before := scorePoss[..], gtCounts[..], aps[..];
      var total, validCnt := 0.0, 0;
      for c := 0 to classNum
        invariant Valid()
        invariant total == ApTotal(recs, counts, mapType, c)
        invariant validCnt == ValidClasses(counts, c)
        invariant forall k :: 0 <= k < c ==> aps[k] == StoredAP(recs[k], counts[k], mapType, before[k])
        invariant forall k :: c <= k < classNum ==> aps[k] == before[k]
      {
        var gain, valid := AccumulateClass(c);
        total := total + gain;
        if valid {
          validCnt := validCnt + 1;
        }
      }
      assert Balanced(recs, counts);
      MeanAPBounds(recs, counts, mapType);
      mAP := Some(if validCnt > 0 then total / validCnt as real else total);
    }

    /**
      One class of accumulate (detection_eval.py lines 697-740): a class without ground truth is
      skipped, one without detections is valid with AP 0, and any other gets
      its AP computed and stored.
     */
    method AccumulateClass(c: nat) returns (gain: real, valid: bool)
      requires Valid() && c < classNum
      modifies aps
      ensures Valid()
      ensures aps[c] == StoredAP(scorePoss[c], gtCounts[c], mapType, old(aps[c]))
      ensures forall k :: 0 <= k < classNum && k != c ==> aps[k] == old(aps[k])
      ensures valid <==> gtCounts[c] > 0
      ensures gain == if gtCounts[c] == 0 || |scorePoss[c]| == 0 then 0.0 else ClassAP(scorePoss[c], gtCounts[c], mapType)
    {
      var scorePos, count := scorePoss[c], gtCounts[c];
      gain, valid := 0.0, false;
      if count > 0 {
        if |scorePos| > 0 {
          var maxPrecisions;
          gain, maxPrecisions := ClassAveragePrecision(scorePos, count, mapType);
          aps[c] := Some(gain);
        }
        valid := true;
      }
    }

    /**
      One class of accumulate exactly as detection_eval.py lines 697-739 are
      written. The local max_precisions is `bound` on entry (None while
      unbound). Only the 11-point branch binds it, yet both branches store
      sum(max_precisions) / 11 (lines 726 and 738), so in integral mode the
      store reads an unbound local: Python raises UnboundLocalError and
      nothing is stored.
     */
    method AccumulateClassAsWritten(c: nat, bound: Option<seq<real>>)
      returns (gain: real, valid: bool, maxPrecisions: Option<seq<real>>, err: Option<string>)
      requires Valid() && c < classNum
      requires mapType == Integral ==> bound.None?
      modifies aps
      ensures Valid()
      ensures mapType == Integral ==> maxPrecisions.None?
      ensures err.Some? <==> mapType == Integral && gtCounts[c] > 0 && |scorePoss[c]| > 0
      ensures aps[c] == if err.Some? then old(aps[c]) else StoredAP(scorePoss[c], gtCounts[c], mapType, old(aps[c]))
      ensures forall k :: 0 <= k < classNum && k != c ==> aps[k] == old(aps[k])
      ensures valid <==> gtCounts[c] > 0
      ensures gain == if gtCounts[c] == 0 || |scorePoss[c]| == 0 then 0.0 else ClassAP(scorePoss[c], gtCounts[c], mapType)
    {
      var scorePos, count := scorePoss[c], gtCounts[c];
      gain, valid, maxPrecisions, err := 0.0, count > 0, bound, None;
      if count > 0 && |scorePos| > 0 {
        var m;
        gain, m := ClassAveragePrecision(scorePos, count, mapType);
        if m.Some? {
          maxPrecisions := m;
        }
        match maxPrecisions
        case None =>
          err := Some("UnboundLocalError: local variable 'max_precisions' referenced before assignment");
        case Some(levels) =>
          aps[c] := Some(Sum(levels) / 11.0);
      }
    }

    /**
      accumulate exactly as written: it raises (err is Some) precisely in
      integral mode when some class has both ground truth and detections,
      leaving mAP and the per-class APs as they were; otherwise it agrees
      with Accumulate.
     */
    method AccumulateAsWritten() returns (err: Option<string>)
      requires Valid()
      modifies this`mAP, aps
      ensures Valid()
      ensures err.Some? <==> mapType == Integral && SomeClassScored(scorePoss[..], gtCounts[..])
      ensures err.Some? ==> mAP == old(mAP) && forall k :: 0 <= k < classNum ==> aps[k] == old(aps[k])
      ensures err.None? ==> mAP == Some(MeanAP(scorePoss[..], gtCounts[..], mapType))
      ensures err.None? ==> forall c :: 0 <= c < classNum ==> aps[c] == StoredAP(scorePoss[c], gtCounts[c], mapType, old(aps[c]))
    {
      ghost var recs, counts, before := scorePoss[..], gtCounts[..], aps[..];
      var total, validCnt := 0.0, 0;
      var maxPrecisions: Option<seq<real>> := None;
      for c := 0 to classNum
        invariant Valid()
        invariant total == ApTotal(recs, counts, mapType, c)
        invariant validCnt == ValidClasses(counts, c)
        invariant forall k :: 0 <= k < classNum ==> aps[k] == if k < c then StoredAP(recs[k], counts[k], mapType, before[k]) else before[k]
        invariant mAP == old(mAP)
        invariant mapType == Integral ==> maxPrecisions.None? && forall k :: 0 <= k < c ==> counts[k] == 0 || |recs[k]| == 0
      {
        var gain, valid, e;
        gain, valid, maxPrecisions, e := AccumulateClassAsWritten(c, maxPrecisions);
        if e.Some? {
          assert counts[c] > 0 && |recs[c]| > 0;
          return e;
        }
        total := total + gain;
        if valid {
          validCnt := validCnt + 1;
        }
      }
      assert Balanced(recs, counts);
      MeanAPBounds(recs, counts, mapType);
      mAP := Some(if validCnt > 0 then total / validCnt as real else total);
      err := None;
    }

    /** The last computed mAP, or an error before the first accumulate. */
    function GetMap(): (r: Result<real, string>)
      reads this, scorePoss, gtCounts, aps
      ensures r.Failure? <==> mAP.None?
      ensures r.Success? ==> r.value == mAP.value
      ensures Valid() && r.Success? ==> 0.0 <= r.value <= 1.0
    {
      if mAP.None? then Failure("mAP is not calculated.") else Success(mAP.value)
    }
  }

  /**
    The finding's input: an integral-mode evaluator for one class, one image
    with one ground-truth box of class 0 and one detection of class 0 on that
    same box. accumulate as written raises.
   */
  method IntegralModeRaisesOnOneMatch() returns (err: Option<string>)
    ensures err.Some?
  {
    var e := new DetectionMAP(1, 0.5, Integral, false, false);
    var box := Box(0.0, 0.0, 10.0, 10.0);
    OneMatchIsTruePositive(box);
    assert e.scorePoss[..] == [[]];
    e.Update([Detection(0, 0.9, box)], [box], [0], None);
    assert e.gtCounts[0] > 0 && |e.scorePoss[0]| > 0;
    err := e.AccumulateAsWritten();
  }

  /** On that input the detection claims the box it lies on: class 0 gets one true-positive record. */
  lemma OneMatchIsTruePositive(box: Box)
    requires IsProper(box)
    ensures var g, cfg := Truth([box], [0], None), Settings(0.5, false, false);
      && Admissible([Detection(0, 0.9, box)], g, cfg, 1)
      && CountedOfClass(g, cfg, 0, 1) == 1
      && MatchAll(Unclaimed([[]], 1), [Detection(0, 0.9, box)], g, cfg, 1).records == [[Record(0.9, true)]]
  {
    var g, cfg := Truth([box], [0], None), Settings(0.5, false, false);
    var d, st := Detection(0, 0.9, box), Unclaimed([[]], 1);
    OverlapOfSelf(box, false);
    assert !g.difficult[0] && !st.visited[0];
    assert CountedOfClass(g, cfg, 0, 1) == CountedOfClass(g, cfg, 0, 0) + 1;
    var m := BestMatch(box, 0, g, false, 1);
    assert m.0 == 0 && m.1 == 1.0;
    assert Judge(m, g, cfg, st.visited) == TruePositive(0);
    var r := MatchStep(st, d, g, cfg);
    assert r.records == [[] + [Record(0.9, true)]];
    assert [] + [Record(0.9, true)] == [Record(0.9, true)];
    assert MatchAll(st, [d], g, cfg, 1) == r;
  }

  /** The same input through the corrected accumulate: the one class scores AP 1, so mAP is 1. */
  method IntegralModeScoresOneMatch() returns (r: Result<real, string>)
    ensures r == Success(1.0)
  {
    var e := new DetectionMAP(1, 0.5, Integral, false, false);
    var box := Box(0.0, 0.0, 10.0, 10.0);
    OverlapOfSelf(box, false);
    OneMatchIsTruePositive(box);
    assert e.scorePoss[..] == [[]];
    e.Update([Detection(0, 0.9, box)], [box], [0], None);
    var recs, counts := e.scorePoss[..], e.gtCounts[..];
    assert recs == [[Record(0.9, true)]];
    assert counts == [1] by {
      assert e.gtCounts[0] == 1;
    }
    PerfectDetectionsScoreOne([Record(0.9, true)], Integral);
    assert MeanAP(recs, counts, Integral) == 1.0 by {
      assert ValidClasses(counts, 1) == 1;
      assert ApTotal(recs, counts, Integral, 1) == 1.0;
    }
    e.Accumulate();
    r := e.GetMap();
  }
}
