/**
  Ranking one class's (score, pos) records by confidence and accumulating
  true- and false-positive counts down the ranking.
 */
module Ranking {

  /** One judged detection: its confidence and whether it was a true positive. */
  datatype Record = Record(score: real, pos: bool)

  /** Number of true-positive records. */
  function Positives(s: seq<Record>): nat {
    if |s| == 0 then 0 else (if s[0].pos then 1 else 0) + Positives(s[1..])
  }

  lemma {:induction false} PositivesConcat(a: seq<Record>, b: seq<Record>)
    ensures Positives(a + b) == Positives(a) + Positives(b)
  {
    if |a| > 0 {
      assert (a + b)[1..] == a[1..] + b;
      PositivesConcat(a[1..], b);
    } else {
      assert a + b == b;
    }
  }

  lemma {:induction false} PositivesAtMostLength(s: seq<Record>)
    ensures Positives(s) <= |s|
  {
    if |s| > 0 {
      PositivesAtMostLength(s[1..]);
    }
  }

  /** The true positives among the first i + 1 records extend those among the first i by record i. */
  lemma PositivesOfLongerPrefix(s: seq<Record>, i: nat)
    requires i < |s|
    ensures Positives(s[..i + 1]) == Positives(s[..i]) + (if s[i].pos then 1 else 0)
  {
    assert s[..i + 1] == s[..i] + [s[i]];
    PositivesConcat(s[..i], [s[i]]);
  }

  /** Prefixes of a ranking never lose true positives. */
  lemma PositivesOfPrefixGrow(s: seq<Record>, i: nat, j: nat)
    requires i <= j <= |s|
    ensures Positives(s[..i]) <= Positives(s[..j])
  {
    assert s[..j] == s[..i] + s[i..j];
    PositivesConcat(s[..i], s[i..j]);
  }

  /** Scores never increase along the ranking. */
  predicate SortedByScore(s: seq<Record>) {
    forall i, j :: 0 <= i < j < |s| ==> s[i].score >= s[j].score
  }

  /** The records of s with score exactly v, in their order in s. */
  function WithScore(s: seq<Record>, v: real): seq<Record> {
    if |s| == 0 then []
    else (if s[0].score == v then [s[0]] else []) + WithScore(s[1..], v)
  }

  lemma {:induction false} WithScoreConcat(a: seq<Record>, b: seq<Record>, v: real)
    ensures WithScore(a + b, v) == WithScore(a, v) + WithScore(b, v)
  {
    if |a| > 0 {
      assert (a + b)[1..] == a[1..] + b;
      WithScoreConcat(a[1..], b, v);
    } else {
      assert a + b == b;
    }
  }

  /** Inserts x into a descending ranking after every record scored at least as high as x. */
  function Insert(s: seq<Record>, x: Record): (r: seq<Record>)
    ensures |r| == |s| + 1
  {
    if |s| == 0 then [x]
    else if s[0].score >= x.score then [s[0]] + Insert(s[1..], x)
    else [x] + s
  }

  /**
    Stable sort by descending score (the effect of `sorted(..., reverse=True)`
    keyed on the score): records are inserted in input order, each after the
    records already placed with a score at least as high.
   */
  function SortByScore(rs: seq<Record>): (s: seq<Record>)
    ensures |s| == |rs|
  {
    if |rs| == 0 then [] else Insert(SortByScore(rs[..|rs| - 1]), rs[|rs| - 1])
  }

  /** No record of s scores above b. */
  predicate ScoredAtMost(s: seq<Record>, b: real) {
    forall i :: 0 <= i < |s| ==> s[i].score <= b
  }

  lemma SortedCons(a: Record, t: seq<Record>)
    requires SortedByScore(t) && ScoredAtMost(t, a.score)
    ensures SortedByScore([a] + t)
  {
    var r := [a] + t;
    forall i, j | 0 <= i < j < |r| ensures r[i].score >= r[j].score {
      assert r[j] == t[j - 1];
      if i > 0 {
        assert r[i] == t[i - 1];
      }
    }
  }

  lemma {:induction false} InsertScoredAtMost(s: seq<Record>, x: Record, b: real)
    requires ScoredAtMost(s, b) && x.score <= b
    ensures ScoredAtMost(Insert(s, x), b)
  {
    if |s| > 0 && s[0].score >= x.score {
      InsertScoredAtMost(s[1..], x, b);
      assert Insert(s, x) == [s[0]] + Insert(s[1..], x);
    }
  }

  lemma {:induction false} InsertKeepsOrder(s: seq<Record>, x: Record)
    requires SortedByScore(s)
    ensures SortedByScore(Insert(s, x))
  {
    if |s| > 0 {
      if s[0].score >= x.score {
        InsertKeepsOrder(s[1..], x);
        InsertScoredAtMost(s[1..], x, s[0].score);
        SortedCons(s[0], Insert(s[1..], x));
      } else {
        SortedCons(x, s);
      }
    }
  }

  lemma {:induction false} InsertKeepsRecords(s: seq<Record>, x: Record)
    ensures multiset(Insert(s, x)) == multiset(s) + multiset{x}
    ensures Positives(Insert(s, x)) == Positives(s) + (if x.pos then 1 else 0)
  {
    if |s| > 0 && s[0].score >= x.score {
      InsertKeepsRecords(s[1..], x);
      assert s == [s[0]] + s[1..];
      assert Insert(s, x)[1..] == Insert(s[1..], x);
    }
  }

  /** Inserting x extends each equal-score group of a descending ranking by x at its end. */
  lemma {:induction false} InsertIsStable(s: seq<Record>, x: Record, v: real)
    requires SortedByScore(s)
    ensures WithScore(Insert(s, x), v) == WithScore(s, v) + WithScore([x], v)
  {
    if |s| == 0 {
    } else if s[0].score >= x.score {
      InsertIsStable(s[1..], x, v);
      assert s == [s[0]] + s[1..];
      assert Insert(s, x) == [s[0]] + Insert(s[1..], x);
      WithScoreConcat([s[0]], Insert(s[1..], x), v);
      WithScoreConcat([s[0]], s[1..], v);
    } else {
      WithScoreConcat([x], s, v);
      if x.score == v {
        NoneScoredAbove(s, v);
      }
    }
  }

  lemma {:induction false} NoneScoredAbove(s: seq<Record>, v: real)
    requires SortedByScore(s)
    requires |s| > 0 ==> s[0].score < v
    ensures WithScore(s, v) == []
  {
    if |s| > 0 {
      NoneScoredAbove(s[1..], v);
    }
  }

  /**
    SortByScore yields a descending ranking that is a permutation of its input
    and keeps records of equal score in input order.
   */
  lemma {:induction false} SortByScoreIsStableSort(rs: seq<Record>)
    ensures SortedByScore(SortByScore(rs))
    ensures multiset(SortByScore(rs)) == multiset(rs)
    ensures forall v :: WithScore(SortByScore(rs), v) == WithScore(rs, v)
    ensures Positives(SortByScore(rs)) == Positives(rs)
  {
    if |rs| > 0 {
      var init, last := rs[..|rs| - 1], rs[|rs| - 1];
      assert rs == init + [last];
      SortByScoreIsStableSort(init);
      InsertKeepsOrder(SortByScore(init), last);
      InsertKeepsRecords(SortByScore(init), last);
      PositivesConcat(init, [last]);
      forall v ensures WithScore(SortByScore(rs), v) == WithScore(rs, v) {
        InsertIsStable(SortByScore(init), last, v);
        WithScoreConcat(init, [last], v);
      }
    }
  }

  /**
    Cumulative true- and false-positive counts down the ranking of `records`:
    entry i counts the first i + 1 ranked records.
   */
  method GetTpFpAccum(records: seq<Record>) returns (tp: seq<nat>, fp: seq<nat>)
    ensures |tp| == |records| && |fp| == |records|
    ensures forall i :: 0 <= i < |records| ==> tp[i] == Positives(SortByScore(records)[..i + 1])
    ensures forall i :: 0 <= i < |records| ==> tp[i] + fp[i] == i + 1
    ensures forall i, j :: 0 <= i <= j < |records| ==> tp[i] <= tp[j] && fp[i] <= fp[j]
    ensures |records| > 0 ==> tp[|records| - 1] == Positives(records)
  {
    var sorted := SortByScore(records);
    var accumTp, accumFp := 0, 0;
    tp, fp := [], [];
    for i := 0 to |sorted|
      invariant |tp| == i && |fp| == i
      invariant accumTp == Positives(sorted[..i]) && accumTp + accumFp == i
      invariant forall k :: 0 <= k < i ==> tp[k] == Positives(sorted[..k + 1]) && tp[k] + fp[k] == k + 1
      invariant forall k :: 0 <= k < i ==> tp[k] <= accumTp && fp[k] <= accumFp
      invariant forall k, l :: 0 <= k <= l < i ==> tp[k] <= tp[l] && fp[k] <= fp[l]
    {
      PositivesOfLongerPrefix(sorted, i);
      var pos := if sorted[i].pos then 1 else 0;
      accumTp := accumTp + pos;
      tp := tp + [accumTp];
      accumFp := accumFp + (1 - pos);
      fp := fp + [accumFp];
    }
    if |records| > 0 {
      assert sorted[..|records|] == sorted;
      SortByScoreIsStableSort(records);
    }
  }

  /** Fraction of true positives among the first i + 1 ranked records. */
  function PrecisionAt(s: seq<Record>, i: nat): real
    requires i < |s|
  {
    Positives(s[..i + 1]) as real / (i + 1) as real
  }

  /** Fraction of the count ground truths found by the first i + 1 ranked records. */
  function RecallAt(s: seq<Record>, i: nat, count: nat): real
    requires i < |s| && count > 0
  {
    Positives(s[..i + 1]) as real / count as real
  }

  function PrecisionCurve(s: seq<Record>): (p: seq<real>)
    ensures |p| == |s|
  {
    seq(|s|, i requires 0 <= i < |s| => PrecisionAt(s, i))
  }

  function RecallCurve(s: seq<Record>, count: nat): (r: seq<real>)
    requires count > 0
    ensures |r| == |s|
  {
    seq(|s|, i requires 0 <= i < |s| => RecallAt(s, i, count))
  }

  /** The precision and recall of every prefix of the ranking of `records`. */
  method PrecisionRecallCurve(records: seq<Record>, count: nat) returns (precision: seq<real>, recall: seq<real>)
    requires count > 0
    ensures precision == PrecisionCurve(SortByScore(records))
    ensures recall == RecallCurve(SortByScore(records), count)
  {
    var tp, fp := GetTpFpAccum(records);
    precision, recall := [], [];
    for i := 0 to |tp|
      invariant |precision| == i && |recall| == i
      invariant forall k :: 0 <= k < i ==> precision[k] == PrecisionAt(SortByScore(records), k)
      invariant forall k :: 0 <= k < i ==> recall[k] == RecallAt(SortByScore(records), k, count)
    {
      precision := precision + [tp[i] as real / (tp[i] + fp[i]) as real];
      recall := recall + [tp[i] as real / count as real];
    }
  }
}
