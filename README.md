# VOC detection mAP, modelled in Dafny

This project models the Pascal VOC style evaluator of PaddleX object
detection, `paddlex/cv/models/utils/detection_eval.py`. It covers:

- zero-padding removal (`prune_zero_padding`);
- box area and intersection-over-union (`bbox_area`, `jaccard_overlap`);
- the `DetectionMAP` class. `update` gathers each class's ground-truth
  count and (score, true-positive) records image by image. `accumulate`
  turns them into per-class average precisions (11-point or integral)
  and their mean. `get_map` reports the mean. `reset` clears everything.
  `_get_tp_fp_accum` ranks records by score and accumulates
  true-positive and false-positive counts.

Modules:

- `Options`: Option and Result.
- `Geometry`: boxes, area and overlap.
- `Padding`: `prune_zero_padding`.
- `Ranking`: the stable descending sort, tp/fp accumulation, and
  precision and recall curves.
- `AveragePrecision`: 11-point and integral reduction of a curve.
- `Matching`: greedy matching of one image's detections.
- `Evaluator`: per-class AP, mAP and the `DetectionMAP` class.

How values and code are modelled:

- Coordinates, scores, precisions and recalls are exact `real`s.
- Labels are `int`s, already truncated by `int(...)`. Difficult flags are
  `bool`s, where `int(diff) == 0` means not difficult.
- The per-class lists of the evaluator are arrays.
- Each loop of the source is a `method` with invariants. It is proved
  equal to a specification function. Properties of the evaluator are
  lemmas about those functions:
  - greedy matching is first-maximal;
  - true positives never outnumber counted ground truths;
  - the sort is stable;
  - the 11-point scan computes the interpolated envelope;
  - integral AP is the mean precision at hits;
  - every AP and the mAP lie in [0, 1].

## Model

| member | source | states |
|---|---|---|
| Padding.PruneZeroPadding | paddlex/cv/models/utils/detection_eval.py:567-575 | the boxes are the longest prefix without an all-zero box, ending at the first zero box; labels and flags are cut to the same count (Python slice semantics); absent flags stay absent |
| Geometry.Area | paddlex/cv/models/utils/detection_eval.py:578-585 | a box with positive extent has positive area, with or without the +1 pixel padding |
| Geometry.IntersectionWithin | paddlex/cv/models/utils/detection_eval.py:595-602 | the intersection of two overlapping proper boxes has positive area, no larger than either box's area |
| Geometry.OverlapBounds | paddlex/cv/models/utils/detection_eval.py:588-604 | for proper boxes the overlap is defined, lies in [0, 1], and is 0 exactly when the early-rejection test fires |
| Geometry.OverlapSymmetric | paddlex/cv/models/utils/detection_eval.py:588-604 | swapping prediction and ground truth changes neither definedness nor the overlap |
| Geometry.OverlapOfSelf | paddlex/cv/models/utils/detection_eval.py:588-604 | a proper box overlaps itself with ratio exactly 1 |
| Ranking.SortByScoreIsStableSort | paddlex/cv/models/utils/detection_eval.py:758 | the ranking is in descending score order, is a permutation of the records, keeps equal-score records in input order, and keeps the number of true positives |
| Ranking.GetTpFpAccum | paddlex/cv/models/utils/detection_eval.py:753-768 | entry i is the number of true positives among the first i + 1 ranked records; tp + fp = i + 1; both lists never decrease; the last tp is the total number of true positives |
| Ranking.PrecisionRecallCurve | paddlex/cv/models/utils/detection_eval.py:704-710 | the precision and recall lists are tp/(tp+fp) and tp/count of every prefix of the ranking |
| AveragePrecision.CurveShape | paddlex/cv/models/utils/detection_eval.py:704-710 | every ranking's curve has precision in [0, 1] and nonnegative, nondecreasing recall; it starts at precision 1 when the first recall is positive; recall stays at most 1 when true positives do not exceed the count |
| AveragePrecision.LeadingPrecision | paddlex/cv/models/utils/detection_eval.py:708-710 | a first ranked record that raises recall above 0 has precision 1 |
| AveragePrecision.MaxAtRecallIsMaximum | paddlex/cv/models/utils/detection_eval.py:712-724 | the interpolated precision at level t bounds every precision whose recall reaches t, is attained by one of them, and is 0 when none reaches t |
| AveragePrecision.ElevenPointMaxPrecisions | paddlex/cv/models/utils/detection_eval.py:712-724 | the downward scan with its moving start_idx leaves in slot j the interpolated precision at recall j/10, for all 11 levels |
| AveragePrecision.ElevenPointBounds | paddlex/cv/models/utils/detection_eval.py:725-726 | the mean of the 11 interpolated precisions of a curve lies in [0, 1] |
| AveragePrecision.ElevenPointAP | paddlex/cv/models/utils/detection_eval.py:712-726 | the 11-point branch binds max_precisions to the interpolated precisions at the 11 levels and yields their mean, which lies in [0, 1] |
| AveragePrecision.IntegralAP | paddlex/cv/models/utils/detection_eval.py:730-736 | the loop's ap is the integral fold: each recall move greater than 1e-6 adds its precision times the move and becomes the new previous recall |
| AveragePrecision.IntegralFoldBounds | paddlex/cv/models/utils/detection_eval.py:730-736 | throughout the loop 0 <= ap <= prev_recall, and prev_recall is at most the recall of the latest step |
| AveragePrecision.IntegralBounds | paddlex/cv/models/utils/detection_eval.py:730-737 | integral AP lies between 0 and the final recall |
| AveragePrecision.IntegralIsHitPrecisionMean | paddlex/cv/models/utils/detection_eval.py:730-736 | with fewer than a million ground truths, integral AP equals the sum of the precisions at the true-positive ranks divided by the count |
| Matching.BestMatch | paddlex/cv/models/utils/detection_eval.py:661-669 | the scan result is either the initial (-1, -1.0) or an index of a box of the detection's class together with that box's overlap |
| Matching.BestMatchIsFirstMaximal | paddlex/cv/models/utils/detection_eval.py:661-669 | the chosen overlap is at least that of every same-class box, and strictly greater than that of every same-class box before the chosen one (ties go to the first) |
| Matching.ProperBoxesMatch | paddlex/cv/models/utils/detection_eval.py:661-669 | a proper detection box always finds a match when a proper box of its class exists |
| Matching.FindBestMatch | paddlex/cv/models/utils/detection_eval.py:661-669 | the loop computes the (max_idx, max_overlap) pair of BestMatch |
| Matching.Judge | paddlex/cv/models/utils/detection_eval.py:671-680 | true positive iff above the threshold on a counted, unclaimed box (and it claims that box); ignored iff above the threshold on a difficult box that is not evaluated; otherwise false positive |
| Matching.MatchStepAccounting | paddlex/cv/models/utils/detection_eval.py:671-680 | one judged detection extends its class's list by at most one record (exactly one when difficult boxes are evaluated), gains a true positive exactly when it claims a box of that class, and claims only counted boxes |
| Matching.MatchAllAccounting | paddlex/cv/models/utils/detection_eval.py:657-680 | after an image, only counted boxes are claimed; each class's old records are a prefix of its list; its new true positives equal its newly claimed boxes; it gains at most one record per detection of the class, exactly one when difficult boxes are evaluated |
| Matching.PositivesWithinTruths | paddlex/cv/models/utils/detection_eval.py:651-680 | true positives of a class never exceed its counted ground truths: the bound survives an update |
| Evaluator.Truth | paddlex/cv/models/utils/detection_eval.py:648-649 | missing difficult flags read as all not difficult; given flags are used as they are |
| Evaluator.ClassAPBounds | paddlex/cv/models/utils/detection_eval.py:704-737 | a class's AP under either method lies in [0, 1] when its true positives do not exceed its ground-truth count |
| Evaluator.PerfectDetectionsScoreOne | paddlex/cv/models/utils/detection_eval.py:704-737 | a class whose detections are all true positives and find all its ground truths has AP exactly 1 under both methods |
| Evaluator.ClassAveragePrecision | paddlex/cv/models/utils/detection_eval.py:704-737 | the per-class computation (accumulation, curves, 11-point envelope mean or integral loop) yields the class's AP, in [0, 1] when true positives do not exceed the count; max_precisions is bound (to 11 values whose mean is the AP) exactly in 11-point mode |
| Evaluator.ApTotalBounds | paddlex/cv/models/utils/detection_eval.py:697-740 | the summed AP lies between 0 and the number of classes with ground truth |
| Evaluator.MeanAPBounds | paddlex/cv/models/utils/detection_eval.py:743 | mAP lies in [0, 1], and is 0 when no class has ground truth |
| Evaluator.MeanAPIgnoresClassesWithoutTruth | paddlex/cv/models/utils/detection_eval.py:697-699 | changing the records of classes without ground truth does not change mAP |
| Evaluator.DetectionMAP.constructor | paddlex/cv/models/utils/detection_eval.py:627-641 | the configuration is stored and the evaluator starts valid and cleared, with newly allocated per-class tables |
| Evaluator.DetectionMAP.Reset | paddlex/cv/models/utils/detection_eval.py:682-689 | fresh per-class tables: no records, zero counts, no APs, no mAP |
| Evaluator.DetectionMAP.Update | paddlex/cv/models/utils/detection_eval.py:643-680 | counts grow by the image's counted boxes per class; the records become those of judging the detections in order against the unclaimed boxes; the validity invariant (tp <= count per class) is kept |
| Evaluator.DetectionMAP.CountTruths | paddlex/cv/models/utils/detection_eval.py:652-654 | each class's count grows by its number of counted boxes (all boxes when difficult ones are evaluated) |
| Evaluator.DetectionMAP.RecordDetection | paddlex/cv/models/utils/detection_eval.py:659-680 | one detection updates the records and the claimed flags exactly as MatchStep does |
| Evaluator.DetectionMAP.Accumulate | paddlex/cv/models/utils/detection_eval.py:691-743 | mAP becomes MeanAP of the gathered records and counts; each class with ground truth and detections gets its AP stored, and every other class keeps its slot |
| Evaluator.DetectionMAP.AccumulateClass | paddlex/cv/models/utils/detection_eval.py:697-740 | one class is skipped without ground truth, valid with AP 0 without detections, and otherwise gets its AP computed and stored; other classes are untouched |
| Evaluator.DetectionMAP.AccumulateClassAsWritten | paddlex/cv/models/utils/detection_eval.py:697-739 | one class as written, with max_precisions unbound until the 11-point branch binds it: it fails exactly in integral mode on a class with ground truth and detections, storing nothing; otherwise it stores what AccumulateClass stores |
| Evaluator.DetectionMAP.AccumulateAsWritten | paddlex/cv/models/utils/detection_eval.py:691-743 | accumulate as written raises exactly when the mode is integral and some class has ground truth and detections, leaving mAP and every AP slot unchanged; otherwise it gives the same mAP and AP slots as Accumulate |
| Evaluator.OneMatchIsTruePositive | paddlex/cv/models/utils/detection_eval.py:648-680 | one ground-truth box of class 0 without difficult flags counts once, and a detection lying on it is recorded as one true positive |
| Evaluator.IntegralModeRaisesOnOneMatch | paddlex/cv/models/utils/detection_eval.py:627-738 | constructing an integral-mode evaluator, updating it with one box and one detection on it, and accumulating as written raises |
| Evaluator.IntegralModeScoresOneMatch | paddlex/cv/models/utils/detection_eval.py:627-751 | the same run through the corrected accumulate gives get_map = 1 |
| Evaluator.DetectionMAP.GetMap | paddlex/cv/models/utils/detection_eval.py:745-751 | an error before any accumulate, otherwise the stored mAP, which lies in [0, 1] |

## Left out

- Floating point: all arithmetic is exact real arithmetic, so rounding in the precision, recall and overlap divisions, and in the 1e-6 comparison, is not modelled.
- Geometry.JaccardOverlap: requires that the boxes be rejected early or have a non-zero union. The ZeroDivisionError raised for degenerate boxes whose union area is 0 is not modelled.
- Evaluator.DetectionMAP.Update: requires detection labels, and labels of counted ground-truth boxes, in [0, class_num). Python's negative-index wrap-around and the IndexError for larger labels are not modelled.
- Evaluator.DetectionMAP.Update: requires at least as many boxes as labels, and difficult flags exactly as many as labels. Python's `zip` truncation of a shorter flag list is not modelled, nor the IndexError for a missing box.
- Evaluator.DetectionMAP.constructor: requires an overlap threshold of at least -1. Below that, a detection without a same-class box passes the threshold test with max_idx = -1, and Python would index the last box's flags. That wrap-around is not modelled. Reset keeps the same requirement, because the threshold is part of the invariant it re-establishes.
- Evaluator.DetectionMAP.constructor: takes every argument explicitly. The keyword defaults of `__init__` (overlap_thresh 0.5, map_type '11point', is_bbox_normalized False, evaluate_difficult False) are not modelled, since Dafny constructors have no default arguments. The scenarios above pass 0.5 and False explicitly.
- The map_type assertion and the "Unsupported mAP type" exception: the two-valued MapType datatype makes other types impossible.
- AveragePrecision.IntegralIsHitPrecisionMean and Evaluator.PerfectDetectionsScoreOne: require fewer than one million ground truths (PerfectDetectionsScoreOne only in integral mode). Only then does every true positive move recall by more than the 1e-6 gap. With more, the integral method may merge steps, and these two statements do not cover that case.
- The detection array row layout (`b.tolist()`) and numpy conversions: a detection is already a (label, score, box) triple.
- The COCO evaluation functions, the result-formatting helpers and the evaluation driver around `DetectionMAP` are not part of this model. So are logging and the `100.` scaling done by the caller.
- Evaluator.DetectionMAP.Accumulate: in integral mode it stores the integral AP per class, which is the corrected behaviour (see Findings); AccumulateAsWritten keeps the behaviour as written.

## Findings

| source | as written | input that shows it | evidently intended | confidence | as-written member | corrected member |
|---|---|---|---|---|---|---|
| paddlex/cv/models/utils/detection_eval.py:738 | in integral mode the per-class AP is stored as `sum(max_precisions) / 11.`, but `max_precisions` is only assigned in the 11-point branch, so `accumulate` raises UnboundLocalError | map_type 'integral', class_num 1, one image with ground-truth box [0, 0, 10, 10] of class 0 and one class-0 detection with score 0.9 on the same box | store the integral `ap` just computed | not executed | Evaluator.DetectionMAP.AccumulateAsWritten (with Evaluator.IntegralModeRaisesOnOneMatch) | Evaluator.DetectionMAP.Accumulate (with Evaluator.IntegralModeScoresOneMatch) |
