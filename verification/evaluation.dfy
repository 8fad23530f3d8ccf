/** The metric slice of `process_batch_file_with_all_models`
    (predictor_service.py lines 1046-1060): when the uploaded table carries an
    `actual_label` column, the ensemble's classes are scored against it on the
    rows where both are present. */
module Evaluation {
  import opened Wrappers
  import opened Values
  import opened Ensemble

  /** The metrics sheet (lines 1055-1061). */
  datatype Metrics = Metrics(accuracy: real, precision: real, recall: real, f1: real, auc: real)

  /** What the slice yields: no sheet when no row qualifies (line 1049), no
      sheet when a metric call raises (lines 1079-1082), or the five metrics. */
  datatype Evaluation = NoValidRows | MetricsFailed | Scored(metrics: Metrics)

  /** `roc_auc_score` over labels and scores, None when it raises. */
  type AucScore = (seq<Bit>, seq<Option<Prob>>) -> Option<real>

  /** A row qualifies when its ensemble class is non-null and its label is not
      NaN (lines 1046-1047). A missing label is None. */
  predicate Qualifies(rows: seq<EnsembleRow>, labels: seq<Option<Bit>>, i: int)
    requires |rows| == |labels|
  {
    0 <= i < |rows| && rows[i].prediction.Some? && labels[i].Some?
  }

  /** The qualifying indices below n, in increasing order. */
  function ValidPrefix(rows: seq<EnsembleRow>, labels: seq<Option<Bit>>, n: nat): (ix: seq<nat>)
    requires |rows| == |labels| && n <= |rows|
    ensures forall k :: 0 <= k < |ix| ==> ix[k] < n
    ensures forall k, l :: 0 <= k < l < |ix| ==> ix[k] < ix[l]
    ensures forall i :: i in ix <==> i < n && Qualifies(rows, labels, i)
  {
    if n == 0 then []
    else
      var ix := ValidPrefix(rows, labels, n - 1);
      if Qualifies(rows, labels, n - 1) then ix + [n - 1] else ix
  }

  /** `valid_indices` (lines 1046-1047). */
  function ValidIndices(rows: seq<EnsembleRow>, labels: seq<Option<Bit>>): (ix: seq<nat>)
    requires |rows| == |labels|
    ensures forall k :: 0 <= k < |ix| ==> Qualifies(rows, labels, ix[k])
    ensures forall i :: i in ix <==> Qualifies(rows, labels, i)
    ensures forall k, l :: 0 <= k < l < |ix| ==> ix[k] < ix[l]
  {
    var ix := ValidPrefix(rows, labels, |rows|);
    assert forall k :: 0 <= k < |ix| ==> ix[k] in ix;
    ix
  }

  /** `valid_labels` (line 1052). */
  function ValidLabels(rows: seq<EnsembleRow>, labels: seq<Option<Bit>>): (ys: seq<Bit>)
    requires |rows| == |labels|
    ensures |ys| == |ValidIndices(rows, labels)|
  {
    var ix := ValidIndices(rows, labels);
    seq(|ix|, k requires 0 <= k < |ix| => labels[ix[k]].value)
  }

  /** `valid_preds` (line 1050). */
  function ValidPredictions(rows: seq<EnsembleRow>, labels: seq<Option<Bit>>): (ps: seq<Bit>)
    requires |rows| == |labels|
    ensures |ps| == |ValidIndices(rows, labels)|
  {
    var ix := ValidIndices(rows, labels);
    seq(|ix|, k requires 0 <= k < |ix| => rows[ix[k]].prediction.value)
  }

  /** `valid_probas` (line 1051). */
  function ValidProbabilities(rows: seq<EnsembleRow>, labels: seq<Option<Bit>>): (qs: seq<Option<Prob>>)
    requires |rows| == |labels|
    ensures |qs| == |ValidIndices(rows, labels)|
  {
    var ix := ValidIndices(rows, labels);
    seq(|ix|, k requires 0 <= k < |ix| => rows[ix[k]].probability)
  }

  // ---------------------------------------------------------------------------
  // Confusion counts and the sklearn formulas

  /** How many positions hold label y and prediction p. */
  function Count(ys: seq<Bit>, ps: seq<Bit>, y: Bit, p: Bit): (n: nat)
    requires |ys| == |ps|
    ensures n <= |ys|
  {
    if ys == [] then 0
    else
      var m := |ys| - 1;
      Count(ys[..m], ps[..m], y, p) + (if ys[m] == y && ps[m] == p then 1 else 0)
  }

  /** The positions holding label y and prediction p. */
  function Where(ys: seq<Bit>, ps: seq<Bit>, y: Bit, p: Bit): set<nat>
    requires |ys| == |ps|
  {
    set i: nat | i < |ys| && ys[i] == y && ps[i] == p
  }

  datatype Confusion = Confusion(truePos: nat, falsePos: nat, falseNeg: nat, trueNeg: nat)

  /** The confusion counts, positive class 1. */
  function Tally(ys: seq<Bit>, ps: seq<Bit>): (c: Confusion)
    requires |ys| == |ps|
    ensures c.truePos + c.falsePos + c.falseNeg + c.trueNeg == |ys|
  {
    CountsPartition(ys, ps);
    Confusion(Count(ys, ps, 1, 1), Count(ys, ps, 0, 1), Count(ys, ps, 1, 0), Count(ys, ps, 0, 0))
  }

  /** `a / b` with `zero_division=0`. */
  function Ratio(a: nat, b: nat): (r: real)
    ensures b == 0 ==> r == 0.0
    ensures b > 0 ==> r * (b as real) == a as real
    ensures 0.0 <= r
    ensures a <= b ==> r <= 1.0
  {
    if b == 0 then 0.0 else a as real / b as real
  }

  /** `accuracy_score`: the share of rows whose class equals the label. */
  function Accuracy(c: Confusion): real {
    Ratio(c.truePos + c.trueNeg, c.truePos + c.falsePos + c.falseNeg + c.trueNeg)
  }

  /** `precision_score(..., zero_division=0)`. */
  function Precision(c: Confusion): real {
    Ratio(c.truePos, c.truePos + c.falsePos)
  }

  /** `recall_score(..., zero_division=0)`. */
  function Recall(c: Confusion): real {
    Ratio(c.truePos, c.truePos + c.falseNeg)
  }

  /** `f1_score(..., zero_division=0)`, in sklearn's count form. */
  function F1(c: Confusion): real {
    Ratio(2 * c.truePos, 2 * c.truePos + c.falsePos + c.falseNeg)
  }

  /** `len(set(valid_labels)) > 1` (line 1060). */
  predicate TwoClasses(ys: seq<Bit>) {
    |set y | y in ys| > 1
  }

  /** Lines 1046-1060 on the ensemble rows and the label column. */
  function Evaluate(rows: seq<EnsembleRow>, labels: seq<Option<Bit>>, auc: AucScore): (e: Evaluation)
    requires |rows| == |labels|
    ensures e == NoValidRows <==> forall i :: 0 <= i < |rows| ==> !Qualifies(rows, labels, i)
    ensures e == MetricsFailed ==>
      && (exists i, j :: Qualifies(rows, labels, i) && Qualifies(rows, labels, j) && labels[i] != labels[j])
      && auc(ValidLabels(rows, labels), ValidProbabilities(rows, labels)).None?
    ensures e.Scored? ==>
      && 0.0 <= e.metrics.accuracy <= 1.0
      && 0.0 <= e.metrics.precision <= 1.0
      && 0.0 <= e.metrics.recall <= 1.0
      && 0.0 <= e.metrics.f1 <= 1.0
  {
    var ix := ValidIndices(rows, labels);
    if ix == [] then
      assert forall i :: 0 <= i < |rows| ==> !Qualifies(rows, labels, i);
      NoValidRows
    else
      assert Qualifies(rows, labels, ix[0]);
      var ys := ValidLabels(rows, labels);
      var c := Tally(ys, ValidPredictions(rows, labels));
      var a := if TwoClasses(ys) then auc(ys, ValidProbabilities(rows, labels)) else Some(0.0);
      if a.None? then
        TwoClassesDiffer(rows, labels);
        MetricsFailed
      else
        Scored(Metrics(Accuracy(c), Precision(c), Recall(c), F1(c), a.value))
  }

  // ---------------------------------------------------------------------------
  // Lemmas

  /** Every position falls in exactly one cell of the confusion matrix. */
  lemma {:induction false} CountsPartition(ys: seq<Bit>, ps: seq<Bit>)
    requires |ys| == |ps|
    ensures Count(ys, ps, 1, 1) + Count(ys, ps, 0, 1) + Count(ys, ps, 1, 0) + Count(ys, ps, 0, 0) == |ys|
  {
    if ys != [] {
      var m := |ys| - 1;
      CountsPartition(ys[..m], ps[..m]);
    }
  }

  /** The recursive count is the number of matching positions. */
  lemma {:induction false} CountIsCardinality(ys: seq<Bit>, ps: seq<Bit>, y: Bit, p: Bit)
    requires |ys| == |ps|
    ensures Count(ys, ps, y, p) == |Where(ys, ps, y, p)|
  {
    if ys == [] {
      assert Where(ys, ps, y, p) == {};
    } else {
      var m := |ys| - 1;
      var init := Where(ys[..m], ps[..m], y, p);
      CountIsCardinality(ys[..m], ps[..m], y, p);
      assert m !in init;
      if ys[m] == y && ps[m] == p {
        assert Where(ys, ps, y, p) == init + {m};
      } else {
        assert Where(ys, ps, y, p) == init;
      }
    }
  }

  /** Two classes remain exactly when two qualifying rows carry different labels. */
  lemma TwoClassesDiffer(rows: seq<EnsembleRow>, labels: seq<Option<Bit>>)
    requires |rows| == |labels|
    ensures TwoClasses(ValidLabels(rows, labels)) <==>
      exists i, j :: Qualifies(rows, labels, i) && Qualifies(rows, labels, j) && labels[i] != labels[j]
  {
    if TwoClasses(ValidLabels(rows, labels)) {
      var i, j := DifferingRows(rows, labels);
    }
    if exists i, j :: Qualifies(rows, labels, i) && Qualifies(rows, labels, j) && labels[i] != labels[j] {
      var i, j :| Qualifies(rows, labels, i) && Qualifies(rows, labels, j) && labels[i] != labels[j];
      DifferingRowsTwoClasses(rows, labels, i, j);
    }
  }

  /** Two classes among the valid labels come from two qualifying rows. */
  lemma DifferingRows(rows: seq<EnsembleRow>, labels: seq<Option<Bit>>) returns (i: int, j: int)
    requires |rows| == |labels|
    requires TwoClasses(ValidLabels(rows, labels))
    ensures Qualifies(rows, labels, i) && Qualifies(rows, labels, j) && labels[i] != labels[j]
  {
    var ix := ValidIndices(rows, labels);
    var ys := ValidLabels(rows, labels);
    var k, l := LabelsDiffer(ys);
    i, j := ix[k], ix[l];
  }

  /** Two qualifying rows with different labels give two classes. */
  lemma DifferingRowsTwoClasses(rows: seq<EnsembleRow>, labels: seq<Option<Bit>>, i: int, j: int)
    requires |rows| == |labels|
    requires Qualifies(rows, labels, i) && Qualifies(rows, labels, j) && labels[i] != labels[j]
    ensures TwoClasses(ValidLabels(rows, labels))
  {
    var ix := ValidIndices(rows, labels);
    var ys := ValidLabels(rows, labels);
    assert i in ix && j in ix;
    var k :| 0 <= k < |ix| && ix[k] == i;
    var l :| 0 <= l < |ix| && ix[l] == j;
    BothLabels(ys, k, l);
  }

  /** More than one distinct label means two positions that differ. */
  lemma LabelsDiffer(ys: seq<Bit>) returns (k: nat, l: nat)
    requires TwoClasses(ys)
    ensures k < |ys| && l < |ys| && ys[k] != ys[l]
  {
    if ys != [] && exists m :: 0 <= m < |ys| && ys[m] != ys[0] {
      k := 0;
      l :| 0 <= l < |ys| && ys[l] != ys[0];
    } else {
      OneClass(ys);
      assert false;
    }
  }

  /** A list whose labels all equal the first holds at most one class. */
  lemma OneClass(ys: seq<Bit>)
    requires forall i :: 0 <= i < |ys| ==> ys[i] == ys[0]
    ensures !TwoClasses(ys)
  {
    if ys == [] {
      assert (set y | y in ys) == {};
    } else {
      assert (set y | y in ys) == {ys[0]};
    }
  }

  /** Two positions that differ give two distinct labels. */
  lemma BothLabels(ys: seq<Bit>, k: nat, l: nat)
    requires k < |ys| && l < |ys| && ys[k] != ys[l]
    ensures TwoClasses(ys)
  {
    var s := set y | y in ys;
    assert ys[k] in s && ys[l] in s;
    assert s == {0, 1};
  }

  /** sklearn's F1 in count form is the harmonic mean of precision and recall
      whenever either is positive, and 0 otherwise. */
  lemma F1IsHarmonicMean(c: Confusion)
    ensures c.truePos == 0 ==> F1(c) == 0.0
    ensures Precision(c) + Recall(c) > 0.0 ==>
      F1(c) == 2.0 * Precision(c) * Recall(c) / (Precision(c) + Recall(c))
    ensures Precision(c) + Recall(c) == 0.0 ==> F1(c) == 0.0
  {
    if c.truePos == 0 {
      NoHitsScoreZero(c);
    } else {
      HitsScoreHarmonic(c);
    }
  }

  lemma NoHitsScoreZero(c: Confusion)
    requires c.truePos == 0
    ensures Precision(c) == 0.0 && Recall(c) == 0.0 && F1(c) == 0.0
  {
  }

  lemma HitsScoreHarmonic(c: Confusion)
    requires c.truePos > 0
    ensures Precision(c) + Recall(c) > 0.0
    ensures F1(c) == 2.0 * Precision(c) * Recall(c) / (Precision(c) + Recall(c))
  {
    var t := c.truePos as real;
    var a := (c.truePos + c.falsePos) as real;
    var b := (c.truePos + c.falseNeg) as real;
    var p := Precision(c);
    var r := Recall(c);
    assert p * a == t && r * b == t;
    HarmonicCountForm(t, a, b, p, r);
  }

  lemma HarmonicCountForm(t: real, a: real, b: real, p: real, r: real)
    requires t > 0.0 && a > 0.0 && b > 0.0
    requires p * a == t && r * b == t
    ensures p + r > 0.0
    ensures 2.0 * p * r / (p + r) == 2.0 * t / (a + b)
  {
    assert p == t / a && r == t / b;
    assert p + r == t * (a + b) / (a * b);
    assert 2.0 * p * r == 2.0 * t * t / (a * b);
  }

  /** Accuracy is the share of positions where class and label agree. */
  lemma AccuracyIsAgreement(ys: seq<Bit>, ps: seq<Bit>)
    requires |ys| == |ps|
    ensures var c := Tally(ys, ps);
      c.truePos + c.trueNeg == |set i: nat | i < |ys| && ys[i] == ps[i]|
  {
    CountIsCardinality(ys, ps, 1, 1);
    CountIsCardinality(ys, ps, 0, 0);
    var agree := set i: nat | i < |ys| && ys[i] == ps[i];
    assert agree == Where(ys, ps, 1, 1) + Where(ys, ps, 0, 0);
    assert Where(ys, ps, 1, 1) !! Where(ys, ps, 0, 0);
  }

  /** A scored evaluation holds the four formulas over the qualifying rows'
      confusion counts; AUC is `roc_auc_score` when both classes remain, and 0
      when every qualifying row carries the same label. */
  lemma ScoredMetrics(rows: seq<EnsembleRow>, labels: seq<Option<Bit>>, auc: AucScore)
    requires |rows| == |labels|
    requires Evaluate(rows, labels, auc).Scored?
    ensures var ys := ValidLabels(rows, labels);
      var c := Tally(ys, ValidPredictions(rows, labels));
      var m := Evaluate(rows, labels, auc).metrics;
      && m.accuracy == Accuracy(c) && m.precision == Precision(c) && m.recall == Recall(c) && m.f1 == F1(c)
      && (TwoClasses(ys) ==> auc(ys, ValidProbabilities(rows, labels)) == Some(m.auc))
    ensures (forall i, j :: Qualifies(rows, labels, i) && Qualifies(rows, labels, j) ==> labels[i] == labels[j]) ==>
      Evaluate(rows, labels, auc).metrics.auc == 0.0
  {
    TwoClassesDiffer(rows, labels);
  }

  /** The evaluation reads only the qualifying rows: two tables that qualify
      the same rows and agree on them are scored alike. */
  lemma OnlyQualifyingRowsCount(rows: seq<EnsembleRow>, labels: seq<Option<Bit>>,
                                rows': seq<EnsembleRow>, labels': seq<Option<Bit>>, auc: AucScore)
    requires |rows| == |labels| == |rows'| == |labels'|
    requires forall i :: Qualifies(rows, labels, i) <==> Qualifies(rows', labels', i)
    requires forall i :: Qualifies(rows, labels, i) ==>
      rows[i].prediction == rows'[i].prediction && rows[i].probability == rows'[i].probability && labels[i] == labels'[i]
    ensures Evaluate(rows, labels, auc) == Evaluate(rows', labels', auc)
  {
    SamePrefix(rows, labels, rows', labels', |rows|);
    var ix := ValidIndices(rows, labels);
    assert ValidLabels(rows, labels) == ValidLabels(rows', labels');
    assert ValidPredictions(rows, labels) == ValidPredictions(rows', labels');
    assert ValidProbabilities(rows, labels) == ValidProbabilities(rows', labels');
  }

  lemma {:induction false} SamePrefix(rows: seq<EnsembleRow>, labels: seq<Option<Bit>>,
                                      rows': seq<EnsembleRow>, labels': seq<Option<Bit>>, n: nat)
    requires |rows| == |labels| == |rows'| == |labels'| && n <= |rows|
    requires forall i :: Qualifies(rows, labels, i) <==> Qualifies(rows', labels', i)
    ensures ValidPrefix(rows, labels, n) == ValidPrefix(rows', labels', n)
  {
    if n > 0 {
      SamePrefix(rows, labels, rows', labels', n - 1);
    }
  }

  /** On the ensemble's own output every qualifying row carries a probability,
      so the scores handed to `roc_auc_score` are never null. */
  lemma EnsembleRowsHaveScores<M>(c: Classifier<M>, reg: seq<Entry<M>>, rows: seq<FeatureRow>,
                                  labels: seq<Option<Bit>>)
    requires PredictBatchAll(c, reg, rows).Success?
    requires |labels| == |rows|
    ensures var res := PredictBatchAll(c, reg, rows).value;
      forall k :: 0 <= k < |ValidIndices(res.rows, labels)| ==> ValidProbabilities(res.rows, labels)[k].Some?
  {
    var res := PredictBatchAll(c, reg, rows).value;
    var ix := ValidIndices(res.rows, labels);
    forall k | 0 <= k < |ix|
      ensures ValidProbabilities(res.rows, labels)[k].Some?
    {
      assert Qualifies(res.rows, labels, ix[k]);
      EnsembleRows(c, reg, rows, ix[k]);
    }
  }
}
