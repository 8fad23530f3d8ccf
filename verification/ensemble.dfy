/** The ensemble engines of Predict/app/services/predictor_service.py:
    `predict_single` (lines 384-431), `predict_batch` (433-461), the per-row
    tier of `process_batch_file` (627) and `predict_batch_with_all_models`
    (893-964). The trained classifiers are opaque: a model handle of any type
    `M` and a pair of call functions that answer None when the call raises. */
module Ensemble {
  import opened Wrappers
  import opened Values
  import opened Risk

  /** One entry of the `models` dictionary: a key and its model, None when
      the model did not load. */
  datatype Entry<M> = Entry(key: string, model: Option<M>)

  /** The calls the engines make on a model, None meaning the call raised.
      `proba` is column 1 of `predict_proba` on one row; `predict` is the
      class `predict` returns for that row. */
  datatype Classifier<!M> = Classifier(proba: (M, FeatureRow) -> Option<Prob>,
                                      predict: (M, FeatureRow) -> Option<int>)

  /** Dictionary keys are unique. */
  predicate KeysDistinct<M>(reg: seq<Entry<M>>) {
    forall i, j :: 0 <= i < j < |reg| ==> reg[i].key != reg[j].key
  }

  datatype EnsembleError =
    | NotLoaded               // line 387: the `models` dictionary is empty
    | ModelUnavailable(key: string)  // line 444: no such key, or its model is None
    | BatchFailed(key: string)       // line 461: the vectorised call raised
    | NoModels                // line 910: no entry holds a model

  /** The entries that hold a model, in dictionary order, as (key, model). */
  function Loaded<M>(reg: seq<Entry<M>>): (l: seq<(string, M)>)
    ensures |l| <= |reg|
    ensures forall j :: 0 <= j < |reg| && reg[j].model.Some? ==> (reg[j].key, reg[j].model.value) in l
    ensures forall i :: 0 <= i < |l| ==> Entry(l[i].0, Some(l[i].1)) in reg
    ensures |reg| == 1 ==> l == (if reg[0].model.Some? then [(reg[0].key, reg[0].model.value)] else [])
  {
    if reg == [] then []
    else
      var rest := Loaded(reg[1..]);
      assert forall j :: 1 <= j < |reg| ==> reg[j] == reg[1..][j - 1];
      if reg[0].model.Some? then [(reg[0].key, reg[0].model.value)] + rest else rest
  }

  /** Filtering distributes over concatenation: with the one-entry case of
      `Loaded`'s contract, the loaded models are the entries holding a model,
      each once, in dictionary order. */
  lemma {:induction false} LoadedAppend<M>(a: seq<Entry<M>>, b: seq<Entry<M>>)
    ensures Loaded(a + b) == Loaded(a) + Loaded(b)
  {
    if a != [] {
      assert (a + b)[0] == a[0];
      assert (a + b)[1..] == a[1..] + b;
      LoadedAppend(a[1..], b);
    } else {
      assert a + b == b;
    }
  }

  // ---------------------------------------------------------------------------
  // predict_single

  /** What `predict_single` records for one model. */
  datatype Outcome = Outcome(key: string, prediction: Option<int>, probability: Option<Prob>)

  datatype SingleResult = SingleResult(outcomes: seq<Outcome>, risk: RiskTier)

  /** Lines 397-407: both calls must succeed, else both entries are None. */
  function RunModel<M>(c: Classifier<M>, key: string, m: M, row: FeatureRow): (o: Outcome)
    ensures o.key == key
    ensures o.probability.Some? <==> o.prediction.Some?
    ensures o.probability.Some? <==> c.proba(m, row).Some? && c.predict(m, row).Some?
    ensures o.probability.Some? ==> o.probability == c.proba(m, row) && o.prediction == c.predict(m, row)
  {
    if c.proba(m, row).Some? && c.predict(m, row).Some? then Outcome(key, c.predict(m, row), c.proba(m, row))
    else Outcome(key, None, None)
  }

  /** One outcome per loaded model, in order; each depends on its own model only. */
  function Outcomes<M>(c: Classifier<M>, loaded: seq<(string, M)>, row: FeatureRow): (outs: seq<Outcome>)
    ensures |outs| == |loaded|
    ensures forall i :: 0 <= i < |loaded| ==> outs[i] == RunModel(c, loaded[i].0, loaded[i].1, row)
  {
    if loaded == [] then []
    else [RunModel(c, loaded[0].0, loaded[0].1, row)] + Outcomes(c, loaded[1..], row)
  }

  /** `[p for p in all_probabilities.values() if p is not None]`. */
  function ValidProbs(outs: seq<Outcome>): (ps: seq<Prob>)
    ensures |ps| <= |outs|
    ensures forall p :: p in ps <==> exists i :: 0 <= i < |outs| && outs[i].probability == Some(p)
    ensures |outs| == 1 ==> ps == (if outs[0].probability.Some? then [outs[0].probability.value] else [])
  {
    if outs == [] then []
    else
      var rest := ValidProbs(outs[1..]);
      assert forall i :: 1 <= i < |outs| ==> outs[i] == outs[1..][i - 1];
      if outs[0].probability.Some? then [outs[0].probability.value] + rest else rest
  }

  /** Filtering distributes over concatenation: with the one-outcome case of
      `ValidProbs`'s contract, the valid probabilities are the non-null ones,
      in model order and with their multiplicity, so their mean weighs every
      scoring model once. */
  lemma {:induction false} ValidProbsAppend(a: seq<Outcome>, b: seq<Outcome>)
    ensures ValidProbs(a + b) == ValidProbs(a) + ValidProbs(b)
  {
    if a != [] {
      assert (a + b)[0] == a[0];
      assert (a + b)[1..] == a[1..] + b;
      ValidProbsAppend(a[1..], b);
    } else {
      assert a + b == b;
    }
  }

  /** Two models with the same probability both count: nothing is deduplicated. */
  lemma ValidProbsKeepsDuplicates(p: Prob, q: Prob)
    ensures ValidProbs([Outcome("a", Some(1), Some(p)), Outcome("b", Some(1), Some(p)),
                        Outcome("c", None, None), Outcome("d", Some(0), Some(q))]) == [p, p, q]
  {
    var x := Outcome("a", Some(1), Some(p));
    var y := Outcome("b", Some(1), Some(p));
    var z := Outcome("c", None, None);
    var w := Outcome("d", Some(0), Some(q));
    assert [x, y, z, w] == [x] + [y] + [z] + [w];
    ValidProbsAppend([x] + [y] + [z], [w]);
    ValidProbsAppend([x] + [y], [z]);
    ValidProbsAppend([x], [y]);
  }

  /** `predict_single` on one prepared row. */
  function PredictSingle<M>(c: Classifier<M>, reg: seq<Entry<M>>, row: FeatureRow): (r: Result<SingleResult, EnsembleError>)
    ensures r.Failure? <==> reg == []
    ensures r.Failure? ==> r.error == NotLoaded
  {
    if reg == [] then Failure(NotLoaded)
    else
      var outs := Outcomes(c, Loaded(reg), row);
      Success(SingleResult(outs, GetRiskLevel(ValidProbs(outs))))
  }

  /** Models that did not load are left out, and every loaded model gets
      exactly its own outcome, whatever the other models do. */
  lemma SingleOutcomes<M>(c: Classifier<M>, reg: seq<Entry<M>>, row: FeatureRow)
    requires reg != []
    ensures var res := PredictSingle(c, reg, row).value;
      && (forall j :: 0 <= j < |reg| && reg[j].model.Some? ==>
            RunModel(c, reg[j].key, reg[j].model.value, row) in res.outcomes)
      && (forall i :: 0 <= i < |res.outcomes| ==>
            exists e :: e in reg && e.model.Some? && res.outcomes[i] == RunModel(c, e.key, e.model.value, row))
  {
    var loaded := Loaded(reg);
    var outs := Outcomes(c, loaded, row);
    forall j | 0 <= j < |reg| && reg[j].model.Some?
      ensures RunModel(c, reg[j].key, reg[j].model.value, row) in outs
    {
      var i :| 0 <= i < |loaded| && loaded[i] == (reg[j].key, reg[j].model.value);
      assert outs[i] == RunModel(c, reg[j].key, reg[j].model.value, row);
    }
    forall i | 0 <= i < |outs|
      ensures exists e :: e in reg && e.model.Some? && outs[i] == RunModel(c, e.key, e.model.value, row)
    {
      var e := Entry(loaded[i].0, Some(loaded[i].1));
      assert e in reg;
    }
  }

  /** The tier is Unknown (未知) exactly when no model produced a probability;
      otherwise it is the tier of the mean of the probabilities produced. */
  lemma SingleRisk<M>(c: Classifier<M>, reg: seq<Entry<M>>, row: FeatureRow)
    requires reg != []
    ensures var res := PredictSingle(c, reg, row).value;
      && (res.risk == Unknown <==> forall o :: o in res.outcomes ==> o.probability.None?)
      && (res.risk != Unknown ==>
            var ps := ValidProbs(res.outcomes);
            && |ps| > 0
            && (res.risk == High <==> Mean(ps) >= 0.7)
            && (res.risk == Medium <==> 0.3 <= Mean(ps) < 0.7)
            && (res.risk == Low <==> Mean(ps) < 0.3))
  {
    var outs := Outcomes(c, Loaded(reg), row);
    if ValidProbs(outs) != [] {
      var p := ValidProbs(outs)[0];
      assert p in ValidProbs(outs);
    }
  }

  /** When every entry is None the call still succeeds, with no outcomes and
      the tier Unknown (lines 386 and 394-396). */
  lemma NothingLoadedIsUnknown<M>(c: Classifier<M>, reg: seq<Entry<M>>, row: FeatureRow)
    requires reg != []
    requires forall i :: 0 <= i < |reg| ==> reg[i].model.None?
    ensures PredictSingle(c, reg, row) == Success(SingleResult([], Unknown))
  {
  }

  // ---------------------------------------------------------------------------
  // predict_batch and the per-row tiers of process_batch_file

  /** A vectorised call over the whole table: it raises if any row does. */
  function BatchCall<M, T>(call: (M, FeatureRow) -> Option<T>, m: M, rows: seq<FeatureRow>): (r: Option<seq<T>>)
    ensures r.Some? <==> forall i :: 0 <= i < |rows| ==> call(m, rows[i]).Some?
    ensures r.Some? ==> |r.value| == |rows| && forall i :: 0 <= i < |rows| ==> call(m, rows[i]) == Some(r.value[i])
  {
    if rows == [] then Some([])
    else
      match (call(m, rows[0]), BatchCall(call, m, rows[1..]))
      case (Some(x), Some(xs)) =>
        assert forall i :: 1 <= i < |rows| ==> rows[i] == rows[1..][i - 1];
        Some([x] + xs)
      case _ =>
        assert forall i :: 1 <= i < |rows| ==> rows[i] == rows[1..][i - 1];
        None
  }

  /** `models.get(key)`, None also when the entry holds None. */
  function Lookup<M>(reg: seq<Entry<M>>, key: string): (r: Option<M>)
    ensures r.Some? ==> Entry(key, r) in reg
    ensures KeysDistinct(reg) ==>
      (r.None? <==> forall j :: 0 <= j < |reg| && reg[j].key == key ==> reg[j].model.None?)
  {
    if reg == [] then None
    else
      assert forall j :: 1 <= j < |reg| ==> reg[j] == reg[1..][j - 1];
      assert KeysDistinct(reg) ==> KeysDistinct(reg[1..]);
      if reg[0].key == key then reg[0].model
      else Lookup(reg[1..], key)
  }

  /** `predict_batch`: one model over the whole table. It fails with
      ModelUnavailable exactly when the key has no loaded model, and with
      BatchFailed exactly when some row makes a call raise. */
  function PredictBatch<M>(c: Classifier<M>, reg: seq<Entry<M>>, key: string, rows: seq<FeatureRow>)
    : (r: Result<(seq<Prob>, seq<int>), EnsembleError>)
    ensures r == Failure(ModelUnavailable(key)) <==> Lookup(reg, key).None?
    ensures Lookup(reg, key).Some? ==>
      var m := Lookup(reg, key).value;
      && (r.Failure? <==> exists i :: 0 <= i < |rows| && (c.proba(m, rows[i]).None? || c.predict(m, rows[i]).None?))
      && (r.Failure? ==> r.error == BatchFailed(key))
      && (r.Success? ==>
            && |r.value.0| == |rows| && |r.value.1| == |rows|
            && forall i :: 0 <= i < |rows| ==>
                 c.proba(m, rows[i]) == Some(r.value.0[i]) && c.predict(m, rows[i]) == Some(r.value.1[i]))
  {
    match Lookup(reg, key)
    case None => Failure(ModelUnavailable(key))
    case Some(m) =>
      match (BatchCall(c.proba, m, rows), BatchCall(c.predict, m, rows))
      case (Some(ps), Some(ys)) => Success((ps, ys))
      case _ => Failure(BatchFailed(key))
  }

  /** Line 627: `[get_risk_level([p]) for p in probabilities]`. */
  function RowTiers(ps: seq<Prob>): (ts: seq<RiskTier>)
    ensures |ts| == |ps|
  {
    seq(|ps|, i requires 0 <= i < |ps| => GetRiskLevel([ps[i]]))
  }

  /** Each row's tier is its own probability cut at 0.7 and 0.3. */
  lemma RowTiersThresholds(ps: seq<Prob>)
    ensures forall i :: 0 <= i < |ps| ==>
      RowTiers(ps)[i] == (if ps[i] >= 0.7 then High else if ps[i] >= 0.3 then Medium else Low)
  {
    forall i | 0 <= i < |ps|
      ensures RowTiers(ps)[i] == (if ps[i] >= 0.7 then High else if ps[i] >= 0.3 then Medium else Low)
    {
      SingletonTier(ps[i]);
    }
  }

  // ---------------------------------------------------------------------------
  // predict_batch_with_all_models

  /** One model's result lists. */
  datatype ModelColumn = ModelColumn(key: string, predictions: seq<Option<Bit>>, probabilities: seq<Option<Prob>>)

  /** One row of the ensemble lists: mean probability, class and tier. */
  datatype EnsembleRow = EnsembleRow(probability: Option<Prob>, prediction: Option<Bit>, risk: RiskTier)

  datatype BatchResult = BatchResult(models: seq<ModelColumn>, rows: seq<EnsembleRow>)

  /** Line 922: `(y_proba >= 0.5).astype(int)`. */
  function ClassOf(p: real): (b: Bit)
    ensures b == 1 <==> p >= 0.5
  {
    if p >= 0.5 then 1 else 0
  }

  /** Lines 917-932: probabilities and their classes, or None lists of
      length n when the call raises. */
  function Column<M>(c: Classifier<M>, key: string, m: M, rows: seq<FeatureRow>): (col: ModelColumn)
    ensures col.key == key
    ensures |col.predictions| == |rows| && |col.probabilities| == |rows|
  {
    match BatchCall(c.proba, m, rows)
    case Some(ps) =>
      ModelColumn(key, seq(|ps|, i requires 0 <= i < |ps| => Some(ClassOf(ps[i]))),
                       seq(|ps|, i requires 0 <= i < |ps| => Some(ps[i])))
    case None => ModelColumn(key, seq(|rows|, i => None), seq(|rows|, i => None))
  }

  function Columns<M>(c: Classifier<M>, loaded: seq<(string, M)>, rows: seq<FeatureRow>): (cols: seq<ModelColumn>)
    ensures |cols| == |loaded|
    ensures forall k :: 0 <= k < |loaded| ==> cols[k] == Column(c, loaded[k].0, loaded[k].1, rows)
  {
    if loaded == [] then []
    else [Column(c, loaded[0].0, loaded[0].1, rows)] + Columns(c, loaded[1..], rows)
  }

  /** Every column has n entries. */
  predicate Rectangular(cols: seq<ModelColumn>, n: nat) {
    forall k :: 0 <= k < |cols| ==> |cols[k].probabilities| == n
  }

  /** Lines 941-942: row i's non-null probabilities, in column order. */
  function RowProbs(cols: seq<ModelColumn>, i: nat): (ps: seq<Prob>)
    requires forall k :: 0 <= k < |cols| ==> i < |cols[k].probabilities|
    ensures forall p :: p in ps <==> exists k :: 0 <= k < |cols| && cols[k].probabilities[i] == Some(p)
    ensures |cols| == 1 ==>
      ps == (if cols[0].probabilities[i].Some? then [cols[0].probabilities[i].value] else [])
  {
    if cols == [] then []
    else
      var rest := RowProbs(cols[1..], i);
      assert forall k :: 1 <= k < |cols| ==> cols[k] == cols[1..][k - 1];
      if cols[0].probabilities[i].Some? then [cols[0].probabilities[i].value] + rest else rest
  }

  /** Filtering distributes over concatenation: with the one-column case of
      `RowProbs`'s contract, a row's probabilities are the non-null cells of
      that row, in column order and with their multiplicity. */
  lemma {:induction false} RowProbsAppend(a: seq<ModelColumn>, b: seq<ModelColumn>, i: nat)
    requires forall k :: 0 <= k < |a| ==> i < |a[k].probabilities|
    requires forall k :: 0 <= k < |b| ==> i < |b[k].probabilities|
    ensures RowProbs(a + b, i) == RowProbs(a, i) + RowProbs(b, i)
  {
    if a != [] {
      assert (a + b)[0] == a[0];
      assert (a + b)[1..] == a[1..] + b;
      RowProbsAppend(a[1..], b, i);
    } else {
      assert a + b == b;
    }
  }

  /** Lines 944-956: the mean and its class and tier, or None, None and
      无法确定 when no model scored the row. */
  function Combine(ps: seq<Prob>): EnsembleRow {
    if ps == [] then EnsembleRow(None, None, Undetermined)
    else
      var avg := MeanProb(ps);
      EnsembleRow(Some(avg), Some(ClassOf(avg)), GetRiskLevel([avg]))
  }

  /** `predict_batch_with_all_models` on a prepared table. */
  function PredictBatchAll<M>(c: Classifier<M>, reg: seq<Entry<M>>, rows: seq<FeatureRow>)
    : (r: Result<BatchResult, EnsembleError>)
    ensures r.Failure? <==> forall i :: 0 <= i < |reg| ==> reg[i].model.None?
    ensures r.Failure? ==> r.error == NoModels
    ensures r.Success? ==> |r.value.rows| == |rows| && |r.value.models| == |Loaded(reg)|
  {
    var loaded := Loaded(reg);
    if loaded == [] then Failure(NoModels)
    else
      assert loaded[0] in loaded;
      var cols := Columns(c, loaded, rows);
      Success(BatchResult(cols, seq(|rows|, i requires 0 <= i < |rows| => Combine(RowProbs(cols, i)))))
  }

  /** Each model's lists: the per-row probabilities with class `p >= 0.5`
      when the vectorised call succeeds, None throughout when it raises. */
  lemma ColumnContents<M>(c: Classifier<M>, key: string, m: M, rows: seq<FeatureRow>, i: nat)
    requires i < |rows|
    ensures var col := Column(c, key, m, rows);
      && (col.probabilities[i].None? <==> exists j :: 0 <= j < |rows| && c.proba(m, rows[j]).None?)
      && (col.probabilities[i].None? <==> col.predictions[i].None?)
      && (col.probabilities[i].Some? ==>
            && col.probabilities[i] == c.proba(m, rows[i])
            && col.predictions[i] == Some(ClassOf(col.probabilities[i].value)))
  {
  }

  /** Each ensemble row: no probability, no class and 无法确定 exactly when no
      model scored it; otherwise the mean of the models' probabilities, class
      `mean >= 0.5` and the tier of the mean. */
  lemma EnsembleRows<M>(c: Classifier<M>, reg: seq<Entry<M>>, rows: seq<FeatureRow>, i: nat)
    requires PredictBatchAll(c, reg, rows).Success?
    requires i < |rows|
    ensures var res := PredictBatchAll(c, reg, rows).value;
      var ps := RowProbs(res.models, i);
      && (res.rows[i].probability.None? <==> ps == [])
      && (res.rows[i].prediction.None? <==> ps == [])
      && (res.rows[i].risk == Undetermined <==> ps == [])
      && (ps != [] ==>
            && res.rows[i].probability.value as real == Mean(ps)
            && (res.rows[i].prediction == Some(1) <==> Mean(ps) >= 0.5)
            && (res.rows[i].risk == High <==> Mean(ps) >= 0.7)
            && (res.rows[i].risk == Medium <==> 0.3 <= Mean(ps) < 0.7)
            && (res.rows[i].risk == Low <==> Mean(ps) < 0.3))
  {
    var res := PredictBatchAll(c, reg, rows).value;
    var ps := RowProbs(res.models, i);
    if ps != [] {
      SingletonTier(MeanProb(ps));
    }
  }

  /** Every entry that holds a model has its vectorised call raise. */
  predicate EveryCallFails<M>(c: Classifier<M>, reg: seq<Entry<M>>, rows: seq<FeatureRow>) {
    forall j :: 0 <= j < |reg| && reg[j].model.Some? ==> BatchCall(c.proba, reg[j].model.value, rows).None?
  }

  /** The same, over the (key, model) pairs of the loaded entries. */
  predicate EveryLoadedCallFails<M>(c: Classifier<M>, loaded: seq<(string, M)>, rows: seq<FeatureRow>) {
    forall k :: 0 <= k < |loaded| ==> BatchCall(c.proba, loaded[k].1, rows).None?
  }

  /** A model's calls fail for the whole table at once, so either every row
      of the ensemble is scored or none is, and none is exactly when every
      loaded model's vectorised call raised. */
  lemma AllOrNothing<M>(c: Classifier<M>, reg: seq<Entry<M>>, rows: seq<FeatureRow>, i: nat)
    requires PredictBatchAll(c, reg, rows).Success?
    requires i < |rows|
    ensures PredictBatchAll(c, reg, rows).value.rows[i].risk == Undetermined <==> EveryCallFails(c, reg, rows)
  {
    var res := PredictBatchAll(c, reg, rows).value;
    assert res.models == Columns(c, Loaded(reg), rows);
    assert res.rows[i] == Combine(RowProbs(res.models, i));
    UnscoredIsUndetermined(RowProbs(res.models, i));
    RowProbsEmpty(c, Loaded(reg), rows, i);
    LoadedCallsFail(c, reg, rows);
  }

  /** Only a row without probabilities reads 无法确定. */
  lemma UnscoredIsUndetermined(ps: seq<Prob>)
    ensures Combine(ps).risk == Undetermined <==> ps == []
  {
  }

  /** Every loaded model's call raises exactly when every entry's does. */
  lemma LoadedCallsFail<M>(c: Classifier<M>, reg: seq<Entry<M>>, rows: seq<FeatureRow>)
    ensures EveryLoadedCallFails(c, Loaded(reg), rows) <==> EveryCallFails(c, reg, rows)
  {
    var loaded := Loaded(reg);
    if EveryLoadedCallFails(c, loaded, rows) {
      forall j | 0 <= j < |reg| && reg[j].model.Some?
        ensures BatchCall(c.proba, reg[j].model.value, rows).None?
      {
        var k :| 0 <= k < |loaded| && loaded[k] == (reg[j].key, reg[j].model.value);
      }
    } else {
      var k :| 0 <= k < |loaded| && BatchCall(c.proba, loaded[k].1, rows).Some?;
      var e := Entry(loaded[k].0, Some(loaded[k].1));
      assert e in reg;
    }
  }

  /** Row i has no probability exactly when every model's call raised. */
  lemma {:induction false} RowProbsEmpty<M>(c: Classifier<M>, loaded: seq<(string, M)>, rows: seq<FeatureRow>, i: nat)
    requires i < |rows|
    ensures RowProbs(Columns(c, loaded, rows), i) == [] <==> EveryLoadedCallFails(c, loaded, rows)
    decreases |loaded|
  {
    if loaded != [] {
      var cols := Columns(c, loaded, rows);
      RowProbsEmpty(c, loaded[1..], rows, i);
      assert cols[1..] == Columns(c, loaded[1..], rows);
      assert forall k :: 1 <= k < |loaded| ==> loaded[k] == loaded[1..][k - 1];
    }
  }

  // ---------------------------------------------------------------------------
  // Single versus batch

  /** On a one-row table whose `predict` calls all succeed, a model has a
      probability in `predict_single` exactly when it has one in the batch
      ensemble, and the lists of probabilities coincide. */
  lemma {:induction false} SameProbabilities<M>(c: Classifier<M>, loaded: seq<(string, M)>, row: FeatureRow)
    requires forall k :: 0 <= k < |loaded| ==> c.predict(loaded[k].1, row).Some?
    ensures Rectangular(Columns(c, loaded, [row]), 1)
    ensures ValidProbs(Outcomes(c, loaded, row)) == RowProbs(Columns(c, loaded, [row]), 0)
    decreases |loaded|
  {
    var cols := Columns(c, loaded, [row]);
    var outs := Outcomes(c, loaded, row);
    if loaded != [] {
      var tail := loaded[1..];
      SameProbabilities(c, tail, row);
      assert outs[1..] == Outcomes(c, tail, row);
      assert cols[1..] == Columns(c, tail, [row]);
      var m := loaded[0].1;
      assert outs[0].probability == c.proba(m, row);
      assert cols[0].probabilities[0] == c.proba(m, row);
    }
  }

  /** The two engines agree on a one-row table whose `predict` calls succeed:
      the batch ensemble's probability is the mean of the probabilities
      `predict_single` collects and its tier is the same, except that a row
      no model scored reads 无法确定 in the batch and 未知 in the single path. */
  lemma SingleAgreesWithBatch<M>(c: Classifier<M>, reg: seq<Entry<M>>, row: FeatureRow)
    requires exists i :: 0 <= i < |reg| && reg[i].model.Some?
    requires forall j :: 0 <= j < |reg| && reg[j].model.Some? ==> c.predict(reg[j].model.value, row).Some?
    ensures PredictSingle(c, reg, row).Success? && PredictBatchAll(c, reg, [row]).Success?
    ensures var single := PredictSingle(c, reg, row).value;
      var batch := PredictBatchAll(c, reg, [row]).value.rows[0];
      var ps := ValidProbs(single.outcomes);
      && (ps == [] ==> single.risk == Unknown && batch.risk == Undetermined && batch.probability.None?)
      && (ps != [] ==> batch.probability.Some? && batch.probability.value as real == Mean(ps) && batch.risk == single.risk)
  {
    var loaded := Loaded(reg);
    forall k | 0 <= k < |loaded| ensures c.predict(loaded[k].1, row).Some? {
      var e := Entry(loaded[k].0, Some(loaded[k].1));
      assert e in reg;
    }
    SameProbabilities(c, loaded, row);
    var cols := Columns(c, loaded, [row]);
    var ps := ValidProbs(Outcomes(c, loaded, row));
    if ps != [] {
      SingletonTier(MeanProb(ps));
    }
  }
}
