/** The risk classifier (`get_risk_level`, predictor_service.py lines 463-473):
    the mean of a list of probabilities, cut at two fixed thresholds. */
module Risk {
  import opened Values

  /** The tiers the pipeline reports. `Unknown` (未知) is what `get_risk_level`
      returns for an empty list; `Undetermined` (无法确定) is what the batch
      ensemble writes for a row no model could score. */
  datatype RiskTier = High | Medium | Low | Unknown | Undetermined {
    /** The label the pipeline writes. */
    function Label(): string {
      match this
      case High => "高风险"
      case Medium => "中风险"
      case Low => "低风险"
      case Unknown => "未知"
      case Undetermined => "无法确定"
    }

    /** Position on the risk scale, for the tiers that carry one. */
    function Rank(): int {
      match this
      case Low => 0
      case Medium => 1
      case High => 2
      case _ => -1
    }
  }

  const HighThreshold: real := 0.7
  const MediumThreshold: real := 0.3

  /** The sum of a list, taken left to right; over `real` the order of
      summation does not change the result. */
  function Sum(ps: seq<real>): real {
    if ps == [] then 0.0 else Sum(ps[..|ps| - 1]) + ps[|ps| - 1]
  }

  /** The arithmetic mean of a non-empty list. */
  function Mean(ps: seq<real>): real
    requires |ps| > 0
  {
    Sum(ps) / (|ps| as real)
  }

  /** `get_risk_level`: Unknown on an empty list, otherwise the tier of the mean. */
  function GetRiskLevel(ps: seq<real>): (t: RiskTier)
    ensures t == Unknown <==> ps == []
    ensures ps != [] ==> (t == High <==> Mean(ps) >= 0.7)
    ensures ps != [] ==> (t == Medium <==> 0.3 <= Mean(ps) < 0.7)
    ensures ps != [] ==> (t == Low <==> Mean(ps) < 0.3)
  {
    if ps == [] then Unknown
    else
      var m := Mean(ps);
      if m >= HighThreshold then High
      else if m >= MediumThreshold then Medium
      else Low
  }

  /** A sum of n values drawn from [lo, hi] lies in [n * lo, n * hi]. */
  lemma {:induction false} SumBounds(ps: seq<real>, lo: real, hi: real)
    requires forall i :: 0 <= i < |ps| ==> lo <= ps[i] <= hi
    ensures (|ps| as real) * lo <= Sum(ps) <= (|ps| as real) * hi
  {
    if ps != [] {
      var init := ps[..|ps| - 1];
      SumBounds(init, lo, hi);
      assert (|ps| as real) * lo == (|init| as real) * lo + lo;
      assert (|ps| as real) * hi == (|init| as real) * hi + hi;
    }
  }

  /** The mean of values drawn from [lo, hi] lies in [lo, hi]. */
  lemma MeanBounds(ps: seq<real>, lo: real, hi: real)
    requires |ps| > 0
    requires forall i :: 0 <= i < |ps| ==> lo <= ps[i] <= hi
    ensures lo <= Mean(ps) <= hi
  {
    SumBounds(ps, lo, hi);
    DivideBounds(Sum(ps), |ps| as real, lo, hi);
  }

  /** Dividing by a positive n keeps a value between n * lo and n * hi
      between lo and hi. */
  lemma DivideBounds(a: real, n: real, lo: real, hi: real)
    requires n > 0.0
    requires n * lo <= a <= n * hi
    ensures lo <= a / n <= hi
  {
    var q := a / n;
    assert q * n == a;
    CancelFactor(lo, q, n);
    CancelFactor(q, hi, n);
  }

  lemma CancelFactor(x: real, y: real, n: real)
    requires n > 0.0 && x * n <= y * n
    ensures x <= y
  {
    assert (y - x) * n >= 0.0;
  }

  /** The mean of probabilities is a probability. */
  function MeanProb(ps: seq<Prob>): (m: Prob)
    requires |ps| > 0
    ensures m as real == Mean(ps)
  {
    MeanBounds(ps, 0.0, 1.0);
    Mean(ps)
  }

  /** A one-element list has that element as its mean, so `get_risk_level([p])`
      classifies p itself (the per-row tier of the batch paths). */
  lemma SingletonTier(p: real)
    ensures Mean([p]) == p
    ensures GetRiskLevel([p]) == (if p >= 0.7 then High else if p >= 0.3 then Medium else Low)
  {
    assert [p][..0] == [];
    assert Sum([p]) == Sum([]) + p;
  }

  /** The thresholds are inclusive from below: 0.7 is high, 0.3 is medium. */
  lemma Boundaries()
    ensures GetRiskLevel([0.7]) == High
    ensures GetRiskLevel([0.69999]) == Medium
    ensures GetRiskLevel([0.3]) == Medium
    ensures GetRiskLevel([0.29999]) == Low
  {
    SingletonTier(0.7);
    SingletonTier(0.69999);
    SingletonTier(0.3);
    SingletonTier(0.29999);
  }

  /** A higher mean never yields a lower tier. */
  lemma Monotone(ps: seq<real>, qs: seq<real>)
    requires |ps| > 0 && |qs| > 0
    requires Mean(ps) <= Mean(qs)
    ensures GetRiskLevel(ps).Rank() <= GetRiskLevel(qs).Rank()
    ensures GetRiskLevel(ps).Rank() >= 0
  {
  }

  /** A non-empty list of probabilities always lands in one of the three tiers. */
  lemma ProbabilitiesGetATier(ps: seq<Prob>)
    requires |ps| > 0
    ensures GetRiskLevel(ps) in {High, Medium, Low}
  {
  }
}
