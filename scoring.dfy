/**
 * The per-cohort normalisation of the functioning total and the per-patient
 * score, threshold and risk tier of the fusion module.
 */
module Scoring {
  import opened Wrappers
  import opened Rows
  import opened Stats

  // ---------------------------------------------------------------------
  // Normalisation
  // ---------------------------------------------------------------------

  /** No spread to scale by: every value missing, or the smallest equal to the largest. */
  predicate Degenerate(xs: seq<Option<real>>) {
    Present(xs) == [] || MinPresent(xs).value == MaxPresent(xs).value
  }

  /** A column is degenerate exactly when all of its present values are equal (vacuously so when none is present). */
  lemma DegenerateIff(xs: seq<Option<real>>)
    ensures Degenerate(xs) <==>
      forall i, j :: 0 <= i < |xs| && 0 <= j < |xs| && xs[i].Some? && xs[j].Some? ==> xs[i].value == xs[j].value
  {
    if !Degenerate(xs) {
      var lo :| lo in xs && lo == MinPresent(xs);
      var hi :| hi in xs && hi == MaxPresent(xs);
      var i :| 0 <= i < |xs| && xs[i] == lo;
      var j :| 0 <= j < |xs| && xs[j] == hi;
      assert xs[i].value != xs[j].value;
    } else if Present(xs) != [] {
      forall i, j | 0 <= i < |xs| && 0 <= j < |xs| && xs[i].Some? && xs[j].Some?
        ensures xs[i].value == xs[j].value
      {
        assert MinPresent(xs).value <= xs[i].value <= MaxPresent(xs).value;
        assert MinPresent(xs).value <= xs[j].value <= MaxPresent(xs).value;
      }
    }
  }

  /** Min-max scaling of one value: `(x - lo) / (hi - lo)`. */
  function Scale(x: real, lo: real, hi: real): (y: real)
    requires lo < hi
    ensures lo <= x <= hi ==> 0.0 <= y <= 1.0
    ensures x == lo ==> y == 0.0
    ensures x == hi ==> y == 1.0
  {
    var d := hi - lo;
    assert (x - lo) / d == (x - lo) * (1.0 / d);
    assert 1.0 / d > 0.0;
    assert d / d == 1.0;
    (x - lo) / d
  }

  /** Scaling keeps the order of values. */
  lemma ScaleMonotone(x1: real, x2: real, lo: real, hi: real)
    requires lo < hi && x1 <= x2
    ensures Scale(x1, lo, hi) <= Scale(x2, lo, hi)
  {
    var d := hi - lo;
    assert (x1 - lo) / d == (x1 - lo) * (1.0 / d);
    assert (x2 - lo) / d == (x2 - lo) * (1.0 / d);
    assert 1.0 / d > 0.0;
  }

  /**
   * `_normalize_series`: min-max scaling over the non-missing values, a
   * missing value staying missing; a constant 0.5 when there is no spread.
   */
  function Normalize(xs: seq<Option<real>>): (ns: seq<Option<real>>)
    ensures |ns| == |xs|
    ensures forall i :: 0 <= i < |ns| && ns[i].Some? ==> 0.0 <= ns[i].value <= 1.0
  {
    if Present(xs) == [] then seq(|xs|, _ => Some(0.5))
    else
      var lo := MinPresent(xs).value;
      var hi := MaxPresent(xs).value;
      if lo == hi then seq(|xs|, _ => Some(0.5))
      else
        seq(|xs|, i requires 0 <= i < |xs| => if xs[i].Some? then Some(Scale(xs[i].value, lo, hi)) else None)
  }

  /**
   * With no spread every patient gets 0.5; otherwise exactly the missing
   * values stay missing, the smallest value maps to 0 and the largest to 1.
   */
  lemma NormalizeCases(xs: seq<Option<real>>, i: nat)
    requires i < |xs|
    ensures Degenerate(xs) ==> Normalize(xs)[i] == Some(0.5)
    ensures !Degenerate(xs) ==> (Normalize(xs)[i].None? <==> xs[i].None?)
    ensures !Degenerate(xs) && xs[i] == MinPresent(xs) ==> Normalize(xs)[i] == Some(0.0)
    ensures !Degenerate(xs) && xs[i] == MaxPresent(xs) ==> Normalize(xs)[i] == Some(1.0)
    ensures !Degenerate(xs) && xs[i].Some? ==>
      && MinPresent(xs).value < MaxPresent(xs).value
      && Normalize(xs)[i] == Some(Scale(xs[i].value, MinPresent(xs).value, MaxPresent(xs).value))
  {
    if !Degenerate(xs) {
      var k :| 0 <= k < |xs| && xs[k] == MaxPresent(xs);
      assert MinPresent(xs).value <= xs[k].value;
    }
  }

  /** Normalisation keeps the order of the values it scales. */
  lemma NormalizeMonotone(xs: seq<Option<real>>, i: nat, j: nat)
    requires i < |xs| && j < |xs| && xs[i].Some? && xs[j].Some? && xs[i].value <= xs[j].value
    ensures Normalize(xs)[i].value <= Normalize(xs)[j].value
  {
    if !Degenerate(xs) {
      ScaleMonotone(xs[i].value, xs[j].value, MinPresent(xs).value, MaxPresent(xs).value);
    }
  }

  /** A column with no missing value, or only missing values, normalises to a column with none. */
  lemma NormalizeTotal(xs: seq<Option<real>>)
    requires (forall i :: 0 <= i < |xs| ==> xs[i].Some?) || (forall i :: 0 <= i < |xs| ==> xs[i].None?)
    ensures forall i :: 0 <= i < |xs| ==> Normalize(xs)[i].Some?
  {
  }

  // ---------------------------------------------------------------------
  // Threshold
  // ---------------------------------------------------------------------

  /**
   * The base threshold of a rehabilitation phase, compared after
   * lower-casing; a missing phase reads as "nan" and gets the default.
   */
  function PhaseBase(phase: Option<string>): (b: real)
    ensures b == 0.55 || b == 0.60 || b == 0.65
  {
    match phase
    case None => 0.60
    case Some(s) =>
      var key := Lower(s);
      if key == "early" then 0.55
      else if key == "mid" then 0.60
      else if key == "late" then 0.65
      else 0.60
  }

  /** `float(max(lo, min(hi, x)))`. */
  function Clamp(x: real, lo: real, hi: real): (y: real)
    requires lo <= hi
    ensures lo <= y <= hi
    ensures lo <= x <= hi ==> y == x
  {
    var below := if hi < x then hi else x;
    if below < lo then lo else below
  }

  /** `_dynamic_threshold`: the phase's base, moved by a tenth of the normalised total's distance from 0.5, clamped. */
  function Threshold(phase: Option<string>, norm: real): (t: real)
    ensures 0.30 <= t <= 0.85
  {
    Clamp(PhaseBase(phase) + 0.10 * (norm - 0.5), 0.30, 0.85)
  }

  /** With a neutral normalised total the threshold is the phase's base. */
  lemma ThresholdAtNeutral(phase: Option<string>)
    ensures Threshold(phase, 0.5) == PhaseBase(phase)
  {
  }

  /** For a normalised total in [0, 1] the clamp never binds: the threshold stays within 0.05 of the base. */
  lemma ThresholdUnclampedOnUnitRange(phase: Option<string>, norm: real)
    requires 0.0 <= norm <= 1.0
    ensures Threshold(phase, norm) == PhaseBase(phase) + 0.10 * (norm - 0.5)
    ensures PhaseBase(phase) - 0.05 <= Threshold(phase, norm) <= PhaseBase(phase) + 0.05
  {
  }

  /** A higher normalised total never lowers the threshold. */
  lemma ThresholdMonotone(phase: Option<string>, n1: real, n2: real)
    requires n1 <= n2
    ensures Threshold(phase, n1) <= Threshold(phase, n2)
  {
  }

  /** The phase comparison ignores case: "EARLY", "Mid" and "late" get the bases of their lower-case forms. */
  lemma {:induction false} PhaseBaseIgnoresCase(s: string)
    ensures PhaseBase(Some(s)) == PhaseBase(Some(Lower(s)))
  {
    LowerIdempotent(s);
  }

  /** The three phase labels, and the default for anything else. */
  lemma PhaseBaseValues()
    ensures PhaseBase(Some("early")) == 0.55 && PhaseBase(Some("mid")) == 0.60 && PhaseBase(Some("late")) == 0.65
    ensures PhaseBase(Some("rehab")) == 0.60 && PhaseBase(None) == 0.60
  {
    assert Lower("early") == "early";
    assert Lower("mid") == "mid";
    assert Lower("late") == "late";
    assert Lower("rehab") == "rehab";
  }

  /** The phase labels are matched in any case. */
  lemma PhaseBaseMixedCase()
    ensures PhaseBase(Some("EARLY")) == 0.55 && PhaseBase(Some("Mid")) == 0.60 && PhaseBase(Some("Late")) == 0.65
  {
    assert Lower("EARLY") == "early";
    assert Lower("Mid") == "mid";
    assert Lower("Late") == "late";
  }

  // ---------------------------------------------------------------------
  // Score and tier
  // ---------------------------------------------------------------------

  /** `_risk_score`: gait weighs 0.5, action risk 0.3 and the inverted normalised total 0.2. */
  function RiskScore(gait: real, action: real, norm: real): (s: real)
    ensures 0.0 <= gait <= 1.0 && 0.0 <= action <= 1.0 && 0.0 <= norm <= 1.0 ==> 0.0 <= s <= 1.0
  {
    0.5 * gait + 0.3 * action + 0.2 * (1.0 - norm)
  }

  /** The score rises with gait and action risk and falls as the normalised total rises. */
  lemma RiskScoreMonotone(g1: real, a1: real, n1: real, g2: real, a2: real, n2: real)
    requires g1 <= g2 && a1 <= a2 && n2 <= n1
    ensures RiskScore(g1, a1, n1) <= RiskScore(g2, a2, n2)
  {
  }

  datatype Tier = Low | Medium | High {
    /** The label written to `final_risk_level`. */
    function Label(): string {
      match this
      case Low => "low"
      case Medium => "medium"
      case High => "high"
    }
  }

  /** The three labels `_decide_row` returns, one per tier: a label names its tier. */
  lemma LabelNamesTier(t1: Tier, t2: Tier)
    ensures t1.Label() in {"low", "medium", "high"}
    ensures t1.Label() == t2.Label() ==> t1 == t2
  {
  }

  /**
   * `_decide_row`: high at or above the patient's threshold, medium within
   * 0.10 below it, low further below.
   */
  function Decide(phase: Option<string>, norm: real, risk: real): (tier: Tier)
    ensures tier == High <==> risk >= Threshold(phase, norm)
    ensures tier == Medium <==> Threshold(phase, norm) - 0.10 <= risk < Threshold(phase, norm)
    ensures tier == Low <==> risk < Threshold(phase, norm) - 0.10
  {
    var threshold := Threshold(phase, norm);
    if risk >= threshold then High
    else if risk >= threshold - 0.10 then Medium
    else Low
  }

  /** A higher score never gets a lower tier. */
  lemma DecideMonotone(phase: Option<string>, norm: real, r1: real, r2: real)
    requires r1 <= r2
    ensures Decide(phase, norm, r1) == High ==> Decide(phase, norm, r2) == High
    ensures Decide(phase, norm, r2) == Low ==> Decide(phase, norm, r1) == Low
  {
  }
}
