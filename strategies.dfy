/**
 * The volatility-gated allocation rule `regime_adjust_weights`
 * (src/strategies.py:10-31). The latest India VIX close up to the date is
 * passed in: `None` stands for an empty VIX history, `Some(v)` for the
 * value the lookup of the latest close returned.
 */
module Strategies {
  import opened Wrappers
  import opened Weights

  const DefaultVixThreshold := 25.0
  const DefaultRiskOffScale := 0.5

  /**
   * With no history the target weights pass through; with the latest close
   * above the threshold they are scaled by `riskOffScale` and normalized
   * with the default bounds 0 and 1; otherwise they pass through.
   */
  function RegimeAdjustWeights(target: seq<Entry>, latestVix: Option<real>, vixThreshold: real, riskOffScale: real): seq<Entry>
  {
    match latestVix
    case None => target
    case Some(v) =>
      if v > vixThreshold then NormalizeWeights(Scale(target, riskOffScale), DefaultMinWeight, DefaultMaxWeight)
      else target
  }

  /** The rule only switches to risk-off when the close is strictly above the threshold. */
  ghost predicate RiskOff(latestVix: Option<real>, vixThreshold: real)
  {
    latestVix.Some? && latestVix.value > vixThreshold
  }

  /** Calm or no data: the target weights come back unchanged; risk-off: the normalized scaled weights. */
  lemma RegimeCases(target: seq<Entry>, latestVix: Option<real>, vixThreshold: real, riskOffScale: real)
    ensures var r := RegimeAdjustWeights(target, latestVix, vixThreshold, riskOffScale);
      && (!RiskOff(latestVix, vixThreshold) ==> r == target)
      && (RiskOff(latestVix, vixThreshold) ==> r == NormalizeWeights(Scale(target, riskOffScale), 0.0, 1.0))
      && (latestVix == None ==> r == target)
  {
  }

  /**
   * Risk-off output shape: the weights keep their fund labels, are
   * non-negative, and sum to 1 as soon as some scaled weight is positive.
   */
  lemma RiskOffShape(target: seq<Entry>, v: real, vixThreshold: real, riskOffScale: real)
    requires v > vixThreshold
    ensures var r := RegimeAdjustWeights(target, Some(v), vixThreshold, riskOffScale);
      && Keys(r) == Keys(target)
      && NonNegative(r)
      && ((exists i :: 0 <= i < |target| && Scale(target, riskOffScale)[i].value > 0.0) ==> Sum(r) == 1.0)
  {
    var scaled := Scale(target, riskOffScale);
    NormalizeKeepsKeys(scaled, 0.0, 1.0);
    NormalizeNonNegative(scaled, 0.0, 1.0);
    if i :| 0 <= i < |target| && scaled[i].value > 0.0 {
      var a := ClipLower(scaled, 0.0);
      assert NonNegative(a);
      EntryAtMostSum(a, i);
      NormalizeSumsToOne(scaled, 0.0, 1.0);
    }
  }

  /** With a positive risk-off scale the scaling cancels: risk-off is plain normalization of the targets. */
  lemma RiskOffScaleCancels(target: seq<Entry>, v: real, vixThreshold: real, riskOffScale: real)
    requires v > vixThreshold && riskOffScale > 0.0
    ensures RegimeAdjustWeights(target, Some(v), vixThreshold, riskOffScale) == NormalizeWeights(target, 0.0, 1.0)
  {
    NormalizeScaleInvariant(target, riskOffScale, 1.0);
  }

  /**
   * The default call, threshold 25 and scale 0.5: a close above 25 gives
   * the normalized targets, the halving cancelling out; no history or a
   * calmer close gives the targets themselves.
   */
  lemma DefaultRegime(target: seq<Entry>, latestVix: Option<real>)
    ensures RegimeAdjustWeights(target, latestVix, DefaultVixThreshold, DefaultRiskOffScale)
      == if latestVix.Some? && latestVix.value > 25.0 then NormalizeWeights(target, 0.0, 1.0) else target
  {
    if RiskOff(latestVix, DefaultVixThreshold) {
      RiskOffScaleCancels(target, latestVix.value, DefaultVixThreshold, DefaultRiskOffScale);
    }
  }
}
