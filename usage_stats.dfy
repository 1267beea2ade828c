/**
 * The usage card (frontend/src/components/UsageStats.tsx): everything it shows
 * is computed from three props, the tier and the used and allowed counts.
 *
 * The percentage is computed exactly, as a `real`; see the README for how this
 * relates to the floating-point original.
 */
module UsageStatsView {

  /** `(usageCount / usageLimit) * 100`. */
  function Percentage(usageCount: int, usageLimit: int): (p: real)
    requires usageLimit > 0
    ensures p * usageLimit as real == usageCount as real * 100.0
    ensures usageCount == 0 ==> p == 0.0
    ensures usageCount == usageLimit ==> p == 100.0
  {
    var share := usageCount as real / usageLimit as real;
    ShareTimesLimit(usageCount as real, usageLimit as real);
    assert usageCount == usageLimit ==> share == 1.0;
    share * 100.0
  }

  /** A share of a positive whole, scaled back by that whole, is the part. */
  lemma ShareTimesLimit(part: real, whole: real)
    requires whole > 0.0
    ensures (part / whole) * whole == part
    ensures (part / whole) * 100.0 * whole == part * 100.0
  {
    var share := part / whole;
    assert share * whole == part;
    calc {
      share * 100.0 * whole;
      (share * whole) * 100.0;
      part * 100.0;
    }
  }

  /** Comparing the percentage with a whole-number threshold is comparing `count * 100` with `threshold * limit`. */
  lemma PercentageAbove(usageCount: int, usageLimit: int, threshold: int)
    requires usageLimit > 0
    ensures Percentage(usageCount, usageLimit) > threshold as real <==> usageCount * 100 > threshold * usageLimit
    ensures Percentage(usageCount, usageLimit) <= 100.0 <==> usageCount <= usageLimit
  {
    var p := Percentage(usageCount, usageLimit);
    assert (usageCount * 100) as real == usageCount as real * 100.0;
    assert (threshold * usageLimit) as real == threshold as real * usageLimit as real;
    assert (100 * usageLimit) as real == 100.0 * usageLimit as real;
    ScaledCompare(p, usageLimit as real, usageCount as real, threshold as real);
    ScaledCompare(p, usageLimit as real, usageCount as real, 100.0);
  }

  /** With `p * l == c * 100` and `l` positive, `p` exceeds `x` exactly when `c * 100` exceeds `x * l`. */
  lemma ScaledCompare(p: real, l: real, c: real, x: real)
    requires l > 0.0 && p * l == c * 100.0
    ensures p > x <==> c * 100.0 > x * l
  {
    if p > x {
      assert (p - x) * l > 0.0;
    } else {
      assert (x - p) * l >= 0.0;
    }
  }

  /** `remaining`: negative once the count has passed the limit. */
  function Remaining(usageCount: int, usageLimit: int): (r: int)
    ensures r < 0 <==> usageCount > usageLimit
    ensures r + usageCount == usageLimit
  {
    usageLimit - usageCount
  }

  datatype Band = Red | Yellow | Green

  /** The bar's colour band: above 80 percent, above 50 percent, or neither. */
  function BarBand(usageCount: int, usageLimit: int): (b: Band)
    requires usageLimit > 0
    ensures b == Red <==> usageCount * 100 > 80 * usageLimit
    ensures b == Yellow <==> 50 * usageLimit < usageCount * 100 <= 80 * usageLimit
    ensures b == Green <==> usageCount * 100 <= 50 * usageLimit
  {
    PercentageAbove(usageCount, usageLimit, 80);
    PercentageAbove(usageCount, usageLimit, 50);
    var p := Percentage(usageCount, usageLimit);
    if p > 80.0 then Red else if p > 50.0 then Yellow else Green
  }

  /** The gradient classes of each band. */
  function BandClasses(b: Band): string
  {
    match b
    case Red => "from-red-500 to-orange-500"
    case Yellow => "from-yellow-500 to-orange-500"
    case Green => "from-green-500 to-emerald-500"
  }

  /** The bar's width in percent, `Math.min(percentage, 100)`. */
  function BarWidth(usageCount: int, usageLimit: int): (w: real)
    requires usageLimit > 0
    ensures w <= 100.0
    ensures usageCount <= usageLimit ==> w == Percentage(usageCount, usageLimit)
    ensures usageCount >= usageLimit ==> w == 100.0
  {
    PercentageAbove(usageCount, usageLimit, 100);
    var p := Percentage(usageCount, usageLimit);
    if p < 100.0 then p else 100.0
  }

  const TierLabels: map<string, string> := map["free" := "免费版", "pro" := "专业版", "enterprise" := "企业版"]
  const TierColors: map<string, string> :=
    map["free" := "from-gray-400 to-gray-500", "pro" := "from-blue-500 to-purple-500",
        "enterprise" := "from-yellow-500 to-orange-500"]

  /** The tier line, `tierLabels[tier] || tier`: the label of a known tier, the raw tier otherwise. */
  function TierLabel(tier: string): (shown: string)
    ensures tier in TierLabels ==> shown == TierLabels[tier]
    ensures tier !in TierLabels ==> shown == tier
  {
    if tier in TierLabels && TierLabels[tier] != [] then TierLabels[tier] else tier
  }

  /** The badge, `tierLabels[tier]` with no fallback: empty for an unknown tier. */
  function TierBadge(tier: string): (badge: string)
    ensures tier in TierLabels ==> badge == TierLabels[tier]
    ensures tier !in TierLabels ==> badge == []
  {
    if tier in TierLabels then TierLabels[tier] else []
  }

  /** The badge's gradient classes; an unknown tier interpolates the text "undefined". */
  function TierGradient(tier: string): (classes: string)
    ensures tier in TierColors ==> classes == TierColors[tier]
    ensures tier !in TierColors ==> classes == "undefined"
  {
    if tier in TierColors then TierColors[tier] else "undefined"
  }

  /** The upgrade prompt: a free tier above 80 percent. */
  function ShowUpgrade(tier: string, usageCount: int, usageLimit: int): (show: bool)
    requires usageLimit > 0
    ensures show <==> tier == "free" && usageCount * 100 > 80 * usageLimit
  {
    PercentageAbove(usageCount, usageLimit, 80);
    tier == "free" && Percentage(usageCount, usageLimit) > 80.0
  }

  /** The upgrade prompt only ever shows beside a red bar. */
  lemma UpgradeOnlyWhenRed(tier: string, usageCount: int, usageLimit: int)
    requires usageLimit > 0 && ShowUpgrade(tier, usageCount, usageLimit)
    ensures BarBand(usageCount, usageLimit) == Red
  {
  }
}
