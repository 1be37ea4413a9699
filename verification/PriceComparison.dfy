/**
 How far apart two compared prices can be, and what the deviation does not depend on
 (deviationBps in internal/riskcontrol/rule_price_source_divergence.go; the construction of the two price
 points in cmd/bot/main.go).
 */
module PriceComparison {
  import opened Basics
  import opened Text
  import opened PriceNormalization
  import opened PriceDivergence

  lemma DeviationIsSymmetric(p: real, q: real)
    ensures DeviationBps(p, q) == DeviationBps(q, p)
  {
    DeviationsMayBeSwapped(p, q);
  }

  function Low(p: real, q: real): real {
    if p <= q then p else q
  }

  function High(p: real, q: real): real {
    if p <= q then q else p
  }

  lemma Cancel(x: real, y: real, z: real)
    requires y != 0.0 && x == z * y
    ensures x / y == z
  {
  }

  /** Above the epsilon, the deviation is the price ratio less one. */
  lemma DeviationIsRatio(p: real, q: real)
    requires p > 0.0 && q > 0.0 && Low(p, q) >= EPS
    ensures RelativeDeviation(p, q) == Ratio(p, q) - 1.0
  {
    var low, high := Low(p, q), High(p, q);
    var r := high / low;
    assert r * low == high;
    Cancel(high - low, low, r - 1.0) by {
      assert (r - 1.0) * low == r * low - low;
    }
  }

  lemma RatioOfInverses(p: real, q: real)
    requires p > 0.0 && q > 0.0
    ensures 1.0 / p > 0.0 && 1.0 / q > 0.0 && Ratio(1.0 / p, 1.0 / q) == Ratio(p, q)
  {
    InverseQuotient(p, q);
    InverseQuotient(q, p);
  }

  lemma InverseQuotient(p: real, q: real)
    requires p > 0.0 && q > 0.0
    ensures 1.0 / p > 0.0 && 1.0 / q > 0.0 && (1.0 / p) / (1.0 / q) == q / p
    ensures p <= q <==> 1.0 / p >= 1.0 / q
  {
    var a, b := 1.0 / p, 1.0 / q;
    assert a * p == 1.0 && b * q == 1.0;
    var r := q / p;
    assert r * p == q;
    assert r == q * a by {
      Cancel(q, p, q * a) by { assert q * a * p == q * (a * p); }
    }
    Cancel(a, b, r) by { assert r * b == (q * a) * b == a * (b * q); }
    assert a - b == (a * b) * (q - p) by {
      assert (a * b) * (q - p) == a * (b * q) - (a * p) * b;
    }
    assert a * b > 0.0;
    SignOfProduct(q - p, a * b);
  }

  lemma SignOfProduct(x: real, y: real)
    requires y > 0.0
    ensures x >= 0.0 <==> y * x >= 0.0
    ensures x > 0.0 <==> y * x > 0.0
  {
  }

  lemma QuotientAtMost(x: real, y: real, z: real)
    requires y > 0.0 && x <= z * y
    ensures x / y <= z
  {
    var d := x / y;
    assert d * y == x;
    assert y * (z - d) == z * y - x;
    SignOfProduct(z - d, y);
  }

  /** Quoting both prices the other way round leaves the exact deviation alone while no price is tiny or huge. */
  lemma DeviationSurvivesInversion(p: real, q: real)
    requires p > 0.0 && q > 0.0
    requires Low(p, q) >= EPS && 1.0 / p >= EPS && 1.0 / q >= EPS
    ensures RelativeDeviation(1.0 / p, 1.0 / q) == RelativeDeviation(p, q)
    ensures DeviationBps(1.0 / p, 1.0 / q) == DeviationBps(p, q)
  {
    RatioOfInverses(p, q);
    DeviationIsRatio(p, q);
    DeviationIsRatio(1.0 / p, 1.0 / q);
  }

  lemma QuotientInjective(x: real, a: real, b: real)
    requires x > 0.0 && a > 0.0 && b > 0.0 && x / a == x / b
    ensures a == b
  {
    var d := x / a;
    assert d * a == x == d * b;
    assert d * (a - b) == 0.0;
    assert d != 0.0;
  }

  /** Below the epsilon the deviation is not the ratio less one any more. */
  lemma EpsilonShows(low: real, high: real)
    requires 0.0 < low < high && low < EPS
    ensures RelativeDeviation(low, high) == RelativeDeviation(high, low) == (high - low) / EPS
    ensures RelativeDeviation(low, high) != Ratio(low, high) - 1.0
  {
    assert AbsR(low - high) == AbsR(high - low) == high - low;
    var r := high / low;
    assert r * low == high;
    Cancel(high - low, low, r - 1.0) by {
      assert (r - 1.0) * low == r * low - low;
    }
    if (high - low) / EPS == (high - low) / low {
      QuotientInjective(high - low, EPS, low);
    }
  }

  /** For two different prices, low below high, that are not inverses of each other. */
  lemma InversionShowsTheEpsilon(low: real, high: real)
    requires 0.0 < low < high && low * high != 1.0
    requires low < EPS || 1.0 / high < EPS
    ensures 1.0 / low > 0.0 && 1.0 / high > 0.0
            && RelativeDeviation(1.0 / low, 1.0 / high) != RelativeDeviation(low, high)
  {
    InverseGap(low, high);
    RatioOfInverses(low, high);
    if low >= EPS {
      DeviationIsRatio(low, high);
      EpsilonShows(1.0 / high, 1.0 / low);
      RatioIsSymmetric(1.0 / high, 1.0 / low);
    } else if 1.0 / high >= EPS {
      EpsilonShows(low, high);
      DeviationIsRatio(1.0 / low, 1.0 / high);
    } else {
      EpsilonShows(low, high);
      EpsilonShows(1.0 / high, 1.0 / low);
      SameDenominator(1.0 / low - 1.0 / high, high - low);
    }
  }

  lemma RatioIsSymmetric(p: real, q: real)
    requires p > 0.0 && q > 0.0
    ensures Ratio(p, q) == Ratio(q, p)
  {
  }

  lemma SameDenominator(x: real, y: real)
    ensures x / EPS == y / EPS ==> x == y
  {
    assert (x / EPS) * EPS == x && (y / EPS) * EPS == y;
  }

  lemma UnitFactor(x: real, k: real, product: real)
    requires x * k == product && x != 0.0
    ensures product == x ==> k == 1.0
  {
    assert x * (k - 1.0) == product - x;
    assert product == x ==> x * (k - 1.0) == 0.0;
  }

  lemma InverseGapProduct(low: real, high: real)
    requires 0.0 < low < high
    ensures 1.0 / low > 1.0 / high > 0.0
    ensures (1.0 / low - 1.0 / high) * (low * high) == high - low
  {
    var a, b := 1.0 / low, 1.0 / high;
    assert a * low == 1.0 && b * high == 1.0;
    InverseQuotient(low, high);
    assert (a - b) * (low * high) == (a * low) * high - (b * high) * low;
    assert low * high > 0.0;
    assert (low * high) * (a - b) > 0.0;
    SignOfProduct(a - b, low * high);
  }

  lemma InverseGap(low: real, high: real)
    requires 0.0 < low < high
    ensures 1.0 / low > 1.0 / high > 0.0
    ensures 1.0 / low - 1.0 / high == high - low ==> low * high == 1.0
  {
    InverseGapProduct(low, high);
    UnitFactor(1.0 / low - 1.0 / high, low * high, high - low);
  }

  /**
   Quoting both prices the other way round leaves the exact deviation alone if and only if the prices are equal,
   or inverses of each other, or none of the four prices is below the epsilon.
   */
  lemma InversionExactly(p: real, q: real)
    requires p > 0.0 && q > 0.0
    ensures 1.0 / p > 0.0 && 1.0 / q > 0.0
    ensures RelativeDeviation(1.0 / p, 1.0 / q) == RelativeDeviation(p, q) <==>
            p == q || p * q == 1.0 || (p >= EPS && q >= EPS && 1.0 / p >= EPS && 1.0 / q >= EPS)
  {
    InverseQuotient(p, q);
    InverseQuotient(q, p);
    if p >= EPS && q >= EPS && 1.0 / p >= EPS && 1.0 / q >= EPS {
      DeviationSurvivesInversion(p, q);
    } else if p * q == 1.0 {
      Cancel(1.0, p, q);
      Cancel(1.0, q, p);
    } else if p < q {
      InversionShowsTheEpsilon(p, q);
    } else if q < p {
      assert q * p == p * q;
      InversionShowsTheEpsilon(q, p);
    }
  }

  /** The largest deviation that a ratio of one million can show. */
  const MAX_REPORTED_BPS := 9999990000

  lemma RatioBoundsDeviation(p: real, q: real)
    requires p > 0.0 && q > 0.0 && Ratio(p, q) <= GATE
    ensures 0 <= DeviationBps(p, q) <= MAX_REPORTED_BPS
  {
    var low, high := Low(p, q), High(p, q);
    var r := high / low;
    assert r * low == high;
    assert high <= GATE * low by {
      assert low * (GATE - r) == GATE * low - high;
      SignOfProduct(GATE - r, low);
    }
    var den := if low >= EPS then low else EPS;
    QuotientAtMost(high - low, den, GATE - 1.0);
    QuotientAtMost(low - high, den, 0.0);
    assert (low - high) / den == -((high - low) / den);
    assert RelativeDeviation(p, q) == (high - low) / den;
  }

  /** The on-chain reading of one execution, with the result of its normalisation. */
  datatype Reading = Reading(price: real, ts: int, dec0: int, dec1: int, base: real, scale: real,
                             normalized: Normalized)

  /** The two price points that one execution hands to the rule. */
  function PricePoints(aggPrice: real, aggUpdatedAt: int, reading: Option<Reading>, exDetail: string,
                       onDetail: string): Sources {
    var ex := NormalizeExchange(aggPrice);
    (if aggPrice > 0.0 && aggUpdatedAt != ZERO_TIME then
       map["exchange" := PricePoint(ex.raw, ex.price, ex.price, ex.ok, exDetail, aggUpdatedAt)]
     else map[]) +
    (if reading.Some? && reading.value.price > 0.0 && reading.value.ts != ZERO_TIME then
       var n := reading.value.normalized;
       map["onchain" := PricePoint(n.raw, n.price, n.price, n.ok, onDetail, reading.value.ts)]
     else map[])
  }

  /** The reading was normalised against the exchange price of the same execution. */
  ghost predicate NormalizedTogether(aggPrice: real, aggUpdatedAt: int, reading: Option<Reading>) {
    var ref := if aggPrice > 0.0 && aggUpdatedAt != ZERO_TIME then NormalizeExchange(aggPrice).price else 0.0;
    reading.Some? ==>
      var r := reading.value;
      OnchainSpec(r.dec0, r.dec1, r.base, r.scale, r.price, ref, r.normalized)
  }

  /**
   Whatever prices, ticks and decimals come in, a deviation that the rule reports after both normalisers is
   between 0 and 9,999,990,000 basis points: the two compared prices are within a factor of one million.
   */
  lemma ReportedDeviationIsBounded(cfg: Config, now: int, aggPrice: real, aggUpdatedAt: int, reading: Option<Reading>,
                                   exDetail: string, onDetail: string)
    requires cfg.sourceA == "onchain" && cfg.sourceB == "exchange"
    requires NormalizedTogether(aggPrice, aggUpdatedAt, reading)
    ensures var o := Judge(cfg, now, PricePoints(aggPrice, aggUpdatedAt, reading, exDetail, onDetail));
            o.Compared? ==> 0 <= o.deviationBps <= MAX_REPORTED_BPS
  {
    hide OnchainSpec, RelativeDeviation, Ratio, DeviationBps;
    var sources := PricePoints(aggPrice, aggUpdatedAt, reading, exDetail, onDetail);
    var o := Judge(cfg, now, sources);
    assert TrimSpace("onchain") == "onchain" && TrimSpace("exchange") == "exchange";
    if o.Compared? {
      var r := reading.value;
      var ref := 1.0 / aggPrice;
      assert ref * aggPrice == 1.0;
      OnchainWithinGate(r.dec0, r.dec1, r.base, r.scale, r.price, ref, r.normalized);
      RatioBoundsDeviation(r.normalized.price, ref);
    }
  }
}
