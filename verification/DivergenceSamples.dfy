/**
 The collector of rejected price comparisons: the ones with the largest deviation, and the latest ones
 (internal/riskcontrol/divergence_samples.go).
 */
module DivergenceSamples {
  import opened Basics
  import opened Ranks
  import opened Text
  import opened Reasons
  import opened RiskTypes
  import opened PriceDivergence

  datatype Sample = Sample(tsMS: int, aNorm: real, bNorm: real, aTsMS: int, bTsMS: int,
                           deviationBps: int, thresholdBps: int, timestampMismatch: bool)

  const MISSING := PricePoint(0.0, 0.0, 0.0, false, "", 0)

  function PointOf(sources: Sources, key: string): PricePoint {
    if key in sources then sources[key] else MISSING
  }

  predicate Accepted(d: RiskDecision) {
    TrimSpace(d.ruleId) == PRICE_RULE_ID && d.verdict == Reject
  }

  /** The sample recorded for a decision; the reason's own numbers win over recomputed ones. */
  function SampleOf(now: int, sources: Sources, d: RiskDecision, thresholdBps: int): Sample {
    var a, b := PointOf(sources, "onchain"), PointOf(sources, "exchange");
    var dev, th := ParseInt64After(d.reason, "deviation_bps="), ParseInt64After(d.reason, "threshold_bps=");
    Sample(now, Norm(a), Norm(b), a.tsMS, b.tsMS,
           if dev.Some? then dev.value else DeviationBps(Norm(a), Norm(b)),
           if th.Some? then th.value else thresholdBps,
           Abs(a.tsMS - b.tsMS) > 10000)
  }

  function Devs(samples: seq<Sample>): seq<int> {
    if samples == [] then [] else Devs(samples[..|samples| - 1]) + [samples[|samples| - 1].deviationBps]
  }

  lemma {:induction false} DevsAt(samples: seq<Sample>)
    ensures |Devs(samples)| == |samples|
    ensures forall i :: 0 <= i < |samples| ==> Devs(samples)[i] == samples[i].deviationBps
  {
    if samples != [] {
      DevsAt(samples[..|samples| - 1]);
    }
  }

  function LastN<T>(n: nat, s: seq<T>): seq<T> {
    if |s| <= n then s else s[|s| - n..]
  }

  ghost predicate ByDeviation(samples: seq<Sample>) {
    forall i, j :: 0 <= i <= j < |samples| ==> samples[i].deviationBps >= samples[j].deviationBps
  }

  /** Some arrangement by descending deviation; which of several equal ones comes first is left open. */
  method SortByDeviation(samples: seq<Sample>) returns (sorted: seq<Sample>)
    ensures ByDeviation(sorted) && multiset(sorted) == multiset(samples) && |sorted| == |samples|
  {
    sorted := [];
    for i := 0 to |samples|
      invariant ByDeviation(sorted) && |sorted| == i
      invariant multiset(sorted) == multiset(samples[..i])
    {
      assert samples[..i + 1] == samples[..i] + [samples[i]];
      sorted := InsertByDeviation(sorted, samples[i]);
    }
    assert samples[..|samples|] == samples;
  }

  method InsertByDeviation(sorted: seq<Sample>, s: Sample) returns (out: seq<Sample>)
    requires ByDeviation(sorted)
    ensures ByDeviation(out) && multiset(out) == multiset(sorted) + multiset{s} && |out| == |sorted| + 1
  {
    var k := 0;
    while k < |sorted| && sorted[k].deviationBps > s.deviationBps
      invariant 0 <= k <= |sorted|
      invariant forall j :: 0 <= j < k ==> sorted[j].deviationBps > s.deviationBps
    {
      k := k + 1;
    }
    out := sorted[..k] + [s] + sorted[k..];
    assert sorted == sorted[..k] + sorted[k..];
  }

  class RejectCollector {
    const topN: nat
    const recentN: nat
    var topByDeviation: seq<Sample>
    var recent: seq<Sample>
    ghost var history: seq<Sample>

    /** The two lists are determined by everything that was accepted so far. */
    ghost predicate Valid()
      reads this
    {
      && Devs(topByDeviation) == Take(topN, SortDesc(Devs(history)))
      && multiset(topByDeviation) <= multiset(history)
      && recent == LastN(recentN, history)
    }

    constructor (topN: int, recentN: int)
      ensures Valid() && history == []
      ensures this.topN == (if topN <= 0 then 10 else topN) && this.recentN == (if recentN < 0 then 0 else recentN)
    {
      this.topN := if topN <= 0 then 10 else topN;
      this.recentN := if recentN < 0 then 0 else recentN;
      topByDeviation, recent, history := [], [], [];
    }

    method ObserveReject(now: int, sources: Sources, d: RiskDecision, thresholdBps: int)
      requires Valid()
      modifies this
      ensures Valid()
      ensures history == if Accepted(d) then old(history) + [SampleOf(now, sources, d, thresholdBps)] else old(history)
      ensures d.verdict != Reject || TrimSpace(d.ruleId) != PRICE_RULE_ID ==> unchanged(this)
      ensures d.verdict == Reject && TrimSpace(d.ruleId) == PRICE_RULE_ID ==> |history| == |old(history)| + 1
    {
      hide SampleOf;
      if !Accepted(d) {
        return;
      }
      var s := SampleOf(now, sources, d, thresholdBps);
      ghost var past := history;
      history := history + [s];
      if recentN > 0 {
        recent := recent + [s];
        if |recent| > recentN {
          recent := recent[|recent| - recentN..];
        }
      }
      assert recent == LastN(recentN, history);
      ghost var before := topByDeviation;
      var sorted := SortByDeviation(topByDeviation + [s]);
      TopStep(before, past, s, sorted, topN);
      topByDeviation := if |sorted| > topN then sorted[..topN] else sorted;
    }
  }

  /** Taking one sample out of a list takes its deviation out of the deviations. */
  lemma DevsWithout(t: seq<Sample>, k: nat)
    requires k < |t|
    ensures multiset(t[..k] + t[k + 1..]) == multiset(t) - multiset{t[k]}
    ensures multiset(Devs(t)) == multiset(Devs(t[..k] + t[k + 1..])) + multiset{t[k].deviationBps}
  {
    hide Devs;
    var before, x, after := t[..k], t[k], t[k + 1..];
    assert t == before + [x] + after;
    DevsAround(before, x, after);
  }

  lemma DevsAround(before: seq<Sample>, x: Sample, after: seq<Sample>)
    ensures multiset(before + after) == multiset(before + [x] + after) - multiset{x}
    ensures multiset(Devs(before + [x] + after)) == multiset(Devs(before + after)) + multiset{x.deviationBps}
  {
    DevsConcat(before, after);
    DevsConcat(before + [x], after);
    assert (before + [x])[..|before|] == before;
    assert Devs(before + [x]) == Devs(before) + [x.deviationBps];
  }

  lemma {:induction false} DevsOfMultiset(s: seq<Sample>, t: seq<Sample>)
    requires multiset(s) == multiset(t)
    ensures multiset(Devs(s)) == multiset(Devs(t))
  {
    assert |s| == |multiset(s)| == |multiset(t)| == |t|;
    if s != [] {
      var n := |s| - 1;
      assert s[n] in multiset(t);
      var k :| 0 <= k < |t| && t[k] == s[n];
      DevsWithout(s, n);
      DevsWithout(t, k);
      DevsOfMultiset(s[..n] + s[n + 1..], t[..k] + t[k + 1..]);
    }
  }

  lemma {:induction false} DevsConcat(s: seq<Sample>, t: seq<Sample>)
    ensures Devs(s + t) == Devs(s) + Devs(t)
  {
    if t == [] {
      assert s + t == s;
    } else {
      DevsConcat(s, t[..|t| - 1]);
      assert (s + t)[..|s + t| - 1] == s + t[..|t| - 1];
    }
  }

  /** Truncating the sorted previous list plus one sample yields the top of the whole history. */
  lemma TopStep(top: seq<Sample>, past: seq<Sample>, s: Sample, sorted: seq<Sample>, n: nat)
    requires Devs(top) == Take(n, SortDesc(Devs(past))) && multiset(top) <= multiset(past)
    requires ByDeviation(sorted) && multiset(sorted) == multiset(top + [s]) && |sorted| == |top| + 1
    ensures var kept := if |sorted| > n then sorted[..n] else sorted;
            && Devs(kept) == Take(n, SortDesc(Devs(past + [s])))
            && multiset(kept) <= multiset(past + [s])
  {
    hide Devs, SortDesc, InsertDesc, ByDeviation;
    var all := SortDesc(Devs(past));
    SortDescShape(Devs(past));
    SortedDevs(top, s, sorted, Take(n, all));
    TopIsIncremental(n, all, s.deviationBps);
    SortedPast(past, s);
    DevsOfPrefix(sorted, n);
    KeptFromHistory(top, past, s, sorted, n);
  }

  lemma KeptFromHistory(top: seq<Sample>, past: seq<Sample>, s: Sample, sorted: seq<Sample>, n: nat)
    requires multiset(top) <= multiset(past) && multiset(sorted) == multiset(top + [s])
    ensures var kept := if |sorted| > n then sorted[..n] else sorted;
            multiset(kept) <= multiset(past + [s])
  {
    var kept := if |sorted| > n then sorted[..n] else sorted;
    if |sorted| > n {
      assert sorted == sorted[..n] + sorted[n..];
      assert multiset(sorted) == multiset(sorted[..n]) + multiset(sorted[n..]);
    }
    assert multiset(top + [s]) == multiset(top) + multiset{s};
    assert multiset(past + [s]) == multiset(past) + multiset{s};
    assert forall x :: multiset(kept)[x] <= multiset(sorted)[x] == multiset(top)[x] + multiset{s}[x];
    assert forall x :: multiset(top)[x] <= multiset(past)[x];
  }

  lemma SortedPast(past: seq<Sample>, s: Sample)
    ensures SortDesc(Devs(past + [s])) == InsertDesc(SortDesc(Devs(past)), s.deviationBps)
  {
    assert (past + [s])[..|past|] == past;
    assert (Devs(past) + [s.deviationBps])[..|Devs(past)|] == Devs(past);
  }

  lemma SortedDevs(top: seq<Sample>, s: Sample, sorted: seq<Sample>, before: seq<int>)
    requires Descending(before) && Devs(top) == before
    requires ByDeviation(sorted) && multiset(sorted) == multiset(top + [s])
    ensures Devs(sorted) == InsertDesc(before, s.deviationBps)
  {
    DevsAt(sorted);
    DevsOfMultiset(sorted, top + [s]);
    assert (top + [s])[..|top|] == top;
    assert Devs(top + [s]) == before + [s.deviationBps];
    InsertDescShape(before, s.deviationBps);
    DescendingIsUnique(Devs(sorted), InsertDesc(before, s.deviationBps));
  }

  lemma DevsOfPrefix(sorted: seq<Sample>, n: nat)
    ensures |Devs(sorted)| == |sorted|
    ensures |sorted| > n ==> Devs(sorted[..n]) == Devs(sorted)[..n]
  {
    DevsAt(sorted);
    if |sorted| > n {
      DevsAt(sorted[..n]);
    }
  }

  /**
   For a rejection printed by the price rule over the collector's two sources, the recorded sample carries exactly
   the deviation and the threshold that the rule compared.
   */
  lemma SampleIsExact(cfg: Config, now: int, sources: Sources, thresholdBps: int)
    requires Judge(cfg, now, sources).Compared? && Judge(cfg, now, sources).reject
    requires MarkerFree(cfg, sources, "deviation_bps=") && MarkerFree(cfg, sources, "threshold_bps=")
    requires Judge(cfg, now, sources).deviationBps <= MAX_INT64 && -MAX_INT64 - 1 <= cfg.thresholdBps
    ensures var d := Evaluate(cfg, now, sources);
            && Accepted(d)
            && SampleOf(now, sources, d, thresholdBps).deviationBps == Judge(cfg, now, sources).deviationBps
            && SampleOf(now, sources, d, thresholdBps).thresholdBps == cfg.thresholdBps
  {
    RejectsAbove(cfg, now, sources);
    hide Judge, Words, ParseInt64After, Norm, DeviationBps, MarkerFree, TrimSpace, Join;
    ComparedNumbersReadBack(cfg, now, sources);
    PriceRuleIdIsTrim();
  }

  /**
   The two prices and times of a sample are those that were compared, for the collector's two sources; the mismatch note
   is set exactly if they were seen more than ten seconds apart.
   */
  lemma SamplePricesAreCompared(cfg: Config, now: int, sources: Sources, thresholdBps: int)
    requires TrimSpace(cfg.sourceA) == "onchain" && TrimSpace(cfg.sourceB) == "exchange"
    requires Judge(cfg, now, sources).Compared?
    ensures var s := SampleOf(now, sources, Evaluate(cfg, now, sources), thresholdBps);
            && "onchain" in sources && "exchange" in sources
            && var a, b := sources["onchain"], sources["exchange"];
               && s.tsMS == now && s.aTsMS == a.tsMS && s.bTsMS == b.tsMS
               && s.aNorm == (if a.normalizedPrice > 0.0 then a.normalizedPrice else a.price) > 0.0
               && s.bNorm == (if b.normalizedPrice > 0.0 then b.normalizedPrice else b.price) > 0.0
               && (s.timestampMismatch <==> a.tsMS > b.tsMS + 10000 || b.tsMS > a.tsMS + 10000)
  {
    ComparedValue(cfg, now, sources);
    ComparedDeviation(cfg, now, sources);
    hide Judge, Words, ParseInt64After, DeviationBps, TrimSpace, Join;
  }

  /**
   A reason without numbers is made up for: by the deviation of the two recorded prices, and by the caller's
   threshold.
   */
  lemma SampleWithoutNumbers(now: int, sources: Sources, d: RiskDecision, thresholdBps: int)
    requires ParseInt64After(d.reason, "deviation_bps=") == None && ParseInt64After(d.reason, "threshold_bps=") == None
    ensures var s := SampleOf(now, sources, d, thresholdBps);
            var low := if s.aNorm <= s.bNorm then s.aNorm else s.bNorm;
            var high := if s.aNorm <= s.bNorm then s.bNorm else s.aNorm;
            var den := if low >= 0.000000001 then low else 0.000000001;
            var dev := s.deviationBps as real;
            && s.thresholdBps == thresholdBps
            && (low > 0.0 ==> (dev - 0.5) * den <= 10000.0 * (high - low) < (dev + 0.5) * den)
            && (low <= 0.0 ==> s.deviationBps == MAX_INT64)
  {
    var a, b := Norm(PointOf(sources, "onchain")), Norm(PointOf(sources, "exchange"));
    if a > 0.0 && b > 0.0 {
      DeviationIsNearest(a, b);
      hide DeviationBps;
    }
    hide ParseInt64After, Norm, PointOf;
  }

  lemma PriceRuleIdIsTrim()
    ensures TrimSpace(PRICE_RULE_ID) == PRICE_RULE_ID
  {
  }

  lemma RejectsAbove(cfg: Config, now: int, sources: Sources)
    ensures var o := Judge(cfg, now, sources); o.Compared? ==> (o.reject <==> o.deviationBps > cfg.thresholdBps)
  {
  }
}
