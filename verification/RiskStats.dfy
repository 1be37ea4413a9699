/**
 The running statistics over evaluations: counters that must agree with each other, and the bounded buffer of
 deviations with its sum, maximum and quantiles (internal/riskcontrol/stats.go).
 */
module RiskStats {
  import opened Basics
  import opened Ranks
  import opened Text
  import opened RiskTypes
  import opened Evaluator
  import PriceDivergence

  // ---------------------------------------------------------------- the deviation buffer

  const CAPACITY := 8192

  datatype Deviations = Deviations(samples: seq<int>, max: int, sum: int)

  /** The sum gains the value once, and once more when it overwrites an old sample. */
  function ObserveDeviation(d: Deviations, v: int, total: nat): Deviations {
    var x := Max(v, 0);
    if |d.samples| < CAPACITY then Deviations(d.samples + [x], Max(d.max, x), d.sum + x)
    else
      var idx := total % |d.samples|;
      Deviations(d.samples[idx := x], Max(d.max, x), d.sum + x - d.samples[idx] + x)
  }

  /** The values observed after the first `CAPACITY` ones. */
  function Overflow(observed: seq<int>): seq<int> {
    if |observed| <= CAPACITY then [] else observed[CAPACITY..]
  }

  /** The account of a buffer after a list of (non-negative) observed values. */
  ghost predicate Accounts(d: Deviations, observed: seq<int>) {
    && (forall x :: x in observed ==> 0 <= x <= d.max)
    && (d.max == 0 || d.max in observed)
    && |d.samples| == Min(|observed|, CAPACITY)
    && (forall x :: x in d.samples ==> x in observed)
    && (|observed| <= CAPACITY ==> d.samples == observed)
    && d.sum == Sum(d.samples) + Sum(Overflow(observed))
  }

  lemma AccountsStep(d: Deviations, observed: seq<int>, v: int, total: nat)
    requires Accounts(d, observed)
    ensures Accounts(ObserveDeviation(d, v, total), observed + [Max(v, 0)])
  {
    if |d.samples| < CAPACITY {
      AccountsAppend(d, observed, v, total);
    } else {
      AccountsOverwrite(d, observed, v, total);
    }
  }

  lemma AccountsAppend(d: Deviations, observed: seq<int>, v: int, total: nat)
    requires Accounts(d, observed) && |d.samples| < CAPACITY
    ensures Accounts(ObserveDeviation(d, v, total), observed + [Max(v, 0)])
  {
    hide Sum;
    SumAppend(d.samples, Max(v, 0));
  }

  lemma AccountsOverwrite(d: Deviations, observed: seq<int>, v: int, total: nat)
    requires Accounts(d, observed) && |d.samples| >= CAPACITY
    ensures Accounts(ObserveDeviation(d, v, total), observed + [Max(v, 0)])
  {
    hide Sum;
    var x, idx := Max(v, 0), total % |d.samples|;
    SumUpdate(d.samples, idx, x);
    SumAppend(Overflow(observed), x);
    assert Overflow(observed + [x]) == Overflow(observed) + [x];
  }

  lemma SumAppend(s: seq<int>, x: int)
    ensures Sum(s + [x]) == Sum(s) + x
  {
    assert (s + [x])[..|s|] == s;
  }

  lemma {:induction false} SumIsZero(s: seq<int>)
    requires forall i :: 0 <= i < |s| ==> s[i] >= 0
    ensures Sum(s) >= 0 && (Sum(s) == 0 <==> forall i :: 0 <= i < |s| ==> s[i] == 0)
  {
    if s != [] {
      var init := s[..|s| - 1];
      SumIsZero(init);
      assert (forall i :: 0 <= i < |s| ==> s[i] == 0) ==> forall i :: 0 <= i < |init| ==> init[i] == 0;
      assert (forall i :: 0 <= i < |init| ==> init[i] == 0) ==> forall i :: 0 <= i < |init| ==> s[i] == 0;
    }
  }

  /**
   The sum that the average is computed from is the sum of the buffer exactly as long as every value that came
   after the buffer was full is zero.
   */
  lemma SumMatchesBufferExactly(d: Deviations, observed: seq<int>)
    requires Accounts(d, observed)
    ensures d.sum >= Sum(d.samples)
    ensures d.sum == Sum(d.samples) <==> forall i :: CAPACITY <= i < |observed| ==> observed[i] == 0
  {
    var late := Overflow(observed);
    forall i | 0 <= i < |late| ensures late[i] >= 0 {
      assert observed[CAPACITY + i] in observed;
    }
    SumIsZero(late);
    assert forall i :: CAPACITY <= i < |observed| ==> observed[i] == late[i - CAPACITY];
    assert forall i :: 0 <= i < |late| ==> late[i] == observed[CAPACITY + i];
  }

  /** The average that a snapshot reports. */
  function Average(d: Deviations): real
    requires d.samples != []
  {
    d.sum as real / |d.samples| as real
  }

  /** Until the buffer overflows it holds exactly what was observed, and the average is the true one. */
  lemma AverageBelowCapacity(d: Deviations, observed: seq<int>)
    requires Accounts(d, observed) && 0 < |observed| <= CAPACITY
    ensures d.samples == observed && Average(d) * |observed| as real == Sum(observed) as real
  {
    assert Sum(Overflow(observed)) == 0;
  }

  // ---------------------------------------------------------------- quantiles

  function QuantileSorted(sorted: seq<int>, q: real): int {
    if |sorted| == 0 then 0
    else if q <= 0.0 then sorted[0]
    else if q >= 1.0 then sorted[|sorted| - 1]
    else
      RankInRange(|sorted|, q);
      sorted[(q * (|sorted| - 1) as real).Floor]
  }

  lemma RankInRange(n: nat, q: real)
    requires n > 0 && 0.0 < q < 1.0
    ensures 0 <= (q * (n - 1) as real).Floor <= n - 1
  {
    var m := (n - 1) as real;
    ProductIsNotNegative(q, m);
    ProductIsNotNegative(1.0 - q, m);
    assert (1.0 - q) * m == m - q * m;
  }

  lemma ProductIsNotNegative(x: real, y: real)
    ensures x >= 0.0 && y >= 0.0 ==>
              x * y >= 0.0
  {
  }

  /**
   The two reported quantiles are the elements of rank floor(q * (n - 1)) of the buffer itself, and they are
   ordered: P50 <= P95 <= the largest deviation ever seen.
   */
  lemma QuantilesAreRanks(d: Deviations, observed: seq<int>)
    requires Accounts(d, observed) && d.samples != []
    ensures var n := |d.samples| - 1;
            var sorted := SortAsc(d.samples);
            var p50, p95 := QuantileSorted(sorted, 0.5), QuantileSorted(sorted, 0.95);
            && HasRank(d.samples, n / 2, p50)
            && HasRank(d.samples, n * 95 / 100, p95)
            && p50 <= p95 <= d.max
  {
    var n := |d.samples| - 1;
    SortIsSorted(d.samples);
    assert (0.5 * n as real).Floor == n / 2;
    assert (0.95 * n as real).Floor == n * 95 / 100;
    SortedHasRank(d.samples, n / 2);
    SortedHasRank(d.samples, n * 95 / 100);
  }

  // ---------------------------------------------------------------- counters

  datatype Stats = Stats(total: nat,
                         verdictCounts: map<string, int>,
                         ruleCounts: map<string, int>,
                         rejectCounts: map<string, int>,
                         skipCounts: map<string, int>,
                         skipReasons: map<PriceDivergence.SkipKind, int>,
                         cooldownRejects: map<string, int>,
                         deviations: Deviations,
                         divReject: int)

  const FRESH_STATS := Stats(0, map[], map[], map[], map[], map[], map[], Deviations([], 0, 0), 0)

  function Bump<K>(m: map<K, int>, k: K): map<K, int> {
    m[k := Get(m, k) + 1]
  }

  function IsSkip(d: RiskDecision): bool {
    PriceDivergence.IsSkipReason(d.reason)
  }

  predicate HasSkip(ds: seq<RiskDecision>) {
    exists d :: d in ds && IsSkip(d)
  }

  function VerdictText(v: Verdict): string {
    match v
    case Approve => "APPROVE"
    case Modify => "MODIFY"
    case Reject => "REJECT"
    case Unset => ""
    case Invalid(text) => text
  }

  /** Under which name an evaluation is counted. */
  function CountedAs(ev: Evaluation): string {
    if ev.verdict != Reject && HasSkip(ev.decisions) then "SKIP"
    else if ev.verdict == Unset then "APPROVE"
    else VerdictText(ev.verdict)
  }

  function RuleName(d: RiskDecision): string {
    if TrimSpace(d.ruleId) == "" then "unknown_rule" else TrimSpace(d.ruleId)
  }

  function CooldownKeyOf(d: RiskDecision): Option<string> {
    var key := ParseStringAfter(d.reason, "cooldown_key=");
    if d.verdict == Reject && RuleName(d) == COOLDOWN_RULE_ID && key.Some? && key.value != "" then key else None
  }

  function DeviationOf(d: RiskDecision): Option<int> {
    if RuleName(d) == PRICE_RULE_ID then ParseInt64After(d.reason, "deviation_bps=") else None
  }

  function ObserveDecision(st: Stats, d: RiskDecision): Stats {
    var rule, key, dev := RuleName(d), CooldownKeyOf(d), DeviationOf(d);
    st.(ruleCounts := Bump(st.ruleCounts, rule),
        rejectCounts := if d.verdict == Reject then Bump(st.rejectCounts, rule) else st.rejectCounts,
        cooldownRejects := if key.Some? then Bump(st.cooldownRejects, key.value) else st.cooldownRejects,
        skipCounts := if IsSkip(d) then Bump(st.skipCounts, rule) else st.skipCounts,
        skipReasons := if IsSkip(d) then Bump(st.skipReasons, PriceDivergence.SkipReasonKind(d.reason))
                       else st.skipReasons,
        deviations := if dev.Some? then ObserveDeviation(st.deviations, dev.value, st.total) else st.deviations,
        divReject := if rule == PRICE_RULE_ID && d.verdict == Reject then st.divReject + 1 else st.divReject)
  }

  function ObserveDecisions(st: Stats, ds: seq<RiskDecision>): Stats {
    if ds == [] then st else ObserveDecision(ObserveDecisions(st, ds[..|ds| - 1]), ds[|ds| - 1])
  }

  function ObserveEvaluation(st: Stats, ev: Evaluation): Stats {
    ObserveDecisions(st.(total := st.total + 1, verdictCounts := Bump(st.verdictCounts, CountedAs(ev))), ev.decisions)
  }

  /** What a snapshot reports. */
  datatype Report = Report(counts: Counts, timeMismatchSkips: int, timeMismatchRate: real, divergence: DivergenceReport)

  datatype Counts = Counts(total: int, verdicts: map<string, int>, rules: map<string, int>, rejects: map<string, int>,
                           skips: map<string, int>, skipReasons: map<PriceDivergence.SkipKind, int>,
                           cooldownRejects: map<string, int>)

  datatype DivergenceReport = DivergenceReport(sampleCount: int, rejectCount: int, maxBps: int, avgBps: real,
                                               p50Bps: int, p95Bps: int)

  class Collector {
    var total: nat
    var verdictCounts: map<string, int>
    var ruleCounts: map<string, int>
    var rejectCounts: map<string, int>
    var skipCounts: map<string, int>
    var skipReasons: map<PriceDivergence.SkipKind, int>
    var cooldownRejects: map<string, int>
    var divSamples: seq<int>
    var divMax: int
    var divSum: int
    var divReject: int

    constructor ()
      ensures Current() == FRESH_STATS
    {
      total, verdictCounts, ruleCounts, rejectCounts, skipCounts := 0, map[], map[], map[], map[];
      skipReasons, cooldownRejects := map[], map[];
      divSamples, divMax, divSum, divReject := [], 0, 0, 0;
    }

    function Current(): Stats
      reads this
    {
      Stats(total, verdictCounts, ruleCounts, rejectCounts, skipCounts, skipReasons, cooldownRejects,
            Deviations(divSamples, divMax, divSum), divReject)
    }

    method ObserveDeviationBps(value: int)
      modifies `divSamples, `divMax, `divSum
      ensures Deviations(divSamples, divMax, divSum) == ObserveDeviation(old(Current().deviations), value, total)
    {
      var v := value;
      if v < 0 {
        v := 0;
      }
      if v > divMax {
        divMax := v;
      }
      divSum := divSum + v;
      if |divSamples| < CAPACITY {
        divSamples := divSamples + [v];
        return;
      }
      var idx := total % |divSamples|;
      divSum := divSum - divSamples[idx];
      divSamples := divSamples[idx := v];
      divSum := divSum + v;
    }

    method ObserveOne(d: RiskDecision)
      modifies this
      ensures Current() == ObserveDecision(old(Current()), d)
    {
      hide ObserveDeviation, IsSkip, PriceDivergence.SkipReasonKind, ParseStringAfter, ParseInt64After, TrimSpace, Bump;
      var rule := RuleName(d);
      var rejects, cooldowns, skips, kinds := rejectCounts, cooldownRejects, skipCounts, skipReasons;
      if d.verdict == Reject {
        rejects := Bump(rejects, rule);
        if rule == COOLDOWN_RULE_ID {
          var key := ParseStringAfter(d.reason, "cooldown_key=");
          if key.Some? && key.value != "" {
            cooldowns := Bump(cooldowns, key.value);
          }
        }
      }
      if IsSkip(d) {
        skips := Bump(skips, rule);
        kinds := Bump(kinds, PriceDivergence.SkipReasonKind(d.reason));
      }
      ruleCounts, rejectCounts, cooldownRejects := Bump(ruleCounts, rule), rejects, cooldowns;
      skipCounts, skipReasons := skips, kinds;
      if rule == PRICE_RULE_ID {
        var dev := ParseInt64After(d.reason, "deviation_bps=");
        if dev.Some? {
          ObserveDeviationBps(dev.value);
        }
        if d.verdict == Reject {
          divReject := divReject + 1;
        }
      }
    }

    method Observe(ev: Evaluation)
      modifies this
      ensures Current() == ObserveEvaluation(old(Current()), ev)
    {
      hide ObserveDecision, IsSkip;
      total := total + 1;
      verdictCounts := Bump(verdictCounts, CountedAs(ev));
      ghost var start := Current();
      for i := 0 to |ev.decisions|
        invariant Current() == ObserveDecisions(start, ev.decisions[..i])
      {
        assert ev.decisions[..i + 1][..i] == ev.decisions[..i];
        ObserveOne(ev.decisions[i]);
      }
      assert ev.decisions[..|ev.decisions|] == ev.decisions;
    }

    method Snapshot() returns (r: Report)
      ensures r.counts == Counts(total, verdictCounts, ruleCounts, rejectCounts, skipCounts, skipReasons,
                                 cooldownRejects)
      ensures r.timeMismatchSkips == Get(skipReasons, PriceDivergence.TimeMismatchSkip)
      ensures r.timeMismatchRate * total as real == if total > 0 then r.timeMismatchSkips as real else 0.0
      ensures total == 0 ==> r.timeMismatchRate == 0.0
      ensures var d := r.divergence;
              && d.sampleCount == |divSamples| && d.rejectCount == divReject && d.maxBps == divMax
              && (divSamples == [] ==> d.avgBps == 0.0 && d.p50Bps == 0 && d.p95Bps == 0)
              && (divSamples != [] ==>
                    && d.avgBps == Average(Current().deviations)
                    && d.p50Bps == QuantileSorted(SortAsc(divSamples), 0.5)
                    && d.p95Bps == QuantileSorted(SortAsc(divSamples), 0.95))
    {
      hide QuantileSorted, SortAsc;
      var mismatches, rate := Get(skipReasons, PriceDivergence.TimeMismatchSkip), 0.0;
      if total > 0 {
        rate := mismatches as real / total as real;
      }
      var divergence := DivergenceReport(|divSamples|, divReject, divMax, 0.0, 0, 0);
      if |divSamples| > 0 {
        var sorted := SortAsc(divSamples);
        divergence := divergence.(avgBps := divSum as real / |divSamples| as real,
                                  p50Bps := QuantileSorted(sorted, 0.5), p95Bps := QuantileSorted(sorted, 0.95));
      }
      r := Report(Counts(total, verdictCounts, ruleCounts, rejectCounts, skipCounts, skipReasons, cooldownRejects),
                  mismatches, rate, divergence);
    }
  }

  // ---------------------------------------------------------------- the counters agree

  function Run(evs: seq<Evaluation>): Stats {
    if evs == [] then FRESH_STATS else ObserveEvaluation(Run(evs[..|evs| - 1]), evs[|evs| - 1])
  }

  /** The shape of everything that the evaluator produces. */
  ghost predicate FromEvaluator(ev: Evaluation) {
    ev == Conclude(ev.decisions) && forall i :: 0 <= i < |ev.decisions| - 1 ==> !Stops(ev.decisions[i])
  }

  lemma EvaluatorProduces<C, S>(rules: seq<Rule<C, S>>, ctx: C, s: S)
    ensures FromEvaluator(Conclude(Consulted(rules, ctx, s).0))
  {
    OnlyLastStops(rules, ctx, s);
  }

  /** How many evaluations were ended by a verdict that is none of the three. */
  function InvalidStops(evs: seq<Evaluation>): nat {
    if evs == [] then 0 else
      var ds := evs[|evs| - 1].decisions;
      InvalidStops(evs[..|evs| - 1]) + if ds != [] && ds[|ds| - 1].verdict.Invalid? then 1 else 0
  }

  /** The counters that hold whatever the decisions are. */
  ghost predicate Balanced(st: Stats) {
    && Total(st.skipCounts) == Total(st.skipReasons)
    && st.divReject == Get(st.rejectCounts, PRICE_RULE_ID)
  }

  lemma BumpTotal<K(!new)>(m: map<K, int>, k: K)
    ensures Total(Bump(m, k)) == Total(m) + 1
  {
    TotalSet(m, k, Get(m, k) + 1);
  }

  lemma DecisionKeepsBalance(st: Stats, d: RiskDecision)
    requires Balanced(st)
    ensures Balanced(ObserveDecision(st, d))
    ensures Total(ObserveDecision(st, d).rejectCounts) == Total(st.rejectCounts) + if d.verdict == Reject then 1 else 0
  {
    hide ObserveDeviation, IsSkip, PriceDivergence.SkipReasonKind, ParseStringAfter, ParseInt64After, TrimSpace,
         RuleName, Total;
    BumpTotal(st.rejectCounts, RuleName(d));
    BumpTotal(st.skipCounts, RuleName(d));
    BumpTotal(st.skipReasons, PriceDivergence.SkipReasonKind(d.reason));
  }

  lemma {:induction false} DecisionsKeepBalance(st: Stats, ds: seq<RiskDecision>)
    requires Balanced(st)
    ensures var st' := ObserveDecisions(st, ds);
            && Balanced(st') && st'.total == st.total && st'.verdictCounts == st.verdictCounts
            && Total(st'.rejectCounts) == Total(st.rejectCounts) + Rejections(ds)
  {
    hide ObserveDecision, Total;
    if ds != [] {
      DecisionsKeepBalance(st, ds[..|ds| - 1]);
      DecisionKeepsBalance(ObserveDecisions(st, ds[..|ds| - 1]), ds[|ds| - 1]);
      DecisionLeaves(ObserveDecisions(st, ds[..|ds| - 1]), ds[|ds| - 1]);
    }
  }

  lemma DecisionLeaves(st: Stats, d: RiskDecision)
    ensures ObserveDecision(st, d).total == st.total && ObserveDecision(st, d).verdictCounts == st.verdictCounts
  {
  }

  lemma RejectingDecisions(ev: Evaluation)
    requires FromEvaluator(ev)
    ensures var ds := ev.decisions;
            var invalid := ds != [] && ds[|ds| - 1].verdict.Invalid?;
            && (ev.verdict == Reject <==> Rejections(ds) == 1 || invalid)
            && Rejections(ds) == (if ev.verdict == Reject && !invalid then 1 else 0)
            && (CountedAs(ev) == "REJECT" <==> ev.verdict == Reject)
  {
    hide IsSkip;
    if ev.decisions != [] {
      NoRejections(ev.decisions[..|ev.decisions| - 1]);
    }
  }

  /**
   In every state reached by observing what the evaluator produces: the verdict counts add up to the number of
   evaluations, the rejected evaluations are the rejecting decisions plus the evaluations ended by an invalid
   verdict, each skip is counted once by rule and once by kind, and the price rule's rejects are counted alike.
   */
  lemma {:induction false} CountersAgree(evs: seq<Evaluation>)
    requires forall i :: 0 <= i < |evs| ==> FromEvaluator(evs[i])
    ensures var st := Run(evs);
            && st.total == |evs|
            && Total(st.verdictCounts) == st.total
            && Get(st.verdictCounts, "REJECT") == Total(st.rejectCounts) + InvalidStops(evs)
            && Balanced(st)
  {
    if evs != [] {
      var init, ev := evs[..|evs| - 1], evs[|evs| - 1];
      assert forall i :: 0 <= i < |init| ==> init[i] == evs[i];
      CountersAgree(init);
      CountersStep(Run(init), ev);
    }
  }

  lemma CountersStep(st: Stats, ev: Evaluation)
    requires FromEvaluator(ev) && Balanced(st)
    ensures var st' := ObserveEvaluation(st, ev);
            var ds := ev.decisions;
            && Balanced(st') && st'.total == st.total + 1
            && Total(st'.verdictCounts) == Total(st.verdictCounts) + 1
            && Get(st'.verdictCounts, "REJECT") - Total(st'.rejectCounts) ==
               Get(st.verdictCounts, "REJECT") - Total(st.rejectCounts) +
               if ds != [] && ds[|ds| - 1].verdict.Invalid? then 1 else 0
  {
    hide CountedAs, Total, ObserveDecisions, Conclude;
    BumpTotal(st.verdictCounts, CountedAs(ev));
    RejectingDecisions(ev);
    DecisionsKeepBalance(st.(total := st.total + 1, verdictCounts := Bump(st.verdictCounts, CountedAs(ev))),
                         ev.decisions);
  }

  // ---------------------------------------------------------------- the deviations of a whole run

  function ReportedBy(d: RiskDecision): seq<int> {
    var dev := DeviationOf(d);
    if dev.Some? then [Max(dev.value, 0)] else []
  }

  /** The deviations that the price rule's decisions report, negative ones read as zero. */
  function Reported(ds: seq<RiskDecision>): seq<int> {
    if ds == [] then [] else
      Reported(ds[..|ds| - 1]) + ReportedBy(ds[|ds| - 1])
  }

  function AllReported(evs: seq<Evaluation>): seq<int> {
    if evs == [] then [] else AllReported(evs[..|evs| - 1]) + Reported(evs[|evs| - 1].decisions)
  }

  lemma {:induction false} DecisionsAccount(st: Stats, ds: seq<RiskDecision>, observed: seq<int>)
    requires Accounts(st.deviations, observed)
    ensures Accounts(ObserveDecisions(st, ds).deviations, observed + Reported(ds))
  {
    hide Accounts, DeviationOf, CooldownKeyOf, IsSkip, RuleName, PriceDivergence.SkipReasonKind, ObserveDeviation;
    if ds == [] {
      assert observed + [] == observed;
    } else {
      var init, d := ds[..|ds| - 1], ds[|ds| - 1];
      DecisionsAccount(st, init, observed);
      var before := ObserveDecisions(st, init);
      if DeviationOf(d).Some? {
        AccountsStep(before.deviations, observed + Reported(init), DeviationOf(d).value, before.total);
        assert observed + Reported(ds) == observed + Reported(init) + [Max(DeviationOf(d).value, 0)];
      } else {
        assert Reported(ds) == Reported(init);
      }
    }
  }

  /**
   Over any run the buffer never exceeds its capacity, and its sum is the sum of the buffer plus, once more, every
   value that came after it was full.
   */
  lemma {:induction false} DeviationsAccount(evs: seq<Evaluation>)
    ensures Accounts(Run(evs).deviations, AllReported(evs))
    ensures |Run(evs).deviations.samples| <= CAPACITY
  {
    hide ObserveDecisions, Reported;
    if evs != [] {
      var init, ev := evs[..|evs| - 1], evs[|evs| - 1];
      hide Accounts;
      DeviationsAccount(init);
      var st := Run(init);
      DecisionsAccount(st.(total := st.total + 1, verdictCounts := Bump(st.verdictCounts, CountedAs(ev))),
                       ev.decisions, AllReported(init));
      AccountsIsBounded(Run(evs).deviations, AllReported(evs));
    }
  }

  lemma AccountsIsBounded(d: Deviations, observed: seq<int>)
    ensures Accounts(d, observed) ==>
              |d.samples| <= CAPACITY
  {
  }

  // ---------------------------------------------------------------- the average has no bound

  function Copies(v: int, n: nat): seq<int> {
    if n == 0 then [] else Copies(v, n - 1) + [v]
  }

  /** Every evaluation reports one deviation, and it is always the same. */
  ghost predicate Steady(evs: seq<Evaluation>, v: int) {
    forall i :: 0 <= i < |evs| ==> Reported(evs[i].decisions) == [v]
  }

  lemma {:induction false} SteadyReports(evs: seq<Evaluation>, v: int)
    requires Steady(evs, v)
    ensures AllReported(evs) == Copies(v, |evs|)
  {
    hide Reported;
    if evs != [] {
      var init := evs[..|evs| - 1];
      assert forall i :: 0 <= i < |init| ==> init[i] == evs[i];
      SteadyReports(init, v);
    }
  }

  lemma {:induction false} CopiesShape(v: int, n: nat)
    ensures |Copies(v, n)| == n && forall i :: 0 <= i < n ==> Copies(v, n)[i] == v
  {
    if n > 0 {
      CopiesShape(v, n - 1);
    }
  }

  lemma {:induction false} SumOfCopies(s: seq<int>, v: int)
    requires forall i :: 0 <= i < |s| ==> s[i] == v
    ensures Sum(s) == |s| * v
  {
    if s != [] {
      SumOfCopies(s[..|s| - 1], v);
      assert |s| * v == (|s| - 1) * v + v;
    }
  }

  /** After n times the same deviation, the sum is n times that deviation, although the buffer is bounded. */
  lemma CopiesAccount(d: Deviations, v: int, n: nat)
    requires Accounts(d, Copies(v, n)) && n >= CAPACITY
    ensures d.max == v && |d.samples| == CAPACITY && d.sum == n * v
  {
    hide Sum, Copies;
    CopiesShape(v, n);
    var late := Overflow(Copies(v, n));
    CopiesEverywhere(d, v, n);
    SumOfCopies(d.samples, v);
    SumOfCopies(late, v);
    assert n * v == CAPACITY * v + (n - CAPACITY) * v;
  }

  lemma CopiesEverywhere(d: Deviations, v: int, n: nat)
    requires Accounts(d, Copies(v, n)) && n >= CAPACITY
    ensures d.max == v && |d.samples| == CAPACITY
    ensures forall i :: 0 <= i < |d.samples| ==> d.samples[i] == v
    ensures var late := Overflow(Copies(v, n));
            |late| == n - CAPACITY && forall i :: 0 <= i < |late| ==> late[i] == v
  {
    hide Sum, Copies;
    CopiesShape(v, n);
    var observed := Copies(v, n);
    assert observed[0] in observed;
    forall i | 0 <= i < |d.samples| ensures d.samples[i] == v {
      assert d.samples[i] in d.samples;
    }
    var late := Overflow(observed);
    forall i | 0 <= i < |late| ensures late[i] == v {
      assert late[i] == observed[CAPACITY + i];
    }
  }

  /** How often a positive deviation has to be seen for the average to pass a bound. */
  function Enough(bound: real): nat {
    CAPACITY * (if bound < 0.0 then 1 else bound.Floor + 2)
  }

  /**
   The average has no bound: whatever positive deviation v the evaluations keep reporting, enough of them take the
   average past any bound, while no deviation is larger than v.
   */
  lemma AverageHasNoBound(evs: seq<Evaluation>, v: int, bound: real)
    requires Steady(evs, v) && v > 0 && |evs| == Enough(bound)
    ensures var d := Run(evs).deviations;
            d.max == v && |d.samples| == CAPACITY && Average(d) > bound
  {
    hide Run, Accounts, AllReported, Copies, Steady;
    SteadyReports(evs, v);
    DeviationsAccount(evs);
    var d := Run(evs).deviations;
    CopiesAccount(d, v, |evs|);
    var k := if bound < 0.0 then 1 else bound.Floor + 2;
    assert d.sum == CAPACITY * (k * v);
    AtLeastFactor(k, v);
    assert Average(d) == (k * v) as real;
  }

  lemma AtLeastFactor(k: int, v: int)
    ensures k > 0 && v > 0 ==>
              k * v >= k
  {
  }
}
