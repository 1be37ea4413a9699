/**
 The executor as the bot sets it up: price points from the two normalisers under the names "onchain" and "exchange",
 and keys built from the intent (cmd/bot/main.go). Here the parsed statistics are exact without further conditions.
 */
module BotRuns {
  import opened Basics
  import opened Text
  import opened Reasons
  import opened StateStore
  import opened Cooldown
  import opened Evaluator
  import opened PriceNormalization
  import opened PriceComparison
  import opened DetailTexts
  import opened StatsReadBack
  import Pipeline
  import Approvals
  import Freezing
  import PriceDivergence
  import opened RiskStats

  /** What the bot reads before it evaluates an intent; `scale` and `score` are printed floating-point numbers. */
  datatype Market = Market(aggPrice: real, aggUpdatedAt: int, reading: Option<Reading>, scale: string, score: string)

  datatype Intent = Intent(target: string, intentType: string, chainId: int, poolId: string)

  ghost predicate Sound(m: Market) {
    IsFloatText(m.scale) && IsFloatText(m.score) && NormalizedTogether(m.aggPrice, m.aggUpdatedAt, m.reading)
  }

  function Prices(m: Market): PriceDivergence.Sources {
    var ex := DetailText(NormalizeExchange(m.aggPrice).detail, 0, 0, m.scale, m.score);
    var on := match m.reading
      case Some(r) => DetailText(r.normalized.detail, r.dec0, r.dec1, m.scale, m.score)
      case None => "";
    PricePoints(m.aggPrice, m.aggUpdatedAt, m.reading, ex, on)
  }

  /** The names in an intent hold no blanks (those of the pool and the target may be padded). */
  predicate Named(i: Intent) {
    NoBlank(TrimSpace(i.target)) && NoBlank(i.intentType) && NoBlank(TrimSpace(i.poolId))
  }

  function KeyOf(i: Intent): string {
    CooldownKey(i.target, i.intentType, i.chainId, i.poolId)
  }

  predicate BotSettings(cfg: Pipeline.Settings) {
    && Pipeline.Armed(cfg) && cfg.price.sourceA == "onchain" && cfg.price.sourceB == "exchange"
    && -MAX_INT64 - 1 <= cfg.price.thresholdBps <= MAX_INT64
  }

  ghost predicate FromBot(a: Pipeline.Attempt, m: Market, i: Intent) {
    Sound(m) && Named(i) && a.prices == Prices(m) && a.key == KeyOf(i)
  }

  lemma {:induction false} DecHasNoBlank(n: int)
    ensures NoBlank(Dec(n))
  {
    DecIsNumeric(n);
  }

  lemma KeyHasNoBlank(i: Intent)
    requires Named(i)
    ensures var key := KeyOf(i); key != "" && !IsSpace(key[0]) && NoBlank(key)
  {
    KeysStartSolid(i.target, i.intentType, i.chainId, i.poolId);
    DecHasNoBlank(i.chainId);
    hide TrimSpace, Dec;
  }

  lemma BotDetailsAreClean(m: Market, key: string)
    requires Sound(m) && key in Prices(m)
    ensures Clean(PriceDivergence.Quote(TrimSpace(Prices(m)[key].detail)))
  {
    hide Clean, DetailText, TrimSpace, PriceDivergence.Quote, NormalizedTogether;
    DetailsAreClean(NormalizeExchange(m.aggPrice).detail, 0, 0, m.scale, m.score);
    if m.reading.Some? {
      var r := m.reading.value;
      DetailsAreClean(r.normalized.detail, r.dec0, r.dec1, m.scale, m.score);
    }
  }

  lemma SourceNames()
    ensures TrimSpace("onchain") == "onchain" && TrimSpace("exchange") == "exchange"
  {
  }

  lemma BotTextsAreClean(cfg: Pipeline.Settings, m: Market)
    requires BotSettings(cfg) && Sound(m)
    ensures forall t :: t in PriceDivergence.ForeignTexts(cfg.price, Prices(m)) ==> Clean(t)
  {
    SourceNames();
    CleanBySize("onchain");
    CleanBySize("exchange");
    hide Clean, TrimSpace, Prices, PriceDivergence.Quote, Pipeline.Armed, Sound;
    if "onchain" in Prices(m) {
      BotDetailsAreClean(m, "onchain");
    }
    if "exchange" in Prices(m) {
      BotDetailsAreClean(m, "exchange");
    }
  }

  lemma NamesHoldNoKind(w: string)
    requires w in PriceDivergence.KIND_WORDS && w != "stale_source"
    ensures !PriceDivergence.EitherHolds("onchain", "exchange", w)
  {
    ShortFree("onchain", w);
    ShortFree("exchange", w);
  }

  /** For the bot's own settings, prices and keys nothing gets in the way of the parsers. */
  lemma BotIsReadable(cfg: Pipeline.Settings, a: Pipeline.Attempt, m: Market, i: Intent)
    requires BotSettings(cfg) && FromBot(a, m, i)
    ensures Readable(cfg, a)
  {
    var o := PriceDivergence.Judge(cfg.price, a.evalMS, a.prices);
    KeyHasNoBlank(i);
    BotTextsAreClean(cfg, m);
    SourceNames();
    NamesHoldNoKind("missing_source");
    NamesHoldNoKind("missing_decimals_for_normalization");
    NamesHoldNoKind("time_mismatch");
    var ex := DetailText(NormalizeExchange(m.aggPrice).detail, 0, 0, m.scale, m.score);
    var on := match m.reading
      case Some(r) => DetailText(r.normalized.detail, r.dec0, r.dec1, m.scale, m.score)
      case None => "";
    ReportedDeviationIsBounded(cfg.price, a.evalMS, m.aggPrice, m.aggUpdatedAt, m.reading, ex, on);
    hide PriceDivergence.Judge, DetailText, TrimSpace, PriceDivergence.ForeignTexts, PricePoints, NoBlank, KeyOf,
         Occurs, Pipeline.Armed, NormalizedTogether, PriceDivergence.EitherHolds;
  }

  /**
   Over any run of the bot's executor, whatever prices, ticks, decimals, pools and chains come in, the statistics
   parsed from the reasons are the statistics of what was decided.
   */
  lemma BotStatisticsAreExact(cfg: Pipeline.Settings, sys: Pipeline.System, attempts: seq<Pipeline.Attempt>,
                              markets: seq<Market>, intents: seq<Intent>)
    requires BotSettings(cfg) && InSync(sys.world) && |markets| == |intents| == |attempts|
    requires forall k :: 0 <= k < |attempts| ==> FromBot(attempts[k], markets[k], intents[k])
    requires forall k :: 0 <= k < |attempts| ==>
               Safe(attempts[k].evalIos.third) && Safe(attempts[k].evalIos.fourth) && Safe(attempts[k].recordIo)
    ensures Observed(cfg, sys, attempts) == Decided(cfg, sys, attempts)
  {
    hide FromBot, Readable, Observed, Decided;
    forall k | 0 <= k < |attempts| ensures SafeAndReadable(cfg, attempts[k]) {
      BotIsReadable(cfg, attempts[k], markets[k], intents[k]);
    }
    ParsedStatisticsAreExact(cfg, sys, attempts);
  }

  // ---------------------------------------------------------------- a run with a growing average

  /** The two prices 1 and 1/2, seen at the same time: tick 0 on chain, 2 on the exchange. */
  function Market10000(t: int): Market {
    Market(2.0, t, Some(Reading(1.0, t, 18, 18, 1.0, 1.0, Normalized(1.0, 1.0, true, UniswapRaw))), "1", "0")
  }

  lemma Market10000IsSound(t: int)
    requires t > 0
    ensures Sound(Market10000(t))
  {
    var cands := Candidates(1.0, 1.0);
    var best := cands[0];
    assert forall c :: c in cands ==> c.price == 1.0;
    AllAreValid(cands);
    assert IsFirstClosest(best, cands, 0.5);
    assert 1.0 / 2.0 == 0.5;
    assert Gated(best, 1.0, 0.5) == Normalized(1.0, 1.0, true, UniswapRaw);
    assert best in cands;
  }

  lemma {:induction false} AllAreValid(cands: seq<Candidate>)
    requires forall c :: c in cands ==> c.price == 1.0
    ensures Valid(cands) == cands
  {
    if cands != [] {
      var init := cands[..|cands| - 1];
      AllAreValid(init);
      assert cands == init + [cands[|cands| - 1]];
    }
  }

  lemma Market10000IsCompared(cfg: PriceDivergence.Config, t: int)
    requires cfg.enabled && cfg.sourceA == "onchain" && cfg.sourceB == "exchange" && t > 0
    ensures var o := PriceDivergence.Judge(cfg, t, Prices(Market10000(t))); o.Compared? && o.deviationBps == 10000
  {
    hide DetailText;
    SourceNames();
    hide TrimSpace;
    assert "onchain"[0] != "exchange"[0];
    var sources := Prices(Market10000(t));
    assert "onchain" in sources && "exchange" in sources;
    assert sources["onchain"].tsMS == sources["exchange"].tsMS == t;
    assert 1.0 / 2.0 == 0.5;
    assert PriceDivergence.Norm(sources["onchain"]) == 1.0 && PriceDivergence.Norm(sources["exchange"]) == 0.5;
    assert PriceDivergence.RelativeDeviation(1.0, 0.5) == 1.0;
  }

  /** A dry-run intent on an open road: nothing stops it but the rules. */
  function Quoted(i: Intent, t: int): Pipeline.Attempt {
    var io := Io(true, true, true, true, true, Meta(t, t));
    Pipeline.Attempt(KeyOf(i), "", "", "", false, true, Prices(Market10000(t)), t, 0, 0, t, true, false, false, t,
                     Ios(io, io, io, io), io)
  }

  /** One such intent at every minimum interval. */
  function Regular(cfg: Pipeline.Settings, i: Intent, start: int, n: nat): seq<Pipeline.Attempt> {
    if n == 0 then [] else Regular(cfg, i, start, n - 1) + [Quoted(i, TimeOf(cfg, start, n))]
  }

  function TimeOf(cfg: Pipeline.Settings, start: int, n: nat): int {
    if n <= 1 then start else TimeOf(cfg, start, n - 1) + cfg.cooldown.minIntervalMS
  }

  /** The entries of the key after n such intents: the gate opens again just in time for the next one. */
  ghost predicate InStep(cfg: Pipeline.Settings, w: World, key: string, start: int, n: nat) {
    && InSync(w) && Get(w.state.cooldownUntilMS, key) == 0
    && Get(w.state.lastIntentMS, key) == (if n == 0 then 0 else TimeOf(cfg, start, n))
    && TimeOf(cfg, start, n + 1) > 0
  }

  lemma GateOpens(cfg: Pipeline.Settings, w: World, key: string, start: int, n: nat)
    requires Pipeline.Armed(cfg) && InStep(cfg, w, key, start, n)
    ensures Decide(cfg.cooldown, w.state, key, TimeOf(cfg, start, n + 1)).Pass?
    ensures TimeOf(cfg, start, n + 1) > 0 && TimeOf(cfg, start, n + 2) > 0 && InSync(w)
  {
  }

  lemma RegularStep(cfg: Pipeline.Settings, sys: Pipeline.System, i: Intent, start: int, n: nat)
    requires BotSettings(cfg) && cfg.price.enabled && Named(i) && InStep(cfg, sys.world, KeyOf(i), start, n)
    ensures var a := Quoted(i, TimeOf(cfg, start, n + 1));
            && InStep(cfg, Pipeline.Execute(cfg, sys, a).1.world, KeyOf(i), start, n + 1)
            && Reported(Conclude(Decisions(cfg, a, sys.world)).decisions) == [10000]
  {
    hide *;
    var t := TimeOf(cfg, start, n + 1);
    SettingsMean(cfg);
    GateOpens(cfg, sys.world, KeyOf(i), start, n);
    QuotedAttempt(i, t);
    Market10000IsCompared(cfg.price, t);
    BotIsReadable(cfg, Quoted(i, t), Market10000(t), i);
    ComparisonIsReported(cfg, Quoted(i, t), sys.world);
    StepKept(cfg, sys, Quoted(i, t), start, n);
  }

  lemma SettingsMean(cfg: Pipeline.Settings)
    ensures BotSettings(cfg) ==>
              Pipeline.Armed(cfg) && cfg.price.sourceA == "onchain" && cfg.price.sourceB == "exchange"
  {
  }

  lemma QuotedAttempt(i: Intent, t: int)
    requires Named(i) && t > 0
    ensures var a := Quoted(i, t);
            && FromBot(a, Market10000(t), i)
            && a.key == KeyOf(i) && a.evalMS == t && a.candidateIsDryRun && !a.prepareFails
            && TrimSpace(a.riskMode) != "HALT" && a.prices == Prices(Market10000(t))
            && Safe(a.evalIos.third) && Safe(a.evalIos.fourth) && Safe(a.recordIo)
  {
    Market10000IsSound(t);
    assert TrimSpace("") == "";
    hide Sound, Named, KeyOf, Prices;
  }

  lemma StepKept(cfg: Pipeline.Settings, sys: Pipeline.System, a: Pipeline.Attempt, start: int, n: nat)
    requires Pipeline.Armed(cfg) && InStep(cfg, sys.world, a.key, start, n) && !a.prepareFails
    requires a.candidateIsDryRun && TrimSpace(a.riskMode) != "HALT" && a.evalMS == TimeOf(cfg, start, n + 1)
    requires Safe(a.evalIos.third) && Safe(a.evalIos.fourth) && Safe(a.recordIo)
    ensures InStep(cfg, Pipeline.Execute(cfg, sys, a).1.world, a.key, start, n + 1)
  {
    GateOpens(cfg, sys.world, a.key, start, n);
    GrantedHere(cfg, sys, a);
    Approvals.GrantEntry(cfg, sys, a, a.key);
    Pipeline.ExecuteInSync(cfg, sys, a);
    NeverFails(cfg, sys, a);
    hide Pipeline.Execute, Approvals.Granted, Decide, TimeOf;
  }

  lemma GrantedHere(cfg: Pipeline.Settings, sys: Pipeline.System, a: Pipeline.Attempt)
    requires Pipeline.Armed(cfg) && InSync(sys.world) && Safe(a.evalIos.third) && Safe(a.evalIos.fourth)
    requires a.candidateIsDryRun && TrimSpace(a.riskMode) != "HALT"
             && Decide(cfg.cooldown, sys.world.state, a.key, a.evalMS).Pass?
    ensures Approvals.Granted(cfg, a, sys.world)
  {
    EvaluatedInSync(cfg.cooldown, sys.world, a.key, a.evalMS, a.evalIos);
    Pipeline.Verdicts(cfg, a, sys.world);
    hide Evaluated, DecisionOf, Pipeline.HaltDecision, Pipeline.DryRunDecision, Decide, TrimSpace;
  }

  lemma NeverFails(cfg: Pipeline.Settings, sys: Pipeline.System, a: Pipeline.Attempt)
    ensures !a.prepareFails ==>
              !Pipeline.Execute(cfg, sys, a).0.Failed?
  {
    hide Pipeline.RiskVerdict, Pipeline.EarlyGate;
  }

  lemma {:induction false} RegularRuns(cfg: Pipeline.Settings, sys: Pipeline.System, i: Intent, start: int, n: nat)
    requires BotSettings(cfg) && cfg.price.enabled && Named(i) && InStep(cfg, sys.world, KeyOf(i), start, 0)
    ensures var attempts := Regular(cfg, i, start, n);
            && |attempts| == n && InStep(cfg, Pipeline.Run(cfg, sys, attempts).world, KeyOf(i), start, n)
            && Steady(Evaluations(cfg, sys, attempts), 10000)
  {
    hide InStep, KeyOf, Quoted, TimeOf, Decisions, Conclude, Reported, Pipeline.Execute, BotSettings, Named;
    if n > 0 {
      var before := Regular(cfg, i, start, n - 1);
      RegularRuns(cfg, sys, i, start, n - 1);
      RegularStep(cfg, Pipeline.Run(cfg, sys, before), i, start, n - 1);
      assert Regular(cfg, i, start, n)[..n - 1] == before;
    }
  }

  /**
   For every bound there is a run of the bot, one approval by the cooldown rule at every minimum interval, after which
   the reported average deviation exceeds the bound while the largest deviation ever compared is 10000.
   */
  lemma ReportedAverageHasNoBound(cfg: Pipeline.Settings, sys: Pipeline.System, i: Intent, start: int, bound: real)
    requires BotSettings(cfg) && cfg.price.enabled && Named(i) && InSync(sys.world) && start > 0
    requires Freezing.Unused(sys.world.state, KeyOf(i))
    ensures var d := Observed(cfg, sys, Regular(cfg, i, start, Enough(bound))).deviations;
            && d.max == 10000 && |d.samples| == CAPACITY && Average(d) > bound
  {
    var n := Enough(bound);
    var attempts := Regular(cfg, i, start, n);
    assert InStep(cfg, sys.world, KeyOf(i), start, 0);
    hide *;
    RegularRuns(cfg, sys, i, start, n);
    ObservedEvaluations(cfg, sys, attempts);
    AverageHasNoBound(Evaluations(cfg, sys, attempts), 10000, bound);
  }
}
