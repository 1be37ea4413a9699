/**
 The statistics never see the rules' decisions as such, only their printed reasons. Over whole runs of the executor
 they still count what was decided (internal/riskcontrol/stats.go against the two rules that it parses).
 */
module StatsReadBack {
  import opened Basics
  import opened Text
  import opened Reasons
  import opened RiskTypes
  import opened StateStore
  import opened Cooldown
  import opened Evaluator
  import opened RiskStats
  import PriceDivergence
  import Pipeline

  // ---------------------------------------------------------------- the same counts, from the structured decisions

  function RuleCounted(st: Stats, rule: string, rejects: bool): Stats {
    st.(ruleCounts := Bump(st.ruleCounts, rule),
        rejectCounts := if rejects then Bump(st.rejectCounts, rule) else st.rejectCounts)
  }

  function GateCounted(st: Stats, gate: Gate, key: string): Stats {
    RuleCounted(st, COOLDOWN_RULE_ID, !gate.Pass?)
    .(cooldownRejects := if gate.Pass? then st.cooldownRejects else Bump(st.cooldownRejects, key))
  }

  function OutcomeCounted(st: Stats, o: PriceDivergence.Outcome): Stats {
    var rejects := o.Compared? && o.reject;
    RuleCounted(st, PRICE_RULE_ID, rejects)
    .(skipCounts := if o.Skips() then Bump(st.skipCounts, PRICE_RULE_ID) else st.skipCounts,
      skipReasons := if o.Skips() then Bump(st.skipReasons, PriceDivergence.BranchKind(o)) else st.skipReasons,
      deviations := if o.Compared? then ObserveDeviation(st.deviations, o.deviationBps, st.total) else st.deviations,
      divReject := if rejects then st.divReject + 1 else st.divReject)
  }

  function Begun(st: Stats, verdict: string): Stats {
    st.(total := st.total + 1, verdictCounts := Bump(st.verdictCounts, verdict))
  }

  /** What one evaluation adds to the statistics, told by the conditions that the rules looked at. */
  function Structured(cfg: Pipeline.Settings, st: Stats, a: Pipeline.Attempt, w: World): Stats {
    var gate := Decide(cfg.cooldown, w.state, a.key, a.evalMS);
    var o := PriceDivergence.Judge(cfg.price, a.evalMS, a.prices);
    if TrimSpace(a.riskMode) == "HALT" then RuleCounted(Begun(st, "REJECT"), HALT_RULE_ID, true)
    else if !a.candidateIsDryRun then
      RuleCounted(RuleCounted(Begun(st, "REJECT"), HALT_RULE_ID, false), DRY_RUN_RULE_ID, true)
    else
      var verdict := if !gate.Pass? || (o.Compared? && o.reject) then "REJECT"
                     else if o.Skips() then "SKIP" else "APPROVE";
      var passed := RuleCounted(RuleCounted(Begun(st, verdict), HALT_RULE_ID, false), DRY_RUN_RULE_ID, false);
      var gated := GateCounted(passed, gate, a.key);
      if gate.Pass? then OutcomeCounted(gated, o) else gated
  }

  // ---------------------------------------------------------------- decision by decision

  lemma RuleIdsAreTrimmed()
    ensures TrimSpace(HALT_RULE_ID) == HALT_RULE_ID && TrimSpace(DRY_RUN_RULE_ID) == DRY_RUN_RULE_ID
    ensures TrimSpace(COOLDOWN_RULE_ID) == COOLDOWN_RULE_ID && TrimSpace(PRICE_RULE_ID) == PRICE_RULE_ID
  {
    hide TrimSpace, IsSpace;
    NothingToTrim(HALT_RULE_ID);
    NothingToTrim(DRY_RUN_RULE_ID);
    NothingToTrim(COOLDOWN_RULE_ID);
    NothingToTrim(PRICE_RULE_ID);
  }

  lemma NothingToTrim(s: string)
    ensures s != "" && 'a' <= s[0] <= 'z' && 'a' <= s[|s| - 1] <= 'z' ==>
              TrimSpace(s) == s
  {
  }

  /** What the executor's own texts must be like for the parsers to see through them. */
  ghost predicate Readable(cfg: Pipeline.Settings, a: Pipeline.Attempt) {
    var o := PriceDivergence.Judge(cfg.price, a.evalMS, a.prices);
    && a.key != "" && !IsSpace(a.key[0]) && NoBlank(a.key)
    && PriceDivergence.MarkerFree(cfg.price, a.prices, "deviation_bps=")
    && PriceDivergence.MarkerFree(cfg.price, a.prices, "threshold_bps=")
    && (o.Skips() ==> PriceDivergence.KindIsClear(cfg.price, a.prices, o))
    && (o.Compared? ==> -MAX_INT64 - 1 <= o.deviationBps <= MAX_INT64)
    && -MAX_INT64 - 1 <= cfg.price.thresholdBps <= MAX_INT64
  }

  /** The price rule's decision: deviation, skip and skip kind are all read back. */
  lemma PriceObserved(cfg: Pipeline.Settings, a: Pipeline.Attempt, st: Stats)
    requires Readable(cfg, a)
    ensures var d := Pipeline.PriceDecision(cfg, a);
            var o := PriceDivergence.Judge(cfg.price, a.evalMS, a.prices);
            && ObserveDecision(st, d) == OutcomeCounted(st, o)
            && (IsSkip(d) <==> o.Skips())
  {
    var o := PriceDivergence.Judge(cfg.price, a.evalMS, a.prices);
    PriceFacts(cfg, a);
    RuleIdsAreTrimmed();
    hide TrimSpace, Join, PriceDivergence.Judge, PriceDivergence.Words, PriceDivergence.MarkerFree,
         PriceDivergence.KindIsClear, ParseInt64After, ParseStringAfter, PriceDivergence.SkipReasonKind,
         PriceDivergence.IsSkipReason, ObserveDeviation, PriceDivergence.BranchKind;
  }

  lemma PriceFacts(cfg: Pipeline.Settings, a: Pipeline.Attempt)
    requires Readable(cfg, a)
    ensures var reason := PriceDivergence.Evaluate(cfg.price, a.evalMS, a.prices).reason;
            var o := PriceDivergence.Judge(cfg.price, a.evalMS, a.prices);
            && (PriceDivergence.IsSkipReason(reason) <==> o.Skips())
            && (o.Skips() ==> PriceDivergence.SkipReasonKind(reason) == PriceDivergence.BranchKind(o))
            && ParseInt64After(reason, "deviation_bps=") == if o.Compared? then Some(o.deviationBps) else None
  {
    hide TrimSpace, Join, PriceDivergence.Judge, PriceDivergence.Words, PriceDivergence.MarkerFree,
         PriceDivergence.KindIsClear, ParseInt64After, PriceDivergence.SkipReasonKind, PriceDivergence.IsSkipReason,
         PriceDivergence.BranchKind, PriceDivergence.Evaluate;
    var o := PriceDivergence.Judge(cfg.price, a.evalMS, a.prices);
    PriceDivergence.SkipReadBack(cfg.price, a.evalMS, a.prices);
    if o.Skips() {
      PriceDivergence.SkipKindReadBack(cfg.price, a.evalMS, a.prices);
    }
    if o.Compared? {
      PriceDivergence.ComparedNumbersReadBack(cfg.price, a.evalMS, a.prices);
    } else {
      PriceDivergence.NoDeviationWithoutComparison(cfg.price, a.evalMS, a.prices);
    }
  }

  /** A reason whose first word does not begin with an s is no skip. */
  lemma NoSkip(words: seq<string>)
    requires words != [] && words[0] != "" && !IsSpace(words[0][0]) && !IsSpace(words[0][|words[0]| - 1])
             && words[0][0] != 's'
    ensures !PriceDivergence.IsSkipReason(Join(words))
  {
    PriceDivergence.HeadSurvivesTrim(words);
    assert TrimSpace(Join(words))[0] == words[0][0];
  }

  lemma GateReasonIsNoSkip(cfg: Cooldown.Config, s: Persisted, key: string, now: int)
    ensures !PriceDivergence.IsSkipReason(Reason(cfg, s, key, now))
  {
    hide Join, PriceDivergence.IsSkipReason, Dec, Field;
    match Decide(cfg, s, key, now) {
      case Cooling(until) => NoSkip(CoolingWords(cfg, key, until, now, Get(s.fails, key)));
      case TooSoon(next) => NoSkip(TooSoonWords(cfg, key, next, now));
      case Pass => NoSkip(["ok", Field("cooldown_key", key)]);
    }
  }

  /** The cooldown rule's decision: a rejection is counted under exactly the rejected key. */
  lemma GateObserved(cfg: Cooldown.Config, s: Persisted, key: string, now: int, st: Stats)
    requires key != "" && !IsSpace(key[0]) && NoBlank(key)
    ensures var d := DecisionOf(cfg, s, key, now);
            ObserveDecision(st, d) == GateCounted(st, Decide(cfg, s, key, now), key) && !IsSkip(d)
  {
    GateReasonIsNoSkip(cfg, s, key, now);
    RuleIdsAreTrimmed();
    if !Decide(cfg, s, key, now).Pass? {
      RejectedKeyReadBack(cfg, s, key, now);
    }
    hide TrimSpace, Join, Reason, ParseInt64After, ParseStringAfter, PriceDivergence.SkipReasonKind,
         PriceDivergence.IsSkipReason, ObserveDeviation, Decide;
  }

  /** A decision of a rule that the parsers do not look into. */
  lemma PlainObserved(st: Stats, d: RiskDecision)
    requires d.ruleId in {HALT_RULE_ID, DRY_RUN_RULE_ID} && !IsSkip(d)
    ensures ObserveDecision(st, d) == RuleCounted(st, d.ruleId, d.verdict == Reject)
  {
    RuleIdsAreTrimmed();
    hide TrimSpace, ParseInt64After, ParseStringAfter, PriceDivergence.SkipReasonKind, PriceDivergence.IsSkipReason,
         ObserveDeviation;
  }

  lemma ControlIsNoSkip(a: Pipeline.Attempt)
    ensures !IsSkip(Pipeline.HaltDecision(a)) && !IsSkip(Pipeline.DryRunDecision(a))
  {
    hide TrimSpace, PriceDivergence.IsSkipReason;
    StartNotS(Pipeline.HaltDecision(a).reason);
    if a.candidateIsDryRun {
      StartNotS("dry-run enforced");
    } else {
      hide Join, Field;
      NoSkip(["control.json", Field("force_dry_run", "true"), "but candidate would broadcast"]);
      NoSkip(["phase5", "design-only: live broadcast is not allowed (force_dry_run required)"]);
    }
  }

  lemma StartNotS(reason: string)
    requires reason != "" && !IsSpace(reason[0]) && reason[0] != 's'
    ensures !PriceDivergence.IsSkipReason(reason)
  {
    TrimRightKeepsHead(reason, 1);
    assert TrimLeft(reason) == reason;
    assert TrimSpace(reason)[0] == reason[0];
  }

  // ---------------------------------------------------------------- one evaluation

  function Decisions(cfg: Pipeline.Settings, a: Pipeline.Attempt, w: World): seq<RiskDecision> {
    Consulted(Pipeline.BotRules(cfg), a, w).0
  }

  /** The list of decisions that the four installed rules leave behind. */
  lemma DecisionsInOrder(cfg: Pipeline.Settings, a: Pipeline.Attempt, w: World)
    requires Pipeline.Armed(cfg) && InSync(w) && Safe(a.evalIos.third) && Safe(a.evalIos.fourth)
    ensures var h, f := Pipeline.HaltDecision(a), Pipeline.DryRunDecision(a);
            var c, p := DecisionOf(cfg.cooldown, w.state, a.key, a.evalMS), Pipeline.PriceDecision(cfg, a);
            Decisions(cfg, a, w) ==
            if h.verdict == Reject then [h] else if f.verdict == Reject then [h, f]
            else if c.verdict == Reject then [h, f, c] else [h, f, c, p]
  {
    var h, f := Pipeline.HaltDecision(a), Pipeline.DryRunDecision(a);
    var c, p := DecisionOf(cfg.cooldown, w.state, a.key, a.evalMS), Pipeline.PriceDecision(cfg, a);
    EvaluatedInSync(cfg.cooldown, w, a.key, a.evalMS, a.evalIos);
    TidyAlready(cfg, a, w);
    hide Pipeline.HaltDecision, Pipeline.DryRunDecision, DecisionOf, Pipeline.PriceDecision, Tidied, Evaluated,
         Consulted, Stops;
    ConsultFour(Pipeline.HaltRule(), Pipeline.DryRunRule(), Pipeline.CooldownRule(cfg), Pipeline.PriceRule(cfg), a, w,
                Evaluated(cfg.cooldown, w, a.key, a.evalMS, a.evalIos).1, h, f, c, p);
  }

  lemma ConsultFour<C, S>(r0: Rule<C, S>, r1: Rule<C, S>, r2: Rule<C, S>, r3: Rule<C, S>, ctx: C, s: S, s': S,
                          h: RiskDecision, f: RiskDecision, c: RiskDecision, p: RiskDecision)
    requires r0.eval(ctx, s) == (h, s) && r1.eval(ctx, s) == (f, s) && r2.eval(ctx, s) == (c, s')
             && r3.eval(ctx, s') == (p, s')
    requires Tidied(h, r0.id) == h && Tidied(f, r1.id) == f && Tidied(c, r2.id) == c && Tidied(p, r3.id) == p
    ensures Consulted([r0, r1, r2, r3], ctx, s).0 ==
            if Stops(h) then [h] else if Stops(f) then [h, f] else if Stops(c) then [h, f, c] else [h, f, c, p]
  {
    hide Tidied, Stops;
    assert [r0, r1, r2, r3][1..] == [r1, r2, r3] && [r1, r2, r3][1..] == [r2, r3] && [r2, r3][1..] == [r3]
        && [r3][1..] == [];
    assert Consulted([r3], ctx, s').0 == [p];
    assert Consulted([r2, r3], ctx, s).0 == if Stops(c) then [c] else [c, p];
    assert Consulted([r1, r2, r3], ctx, s).0 == if Stops(f) then [f] else [f] + Consulted([r2, r3], ctx, s).0;
  }

  /** The evaluator has nothing to fill in, and no verdict is invalid. */
  lemma TidyAlready(cfg: Pipeline.Settings, a: Pipeline.Attempt, w: World)
    ensures var h, f := Pipeline.HaltDecision(a), Pipeline.DryRunDecision(a);
            var c, p := DecisionOf(cfg.cooldown, w.state, a.key, a.evalMS), Pipeline.PriceDecision(cfg, a);
            && Tidied(h, HALT_RULE_ID) == h && Tidied(f, DRY_RUN_RULE_ID) == f
            && Tidied(c, COOLDOWN_RULE_ID) == c && Tidied(p, PRICE_RULE_ID) == p
            && (Stops(h) <==> h.verdict == Reject) && (Stops(f) <==> f.verdict == Reject)
            && (Stops(c) <==> c.verdict == Reject) && (Stops(p) <==> p.verdict == Reject)
            && h.verdict in {Approve, Reject} && f.verdict in {Approve, Reject}
            && c.verdict in {Approve, Reject} && p.verdict in {Approve, Reject}
  {
    RuleIdsAreTrimmed();
    ReasonsAreNotEmpty(cfg, a, w);
    Pipeline.Verdicts(cfg, a, w);
    RuleIds(cfg, a, w);
    hide Pipeline.HaltDecision, Pipeline.DryRunDecision, DecisionOf, Pipeline.PriceDecision, Tidied, Stops, Decide,
         PriceDivergence.Judge, TrimSpace, Reason;
    Tidy(Pipeline.HaltDecision(a), HALT_RULE_ID);
    Tidy(Pipeline.DryRunDecision(a), DRY_RUN_RULE_ID);
    Tidy(DecisionOf(cfg.cooldown, w.state, a.key, a.evalMS), COOLDOWN_RULE_ID);
    Tidy(Pipeline.PriceDecision(cfg, a), PRICE_RULE_ID);
  }

  lemma Tidy(d: RiskDecision, ruleId: string)
    ensures d.ruleId == TrimSpace(d.ruleId) != "" && d.reason != "" && d.verdict in {Approve, Reject} ==>
              Tidied(d, ruleId) == d && (Stops(d) <==> d.verdict == Reject)
  {
  }

  lemma ReasonsAreNotEmpty(cfg: Pipeline.Settings, a: Pipeline.Attempt, w: World)
    ensures DecisionOf(cfg.cooldown, w.state, a.key, a.evalMS).reason != ""
    ensures Pipeline.PriceDecision(cfg, a).reason != ""
    ensures Pipeline.HaltDecision(a).reason != "" && Pipeline.DryRunDecision(a).reason != ""
  {
    GateReasonIsNotEmpty(cfg.cooldown, w.state, a.key, a.evalMS);
    hide Reason, Decide;
    var words := PriceDivergence.Words(cfg.price, a.evalMS, a.prices);
    PriceDivergence.FirstWord(cfg.price, a.evalMS, a.prices);
    hide PriceDivergence.Words;
    PriceDivergence.JoinHead(words);
  }

  lemma GateReasonIsNotEmpty(cfg: Cooldown.Config, s: Persisted, key: string, now: int)
    ensures Reason(cfg, s, key, now) != ""
  {
    hide Field, Dec, Join;
    match Decide(cfg, s, key, now) {
      case Cooling(until) => PriceDivergence.JoinHead(CoolingWords(cfg, key, until, now, Get(s.fails, key)));
      case TooSoon(next) => PriceDivergence.JoinHead(TooSoonWords(cfg, key, next, now));
      case Pass => PriceDivergence.JoinHead(["ok", Field("cooldown_key", key)]);
    }
  }

  lemma {:induction false} ObserveUnrolled(st: Stats, ds: seq<RiskDecision>, d: RiskDecision)
    ensures ObserveDecisions(st, ds + [d]) == ObserveDecision(ObserveDecisions(st, ds), d)
  {
    assert (ds + [d])[..|ds|] == ds;
  }

  /** No modification takes part, so the verdict is a rejection or an approval. */
  lemma PlainConclusion(ds: seq<RiskDecision>)
    requires ds != [] && forall d :: d in ds ==> d.verdict in {Approve, Reject}
    ensures Conclude(ds).verdict == (if ds[|ds| - 1].verdict == Reject then Reject else Approve)
    ensures Conclude(ds).decisions == ds
  {
    WinnerIsLeast(ds);
    assert ds[|ds| - 1] in ds;
  }

  lemma CountedPlainly(ds: seq<RiskDecision>)
    requires ds != [] && forall d :: d in ds ==> d.verdict in {Approve, Reject}
    ensures CountedAs(Conclude(ds)) ==
            if ds[|ds| - 1].verdict == Reject then "REJECT" else if HasSkip(ds) then "SKIP" else "APPROVE"
  {
    PlainConclusion(ds);
    hide Conclude, IsSkip;
  }

  lemma FourDecisions(h: RiskDecision, f: RiskDecision, c: RiskDecision, p: RiskDecision, st: Stats)
    ensures ObserveDecisions(st, [h]) == ObserveDecision(st, h)
    ensures ObserveDecisions(st, [h, f]) == ObserveDecision(ObserveDecisions(st, [h]), f)
    ensures ObserveDecisions(st, [h, f, c]) == ObserveDecision(ObserveDecisions(st, [h, f]), c)
    ensures ObserveDecisions(st, [h, f, c, p]) == ObserveDecision(ObserveDecisions(st, [h, f, c]), p)
  {
    hide ObserveDecision;
    ObserveUnrolled(st, [], h);
    ObserveUnrolled(st, [h], f);
    ObserveUnrolled(st, [h, f], c);
    ObserveUnrolled(st, [h, f, c], p);
    assert [] + [h] == [h] && [h] + [f] == [h, f] && [h, f] + [c] == [h, f, c] && [h, f, c] + [p] == [h, f, c, p];
    assert ObserveDecisions(st, []) == st;
  }

  /** The statistics after the decisions of one evaluation, whichever rule it ended at. */
  lemma DecisionsObserved(cfg: Pipeline.Settings, a: Pipeline.Attempt, w: World, st: Stats)
    requires Readable(cfg, a)
    ensures var h, f := Pipeline.HaltDecision(a), Pipeline.DryRunDecision(a);
            var c, p := DecisionOf(cfg.cooldown, w.state, a.key, a.evalMS), Pipeline.PriceDecision(cfg, a);
            var gate, o := Decide(cfg.cooldown, w.state, a.key, a.evalMS),
                PriceDivergence.Judge(cfg.price, a.evalMS, a.prices);
            var st1 := RuleCounted(st, HALT_RULE_ID, h.verdict == Reject);
            var st2 := RuleCounted(st1, DRY_RUN_RULE_ID, f.verdict == Reject);
            var st3 := GateCounted(st2, gate, a.key);
            && ObserveDecisions(st, [h]) == st1 && ObserveDecisions(st, [h, f]) == st2
            && ObserveDecisions(st, [h, f, c]) == st3 && ObserveDecisions(st, [h, f, c, p]) == OutcomeCounted(st3, o)
            && !IsSkip(h) && !IsSkip(f) && !IsSkip(c) && (IsSkip(p) <==> o.Skips())
  {
    var h, f := Pipeline.HaltDecision(a), Pipeline.DryRunDecision(a);
    var c, p := DecisionOf(cfg.cooldown, w.state, a.key, a.evalMS), Pipeline.PriceDecision(cfg, a);
    var gate := Decide(cfg.cooldown, w.state, a.key, a.evalMS);
    ControlIsNoSkip(a);
    RuleIds(cfg, a, w);
    FourDecisions(h, f, c, p, st);
    PlainObserved(st, h);
    var st1 := ObserveDecisions(st, [h]);
    PlainObserved(st1, f);
    var st2 := ObserveDecisions(st, [h, f]);
    GateObserved(cfg.cooldown, w.state, a.key, a.evalMS, st2);
    PriceObserved(cfg, a, ObserveDecisions(st, [h, f, c]));
    hide *;
  }

  lemma RuleIds(cfg: Pipeline.Settings, a: Pipeline.Attempt, w: World)
    ensures Pipeline.HaltDecision(a).ruleId == HALT_RULE_ID && Pipeline.DryRunDecision(a).ruleId == DRY_RUN_RULE_ID
    ensures DecisionOf(cfg.cooldown, w.state, a.key, a.evalMS).ruleId == COOLDOWN_RULE_ID
    ensures Pipeline.PriceDecision(cfg, a).ruleId == PRICE_RULE_ID
  {
  }

  lemma SkipAmongFour(h: RiskDecision, f: RiskDecision, c: RiskDecision, p: RiskDecision)
    requires !IsSkip(h) && !IsSkip(f) && !IsSkip(c)
    ensures HasSkip([h, f, c, p]) <==> IsSkip(p)
  {
    hide IsSkip;
    assert p in [h, f, c, p];
  }

  lemma PlainList(h: RiskDecision, f: RiskDecision, c: RiskDecision, p: RiskDecision, ds: seq<RiskDecision>)
    requires ds in {[h], [h, f], [h, f, c], [h, f, c, p]}
    requires h.verdict in {Approve, Reject} && f.verdict in {Approve, Reject} && c.verdict in {Approve, Reject}
             && p.verdict in {Approve, Reject}
    ensures ds != [] && forall d :: d in ds ==> d.verdict in {Approve, Reject}
  {
  }

  lemma ObserveBegun(st: Stats, ds: seq<RiskDecision>)
    ensures Conclude(ds).decisions == ds ==>
              ObserveEvaluation(st, Conclude(ds)) == ObserveDecisions(Begun(st, CountedAs(Conclude(ds))), ds)
  {
  }

  /** One evaluation adds to the statistics exactly what was decided. */
  lemma EvaluationObserved(cfg: Pipeline.Settings, a: Pipeline.Attempt, w: World, st: Stats)
    requires Pipeline.Armed(cfg) && InSync(w) && Safe(a.evalIos.third) && Safe(a.evalIos.fourth) && Readable(cfg, a)
    ensures ObserveEvaluation(st, Conclude(Decisions(cfg, a, w))) == Structured(cfg, st, a, w)
  {
    hide Conclude, CountedAs, ObserveDecisions, RuleCounted, GateCounted, OutcomeCounted, Decide, PriceDivergence.Judge,
         HasSkip, IsSkip, Pipeline.HaltDecision, Pipeline.DryRunDecision, DecisionOf, Pipeline.PriceDecision, TrimSpace,
         Readable, Bump, Pipeline.Armed, InSync, Safe, ObserveEvaluation, Decisions, Begun;
    var h, f := Pipeline.HaltDecision(a), Pipeline.DryRunDecision(a);
    var c, p := DecisionOf(cfg.cooldown, w.state, a.key, a.evalMS), Pipeline.PriceDecision(cfg, a);
    var ds := Decisions(cfg, a, w);
    DecisionsInOrder(cfg, a, w);
    Pipeline.Verdicts(cfg, a, w);
    PlainList(h, f, c, p, ds);
    PlainConclusion(ds);
    CountedPlainly(ds);
    ObserveBegun(st, ds);
    DecisionsObserved(cfg, a, w, Begun(st, CountedAs(Conclude(ds))));
    SkipAmongFour(h, f, c, p);
  }

  // ---------------------------------------------------------------- whole runs

  /** The statistics that the executor keeps, by observing each evaluation's printed reasons. */
  function Observed(cfg: Pipeline.Settings, sys: Pipeline.System, attempts: seq<Pipeline.Attempt>): Stats {
    if attempts == [] then FRESH_STATS else
      var init, a := attempts[..|attempts| - 1], attempts[|attempts| - 1];
      ObserveEvaluation(Observed(cfg, sys, init), Conclude(Decisions(cfg, a, Pipeline.Run(cfg, sys, init).world)))
  }

  /** The same counts without any text. */
  function Decided(cfg: Pipeline.Settings, sys: Pipeline.System, attempts: seq<Pipeline.Attempt>): Stats {
    if attempts == [] then FRESH_STATS else
      var init, a := attempts[..|attempts| - 1], attempts[|attempts| - 1];
      Structured(cfg, Decided(cfg, sys, init), a, Pipeline.Run(cfg, sys, init).world)
  }

  ghost predicate SafeAndReadable(cfg: Pipeline.Settings, a: Pipeline.Attempt) {
    Safe(a.evalIos.third) && Safe(a.evalIos.fourth) && Safe(a.recordIo) && Readable(cfg, a)
  }

  /**
   Over any run of the executor, on any keys and with failing loads and saves, the statistics parsed from the
   reasons are the statistics of what was decided: counts by verdict and by rule, rejections by cooldown key,
   skips by kind, and every deviation that was compared.
   */
  lemma {:induction false} ParsedStatisticsAreExact(cfg: Pipeline.Settings, sys: Pipeline.System,
                                                    attempts: seq<Pipeline.Attempt>)
    requires Pipeline.Armed(cfg) && InSync(sys.world)
    requires forall i :: 0 <= i < |attempts| ==> SafeAndReadable(cfg, attempts[i])
    ensures Observed(cfg, sys, attempts) == Decided(cfg, sys, attempts)
    ensures InSync(Pipeline.Run(cfg, sys, attempts).world)
  {
    hide Readable, Structured, ObserveEvaluation, Conclude, Decisions, Safe, InSync, Pipeline.Armed, Pipeline.Execute;
    if attempts != [] {
      var init, a := attempts[..|attempts| - 1], attempts[|attempts| - 1];
      assert forall i :: 0 <= i < |init| ==> init[i] == attempts[i];
      ParsedStatisticsAreExact(cfg, sys, init);
      var before := Pipeline.Run(cfg, sys, init);
      assert SafeAndReadable(cfg, a);
      EvaluationObserved(cfg, a, before.world, Observed(cfg, sys, init));
      Pipeline.ExecuteInSync(cfg, before, a);
    }
  }

  // ---------------------------------------------------------------- what is reported

  /** The evaluations of a run, in order. */
  function Evaluations(cfg: Pipeline.Settings, sys: Pipeline.System, attempts: seq<Pipeline.Attempt>): seq<Evaluation> {
    if attempts == [] then [] else
      var init, a := attempts[..|attempts| - 1], attempts[|attempts| - 1];
      Evaluations(cfg, sys, init) + [Conclude(Decisions(cfg, a, Pipeline.Run(cfg, sys, init).world))]
  }

  lemma {:induction false} ObservedEvaluations(cfg: Pipeline.Settings, sys: Pipeline.System,
                                               attempts: seq<Pipeline.Attempt>)
    ensures Observed(cfg, sys, attempts) == RiskStats.Run(Evaluations(cfg, sys, attempts))
    ensures |Evaluations(cfg, sys, attempts)| == |attempts|
  {
    hide Decisions, Conclude, ObserveEvaluation, Pipeline.Run;
    if attempts != [] {
      var init := attempts[..|attempts| - 1];
      ObservedEvaluations(cfg, sys, init);
      var evs := Evaluations(cfg, sys, attempts);
      assert evs[..|evs| - 1] == Evaluations(cfg, sys, init);
    }
  }

  lemma ReportedOfFour(h: RiskDecision, f: RiskDecision, c: RiskDecision, p: RiskDecision)
    ensures Reported([h, f, c, p]) == ReportedBy(h) + ReportedBy(f) + ReportedBy(c) + ReportedBy(p)
  {
    hide ReportedBy;
    assert [h][..0] == [] && [h, f][..1] == [h] && [h, f, c][..2] == [h, f] && [h, f, c, p][..3] == [h, f, c];
    assert Reported([h]) == ReportedBy(h);
    assert Reported([h, f]) == ReportedBy(h) + ReportedBy(f);
    assert Reported([h, f, c]) == ReportedBy(h) + ReportedBy(f) + ReportedBy(c);
  }

  lemma OneReport(d: RiskDecision)
    ensures DeviationOf(d) == None ==> ReportedBy(d) == []
    ensures forall v :: DeviationOf(d) == Some(v) && v >= 0 ==> ReportedBy(d) == [v]
  {
    hide DeviationOf;
  }

  lemma OtherRulesReportNothing(d: RiskDecision)
    requires d.ruleId in {HALT_RULE_ID, DRY_RUN_RULE_ID, COOLDOWN_RULE_ID}
    ensures DeviationOf(d) == None
  {
    RuleIdsAreTrimmed();
    hide TrimSpace, ParseInt64After;
  }

  lemma PriceRuleReports(d: RiskDecision)
    requires d.ruleId == PRICE_RULE_ID
    ensures DeviationOf(d) == ParseInt64After(d.reason, "deviation_bps=")
  {
    RuleIdsAreTrimmed();
    hide TrimSpace, ParseInt64After;
  }

  /** An evaluation that reaches a comparison reports exactly the compared deviation. */
  lemma ComparisonIsReported(cfg: Pipeline.Settings, a: Pipeline.Attempt, w: World)
    requires Pipeline.Armed(cfg) && InSync(w) && Safe(a.evalIos.third) && Safe(a.evalIos.fourth) && Readable(cfg, a)
    requires TrimSpace(a.riskMode) != "HALT" && a.candidateIsDryRun
             && Decide(cfg.cooldown, w.state, a.key, a.evalMS).Pass?
    requires var o := PriceDivergence.Judge(cfg.price, a.evalMS, a.prices); o.Compared? && o.deviationBps >= 0
    ensures Reported(Conclude(Decisions(cfg, a, w)).decisions) ==
            [PriceDivergence.Judge(cfg.price, a.evalMS, a.prices).deviationBps]
  {
    hide *;
    var h, f := Pipeline.HaltDecision(a), Pipeline.DryRunDecision(a);
    var c, p := DecisionOf(cfg.cooldown, w.state, a.key, a.evalMS), Pipeline.PriceDecision(cfg, a);
    DecisionsInOrder(cfg, a, w);
    Pipeline.Verdicts(cfg, a, w);
    TidyAlready(cfg, a, w);
    RuleIds(cfg, a, w);
    OtherRulesReportNothing(h);
    OtherRulesReportNothing(f);
    OtherRulesReportNothing(c);
    PriceRuleReports(p);
    PriceFacts(cfg, a);
    PriceReason(cfg, a);
    PlainList(h, f, c, p, [h, f, c, p]);
    PlainConclusion([h, f, c, p]);
    OneReport(h);
    OneReport(f);
    OneReport(c);
    OneReport(p);
    ReportedOfFour(h, f, c, p);
  }

  lemma PriceReason(cfg: Pipeline.Settings, a: Pipeline.Attempt)
    ensures Pipeline.PriceDecision(cfg, a) == PriceDivergence.Evaluate(cfg.price, a.evalMS, a.prices)
  {
    hide PriceDivergence.Evaluate;
  }
}
