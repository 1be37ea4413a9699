/**
 One intent on its way through the executor: the risk rules in the order in which the bot installs them, the
 control and market gates, the global breaker, and the two records of success or failure (executeIntent and the
 rule order of main in cmd/bot/main.go).
 */
module Pipeline {
  import opened Basics
  import opened Text
  import opened Reasons
  import opened RiskTypes
  import opened StateStore
  import opened Cooldown
  import opened Evaluator
  import PriceDivergence
  import RiskManager

  datatype Settings = Settings(cooldown: Cooldown.Config, price: PriceDivergence.Config)

  /** Everything that one call of executeIntent is given by its surroundings. */
  datatype Attempt = Attempt(
    key: string,                 // the cooldown key of the intent
    riskMode: string,            // control.json
    desiredState: string,        // control.json
    controlReason: string,       // control.json
    forceDryRun: bool,           // control.json
    candidateIsDryRun: bool,
    prices: PriceDivergence.Sources,
    startMS: int,
    issuedMS: int,
    ttlMS: int,
    evalMS: int,
    marketNormal: bool,
    poolDanger: bool,
    prepareFails: bool,
    recordMS: int,
    evalIos: Ios,
    recordIo: Io)

  datatype Gate = RiskControl | ControlRiskMode | ControlDesiredState | Expired | MarketMode | Breaker | PoolGuard

  datatype Outcome = Skipped(gate: Gate) | Failed | Simulated

  // ---------------------------------------------------------------- the installed rules

  function HaltDecision(a: Attempt): RiskDecision {
    if TrimSpace(a.riskMode) == "HALT" then
      RiskDecision(Reject, HALT_RULE_ID,
                   "control.json risk_mode=HALT" +
                   if TrimSpace(a.controlReason) == "" then "" else " reason=" + TrimSpace(a.controlReason), None)
    else RiskDecision(Approve, HALT_RULE_ID, "risk_mode is not HALT", None)
  }

  function DryRunDecision(a: Attempt): RiskDecision {
    if a.candidateIsDryRun then RiskDecision(Approve, DRY_RUN_RULE_ID, "dry-run enforced", None)
    else
      var words := if a.forceDryRun
        then ["control.json", Field("force_dry_run", "true"), "but candidate would broadcast"]
        else ["phase5", "design-only: live broadcast is not allowed (force_dry_run required)"];
      RiskDecision(Reject, DRY_RUN_RULE_ID, Join(words), None)
  }

  function CooldownDecision(cfg: Settings, a: Attempt, w: World): (RiskDecision, World) {
    Evaluated(cfg.cooldown, w, a.key, a.evalMS, a.evalIos)
  }

  function PriceDecision(cfg: Settings, a: Attempt): RiskDecision {
    PriceDivergence.Evaluate(cfg.price, a.evalMS, a.prices)
  }

  function HaltRule(): Rule<Attempt, World> {
    Rule(HALT_RULE_ID, (a, w) => (HaltDecision(a), w))
  }

  function DryRunRule(): Rule<Attempt, World> {
    Rule(DRY_RUN_RULE_ID, (a, w) => (DryRunDecision(a), w))
  }

  function CooldownRule(cfg: Settings): Rule<Attempt, World> {
    Rule(COOLDOWN_RULE_ID, (a, w) => CooldownDecision(cfg, a, w))
  }

  function PriceRule(cfg: Settings): Rule<Attempt, World> {
    Rule(PRICE_RULE_ID, (a, w) => (PriceDecision(cfg, a), w))
  }

  function BotRules(cfg: Settings): seq<Rule<Attempt, World>> {
    [HaltRule(), DryRunRule(), CooldownRule(cfg), PriceRule(cfg)]
  }

  /** The verdict of the installed rules, and the risk state they leave. */
  function RiskVerdict(cfg: Settings, a: Attempt, w: World): (Verdict, World) {
    var (ds, w') := Consulted(BotRules(cfg), a, w);
    (Conclude(ds).verdict, w')
  }

  /**
   The rules one by one: the cooldown rule is reached only past HALT and dry run, the price rule only past the
   cooldown.
   */
  lemma RulesInOrder(cfg: Settings, a: Attempt, w: World)
    ensures var (d, w') := CooldownDecision(cfg, a, w);
            RiskVerdict(cfg, a, w) ==
            if HaltDecision(a).verdict == Reject || DryRunDecision(a).verdict == Reject then (Reject, w)
            else (if d.verdict == Reject || PriceDecision(cfg, a).verdict == Reject then Reject else Approve, w')
  {
    hide HaltDecision, DryRunDecision, CooldownDecision, PriceDecision, Consulted, Conclude;
    InstalledRulesAreTwoValued(cfg, a);
    var r0, r1 := BotRules(cfg), [DryRunRule(), CooldownRule(cfg), PriceRule(cfg)];
    var r2, r3 := [CooldownRule(cfg), PriceRule(cfg)], [PriceRule(cfg)];
    ScreenIsVerdict(r0, a, w);
    assert r0[1..] == r1 && r1[1..] == r2 && r2[1..] == r3 && r3[1..] == [];
    var (d, w') := CooldownDecision(cfg, a, w);
    assert Screen(r3, a, w') == (if PriceDecision(cfg, a).verdict == Reject then Reject else Approve, w');
    assert Screen(r2, a, w) == if d.verdict == Reject then (Reject, w') else Screen(r3, a, w');
    assert Screen(r1, a, w) == if DryRunDecision(a).verdict == Reject then (Reject, w) else Screen(r2, a, w);
    assert Screen(r0, a, w) == if HaltDecision(a).verdict == Reject then (Reject, w) else Screen(r1, a, w);
  }

  /** A HALT rejection says why, if the control file does. */
  lemma HaltReason(a: Attempt)
    ensures TrimSpace(a.riskMode) == "HALT" ==>
              var reason, why := HaltDecision(a).reason, TrimSpace(a.controlReason);
              && "control.json risk_mode=HALT" <= reason && EndsWith(reason, why)
              && (why == "" <==> reason == "control.json risk_mode=HALT")
  {
    hide TrimSpace;
  }

  lemma InstalledRulesAreTwoValued(cfg: Settings, a: Attempt)
    ensures forall r :: r in BotRules(cfg) ==> TwoValued(r, a)
  {
  }

  // ---------------------------------------------------------------- one execution

  /** The gates between the risk rules and the breaker, in order. */
  function EarlyGate(a: Attempt): Option<Gate> {
    var mode, desired := TrimSpace(a.riskMode), TrimSpace(a.desiredState);
    if mode != "" && mode != "SAFE" then Some(ControlRiskMode)
    else if desired == "PAUSED" || desired == "SAFE_MODE" then Some(ControlDesiredState)
    else if a.ttlMS > 0 && a.issuedMS > 0 && a.startMS - a.issuedMS > a.ttlMS then Some(Expired)
    else if !a.marketNormal then Some(MarketMode)
    else None
  }

  datatype System = System(breaker: RiskManager.Breaker, world: World)

  function FailureRecord(cfg: Settings, key: string): Mutation {
    RecordFailure(key, cfg.cooldown.failureThreshold, cfg.cooldown.cooldownForMS)
  }

  function Execute(cfg: Settings, sys: System, a: Attempt): (Outcome, System) {
    var (verdict, world) := RiskVerdict(cfg, a, sys.world);
    var early := EarlyGate(a);
    if verdict == Reject then (Skipped(RiskControl), sys.(world := world))
    else if early.Some? then (Skipped(early.value), sys.(world := world))
    else if !RiskManager.Proceeds(sys.breaker) then
      (Skipped(Breaker), System(RiskManager.Apply(sys.breaker, RiskManager.CanProceed), world))
    else if a.poolDanger then (Skipped(PoolGuard), sys.(world := world))
    else if a.prepareFails then
      (Failed, System(RiskManager.Apply(sys.breaker, RiskManager.RecordFailure),
                      Operate(world, FailureRecord(cfg, a.key), a.recordMS, a.recordIo)))
    else
      (Simulated, System(RiskManager.Apply(sys.breaker, RiskManager.RecordSuccess(a.recordMS)),
                         Operate(world, RecordSuccess(a.key), a.recordMS, a.recordIo)))
  }

  class Executor {
    const cfg: Settings
    const rule: CooldownAndFrequencyRule
    const manager: RiskManager.Manager

    constructor (cfg: Settings, rule: CooldownAndFrequencyRule, manager: RiskManager.Manager)
      requires rule.cfg == cfg.cooldown
      ensures this.cfg == cfg && this.rule == rule && this.manager == manager
    {
      this.cfg, this.rule, this.manager := cfg, rule, manager;
    }

    ghost predicate Valid() {
      rule.cfg == cfg.cooldown
    }

    function Current(): System
      reads manager, rule.store, rule.store.disk
    {
      System(manager.Current(), rule.store.Current())
    }

    /** The installed rules, consulted until one rejects. */
    method EvaluateRules(a: Attempt) returns (verdict: Verdict)
      requires Valid()
      modifies rule, rule.store, rule.store.disk
      ensures (verdict, rule.store.Current()) == RiskVerdict(cfg, a, old(rule.store.Current()))
      ensures manager.Current() == old(manager.Current())
    {
      hide HaltDecision, DryRunDecision, PriceDecision, RiskVerdict;
      RulesInOrder(cfg, a, rule.store.Current());
      if HaltDecision(a).verdict == Reject || DryRunDecision(a).verdict == Reject {
        return Reject;
      }
      var d := rule.Evaluate(a.key, a.evalMS, a.evalIos);
      if d.verdict == Reject || PriceDecision(cfg, a).verdict == Reject {
        return Reject;
      }
      verdict := Approve;
    }

    method ExecuteIntent(a: Attempt) returns (outcome: Outcome)
      requires Valid()
      modifies manager, rule, rule.store, rule.store.disk
      ensures (outcome, Current()) == Execute(cfg, old(Current()), a)
    {
      hide RiskVerdict;
      var verdict := EvaluateRules(a);
      if verdict == Reject {
        return Skipped(RiskControl);
      }
      var mode, desired := TrimSpace(a.riskMode), TrimSpace(a.desiredState);
      if mode != "" && mode != "SAFE" {
        return Skipped(ControlRiskMode);
      }
      if desired == "PAUSED" || desired == "SAFE_MODE" {
        return Skipped(ControlDesiredState);
      }
      if a.ttlMS > 0 && a.issuedMS > 0 && a.startMS - a.issuedMS > a.ttlMS {
        return Skipped(Expired);
      }
      if !a.marketNormal {
        return Skipped(MarketMode);
      }
      var ok, _ := manager.Check();
      if !ok {
        return Skipped(Breaker);
      }
      if a.poolDanger {
        return Skipped(PoolGuard);
      }
      if a.prepareFails {
        manager.NoteFailure();
        var _, _, _ := rule.store.NoteFailure(a.recordMS, a.key, cfg.cooldown.failureThreshold,
                                              cfg.cooldown.cooldownForMS, a.recordIo);
        return Failed;
      }
      manager.NoteSuccess(a.recordMS);
      var _ := rule.store.NoteSuccess(a.recordMS, a.key, a.recordIo);
      outcome := Simulated;
    }
  }

  // ---------------------------------------------------------------- which intents are executed

  /** A trimmed desired state that pauses the bot. */
  predicate Paused(a: Attempt) {
    TrimSpace(a.desiredState) == "PAUSED" || TrimSpace(a.desiredState) == "SAFE_MODE"
  }

  /** What each gate looks at, told by the attempt itself. */
  predicate Shut(cfg: Settings, sys: System, a: Attempt, gate: Gate) {
    match gate
    case RiskControl => RiskVerdict(cfg, a, sys.world).0 == Reject
    case ControlRiskMode => TrimSpace(a.riskMode) !in {"", "SAFE"}
    case ControlDesiredState => Paused(a)
    case Expired => a.ttlMS > 0 && a.issuedMS > 0 && a.startMS > a.issuedMS + a.ttlMS
    case MarketMode => !a.marketNormal
    case Breaker =>
      var b := sys.breaker;
      b.mode == RiskManager.Frozen || b.gasUsed >= b.maxGas || b.fails >= b.maxFails || b.drawdown >= b.maxDrawdown
    case PoolGuard => a.poolDanger
  }

  /** The place of a gate on the way of an intent. */
  function Place(gate: Gate): nat {
    match gate
    case RiskControl => 1
    case ControlRiskMode => 2
    case ControlDesiredState => 3
    case Expired => 4
    case MarketMode => 5
    case Breaker => 6
    case PoolGuard => 7
  }

  predicate FirstShut(cfg: Settings, sys: System, a: Attempt, gate: Gate) {
    Shut(cfg, sys, a, gate) && forall g :: Place(g) < Place(gate) ==> !Shut(cfg, sys, a, g)
  }

  /** An intent is skipped at a gate exactly if that is the first one that is shut. */
  lemma SkippedAtFirstShutGate(cfg: Settings, sys: System, a: Attempt, gate: Gate)
    ensures Execute(cfg, sys, a).0 == Skipped(gate) <==> FirstShut(cfg, sys, a, gate)
  {
    SomeGate(cfg, sys, a);
    hide Execute, Shut;
    if FirstShut(cfg, sys, a, gate) {
      var outcome := Execute(cfg, sys, a).0;
      assert outcome.Skipped? && FirstShut(cfg, sys, a, outcome.gate);
      assert Place(outcome.gate) == Place(gate);
    }
  }

  lemma SomeGate(cfg: Settings, sys: System, a: Attempt)
    ensures var outcome := Execute(cfg, sys, a).0;
            if outcome.Skipped? then FirstShut(cfg, sys, a, outcome.gate)
            else forall g :: !Shut(cfg, sys, a, g)
  {
    hide RiskVerdict, TrimSpace, Operate;
    forall g | var outcome := Execute(cfg, sys, a).0; outcome.Skipped? ==> Place(g) < Place(outcome.gate)
      ensures !Shut(cfg, sys, a, g)
    {
    }
  }

  /**
   An intent is executed, with or without success, exactly if the rules do not reject it, the control file neither
   sets a risk mode other than SAFE nor pauses the bot, it has not expired, the market is normal, the breaker lets it
   proceed, and its pool is not in danger.
   */
  lemma ExecutedExactly(cfg: Settings, sys: System, a: Attempt)
    ensures var outcome := Execute(cfg, sys, a).0;
            var mode, desired, b := TrimSpace(a.riskMode), TrimSpace(a.desiredState), sys.breaker;
            var executed :=
              && RiskVerdict(cfg, a, sys.world).0 != Reject
              && (mode == "" || mode == "SAFE")
              && desired != "PAUSED" && desired != "SAFE_MODE"
              && (a.ttlMS <= 0 || a.issuedMS <= 0 || a.startMS <= a.issuedMS + a.ttlMS)
              && a.marketNormal
              && b.mode != RiskManager.Frozen && b.gasUsed < b.maxGas && b.fails < b.maxFails
                  && b.drawdown < b.maxDrawdown
              && !a.poolDanger;
            && (outcome == Failed <==> executed && a.prepareFails)
            && (outcome == Simulated <==> executed && !a.prepareFails)
  {
    hide RiskVerdict, TrimSpace, Operate;
  }

  /**
   With a store in sync, the rules approve exactly if the risk mode is not HALT, the candidate is a dry run, the key's
   cooldown is over, its last approval is not less than a minimum interval ago, and no compared deviation is above
   the threshold.
   */
  lemma ApprovedExactly(cfg: Settings, a: Attempt, w: World)
    requires Armed(cfg) && InSync(w) && Safe(a.evalIos.third) && Safe(a.evalIos.fourth)
    ensures var until, last := Get(w.state.cooldownUntilMS, a.key), Get(w.state.lastIntentMS, a.key);
            var o := PriceDivergence.Judge(cfg.price, a.evalMS, a.prices);
            RiskVerdict(cfg, a, w).0 == Approve <==>
            && TrimSpace(a.riskMode) != "HALT"
            && a.candidateIsDryRun
            && (until <= 0 || until <= a.evalMS)
            && (last <= 0 || a.evalMS < last || a.evalMS >= last + cfg.cooldown.minIntervalMS)
            && !(o.Compared? && o.reject)
  {
    RulesInSync(cfg, a, w);
    Verdicts(cfg, a, w);
    hide RiskVerdict, HaltDecision, DryRunDecision, PriceDecision, TrimSpace, PriceDivergence.Judge;
  }

  /** The control file keeps the executor from acting. */
  predicate HeldByControl(a: Attempt) {
    TrimSpace(a.riskMode) !in {"", "SAFE"} || Paused(a)
  }

  /**
   While the control file pauses the bot or sets a risk mode other than SAFE, every intent of a run is skipped, and no
   failure count, no cooldown end and no field of the breaker moves.
   */
  lemma {:induction false} HeldBotDoesNothing(cfg: Settings, sys: System, attempts: seq<Attempt>)
    requires Armed(cfg) && InSync(sys.world)
    requires forall i :: 0 <= i < |attempts| ==> SafeIos(attempts[i]) && HeldByControl(attempts[i])
    ensures forall i :: 0 <= i < |attempts| ==> Execute(cfg, Run(cfg, sys, attempts[..i]), attempts[i]).0.Skipped?
    ensures var after := Run(cfg, sys, attempts);
            && after.breaker == sys.breaker && InSync(after.world)
            && after.world.state.fails == sys.world.state.fails
            && after.world.state.cooldownUntilMS == sys.world.state.cooldownUntilMS
  {
    hide *;
    if attempts == [] {
      NothingRun(cfg, sys, attempts);
    } else {
      var n := |attempts| - 1;
      var init, a := attempts[..n], attempts[n];
      assert forall i :: 0 <= i < n ==> init[i] == attempts[i] && init[..i] == attempts[..i];
      HeldBotDoesNothing(cfg, sys, init);
      HeldOnce(cfg, Run(cfg, sys, init), a);
      RunUnfolds(cfg, sys, attempts);
    }
  }

  lemma NothingRun(cfg: Settings, sys: System, attempts: seq<Attempt>)
    ensures attempts == [] ==> Run(cfg, sys, attempts) == sys
  {
    hide Execute;
  }

  lemma RunUnfolds(cfg: Settings, sys: System, attempts: seq<Attempt>)
    ensures attempts != [] ==>
              Run(cfg, sys, attempts) == Execute(cfg, Run(cfg, sys, attempts[..|attempts| - 1]),
                                                 attempts[|attempts| - 1]).1
  {
    hide Execute;
  }

  predicate SafeIos(a: Attempt) {
    Safe(a.evalIos.third) && Safe(a.evalIos.fourth) && Safe(a.recordIo)
  }

  lemma HeldOnce(cfg: Settings, sys: System, a: Attempt)
    requires Armed(cfg) && InSync(sys.world) && SafeIos(a) && HeldByControl(a)
    ensures var (outcome, sys') := Execute(cfg, sys, a);
            && outcome.Skipped? && sys'.breaker == sys.breaker && InSync(sys'.world)
            && sys'.world.state.fails == sys.world.state.fails
            && sys'.world.state.cooldownUntilMS == sys.world.state.cooldownUntilMS
  {
    ExecuteInSync(cfg, sys, a);
    ExecutedExactly(cfg, sys, a);
    BreakerUntouched(cfg, sys, a);
    hide Execute, RiskVerdict, InSync, Armed, Decide;
  }

  lemma BreakerUntouched(cfg: Settings, sys: System, a: Attempt)
    ensures HeldByControl(a) ==>
              Execute(cfg, sys, a).1.breaker == sys.breaker
  {
    hide RiskVerdict, TrimSpace, Operate;
  }

  // ---------------------------------------------------------------- runs

  function Run(cfg: Settings, sys: System, attempts: seq<Attempt>): System {
    if attempts == [] then sys
    else Execute(cfg, Run(cfg, sys, attempts[..|attempts| - 1]), attempts[|attempts| - 1]).1
  }

  /** An enabled cooldown rule with its defaults filled in. */
  predicate Armed(cfg: Settings) {
    cfg.cooldown.enabled && WithDefaults(cfg.cooldown) == cfg.cooldown
  }

  /** The clock is positive and never goes back, and a stat after a rename succeeds. */
  predicate Timely(attempts: seq<Attempt>) {
    && (forall i :: 0 <= i < |attempts| ==>
          var a := attempts[i];
          0 < a.evalMS <= a.recordMS && Safe(a.evalIos.third) && Safe(a.evalIos.fourth) && Safe(a.recordIo))
    && (forall i :: 0 < i < |attempts| ==> attempts[i - 1].recordMS <= attempts[i].evalMS)
  }

  lemma TimelyPrefix(attempts: seq<Attempt>)
    requires Timely(attempts) && attempts != []
    ensures Timely(attempts[..|attempts| - 1])
  {
    var init := attempts[..|attempts| - 1];
    assert forall i :: 0 <= i < |init| ==> init[i] == attempts[i];
  }

  /** The four verdicts in terms of what the rules looked at. */
  lemma Verdicts(cfg: Settings, a: Attempt, w: World)
    ensures HaltDecision(a).verdict == if TrimSpace(a.riskMode) == "HALT" then Reject else Approve
    ensures DryRunDecision(a).verdict == if a.candidateIsDryRun then Approve else Reject
    ensures DecisionOf(cfg.cooldown, w.state, a.key, a.evalMS).verdict ==
            if Decide(cfg.cooldown, w.state, a.key, a.evalMS).Pass? then Approve else Reject
    ensures var o := PriceDivergence.Judge(cfg.price, a.evalMS, a.prices);
            PriceDecision(cfg, a).verdict == if o.Compared? && o.reject then Reject else Approve
  {
    hide TrimSpace, Reason, PriceDivergence.Words, Join, PriceDivergence.Judge, Decide;
  }

  /**
   What the rules do to the risk state when the store is in sync: nothing before the cooldown rule, and from
   there on one write, even if the price rule then rejects.
   */
  lemma RulesInSync(cfg: Settings, a: Attempt, w: World)
    requires Armed(cfg) && InSync(w) && Safe(a.evalIos.third) && Safe(a.evalIos.fourth)
    ensures var (verdict, w') := RiskVerdict(cfg, a, w);
            var blocked := HaltDecision(a).verdict == Reject || DryRunDecision(a).verdict == Reject;
            var gate := Decide(cfg.cooldown, w.state, a.key, a.evalMS);
            && InSync(w')
            && (blocked ==> verdict == Reject && w' == w)
            && (!blocked ==>
                  var note := Note(cfg.cooldown, w.state, a.key, a.evalMS);
                  w'.state == Mutate(w.state, note, a.evalMS).(updatedAtMS := a.evalMS))
            && (!blocked ==> (verdict == Approve <==> gate.Pass? && PriceDecision(cfg, a).verdict != Reject))
            && verdict in {Approve, Reject}
  {
    hide RiskVerdict, HaltDecision, DryRunDecision, PriceDecision, Evaluated;
    RulesInOrder(cfg, a, w);
    EvaluatedInSync(cfg.cooldown, w, a.key, a.evalMS, a.evalIos);
  }

  /**
   An intent stopped by HALT or by the dry-run rule leaves the store as it was; one stopped by the price rule has used
   its slot.
   */
  lemma WhoConsumesTheSlot(cfg: Settings, sys: System, a: Attempt)
    requires Armed(cfg) && InSync(sys.world) && Safe(a.evalIos.third) && Safe(a.evalIos.fourth)
    requires Execute(cfg, sys, a).0 == Skipped(RiskControl)
    ensures var after := Execute(cfg, sys, a).1.world;
            var reachedPrice := HaltDecision(a).verdict == Approve && DryRunDecision(a).verdict == Approve
                                && Decide(cfg.cooldown, sys.world.state, a.key, a.evalMS).Pass?;
            && (HaltDecision(a).verdict == Reject || DryRunDecision(a).verdict == Reject ==> after == sys.world)
            && (reachedPrice ==>
                PriceDecision(cfg, a).verdict == Reject && Get(after.state.lastIntentMS, a.key) == a.evalMS)
            && (!reachedPrice ==> after.state.lastIntentMS == sys.world.state.lastIntentMS)
  {
    hide RiskVerdict, PriceDecision, Reason;
    RulesInSync(cfg, a, sys.world);
  }

  /** The effect of one execution on the entries that the gates look at, when the store is in sync. */
  lemma ExecuteInSync(cfg: Settings, sys: System, a: Attempt)
    requires Armed(cfg) && InSync(sys.world)
    requires Safe(a.evalIos.third) && Safe(a.evalIos.fourth) && Safe(a.recordIo)
    ensures var (outcome, sys') := Execute(cfg, sys, a);
            var s, s' := sys.world.state, sys'.world.state;
            var passed := RiskVerdict(cfg, a, sys.world).0 == Approve;
            && InSync(sys'.world)
            && (outcome.Failed? || outcome.Simulated? ==> passed)
            && (passed ==>
                 Decide(cfg.cooldown, s, a.key, a.evalMS).Pass?
                 && s'.lastIntentMS == s.lastIntentMS[a.key := a.evalMS])
            && (s'.lastIntentMS == s.lastIntentMS || s'.lastIntentMS == s.lastIntentMS[a.key := a.evalMS])
            && s'.fails == (match outcome
                            case Failed => s.fails[a.key := Get(s.fails, a.key) + 1]
                            case Simulated => s.fails[a.key := 0]
                            case Skipped(_) => s.fails)
            && s'.cooldownUntilMS == (if outcome.Failed? && Get(s.fails, a.key) + 1 >= cfg.cooldown.failureThreshold
                                      then s.cooldownUntilMS[a.key := a.recordMS + cfg.cooldown.cooldownForMS]
                                      else s.cooldownUntilMS)
  {
    hide RiskVerdict, HaltDecision, DryRunDecision, PriceDecision, Reason;
    RulesInSync(cfg, a, sys.world);
    var w := RiskVerdict(cfg, a, sys.world).1;
    OperateKeeps(w, FailureRecord(cfg, a.key), a.recordMS, a.recordIo);
    OperateKeeps(w, RecordSuccess(a.key), a.recordMS, a.recordIo);
  }
}
