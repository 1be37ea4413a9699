/**
 How often the executor can approve: approvals by the cooldown rule, and final ones, over whole runs
 (internal/riskcontrol/rule_cooldown_frequency.go, executeIntent in cmd/bot/main.go).
 */
module Approvals {
  import opened Basics
  import opened RiskTypes
  import opened StateStore
  import opened Cooldown
  import opened Pipeline

  /** The cooldown rule is reached and approves: whatever comes after it, the slot of the key is used. */
  predicate Granted(cfg: Settings, a: Attempt, w: World) {
    && HaltDecision(a).verdict == Approve && DryRunDecision(a).verdict == Approve
    && CooldownDecision(cfg, a, w).0.verdict == Approve
  }

  /** When the cooldown rule approved an intent with this key, oldest first. */
  function GrantTimes(cfg: Settings, sys: System, attempts: seq<Attempt>, key: string): seq<int> {
    if attempts == [] then [] else
      var init, a := attempts[..|attempts| - 1], attempts[|attempts| - 1];
      GrantTimes(cfg, sys, init, key) +
      if a.key == key && Granted(cfg, a, Pipeline.Run(cfg, sys, init).world) then [a.evalMS] else []
  }

  /** When all rules approved an intent with this key, oldest first. */
  function ApprovalTimes(cfg: Settings, sys: System, attempts: seq<Attempt>, key: string): seq<int> {
    if attempts == [] then [] else
      var init, a := attempts[..|attempts| - 1], attempts[|attempts| - 1];
      ApprovalTimes(cfg, sys, init, key) +
      if a.key == key && RiskVerdict(cfg, a, Pipeline.Run(cfg, sys, init).world).0 == Approve then [a.evalMS] else []
  }

  /** A grant passes the gate, and grants are the only thing that moves a last-intent time. */
  lemma GrantEffect(cfg: Settings, sys: System, a: Attempt)
    requires Armed(cfg) && InSync(sys.world)
    requires Safe(a.evalIos.third) && Safe(a.evalIos.fourth) && Safe(a.recordIo)
    ensures var sys' := Execute(cfg, sys, a).1;
            var s, s' := sys.world.state, sys'.world.state;
            && InSync(sys'.world)
            && (Granted(cfg, a, sys.world) ==> Decide(cfg.cooldown, s, a.key, a.evalMS).Pass?)
            && s'.lastIntentMS == (if Granted(cfg, a, sys.world) then s.lastIntentMS[a.key := a.evalMS]
                                   else s.lastIntentMS)
    ensures RiskVerdict(cfg, a, sys.world).0 == Approve ==> Granted(cfg, a, sys.world)
  {
    hide RiskVerdict, PriceDecision, Reason;
    RulesInOrder(cfg, a, sys.world);
    RulesInSync(cfg, a, sys.world);
    EvaluatedInSync(cfg.cooldown, sys.world, a.key, a.evalMS, a.evalIos);
    Verdicts(cfg, a, sys.world);
    hide HaltDecision, DryRunDecision, Evaluated;
    var w := RiskVerdict(cfg, a, sys.world).1;
    OperateKeeps(w, FailureRecord(cfg, a.key), a.recordMS, a.recordIo);
    OperateKeeps(w, RecordSuccess(a.key), a.recordMS, a.recordIo);
  }

  /** What a grant means for the last-intent time of one key. */
  lemma GrantEntry(cfg: Settings, sys: System, a: Attempt, key: string)
    requires Armed(cfg) && InSync(sys.world)
    requires Safe(a.evalIos.third) && Safe(a.evalIos.fourth) && Safe(a.recordIo)
    ensures var sys' := Execute(cfg, sys, a).1;
            var last, granted := Get(sys.world.state.lastIntentMS, key), a.key == key && Granted(cfg, a, sys.world);
            && InSync(sys'.world)
            && Get(sys'.world.state.lastIntentMS, key) == (if granted then a.evalMS else last)
            && (granted && 0 < last <= a.evalMS ==> a.evalMS - last >= cfg.cooldown.minIntervalMS)
  {
    GrantEffect(cfg, sys, a);
    hide Granted, Execute;
  }

  lemma {:induction false} GrantInvariant(cfg: Settings, sys: System, attempts: seq<Attempt>, key: string)
    requires Armed(cfg) && InSync(sys.world) && Timely(attempts)
    ensures var w := Pipeline.Run(cfg, sys, attempts).world;
            var times := GrantTimes(cfg, sys, attempts, key);
            && InSync(w)
            && Spaced(times, cfg.cooldown.minIntervalMS)
            && (times != [] ==>
                  && attempts != []
                  && 0 < times[|times| - 1] == Get(w.state.lastIntentMS, key) <= attempts[|attempts| - 1].evalMS)
  {
    hide Granted, Execute, InSync, Safe, Armed, Get;
    if attempts == [] {
      assert GrantTimes(cfg, sys, attempts, key) == [] && Pipeline.Run(cfg, sys, attempts) == sys;
    } else {
      var init, a := attempts[..|attempts| - 1], attempts[|attempts| - 1];
      TimelyPrefix(attempts);
      GrantInvariant(cfg, sys, init, key);
      GrantEntry(cfg, Pipeline.Run(cfg, sys, init), a, key);
      if init != [] {
        assert init[|init| - 1] == attempts[|attempts| - 2];
      }
    }
  }

  /** Final approvals are among the grants. */
  lemma {:induction false} ApprovalsAmongGrants(cfg: Settings, sys: System, attempts: seq<Attempt>, key: string)
    requires Armed(cfg) && InSync(sys.world) && Timely(attempts)
    ensures var times, grants := ApprovalTimes(cfg, sys, attempts, key), GrantTimes(cfg, sys, attempts, key);
            && Spaced(times, cfg.cooldown.minIntervalMS)
            && (times != [] ==> grants != [] && times[|times| - 1] <= grants[|grants| - 1])
  {
    hide Granted, Execute, RiskVerdict;
    if attempts != [] {
      var init, a := attempts[..|attempts| - 1], attempts[|attempts| - 1];
      TimelyPrefix(attempts);
      ApprovalsAmongGrants(cfg, sys, init, key);
      GrantInvariant(cfg, sys, init, key);
      GrantInvariant(cfg, sys, attempts, key);
      GrantEffect(cfg, Pipeline.Run(cfg, sys, init), a);
      var grants := GrantTimes(cfg, sys, init, key);
      if a.key == key && Granted(cfg, a, Pipeline.Run(cfg, sys, init).world) && grants != [] {
        assert GrantTimes(cfg, sys, attempts, key)[|grants| - 1] == grants[|grants| - 1];
      }
    }
  }

  /** Any closed window of that length holds at most window / gap + 1 of the times. */
  ghost predicate FewPerWindow(times: seq<int>, gap: int, window: nat)
    requires gap > 0
  {
    forall i, j :: 0 <= i <= j < |times| && times[j] - times[i] <= window ==> j - i + 1 <= window / gap + 1
  }

  lemma SpacedMeansFew(times: seq<int>, gap: int, window: nat)
    requires gap > 0 && Spaced(times, gap)
    ensures FewPerWindow(times, gap, window)
  {
    forall i, j | 0 <= i <= j < |times| && times[j] - times[i] <= window
      ensures j - i + 1 <= window / gap + 1
    {
      WindowHoldsFew(times, gap, window, i, j);
    }
  }

  /**
   Over any run of intents with any keys, grants, failures, successes and early stops in any order, with any loads
   and saves failing before the rename: two approvals of one key by the cooldown rule are at least the minimum
   interval apart, whatever the price rule then says, and so are two final approvals. A window of W milliseconds
   holds at most W / interval + 1 of either.
   */
  lemma ApprovalsAreSpaced(cfg: Settings, sys: System, attempts: seq<Attempt>, key: string, window: nat)
    requires Armed(cfg) && InSync(sys.world) && Timely(attempts)
    ensures var gap := cfg.cooldown.minIntervalMS;
            var grants, approvals := GrantTimes(cfg, sys, attempts, key), ApprovalTimes(cfg, sys, attempts, key);
            && Spaced(grants, gap) && FewPerWindow(grants, gap, window)
            && Spaced(approvals, gap) && FewPerWindow(approvals, gap, window)
            && (grants != [] ==>
                grants[|grants| - 1] == Get(Pipeline.Run(cfg, sys, attempts).world.state.lastIntentMS, key))
  {
    hide Pipeline.Run, GrantTimes, ApprovalTimes, Timely;
    GrantInvariant(cfg, sys, attempts, key);
    ApprovalsAmongGrants(cfg, sys, attempts, key);
    SpacedMeansFew(GrantTimes(cfg, sys, attempts, key), cfg.cooldown.minIntervalMS, window);
    SpacedMeansFew(ApprovalTimes(cfg, sys, attempts, key), cfg.cooldown.minIntervalMS, window);
  }
}
