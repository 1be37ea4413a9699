/**
 How the cooldown of a key and the global breaker interact: how soon failures can freeze the breaker, and what a frozen
 breaker stops (internal/risk/manager.go, executeIntent in cmd/bot/main.go).
 */
module Freezing {
  import opened Basics
  import opened Text
  import opened RiskTypes
  import opened StateStore
  import opened Cooldown
  import opened Pipeline
  import PriceDivergence
  import RiskManager

  /** When a failed attempt was approved, and when its failure was recorded. */
  datatype Failure = Failure(evalMS: int, recordMS: int)

  function Extended(outcome: Outcome, streak: seq<Failure>, evalMS: int, recordMS: int): seq<Failure> {
    match outcome
    case Failed => streak + [Failure(evalMS, recordMS)]
    case Simulated => []
    case Skipped(_) => streak
  }

  /** The failures since the last success, oldest first. */
  function Streak(cfg: Settings, sys: System, attempts: seq<Attempt>): seq<Failure> {
    if attempts == [] then [] else
      var init, a := attempts[..|attempts| - 1], attempts[|attempts| - 1];
      Extended(Execute(cfg, Pipeline.Run(cfg, sys, init), a).0, Streak(cfg, sys, init), a.evalMS, a.recordMS)
  }

  /** A system at the start: nothing counted, nothing frozen, limits that failures alone can reach. */
  predicate Begins(cfg: Settings, sys: System, key: string) {
    && Armed(cfg) && InSync(sys.world)
    && sys.breaker.fails == 0 && Get(sys.world.state.fails, key) == 0
    && sys.breaker.mode != RiskManager.Frozen && sys.breaker.drawdown < sys.breaker.maxDrawdown
    && sys.breaker.maxFails >= cfg.cooldown.failureThreshold
  }

  predicate OneKey(attempts: seq<Attempt>, key: string) {
    forall i :: 0 <= i < |attempts| ==> attempts[i].key == key
  }

  /** Successive failures are a minimum interval apart, and a cooldown apart once the threshold has been reached. */
  ghost predicate Paced(cfg: Settings, streak: seq<Failure>) {
    && (forall i :: 0 <= i < |streak| ==> streak[i].evalMS <= streak[i].recordMS)
    && (forall i :: 0 < i < |streak| ==> streak[i].evalMS - streak[i - 1].evalMS >= cfg.cooldown.minIntervalMS)
    && (forall i :: cfg.cooldown.failureThreshold <= i < |streak| && i > 0 ==>
          streak[i].evalMS - streak[i - 1].recordMS >= cfg.cooldown.cooldownForMS)
  }

  /**
   Both counters are the length of the streak, the last failure set the cooldown, and the last approval is its time.
   */
  ghost predicate Tally(cfg: Settings, start: RiskManager.Breaker, b: RiskManager.Breaker, fails: int, until: int,
                        last: int,                         streak: seq<Failure>)
  {
    var n := |streak|;
    && b.fails == n == fails
    && b.maxFails == start.maxFails && b.drawdown == start.drawdown && b.maxDrawdown == start.maxDrawdown
    && (b.mode == RiskManager.Frozen <==> n >= b.maxFails)
    && n <= b.maxFails
    && (n > 0 && n >= cfg.cooldown.failureThreshold ==> until == streak[n - 1].recordMS + cfg.cooldown.cooldownForMS)
    && (n > 0 ==> 0 < streak[n - 1].evalMS <= last)
  }

  ghost predicate Counted(cfg: Settings, start: RiskManager.Breaker, sys: System, streak: seq<Failure>, key: string) {
    var s := sys.world.state;
    && InSync(sys.world)
    && Tally(cfg, start, sys.breaker, Get(s.fails, key), Get(s.cooldownUntilMS, key), Get(s.lastIntentMS, key), streak)
  }

  /** The latest approval and the latest failure do not lie in the future of the last attempt. */
  ghost predicate Past(sys: System, streak: seq<Failure>, attempts: seq<Attempt>, key: string) {
    streak != [] ==>
      && attempts != []
      && Get(sys.world.state.lastIntentMS, key) <= attempts[|attempts| - 1].evalMS
      && streak[|streak| - 1].recordMS <= attempts[|attempts| - 1].recordMS
  }

  /** The effect of one execution on the breaker. */
  lemma BreakerEffect(cfg: Settings, sys: System, a: Attempt)
    ensures var (outcome, sys') := Execute(cfg, sys, a);
            var b, b' := sys.breaker, sys'.breaker;
            && (outcome.Failed? || outcome.Simulated? ==> RiskManager.Proceeds(b))
            && (outcome.Failed? ==> b' == RiskManager.Apply(b, RiskManager.RecordFailure))
            && (outcome.Simulated? ==> b' == RiskManager.Apply(b, RiskManager.RecordSuccess(a.recordMS)))
            && (outcome.Skipped? ==> b' == b || b' == RiskManager.Apply(b, RiskManager.CanProceed))
  {
    hide RiskVerdict, EarlyGate, Operate;
  }

  lemma PacedMore(cfg: Settings, streak: seq<Failure>, f: Failure)
    requires Paced(cfg, streak) && f.evalMS <= f.recordMS
    requires streak != [] ==> f.evalMS - streak[|streak| - 1].evalMS >= cfg.cooldown.minIntervalMS
    requires streak != [] && |streak| >= cfg.cooldown.failureThreshold ==>
               f.evalMS - streak[|streak| - 1].recordMS >= cfg.cooldown.cooldownForMS
    ensures Paced(cfg, streak + [f])
  {
  }

  lemma PacedStep(cfg: Settings, s: Persisted, key: string, streak: seq<Failure>, evalMS: int, recordMS: int)
    requires Armed(cfg) && Paced(cfg, streak) && 0 < evalMS <= recordMS
    requires Decide(cfg.cooldown, s, key, evalMS).Pass?
    requires streak != [] ==> 0 < streak[|streak| - 1].evalMS <= Get(s.lastIntentMS, key) <= evalMS
    requires streak != [] ==> streak[|streak| - 1].recordMS <= evalMS
    requires streak != [] && |streak| >= cfg.cooldown.failureThreshold ==>
               Get(s.cooldownUntilMS, key) == streak[|streak| - 1].recordMS + cfg.cooldown.cooldownForMS
    ensures Paced(cfg, streak + [Failure(evalMS, recordMS)])
  {
    hide Paced, Get;
    PacedMore(cfg, streak, Failure(evalMS, recordMS));
  }

  lemma CountedStep(cfg: Settings, start: RiskManager.Breaker, sys: System, a: Attempt, streak: seq<Failure>)
    requires Armed(cfg) && start.drawdown < start.maxDrawdown && start.maxFails > 0
    requires Counted(cfg, start, sys, streak, a.key)
    requires streak != [] ==> Get(sys.world.state.lastIntentMS, a.key) <= a.evalMS
    requires 0 < a.evalMS <= a.recordMS && Safe(a.evalIos.third) && Safe(a.evalIos.fourth) && Safe(a.recordIo)
    ensures var (outcome, sys') := Execute(cfg, sys, a);
            Counted(cfg, start, sys', Extended(outcome, streak, a.evalMS, a.recordMS), a.key)
  {
    EntriesOfKey(cfg, sys, a);
    BreakerEffect(cfg, sys, a);
    hide Execute, RiskVerdict, Decide, Armed, Safe, InSync, Tally, RiskManager.Apply, RiskManager.Proceeds;
    var (outcome, sys') := Execute(cfg, sys, a);
    var s, s' := sys.world.state, sys'.world.state;
    TallyStep(cfg, start, sys.breaker, sys'.breaker, Get(s.fails, a.key), Get(s.cooldownUntilMS, a.key),
              Get(s.lastIntentMS, a.key),
              Get(s'.fails, a.key), Get(s'.cooldownUntilMS, a.key), Get(s'.lastIntentMS, a.key), streak, outcome,
              a.evalMS, a.recordMS);
  }

  lemma TallyStep(cfg: Settings, start: RiskManager.Breaker, b: RiskManager.Breaker, b': RiskManager.Breaker,
                  fails: int, until: int, last: int, fails': int, until': int, last': int,
                  streak: seq<Failure>, outcome: Outcome, evalMS: int, recordMS: int)
    requires start.drawdown < start.maxDrawdown && start.maxFails > 0 && 0 < evalMS && (streak != [] ==> last <= evalMS)
    requires Tally(cfg, start, b, fails, until, last, streak)
    requires outcome.Failed? || outcome.Simulated? ==> RiskManager.Proceeds(b)
    requires outcome.Failed? ==> b' == RiskManager.Apply(b, RiskManager.RecordFailure)
    requires outcome.Simulated? ==> b' == RiskManager.Apply(b, RiskManager.RecordSuccess(recordMS))
    requires outcome.Skipped? ==> b' == b || b' == RiskManager.Apply(b, RiskManager.CanProceed)
    requires fails' == match outcome case Failed => fails + 1 case Simulated => 0 case Skipped(_) => fails
    requires until' == if outcome.Failed? && fails + 1 >= cfg.cooldown.failureThreshold
                       then recordMS + cfg.cooldown.cooldownForMS else until
    requires last' == evalMS || (outcome.Skipped? && last' == last)
    ensures Tally(cfg, start, b', fails', until', last', Extended(outcome, streak, evalMS, recordMS))
  {
  }

  /** The entries of the attempt's own key, before and after. */
  lemma EntriesOfKey(cfg: Settings, sys: System, a: Attempt)
    requires Armed(cfg) && InSync(sys.world)
    requires Safe(a.evalIos.third) && Safe(a.evalIos.fourth) && Safe(a.recordIo)
    ensures var (outcome, sys') := Execute(cfg, sys, a);
            var s, s', k := sys.world.state, sys'.world.state, a.key;
            var n := Get(s.fails, k);
            && InSync(sys'.world)
            && Get(s'.fails, k) == (match outcome case Failed => n + 1 case Simulated => 0 case Skipped(_) => n)
            && Get(s'.cooldownUntilMS, k) == (if outcome.Failed? && n + 1 >= cfg.cooldown.failureThreshold
                                              then a.recordMS + cfg.cooldown.cooldownForMS
                                              else Get(s.cooldownUntilMS, k))
            && (Get(s'.lastIntentMS, k) == a.evalMS ||
                (outcome.Skipped? && Get(s'.lastIntentMS, k) == Get(s.lastIntentMS, k)))
            && (outcome.Failed? ==> Decide(cfg.cooldown, s, k, a.evalMS).Pass?)
  {
    ExecuteInSync(cfg, sys, a);
    hide Execute, RiskVerdict, Decide;
  }

  lemma PaceStep(cfg: Settings, start: RiskManager.Breaker, sys: System, a: Attempt, streak: seq<Failure>)
    requires Armed(cfg) && Counted(cfg, start, sys, streak, a.key) && Paced(cfg, streak)
    requires 0 < a.evalMS <= a.recordMS && Safe(a.evalIos.third) && Safe(a.evalIos.fourth) && Safe(a.recordIo)
    requires streak != [] ==>
             Get(sys.world.state.lastIntentMS, a.key) <= a.evalMS && streak[|streak| - 1].recordMS <= a.evalMS
    ensures Paced(cfg, Extended(Execute(cfg, sys, a).0, streak, a.evalMS, a.recordMS))
  {
    EntriesOfKey(cfg, sys, a);
    hide Execute, RiskVerdict, Decide, Armed, Safe;
    if Execute(cfg, sys, a).0.Failed? {
      PacedStep(cfg, sys.world.state, a.key, streak, a.evalMS, a.recordMS);
    }
  }

  lemma PastStep(cfg: Settings, sys: System, a: Attempt, streak: seq<Failure>)
    requires Armed(cfg) && InSync(sys.world)
    requires 0 < a.evalMS <= a.recordMS && Safe(a.evalIos.third) && Safe(a.evalIos.fourth) && Safe(a.recordIo)
    requires streak != [] ==>
             Get(sys.world.state.lastIntentMS, a.key) <= a.evalMS && streak[|streak| - 1].recordMS <= a.evalMS
    ensures var (outcome, sys') := Execute(cfg, sys, a);
            var streak' := Extended(outcome, streak, a.evalMS, a.recordMS);
            streak' != [] ==>
              Get(sys'.world.state.lastIntentMS, a.key) <= a.evalMS
              && streak'[|streak'| - 1].recordMS <= a.recordMS
  {
    EntriesOfKey(cfg, sys, a);
    hide Execute, RiskVerdict, Decide, Armed, Safe, InSync, Get, Extended;
    var (outcome, sys') := Execute(cfg, sys, a);
    PastEntries(outcome, streak, Get(sys.world.state.lastIntentMS, a.key), Get(sys'.world.state.lastIntentMS, a.key),
                a.evalMS, a.recordMS);
  }

  lemma PastEntries(outcome: Outcome, streak: seq<Failure>, last: int, last': int, evalMS: int, recordMS: int)
    requires evalMS <= recordMS && (streak != [] ==> last <= evalMS && streak[|streak| - 1].recordMS <= evalMS)
    requires last' == evalMS || (outcome.Skipped? && last' == last)
    ensures var streak' := Extended(outcome, streak, evalMS, recordMS);
            streak' != [] ==> last' <= evalMS && streak'[|streak'| - 1].recordMS <= recordMS
  {
  }

  lemma CountedAtStart(cfg: Settings, sys: System, key: string)
    ensures Begins(cfg, sys, key) ==>
              Counted(cfg, sys.breaker, sys, [], key) && Paced(cfg, [])
  {
  }

  lemma {:induction false} StreakInvariant(cfg: Settings, sys: System, attempts: seq<Attempt>, key: string)
    requires Begins(cfg, sys, key) && OneKey(attempts, key) && Timely(attempts)
    ensures var streak := Streak(cfg, sys, attempts);
            && Counted(cfg, sys.breaker, Pipeline.Run(cfg, sys, attempts), streak, key)
            && Paced(cfg, streak)
            && Past(Pipeline.Run(cfg, sys, attempts), streak, attempts, key)
  {
    if attempts == [] {
      CountedAtStart(cfg, sys, key);
    } else {
      hide Execute, Pipeline.Run, Streak, Paced, Counted, Past, RiskVerdict, Armed, Safe, InSync;
      var init, a := attempts[..|attempts| - 1], attempts[|attempts| - 1];
      TimelyPrefix(attempts);
      assert forall i :: 0 <= i < |init| ==> init[i] == attempts[i];
      StreakInvariant(cfg, sys, init, key);
      assert init != [] ==> init[|init| - 1] == attempts[|attempts| - 2];
      RunAndStreak(cfg, sys, attempts);
      StreakStep(cfg, sys, init, a, attempts, key);
    }
  }

  lemma RunAndStreak(cfg: Settings, sys: System, attempts: seq<Attempt>)
    requires attempts != []
    ensures var init, a := attempts[..|attempts| - 1], attempts[|attempts| - 1];
            var (outcome, sys') := Execute(cfg, Pipeline.Run(cfg, sys, init), a);
            && Pipeline.Run(cfg, sys, attempts) == sys'
            && Streak(cfg, sys, attempts) == Extended(outcome, Streak(cfg, sys, init), a.evalMS, a.recordMS)
  {
    hide Execute;
  }

  lemma StreakStep(cfg: Settings, sys: System, init: seq<Attempt>, a: Attempt, attempts: seq<Attempt>, key: string)
    requires Begins(cfg, sys, key) && a.key == key && attempts != [] && attempts[|attempts| - 1] == a
    requires Counted(cfg, sys.breaker, Pipeline.Run(cfg, sys, init), Streak(cfg, sys, init), key)
             && Paced(cfg, Streak(cfg, sys, init))
    requires Past(Pipeline.Run(cfg, sys, init), Streak(cfg, sys, init), init, key)
    requires 0 < a.evalMS <= a.recordMS && Safe(a.evalIos.third) && Safe(a.evalIos.fourth) && Safe(a.recordIo)
    requires init != [] ==> init[|init| - 1].evalMS <= init[|init| - 1].recordMS <= a.evalMS
    ensures var (outcome, sys') := Execute(cfg, Pipeline.Run(cfg, sys, init), a);
            var streak' := Extended(outcome, Streak(cfg, sys, init), a.evalMS, a.recordMS);
            Counted(cfg, sys.breaker, sys', streak', key) && Paced(cfg, streak') && Past(sys', streak', attempts, key)
  {
    hide Execute, Pipeline.Run, Streak, Paced, Tally, RiskVerdict, Safe, InSync;
    var before, streak := Pipeline.Run(cfg, sys, init), Streak(cfg, sys, init);
    CountedStep(cfg, sys.breaker, before, a, streak);
    assert InSync(before.world);
    PaceStep(cfg, sys.breaker, before, a, streak);
    PastStep(cfg, before, a, streak);
  }

  /** How long the gate stays shut after the failures from the threshold on. */
  function Wait(cfg: Settings): int {
    Max(cfg.cooldown.cooldownForMS, cfg.cooldown.minIntervalMS)
  }

  /**
   n failures in a row: an interval after each one before the threshold, the longer of interval and cooldown after
   each one from there on, and a whole cooldown between each record from there on and the next approval.
   */
  ghost predicate SlowToFreeze(cfg: Settings, streak: seq<Failure>, n: int) {
    var th := cfg.cooldown.failureThreshold;
    && |streak| == n >= th > 0
    && streak[n - 1].recordMS - streak[th - 1].recordMS >= (n - th) * cfg.cooldown.cooldownForMS
    && streak[n - 1].evalMS - streak[th - 1].evalMS >= (n - th) * Wait(cfg)
    && streak[n - 1].evalMS - streak[0].evalMS >= (th - 1) * cfg.cooldown.minIntervalMS + (n - th) * Wait(cfg)
  }

  /**
   With one cooldown key in use, failures freeze the breaker no sooner than (maxFails - threshold) cooldowns after
   the failure that reached the threshold, and no sooner than threshold - 1 minimum intervals and (maxFails -
   threshold) waits after the streak began.
   */
  lemma FreezingTakesTime(cfg: Settings, sys: System, attempts: seq<Attempt>, key: string)
    requires Begins(cfg, sys, key) && OneKey(attempts, key) && Timely(attempts)
    ensures Pipeline.Run(cfg, sys, attempts).breaker.mode == RiskManager.Frozen ==>
              SlowToFreeze(cfg, Streak(cfg, sys, attempts), sys.breaker.maxFails)
  {
    StreakInvariant(cfg, sys, attempts, key);
    hide Execute, Pipeline.Run, Streak, Paced, Past, Timely, OneKey;
    if Pipeline.Run(cfg, sys, attempts).breaker.mode == RiskManager.Frozen {
      PaceOfStreak(cfg, Streak(cfg, sys, attempts), sys.breaker.maxFails);
    }
  }

  /** The pace of a streak from the failure that reached the threshold on. */
  lemma {:induction false} PaceFromThreshold(cfg: Settings, streak: seq<Failure>, k: nat)
    requires Armed(cfg) && Paced(cfg, streak) && cfg.cooldown.failureThreshold - 1 + k < |streak|
    ensures var first := cfg.cooldown.failureThreshold - 1;
            && streak[first + k].recordMS - streak[first].recordMS >= k * cfg.cooldown.cooldownForMS
            && streak[first + k].evalMS - streak[first].evalMS >= k * Wait(cfg)
  {
    var c, w, i := cfg.cooldown.cooldownForMS, Wait(cfg), cfg.cooldown.failureThreshold - 1 + k;
    if k > 0 {
      PaceFromThreshold(cfg, streak, k - 1);
      assert k * c == (k - 1) * c + c && k * w == (k - 1) * w + w;
      assert streak[i].evalMS - streak[i - 1].evalMS >= w;
    }
  }

  /** The pace of a streak from its first failure on. */
  lemma {:induction false} PaceFromStart(cfg: Settings, streak: seq<Failure>, j: nat)
    requires Paced(cfg, streak) && j < |streak|
    ensures streak[j].evalMS - streak[0].evalMS >= j * cfg.cooldown.minIntervalMS
  {
    if j > 0 {
      PaceFromStart(cfg, streak, j - 1);
      assert j * cfg.cooldown.minIntervalMS == (j - 1) * cfg.cooldown.minIntervalMS + cfg.cooldown.minIntervalMS;
    }
  }

  lemma PaceOfStreak(cfg: Settings, streak: seq<Failure>, n: int)
    requires Armed(cfg) && Paced(cfg, streak) && |streak| == n >= cfg.cooldown.failureThreshold
    ensures SlowToFreeze(cfg, streak, n)
  {
    PaceFromThreshold(cfg, streak, n - cfg.cooldown.failureThreshold);
    PaceFromStart(cfg, streak, cfg.cooldown.failureThreshold - 1);
  }

  /** Once the breaker is frozen no intent is executed any more, whatever its key, and the breaker stays frozen. */
  lemma {:induction false} FrozenBlocksEverything(cfg: Settings, sys: System, attempts: seq<Attempt>)
    requires sys.breaker.mode == RiskManager.Frozen
    ensures Pipeline.Run(cfg, sys, attempts).breaker == sys.breaker
    ensures forall i :: 0 <= i < |attempts| ==>
            Execute(cfg, Pipeline.Run(cfg, sys, attempts[..i]), attempts[i]).0.Skipped?
  {
    hide RiskVerdict;
    if attempts != [] {
      var n := |attempts| - 1;
      var init := attempts[..n];
      FrozenBlocksEverything(cfg, sys, init);
      forall i | 0 <= i < |attempts| ensures Execute(cfg, Pipeline.Run(cfg, sys, attempts[..i]),
                                                     attempts[i]).0.Skipped? {
        if i < n {
          assert init[..i] == attempts[..i] && init[i] == attempts[i];
        }
      }
    }
  }

  // ---------------------------------------------------------------- the bound is sharp, and needs one key

  /** An attempt that meets no gate but the cooldown and the breaker, and then fails. */
  function Failing(key: string, t: int): Attempt {
    var io := Io(true, true, true, true, true, Meta(t, t));
    Attempt(key, "", "", "", false, true, map[], t, 0, 0, t, true, false, true, t, Ios(io, io, io, io), io)
  }

  lemma FailingFails(cfg: Settings, sys: System, key: string, t: int)
    requires Armed(cfg) && InSync(sys.world) && 0 < t
    requires Decide(cfg.cooldown, sys.world.state, key, t).Pass? && RiskManager.Proceeds(sys.breaker)
    ensures Execute(cfg, sys, Failing(key, t)).0 == Failed
  {
    var a := Failing(key, t);
    assert TrimSpace("") == "";
    assert HaltDecision(a).verdict == Approve && DryRunDecision(a).verdict == Approve;
    assert PriceDecision(cfg, a).verdict == Approve by {
      assert !PriceDivergence.Judge(cfg.price, t, map[]).Compared?;
    }
    hide RiskVerdict, HaltDecision, DryRunDecision, PriceDecision, Reason;
    RulesInSync(cfg, a, sys.world);
  }

  /** What such an attempt leaves behind. */
  lemma FailingEffect(cfg: Settings, sys: System, key: string, t: int)
    requires Armed(cfg) && InSync(sys.world) && 0 < t
    requires Decide(cfg.cooldown, sys.world.state, key, t).Pass? && RiskManager.Proceeds(sys.breaker)
    ensures var sys' := Execute(cfg, sys, Failing(key, t)).1;
            var s, s' := sys.world.state, sys'.world.state;
            var n := Get(s.fails, key) + 1;
            && InSync(sys'.world) && sys'.breaker == RiskManager.Apply(sys.breaker, RiskManager.RecordFailure)
            && s'.fails == s.fails[key := n] && s'.lastIntentMS == s.lastIntentMS[key := t]
            && s'.cooldownUntilMS == (if n >= cfg.cooldown.failureThreshold
                                      then s.cooldownUntilMS[key := t + cfg.cooldown.cooldownForMS]
                                      else s.cooldownUntilMS)
  {
    FailingFails(cfg, sys, key, t);
    BreakerEffect(cfg, sys, Failing(key, t));
    ExecuteInSync(cfg, sys, Failing(key, t));
    hide Execute, RiskVerdict, Decide, Armed, InSync, RiskManager.Apply, RiskManager.Proceeds;
  }

  lemma RunOneMore(cfg: Settings, sys: System, attempts: seq<Attempt>, a: Attempt)
    ensures Pipeline.Run(cfg, sys, attempts + [a]) == Execute(cfg, Pipeline.Run(cfg, sys, attempts), a).1
  {
    assert (attempts + [a])[..|attempts|] == attempts;
  }

  /** The earliest time at which the n-th failure of a key can come: the gate of the one before has just opened. */
  function FailureTime(cfg: Settings, start: int, n: nat): int {
    if n <= 1 then start
    else FailureTime(cfg, start, n - 1) +
         if n - 1 >= cfg.cooldown.failureThreshold then Wait(cfg) else cfg.cooldown.minIntervalMS
  }

  /** Up to the threshold only the interval holds a failure back, from there on the wait does. */
  lemma {:induction false} FailureTimes(cfg: Settings, start: int, n: nat)
    requires Armed(cfg) && n > 0
    ensures var th := cfg.cooldown.failureThreshold;
            FailureTime(cfg, start, n) - start ==
            if n <= th then (n - 1) * cfg.cooldown.minIntervalMS
            else (th - 1) * cfg.cooldown.minIntervalMS + (n - th) * Wait(cfg)
  {
    var th, gap, w := cfg.cooldown.failureThreshold, cfg.cooldown.minIntervalMS, Wait(cfg);
    if n > 1 {
      FailureTimes(cfg, start, n - 1);
      assert (n - 1) * gap == (n - 2) * gap + gap && (n - th) * w == (n - 1 - th) * w + w;
    }
  }

  lemma {:induction false} FailureTimesRise(cfg: Settings, start: int, m: nat, n: nat)
    requires Armed(cfg) && m <= n
    ensures FailureTime(cfg, start, m) <= FailureTime(cfg, start, n)
    ensures 0 < m < n ==> FailureTime(cfg, start, m) < FailureTime(cfg, start, n)
  {
    if m < n {
      FailureTimesRise(cfg, start, m, n - 1);
    }
  }

  /** The entries of a key after n failures on schedule. */
  predicate KeyOnSchedule(cfg: Settings, s: Persisted, key: string, start: int, n: nat) {
    && Get(s.fails, key) == n
    && Get(s.lastIntentMS, key) == (if n == 0 then 0 else FailureTime(cfg, start, n))
    && Get(s.cooldownUntilMS, key) ==
       (if n > 0 && n >= cfg.cooldown.failureThreshold then FailureTime(cfg, start, n) + cfg.cooldown.cooldownForMS
        else 0)
  }

  /** A start from which failures alone decide. */
  predicate Failable(cfg: Settings, sys: System) {
    && Armed(cfg) && InSync(sys.world) && RiskManager.Proceeds(sys.breaker) && sys.breaker.fails == 0
  }

  /** The system after `total` failures, whatever their keys. */
  predicate After(sys: System, now: System, total: nat) {
    && InSync(now.world)
    && now.breaker ==
       sys.breaker.(fails := total,
                    mode := if total >= sys.breaker.maxFails then RiskManager.Frozen else sys.breaker.mode)
  }

  /** One more failure of a key on its schedule; other keys keep their entries. */
  lemma OneMoreFailure(cfg: Settings, sys: System, now: System, key: string, start: int, n: nat, total: nat)
    requires Failable(cfg, sys) && start > 0 && After(sys, now, total) && total < sys.breaker.maxFails
    requires KeyOnSchedule(cfg, now.world.state, key, start, n)
    ensures var now' := Execute(cfg, now, Failing(key, FailureTime(cfg, start, n + 1))).1;
            && After(sys, now', total + 1)
            && KeyOnSchedule(cfg, now'.world.state, key, start, n + 1)
            && (forall k, m: nat :: k != key && KeyOnSchedule(cfg, now.world.state, k, start, m) ==>
                                      KeyOnSchedule(cfg, now'.world.state, k, start, m))
  {
    hide *;
    var t := FailureTime(cfg, start, n + 1);
    var now' := Execute(cfg, now, Failing(key, t)).1;
    BreakerCounts(cfg, sys, now, total);
    FailureTimesPositive(cfg, start, n + 1);
    GateOpens(cfg, now.world.state, key, start, n);
    FailsOnSchedule(cfg, now.world.state, key, start, n);
    FailingEffect(cfg, now, key, t);
    BreakerCountsOn(sys, now, now', total);
    KeysAfterFailure(cfg, now.world.state, now'.world.state, key, start, n);
  }

  lemma FailureTimesPositive(cfg: Settings, start: int, n: nat)
    requires Armed(cfg) && start > 0
    ensures FailureTime(cfg, start, n) > 0
  {
    FailureTimesRise(cfg, start, 0, n);
  }

  lemma BreakerCounts(cfg: Settings, sys: System, now: System, total: nat)
    ensures Failable(cfg, sys) && After(sys, now, total) && total < sys.breaker.maxFails ==>
              Armed(cfg) && RiskManager.Proceeds(now.breaker) && InSync(now.world)
  {
    hide InSync;
  }

  lemma BreakerCountsOn(sys: System, now: System, now': System, total: nat)
    requires After(sys, now, total) && total < sys.breaker.maxFails
    requires now'.breaker == RiskManager.Apply(now.breaker, RiskManager.RecordFailure) && InSync(now'.world)
    ensures After(sys, now', total + 1)
  {
    hide InSync;
  }

  lemma FailsOnSchedule(cfg: Settings, s: Persisted, key: string, start: int, n: nat)
    ensures KeyOnSchedule(cfg, s, key, start, n) ==>
              Get(s.fails, key) == n
  {
  }

  /** The entries of all keys, when exactly those of one key have moved on. */
  lemma KeysAfterFailure(cfg: Settings, s: Persisted, s': Persisted, key: string, start: int, n: nat)
    requires KeyOnSchedule(cfg, s, key, start, n)
    requires var t := FailureTime(cfg, start, n + 1);
             && s'.fails == s.fails[key := n + 1] && s'.lastIntentMS == s.lastIntentMS[key := t]
             && s'.cooldownUntilMS == (if n + 1 >= cfg.cooldown.failureThreshold
                                       then s.cooldownUntilMS[key := t + cfg.cooldown.cooldownForMS]
                                       else s.cooldownUntilMS)
    ensures KeyOnSchedule(cfg, s', key, start, n + 1)
    ensures forall k, m: nat :: k != key && KeyOnSchedule(cfg, s, k, start, m) ==> KeyOnSchedule(cfg, s', k, start, m)
  {
    hide FailureTime;
  }

  lemma GateOpens(cfg: Settings, s: Persisted, key: string, start: int, n: nat)
    requires Armed(cfg) && start > 0 && KeyOnSchedule(cfg, s, key, start, n)
    ensures Decide(cfg.cooldown, s, key, FailureTime(cfg, start, n + 1)).Pass?
  {
  }

  /** Failures on two keys in turn; on one key, if they are the same. */
  function Turn(one: string, two: string, i: nat): string {
    if i % 2 == 1 then one else two
  }

  /** Which failure of its key the i-th failure is. */
  function Round(one: string, two: string, i: nat): nat {
    if one == two then i else (i + 1) / 2
  }

  function Schedule(cfg: Settings, one: string, two: string, start: int, n: nat): seq<Attempt> {
    if n == 0 then [] else
      Schedule(cfg, one, two, start, n - 1) + [Failing(Turn(one, two, n), FailureTime(cfg, start, Round(one, two, n)))]
  }

  predicate Unused(s: Persisted, key: string) {
    Get(s.fails, key) == 0 && Get(s.lastIntentMS, key) == 0 && Get(s.cooldownUntilMS, key) == 0
  }

  /** How many of the first n failures are of the second key. */
  function SecondRounds(one: string, two: string, n: nat): nat {
    if one == two then n else n / 2
  }

  /** The n-th failure adds one to the count of its own key, and nothing to the other one. */
  lemma RoundsGrow(one: string, two: string, n: nat)
    requires n > 0
    ensures Turn(one, two, n) in {one, two} && Round(one, two, n) > 0
    ensures Turn(one, two, n) == one ==> Round(one, two, n - 1) == Round(one, two, n) - 1
    ensures Turn(one, two, n) != one ==> Round(one, two, n - 1) == Round(one, two, n)
    ensures Turn(one, two, n) == two ==>
            SecondRounds(one, two, n - 1) == Round(one, two, n) - 1 == SecondRounds(one, two, n) - 1
    ensures Turn(one, two, n) != two ==> SecondRounds(one, two, n - 1) == SecondRounds(one, two, n)
  {
  }

  /** Both keys and the breaker, after n failures. */
  predicate BothOnSchedule(cfg: Settings, sys: System, now: System, one: string, two: string, start: int, n: nat) {
    && After(sys, now, n)
    && KeyOnSchedule(cfg, now.world.state, one, start, Round(one, two, n))
    && KeyOnSchedule(cfg, now.world.state, two, start, SecondRounds(one, two, n))
  }

  lemma {:induction false} ScheduleRuns(cfg: Settings, sys: System, one: string, two: string, start: int, n: nat)
    requires Failable(cfg, sys) && start > 0 && n <= sys.breaker.maxFails
    requires Unused(sys.world.state, one) && Unused(sys.world.state, two)
    ensures BothOnSchedule(cfg, sys, Pipeline.Run(cfg, sys, Schedule(cfg, one, two, start, n)), one, two, start, n)
  {
    hide *;
    if n == 0 {
      ScheduleStart(cfg, sys, one, two, start);
    } else {
      ScheduleRuns(cfg, sys, one, two, start, n - 1);
      ScheduleStep(cfg, sys, one, two, start, n);
    }
  }

  lemma ScheduleStart(cfg: Settings, sys: System, one: string, two: string, start: int)
    requires Failable(cfg, sys) && sys.breaker.maxFails >= 0
    requires Unused(sys.world.state, one) && Unused(sys.world.state, two)
    ensures BothOnSchedule(cfg, sys, Pipeline.Run(cfg, sys, Schedule(cfg, one, two, start, 0)), one, two, start, 0)
  {
    hide Execute, KeyOnSchedule, InSync, Unused, FailureTime;
    NothingYet(cfg, sys.world.state, one, start);
    NothingYet(cfg, sys.world.state, two, start);
    assert Pipeline.Run(cfg, sys, Schedule(cfg, one, two, start, 0)) == sys;
  }

  lemma ScheduleStep(cfg: Settings, sys: System, one: string, two: string, start: int, n: nat)
    requires Failable(cfg, sys) && start > 0 && 0 < n <= sys.breaker.maxFails
    requires BothOnSchedule(cfg, sys, Pipeline.Run(cfg, sys, Schedule(cfg, one, two, start, n - 1)), one, two, start,
                            n - 1)
    ensures BothOnSchedule(cfg, sys, Pipeline.Run(cfg, sys, Schedule(cfg, one, two, start, n)), one, two, start, n)
  {
    hide Execute, Failing, KeyOnSchedule, After, Failable, FailureTime, Pipeline.Run, Turn, Round, SecondRounds;
    var before := Schedule(cfg, one, two, start, n - 1);
    var key, m := Turn(one, two, n), Round(one, two, n);
    assert Schedule(cfg, one, two, start, n) == before + [Failing(key, FailureTime(cfg, start, m))];
    hide Schedule;
    RoundsGrow(one, two, n);
    OneMoreFailure(cfg, sys, Pipeline.Run(cfg, sys, before), key, start, m - 1, n - 1);
    RunOneMore(cfg, sys, before, Failing(key, FailureTime(cfg, start, m)));
  }

  lemma NothingYet(cfg: Settings, s: Persisted, key: string, start: int)
    ensures Unused(s, key) ==>
              KeyOnSchedule(cfg, s, key, start, 0)
  {
  }

  lemma {:induction false} ScheduleShape(cfg: Settings, one: string, two: string, start: int, n: nat)
    requires Armed(cfg) && start > 0
    ensures var attempts := Schedule(cfg, one, two, start, n);
            && |attempts| == n && Timely(attempts) && (one == two ==> OneKey(attempts, one))
            && (n > 0 ==> attempts[n - 1] == Failing(Turn(one, two, n), FailureTime(cfg, start, Round(one, two, n))))
  {
    if n > 0 {
      ScheduleShape(cfg, one, two, start, n - 1);
      var t := FailureTime(cfg, start, Round(one, two, n));
      FailureTimesRise(cfg, start, 0, Round(one, two, n));
      FailureTimesRise(cfg, start, Round(one, two, n - 1), Round(one, two, n));
      hide FailureTime;
      TimelyMore(Schedule(cfg, one, two, start, n - 1), Turn(one, two, n), t);
    }
  }

  lemma TimelyMore(attempts: seq<Attempt>, key: string, t: int)
    requires Timely(attempts) && t > 0 && (attempts != [] ==> attempts[|attempts| - 1].recordMS <= t)
    ensures Timely(attempts + [Failing(key, t)])
  {
  }

  /**
   The bound cannot be improved: from every start with an unused key there is a run of failures of that key that
   freezes the breaker exactly as soon as SlowToFreeze allows, counted from the first failure and from the one that
   reached the threshold. Approval and record of each of them fall into the same millisecond.
   */
  lemma BoundIsAttained(cfg: Settings, sys: System, key: string, start: int)
    requires Begins(cfg, sys, key) && Failable(cfg, sys) && Unused(sys.world.state, key) && start > 0
    ensures var n, th := sys.breaker.maxFails, cfg.cooldown.failureThreshold;
            var attempts := Schedule(cfg, key, key, start, n);
            var last := FailureTime(cfg, start, n);
            && OneKey(attempts, key) && Timely(attempts)
            && Pipeline.Run(cfg, sys, attempts).breaker.mode == RiskManager.Frozen
            && |attempts| == n && attempts[n - 1] == Failing(key, last)
            && last - start == (th - 1) * cfg.cooldown.minIntervalMS + (n - th) * Wait(cfg)
            && last - FailureTime(cfg, start, th) == (n - th) * Wait(cfg)
  {
    hide Execute, Pipeline.Run, Schedule, Timely, OneKey;
    var n, th := sys.breaker.maxFails, cfg.cooldown.failureThreshold;
    ScheduleRuns(cfg, sys, key, key, start, n);
    ScheduleShape(cfg, key, key, start, n);
    FailureTimes(cfg, start, n);
    FailureTimes(cfg, start, th);
  }

  /**
   With two keys the bound fails, for every limit above the threshold and any two unused keys: taking turns they
   freeze the breaker in half the rounds, sooner than one key can.
   */
  lemma TwoKeysFreezeSooner(cfg: Settings, sys: System, one: string, two: string, start: int)
    requires Begins(cfg, sys, one) && Failable(cfg, sys) && start > 0
    requires sys.breaker.maxFails > cfg.cooldown.failureThreshold
    requires one != two && Unused(sys.world.state, one) && Unused(sys.world.state, two)
    ensures var n, th := sys.breaker.maxFails, cfg.cooldown.failureThreshold;
            var attempts := Schedule(cfg, one, two, start, n);
            var last := FailureTime(cfg, start, (n + 1) / 2);
            && Timely(attempts) && Pipeline.Run(cfg, sys, attempts).breaker.mode == RiskManager.Frozen
            && |attempts| == n && attempts[n - 1] == Failing(Turn(one, two, n), last)
            && last - start < (th - 1) * cfg.cooldown.minIntervalMS + (n - th) * Wait(cfg)
  {
    hide Execute, Pipeline.Run, Schedule, Timely;
    var n := sys.breaker.maxFails;
    ScheduleRuns(cfg, sys, one, two, start, n);
    ScheduleShape(cfg, one, two, start, n);
    FailureTimes(cfg, start, n);
    FailureTimesRise(cfg, start, (n + 1) / 2, n);
  }

  /**
   From an empty store, with a threshold of 3 and a limit of 4, two failures of each of two keys freeze the breaker in
   the very millisecond in which the third failure is counted.
   */
  lemma TwoKeysFreezeAtOnce(cfg: Settings, t: int)
    requires Armed(cfg) && cfg.cooldown.failureThreshold == 3 && t > 0
    ensures var b := RiskManager.Breaker(RiskManager.Normal, 0.0, 1.0, 0, 4, 0.0, 0.5, ZERO_TIME);
            var later := t + cfg.cooldown.minIntervalMS;
            Pipeline.Run(cfg, System(b, World(EMPTY, None, None)),
                [Failing("a", t), Failing("b", t), Failing("a", later), Failing("b", later)]).breaker.mode ==
                    RiskManager.Frozen
  {
    var b := RiskManager.Breaker(RiskManager.Normal, 0.0, 1.0, 0, 4, 0.0, 0.5, ZERO_TIME);
    var sys := System(b, World(EMPTY, None, None));
    FourTurns(cfg, t);
    hide Execute, Pipeline.Run, Schedule, Timely, FailureTime;
    TwoKeysFreezeSooner(cfg, sys, "a", "b", t);
  }

  lemma FourTurns(cfg: Settings, t: int)
    requires cfg.cooldown.failureThreshold == 3
    ensures var later := t + cfg.cooldown.minIntervalMS;
            Schedule(cfg, "a", "b", t, 4) == [Failing("a", t), Failing("b", t), Failing("a", later),
                                              Failing("b", later)]
  {
    hide Failing;
    assert "a"[0] != "b"[0];
    var later := t + cfg.cooldown.minIntervalMS;
    assert FailureTime(cfg, t, 1) == t && FailureTime(cfg, t, 2) == later;
    hide FailureTime;
    assert Schedule(cfg, "a", "b", t, 0) == [];
    assert Schedule(cfg, "a", "b", t, 1) == [Failing("a", t)];
    assert Schedule(cfg, "a", "b", t, 2) == [Failing("a", t), Failing("b", t)];
    assert Schedule(cfg, "a", "b", t, 3) == [Failing("a", t), Failing("b", t), Failing("a", later)];
  }
}
