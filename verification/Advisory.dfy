/**
 The hysteresis of the risk advisory: three counters of consecutive suggestions decide
 when the stable mode follows the instantaneous one (internal/advisory/state.go).
 */
module Advisory {
  import opened Basics

  /** A mode string. Anything that is not one of the three suggestions is `Other`. */
  datatype Mode = Halt | Safe | NoChange | Other(text: string)

  const SUGGESTIONS: seq<Mode> := [Halt, Safe, NoChange]

  datatype Config = Config(haltUpN: int, haltDownM: int, safeUpN: int, safeDownM: int)

  datatype Snapshot = Snapshot(updatedAtMs: int, mode: Mode, sinceMs: int, counts: map<Mode, int>)

  datatype Input = Input(mode: Mode, nowMs: int)

  /** What the printed reason reports. */
  datatype Reason = Reason(instantaneous: Mode, current: Mode, cfg: Config,
                           haltCount: int, safeCount: int, noChangeCount: int,
                           switchedFrom: Option<Mode>)

  /** How long a run of `target` must be to move the stable mode there from `from`, if it can. */
  function Threshold(cfg: Config, from: Mode, target: Mode): Option<int> {
    match target
    case Halt => if from == Halt then None else Some(cfg.haltUpN)
    case Safe => if from == Halt then Some(cfg.haltDownM) else if from == Safe then None else Some(cfg.safeUpN)
    case NoChange => if from == Halt then Some(cfg.haltDownM) else if from == Safe then Some(cfg.safeDownM) else None
    case Other(_) => None
  }

  /** The counter of one mode after the suggestion m. */
  function Recount(counts: map<Mode, int>, m: Mode, counter: Mode): int {
    if m == counter then Get(counts, counter) + 1 else 0
  }

  function Counted(counts: map<Mode, int>, m: Mode): map<Mode, int> {
    counts[Halt := Recount(counts, m, Halt)][Safe := Recount(counts, m, Safe)][NoChange := Recount(counts, m, NoChange)]
  }

  predicate Switches(cfg: Config, s: Snapshot, m: Mode) {
    var t := Threshold(cfg, s.mode, m);
    t.Some? && Get(s.counts, m) + 1 >= t.value
  }

  /** One update, as a function of the state before it. */
  function Step(cfg: Config, s: Snapshot, input: Input): Snapshot {
    var sw := Switches(cfg, s, input.mode);
    Snapshot(input.nowMs,
             if sw then input.mode else s.mode,
             if sw then input.nowMs else s.sinceMs,
             Counted(s.counts, input.mode))
  }

  class AdvisoryStateManager {
    var state: Snapshot

    constructor (initial: Snapshot)
      ensures state == initial
    {
      state := initial;
    }

    /** The counters after a suggestion: its own goes up, the others start again. */
    method CountSuggestion(instantaneousMode: Mode) returns (counts: map<Mode, int>)
      ensures counts == Counted(state.counts, instantaneousMode)
    {
      counts := state.counts;
      for i := 0 to |SUGGESTIONS|
        invariant forall m :: m in SUGGESTIONS[..i] ==>
                  m in counts && counts[m] == Recount(state.counts, instantaneousMode, m)
        invariant forall m :: m !in SUGGESTIONS[..i] ==> (m in counts <==> m in state.counts)
        invariant forall m :: m in counts && m !in SUGGESTIONS[..i] ==> counts[m] == state.counts[m]
      {
        var mode := SUGGESTIONS[i];
        assert SUGGESTIONS[..i + 1] == SUGGESTIONS[..i] + [mode];
        if mode == instantaneousMode {
          counts := counts[mode := Get(counts, mode) + 1];
        } else {
          counts := counts[mode := 0];
        }
      }
      assert SUGGESTIONS[..3] == [Halt, Safe, NoChange];
    }

    method UpdateState(instantaneousMode: Mode, cfg: Config, nowMs: int) returns (outputMode: Mode, reason: Reason)
      modifies this
      ensures state == Step(cfg, old(state), Input(instantaneousMode, nowMs))
      ensures outputMode == state.mode
      ensures reason == Reason(instantaneousMode, state.mode, cfg,
                               state.counts[Halt], state.counts[Safe], state.counts[NoChange],
                               if state.mode == old(state.mode) then None else Some(old(state.mode)))
    {
      var counts := CountSuggestion(instantaneousMode);
      var currentMode := state.mode;
      var haltCount, safeCount, noChangeCount := counts[Halt], counts[Safe], counts[NoChange];
      var oldMode, sinceMs, switched := currentMode, state.sinceMs, false;
      match instantaneousMode {
        case Halt =>
          if currentMode != Halt && haltCount >= cfg.haltUpN {
            currentMode, sinceMs, switched := Halt, nowMs, true;
          }
        case Safe =>
          if currentMode == Halt {
            if safeCount + noChangeCount >= cfg.haltDownM {
              currentMode, sinceMs, switched := Safe, nowMs, true;
            }
          } else if currentMode != Safe && safeCount >= cfg.safeUpN {
            currentMode, sinceMs, switched := Safe, nowMs, true;
          }
        case NoChange =>
          if currentMode == Halt {
            if safeCount + noChangeCount >= cfg.haltDownM {
              currentMode, sinceMs, switched := NoChange, nowMs, true;
            }
          } else if currentMode == Safe && noChangeCount >= cfg.safeDownM {
            currentMode, sinceMs, switched := NoChange, nowMs, true;
          }
        case Other(_) =>
      }
      state := Snapshot(nowMs, currentMode, sinceMs, counts);
      outputMode := currentMode;
      reason := Reason(instantaneousMode, currentMode, cfg, haltCount, safeCount, noChangeCount,
                       if switched then Some(oldMode) else None);
    }
  }

  // ---------------------------------------------------------------- whole runs

  function Run(cfg: Config, s: Snapshot, h: seq<Input>): Snapshot {
    if h == [] then s else Step(cfg, Run(cfg, s, h[..|h| - 1]), h[|h| - 1])
  }

  /** How many of the last inputs are `m`, without a gap. */
  function TrailingRun(h: seq<Input>, m: Mode): nat {
    if h == [] || h[|h| - 1].mode != m then 0 else TrailingRun(h[..|h| - 1], m) + 1
  }

  /** How many of the last inputs are known suggestions other than HALT. */
  function TrailingNonHalt(h: seq<Input>): nat {
    if h == [] || h[|h| - 1].mode !in {Safe, NoChange} then 0 else TrailingNonHalt(h[..|h| - 1]) + 1
  }

  function SwitchCount(cfg: Config, s: Snapshot, h: seq<Input>): nat {
    if h == [] then 0 else
      var before := h[..|h| - 1];
      SwitchCount(cfg, s, before) + if Run(cfg, s, before).mode != Run(cfg, s, h).mode then 1 else 0
  }

  predicate ZeroCounters(s: Snapshot) {
    forall m :: m in SUGGESTIONS ==> Get(s.counts, m) == 0
  }

  /** Each counter is the length of the trailing run of its mode, so at most one is positive. */
  lemma {:induction false} CountersAreTrailingRuns(cfg: Config, s: Snapshot, h: seq<Input>)
    requires ZeroCounters(s)
    ensures forall m :: m in SUGGESTIONS ==> Get(Run(cfg, s, h).counts, m) == TrailingRun(h, m)
    ensures forall m, n :: m in SUGGESTIONS && n in SUGGESTIONS && m != n ==>
                             TrailingRun(h, m) == 0 || TrailingRun(h, n) == 0
  {
    if h != [] {
      CountersAreTrailingRuns(cfg, s, h[..|h| - 1]);
    }
  }

  /** The stable mode becomes HALT exactly when haltUpN trailing inputs are HALT. */
  lemma EntersHaltExactly(cfg: Config, s: Snapshot, h: seq<Input>, x: Input)
    requires ZeroCounters(s) && Run(cfg, s, h).mode != Halt
    ensures Run(cfg, s, h + [x]).mode == Halt <==> x.mode == Halt && TrailingRun(h + [x], Halt) >= cfg.haltUpN
  {
    assert (h + [x])[..|h|] == h;
    CountersAreTrailingRuns(cfg, s, h);
  }

  /** The stable mode leaves HALT exactly when one single non-HALT suggestion fills the last haltDownM inputs. */
  lemma LeavesHaltExactly(cfg: Config, s: Snapshot, h: seq<Input>, x: Input)
    requires ZeroCounters(s) && Run(cfg, s, h).mode == Halt
    ensures Run(cfg, s, h + [x]).mode != Halt <==>
            x.mode in {Safe, NoChange} && TrailingRun(h + [x], x.mode) >= cfg.haltDownM
    ensures Run(cfg, s, h + [x]).mode in {Halt, x.mode}
  {
    assert (h + [x])[..|h|] == h;
    CountersAreTrailingRuns(cfg, s, h);
  }

  /**
   SAFE is left exactly for HALT after haltUpN trailing HALTs, or for NO_CHANGE after safeDownM trailing NO_CHANGEs.
   */
  lemma LeavesSafeExactly(cfg: Config, s: Snapshot, h: seq<Input>, x: Input)
    requires ZeroCounters(s) && Run(cfg, s, h).mode == Safe
    ensures Run(cfg, s, h + [x]).mode != Safe <==>
            || (x.mode == Halt && TrailingRun(h + [x], Halt) >= cfg.haltUpN)
            || (x.mode == NoChange && TrailingRun(h + [x], NoChange) >= cfg.safeDownM)
    ensures Run(cfg, s, h + [x]).mode in {Safe, x.mode}
  {
    assert (h + [x])[..|h|] == h;
    CountersAreTrailingRuns(cfg, s, h);
  }

  /**
   NO_CHANGE, the mode of a new manager, is left exactly for HALT after haltUpN trailing HALTs, or for SAFE after
   safeUpN trailing SAFEs.
   */
  lemma LeavesNoChangeExactly(cfg: Config, s: Snapshot, h: seq<Input>, x: Input)
    requires ZeroCounters(s) && Run(cfg, s, h).mode == NoChange
    ensures Run(cfg, s, h + [x]).mode != NoChange <==>
            || (x.mode == Halt && TrailingRun(h + [x], Halt) >= cfg.haltUpN)
            || (x.mode == Safe && TrailingRun(h + [x], Safe) >= cfg.safeUpN)
    ensures Run(cfg, s, h + [x]).mode in {NoChange, x.mode}
  {
    assert (h + [x])[..|h|] == h;
    CountersAreTrailingRuns(cfg, s, h);
  }

  /** A mode that the machine does not know is left in the same two ways, and so never for NO_CHANGE. */
  lemma LeavesUnknownExactly(cfg: Config, s: Snapshot, h: seq<Input>, x: Input)
    requires ZeroCounters(s) && Run(cfg, s, h).mode.Other?
    ensures var before, after := Run(cfg, s, h).mode, Run(cfg, s, h + [x]).mode;
            && (after != before <==>
                  || (x.mode == Halt && TrailingRun(h + [x], Halt) >= cfg.haltUpN)
                  || (x.mode == Safe && TrailingRun(h + [x], Safe) >= cfg.safeUpN))
            && after in {before, x.mode}
  {
    assert (h + [x])[..|h|] == h;
    CountersAreTrailingRuns(cfg, s, h);
  }

  /** The recorded time of the mode is the time of the last switch, and the update time that of the last input. */
  lemma SinceLastSwitch(cfg: Config, s: Snapshot, h: seq<Input>, x: Input)
    ensures var before, after := Run(cfg, s, h), Run(cfg, s, h + [x]);
            && after.sinceMs == (if after.mode == before.mode then before.sinceMs else x.nowMs)
            && after.updatedAtMs == x.nowMs
  {
    assert (h + [x])[..|h|] == h;
  }

  /** n inputs that alternate between two modes. */
  function Alternating(a: Mode, b: Mode, n: nat): seq<Input> {
    if n == 0 then [] else Alternating(a, b, n - 1) + [Input(if n % 2 == 1 then a else b, n)]
  }

  /** A run of `target` of this length does not move the mode away from `from`. */
  predicate Withstands(cfg: Config, from: Mode, target: Mode, run: nat) {
    var t := Threshold(cfg, from, target);
    t.None? || t.value > run
  }

  predicate Distinct(a: Mode, b: Mode, c: Mode) {
    a in SUGGESTIONS && b in SUGGESTIONS && c in SUGGESTIONS && a != b && b != c && a != c
  }

  /** One more input, from any history. */
  lemma OneMore(cfg: Config, s: Snapshot, h: seq<Input>, x: Input)
    requires ZeroCounters(s)
    ensures var before := Run(cfg, s, h).mode;
            Run(cfg, s, h + [x]).mode ==
            if x.mode in SUGGESTIONS && !Withstands(cfg, before, x.mode, TrailingRun(h, x.mode) + 1)
            then x.mode else before
    ensures forall m :: TrailingRun(h + [x], m) == if x.mode == m then TrailingRun(h, m) + 1 else 0
    ensures TrailingNonHalt(h + [x]) == if x.mode in {Safe, NoChange} then TrailingNonHalt(h) + 1 else 0
  {
    assert (h + [x])[..|h|] == h;
    CountersAreTrailingRuns(cfg, s, h);
  }

  /**
   From whatever history, alternating between the two other modes never makes a run longer than one, save for the
   run that the history left: the current mode stays if and only if its thresholds withstand that.
   */
  lemma {:induction false} AlternatingKeepsMode(cfg: Config, s: Snapshot, h: seq<Input>, a: Mode, b: Mode, c: Mode,
                                                n: nat)
    requires ZeroCounters(s) && Distinct(a, b, c) && Run(cfg, s, h).mode == c && n > 0
    ensures Run(cfg, s, h + Alternating(a, b, n)).mode == c <==>
            Withstands(cfg, c, a, TrailingRun(h, a) + 1) && (n >= 2 ==> Withstands(cfg, c, b, 1))
    ensures TrailingRun(h + Alternating(a, b, n), if n % 2 == 1 then b else a) == 0
    ensures Halt !in {a, b} ==> TrailingNonHalt(h + Alternating(a, b, n)) == TrailingNonHalt(h) + n
  {
    hide Run, TrailingRun, TrailingNonHalt, Threshold;
    var x := Input(if n % 2 == 1 then a else b, n);
    var before := h + Alternating(a, b, n - 1);
    assert h + Alternating(a, b, n) == before + [x];
    OneMore(cfg, s, before, x);
    if n == 1 {
      assert before == h;
    } else {
      AlternatingKeepsMode(cfg, s, h, a, b, c, n - 1);
    }
  }

  /**
   However HALT was entered, alternating SAFE and NO_CHANGE inputs, all of them non-HALT, leave it in HALT if and only
   if haltDownM is at least 2 (more, if the history ends with copies of the first of them): the counters reset each
   other, so the threshold is not on consecutive non-HALT inputs.
   */
  lemma AlternatingStaysInHalt(cfg: Config, s: Snapshot, h: seq<Input>, first: Mode, n: nat)
    requires ZeroCounters(s) && Run(cfg, s, h).mode == Halt && first in {Safe, NoChange} && n > 0
    ensures var stream := Alternating(first, if first == Safe then NoChange else Safe, n);
            && TrailingNonHalt(h + stream) == TrailingNonHalt(h) + n
            && (Run(cfg, s, h + stream).mode == Halt <==> cfg.haltDownM >= TrailingRun(h, first) + 2)
  {
    AlternatingKeepsMode(cfg, s, h, first, if first == Safe then NoChange else Safe, Halt, n);
  }

  /**
   Two or more alternating HALT and NO_CHANGE inputs, none of them SAFE, leave the mode SAFE if and only if both ways
   out take at least two inputs (more, for the way that the history has already begun).
   */
  lemma AlternatingStaysInSafe(cfg: Config, s: Snapshot, h: seq<Input>, first: Mode, n: nat)
    requires ZeroCounters(s) && Run(cfg, s, h).mode == Safe && first in {Halt, NoChange} && n >= 2
    ensures var stream := Alternating(first, if first == Halt then NoChange else Halt, n);
            Run(cfg, s, h + stream).mode == Safe <==>
            && cfg.haltUpN >= (if first == Halt then TrailingRun(h, Halt) + 2 else 2)
            && cfg.safeDownM >= (if first == NoChange then TrailingRun(h, NoChange) + 2 else 2)
  {
    AlternatingKeepsMode(cfg, s, h, first, if first == Halt then NoChange else Halt, Safe, n);
  }

  function Least(cfg: Config): int {
    Min(Min(cfg.haltUpN, cfg.haltDownM), Min(cfg.safeUpN, cfg.safeDownM))
  }

  /** A switch takes a trailing run at least as long as the smallest threshold. */
  lemma SwitchNeedsRun(cfg: Config, s: Snapshot, h: seq<Input>)
    requires ZeroCounters(s)
    requires h != []
    ensures Run(cfg, s, h).mode != Run(cfg, s, h[..|h| - 1]).mode ==>
              var x := h[|h| - 1].mode;
              Run(cfg, s, h).mode == x && x in SUGGESTIONS && TrailingRun(h, x) >= Least(cfg)
  {
    CountersAreTrailingRuns(cfg, s, h[..|h| - 1]);
  }

  /** `least` inputs for every switch of the run. */
  function Spent(cfg: Config, s: Snapshot, h: seq<Input>, least: int): int {
    if h == [] then 0 else
      var before := h[..|h| - 1];
      Spent(cfg, s, before, least) + if Run(cfg, s, before).mode != Run(cfg, s, h).mode then least else 0
  }

  lemma {:induction false} SpentIsProduct(cfg: Config, s: Snapshot, h: seq<Input>, least: int)
    ensures Spent(cfg, s, h, least) == SwitchCount(cfg, s, h) * least
  {
    if h != [] {
      SpentIsProduct(cfg, s, h[..|h| - 1], least);
    }
  }

  /**
   Inputs counted towards a mode that is not the current one have not been spent on a switch yet:
   no input pays for two switches.
   */
  lemma {:induction false} SwitchBudgetInvariant(cfg: Config, s: Snapshot, h: seq<Input>, least: int)
    requires ZeroCounters(s) && least == Least(cfg) > 0
    ensures Spent(cfg, s, h, least) <= |h|
    ensures forall m :: m in SUGGESTIONS && m != Run(cfg, s, h).mode ==>
                          Spent(cfg, s, h, least) + TrailingRun(h, m) <= |h|
  {
    if h != [] {
      var before, x := h[..|h| - 1], h[|h| - 1].mode;
      SwitchBudgetInvariant(cfg, s, before, least);
      SwitchNeedsRun(cfg, s, h);
      forall m | m in SUGGESTIONS && m != Run(cfg, s, h).mode
        ensures Spent(cfg, s, h, least) + TrailingRun(h, m) <= |h|
      {
        assert m != x ==> TrailingRun(h, m) == 0;
      }
    }
  }

  /** Every mode switch costs at least as many inputs as the smallest threshold, over any run. */
  lemma SwitchBudget(cfg: Config, s: Snapshot, h: seq<Input>)
    requires ZeroCounters(s)
    requires cfg.haltUpN > 0 && cfg.haltDownM > 0 && cfg.safeUpN > 0 && cfg.safeDownM > 0
    ensures SwitchCount(cfg, s, h) * Min(Min(cfg.haltUpN, cfg.haltDownM), Min(cfg.safeUpN, cfg.safeDownM)) <= |h|
  {
    SwitchBudgetInvariant(cfg, s, h, Least(cfg));
    SpentIsProduct(cfg, s, h, Least(cfg));
  }

  function Repeat(m: Mode, k: nat): seq<Input> {
    if k == 0 then [] else Repeat(m, k - 1) + [Input(m, k)]
  }

  /**
   The exact answer of the machine to k copies of one suggestion: it switches at the input at which the
   counter reaches the threshold of the mode it started in, and never moves again.
   */
  lemma {:induction false} SteadyInput(cfg: Config, s: Snapshot, m: Mode, k: nat)
    requires m in SUGGESTIONS && Get(s.counts, m) >= 0
    ensures |Repeat(m, k)| == k
    ensures Get(Run(cfg, s, Repeat(m, k)).counts, m) == Get(s.counts, m) + k
    ensures var t := Threshold(cfg, s.mode, m);
            Run(cfg, s, Repeat(m, k)).mode ==
            if k > 0 && t.Some? && Get(s.counts, m) + k >= t.value then m else s.mode
  {
    var h := Repeat(m, k);
    if k > 0 {
      SteadyInput(cfg, s, m, k - 1);
      assert h[..|h| - 1] == Repeat(m, k - 1);
    }
  }

  /**
   Feeding one suggestion for as many inputs as the largest threshold makes it current, except that
   NO_CHANGE cannot be reached from a mode string the machine does not know (a loaded file may hold one).
   */
  lemma SteadyInputWins(cfg: Config, s: Snapshot, m: Mode, k: nat)
    requires m in SUGGESTIONS && Get(s.counts, m) >= 0 && k > 0
    requires k >= cfg.haltUpN && k >= cfg.haltDownM && k >= cfg.safeUpN && k >= cfg.safeDownM
    ensures Run(cfg, s, Repeat(m, k)).mode == m <==> !(m == NoChange && s.mode.Other?)
  {
    SteadyInput(cfg, s, m, k);
  }
}
