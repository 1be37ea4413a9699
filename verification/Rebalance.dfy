/**
 The V3 rebalance strategy: when a tick asks for a new range, and how often it may
 (internal/strategy/v3_rebalance.go).
 */
module Rebalance {
  import opened Basics
  import opened Ticks

  datatype Config = Config(widthTicks: int, edgeBufferTicks: int, cooldownMs: int, minTickMove: int,
                           tickSpacing: int, assumed: Option<(int, int)>)

  datatype Input = Input(poolTick: int, currentLower: int, currentUpper: int)

  datatype Verdict =
    | NoPosition | InvalidRange | InRange | Cooldown(leftSec: int) | BelowMinMove
    | OutOfRange | NearEdge | CenterShift

  datatype Result = Result(verdict: Verdict, curLower: int, curUpper: int, newLower: int, newUpper: int, newCenter: int)

  /** The verdicts that come with an intent; all others are reasons to do nothing. */
  predicate Asks(v: Verdict) {
    v.OutOfRange? || v.NearEdge? || v.CenterShift?
  }

  /** The position range that an evaluation compares the tick with. */
  function PositionRange(cfg: Config, input: Input): Option<(int, int)> {
    if input.currentLower == 0 && input.currentUpper == 0 then cfg.assumed
    else Some((input.currentLower, input.currentUpper))
  }

  /** Why the tick is not content with the range, if it is not. */
  function Discontent(cfg: Config, lower: int, upper: int, tick: int): Option<Verdict> {
    if !(lower <= tick <= upper) then Some(OutOfRange)
    else if !(lower + cfg.edgeBufferTicks < tick < upper - cfg.edgeBufferTicks) then Some(NearEdge)
    else if Abs(tick - Quo(lower + upper, 2)) >= cfg.minTickMove then Some(CenterShift)
    else None
  }

  /** The verdict of one evaluation, given when the last intent was emitted. */
  function Judge(cfg: Config, lastIntentAt: int, now: int, input: Input): Verdict {
    var range := PositionRange(cfg, input);
    if range.None? then NoPosition
    else
      var (lower, upper) := range.value;
      var why := Discontent(cfg, lower, upper, input.poolTick);
      var center := CenteredRange(input.poolTick, cfg.widthTicks, cfg.tickSpacing).2;
      if upper <= lower then InvalidRange
      else if why.None? then InRange
      else if cfg.cooldownMs > 0 && lastIntentAt != ZERO_TIME && now - lastIntentAt < cfg.cooldownMs then
        Cooldown((cfg.cooldownMs - (now - lastIntentAt)) / 1000)
      else if why.value.CenterShift? && Abs(center - Quo(lower + upper, 2)) < cfg.minTickMove then BelowMinMove
      else why.value
  }

  function Emits(cfg: Config, lastIntentAt: int, now: int, input: Input): bool {
    Asks(Judge(cfg, lastIntentAt, now, input))
  }

  class V3RebalanceStrategy {
    var lastIntentAt: int
    var lastCenterTick: int

    constructor ()
      ensures lastIntentAt == ZERO_TIME && lastCenterTick == 0
    {
      lastIntentAt, lastCenterTick := ZERO_TIME, 0;
    }

    method EvaluateAt(cfg: Config, now: int, input: Input) returns (res: Result)
      modifies this
      ensures res.verdict == Judge(cfg, old(lastIntentAt), now, input)
      ensures Asks(res.verdict) ==> lastIntentAt == now && lastCenterTick == res.newCenter
      ensures !Asks(res.verdict) ==> unchanged(this)
      ensures (res.newLower, res.newUpper, res.newCenter) ==
              if res.verdict.InvalidRange? then (0, 0, 0)
              else CenteredRange(input.poolTick, cfg.widthTicks, cfg.tickSpacing)
      ensures PositionRange(cfg, input) == if res.verdict.NoPosition? then None else Some((res.curLower, res.curUpper))
      ensures res.verdict.NoPosition? ==> res.curLower == res.curUpper == 0
    {
      hide CenteredRange, Quo;
      var tick := input.poolTick;
      var curLower, curUpper := input.currentLower, input.currentUpper;
      var (targetLower, targetUpper, targetCenter) := CenteredRange(tick, cfg.widthTicks, cfg.tickSpacing);
      if curLower == 0 && curUpper == 0 {
        match cfg.assumed {
          case Some(range) => curLower, curUpper := range.0, range.1;
          case None => return Result(NoPosition, 0, 0, targetLower, targetUpper, targetCenter);
        }
      }
      if curUpper <= curLower {
        return Result(InvalidRange, curLower, curUpper, 0, 0, 0);
      }
      var curCenter := Quo(curLower + curUpper, 2);
      var reason;
      if tick < curLower || tick > curUpper {
        reason := OutOfRange;
      } else if tick <= curLower + cfg.edgeBufferTicks || tick >= curUpper - cfg.edgeBufferTicks {
        reason := NearEdge;
      } else if Abs(tick - curCenter) >= cfg.minTickMove {
        reason := CenterShift;
      } else {
        return Result(InRange, curLower, curUpper, targetLower, targetUpper, targetCenter);
      }
      if cfg.cooldownMs > 0 && lastIntentAt != ZERO_TIME {
        var since := now - lastIntentAt;
        if since < cfg.cooldownMs {
          return Result(Cooldown((cfg.cooldownMs - since) / 1000), curLower, curUpper, targetLower, targetUpper,
                        targetCenter);
        }
      }
      if Abs(targetCenter - curCenter) < cfg.minTickMove && reason != OutOfRange && reason != NearEdge {
        return Result(BelowMinMove, curLower, curUpper, targetLower, targetUpper, targetCenter);
      }
      lastIntentAt, lastCenterTick := now, targetCenter;
      return Result(reason, curLower, curUpper, targetLower, targetUpper, targetCenter);
    }
  }

  // ---------------------------------------------------------------- when an intent is emitted

  /** The distance between two ticks. */
  function Distance(x: int, y: int): int {
    if x >= y then x - y else y - x
  }

  /** The cooldown after the last intent is still running. */
  predicate Resting(cfg: Config, lastIntentAt: int, now: int) {
    cfg.cooldownMs > 0 && lastIntentAt != ZERO_TIME && now < lastIntentAt + cfg.cooldownMs
  }

  /**
   Every verdict in terms of the tick, the range and the clock. In particular a shift of the centre is asked for only if
   it moves the centre by at least the minimum, and refused as negligible exactly if the tick is off the centre by that
   much while the new centre is not.
   */
  lemma VerdictsExactly(cfg: Config, lastIntentAt: int, now: int, tick: int, lower: int, upper: int)
    requires lower < upper
    ensures var input := Input(tick, lower, upper);
            var v := Judge(cfg, lastIntentAt, now, input);
            var center, target := Quo(lower + upper, 2), CenteredRange(tick, cfg.widthTicks, cfg.tickSpacing).2;
            var outside := tick < lower || tick > upper;
            var near := !outside && (tick <= lower + cfg.edgeBufferTicks || tick >= upper - cfg.edgeBufferTicks);
            var off := !outside && !near && Distance(tick, center) >= cfg.minTickMove;
            var resting, moves := Resting(cfg, lastIntentAt, now), Distance(target, center) >= cfg.minTickMove;
            && (v.InRange? <==> !outside && !near && !off)
            && (v.Cooldown? <==> (outside || near || off) && resting)
            && (v.OutOfRange? <==> outside && !resting)
            && (v.NearEdge? <==> near && !resting)
            && (v.CenterShift? <==> off && !resting && moves)
            && (v.BelowMinMove? <==> off && !resting && !moves)
            && (v.Cooldown? ==> v.leftSec * 1000 <= lastIntentAt + cfg.cooldownMs - now < (v.leftSec + 1) * 1000)
  {
    hide CenteredRange, Quo;
  }

  /** A position is unknown exactly at (0, 0), and then the assumed range, if there is one, takes its place. */
  lemma UnknownPosition(cfg: Config, lastIntentAt: int, now: int, tick: int, lower: int, upper: int)
    ensures var v := Judge(cfg, lastIntentAt, now, Input(tick, lower, upper));
            && (v.NoPosition? <==> lower == 0 && upper == 0 && cfg.assumed.None?)
            && ((lower != 0 || upper != 0) ==> (v.InvalidRange? <==> upper <= lower))
            && (lower == upper == 0 && cfg.assumed.Some? ==>
                  var (l, u) := cfg.assumed.value;
                  (v.InvalidRange? <==> u <= l) && (l < u ==> v == Judge(cfg, lastIntentAt, now, Input(tick, l, u))))
  {
    hide CenteredRange, Quo;
  }

  // ---------------------------------------------------------------- quiescence

  /** The input once the range computed for the tick has been adopted. */
  function Adopted(cfg: Config, tick: int): Input {
    var (lower, upper, _) := CenteredRange(tick, cfg.widthTicks, cfg.tickSpacing);
    Input(tick, lower, upper)
  }

  predicate WideEnough(cfg: Config) {
    var w := AlignedWidth(cfg.widthTicks, cfg.tickSpacing);
    && cfg.minTickMove > 0
    && cfg.edgeBufferTicks < w / 2
    && w / 2 + cfg.tickSpacing + cfg.edgeBufferTicks <= w
  }

  lemma AdoptedIsContent(cfg: Config, lastIntentAt: int, now: int, tick: int)
    requires cfg.tickSpacing > 0 && cfg.edgeBufferTicks >= 0 && WideEnough(cfg)
    ensures !Emits(cfg, lastIntentAt, now, Adopted(cfg, tick))
  {
    CenteredRangeShape(tick, cfg.widthTicks, cfg.tickSpacing);
  }

  /**
   After the strategy's own range has been adopted, the same tick never asks for another one, whatever the
   time and the previous intent: for all ticks together this holds exactly when the range is wide enough
   for its buffer and the spacing.
   */
  lemma QuiescentExactlyWhenWideEnough(cfg: Config)
    requires cfg.tickSpacing > 0 && cfg.edgeBufferTicks >= 0
    ensures (forall tick, lastIntentAt, now :: !Emits(cfg, lastIntentAt, now, Adopted(cfg, tick))) <==> WideEnough(cfg)
  {
    if WideEnough(cfg) {
      forall tick, lastIntentAt, now ensures !Emits(cfg, lastIntentAt, now, Adopted(cfg, tick)) {
        AdoptedIsContent(cfg, lastIntentAt, now, tick);
      }
    } else {
      var w, s := AlignedWidth(cfg.widthTicks, cfg.tickSpacing), cfg.tickSpacing;
      WorstTick(cfg.widthTicks, s);
      var tick := if cfg.edgeBufferTicks >= w / 2 then w / 2 else w / 2 + s - 1;
      CenteredRangeShape(tick, cfg.widthTicks, s);
      assert Emits(cfg, ZERO_TIME, 0, Adopted(cfg, tick));
    }
  }

  // ---------------------------------------------------------------- cooldown over runs

  datatype Call = Call(cfg: Config, now: int, input: Input)

  function LastIntentAt(initial: int, calls: seq<Call>): int {
    if calls == [] then initial else
      var before, c := LastIntentAt(initial, calls[..|calls| - 1]), calls[|calls| - 1];
      if Emits(c.cfg, before, c.now, c.input) then c.now else before
  }

  /** When the run emitted an intent, oldest first. */
  function EmissionTimes(initial: int, calls: seq<Call>): seq<int> {
    if calls == [] then [] else
      var before, c := calls[..|calls| - 1], calls[|calls| - 1];
      EmissionTimes(initial, before) +
      if Emits(c.cfg, LastIntentAt(initial, before), c.now, c.input) then [c.now] else []
  }

  /**
   Intents of one strategy are at least one cooldown apart, for any ticks, any ranges, any other parameters
   that change between calls, and any clock, even one that runs backwards.
   */
  lemma {:induction false} IntentsAreSpaced(initial: int, calls: seq<Call>, cooldownMs: int)
    requires cooldownMs > 0
    requires forall c :: c in calls ==> c.cfg.cooldownMs >= cooldownMs && c.now != ZERO_TIME
    ensures var times := EmissionTimes(initial, calls);
            && Spaced(times, cooldownMs)
            && ZERO_TIME !in times
            && LastIntentAt(initial, calls) == if times == [] then initial else times[|times| - 1]
  {
    if calls != [] {
      var before, c := calls[..|calls| - 1], calls[|calls| - 1];
      IntentsAreSpaced(initial, before, cooldownMs);
      assert c in calls;
    }
  }
}
