/**
 The global circuit breaker (internal/risk/manager.go).
 */
module RiskManager {

  datatype Mode = Normal | Caution | Frozen

  datatype Breaker = Breaker(mode: Mode, gasUsed: real, maxGas: real, fails: int, maxFails: int,
                             drawdown: real, maxDrawdown: real, lastIntentAt: int)

  datatype Refusal = IsFrozen | GasExceeded | TooManyFailures | DrawdownExceeded

  datatype Command =
    | CanProceed
    | RecordGas(cost: real)
    | RecordFailure
    | RecordSuccess(now: int)
    | UpdateLimits(maxGas: real, maxFails: int, maxDrawdown: real)

  /** Whether a check lets an action through. */
  predicate Proceeds(b: Breaker) {
    b.mode != Frozen && b.gasUsed < b.maxGas && b.fails < b.maxFails && b.drawdown < b.maxDrawdown
  }

  /** Why a check refuses: the first cause, in the order of the checks. */
  function Cause(b: Breaker): Refusal {
    if b.mode == Frozen then IsFrozen
    else if b.gasUsed >= b.maxGas then GasExceeded
    else if b.fails >= b.maxFails then TooManyFailures
    else DrawdownExceeded
  }

  function Apply(b: Breaker, c: Command): Breaker {
    match c
    case CanProceed =>
      if Proceeds(b) || b.mode == Frozen then b
      else b.(mode := if b.gasUsed >= b.maxGas then Caution else Frozen)
    case RecordGas(cost) => b.(gasUsed := b.gasUsed + cost)
    case RecordFailure => b.(fails := b.fails + 1, mode := if b.fails + 1 >= b.maxFails then Frozen else b.mode)
    case RecordSuccess(now) => b.(fails := 0, lastIntentAt := now)
    case UpdateLimits(maxGas, maxFails, maxDrawdown) =>
      b.(maxGas := if maxGas > 0.0 then maxGas else b.maxGas,
         maxFails := if maxFails > 0 then maxFails else b.maxFails,
         maxDrawdown := if 0.0 < maxDrawdown < 1.0 then maxDrawdown else b.maxDrawdown)
  }

  /** The cause of a refusal, as the first limit that is reached; drawdown is what is left. */
  lemma CauseExactly(b: Breaker)
    requires !Proceeds(b)
    ensures var why := Cause(b);
            && (why == IsFrozen <==> b.mode == Frozen)
            && (why == GasExceeded <==> b.mode != Frozen && b.maxGas <= b.gasUsed)
            && (why == TooManyFailures <==> b.mode != Frozen && b.gasUsed < b.maxGas && b.maxFails <= b.fails)
            && (why == DrawdownExceeded ==> b.maxDrawdown <= b.drawdown)
    ensures Apply(b, CanProceed).mode == if Cause(b) == GasExceeded then Caution else Frozen
  {
  }

  /** A limit moves only to a usable value: positive gas, a positive count, a drawdown strictly between 0 and 1. */
  lemma LimitsExactly(b: Breaker, maxGas: real, maxFails: int, maxDrawdown: real)
    ensures var b' := Apply(b, UpdateLimits(maxGas, maxFails, maxDrawdown));
            && (maxGas > 0.0 ==> b'.maxGas == maxGas) && (maxGas <= 0.0 ==> b'.maxGas == b.maxGas)
            && (maxFails >= 1 ==> b'.maxFails == maxFails) && (maxFails < 1 ==> b'.maxFails == b.maxFails)
            && (0.0 < maxDrawdown && maxDrawdown < 1.0 ==> b'.maxDrawdown == maxDrawdown)
            && (maxDrawdown <= 0.0 || 1.0 <= maxDrawdown ==> b'.maxDrawdown == b.maxDrawdown)
            && b' == b.(maxGas := b'.maxGas, maxFails := b'.maxFails, maxDrawdown := b'.maxDrawdown)
  {
  }

  class Manager {
    var currentMode: Mode
    var dailyGasUsed: real
    var maxDailyGas: real
    var consecutiveFails: int
    var maxFails: int
    var drawdown: real
    var maxDrawdown: real
    var lastIntentAt: int

    constructor (maxGas: real, maxFails: int, maxDrawdown: real, zeroTime: int)
      ensures Current() == Breaker(Normal, 0.0, maxGas, 0, maxFails, 0.0, maxDrawdown, zeroTime)
    {
      currentMode := Normal;
      dailyGasUsed, maxDailyGas := 0.0, maxGas;
      consecutiveFails, this.maxFails := 0, maxFails;
      drawdown, this.maxDrawdown := 0.0, maxDrawdown;
      lastIntentAt := zeroTime;
    }

    function Current(): Breaker
      reads this
    {
      Breaker(currentMode, dailyGasUsed, maxDailyGas, consecutiveFails, maxFails, drawdown, maxDrawdown, lastIntentAt)
    }

    method Check() returns (ok: bool, why: Refusal)
      modifies `currentMode
      ensures ok == Proceeds(old(Current())) && Current() == Apply(old(Current()), CanProceed)
      ensures !ok ==> why == Cause(old(Current()))
      ensures !ok ==> (why == IsFrozen <==> old(currentMode) == Frozen)
      ensures !ok && why == GasExceeded ==> currentMode == Caution && dailyGasUsed >= maxDailyGas
      ensures !ok && why == TooManyFailures ==> currentMode == Frozen && consecutiveFails >= maxFails
      ensures !ok && why == DrawdownExceeded ==> currentMode == Frozen && drawdown >= maxDrawdown
    {
      ok, why := false, IsFrozen;
      if currentMode == Frozen {
        return;
      }
      if dailyGasUsed >= maxDailyGas {
        currentMode := Caution;
        why := GasExceeded;
        return;
      }
      if consecutiveFails >= maxFails {
        currentMode := Frozen;
        why := TooManyFailures;
        return;
      }
      if drawdown >= maxDrawdown {
        currentMode := Frozen;
        why := DrawdownExceeded;
        return;
      }
      ok := true;
    }

    method AddGas(cost: real)
      modifies `dailyGasUsed
      ensures Current() == Apply(old(Current()), RecordGas(cost)) && dailyGasUsed == old(dailyGasUsed) + cost
    {
      dailyGasUsed := dailyGasUsed + cost;
    }

    method NoteFailure()
      modifies `consecutiveFails, `currentMode
      ensures Current() == Apply(old(Current()), RecordFailure) && consecutiveFails == old(consecutiveFails) + 1
      ensures currentMode == if consecutiveFails >= maxFails then Frozen else old(currentMode)
    {
      consecutiveFails := consecutiveFails + 1;
      if consecutiveFails >= maxFails {
        currentMode := Frozen;
      }
    }

    method NoteSuccess(now: int)
      modifies `consecutiveFails, `lastIntentAt
      ensures Current() == Apply(old(Current()), RecordSuccess(now)) && consecutiveFails == 0 && lastIntentAt == now
    {
      consecutiveFails := 0;
      lastIntentAt := now;
    }

    method SetLimits(maxGas: real, maxFails: int, maxDrawdown: real)
      modifies `maxDailyGas, `maxFails, `maxDrawdown
      ensures Current() == Apply(old(Current()), UpdateLimits(maxGas, maxFails, maxDrawdown))
    {
      if maxGas > 0.0 {
        maxDailyGas := maxGas;
      }
      if maxFails > 0 {
        this.maxFails := maxFails;
      }
      if maxDrawdown > 0.0 && maxDrawdown < 1.0 {
        this.maxDrawdown := maxDrawdown;
      }
    }
  }

  function Run(b: Breaker, commands: seq<Command>): Breaker {
    if commands == [] then b else Apply(Run(b, commands[..|commands| - 1]), commands[|commands| - 1])
  }

  /** A frozen breaker never lets anything through again, whatever is recorded and however the limits move. */
  lemma {:induction false} FrozenForever(b: Breaker, commands: seq<Command>)
    requires b.mode == Frozen
    ensures Run(b, commands).mode == Frozen && !Proceeds(Run(b, commands))
  {
    if commands != [] {
      FrozenForever(b, commands[..|commands| - 1]);
    }
  }
}
