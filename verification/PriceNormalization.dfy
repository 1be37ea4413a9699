/**
 Prices in one common unit (token1 per token0): the inverted exchange price, and the on-chain candidate that is
 closest to it (internal/riskcontrol/price_normalization.go).
 */
module PriceNormalization {
  datatype Variant =
    | ExchangeInverted | UniswapRaw | UniswapRawInverted | TickHuman | TickHumanInverted
    | MissingPrice | MissingDecimals | InvalidTick | NoValidCandidate | TooFar(best: Variant)

  datatype Normalized = Normalized(raw: real, price: real, ok: bool, detail: Variant)

  /** A value that is not finite is represented by a value that is not positive. */
  predicate IsFinitePositive(v: real) {
    v > 0.0
  }

  function NormalizeExchange(aggPrice: real): Normalized {
    if aggPrice <= 0.0 then Normalized(aggPrice, 0.0, false, MissingPrice)
    else Normalized(aggPrice, 1.0 / aggPrice, true, ExchangeInverted)
  }

  /** A positive aggregate price is inverted exactly, any other one is refused. */
  lemma ExchangeExactly(aggPrice: real)
    ensures var n := NormalizeExchange(aggPrice);
            && n.raw == aggPrice
            && (n.ok <==> aggPrice > 0.0)
            && (aggPrice > 0.0 ==> n.price * aggPrice == 1.0 && n.price > 0.0 && n.detail == ExchangeInverted)
            && (aggPrice <= 0.0 ==> n.price == 0.0 && n.detail == MissingPrice)
  {
    if aggPrice > 0.0 {
      var inverse := 1.0 / aggPrice;
      assert inverse * aggPrice == 1.0;
      assert inverse <= 0.0 ==> inverse * aggPrice <= 0.0;
    }
  }

  datatype Candidate = Candidate(name: Variant, price: real)

  /** `base` is 1.0001^tick and `scale` is 10^(dec0-dec1), as computed by the caller's math library. */
  function Candidates(base: real, scale: real): seq<Candidate>
    requires base > 0.0
  {
    [Candidate(UniswapRaw, base * scale), Candidate(UniswapRawInverted, (1.0 / base) * scale),
     Candidate(TickHuman, base), Candidate(TickHumanInverted, 1.0 / base)]
  }

  /** How many times larger the larger price is: the exponential of |log(p/q)|. */
  function Ratio(p: real, q: real): real
    requires p > 0.0 && q > 0.0
  {
    if p >= q then p / q else q / p
  }

  ghost predicate AllValid(s: seq<Candidate>) {
    forall c :: c in s ==> IsFinitePositive(c.price)
  }

  /** c is the first among the closest candidates. */
  ghost predicate IsFirstClosest(c: Candidate, valid: seq<Candidate>, ref: real)
    requires AllValid(valid) && ref > 0.0
  {
    exists i :: 0 <= i < |valid| && valid[i] == c
      && (forall j :: 0 <= j < |valid| ==> Ratio(c.price, ref) <= Ratio(valid[j].price, ref))
      && (forall j :: 0 <= j < i ==> Ratio(c.price, ref) < Ratio(valid[j].price, ref))
  }

  const GATE := 1000000.0

  /** What the on-chain normalisation promises, in terms of its candidates. */
  ghost predicate OnchainSpec(dec0: int, dec1: int, base: real, scale: real, raw: real, ref: real, res: Normalized) {
    res.raw == raw &&
    if dec0 <= 0 || dec1 <= 0 then res == Normalized(raw, 0.0, false, MissingDecimals)
    else if !IsFinitePositive(base) then res == Normalized(raw, 0.0, false, InvalidTick)
    else
      var valid := Valid(Candidates(base, scale));
      if valid == [] then res == Normalized(raw, 0.0, false, NoValidCandidate)
      else if !IsFinitePositive(ref) then res == Normalized(raw, valid[0].price, true, valid[0].name)
      else exists best :: best in valid && IsFirstClosest(best, valid, ref) && res == Gated(best, raw, ref)
  }

  /** The safety gate: a candidate that is more than a factor of one million off is no price at all. */
  function Gated(best: Candidate, raw: real, ref: real): Normalized
    requires best.price > 0.0 && ref > 0.0
  {
    if Ratio(best.price, ref) > GATE then Normalized(raw, 0.0, false, TooFar(best.name))
    else Normalized(raw, best.price, true, best.name)
  }

  /** The candidates with a usable price, in order. */
  function Valid(cands: seq<Candidate>): (valid: seq<Candidate>)
    ensures AllValid(valid)
    ensures forall c :: c in valid ==> c in cands
  {
    if cands == [] then [] else
      Valid(cands[..|cands| - 1]) +
      if IsFinitePositive(cands[|cands| - 1].price) then [cands[|cands| - 1]] else []
  }

  method NormalizeOnchainTick(dec0: int, dec1: int, base: real, scale: real, raw: real, ref: real)
      returns (res: Normalized)
    ensures OnchainSpec(dec0, dec1, base, scale, raw, ref, res)
  {
    if dec0 <= 0 || dec1 <= 0 {
      return Normalized(raw, 0.0, false, MissingDecimals);
    }
    if !IsFinitePositive(base) {
      return Normalized(raw, 0.0, false, InvalidTick);
    }
    var cands := Candidates(base, scale);
    var valid: seq<Candidate> := [];
    for i := 0 to |cands|
      invariant valid == Valid(cands[..i])
    {
      assert cands[..i + 1][..i] == cands[..i];
      if IsFinitePositive(cands[i].price) {
        valid := valid + [cands[i]];
      }
    }
    assert cands[..|cands|] == cands;
    if valid == [] {
      return Normalized(raw, 0.0, false, NoValidCandidate);
    }
    if !IsFinitePositive(ref) {
      return Normalized(raw, valid[0].price, true, valid[0].name);
    }
    var best := Closest(valid, ref);
    res := if Ratio(best.price, ref) > GATE then Normalized(raw, 0.0, false, TooFar(best.name))
           else Normalized(raw, best.price, true, best.name);
  }

  method Closest(valid: seq<Candidate>, ref: real) returns (best: Candidate)
    requires valid != [] && AllValid(valid) && ref > 0.0
    ensures best in valid && IsFirstClosest(best, valid, ref)
  {
    best := valid[0];
    var score := Ratio(best.price, ref);
    ghost var at := 0;
    for i := 1 to |valid|
      invariant 0 <= at < i && valid[at] == best && score == Ratio(best.price, ref)
      invariant forall j :: 0 <= j < i ==> score <= Ratio(valid[j].price, ref)
      invariant forall j :: 0 <= j < at ==> score < Ratio(valid[j].price, ref)
    {
      var s := Ratio(valid[i].price, ref);
      if s < score {
        best, score, at := valid[i], s, i;
      }
    }
  }

  /** With a reference price, the normalised price is within a factor of one million of it. */
  lemma OnchainWithinGate(dec0: int, dec1: int, base: real, scale: real, raw: real, ref: real, res: Normalized)
    requires OnchainSpec(dec0, dec1, base, scale, raw, ref, res)
    ensures ref > 0.0 && res.ok ==> res.price > 0.0 && Ratio(res.price, ref) <= GATE
  {
    if ref > 0.0 && res.ok {
      var valid := Valid(Candidates(base, scale));
      var best :| best in valid && IsFirstClosest(best, valid, ref) && res == Gated(best, raw, ref);
      GatedIsClose(best, raw, ref);
    }
  }

  /** The four ways to read a tick. */
  predicate IsReading(v: Variant) {
    v in {UniswapRaw, UniswapRawInverted, TickHuman, TickHumanInverted}
  }

  /** p is what the reading v makes of the tick, from 1.0001^tick and the decimal scale alone. */
  predicate Reads(v: Variant, p: real, base: real, scale: real) {
    match v
    case UniswapRaw => p == base * scale
    case UniswapRawInverted => p * base == scale
    case TickHuman => p == base
    case TickHumanInverted => p * base == 1.0
    case _ => false
  }

  lemma CandidateReads(c: Candidate, base: real, scale: real)
    requires base > 0.0 && c in Candidates(base, scale)
    ensures IsReading(c.name) && Reads(c.name, c.price, base, scale)
  {
    assert (1.0 / base) * base == 1.0;
    assert (1.0 / base) * scale * base == scale * ((1.0 / base) * base);
  }

  lemma DivideOut(p: real, base: real, product: real)
    requires base > 0.0 && p * base == product
    ensures p == (1.0 / base) * product
  {
    var inverse := 1.0 / base;
    assert inverse * base == 1.0;
    assert inverse * (p * base) == p * (inverse * base);
  }

  /** Every reading is among the candidates. */
  lemma ReadingIsCandidate(v: Variant, p: real, base: real, scale: real)
    requires base > 0.0 && Reads(v, p, base, scale)
    ensures Candidate(v, p) in Candidates(base, scale)
  {
    if v == UniswapRawInverted {
      DivideOut(p, base, scale);
    } else if v == TickHumanInverted {
      DivideOut(p, base, 1.0);
    }
    var cands := Candidates(base, scale);
    assert cands[0] in cands && cands[1] in cands && cands[2] in cands && cands[3] in cands;
  }

  lemma {:induction false} ValidIsComplete(cands: seq<Candidate>, c: Candidate)
    requires c in cands && c.price > 0.0
    ensures c in Valid(cands)
  {
    var init := cands[..|cands| - 1];
    if c in init {
      ValidIsComplete(init, c);
    } else {
      assert c == cands[|cands| - 1];
    }
  }

  lemma {:induction false} ValidStarts(cands: seq<Candidate>)
    requires cands != [] && cands[0].price > 0.0
    ensures Valid(cands) != [] && Valid(cands)[0] == cands[0]
  {
    if |cands| > 1 {
      ValidStarts(cands[..|cands| - 1]);
    }
  }

  /** How far apart two prices are, without a quotient: neither is more than `times` times the other. */
  predicate Within(p: real, q: real, times: real) {
    p <= times * q && q <= times * p
  }

  lemma RatioMeans(p: real, q: real, times: real)
    requires p > 0.0 && q > 0.0 && times >= 1.0
    ensures Ratio(p, q) <= times <==> Within(p, q, times)
  {
    var high, low := if p >= q then p else q, if p >= q then q else p;
    var r := high / low;
    assert r * low == high;
    assert (times - r) * low == times * low - high;
    if r <= times {
      assert (times - r) * low >= 0.0;
    } else {
      assert (r - times) * low > 0.0;
    }
    assert (times - 1.0) * high >= 0.0;
  }

  /**
   An accepted price is what its detail says about the tick and the decimals. Without a reference it is the standard
   reading; with one it is within a factor of a million, and no other reading is closer.
   */
  lemma AcceptedReading(dec0: int, dec1: int, base: real, scale: real, raw: real, ref: real, res: Normalized)
    requires OnchainSpec(dec0, dec1, base, scale, raw, ref, res)
    ensures res.ok ==>
              && dec0 > 0 && dec1 > 0 && base > 0.0 && res.price > 0.0 && res.raw == raw
              && IsReading(res.detail) && Reads(res.detail, res.price, base, scale)
    ensures res.ok && ref <= 0.0 && base * scale > 0.0 ==> res.detail == UniswapRaw && res.price == base * scale
    ensures res.ok && ref > 0.0 ==>
              && Within(res.price, ref, 1000000.0)
              && forall v, p :: Reads(v, p, base, scale) && p > 0.0 ==> Ratio(res.price, ref) <= Ratio(p, ref)
  {
    if res.ok {
      var cands := Candidates(base, scale);
      var valid := Valid(cands);
      if ref > 0.0 {
        var best :| best in valid && IsFirstClosest(best, valid, ref) && res == Gated(best, raw, ref);
        ClosestReading(base, scale, ref, best);
        hide Candidates, IsFirstClosest;
        CandidateReads(best, base, scale);
        RatioMeans(best.price, ref, GATE);
      } else {
        assert valid[0] in valid;
        CandidateReads(valid[0], base, scale);
        if base * scale > 0.0 {
          ValidStarts(cands);
        }
      }
    }
  }

  lemma ClosestReading(base: real, scale: real, ref: real, best: Candidate)
    requires base > 0.0 && ref > 0.0
    requires var valid := Valid(Candidates(base, scale)); best in valid && IsFirstClosest(best, valid, ref)
    ensures best.price > 0.0
    ensures forall v, p :: Reads(v, p, base, scale) && p > 0.0 ==> Ratio(best.price, ref) <= Ratio(p, ref)
  {
    hide Candidates, Ratio, Reads;
    forall v, p | Reads(v, p, base, scale) && p > 0.0 ensures Ratio(best.price, ref) <= Ratio(p, ref) {
      ReadingIsCandidate(v, p, base, scale);
      ValidIsComplete(Candidates(base, scale), Candidate(v, p));
    }
  }

  /**
   A price is refused exactly for missing decimals, an unusable tick, or readings that are all a million times off.
   */
  lemma RefusedExactly(dec0: int, dec1: int, base: real, scale: real, raw: real, ref: real, res: Normalized)
    requires OnchainSpec(dec0, dec1, base, scale, raw, ref, res)
    ensures !res.ok <==>
            || dec0 <= 0 || dec1 <= 0 || base <= 0.0
            || (ref > 0.0 && forall v, p :: Reads(v, p, base, scale) && p > 0.0 ==> !Within(p, ref, 1000000.0))
    ensures res.detail == MissingDecimals <==> dec0 <= 0 || dec1 <= 0
    ensures res.detail == InvalidTick <==> dec0 > 0 && dec1 > 0 && base <= 0.0
    ensures !res.ok && res.detail !in {MissingDecimals, InvalidTick} ==>
            res.detail.TooFar? && IsReading(res.detail.best)
    ensures !res.ok ==> res.price == 0.0 && res.raw == raw
  {
    if dec0 > 0 && dec1 > 0 && base > 0.0 {
      var cands := Candidates(base, scale);
      var valid := Valid(cands);
      ReadingIsCandidate(TickHuman, base, base, scale);
      ValidIsComplete(cands, Candidate(TickHuman, base));
      if res.ok {
        AcceptedReading(dec0, dec1, base, scale, raw, ref, res);
      } else {
        var best :| best in valid && IsFirstClosest(best, valid, ref) && res == Gated(best, raw, ref);
        CandidateReads(best, base, scale);
        forall v, p | Reads(v, p, base, scale) && p > 0.0 ensures !Within(p, ref, 1000000.0) {
          ReadingIsCandidate(v, p, base, scale);
          ValidIsComplete(cands, Candidate(v, p));
          RatioMeans(p, ref, GATE);
        }
      }
    }
  }

  lemma GatedIsClose(best: Candidate, raw: real, ref: real)
    ensures best.price > 0.0 && ref > 0.0 && Gated(best, raw, ref).ok ==>
              Gated(best, raw, ref).price == best.price && Ratio(best.price, ref) <= GATE
  {
  }
}
