/**
 Tick arithmetic on Go's truncating division: the strategy's alignment helpers
 (internal/strategy/v3_rebalance.go) and the mint adapter's snapping (internal/chain/univ3/adapter.go).
 */
module Ticks {
  import opened Basics

  function AlignDownToSpacing(tick: int, spacing: int): int {
    if spacing <= 0 then tick
    else
      var q, r := Quo(tick, spacing), Rem(tick, spacing);
      (if r != 0 && tick < 0 then q - 1 else q) * spacing
  }

  function AlignToSpacing(v: int, spacing: int): int {
    if spacing <= 0 then v else Quo(Abs(v), spacing) * spacing
  }

  function SnapTickDown(value: int, spacing: int): int {
    if spacing <= 0 then value
    else
      var r := Rem(value, spacing);
      if r == 0 then value else if value >= 0 then value - r else value - r - spacing
  }

  function SnapTickUp(value: int, spacing: int): int {
    if spacing <= 0 then value
    else
      var r := Rem(value, spacing);
      if r == 0 then value else if value >= 0 then value + (spacing - r) else value - r
  }

  ghost predicate Aligned(v: int, spacing: int) {
    exists k :: v == k * spacing
  }

  /** The greatest multiple of the spacing that is not above v. */
  ghost predicate IsFloor(f: int, v: int, spacing: int) {
    Aligned(f, spacing) && f <= v < f + spacing
  }

  lemma {:induction false} MultiplesApart(j: int, k: int, spacing: int)
    requires spacing > 0 && j < k
    ensures j * spacing + spacing <= k * spacing
    decreases k - j
  {
    assert (j + 1) * spacing == j * spacing + spacing;
    if j + 1 < k {
      MultiplesApart(j + 1, k, spacing);
    }
  }

  /** Two different aligned values are at least one spacing apart. */
  lemma AlignedApart(a: int, b: int, spacing: int)
    requires spacing > 0 && Aligned(a, spacing) && Aligned(b, spacing)
    ensures a < b ==> a + spacing <= b
  {
    var j :| a == j * spacing;
    var k :| b == k * spacing;
    if j < k {
      MultiplesApart(j, k, spacing);
    } else if k < j {
      MultiplesApart(k, j, spacing);
    }
  }

  lemma FloorIsUnique(f: int, g: int, v: int, spacing: int)
    requires spacing > 0 && IsFloor(f, v, spacing) && IsFloor(g, v, spacing)
    ensures f == g
  {
    AlignedApart(f, g, spacing);
    AlignedApart(g, f, spacing);
  }

  lemma QuoRem(v: int, spacing: int)
    requires spacing > 0
    ensures v == Quo(v, spacing) * spacing + Rem(v, spacing)
    ensures v >= 0 ==> 0 <= Rem(v, spacing) < spacing
    ensures v <= 0 ==> -spacing < Rem(v, spacing) <= 0
  {
    if v < 0 {
      assert -v == ((-v) / spacing) * spacing + (-v) % spacing;
      assert Quo(v, spacing) * spacing == -(((-v) / spacing) * spacing);
    } else {
      assert v == (v / spacing) * spacing + v % spacing;
    }
  }

  /** Both alignment helpers are the mathematical floor, for negative ticks too; snapping up mirrors snapping down. */
  lemma AlignmentIsFloor(v: int, spacing: int)
    requires spacing > 0
    ensures IsFloor(AlignDownToSpacing(v, spacing), v, spacing)
    ensures IsFloor(SnapTickDown(v, spacing), v, spacing)
    ensures AlignDownToSpacing(v, spacing) == SnapTickDown(v, spacing)
    ensures SnapTickUp(v, spacing) == -SnapTickDown(-v, spacing)
  {
    QuoRem(v, spacing);
    QuoRem(-v, spacing);
    var q, r := Quo(v, spacing), Rem(v, spacing);
    assert Quo(-v, spacing) == -q;
    assert Rem(-v, spacing) == -r by {
      assert (-q) * spacing == -(q * spacing);
    }
    var k := if r != 0 && v < 0 then q - 1 else q;
    assert (q - 1) * spacing == q * spacing - spacing;
    assert AlignDownToSpacing(v, spacing) == k * spacing;
    assert SnapTickDown(v, spacing) == k * spacing;
  }

  /** Without a usable spacing nothing is aligned. */
  lemma NoSpacing(v: int, spacing: int)
    requires spacing <= 0
    ensures AlignDownToSpacing(v, spacing) == SnapTickDown(v, spacing) == SnapTickUp(v, spacing) == v
    ensures AlignToSpacing(v, spacing) == v
  {
  }

  lemma SnapUpIsCeiling(v: int, spacing: int)
    requires spacing > 0
    ensures Aligned(SnapTickUp(v, spacing), spacing)
    ensures SnapTickUp(v, spacing) - spacing < v <= SnapTickUp(v, spacing)
  {
    AlignmentIsFloor(-v, spacing);
    AlignmentIsFloor(v, spacing);
    var k :| SnapTickDown(-v, spacing) == k * spacing;
    assert -(k * spacing) == (-k) * spacing;
  }

  lemma AlignedStep(v: int, spacing: int)
    requires Aligned(v, spacing)
    ensures Aligned(v + spacing, spacing)
  {
    var k :| v == k * spacing;
    assert v + spacing == (k + 1) * spacing;
  }

  lemma AlignedSum(v: int, w: int, spacing: int)
    requires Aligned(v, spacing) && Aligned(w, spacing)
    ensures Aligned(v + w, spacing)
  {
    var j :| v == j * spacing;
    var k :| w == k * spacing;
    assert v + w == (j + k) * spacing;
  }

  /** An aligned value not above v is not above the floor of v; the mirror image holds for the ceiling. */
  lemma FloorIsGreatest(a: int, v: int, spacing: int)
    requires spacing > 0 && Aligned(a, spacing)
    ensures a <= v ==> a <= SnapTickDown(v, spacing)
    ensures a >= v ==> a >= SnapTickUp(v, spacing)
  {
    AlignmentIsFloor(v, spacing);
    SnapUpIsCeiling(v, spacing);
    AlignedApart(SnapTickDown(v, spacing), a, spacing);
    AlignedApart(a, SnapTickUp(v, spacing), spacing);
  }

  // ---------------------------------------------------------------- the mint range

  function SpacingForFee(fee: nat): int {
    if fee == 100 then 1
    else if fee == 500 then 10
    else if fee == 3000 then 60
    else if fee == 10000 then 200
    else 1
  }

  /** The spacings of the fee tiers. */
  const TIERS := map[100 := 1, 500 := 10, 3000 := 60, 10000 := 200]

  lemma SpacingOfTiers(fee: nat)
    ensures SpacingForFee(fee) == if fee in TIERS then TIERS[fee] else 1
    ensures SpacingForFee(fee) > 0
  {
  }

  /** The tick range that the mint call data carries. */
  function MintRange(fee: nat, rawLower: int, rawUpper: int): (int, int) {
    var s := SpacingForFee(fee);
    var lower, upper := SnapTickDown(rawLower, s), SnapTickUp(rawUpper, s);
    (lower, if lower >= upper then lower + s else upper)
  }

  /**
   The minted range is aligned and never empty, it covers both raw bounds even when they are reversed, and
   for an ordered raw range no aligned cover is narrower; if the raw range is not a single tick, every
   aligned cover contains it.
   */
  lemma MintRangeIsSmallestCover(fee: nat, rawLower: int, rawUpper: int)
    ensures var (lower, upper) := MintRange(fee, rawLower, rawUpper);
            && Aligned(lower, SpacingForFee(fee)) && Aligned(upper, SpacingForFee(fee))
            && lower < upper && lower <= rawLower && rawUpper <= upper
    ensures forall a, b {:trigger Aligned(a, SpacingForFee(fee)), Aligned(b, SpacingForFee(fee))} ::
              && rawLower <= rawUpper
              && Aligned(a, SpacingForFee(fee)) && Aligned(b, SpacingForFee(fee))
              && a < b && a <= rawLower && rawUpper <= b ==>
                var (lower, upper) := MintRange(fee, rawLower, rawUpper);
                && upper - lower <= b - a
                && (rawLower < rawUpper ==> a <= lower && upper <= b)
  {
    var s := SpacingForFee(fee);
    AlignmentIsFloor(rawLower, s);
    SnapUpIsCeiling(rawUpper, s);
    var (lower, upper) := MintRange(fee, rawLower, rawUpper);
    AlignedStep(lower, s);
    forall a, b | rawLower <= rawUpper && Aligned(a, s) && Aligned(b, s) && a < b && a <= rawLower && rawUpper <= b
      ensures upper - lower <= b - a && (rawLower < rawUpper ==> a <= lower && upper <= b)
    {
      FloorIsGreatest(a, rawLower, s);
      FloorIsGreatest(b, rawUpper, s);
      AlignedApart(a, b, s);
    }
  }

  // ---------------------------------------------------------------- the centred range

  function AlignedWidth(widthTicks: int, spacing: int): int {
    var w := AlignToSpacing(widthTicks, spacing);
    if w <= 0 then spacing * 10 else w
  }

  /** (lower, upper, center) */
  function CenteredRange(tick: int, widthTicks: int, spacing: int): (int, int, int) {
    var width := AlignedWidth(widthTicks, spacing);
    var lower := AlignDownToSpacing(tick - Quo(width, 2), spacing);
    var upper := lower + width;
    (lower, upper, Quo(lower + upper, 2))
  }

  predicate Contains(range: (int, int, int), tick: int) {
    range.0 <= tick <= range.1
  }

  lemma AlignedWidthShape(widthTicks: int, spacing: int)
    requires spacing > 0
    ensures Aligned(AlignedWidth(widthTicks, spacing), spacing)
    ensures AlignedWidth(widthTicks, spacing) >= spacing
    ensures Abs(widthTicks) >= spacing ==> IsFloor(AlignedWidth(widthTicks, spacing), Abs(widthTicks), spacing)
    ensures Abs(widthTicks) < spacing ==> AlignedWidth(widthTicks, spacing) == 10 * spacing
  {
    var v := Abs(widthTicks);
    QuoRem(v, spacing);
    var q := Quo(v, spacing);
    if q <= 0 {
      assert q * spacing <= 0;
      assert spacing * 10 == 10 * spacing;
    } else {
      assert q * spacing >= spacing;
    }
  }

  /** The range is aligned, exactly as wide as the aligned width, and sits within one spacing of being centred. */
  lemma CenteredRangeShape(tick: int, widthTicks: int, spacing: int)
    requires spacing > 0
    ensures var (lower, upper, center) := CenteredRange(tick, widthTicks, spacing);
            var w := AlignedWidth(widthTicks, spacing);
            && Aligned(lower, spacing) && Aligned(upper, spacing) && upper - lower == w
            && w / 2 <= tick - lower < w / 2 + spacing
            && lower < upper && lower <= center <= upper
  {
    var w := AlignedWidth(widthTicks, spacing);
    AlignedWidthShape(widthTicks, spacing);
    AlignmentIsFloor(tick - w / 2, spacing);
    AlignedSum(AlignDownToSpacing(tick - w / 2, spacing), w, spacing);
  }

  /**
   Every tick lies in its own centred range if and only if the aligned width is at least two spacings,
   or the spacing is at most 3. One spacing of 60 is too narrow, for example.
   */
  lemma CenteredRangeContainsEveryTick(widthTicks: int, spacing: int)
    requires spacing > 0
    ensures (forall tick :: Contains(CenteredRange(tick, widthTicks, spacing), tick)) <==>
            AlignedWidth(widthTicks, spacing) >= 2 * spacing || spacing <= 3
  {
    var w := AlignedWidth(widthTicks, spacing);
    AlignedWidthShape(widthTicks, spacing);
    if w >= 2 * spacing || spacing <= 3 {
      forall tick ensures Contains(CenteredRange(tick, widthTicks, spacing), tick) {
        CenteredRangeShape(tick, widthTicks, spacing);
      }
    } else {
      assert 2 * spacing > w >= spacing;
      AlignedApart(spacing, w, spacing) by {
        assert spacing == 1 * spacing;
      }
      WorstTick(widthTicks, spacing);
      var tick := w / 2 + spacing - 1;
      assert !Contains(CenteredRange(tick, widthTicks, spacing), tick);
    }
  }

  /** The tick at which the range sits furthest below being centred. */
  lemma WorstTick(widthTicks: int, spacing: int)
    requires spacing > 0
    ensures var w := AlignedWidth(widthTicks, spacing);
            CenteredRange(w / 2 + spacing - 1, widthTicks, spacing).0 == 0
    ensures var w := AlignedWidth(widthTicks, spacing);
            CenteredRange(w / 2, widthTicks, spacing).0 == 0
  {
    var w := AlignedWidth(widthTicks, spacing);
    AlignedWidthShape(widthTicks, spacing);
    AlignmentIsFloor(spacing - 1, spacing);
    AlignmentIsFloor(0, spacing);
    assert 0 == 0 * spacing;
    FloorIsUnique(AlignDownToSpacing(spacing - 1, spacing), 0, spacing - 1, spacing);
    FloorIsUnique(AlignDownToSpacing(0, spacing), 0, 0, spacing);
  }
}
