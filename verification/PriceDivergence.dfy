/**
 The rule that compares the on-chain and the exchange price, its printed reasons, and what the statistics and
 the sample collector read back from them (internal/riskcontrol/rule_price_source_divergence.go, stats.go).
 */
module PriceDivergence {
  import opened Basics
  import opened Text
  import opened Reasons
  import opened RiskTypes

  datatype PricePoint = PricePoint(rawPrice: real, price: real, normalizedPrice: real, ok: bool, detail: string,
                                   tsMS: int)

  datatype Config = Config(enabled: bool, maxStalenessMS: int, alignMaxGapMS: int, sourceA: string, sourceB: string,
                           thresholdBps: int, overrideUsed: bool)

  type Sources = map<string, PricePoint>

  datatype Outcome =
    | Disabled
    | SkipMissing(missing: seq<string>)
    | SkipNormalization
    | SkipStale
    | SkipTimeMismatch
    | Compared(deviationBps: int, reject: bool)
  {
    predicate Skips() {
      SkipMissing? || SkipNormalization? || SkipStale? || SkipTimeMismatch?
    }
  }

  function AbsR(x: real): real {
    if x < 0.0 then -x else x
  }

  const EPS := 0.000000001

  /** The relative deviation |p - q| / max(min(p, q), eps). */
  function RelativeDeviation(p: real, q: real): real
    requires p > 0.0 && q > 0.0
  {
    var low := if p <= q then p else q;
    AbsR(p - q) / (if low >= EPS then low else EPS)
  }

  function DeviationBps(p: real, q: real): int {
    if p <= 0.0 || q <= 0.0 then MAX_INT64 else (RelativeDeviation(p, q) * 10000.0 + 0.5).Floor
  }

  function Norm(p: PricePoint): real {
    if p.normalizedPrice <= 0.0 then p.price else p.normalizedPrice
  }

  function Judge(cfg: Config, now: int, sources: Sources): Outcome {
    var aKey, bKey := TrimSpace(cfg.sourceA), TrimSpace(cfg.sourceB);
    var missA, missB := aKey !in sources || sources[aKey].tsMS <= 0, bKey !in sources || sources[bKey].tsMS <= 0;
    if !cfg.enabled then Disabled
    else if missA || missB then SkipMissing((if missA then [aKey] else []) + (if missB then [bKey] else []))
    else
      var a, b := sources[aKey], sources[bKey];
      if !a.ok || !b.ok || Norm(a) <= 0.0 || Norm(b) <= 0.0 then SkipNormalization
      else if cfg.maxStalenessMS > 0 && (now - a.tsMS > cfg.maxStalenessMS || now - b.tsMS > cfg.maxStalenessMS)
          then SkipStale
      else if cfg.alignMaxGapMS > 0 && Abs(a.tsMS - b.tsMS) > cfg.alignMaxGapMS then SkipTimeMismatch
      else
        var dev := DeviationBps(Norm(a), Norm(b));
        Compared(dev, dev > cfg.thresholdBps)
  }

  // ---------------------------------------------------------------- when prices are compared

  /** A point that can be missing, with the time that it must have. */
  predicate Present(sources: Sources, key: string) {
    key in sources && sources[key].tsMS > 0
  }

  /** A price can be told: normalised, with a positive normalised price or else a positive price. */
  predicate Priced(p: PricePoint) {
    p.ok && (p.normalizedPrice > 0.0 || p.price > 0.0)
  }

  /** No older than the limit, if there is one. */
  predicate YoungEnough(p: PricePoint, now: int, limitMS: int) {
    limitMS <= 0 || now <= p.tsMS + limitMS
  }

  /** Neither point is more than the gap older than the other, if there is a gap. */
  predicate Together(a: PricePoint, b: PricePoint, gapMS: int) {
    gapMS <= 0 || (a.tsMS <= b.tsMS + gapMS && b.tsMS <= a.tsMS + gapMS)
  }

  /** The branch that an evaluation takes: each one exactly when its condition is the first to hold. */
  lemma BranchesExactly(cfg: Config, now: int, sources: Sources)
    ensures var o, aKey, bKey := Judge(cfg, now, sources), TrimSpace(cfg.sourceA), TrimSpace(cfg.sourceB);
            var present := Present(sources, aKey) && Present(sources, bKey);
            && (o.Disabled? <==> !cfg.enabled)
            && (o.SkipMissing? <==> cfg.enabled && !present)
            && (cfg.enabled && present ==>
                  var a, b := sources[aKey], sources[bKey];
                  var priced, young := Priced(a) && Priced(b),
                      YoungEnough(a, now, cfg.maxStalenessMS) && YoungEnough(b, now, cfg.maxStalenessMS);
                  && (o.SkipNormalization? <==> !priced)
                  && (o.SkipStale? <==> priced && !young)
                  && (o.SkipTimeMismatch? <==> priced && young && !Together(a, b, cfg.alignMaxGapMS))
                  && (o.Compared? <==> priced && young && Together(a, b, cfg.alignMaxGapMS)))
    ensures var o, aKey, bKey := Judge(cfg, now, sources), TrimSpace(cfg.sourceA), TrimSpace(cfg.sourceB);
            o.SkipMissing? ==>
              o.missing == if Present(sources, aKey) then [bKey] else
                  if Present(sources, bKey) then [aKey] else [aKey, bKey]
  {
    hide TrimSpace, DeviationBps;
  }

  /** Two prices are compared exactly when the rule is on and both are present, told, young enough and seen together. */
  lemma ComparedExactly(cfg: Config, now: int, sources: Sources)
    ensures var aKey, bKey := TrimSpace(cfg.sourceA), TrimSpace(cfg.sourceB);
            Judge(cfg, now, sources).Compared? <==>
            && cfg.enabled && aKey in sources && bKey in sources
            && var a, b := sources[aKey], sources[bKey];
               && a.tsMS > 0 && b.tsMS > 0
               && a.ok && b.ok
               && (a.normalizedPrice > 0.0 || a.price > 0.0) && (b.normalizedPrice > 0.0 || b.price > 0.0)
               && (cfg.maxStalenessMS > 0 ==> now - a.tsMS <= cfg.maxStalenessMS && now - b.tsMS <= cfg.maxStalenessMS)
               && (cfg.alignMaxGapMS > 0 ==>
                   b.tsMS - a.tsMS <= cfg.alignMaxGapMS && a.tsMS - b.tsMS <= cfg.alignMaxGapMS)
  {
    BranchesExactly(cfg, now, sources);
    hide TrimSpace, Judge;
  }

  lemma ProductOrder(x: real, z: real, y: real)
    requires y > 0.0
    ensures x <= z ==> x * y <= z * y
    ensures x < z ==> x * y < z * y
  {
    var d := z - x;
    assert d > 0.0 ==> d * y > 0.0;
    assert d * y == z * y - x * y;
  }

  /** Multiplying a quotient out, between two bounds. */
  lemma QuotientBetween(x: real, y: real, lower: real, upper: real)
    requires y > 0.0 && lower <= x / y < upper
    ensures lower * y <= x < upper * y
  {
    var d := x / y;
    assert d * y == x;
    ProductOrder(lower, d, y);
    ProductOrder(d, upper, y);
  }

  /** The integer nearest to 10000 |p - q| / max(min(p, q), 1e-9), halves rounded up. */
  lemma DeviationIsNearest(p: real, q: real)
    requires p > 0.0 && q > 0.0
    ensures var low := if p <= q then p else q;
            var high := if p <= q then q else p;
            var den := if low >= 0.000000001 then low else 0.000000001;
            var dev := DeviationBps(p, q) as real;
            (dev - 0.5) * den <= 10000.0 * (high - low) < (dev + 0.5) * den
  {
    var low := if p <= q then p else q;
    var high := if p <= q then q else p;
    var den := if low >= 0.000000001 then low else 0.000000001;
    assert RelativeDeviation(p, q) == (high - low) / den;
    Rounded(high - low, den, DeviationBps(p, q));
  }

  lemma Rounded(gap: real, den: real, n: int)
    requires den > 0.0 && n == (gap / den * 10000.0 + 0.5).Floor
    ensures (n as real - 0.5) * den <= 10000.0 * gap < (n as real + 0.5) * den
  {
    var lower, upper := n as real - 0.5, n as real + 0.5;
    var d := gap / den;
    assert lower <= d * 10000.0 < upper;
    QuotientBetween(gap, den, lower / 10000.0, upper / 10000.0);
    Rescale(lower, den);
    Rescale(upper, den);
  }

  lemma Rescale(x: real, y: real)
    ensures (x / 10000.0 * y) * 10000.0 == x * y
  {
    var z := x / 10000.0;
    assert x == z * 10000.0;
  }

  /**
   A compared deviation is that of the two told prices (the normalised one if it is positive), and it rejects exactly
   above the threshold.
   */
  lemma ComparedDeviation(cfg: Config, now: int, sources: Sources)
    requires Judge(cfg, now, sources).Compared?
    ensures var o := Judge(cfg, now, sources);
            var a, b := sources[TrimSpace(cfg.sourceA)], sources[TrimSpace(cfg.sourceB)];
            var p := if a.normalizedPrice > 0.0 then a.normalizedPrice else a.price;
            var q := if b.normalizedPrice > 0.0 then b.normalizedPrice else b.price;
            var low := if p <= q then p else q;
            var high := if p <= q then q else p;
            var den := if low >= 0.000000001 then low else 0.000000001;
            var dev := o.deviationBps as real;
            && p > 0.0 && q > 0.0
            && (dev - 0.5) * den <= 10000.0 * (high - low) < (dev + 0.5) * den
            && (o.reject <==> o.deviationBps > cfg.thresholdBps)
            && (Evaluate(cfg, now, sources).verdict == Reject <==> o.deviationBps > cfg.thresholdBps)
  {
    var a, b := sources[TrimSpace(cfg.sourceA)], sources[TrimSpace(cfg.sourceB)];
    DeviationIsNearest(Norm(a), Norm(b));
    hide TrimSpace, DeviationBps, Words, Join;
  }

  /** Naming the two sources the other way round changes neither the branch nor the deviation. */
  lemma SourcesMayBeSwapped(cfg: Config, now: int, sources: Sources)
    ensures var o := Judge(cfg, now, sources);
            var o' := Judge(cfg.(sourceA := cfg.sourceB, sourceB := cfg.sourceA), now, sources);
            match o
            case Compared(dev, reject) => o' == Compared(dev, reject)
            case SkipMissing(missing) => o'.SkipMissing? && multiset(o'.missing) == multiset(missing)
            case _ => o' == o
  {
    hide *;
    var swapped := cfg.(sourceA := cfg.sourceB, sourceB := cfg.sourceA);
    BranchesExactly(cfg, now, sources);
    BranchesExactly(swapped, now, sources);
    TogetherEitherWay(sources, TrimSpace(cfg.sourceA), TrimSpace(cfg.sourceB), cfg.alignMaxGapMS);
    if Judge(cfg, now, sources).Compared? {
      ComparedValue(cfg, now, sources);
      ComparedValue(swapped, now, sources);
      DeviationsMayBeSwapped(Norm(sources[TrimSpace(cfg.sourceA)]), Norm(sources[TrimSpace(cfg.sourceB)]));
    }
  }

  lemma TogetherEitherWay(sources: Sources, aKey: string, bKey: string, gapMS: int)
    ensures aKey in sources && bKey in sources ==>
              (Together(sources[aKey], sources[bKey], gapMS) <==> Together(sources[bKey], sources[aKey], gapMS))
    ensures Present(sources, aKey) ==> aKey in sources
    ensures Present(sources, bKey) ==> bKey in sources
  {
  }

  lemma ComparedValue(cfg: Config, now: int, sources: Sources)
    requires Judge(cfg, now, sources).Compared?
    ensures var aKey, bKey := TrimSpace(cfg.sourceA), TrimSpace(cfg.sourceB);
            && cfg.enabled && Present(sources, aKey) && Present(sources, bKey) && aKey in sources && bKey in sources
            && var dev := DeviationBps(Norm(sources[aKey]), Norm(sources[bKey]));
               Judge(cfg, now, sources) == Compared(dev, dev > cfg.thresholdBps)
  {
    hide TrimSpace, DeviationBps;
  }

  lemma DeviationsMayBeSwapped(p: real, q: real)
    ensures DeviationBps(p, q) == DeviationBps(q, p)
  {
    if p > 0.0 && q > 0.0 {
      assert AbsR(p - q) == AbsR(q - p);
    }
  }

  // ---------------------------------------------------------------- printed reasons

  function Commas(names: seq<string>): string {
    if names == [] then ""
    else if |names| == 1 then names[0]
    else Commas(names[..|names| - 1]) + "," + names[|names| - 1]
  }

  function Escaped(s: string): string {
    if s == "" then "" else
      (match s[0]
       case '\"' => "\\\"" case '\\' => "\\\\" case '\n' => "\\n" case '\r' => "\\r" case '\t' => "\\t"
       case c => [c]) + Escaped(s[1..])
  }

  /** Go's `%q` of a text of printable characters and the common escapes. */
  function Quote(s: string): string {
    "\"" + Escaped(s) + "\""
  }

  /** What a rejection prints about one of the two sources. */
  function SideWords(source: string, raw: string, norm: string, ts: string, detail: string, name: string,
                     p: PricePoint): seq<string> {
    [Field(source, name), Field(raw, Fixed10(p.rawPrice)), Field(norm, Fixed10(Norm(p))), Field(ts, Dec(p.tsMS)),
     Field(detail, Quote(TrimSpace(p.detail)))]
  }

  function MissingWords(missing: seq<string>): seq<string> {
    ["skip", Field("missing_source", Commas(missing))]
  }

  function NormalizationWords(aKey: string, a: PricePoint, bKey: string, b: PricePoint): seq<string> {
    ["skip", "missing_decimals_for_normalization",
     Field("source_a", aKey), Field("ok_a", Bool(a.ok)), Field("detail_a", Quote(TrimSpace(a.detail))),
     Field("source_b", bKey), Field("ok_b", Bool(b.ok)), Field("detail_b", Quote(TrimSpace(b.detail)))]
  }

  function StaleWords(cfg: Config, now: int, aKey: string, a: PricePoint, bKey: string, b: PricePoint): seq<string> {
    ["skip", "stale_source", Field("source_a", aKey), Field("age_ms", Dec(now - a.tsMS)),
     Field("source_b", bKey), Field("age_ms", Dec(now - b.tsMS)),
     Field("max_staleness_sec", Dec(Quo(cfg.maxStalenessMS, 1000)))]
  }

  function TimedSource(source: string, ts: string, name: string, p: PricePoint, now: int): seq<string> {
    [Field(source, name), Field(ts, Dec(p.tsMS)), Field("age_ms", Dec(now - p.tsMS))]
  }

  function MismatchWords(cfg: Config, now: int, aKey: string, a: PricePoint, bKey: string, b: PricePoint): seq<string> {
    ["skip", "time_mismatch"] + TimedSource("source_a", "ts_a", aKey, a, now)
        + TimedSource("source_b", "ts_b", bKey, b, now)
    + [Field("ts_gap_ms", Dec(Abs(a.tsMS - b.tsMS))), Field("align_max_gap_ms", Dec(cfg.alignMaxGapMS))]
  }

  function RejectHead(aKey: string, a: PricePoint, bKey: string, b: PricePoint): seq<string> {
    ["price", "divergence", "too", "high", Field("normalized_ok", "true")]
    + SideWords("source_a", "raw_price_a", "normalized_price_a", "ts_a", "normalized_a_detail", aKey, a)
    + SideWords("source_b", "raw_price_b", "normalized_price_b", "ts_b", "normalized_b_detail", bKey, b)
  }

  function OkHead(aKey: string, bKey: string): seq<string> {
    ["ok", Field("normalized_ok", "true"), Field("source_a", aKey), Field("source_b", bKey)]
  }

  function Numbers(cfg: Config, dev: int): seq<string> {
    [Field("deviation_bps", Dec(dev)), Field("threshold_bps", Dec(cfg.thresholdBps)),
     Field("override_used", Bool(cfg.overrideUsed))]
  }

  function Words(cfg: Config, now: int, sources: Sources): seq<string> {
    var aKey, bKey := TrimSpace(cfg.sourceA), TrimSpace(cfg.sourceB);
    var outcome := Judge(cfg, now, sources);
    match outcome
    case Disabled => ["rule", "disabled"]
    case SkipMissing(missing) => MissingWords(missing)
    case SkipNormalization => NormalizationWords(aKey, sources[aKey], bKey, sources[bKey])
    case SkipStale => StaleWords(cfg, now, aKey, sources[aKey], bKey, sources[bKey])
    case SkipTimeMismatch => MismatchWords(cfg, now, aKey, sources[aKey], bKey, sources[bKey])
    case Compared(dev, reject) =>
      var a, b := sources[aKey], sources[bKey];
      (if reject then RejectHead(aKey, a, bKey, b) else OkHead(aKey, bKey)) + Numbers(cfg, dev)
  }

  function Evaluate(cfg: Config, now: int, sources: Sources): RiskDecision {
    var o := Judge(cfg, now, sources);
    RiskDecision(if o.Compared? && o.reject then Reject else Approve, PRICE_RULE_ID, Join(Words(cfg, now, sources)),
                 None)
  }

  // ---------------------------------------------------------------- what is read back

  predicate IsSkipReason(reason: string) {
    var r := TrimSpace(reason);
    r != "" && "skip" <= r
  }

  datatype SkipKind = MissingSourceSkip | MissingDecimalsSkip | TimeMismatchSkip | StaleSourceSkip | OtherSkip

  predicate Contains(s: string, w: string) {
    Index(s, w).Some?
  }

  function SkipReasonKind(reason: string): SkipKind {
    var r := TrimSpace(reason);
    if Contains(r, "missing_source") then MissingSourceSkip
    else if Contains(r, "missing_decimals_for_normalization") then MissingDecimalsSkip
    else if Contains(r, "time_mismatch") then TimeMismatchSkip
    else if Contains(r, "stale_source") then StaleSourceSkip
    else OtherSkip
  }

  /** The texts that the rule prints but does not choose: the source names and the quoted details. */
  function ForeignTexts(cfg: Config, sources: Sources): seq<string> {
    var aKey, bKey := TrimSpace(cfg.sourceA), TrimSpace(cfg.sourceB);
    [aKey, bKey] + (if aKey in sources then [Quote(TrimSpace(sources[aKey].detail))] else [])
                 + (if bKey in sources then [Quote(TrimSpace(sources[bKey].detail))] else [])
  }

  ghost predicate MarkerFree(cfg: Config, sources: Sources, m: string) {
    forall t :: t in ForeignTexts(cfg, sources) ==> !Occurs(t, m)
  }

  lemma BoolField(tag: string, b: bool, key: string)
    requires |key| > 5 && '=' !in key && '=' !in tag && !EndsWith(tag, key)
    ensures !Occurs(Field(tag, Bool(b)), key + "=")
  {
    ShortFree(Bool(b), key + "=");
    FieldFree(tag, Bool(b), key);
  }

  lemma SideFree(source: string, raw: string, norm: string, ts: string, detail: string, name: string, p: PricePoint,
                 key: string)
    requires key != "" && '=' !in key && 'a' <= key[0] <= 'z'
    requires '=' !in source && '=' !in raw && '=' !in norm && '=' !in ts && '=' !in detail
    requires !EndsWith(source, key) && !EndsWith(raw, key) && !EndsWith(norm, key) && !EndsWith(ts, key)
             && !EndsWith(detail, key)
    requires !Occurs(name, key + "=") && !Occurs(Quote(TrimSpace(p.detail)), key + "=")
    ensures AllFree(SideWords(source, raw, norm, ts, detail, name, p), key + "=")
  {
    FieldFree(source, name, key);
    FieldFree(detail, Quote(TrimSpace(p.detail)), key);
    NumberField(raw, Fixed10(p.rawPrice), key);
    NumberField(norm, Fixed10(Norm(p)), key);
    DecIsNumeric(p.tsMS);
    NumberField(ts, Dec(p.tsMS), key);
  }

  /** The words before the deviation hold neither of the two numeric markers. */
  lemma RejectHeadFree(aKey: string, a: PricePoint, bKey: string, b: PricePoint, key: string)
    requires key in {"deviation_bps", "threshold_bps"}
    requires !Occurs(aKey, key + "=") && !Occurs(Quote(TrimSpace(a.detail)), key + "=")
    requires !Occurs(bKey, key + "=") && !Occurs(Quote(TrimSpace(b.detail)), key + "=")
    ensures AllFree(RejectHead(aKey, a, bKey, b), key + "=")
  {
    hide Quote, TrimSpace, Occurs, Field, SideWords, AllFree;
    HeadSidesFree(aKey, a, bKey, b, key);
    PlainWordsFree(key);
    var left := SideWords("source_a", "raw_price_a", "normalized_price_a", "ts_a", "normalized_a_detail", aKey, a);
    var right := SideWords("source_b", "raw_price_b", "normalized_price_b", "ts_b", "normalized_b_detail", bKey, b);
    var plain := ["price", "divergence", "too", "high", Field("normalized_ok", "true")];
    AllFreeConcat(plain, left, key + "=");
    AllFreeConcat(plain + left, right, key + "=");
  }

  lemma HeadSidesFree(aKey: string, a: PricePoint, bKey: string, b: PricePoint, key: string)
    requires key in {"deviation_bps", "threshold_bps"}
    requires !Occurs(aKey, key + "=") && !Occurs(Quote(TrimSpace(a.detail)), key + "=")
    requires !Occurs(bKey, key + "=") && !Occurs(Quote(TrimSpace(b.detail)), key + "=")
    ensures AllFree(SideWords("source_a", "raw_price_a", "normalized_price_a", "ts_a", "normalized_a_detail", aKey, a),
                    key + "=")
    ensures AllFree(SideWords("source_b", "raw_price_b", "normalized_price_b", "ts_b", "normalized_b_detail", bKey, b),
                    key + "=")
  {
    hide SideWords, Quote, TrimSpace, Occurs, AllFree;
    SideFree("source_a", "raw_price_a", "normalized_price_a", "ts_a", "normalized_a_detail", aKey, a, key);
    SideFree("source_b", "raw_price_b", "normalized_price_b", "ts_b", "normalized_b_detail", bKey, b, key);
  }

  lemma PlainWordsFree(key: string)
    requires key in {"deviation_bps", "threshold_bps"}
    ensures AllFree(["price", "divergence", "too", "high", Field("normalized_ok", "true")], key + "=")
    ensures AllFree(["ok", Field("normalized_ok", "true")], key + "=")
  {
    ShortFree("true", key + "=");
    FieldFree("normalized_ok", "true", key);
  }

  lemma OkHeadFree(aKey: string, bKey: string, key: string)
    requires key in {"deviation_bps", "threshold_bps"}
    requires !Occurs(aKey, key + "=") && !Occurs(bKey, key + "=")
    ensures AllFree(OkHead(aKey, bKey), key + "=")
  {
    FieldFree("source_a", aKey, key);
    FieldFree("source_b", bKey, key);
    PlainWordsFree(key);
    assert OkHead(aKey, bKey) == ["ok", Field("normalized_ok", "true")]
        + [Field("source_a", aKey), Field("source_b", bKey)];
  }

  lemma NumbersReadBack(head: seq<string>, cfg: Config, dev: int)
    requires head != [] && AllFree(head, "deviation_bps=") && AllFree(head, "threshold_bps=")
    requires -MAX_INT64 - 1 <= dev <= MAX_INT64 && -MAX_INT64 - 1 <= cfg.thresholdBps <= MAX_INT64
    ensures var reason := Join(head + Numbers(cfg, dev));
            && ParseInt64After(reason, "deviation_bps=") == Some(dev)
            && ParseInt64After(reason, "threshold_bps=") == Some(cfg.thresholdBps)
  {
    hide Join, Occurs, ParseInt64After;
    var numbers := Numbers(cfg, dev);
    assert "deviation_bps" + "=" == "deviation_bps=" && "threshold_bps" + "=" == "threshold_bps=";
    assert head + numbers == head + [numbers[0]] + numbers[1..];
    FieldReadBack(head, "deviation_bps", dev, numbers[1..]);
    DecIsNumeric(dev);
    NumberField("deviation_bps", Dec(dev), "threshold_bps");
    assert head + numbers == (head + [numbers[0]]) + [numbers[1]] + numbers[2..];
    FieldReadBack(head + [numbers[0]], "threshold_bps", cfg.thresholdBps, numbers[2..]);
  }

  lemma ForeignFree(cfg: Config, sources: Sources, m: string)
    requires MarkerFree(cfg, sources, m)
    ensures var aKey, bKey := TrimSpace(cfg.sourceA), TrimSpace(cfg.sourceB);
            && !Occurs(aKey, m) && !Occurs(bKey, m)
            && (aKey in sources ==> !Occurs(Quote(TrimSpace(sources[aKey].detail)), m))
            && (bKey in sources ==> !Occurs(Quote(TrimSpace(sources[bKey].detail)), m))
  {
    var aKey, bKey, foreign := TrimSpace(cfg.sourceA), TrimSpace(cfg.sourceB), ForeignTexts(cfg, sources);
    assert foreign[0] == aKey && foreign[1] == bKey;
    if aKey in sources {
      assert foreign[2] == Quote(TrimSpace(sources[aKey].detail));
    }
    if bKey in sources {
      assert foreign[|foreign| - 1] == Quote(TrimSpace(sources[bKey].detail));
    }
  }

  /** On a compared decision the statistics parse exactly the deviation and the threshold that were compared. */
  lemma ComparedNumbersReadBack(cfg: Config, now: int, sources: Sources)
    requires Judge(cfg, now, sources).Compared?
    requires MarkerFree(cfg, sources, "deviation_bps=") && MarkerFree(cfg, sources, "threshold_bps=")
    requires -MAX_INT64 - 1 <= Judge(cfg, now, sources).deviationBps <= MAX_INT64
    requires -MAX_INT64 - 1 <= cfg.thresholdBps <= MAX_INT64
    ensures var reason := Evaluate(cfg, now, sources).reason;
            && ParseInt64After(reason, "deviation_bps=") == Some(Judge(cfg, now, sources).deviationBps)
            && ParseInt64After(reason, "threshold_bps=") == Some(cfg.thresholdBps)
  {
    var aKey, bKey := TrimSpace(cfg.sourceA), TrimSpace(cfg.sourceB);
    var outcome := Judge(cfg, now, sources);
    assert "deviation_bps" + "=" == "deviation_bps=" && "threshold_bps" + "=" == "threshold_bps=";
    ForeignFree(cfg, sources, "deviation_bps=");
    ForeignFree(cfg, sources, "threshold_bps=");
    if outcome.reject {
      RejectHeadFree(aKey, sources[aKey], bKey, sources[bKey], "deviation_bps");
      RejectHeadFree(aKey, sources[aKey], bKey, sources[bKey], "threshold_bps");
      NumbersReadBack(RejectHead(aKey, sources[aKey], bKey, sources[bKey]), cfg, outcome.deviationBps);
    } else {
      OkHeadFree(aKey, bKey, "deviation_bps");
      OkHeadFree(aKey, bKey, "threshold_bps");
      NumbersReadBack(OkHead(aKey, bKey), cfg, outcome.deviationBps);
    }
  }

  lemma NameField(tag: string, name: string, key: string)
    requires key != "" && '=' !in key && '=' !in tag && !EndsWith(tag, key) && !Occurs(name, key + "=")
    ensures !Occurs(Field(tag, name), key + "=")
  {
    FieldFree(tag, name, key);
  }

  lemma ShortWords(key: string)
    requires |key| >= 4
    ensures !Occurs("skip", key + "=")
  {
    ShortFree("skip", key + "=");
  }

  /** A stale skip prints the age of the first source and the limit as they are. */
  lemma StaleNumbersReadBack(cfg: Config, now: int, sources: Sources)
    requires Judge(cfg, now, sources).SkipStale?
    requires var aKey, bKey := TrimSpace(cfg.sourceA), TrimSpace(cfg.sourceB);
             !Occurs(aKey, "age_ms=") && !Occurs(aKey, "max_staleness_sec=") && !Occurs(bKey, "max_staleness_sec=")
    ensures TrimSpace(cfg.sourceA) in sources
    ensures var a := sources[TrimSpace(cfg.sourceA)];
            var reason := Evaluate(cfg, now, sources).reason;
            && (IsInt64(now - a.tsMS) ==> ParseInt64After(reason, "age_ms=") == Some(now - a.tsMS))
            && (IsInt64(cfg.maxStalenessMS) ==>
                  ParseInt64After(reason, "max_staleness_sec=") == Some(Quo(cfg.maxStalenessMS, 1000)))
  {
    hide *;
    StaleReason(cfg, now, sources);
    var aKey, bKey := TrimSpace(cfg.sourceA), TrimSpace(cfg.sourceB);
    StaleNumbers(cfg, now, aKey, sources[aKey], bKey, sources[bKey]);
  }

  lemma StaleReason(cfg: Config, now: int, sources: Sources)
    requires Judge(cfg, now, sources).SkipStale?
    ensures var aKey, bKey := TrimSpace(cfg.sourceA), TrimSpace(cfg.sourceB);
            && aKey in sources && bKey in sources
            && Evaluate(cfg, now, sources).reason ==
                Join(StaleWords(cfg, now, aKey, sources[aKey], bKey, sources[bKey]))
  {
    hide TrimSpace, Join, StaleWords, Occurs;
  }

  predicate IsInt64(n: int) {
    -MAX_INT64 - 1 <= n <= MAX_INT64
  }

  lemma StaleHeadFree(aKey: string, key: string)
    requires key in {"age_ms", "max_staleness_sec"} && !Occurs(aKey, key + "=")
    ensures AllFree(["skip", "stale_source", Field("source_a", aKey)], key + "=")
  {
    ShortWords(key);
    assert (key + "=")[|key|] == '=';
    NeedsChar("stale_source", key + "=", |key|);
    NameField("source_a", aKey, key);
  }

  lemma StaleNumbers(cfg: Config, now: int, aKey: string, a: PricePoint, bKey: string, b: PricePoint)
    requires !Occurs(aKey, "age_ms=") && !Occurs(aKey, "max_staleness_sec=") && !Occurs(bKey, "max_staleness_sec=")
    ensures var reason := Join(StaleWords(cfg, now, aKey, a, bKey, b));
            && (IsInt64(now - a.tsMS) ==> ParseInt64After(reason, "age_ms=") == Some(now - a.tsMS))
            && (IsInt64(cfg.maxStalenessMS) ==>
                  ParseInt64After(reason, "max_staleness_sec=") == Some(Quo(cfg.maxStalenessMS, 1000)))
  {
    assert "age_ms" + "=" == "age_ms=" && "max_staleness_sec" + "=" == "max_staleness_sec=";
    StaleHeadFree(aKey, "age_ms");
    StaleHeadFree(aKey, "max_staleness_sec");
    DecIsNumeric(now - a.tsMS);
    DecIsNumeric(now - b.tsMS);
    NumberField("age_ms", Dec(now - a.tsMS), "max_staleness_sec");
    NumberField("age_ms", Dec(now - b.tsMS), "max_staleness_sec");
    NameField("source_b", bKey, "max_staleness_sec");
    var words := StaleWords(cfg, now, aKey, a, bKey, b);
    var head := ["skip", "stale_source", Field("source_a", aKey)];
    var more := [Field("age_ms", Dec(now - a.tsMS)), Field("source_b", bKey), Field("age_ms", Dec(now - b.tsMS))];
    assert AllFree(more, "max_staleness_sec=") by {
      hide Occurs, Field, Dec;
    }
    StaleSplit(cfg, now, aKey, a, bKey, b);
    SecondsFit(cfg.maxStalenessMS);
    hide StaleWords, Join, ParseInt64After, Dec, Field, Occurs, AllFree, IsInt64, Quo;
    AllFreeConcat(head, more, "max_staleness_sec=");
    Int64Means(now - a.tsMS);
    Int64Means(Quo(cfg.maxStalenessMS, 1000));
    if IsInt64(now - a.tsMS) {
      FieldReadBack(head, "age_ms", now - a.tsMS, words[4..]);
    }
    if IsInt64(cfg.maxStalenessMS) {
      FieldReadBack(head + more, "max_staleness_sec", Quo(cfg.maxStalenessMS, 1000), []);
    }
  }

  lemma Int64Means(n: int)
    ensures IsInt64(n) <==> -MAX_INT64 - 1 <= n <= MAX_INT64
  {
  }

  lemma SecondsFit(ms: int)
    ensures IsInt64(ms) ==> IsInt64(Quo(ms, 1000))
  {
  }

  lemma StaleSplit(cfg: Config, now: int, aKey: string, a: PricePoint, bKey: string, b: PricePoint)
    ensures var words := StaleWords(cfg, now, aKey, a, bKey, b);
            var head := ["skip", "stale_source", Field("source_a", aKey)];
            var more := [Field("age_ms", Dec(now - a.tsMS)), Field("source_b", bKey),
                         Field("age_ms", Dec(now - b.tsMS))];
            && |words| == 7
            && words == head + [Field("age_ms", Dec(now - a.tsMS))] + words[4..]
            && words == (head + more) + [Field("max_staleness_sec", Dec(Quo(cfg.maxStalenessMS, 1000)))] + []
  {
    hide Field, Dec, Quo;
  }

  // ---------------------------------------------------------------- skip decisions

  lemma CommasFree(missing: seq<string>, m: string)
    requires 1 <= |missing| <= 2 && m != "" && ',' !in m && AllFree(missing, m)
    ensures !Occurs(Commas(missing), m)
  {
    if |missing| == 2 {
      assert Commas(missing) == missing[0] + [','] + missing[1] by {
        assert missing[..1] == [missing[0]];
      }
      OccursSplit(missing[0], ',', missing[1], m);
    }
  }

  ghost predicate PairFree(aKey: string, a: PricePoint, bKey: string, b: PricePoint, m: string) {
    && !Occurs(aKey, m) && !Occurs(Quote(TrimSpace(a.detail)), m)
    && !Occurs(bKey, m) && !Occurs(Quote(TrimSpace(b.detail)), m)
  }

  lemma DecField(tag: string, n: int)
    requires '=' !in tag && !EndsWith(tag, "deviation_bps")
    ensures !Occurs(Field(tag, Dec(n)), "deviation_bps=")
  {
    assert "deviation_bps" + "=" == "deviation_bps=";
    DecIsNumeric(n);
    NumberField(tag, Dec(n), "deviation_bps");
  }

  lemma SourceFields(aKey: string, bKey: string)
    requires !Occurs(aKey, "deviation_bps=") && !Occurs(bKey, "deviation_bps=")
    ensures !Occurs(Field("source_a", aKey), "deviation_bps=") && !Occurs(Field("source_b", bKey), "deviation_bps=")
  {
    assert "deviation_bps" + "=" == "deviation_bps=";
    FieldFree("source_a", aKey, "deviation_bps");
    FieldFree("source_b", bKey, "deviation_bps");
  }

  lemma NormalizationWordsFree(aKey: string, a: PricePoint, bKey: string, b: PricePoint)
    requires PairFree(aKey, a, bKey, b, "deviation_bps=")
    ensures AllFree(NormalizationWords(aKey, a, bKey, b), "deviation_bps=")
  {
    hide Quote, TrimSpace, Field, Bool;
    var key, m := "deviation_bps", "deviation_bps=";
    assert key + "=" == m;
    SourceFields(aKey, bKey);
    NeedsChar("missing_decimals_for_normalization", m, 2);
    BoolField("ok_a", a.ok, key);
    BoolField("ok_b", b.ok, key);
    FieldFree("detail_a", Quote(TrimSpace(a.detail)), key);
    FieldFree("detail_b", Quote(TrimSpace(b.detail)), key);
  }

  lemma StaleWordsFree(cfg: Config, now: int, aKey: string, a: PricePoint, bKey: string, b: PricePoint)
    requires PairFree(aKey, a, bKey, b, "deviation_bps=")
    ensures AllFree(StaleWords(cfg, now, aKey, a, bKey, b), "deviation_bps=")
  {
    hide Quote, TrimSpace, Field, Dec;
    SourceFields(aKey, bKey);
    DecField("age_ms", now - a.tsMS);
    DecField("age_ms", now - b.tsMS);
    DecField("max_staleness_sec", Quo(cfg.maxStalenessMS, 1000));
  }

  lemma TimedSourceFree(source: string, ts: string, name: string, p: PricePoint, now: int)
    requires '=' !in ts && !EndsWith(ts, "deviation_bps") && !Occurs(Field(source, name), "deviation_bps=")
    ensures AllFree(TimedSource(source, ts, name, p, now), "deviation_bps=")
  {
    DecField(ts, p.tsMS);
    DecField("age_ms", now - p.tsMS);
  }

  lemma MismatchWordsFree(cfg: Config, now: int, aKey: string, a: PricePoint, bKey: string, b: PricePoint)
    requires PairFree(aKey, a, bKey, b, "deviation_bps=")
    ensures AllFree(MismatchWords(cfg, now, aKey, a, bKey, b), "deviation_bps=")
  {
    hide TimedSource, Quote, TrimSpace, Field;
    SourceFields(aKey, bKey);
    TimedSourceFree("source_a", "ts_a", aKey, a, now);
    TimedSourceFree("source_b", "ts_b", bKey, b, now);
    DecField("ts_gap_ms", Abs(a.tsMS - b.tsMS));
    DecField("align_max_gap_ms", cfg.alignMaxGapMS);
    var m, head := "deviation_bps=", ["skip", "time_mismatch"];
    var left, right := TimedSource("source_a", "ts_a", aKey, a, now), TimedSource("source_b", "ts_b", bKey, b, now);
    assert AllFree(head, m);
    AllFreeConcat(head, left, m);
    AllFreeConcat(head + left, right, m);
    AllFreeConcat(head + left + right, [Field("ts_gap_ms", Dec(Abs(a.tsMS - b.tsMS))),
                                        Field("align_max_gap_ms", Dec(cfg.alignMaxGapMS))], m);
  }

  lemma MissingWordsFree(missing: seq<string>)
    requires 1 <= |missing| <= 2 && AllFree(missing, "deviation_bps=")
    ensures AllFree(MissingWords(missing), "deviation_bps=")
  {
    var m := "deviation_bps=";
    CommasFree(missing, m);
    assert "deviation_bps" + "=" == m;
    FieldFree("missing_source", Commas(missing), "deviation_bps");
    ShortFree("skip", m);
  }

  /** On every other decision there is no deviation to parse. */
  lemma NoDeviationWithoutComparison(cfg: Config, now: int, sources: Sources)
    requires !Judge(cfg, now, sources).Compared? && MarkerFree(cfg, sources, "deviation_bps=")
    ensures ParseInt64After(Evaluate(cfg, now, sources).reason, "deviation_bps=") == None
  {
    var aKey, bKey, m := TrimSpace(cfg.sourceA), TrimSpace(cfg.sourceB), "deviation_bps=";
    var outcome, words := Judge(cfg, now, sources), Words(cfg, now, sources);
    ForeignFree(cfg, sources, m);
    hide TrimSpace, Quote, Join, ParseInt64After, MissingWords, NormalizationWords, StaleWords, MismatchWords, Occurs;
    assert AllFree(words, m) by {
      match outcome {
        case Disabled => assert words == ["rule", "disabled"];
        case SkipMissing(missing) => MissingWordsFree(missing);
        case SkipNormalization => NormalizationWordsFree(aKey, sources[aKey], bKey, sources[bKey]);
        case SkipStale => StaleWordsFree(cfg, now, aKey, sources[aKey], bKey, sources[bKey]);
        case SkipTimeMismatch => MismatchWordsFree(cfg, now, aKey, sources[aKey], bKey, sources[bKey]);
      }
    }
    NothingParsed(words, m);
  }

  /** A word without `=` occurs in a field exactly if it occurs in the tag or in the value. */
  lemma FieldHolds(tag: string, value: string, w: string)
    requires w != "" && '=' !in w
    ensures Occurs(Field(tag, value), w) <==> Occurs(tag, w) || Occurs(value, w)
  {
    assert Field(tag, value) == tag + ['='] + value;
    OccursSplit(tag, '=', value, w);
  }

  lemma NumberFieldFree(tag: string, n: int, w: string)
    requires w in {"missing_source", "missing_decimals_for_normalization", "time_mismatch"}
    requires |tag| < 13 || (tag == "max_staleness_sec" || tag == "align_max_gap_ms")
    ensures !Occurs(Field(tag, Dec(n)), w)
  {
    DecIsNumeric(n);
    NumericFree(Dec(n), w);
    FieldHolds(tag, Dec(n), w);
    if tag == "max_staleness_sec" {
      assert "missing_source"[1] == "missing_decimals_for_normalization"[1] == "time_mismatch"[1] == 'i';
      assert 'i' !in "max_staleness_sec";
      NeedsChar(tag, w, 1);
    } else if tag == "align_max_gap_ms" {
      if w == "missing_source" {
        NeedsChar(tag, w, 9);
      } else if w == "time_mismatch" {
        NeedsChar(tag, w, 0);
      }
    }
  }

  const KIND_WORDS := {"missing_source", "missing_decimals_for_normalization", "time_mismatch", "stale_source"}

  /** A kind word is found in the trimmed reason exactly if one of the printed words holds it. */
  lemma KindWordFound(words: seq<string>, w: string)
    requires w in KIND_WORDS
    ensures Contains(TrimSpace(Join(words)), w) <==> exists i :: 0 <= i < |words| && Occurs(words[i], w)
  {
    KindWordsAreSolid(w);
    TrimKeepsWords(Join(words), w);
    OccursInJoin(words, w);
  }

  lemma KindWordsAreSolid(w: string)
    requires w in KIND_WORDS
    ensures w != "" && ' ' !in w && forall c :: c in w ==> !IsSpace(c)
  {
    forall i | 0 <= i < |w| ensures 'a' <= w[i] <= 'z' || w[i] == '_' {
    }
  }

  /** One of the printed words holds w. */
  ghost predicate SomeHolds(words: seq<string>, w: string) {
    exists i :: 0 <= i < |words| && Occurs(words[i], w)
  }

  lemma HoldsConcat(x: seq<string>, y: seq<string>, w: string)
    ensures SomeHolds(x + y, w) <==> SomeHolds(x, w) || SomeHolds(y, w)
  {
    if SomeHolds(x, w) {
      var i :| 0 <= i < |x| && Occurs(x[i], w);
      assert (x + y)[i] == x[i];
    }
    if SomeHolds(y, w) {
      var i :| 0 <= i < |y| && Occurs(y[i], w);
      assert (x + y)[|x| + i] == y[i];
    }
  }

  lemma SourceFieldHolds(aKey: string, bKey: string, w: string)
    requires w in KIND_WORDS
    ensures Occurs(Field("source_a", aKey), w) <==> Occurs(aKey, w)
    ensures Occurs(Field("source_b", bKey), w) <==> Occurs(bKey, w)
  {
    FieldHolds("source_a", aKey, w);
    FieldHolds("source_b", bKey, w);
  }

  lemma MissingKind(missing: seq<string>)
    ensures SkipReasonKind(Join(MissingWords(missing))) == MissingSourceSkip
  {
    var words := MissingWords(missing);
    KindWordFound(words, "missing_source");
    assert OccursAt(words[1], "missing_source", 0);
  }

  lemma OkFieldFree(tag: string, ok: bool, w: string)
    requires |tag| < 13 && w == "missing_source"
    ensures !Occurs(Field(tag, Bool(ok)), w)
  {
    ShortFree(Bool(ok), w);
    FieldHolds(tag, Bool(ok), w);
  }

  lemma NormalizationHolds(aKey: string, a: PricePoint, bKey: string, b: PricePoint, w: string)
    requires w == "missing_source"
    ensures SomeHolds(NormalizationWords(aKey, a, bKey, b), w) <==>
            Occurs(aKey, w) || Occurs(bKey, w) || Occurs(Quote(TrimSpace(a.detail)), w)
                || Occurs(Quote(TrimSpace(b.detail)), w)
  {
    var words := NormalizationWords(aKey, a, bKey, b);
    SourceFieldHolds(aKey, bKey, w);
    FieldHolds("detail_a", Quote(TrimSpace(a.detail)), w);
    FieldHolds("detail_b", Quote(TrimSpace(b.detail)), w);
    OkFieldFree("ok_a", a.ok, w);
    OkFieldFree("ok_b", b.ok, w);
    NeedsChar("missing_decimals_for_normalization", w, 10);
    hide Field, Quote, TrimSpace, Bool, Occurs;
    ShortFree("skip", w);
    assert |words| == 8;
    assert Occurs(words[2], w) || Occurs(words[5], w) || Occurs(words[4], w) || Occurs(words[7], w) ==>
        SomeHolds(words, w);
  }

  lemma NormalizationKind(aKey: string, a: PricePoint, bKey: string, b: PricePoint)
    ensures var w := "missing_source";
            SkipReasonKind(Join(NormalizationWords(aKey, a, bKey, b))) ==
            if Occurs(aKey, w) || Occurs(bKey, w) || Occurs(Quote(TrimSpace(a.detail)), w)
                || Occurs(Quote(TrimSpace(b.detail)), w)
            then MissingSourceSkip else MissingDecimalsSkip
  {
    var words := NormalizationWords(aKey, a, bKey, b);
    NormalizationHolds(aKey, a, bKey, b, "missing_source");
    KindWordFound(words, "missing_source");
    KindWordFound(words, "missing_decimals_for_normalization");
    assert OccursAt(words[1], "missing_decimals_for_normalization", 0);
  }

  predicate EitherHolds(aKey: string, bKey: string, w: string) {
    Occurs(aKey, w) || Occurs(bKey, w)
  }

  lemma TimedSourceHolds(source: string, ts: string, name: string, p: PricePoint, now: int, w: string)
    requires w in {"missing_source", "missing_decimals_for_normalization"} && |ts| < 13
    ensures SomeHolds(TimedSource(source, ts, name, p, now), w) <==> Occurs(Field(source, name), w)
  {
    hide Field, Dec, Occurs;
    NumberFieldFree(ts, p.tsMS, w);
    NumberFieldFree("age_ms", now - p.tsMS, w);
    var words := TimedSource(source, ts, name, p, now);
    assert words[0] == Field(source, name);
  }

  lemma MismatchHolds(cfg: Config, now: int, aKey: string, a: PricePoint, bKey: string, b: PricePoint, w: string)
    requires w in {"missing_source", "missing_decimals_for_normalization"}
    ensures SomeHolds(MismatchWords(cfg, now, aKey, a, bKey, b), w) <==> EitherHolds(aKey, bKey, w)
  {
    hide Field, TimedSource, Dec, Occurs;
    SourceFieldHolds(aKey, bKey, w);
    TimedSourceHolds("source_a", "ts_a", aKey, a, now, w);
    TimedSourceHolds("source_b", "ts_b", bKey, b, now, w);
    NumberFieldFree("ts_gap_ms", Abs(a.tsMS - b.tsMS), w);
    NumberFieldFree("align_max_gap_ms", cfg.alignMaxGapMS, w);
    ShortFree("skip", w);
    ShortFree("time_mismatch", w);
    var head, tail := ["skip", "time_mismatch"],
        [Field("ts_gap_ms", Dec(Abs(a.tsMS - b.tsMS))), Field("align_max_gap_ms", Dec(cfg.alignMaxGapMS))];
    var left, right := TimedSource("source_a", "ts_a", aKey, a, now), TimedSource("source_b", "ts_b", bKey, b, now);
    assert !SomeHolds(head, w) && !SomeHolds(tail, w);
    HoldsConcat(head, left, w);
    HoldsConcat(head + left, right, w);
    HoldsConcat(head + left + right, tail, w);
  }

  lemma MismatchKind(cfg: Config, now: int, aKey: string, a: PricePoint, bKey: string, b: PricePoint)
    ensures SkipReasonKind(Join(MismatchWords(cfg, now, aKey, a, bKey, b))) ==
            if EitherHolds(aKey, bKey, "missing_source") then MissingSourceSkip
            else if EitherHolds(aKey, bKey, "missing_decimals_for_normalization") then MissingDecimalsSkip
            else TimeMismatchSkip
  {
    var words := MismatchWords(cfg, now, aKey, a, bKey, b);
    MismatchHolds(cfg, now, aKey, a, bKey, b, "missing_source");
    MismatchHolds(cfg, now, aKey, a, bKey, b, "missing_decimals_for_normalization");
    KindWordFound(words, "missing_source");
    KindWordFound(words, "missing_decimals_for_normalization");
    KindWordFound(words, "time_mismatch");
    assert OccursAt(words[1], "time_mismatch", 0);
  }

  lemma StaleHolds(cfg: Config, now: int, aKey: string, a: PricePoint, bKey: string, b: PricePoint, w: string)
    requires w in {"missing_source", "missing_decimals_for_normalization", "time_mismatch"}
    ensures SomeHolds(StaleWords(cfg, now, aKey, a, bKey, b), w) <==> EitherHolds(aKey, bKey, w)
  {
    hide Field, Dec, Occurs;
    SourceFieldHolds(aKey, bKey, w);
    NumberFieldFree("age_ms", now - a.tsMS, w);
    NumberFieldFree("age_ms", now - b.tsMS, w);
    NumberFieldFree("max_staleness_sec", Quo(cfg.maxStalenessMS, 1000), w);
    StaleWordFree(w);
    ShortFree("skip", w);
    var words := StaleWords(cfg, now, aKey, a, bKey, b);
    assert words[2] == Field("source_a", aKey) && words[4] == Field("source_b", bKey);
  }

  lemma StaleWordFree(w: string)
    requires w in {"missing_source", "missing_decimals_for_normalization", "time_mismatch"}
    ensures !Occurs("stale_source", w)
  {
    if w == "missing_source" {
      NeedsChar("stale_source", w, 0);
    }
  }

  lemma StaleKind(cfg: Config, now: int, aKey: string, a: PricePoint, bKey: string, b: PricePoint)
    ensures SkipReasonKind(Join(StaleWords(cfg, now, aKey, a, bKey, b))) ==
            if EitherHolds(aKey, bKey, "missing_source") then MissingSourceSkip
            else if EitherHolds(aKey, bKey, "missing_decimals_for_normalization") then MissingDecimalsSkip
            else if EitherHolds(aKey, bKey, "time_mismatch") then TimeMismatchSkip
            else StaleSourceSkip
  {
    var words := StaleWords(cfg, now, aKey, a, bKey, b);
    StaleHolds(cfg, now, aKey, a, bKey, b, "missing_source");
    StaleHolds(cfg, now, aKey, a, bKey, b, "missing_decimals_for_normalization");
    StaleHolds(cfg, now, aKey, a, bKey, b, "time_mismatch");
    KindWordFound(words, "missing_source");
    KindWordFound(words, "missing_decimals_for_normalization");
    KindWordFound(words, "time_mismatch");
    KindWordFound(words, "stale_source");
    assert OccursAt(words[1], "stale_source", 0);
  }

  function BranchKind(o: Outcome): SkipKind {
    match o
    case SkipMissing(_) => MissingSourceSkip
    case SkipNormalization => MissingDecimalsSkip
    case SkipTimeMismatch => TimeMismatchSkip
    case SkipStale => StaleSourceSkip
    case _ => OtherSkip
  }

  /** The source names and, where the branch prints them, the details hold no kind word that is looked for earlier. */
  ghost predicate KindIsClear(cfg: Config, sources: Sources, o: Outcome) {
    var aKey, bKey := TrimSpace(cfg.sourceA), TrimSpace(cfg.sourceB);
    && (o.SkipNormalization? ==> MarkerFree(cfg, sources, "missing_source"))
    && (o.SkipTimeMismatch? || o.SkipStale? ==>
          !EitherHolds(aKey, bKey, "missing_source") && !EitherHolds(aKey, bKey, "missing_decimals_for_normalization"))
    && (o.SkipStale? ==> !EitherHolds(aKey, bKey, "time_mismatch"))
  }

  /**
   The skip kind that the statistics count is the branch that the rule took, if and only if no printed name or detail
   gets in the way.
   */
  lemma SkipKindReadBack(cfg: Config, now: int, sources: Sources)
    requires Judge(cfg, now, sources).Skips()
    ensures var o := Judge(cfg, now, sources);
            SkipReasonKind(Evaluate(cfg, now, sources).reason) == BranchKind(o) <==> KindIsClear(cfg, sources, o)
  {
    var aKey, bKey := TrimSpace(cfg.sourceA), TrimSpace(cfg.sourceB);
    match Judge(cfg, now, sources) {
      case SkipMissing(missing) => MissingKind(missing);
      case SkipNormalization =>
        NormalizationKind(aKey, sources[aKey], bKey, sources[bKey]);
        ForeignExactly(cfg, sources, "missing_source");
      case SkipTimeMismatch => MismatchKind(cfg, now, aKey, sources[aKey], bKey, sources[bKey]);
      case SkipStale => StaleKind(cfg, now, aKey, sources[aKey], bKey, sources[bKey]);
    }
  }

  lemma ForeignExactly(cfg: Config, sources: Sources, m: string)
    requires TrimSpace(cfg.sourceA) in sources && TrimSpace(cfg.sourceB) in sources
    ensures var aKey, bKey := TrimSpace(cfg.sourceA), TrimSpace(cfg.sourceB);
            MarkerFree(cfg, sources, m) <==> PairFree(aKey, sources[aKey], bKey, sources[bKey], m)
  {
    if MarkerFree(cfg, sources, m) {
      ForeignFree(cfg, sources, m);
    }
  }

  lemma {:induction false} JoinHead(words: seq<string>)
    requires words != []
    ensures words[0] <= Join(words)
  {
    if |words| > 1 {
      JoinHead(words[..|words| - 1]);
    }
  }

  lemma HeadSurvivesTrim(words: seq<string>)
    requires words != [] && words[0] != "" && !IsSpace(words[0][0]) && !IsSpace(words[0][|words[0]| - 1])
    ensures words[0] <= TrimSpace(Join(words))
  {
    JoinHead(words);
    var s, n := Join(words), |words[0]|;
    assert s[0] == words[0][0] && s[n - 1] == words[0][n - 1];
    TrimRightKeepsHead(s, n);
    assert TrimSpace(s)[..n] == s[..n];
  }

  lemma SkipByFirstWord(words: seq<string>)
    requires words != [] && words[0] in {"skip", "rule", "price", "ok"}
    ensures IsSkipReason(Join(words)) <==> words[0] == "skip"
  {
    HeadSurvivesTrim(words);
    assert TrimSpace(Join(words))[0] == words[0][0];
  }

  lemma FirstWord(cfg: Config, now: int, sources: Sources)
    ensures var words := Words(cfg, now, sources);
            words != [] && words[0] in {"skip", "rule", "price", "ok"} &&
            (words[0] == "skip" <==> Judge(cfg, now, sources).Skips())
  {
  }

  /**
   A decision of the price rule counts as a skip exactly when the rule did skip, whatever the names and details hold.
   */
  lemma SkipReadBack(cfg: Config, now: int, sources: Sources)
    ensures IsSkipReason(Evaluate(cfg, now, sources).reason) <==> Judge(cfg, now, sources).Skips()
  {
    FirstWord(cfg, now, sources);
    SkipByFirstWord(Words(cfg, now, sources));
  }
}
