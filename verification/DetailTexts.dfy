/**
 The detail texts of the two normalisers, and why they never get in the way of the parsers: no marker and no kind
 word that the parsers look for occurs in them by accident (internal/riskcontrol/price_normalization.go).
 */
module DetailTexts {
  import opened Text
  import opened Reasons
  import opened PriceNormalization
  import PriceDivergence

  /** Go's `%g` of a finite number: digits, a sign, a point and an exponent. */
  predicate IsFloatText(s: string) {
    forall c :: c in s ==> IsDigit(c) || c in ".e+-"
  }

  function CandidateName(v: Variant): string {
    match v
    case UniswapRaw => "uniswap_raw_token1_per_token0"
    case UniswapRawInverted => "uniswap_raw_token0_per_token1_inverted"
    case TickHuman => "tick_human_token1_per_token0"
    case TickHumanInverted => "tick_human_token0_per_token1_inverted"
    case _ => ""
  }

  function ScaleText(dec0: int, dec1: int, scale: string): string {
    "10^(" + Dec(dec0) + "-" + Dec(dec1) + ")=" + scale
  }

  /** What the normalisers print for each outcome; `scale` and `score` are the printed floating-point numbers. */
  function DetailWords(v: Variant, dec0: int, dec1: int, scale: string, score: string): seq<string> {
    var head := [Field("semantics", "token1_per_token0"), Field("source", "tick")];
    match v
    case ExchangeInverted => [Field("semantics", "token1_per_token0"), Field("direction_inverted", "true")]
    case UniswapRaw | UniswapRawInverted =>
      head + [Field("variant", "uniswap_raw"), Field("dec0", Dec(dec0)), Field("dec1", Dec(dec1)),
              Field("scale", ScaleText(dec0, dec1, scale)), Field("direction_inverted", Bool(v.UniswapRawInverted?))]
    case TickHuman | TickHumanInverted =>
      head + [Field("variant", "tick_human"), Field("direction_inverted", Bool(v.TickHumanInverted?)),
              Field("dec0", Dec(dec0)), Field("dec1", Dec(dec1)), Field("decimals_ignored", "true")]
    case MissingPrice => ["missing_price_for_normalization"]
    case MissingDecimals => ["missing_decimals_for_normalization"]
    case InvalidTick => ["invalid_tick_for_normalization"]
    case NoValidCandidate => ["no_valid_candidate_for_normalization"]
    case TooFar(best) => ["missing_decimals_for_normalization", Field("best_candidate", CandidateName(best)),
                          Field("best_score", score)]
  }

  function DetailText(v: Variant, dec0: int, dec1: int, scale: string, score: string): string {
    Join(DetailWords(v, dec0, dec1, scale, score))
  }

  // ---------------------------------------------------------------- words without a marker

  /** Free of the two numeric markers and of the kind word that is looked for first. */
  ghost predicate Clean(s: string) {
    && !Occurs(s, "missing_source")
    && !Occurs(s, "deviation_bps=")
    && !Occurs(s, "threshold_bps=")
  }

  lemma MarkersHaveCharTen()
    ensures "missing_source"[10] == 'u' && "deviation_bps="[10] == 'b' && "threshold_bps="[10] == 'b'
  {
  }

  /** Without a b and a u no marker fits. */
  lemma CleanByLetters(s: string)
    requires 'b' !in s && 'u' !in s
    ensures Clean(s)
  {
    MarkersHaveCharTen();
    NeedsChar(s, "missing_source", 10);
    NeedsChar(s, "deviation_bps=", 10);
    NeedsChar(s, "threshold_bps=", 10);
  }

  lemma CleanBySize(s: string)
    requires |s| < 14
    ensures Clean(s)
  {
    ShortFree(s, "missing_source");
    ShortFree(s, "deviation_bps=");
    ShortFree(s, "threshold_bps=");
  }

  lemma CleanField(tag: string, value: string)
    requires Clean(tag) && Clean(value) && '=' !in tag && !EndsWith(tag, "deviation_bps")
             && !EndsWith(tag, "threshold_bps")
    ensures Clean(Field(tag, value))
  {
    assert "deviation_bps" + "=" == "deviation_bps=" && "threshold_bps" + "=" == "threshold_bps=";
    FieldFree(tag, value, "deviation_bps");
    FieldFree(tag, value, "threshold_bps");
    PriceDivergence.FieldHolds(tag, value, "missing_source");
  }

  ghost predicate AllClean(words: seq<string>) {
    forall i :: 0 <= i < |words| ==> Clean(words[i])
  }

  lemma CleanJoin(words: seq<string>)
    requires AllClean(words)
    ensures Clean(Join(words))
  {
    OccursInJoin(words, "missing_source");
    OccursInJoin(words, "deviation_bps=");
    OccursInJoin(words, "threshold_bps=");
  }

  // ---------------------------------------------------------------- words that quoting leaves alone

  predicate IsPlainChar(c: char) {
    c !in "\"\\\n\r\t"
  }

  predicate Plain(s: string) {
    forall c :: c in s ==> IsPlainChar(c)
  }

  lemma {:induction false} EscapedPlain(s: string)
    requires Plain(s)
    ensures PriceDivergence.Escaped(s) == s
  {
    if s != "" {
      assert s[0] in s;
      EscapedPlain(s[1..]);
    }
  }

  ghost predicate AllPlain(words: seq<string>) {
    forall i :: 0 <= i < |words| ==> Plain(words[i])
  }

  lemma {:induction false} PlainJoin(words: seq<string>)
    requires AllPlain(words)
    ensures Plain(Join(words))
  {
    if |words| > 1 {
      PlainJoin(words[..|words| - 1]);
    }
  }

  lemma {:induction false} PlainTrimLeft(s: string)
    requires Plain(s)
    ensures Plain(TrimLeft(s))
  {
    if s != [] && IsSpace(s[0]) {
      PlainTrimLeft(s[1..]);
    }
  }

  lemma {:induction false} PlainTrimRight(s: string)
    requires Plain(s)
    ensures Plain(TrimRight(s))
  {
    if s != [] && IsSpace(s[|s| - 1]) {
      PlainTrimRight(s[..|s| - 1]);
    }
  }

  /** Trimming and quoting a plain text adds no marker. */
  lemma QuotedHolds(s: string, m: string)
    requires Plain(s) && m != "" && '"' !in m && forall c :: c in m ==> !IsSpace(c)
    ensures Occurs(PriceDivergence.Quote(TrimSpace(s)), m) <==> Occurs(s, m)
  {
    var t := TrimSpace(s);
    PlainTrimLeft(s);
    PlainTrimRight(TrimLeft(s));
    EscapedPlain(t);
    TrimKeepsWords(s, m);
    assert PriceDivergence.Quote(t) == "" + ['"'] + (t + ['"'] + "");
    OccursSplit("", '"', t + ['"'] + "", m);
    OccursSplit(t, '"', "", m);
    ShortFree("", m);
  }

  lemma MarkerIsSolid(m: string)
    requires m in {"missing_source", "deviation_bps=", "threshold_bps="}
    ensures m != "" && '"' !in m && forall c :: c in m ==> !IsSpace(c)
  {
    forall i | 0 <= i < |m| ensures 'a' <= m[i] <= 'z' || m[i] == '_' || m[i] == '=' {
    }
  }

  lemma QuotedClean(s: string)
    requires Plain(s) && Clean(s)
    ensures Clean(PriceDivergence.Quote(TrimSpace(s)))
  {
    hide Occurs, PriceDivergence.Quote, TrimSpace, Plain;
    MarkerIsSolid("missing_source");
    MarkerIsSolid("deviation_bps=");
    MarkerIsSolid("threshold_bps=");
    QuotedHolds(s, "missing_source");
    QuotedHolds(s, "deviation_bps=");
    QuotedHolds(s, "threshold_bps=");
  }

  // ---------------------------------------------------------------- the normalisers' own texts

  /** A word that may be printed. */
  ghost predicate Fine(s: string) {
    Plain(s) && Clean(s)
  }

  lemma FineNumber(s: string)
    requires IsFloatText(s) || Numeric(s)
    ensures Fine(s)
  {
    CleanByLetters(s);
  }

  /** Lower-case letters, digits and underscores. */
  predicate Word(s: string) {
    forall i :: 0 <= i < |s| ==> 'a' <= s[i] <= 'z' || IsDigit(s[i]) || s[i] == '_'
  }

  lemma FineWord(s: string)
    requires Word(s) && (|s| < 14 || 'u' !in s || 'g' !in s)
    ensures Fine(s) && '=' !in s
  {
    if |s| < 14 {
      CleanBySize(s);
    } else {
      MarkersEnd();
      NeedsChar(s, "deviation_bps=", 13);
      NeedsChar(s, "threshold_bps=", 13);
      if 'u' !in s {
        NeedsChar(s, "missing_source", 10);
      } else {
        NeedsChar(s, "missing_source", 6);
      }
    }
  }

  lemma MarkersEnd()
    ensures "deviation_bps="[13] == '=' && "threshold_bps="[13] == '='
    ensures "missing_source"[10] == 'u' && "missing_source"[6] == 'g'
    ensures "deviation_bps"[12] == "threshold_bps"[12] == 's'
  {
  }

  lemma FineField(tag: string, value: string)
    requires Word(tag) && (|tag| < 13 || ('u' !in tag && tag[|tag| - 1] != 's')) && Fine(value)
    ensures Fine(Field(tag, value))
  {
    hide Clean;
    FineWord(tag);
    MarkersEnd();
    CleanField(tag, value);
  }

  lemma FineRaw()
    ensures Fine("uniswap_raw_token1_per_token0")
  {
    hide Fine;
    FineWord("uniswap_raw_token1_per_token0");
  }

  lemma FineRawInverted()
    ensures Fine("uniswap_raw_token0_per_token1_inverted")
  {
    hide Fine;
    FineWord("uniswap_raw_token0_per_token1_inverted");
  }

  lemma FineHuman()
    ensures Fine("tick_human_token1_per_token0")
  {
    hide Fine;
    FineWord("tick_human_token1_per_token0");
  }

  lemma FineHumanInverted()
    ensures Fine("tick_human_token0_per_token1_inverted")
  {
    hide Fine;
    FineWord("tick_human_token0_per_token1_inverted");
  }

  lemma FineCandidate(v: Variant)
    ensures Fine(CandidateName(v))
  {
    hide Fine;
    FineRaw();
    FineRawInverted();
    FineHuman();
    FineHumanInverted();
    FineWord("");
  }

  lemma FineScale(dec0: int, dec1: int, scale: string)
    requires IsFloatText(scale)
    ensures Fine(ScaleText(dec0, dec1, scale))
  {
    DecIsNumeric(dec0);
    DecIsNumeric(dec1);
    hide Dec;
    var s := ScaleText(dec0, dec1, scale);
    forall c | c in s ensures IsDigit(c) || c in "10^(-)=.e+" {
    }
    CleanByLetters(s);
  }

  lemma FineDecimals(dec0: int, dec1: int)
    ensures Fine(Field("dec0", Dec(dec0))) && Fine(Field("dec1", Dec(dec1)))
  {
    hide Fine;
    DecIsNumeric(dec0);
    DecIsNumeric(dec1);
    FineNumber(Dec(dec0));
    FineNumber(Dec(dec1));
    FineField("dec0", Dec(dec0));
    FineField("dec1", Dec(dec1));
  }

  lemma FineFlag(tag: string, b: bool)
    requires tag in {"direction_inverted", "decimals_ignored"}
    ensures Fine(Field(tag, Bool(b)))
  {
    hide Fine;
    FineWord(Bool(b));
    FineField(tag, Bool(b));
  }

  lemma FineHead()
    ensures Fine(Field("semantics", "token1_per_token0")) && Fine(Field("source", "tick"))
    ensures Fine(Field("variant", "uniswap_raw")) && Fine(Field("variant", "tick_human"))
  {
    hide Fine;
    FineWord("token1_per_token0");
    FineField("semantics", "token1_per_token0");
    FineWord("tick");
    FineField("source", "tick");
    FineWord("uniswap_raw");
    FineField("variant", "uniswap_raw");
    FineWord("tick_human");
    FineField("variant", "tick_human");
  }

  lemma FineMissingPrice()
    ensures Fine("missing_price_for_normalization")
  {
    hide Fine;
    FineWord("missing_price_for_normalization");
  }

  lemma FineMissingDecimals()
    ensures Fine("missing_decimals_for_normalization")
  {
    hide Fine;
    FineWord("missing_decimals_for_normalization");
  }

  lemma FineInvalidTick()
    ensures Fine("invalid_tick_for_normalization")
  {
    hide Fine;
    FineWord("invalid_tick_for_normalization");
  }

  lemma FineNoCandidate()
    ensures Fine("no_valid_candidate_for_normalization")
  {
    hide Fine;
    FineWord("no_valid_candidate_for_normalization");
  }

  lemma FineBest(v: Variant, score: string)
    requires IsFloatText(score)
    ensures Fine(Field("best_candidate", CandidateName(v))) && Fine(Field("best_score", score))
  {
    hide Fine, CandidateName;
    FineCandidate(v);
    FineField("best_candidate", CandidateName(v));
    FineNumber(score);
    FineField("best_score", score);
  }

  ghost predicate AllFine(words: seq<string>) {
    forall i :: 0 <= i < |words| ==> Fine(words[i])
  }

  lemma DetailWordsAreFine(v: Variant, dec0: int, dec1: int, scale: string, score: string)
    requires IsFloatText(scale) && IsFloatText(score)
    ensures AllFine(DetailWords(v, dec0, dec1, scale, score))
  {
    hide Fine, Field, Dec, Bool, ScaleText, IsFloatText, CandidateName;
    FineHead();
    FineDecimals(dec0, dec1);
    FineScale(dec0, dec1, scale);
    FineField("scale", ScaleText(dec0, dec1, scale));
    FineFlag("direction_inverted", true);
    FineFlag("direction_inverted", v.UniswapRawInverted?);
    FineFlag("direction_inverted", v.TickHumanInverted?);
    FineFlag("decimals_ignored", true);
    FineMissingPrice();
    FineMissingDecimals();
    FineInvalidTick();
    FineNoCandidate();
    FineBest(if v.TooFar? then v.best else v, score);
    assert Bool(true) == "true" by {
      BoolText();
    }
  }

  lemma BoolText()
    ensures Bool(true) == "true"
  {
  }

  /** Quoted by the price rule, no detail of either normaliser holds a numeric marker or the first kind word. */
  lemma DetailsAreClean(v: Variant, dec0: int, dec1: int, scale: string, score: string)
    requires IsFloatText(scale) && IsFloatText(score)
    ensures Clean(PriceDivergence.Quote(TrimSpace(DetailText(v, dec0, dec1, scale, score))))
  {
    hide Clean, Plain, DetailWords;
    DetailWordsAreFine(v, dec0, dec1, scale, score);
    var words := DetailWords(v, dec0, dec1, scale, score);
    FineMeans(words);
    CleanJoin(words);
    PlainJoin(words);
    QuotedClean(Join(words));
  }

  lemma FineMeans(words: seq<string>)
    ensures AllFine(words) ==>
              AllClean(words) && AllPlain(words)
  {
    hide Clean, Plain;
  }
}
