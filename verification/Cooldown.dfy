/**
 The cooldown and frequency gate of one key over the file-backed state
 (internal/riskcontrol/rule_cooldown_frequency.go, CooldownKey in state_store.go).
 */
module Cooldown {
  import opened Basics
  import opened Text
  import opened Reasons
  import opened RiskTypes
  import opened StateStore

  datatype Config = Config(enabled: bool, minIntervalMS: int, failureThreshold: int, cooldownForMS: int)

  /** The constructor's defaults for values that are not positive. */
  function WithDefaults(cfg: Config): Config {
    Config(cfg.enabled,
           if cfg.minIntervalMS <= 0 then 60000 else cfg.minIntervalMS,
           if cfg.failureThreshold <= 0 then 3 else cfg.failureThreshold,
           if cfg.cooldownForMS <= 0 then 300000 else cfg.cooldownForMS)
  }

  /** Positive values stand, all others become a minute, three failures and five minutes. */
  lemma DefaultsFillIn(cfg: Config)
    ensures var d := WithDefaults(cfg);
            && d.enabled == cfg.enabled
            && d.minIntervalMS > 0 && d.minIntervalMS in {cfg.minIntervalMS, 60 * 1000}
            && d.failureThreshold > 0 && d.failureThreshold in {cfg.failureThreshold, 3}
            && d.cooldownForMS > 0 && d.cooldownForMS in {cfg.cooldownForMS, 300 * 1000}
            && (cfg.minIntervalMS > 0 ==> d.minIntervalMS == cfg.minIntervalMS)
            && (cfg.failureThreshold > 0 ==> d.failureThreshold == cfg.failureThreshold)
            && (cfg.cooldownForMS > 0 ==> d.cooldownForMS == cfg.cooldownForMS)
            && WithDefaults(d) == d
  {
  }

  function CooldownKey(target: string, intentType: string, chainId: int, poolId: string): string {
    var t := if TrimSpace(target) == "" then "phoenix" else TrimSpace(target);
    t + "|" + intentType + "|" + "chain=" + Dec(chainId) +
    if TrimSpace(poolId) == "" then "" else "|" + "pool=" + TrimSpace(poolId)
  }

  // ---------------------------------------------------------------- the gate

  datatype Gate = Cooling(untilMS: int) | TooSoon(nextMS: int) | Pass

  /** What the gate says, given the state in force. */
  function Decide(cfg: Config, s: Persisted, key: string, now: int): Gate {
    var until, last := Get(s.cooldownUntilMS, key), Get(s.lastIntentMS, key);
    if until > 0 && now < until then Cooling(until)
    else if last > 0 && cfg.minIntervalMS > 0 && 0 <= now - last < cfg.minIntervalMS then
      TooSoon(last + cfg.minIntervalMS)
    else Pass
  }

  function CoolingWords(cfg: Config, key: string, until: int, now: int, fails: int): seq<string> {
    ["cooldown", "active", Field("cooldown_key", key), Field("remaining_ms", Dec(until - now)),
     Field("cooldown_until_ts_ms", Dec(until)), Field("failure_count", Dec(fails)),
     Field("threshold", Dec(cfg.failureThreshold))]
  }

  function TooSoonWords(cfg: Config, key: string, next: int, now: int): seq<string> {
    ["min", "interval", "violation", Field("cooldown_key", key), Field("remaining_ms", Dec(next - now)),
     Field("min_interval_sec", Dec(Quo(cfg.minIntervalMS, 1000))), Field("next_allowed_ts_ms", Dec(next))]
  }

  /** The reason that goes with a verdict of the gate. */
  function Reason(cfg: Config, s: Persisted, key: string, now: int): string {
    match Decide(cfg, s, key, now)
    case Cooling(until) => Join(CoolingWords(cfg, key, until, now, Get(s.fails, key)))
    case TooSoon(next) => Join(TooSoonWords(cfg, key, next, now))
    case Pass => Join(["ok", Field("cooldown_key", key)])
  }

  /** The single write that each verdict leads to. */
  function Note(cfg: Config, s: Persisted, key: string, now: int): Mutation {
    if Decide(cfg, s, key, now).Pass? then SetLastIntent(key, now) else SetRejectReason(key, Reason(cfg, s, key, now))
  }

  function DecisionOf(cfg: Config, s: Persisted, key: string, now: int): RiskDecision {
    RiskDecision(if Decide(cfg, s, key, now).Pass? then Approve else Reject,
                 COOLDOWN_RULE_ID, Reason(cfg, s, key, now), None)
  }

  /** How the four loads of one evaluation turn out; the last one taken also carries the save. */
  datatype Ios = Ios(first: Io, second: Io, third: Io, fourth: Io)

  /**
   One evaluation with all its loads: the cooldown, the failure count and the last intent are each read after a
   load of their own, and the write loads once more.
   */
  function Evaluated(cfg: Config, w: World, key: string, now: int, ios: Ios): (RiskDecision, World) {
    if !cfg.enabled then (RiskDecision(Approve, COOLDOWN_RULE_ID, "rule disabled", None), w)
    else
      var w1 := Load(w, ios.first);
      var w2 := Load(w1, ios.second);
      var until, fails := Get(w1.state.cooldownUntilMS, key), Get(w2.state.fails, key);
      if until > 0 && now < until then
        var reason := Join(CoolingWords(cfg, key, until, now, fails));
        (RiskDecision(Reject, COOLDOWN_RULE_ID, reason, None),
         Operate(w2, SetRejectReason(key, reason), now, ios.third))
      else
        var w3 := Load(w2, ios.third);
        var last := Get(w3.state.lastIntentMS, key);
        if last > 0 && cfg.minIntervalMS > 0 && 0 <= now - last < cfg.minIntervalMS then
          var reason := Join(TooSoonWords(cfg, key, last + cfg.minIntervalMS, now));
          (RiskDecision(Reject, COOLDOWN_RULE_ID, reason, None),
           Operate(w3, SetRejectReason(key, reason), now, ios.fourth))
        else
          (RiskDecision(Approve, COOLDOWN_RULE_ID, Join(["ok", Field("cooldown_key", key)]), None),
           Operate(w3, SetLastIntent(key, now), now, ios.fourth))
  }

  class CooldownAndFrequencyRule {
    const store: RiskStateStore
    const cfg: Config
    var lastMatchKey: string
    var lastUntilMS: int

    constructor (store: RiskStateStore, cfg: Config)
      ensures this.store == store && this.cfg == WithDefaults(cfg)
      ensures lastMatchKey == "" && lastUntilMS == 0
    {
      this.store, this.cfg := store, WithDefaults(cfg);
      lastMatchKey, lastUntilMS := "", 0;
    }

    /** With a store that is in sync, the recorded match is the rejecting key and the time its rejection ends. */
    method Evaluate(key: string, now: int, ios: Ios) returns (d: RiskDecision)
      modifies this, store, store.disk
      ensures (d, store.Current()) == Evaluated(cfg, old(store.Current()), key, now, ios)
      ensures !cfg.enabled ==> lastMatchKey == old(lastMatchKey) && lastUntilMS == old(lastUntilMS)
      ensures cfg.enabled && d.verdict == Approve ==> lastMatchKey == "" && lastUntilMS == 0
      ensures d.verdict == Reject ==> lastMatchKey == key && now < lastUntilMS
      ensures cfg.enabled && InSync(old(store.Current())) ==>
                match Decide(cfg, old(store.state), key, now)
                case Cooling(until) => (lastMatchKey, lastUntilMS) == (key, until)
                case TooSoon(next) => (lastMatchKey, lastUntilMS) == (key, next)
                case Pass => (lastMatchKey, lastUntilMS) == ("", 0)
    {
      hide CoolingWords, TooSoonWords, Join, Field;
      if !cfg.enabled {
        return RiskDecision(Approve, COOLDOWN_RULE_ID, "rule disabled", None);
      }
      var until := store.GetCooldownUntilMS(key, ios.first);
      var fails := store.GetConsecutiveFails(key, ios.second);
      if until > 0 && now < until {
        var reason := Join(CoolingWords(cfg, key, until, now, fails));
        var _ := store.SetLastRejectReason(now, key, reason, ios.third);
        lastMatchKey, lastUntilMS := key, until;
        return RiskDecision(Reject, COOLDOWN_RULE_ID, reason, None);
      }
      var last := store.GetLastIntentMS(key, ios.third);
      if last > 0 && cfg.minIntervalMS > 0 {
        var elapsed := now - last;
        if elapsed >= 0 && elapsed < cfg.minIntervalMS {
          var next := last + cfg.minIntervalMS;
          var reason := Join(TooSoonWords(cfg, key, next, now));
          var _ := store.SetLastRejectReason(now, key, reason, ios.fourth);
          lastMatchKey, lastUntilMS := key, next;
          return RiskDecision(Reject, COOLDOWN_RULE_ID, reason, None);
        }
      }
      var _ := store.SetLastIntentMS(now, key, now, ios.fourth);
      lastMatchKey, lastUntilMS := "", 0;
      d := RiskDecision(Approve, COOLDOWN_RULE_ID, Join(["ok", Field("cooldown_key", key)]), None);
    }
  }

  predicate Safe(io: Io) {
    io.renamed ==> io.restatOk
  }

  /** In sync, the loads change nothing, so one evaluation is one decision and one write, whatever fails. */
  lemma EvaluatedInSync(cfg: Config, w: World, key: string, now: int, ios: Ios)
    requires cfg.enabled && InSync(w) && Safe(ios.third) && Safe(ios.fourth)
    ensures var (d, w') := Evaluated(cfg, w, key, now, ios);
            && d == DecisionOf(cfg, w.state, key, now)
            && w'.state == Mutate(w.state, Note(cfg, w.state, key, now), now).(updatedAtMS := now)
            && InSync(w')
  {
    hide CoolingWords, TooSoonWords, Join, Field;
    var note := Note(cfg, w.state, key, now);
    OperateKeeps(w, note, now, if Decide(cfg, w.state, key, now).Cooling? then ios.third else ios.fourth);
  }

  // ---------------------------------------------------------------- reading the key back

  lemma {:induction false} TokenHasNoBlank(s: string)
    ensures NoBlank(FirstToken(s))
  {
    if s != [] && !IsBlank(s[0]) {
      TokenHasNoBlank(s[1..]);
    }
  }

  lemma {:induction false} JoinLast(words: seq<string>)
    requires words != [] && words[|words| - 1] != ""
    ensures Join(words) != "" && Join(words)[|Join(words)| - 1] == words[|words| - 1][|words[|words| - 1]| - 1]
  {
  }

  /**
   What is parsed behind the marker in word i, for a text that ends in a digit: the word up to its first blank.
   So the whole key is read back exactly if it holds no blank.
   */
  lemma KeyParsedFromWords(words: seq<string>, i: nat, key: string)
    requires 0 < i < |words| - 1 && words[i] == "cooldown_key=" + key && key != "" && !IsSpace(key[0])
    requires forall j :: 0 <= j < i ==> !Occurs(words[j], "cooldown_key=")
    requires var last := words[|words| - 1]; last != "" && IsDigit(last[|last| - 1])
    ensures ParseStringAfter(Join(words), "cooldown_key=").Some?
    ensures ParseStringAfter(Join(words), "cooldown_key=") == Some(key) <==> NoBlank(key)
  {
    var m := "cooldown_key=";
    JoinSplit(words, i);
    JoinLast(words);
    OccursInJoin(words[..i], m);
    TailIsNotEmpty(words, i);
    Regroup(Join(words[..i]), m, key, Tail(words, i));
    KeyParsed(Join(words[..i]), m, key, Tail(words, i));
  }

  lemma KeyParsed(before: string, m: string, key: string, tail: string)
    requires m != "" && ' ' !in m && !Occurs(before, m)
    requires key != "" && !IsSpace(key[0]) && tail != "" && tail[0] == ' ' && !IsSpace(tail[|tail| - 1])
    ensures var parsed := ParseStringAfter(before + [' '] + (m + (key + tail)), m);
            parsed.Some? && (parsed == Some(key) <==> NoBlank(key))
  {
    var s, rest := before + [' '] + (m + (key + tail)), key + tail;
    FoundAfterSeparator(before, ' ', m, rest);
    assert s[|before| + 1 + |m|..] == rest;
    TokenOfText(key, tail);
  }

  lemma TokenOfText(key: string, tail: string)
    requires key != "" && !IsSpace(key[0]) && tail != "" && tail[0] == ' ' && !IsSpace(tail[|tail| - 1])
    ensures TrimSpace(key + tail) == key + tail && (FirstToken(key + tail) == key <==> NoBlank(key))
  {
    var rest := key + tail;
    assert rest[|rest| - 1] == tail[|tail| - 1];
    TokenHasNoBlank(rest);
    if NoBlank(key) {
      assert rest[..|key|] == key;
      TokenIsPrefix(rest, |key|);
    }
  }

  lemma TailIsNotEmpty(words: seq<string>, i: nat)
    requires i < |words| - 1
    ensures Tail(words, i) != ""
  {
  }

  lemma {:induction false} DecEndsInDigit(n: int)
    ensures Dec(n) != "" && IsDigit(Dec(n)[|Dec(n)| - 1])
  {
  }

  lemma CoolingKeyReadBack(cfg: Config, key: string, until: int, now: int, fails: int)
    requires key != "" && !IsSpace(key[0])
    ensures ParseStringAfter(Join(CoolingWords(cfg, key, until, now, fails)), "cooldown_key=") == Some(key) <==>
            NoBlank(key)
  {
    var words := CoolingWords(cfg, key, until, now, fails);
    assert words[2] == "cooldown_key=" + key;
    DecEndsInDigit(cfg.failureThreshold);
    KeyParsedFromWords(words, 2, key);
  }

  lemma TooSoonKeyReadBack(cfg: Config, key: string, next: int, now: int)
    requires key != "" && !IsSpace(key[0])
    ensures ParseStringAfter(Join(TooSoonWords(cfg, key, next, now)), "cooldown_key=") == Some(key) <==> NoBlank(key)
  {
    var words := TooSoonWords(cfg, key, next, now);
    assert words[3] == "cooldown_key=" + key;
    DecEndsInDigit(next);
    KeyParsedFromWords(words, 3, key);
  }

  /** The statistics recover the rejected key exactly when it holds no blank. */
  lemma RejectedKeyReadBack(cfg: Config, s: Persisted, key: string, now: int)
    requires key != "" && !IsSpace(key[0]) && !Decide(cfg, s, key, now).Pass?
    ensures ParseStringAfter(DecisionOf(cfg, s, key, now).reason, "cooldown_key=") == Some(key) <==> NoBlank(key)
  {
    match Decide(cfg, s, key, now) {
      case Cooling(until) => CoolingKeyReadBack(cfg, key, until, now, Get(s.fails, key));
      case TooSoon(next) => TooSoonKeyReadBack(cfg, key, next, now);
    }
  }

  const NUMBER_TAGS := {"remaining_ms", "cooldown_until_ts_ms", "failure_count", "threshold", "min_interval_sec",
                        "next_allowed_ts_ms"}

  ghost predicate NoTagIn(key: string) {
    forall tag :: tag in NUMBER_TAGS ==> !Occurs(key, tag + "=")
  }

  predicate IsInt64(n: int) {
    -MAX_INT64 - 1 <= n <= MAX_INT64
  }

  /**
   Every number in a rejection's reason reads back as what it stands for: the time left and the time it ends, and the
   failure count against the threshold or the interval in seconds.
   */
  lemma RejectedNumbersReadBack(cfg: Config, s: Persisted, key: string, now: int)
    requires NoTagIn(key) && IsInt64(Get(s.fails, key)) && IsInt64(cfg.failureThreshold) && IsInt64(cfg.minIntervalMS)
    ensures var reason := Reason(cfg, s, key, now);
            match Decide(cfg, s, key, now)
            case Cooling(until) =>
              IsInt64(until) && IsInt64(until - now) ==>
                && ParseInt64After(reason, "remaining_ms=") == Some(until - now)
                && ParseInt64After(reason, "cooldown_until_ts_ms=") == Some(until)
                && ParseInt64After(reason, "failure_count=") == Some(Get(s.fails, key))
                && ParseInt64After(reason, "threshold=") == Some(cfg.failureThreshold)
            case TooSoon(next) =>
              IsInt64(next) && IsInt64(next - now) ==>
                && ParseInt64After(reason, "remaining_ms=") == Some(next - now)
                && ParseInt64After(reason, "min_interval_sec=") == Some(Quo(cfg.minIntervalMS, 1000))
                && ParseInt64After(reason, "next_allowed_ts_ms=") == Some(next)
            case Pass => true
  {
    hide CoolingWords, TooSoonWords, Join, ParseInt64After, Occurs, IsInt64;
    match Decide(cfg, s, key, now) {
      case Cooling(until) =>
        if IsInt64(until) && IsInt64(until - now) {
          CoolingNumbers(cfg, key, until, now, Get(s.fails, key));
        }
      case TooSoon(next) =>
        if IsInt64(next) && IsInt64(next - now) {
          TooSoonNumbers(cfg, key, next, now);
        }
      case Pass =>
    }
  }

  /** A tagged number behind fields with other tags. */
  lemma NumberBehind(head: seq<string>, tag: string, n: int, rest: seq<string>)
    requires head != [] && AllFree(head, tag + "=") && tag in NUMBER_TAGS && IsInt64(n)
    ensures ParseInt64After(Join(head + [Field(tag, Dec(n))] + rest), tag + "=") == Some(n)
  {
    TagShape(tag);
    FieldReadBack(head, tag, n, rest);
  }

  lemma TagShape(tag: string)
    requires tag in NUMBER_TAGS
    ensures tag != "" && ' ' !in tag && '=' !in tag && 'a' <= tag[0] <= 'z' && |tag| >= 9
  {
  }

  /** The words up to the key hold none of the tags. */
  lemma KeyWordsFree(head: seq<string>, key: string, tag: string)
    requires NoTagIn(key) && tag in NUMBER_TAGS && forall i :: 0 <= i < |head| ==> |head[i]| < 10
    ensures AllFree(head + [Field("cooldown_key", key)], tag + "=")
  {
    TagShape(tag);
    assert tag[|tag| - 1] != 'y' by {
      LastOfTag(tag);
    }
    FieldFree("cooldown_key", key, tag);
    forall i | 0 <= i < |head| ensures !Occurs(head[i], tag + "=") {
      ShortFree(head[i], tag + "=");
    }
  }

  lemma LastOfTag(tag: string)
    requires tag in NUMBER_TAGS
    ensures tag != "" && tag[|tag| - 1] in "sctd" && (tag[|tag| - 1] == 'd' ==> tag == "threshold")
  {
  }

  lemma OtherNumberFree(head: seq<string>, other: string, n: int, tag: string)
    requires AllFree(head, tag + "=") && tag in NUMBER_TAGS && other in NUMBER_TAGS && !EndsWith(other, tag)
    ensures AllFree(head + [Field(other, Dec(n))], tag + "=")
  {
    TagShape(tag);
    TagShape(other);
    DecIsNumeric(n);
    NumberField(other, Dec(n), tag);
  }

  lemma CoolingSplit(cfg: Config, key: string, until: int, now: int, fails: int)
    ensures var words := CoolingWords(cfg, key, until, now, fails);
            var h3 := ["cooldown", "active"] + [Field("cooldown_key", key)];
            var h4 := h3 + [Field("remaining_ms", Dec(until - now))];
            var h5 := h4 + [Field("cooldown_until_ts_ms", Dec(until))];
            var h6 := h5 + [Field("failure_count", Dec(fails))];
            && |words| == 7
            && words == h3 + [Field("remaining_ms", Dec(until - now))] + words[4..]
            && words == h4 + [Field("cooldown_until_ts_ms", Dec(until))] + words[5..]
            && words == h5 + [Field("failure_count", Dec(fails))] + words[6..]
            && words == h6 + [Field("threshold", Dec(cfg.failureThreshold))] + []
  {
    hide Field, Dec;
  }

  lemma CoolingNumbers(cfg: Config, key: string, until: int, now: int, fails: int)
    requires NoTagIn(key) && IsInt64(until) && IsInt64(until - now) && IsInt64(fails) && IsInt64(cfg.failureThreshold)
    ensures var reason := Join(CoolingWords(cfg, key, until, now, fails));
            && ParseInt64After(reason, "remaining_ms=") == Some(until - now)
            && ParseInt64After(reason, "cooldown_until_ts_ms=") == Some(until)
            && ParseInt64After(reason, "failure_count=") == Some(fails)
            && ParseInt64After(reason, "threshold=") == Some(cfg.failureThreshold)
  {
    CoolingSplit(cfg, key, until, now, fails);
    Tags();
    hide CoolingWords, TooSoonWords, Join, ParseInt64After, Dec, Field, AllFree, NoTagIn, IsInt64, EndsWith, Quo;
    var words := CoolingWords(cfg, key, until, now, fails);
    var h2 := ["cooldown", "active"];
    var h3 := h2 + [Field("cooldown_key", key)];
    var h4 := h3 + [Field("remaining_ms", Dec(until - now))];
    var h5 := h4 + [Field("cooldown_until_ts_ms", Dec(until))];
    var h6 := h5 + [Field("failure_count", Dec(fails))];
    KeyWordsFree(h2, key, "remaining_ms");
    KeyWordsFree(h2, key, "cooldown_until_ts_ms");
    KeyWordsFree(h2, key, "failure_count");
    KeyWordsFree(h2, key, "threshold");
    OtherNumberFree(h3, "remaining_ms", until - now, "cooldown_until_ts_ms");
    OtherNumberFree(h3, "remaining_ms", until - now, "failure_count");
    OtherNumberFree(h3, "remaining_ms", until - now, "threshold");
    OtherNumberFree(h4, "cooldown_until_ts_ms", until, "failure_count");
    OtherNumberFree(h4, "cooldown_until_ts_ms", until, "threshold");
    OtherNumberFree(h5, "failure_count", fails, "threshold");
    NumberBehind(h3, "remaining_ms", until - now, words[4..]);
    NumberBehind(h4, "cooldown_until_ts_ms", until, words[5..]);
    NumberBehind(h5, "failure_count", fails, words[6..]);
    NumberBehind(h6, "threshold", cfg.failureThreshold, []);
  }

  /** No tag ends with another one, and the parsers' markers are the tags with an equals sign. */
  lemma Tags()
    ensures "remaining_ms" + "=" == "remaining_ms=" && "cooldown_until_ts_ms" + "=" == "cooldown_until_ts_ms="
    ensures "failure_count" + "=" == "failure_count=" && "threshold" + "=" == "threshold="
    ensures "min_interval_sec" + "=" == "min_interval_sec=" && "next_allowed_ts_ms" + "=" == "next_allowed_ts_ms="
    ensures !EndsWith("remaining_ms", "cooldown_until_ts_ms") && !EndsWith("remaining_ms", "failure_count")
    ensures !EndsWith("remaining_ms", "threshold") && !EndsWith("cooldown_until_ts_ms", "failure_count")
    ensures !EndsWith("cooldown_until_ts_ms", "threshold") && !EndsWith("failure_count", "threshold")
    ensures !EndsWith("remaining_ms", "min_interval_sec") && !EndsWith("remaining_ms", "next_allowed_ts_ms")
    ensures !EndsWith("min_interval_sec", "next_allowed_ts_ms")
  {
    LastOfTag("threshold");
    assert "threshold"[8] == 'd' && "failure_count"[12] == 't' && "min_interval_sec"[15] == 'c';
    assert "remaining_ms"[11] == 's' && "cooldown_until_ts_ms"[19] == 's';
  }

  lemma TooSoonSplit(cfg: Config, key: string, next: int, now: int)
    ensures var words, sec := TooSoonWords(cfg, key, next, now), Quo(cfg.minIntervalMS, 1000);
            var h4 := ["min", "interval", "violation"] + [Field("cooldown_key", key)];
            var h5 := h4 + [Field("remaining_ms", Dec(next - now))];
            var h6 := h5 + [Field("min_interval_sec", Dec(sec))];
            && |words| == 7
            && words == h4 + [Field("remaining_ms", Dec(next - now))] + words[5..]
            && words == h5 + [Field("min_interval_sec", Dec(sec))] + words[6..]
            && words == h6 + [Field("next_allowed_ts_ms", Dec(next))] + []
  {
    hide Field, Dec, Quo;
  }

  lemma TooSoonNumbers(cfg: Config, key: string, next: int, now: int)
    requires NoTagIn(key) && IsInt64(next) && IsInt64(next - now) && IsInt64(cfg.minIntervalMS)
    ensures var reason := Join(TooSoonWords(cfg, key, next, now));
            && ParseInt64After(reason, "remaining_ms=") == Some(next - now)
            && ParseInt64After(reason, "min_interval_sec=") == Some(Quo(cfg.minIntervalMS, 1000))
            && ParseInt64After(reason, "next_allowed_ts_ms=") == Some(next)
  {
    SecondsFit(cfg.minIntervalMS);
    TooSoonSplit(cfg, key, next, now);
    Tags();
    hide CoolingWords, TooSoonWords, Join, ParseInt64After, Dec, Field, AllFree, NoTagIn, IsInt64, EndsWith, Quo;
    var words, sec := TooSoonWords(cfg, key, next, now), Quo(cfg.minIntervalMS, 1000);
    var h3 := ["min", "interval", "violation"];
    var h4 := h3 + [Field("cooldown_key", key)];
    var h5 := h4 + [Field("remaining_ms", Dec(next - now))];
    var h6 := h5 + [Field("min_interval_sec", Dec(sec))];
    KeyWordsFree(h3, key, "remaining_ms");
    KeyWordsFree(h3, key, "min_interval_sec");
    KeyWordsFree(h3, key, "next_allowed_ts_ms");
    OtherNumberFree(h4, "remaining_ms", next - now, "min_interval_sec");
    OtherNumberFree(h4, "remaining_ms", next - now, "next_allowed_ts_ms");
    OtherNumberFree(h5, "min_interval_sec", sec, "next_allowed_ts_ms");
    NumberBehind(h4, "remaining_ms", next - now, words[5..]);
    NumberBehind(h5, "min_interval_sec", sec, words[6..]);
    NumberBehind(h6, "next_allowed_ts_ms", next, []);
  }

  lemma SecondsFit(ms: int)
    ensures IsInt64(ms) ==>
              IsInt64(Quo(ms, 1000))
  {
  }

  /** Every key that the rule builds is long enough and starts with a solid character. */
  lemma KeysStartSolid(target: string, intentType: string, chainId: int, poolId: string)
    ensures var key := CooldownKey(target, intentType, chainId, poolId); key != "" && !IsSpace(key[0])
  {
    TrimmedStartsSolid(target);
  }

  // ---------------------------------------------------------------- different intents have different keys

  lemma {:induction false} DecNatInjective(m: nat, n: nat)
    requires DecNat(m) == DecNat(n)
    ensures m == n
  {
    DigitsRoundTrip(m);
    DigitsRoundTrip(n);
  }

  lemma DecShape(n: int)
    ensures Dec(n) != "" && (Dec(n)[0] == '-' <==> n < 0)
    ensures n < 0 ==> Dec(n)[1..] == DecNat(-n)
  {
    var digits := DecNat(if n < 0 then -n else n);
    assert IsDigit(digits[0]);
    assert n < 0 ==> Dec(n) == "-" + digits;
  }

  lemma DecInjective(m: int, n: int)
    requires Dec(m) == Dec(n)
    ensures m == n
  {
    DecShape(m);
    DecShape(n);
    if m < 0 {
      DecNatInjective(-m, -n);
    } else {
      DecNatInjective(m, n);
    }
  }

  lemma FirstBar(x: string, rest: string)
    requires '|' !in x
    ensures var s := x + "|" + rest;
            |x| < |s| && s[|x|] == '|' && (forall i :: 0 <= i < |x| ==> s[i] != '|') && s[..|x|] == x
                && s[|x| + 1..] == rest
  {
  }

  /** Two texts that are cut at their first bar. */
  lemma CutAtBar(x: string, y: string, xs: string, ys: string)
    requires '|' !in x && '|' !in y && x + "|" + xs == y + "|" + ys
    ensures x == y && xs == ys
  {
    FirstBar(x, xs);
    FirstBar(y, ys);
    assert |x| == |y|;
  }

  lemma DecHasNoBar(n: int)
    ensures '|' !in Dec(n)
  {
    DecIsNumeric(n);
  }

  /** What follows the type in a key. */
  function KeyTail(chainId: int, poolId: string): string {
    "chain=" + Dec(chainId) + if TrimSpace(poolId) == "" then "" else "|" + "pool=" + TrimSpace(poolId)
  }

  lemma TailShape(chainId: int, poolId: string)
    ensures var c, p := "chain=" + Dec(chainId), TrimSpace(poolId);
            && KeyTail(chainId, poolId) == (if p == "" then c else c + "|" + ("pool=" + p))
            && '|' !in c && c[6..] == Dec(chainId) && ("pool=" + p)[5..] == p
            && ('|' in KeyTail(chainId, poolId) <==> p != "")
  {
    DecHasNoBar(chainId);
    hide TrimSpace, Dec;
    var c, p := "chain=" + Dec(chainId), TrimSpace(poolId);
    assert KeyTail(chainId, poolId) == if p == "" then c else c + "|" + ("pool=" + p);
    if p != "" {
      FirstBar(c, "pool=" + p);
    }
  }

  lemma TailsSeparate(chainId: int, poolId: string, chainId': int, poolId': string)
    requires KeyTail(chainId, poolId) == KeyTail(chainId', poolId')
    ensures chainId == chainId' && TrimSpace(poolId) == TrimSpace(poolId')
  {
    TailShape(chainId, poolId);
    TailShape(chainId', poolId');
    hide TrimSpace, Dec, KeyTail;
    var c, c' := "chain=" + Dec(chainId), "chain=" + Dec(chainId');
    if TrimSpace(poolId) != "" {
      CutAtBar(c, c', "pool=" + TrimSpace(poolId), "pool=" + TrimSpace(poolId'));
    }
    DecInjective(chainId, chainId');
  }

  function TargetOf(target: string): string {
    if TrimSpace(target) == "" then "phoenix" else TrimSpace(target)
  }

  /**
   Two intents share a cooldown key exactly if their targets (an empty one is "phoenix"), types, chains and trimmed
   pools are the same, for targets and types without a bar.
   */
  lemma KeysSeparateIntents(target: string, intentType: string, chainId: int, poolId: string,
                            target': string, intentType': string, chainId': int, poolId': string)
    requires '|' !in TargetOf(target) && '|' !in TargetOf(target') && '|' !in intentType && '|' !in intentType'
    ensures CooldownKey(target, intentType, chainId, poolId) ==
            CooldownKey(target', intentType', chainId', poolId') <==>
            && TargetOf(target) == TargetOf(target') && intentType == intentType'
            && chainId == chainId' && TrimSpace(poolId) == TrimSpace(poolId')
  {
    KeyParts(target, intentType, chainId, poolId);
    KeyParts(target', intentType', chainId', poolId');
    hide TargetOf, CooldownKey, TrimSpace;
    var tail, tail' := KeyTail(chainId, poolId), KeyTail(chainId', poolId');
    if CooldownKey(target, intentType, chainId, poolId) == CooldownKey(target', intentType', chainId', poolId') {
      CutAtBar(TargetOf(target), TargetOf(target'), intentType + "|" + tail, intentType' + "|" + tail');
      CutAtBar(intentType, intentType', tail, tail');
      TailsSeparate(chainId, poolId, chainId', poolId');
    }
  }

  lemma KeyParts(target: string, intentType: string, chainId: int, poolId: string)
    ensures CooldownKey(target, intentType, chainId, poolId) ==
            TargetOf(target) + "|" + (intentType + "|" + KeyTail(chainId, poolId))
  {
    hide TrimSpace, Dec;
  }

  lemma TrimmedStartsSolid(s: string)
    ensures TrimSpace(s) != "" ==> !IsSpace(TrimSpace(s)[0])
  {
    TrimLeftStartsSolid(s);
    TrimRightKeepsHead(TrimLeft(s), 0);
  }

  lemma {:induction false} TrimLeftStartsSolid(s: string)
    ensures TrimLeft(s) != "" ==> !IsSpace(TrimLeft(s)[0])
  {
    if s != [] && IsSpace(s[0]) {
      TrimLeftStartsSolid(s[1..]);
    }
  }
}
