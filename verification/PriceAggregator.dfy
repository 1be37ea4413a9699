/**
 The two-source price aggregator: freshness, staleness and freezing of the aggregate price, and the risk
 mode derived from them (internal/feed/price_aggregator.go).
 */
module PriceAggregator {
  import opened Basics
  import opened Names

  datatype Config = Config(staleMs: int, freezeMs: int, divergencePct: real)

  datatype Source = Source(connected: bool, lastPrice: real, lastUpdateAt: int, latencyMs: int,
                           errTimes: seq<int>, err1m: int, lastErr: string, lastErrAt: int)
  {
    predicate NeverUpdated() {
      lastUpdateAt == ZERO_TIME || lastPrice <= 0.0
    }
  }

  const NEW_SOURCE := Source(false, 0.0, ZERO_TIME, 0, [], 0, "", ZERO_TIME)

  datatype Aggregate = Aggregate(price: real, updatedAt: int, stale: bool, staleAgeMs: int,
                                 confidence: real, divergencePct: real)

  datatype Mode = Normal | Degraded | Frozen

  datatype Reason = Starting | Clear | Divergence | OneSourceStale(name: string) | OneSourceMissing(name: string)
                  | SingleSource | NoFreshSource | PriceStale | PriceFrozen

  datatype Risk = Risk(mode: Mode, reason: Reason)

  datatype State = State(sources: map<string, Source>, agg: Aggregate, risk: Risk)

  const START := State(map[], Aggregate(0.0, ZERO_TIME, false, 0, 0.0, 0.0), Risk(Degraded, Starting))

  predicate Valid(cfg: Config) {
    cfg.staleMs > 0 && cfg.freezeMs > 0 && cfg.divergencePct > 0.0
  }

  // ---------------------------------------------------------------- recomputation

  predicate IsFresh(cfg: Config, s: Source, now: int) {
    !s.NeverUpdated() && now - s.lastUpdateAt <= cfg.staleMs
  }

  function Fresh(cfg: Config, sources: map<string, Source>, now: int): set<string> {
    set n | n in sources && IsFresh(cfg, sources[n], now)
  }

  function ConnectedStale(cfg: Config, sources: map<string, Source>, now: int): set<string> {
    set n | n in sources && !sources[n].NeverUpdated() && sources[n].connected
        && now - sources[n].lastUpdateAt > cfg.staleMs
  }

  function ConnectedNeverUpdated(sources: map<string, Source>): set<string> {
    set n | n in sources && sources[n].NeverUpdated() && sources[n].connected
  }

  function AbsR(x: real): real {
    if x < 0.0 then -x else x
  }

  /** The relative gap between two prices. */
  function Gap(p1: real, p2: real): real {
    var mean := (p1 + p2) / 2.0;
    if mean > 0.0 then AbsR(p1 - p2) / mean else 0.0
  }

  function Later(a: int, b: int): int {
    if a > b then a else b
  }

  /** The aggregate before its own age is looked at, with the mode and reason that the sources suggest. */
  ghost function Blend(cfg: Config, sources: map<string, Source>, agg: Aggregate, now: int): (Aggregate, Risk) {
    var live := Fresh(cfg, sources, now);
    if |live| >= 2 then
      var n1 := First(live);
      assert |live - {n1}| >= 1;
      var a, b := sources[n1], sources[First(live - {n1})];
      var gap := Gap(a.lastPrice, b.lastPrice);
      (agg.(price := (a.lastPrice + b.lastPrice) / 2.0, updatedAt := Later(a.lastUpdateAt, b.lastUpdateAt),
            divergencePct := gap, confidence := if gap > cfg.divergencePct then 0.6 else 1.0),
       if gap > cfg.divergencePct then Risk(Degraded, Divergence) else Risk(Normal, Clear))
    else if |live| == 1 then
      var s := sources[First(live)];
      var late, missing := ConnectedStale(cfg, sources, now), ConnectedNeverUpdated(sources);
      (agg.(price := s.lastPrice, updatedAt := s.lastUpdateAt, divergencePct := 0.0, confidence := 0.7),
       Risk(Degraded, if late != {} then OneSourceStale(First(late))
                      else if missing != {} then OneSourceMissing(First(missing)) else SingleSource))
    else
      (agg.(confidence := 0.0), Risk(Degraded, NoFreshSource))
  }

  function Overdue(updatedAt: int, now: int, windowMs: int): bool {
    updatedAt == ZERO_TIME || now - updatedAt > windowMs
  }

  ghost function Recompute(cfg: Config, st: State, now: int): State {
    var (agg, risk) := Blend(cfg, st.sources, st.agg, now);
    var age := if agg.updatedAt == ZERO_TIME then 0 else now - agg.updatedAt;
    var stale, frozen := Overdue(agg.updatedAt, now, cfg.staleMs), Overdue(agg.updatedAt, now, cfg.freezeMs);
    State(st.sources,
          agg.(stale := stale, staleAgeMs := Max(age, 0),
               confidence := if frozen || stale then 0.0 else agg.confidence),
          if frozen then Risk(Frozen, PriceFrozen) else if stale then Risk(Degraded, PriceStale) else risk)
  }

  // ---------------------------------------------------------------- events

  datatype Event =
    | PriceUpdate(source: string, price: real, eventTime: int, receivedAt: int)
    | SourceEvent(source: string, connected: bool, err: Option<string>, at: int)
    | TimeTick(at: int)

  function Known(sources: map<string, Source>, name: string): Source {
    if name in sources then sources[name] else NEW_SOURCE
  }

  /** The times after the cutoff, in their old order. */
  function After(times: seq<int>, cutoff: int): seq<int> {
    if times == [] then [] else
      After(times[..|times| - 1], cutoff) + if times[|times| - 1] > cutoff then [times[|times| - 1]] else []
  }

  const ERROR_WINDOW_MS := 60000

  function WithError(s: Source, text: string, at: int): Source {
    var times := After(s.errTimes + [at], at - ERROR_WINDOW_MS);
    s.(lastErr := text, lastErrAt := at, errTimes := times, err1m := |times|)
  }

  function Priced(s: Source, e: Event): Source
    requires e.PriceUpdate?
  {
    s.(connected := true, lastPrice := e.price, lastUpdateAt := e.receivedAt,
       latencyMs := if e.eventTime == ZERO_TIME then s.latencyMs else Max(e.receivedAt - e.eventTime, 0))
  }

  predicate Ignored(e: Event) {
    match e
    case PriceUpdate(source, price, _, receivedAt) => source == "" || price <= 0.0 || receivedAt == ZERO_TIME
    case SourceEvent(source, _, _, _) => source == ""
    case TimeTick(_) => false
  }

  function Touched(sources: map<string, Source>, e: Event): map<string, Source> {
    match e
    case PriceUpdate(name, _, _, _) => sources[name := Priced(Known(sources, name), e)]
    case SourceEvent(name, connected, err, at) =>
      var s := Known(sources, name).(connected := connected);
      sources[name := if err.Some? then WithError(s, err.value, at) else s]
    case TimeTick(_) => sources
  }

  function TimeOf(e: Event): int {
    if e.PriceUpdate? then e.receivedAt else e.at
  }

  /** One event, as a function of the state before it. */
  ghost function Step(cfg: Config, st: State, e: Event): State {
    if Ignored(e) then st else Recompute(cfg, st.(sources := Touched(st.sources, e)), TimeOf(e))
  }

  ghost function Run(cfg: Config, events: seq<Event>): State {
    if events == [] then START else Step(cfg, Run(cfg, events[..|events| - 1]), events[|events| - 1])
  }

  /** Keeps the times after the cutoff at the front of the array, in their old order, and returns how many. */
  method PruneTimes(xs: array<int>, cutoff: int) returns (n: nat)
    modifies xs
    ensures n <= xs.Length && xs[..n] == After(old(xs[..]), cutoff)
  {
    n := 0;
    for i := 0 to xs.Length
      invariant n <= i
      invariant xs[..n] == After(old(xs[..])[..i], cutoff)
      invariant forall j :: i <= j < xs.Length ==> xs[j] == old(xs[j])
    {
      assert old(xs[..])[..i + 1][..i] == old(xs[..])[..i];
      var t := xs[i];
      if t > cutoff {
        xs[n] := t;
        n := n + 1;
        assert xs[..n] == xs[..n - 1] + [t];
      }
    }
    assert old(xs[..])[..xs.Length] == old(xs[..]);
  }

  class Aggregator {
    const cfg: Config
    var sources: map<string, Source>
    var agg: Aggregate
    var risk: Risk

    constructor (cfg: Config)
      ensures this.cfg == Config(if cfg.staleMs <= 0 then 5000 else cfg.staleMs,
                                 if cfg.freezeMs <= 0 then 20000 else cfg.freezeMs,
                                 if cfg.divergencePct <= 0.0 then 0.003 else cfg.divergencePct)
      ensures Valid(this.cfg) && Current() == START
    {
      this.cfg := Config(if cfg.staleMs <= 0 then 5000 else cfg.staleMs,
                         if cfg.freezeMs <= 0 then 20000 else cfg.freezeMs,
                         if cfg.divergencePct <= 0.0 then 0.003 else cfg.divergencePct);
      sources, agg, risk := START.sources, START.agg, START.risk;
    }

    function Current(): State
      reads this
    {
      State(sources, agg, risk)
    }

    /** Returns the ticker offered to the output channel, if any. */
    method OnPriceUpdate(source: string, price: real, eventTime: int, receivedAt: int)
        returns (ticker: Option<(real, int)>)
      modifies this
      ensures Current() == Step(cfg, old(Current()), PriceUpdate(source, price, eventTime, receivedAt))
      ensures ticker.Some? ==>
              agg.price > 0.0 && agg.updatedAt != ZERO_TIME && ticker.value == (agg.price, agg.updatedAt)
      ensures ticker.None? && agg.price > 0.0 && agg.updatedAt != ZERO_TIME ==>
                old(agg).(stale := agg.stale, staleAgeMs := agg.staleAgeMs) == agg
    {
      if source == "" || price <= 0.0 || receivedAt == ZERO_TIME {
        return None;
      }
      ghost var before, e := Current(), PriceUpdate(source, price, eventTime, receivedAt);
      hide Recompute;
      var st := Known(sources, source);
      st := st.(connected := true, lastPrice := price, lastUpdateAt := receivedAt);
      if eventTime != ZERO_TIME {
        var d := receivedAt - eventTime;
        st := st.(latencyMs := if d < 0 then 0 else d);
      }
      assert st == Priced(Known(sources, source), e);
      sources := sources[source := st];
      assert Current() == before.(sources := Touched(before.sources, e));
      hide Touched, Known, Priced;
      var updatedAgg := RecomputeLocked(receivedAt);
      if updatedAgg && agg.price > 0.0 && agg.updatedAt != ZERO_TIME {
        ticker := Some((agg.price, agg.updatedAt));
      } else {
        ticker := None;
      }
    }

    /** `clock` is the time used when the event carries none. */
    method OnSourceEvent(source: string, connected: bool, err: Option<string>, at: int, clock: int)
      modifies this
      ensures Current() == Step(cfg, old(Current()),
                                SourceEvent(source, connected, err, if at == ZERO_TIME then clock else at))
    {
      if source == "" {
        return;
      }
      var when := if at == ZERO_TIME then clock else at;
      ghost var before, e := Current(), SourceEvent(source, connected, err, when);
      hide Recompute, WithError;
      var st := Known(sources, source).(connected := connected);
      if err.Some? {
        st := NoteError(st, err.value, when);
      }
      sources := sources[source := st];
      assert Current() == before.(sources := Touched(before.sources, e));
      hide Touched, Known;
      var _ := RecomputeLocked(when);
    }

    /** An error at a time: the list of error times grows by it and loses those of more than a minute before. */
    method NoteError(st: Source, text: string, when: int) returns (noted: Source)
      ensures noted == WithError(st, text, when)
    {
      var times := st.errTimes + [when];
      var xs := new int[|times|](i requires 0 <= i < |times| => times[i]);
      assert xs[..] == times;
      var n := PruneTimes(xs, when - ERROR_WINDOW_MS);
      noted := st.(lastErr := text, lastErrAt := when, errTimes := xs[..n], err1m := n);
    }

    method OnTimeTick(now: int)
      modifies this
      ensures Current() == Step(cfg, old(Current()), TimeTick(now))
    {
      var _ := RecomputeLocked(now);
    }

    /** The scan over all sources, in whatever order the map yields them. */
    method Classify(now: int) returns (freshes: seq<string>, connectedStale: seq<string>, connectedNever: seq<string>)
      ensures Listing(freshes, Fresh(cfg, sources, now))
      ensures Listing(connectedStale, ConnectedStale(cfg, sources, now))
      ensures Listing(connectedNever, ConnectedNeverUpdated(sources))
    {
      freshes, connectedStale, connectedNever := [], [], [];
      ghost var live := Fresh(cfg, sources, now);
      ghost var late := ConnectedStale(cfg, sources, now);
      ghost var missing := ConnectedNeverUpdated(sources);
      var todo := sources.Keys;
      ListingEmpty(live, todo);
      ListingEmpty(late, todo);
      ListingEmpty(missing, todo);
      hide Listing;
      while todo != {}
        invariant todo <= sources.Keys
        invariant Listing(freshes, live - todo)
        invariant Listing(connectedStale, late - todo)
        invariant Listing(connectedNever, missing - todo)
        decreases |todo|
      {
        var n :| n in todo;
        var st := sources[n];
        assert n in live <==> IsFresh(cfg, st, now);
        assert n in late <==> !st.NeverUpdated() && st.connected && now - st.lastUpdateAt > cfg.staleMs;
        assert n in missing <==> st.NeverUpdated() && st.connected;
        var age := now - st.lastUpdateAt;
        var never := st.NeverUpdated();
        ListingGrows(freshes, live, todo, n);
        ListingGrows(connectedStale, late, todo, n);
        ListingGrows(connectedNever, missing, todo, n);
        todo := todo - {n};
        if !never && age <= cfg.staleMs {
          freshes := freshes + [n];
        } else if st.connected && never {
          connectedNever := connectedNever + [n];
        } else if st.connected && !never && age > cfg.staleMs {
          connectedStale := connectedStale + [n];
        }
      }
      assert live - todo == live && late - todo == late && missing - todo == missing;
    }

    method SortedClasses(now: int) returns (freshes: seq<string>, connectedStale: seq<string>,
                                            connectedNever: seq<string>)
      ensures InOrder(freshes, Fresh(cfg, sources, now))
      ensures InOrder(connectedStale, ConnectedStale(cfg, sources, now))
      ensures InOrder(connectedNever, ConnectedNeverUpdated(sources))
    {
      freshes, connectedStale, connectedNever := Classify(now);
      freshes := SortNames(freshes, Fresh(cfg, sources, now));
      connectedStale := SortNames(connectedStale, ConnectedStale(cfg, sources, now));
      connectedNever := SortNames(connectedNever, ConnectedNeverUpdated(sources));
    }

    method BlendSources(now: int) returns (next: Aggregate, mode: Mode, reason: Reason)
      ensures (next, Risk(mode, reason)) == Blend(cfg, sources, agg, now)
    {
      var freshes, connectedStale, connectedNever := SortedClasses(now);
      next, mode, reason := agg, Normal, Clear;
      if |freshes| >= 2 {
        var a, b := sources[freshes[0]], sources[freshes[1]];
        var gap := Gap(a.lastPrice, b.lastPrice);
        next := next.(price := (a.lastPrice + b.lastPrice) / 2.0, updatedAt := Later(a.lastUpdateAt, b.lastUpdateAt),
                      divergencePct := gap, confidence := 1.0);
        if gap > cfg.divergencePct {
          next, mode, reason := next.(confidence := 0.6), Degraded, Divergence;
        }
      } else if |freshes| == 1 {
        var s := sources[freshes[0]];
        next := next.(price := s.lastPrice, updatedAt := s.lastUpdateAt, divergencePct := 0.0, confidence := 0.7);
        mode := Degraded;
        if |connectedStale| > 0 {
          reason := OneSourceStale(connectedStale[0]);
        } else if |connectedNever| > 0 {
          reason := OneSourceMissing(connectedNever[0]);
        } else {
          reason := SingleSource;
        }
      } else {
        next, mode, reason := next.(confidence := 0.0), Degraded, NoFreshSource;
      }
    }

    method RecomputeLocked(now: int) returns (aggUpdated: bool)
      modifies `agg, `risk
      ensures Current() == Recompute(cfg, old(Current()), now)
      ensures aggUpdated <==> old(agg).(stale := agg.stale, staleAgeMs := agg.staleAgeMs) != agg
    {
      var prev := agg;
      var next, mode, reason := BlendSources(now);
      var age := if next.updatedAt == ZERO_TIME then 0 else now - next.updatedAt;
      var stale := next.updatedAt == ZERO_TIME || age > cfg.staleMs;
      var frozen := next.updatedAt == ZERO_TIME || age > cfg.freezeMs;
      if frozen {
        next, mode, reason := next.(confidence := 0.0), Frozen, PriceFrozen;
      } else if stale {
        next, mode, reason := next.(confidence := 0.0), Degraded, PriceStale;
      }
      agg := next.(stale := stale, staleAgeMs := Max(age, 0));
      risk := Risk(mode, reason);
      aggUpdated := prev.updatedAt != agg.updatedAt || prev.price != agg.price
                    || prev.divergencePct != agg.divergencePct || prev.confidence != agg.confidence;
    }
  }

  lemma ListingEmpty(all: set<string>, todo: set<string>)
    requires all <= todo
    ensures Listing([], all - todo)
  {
    assert all - todo == {};
  }

  lemma ListingGrows(names: seq<string>, all: set<string>, todo: set<string>, n: string)
    requires Listing(names, all - todo) && n in todo
    ensures Listing(if n in all then names + [n] else names, all - (todo - {n}))
  {
    if n in all {
      assert all - (todo - {n}) == (all - todo) + {n};
    } else {
      assert all - (todo - {n}) == all - todo;
    }
  }

  // ---------------------------------------------------------------- what an event does to its source

  /** A price marks its source as connected and leaves its errors alone; the latency is never negative. */
  lemma PriceTouches(sources: map<string, Source>, e: Event)
    requires e.PriceUpdate?
    ensures var before, sources' := Known(sources, e.source), Touched(sources, e);
            && sources'.Keys == sources.Keys + {e.source}
            && (forall n :: n in sources && n != e.source ==> sources'[n] == sources[n])
            && var s := sources'[e.source];
               && s.connected && s.lastPrice == e.price && s.lastUpdateAt == e.receivedAt
               && (e.eventTime == ZERO_TIME ==> s.latencyMs == before.latencyMs)
               && (e.eventTime != ZERO_TIME && e.receivedAt >= e.eventTime ==>
                   e.eventTime + s.latencyMs == e.receivedAt)
               && (e.eventTime != ZERO_TIME && e.receivedAt < e.eventTime ==> s.latencyMs == 0)
               && s.errTimes == before.errTimes && s.err1m == before.err1m
               && s.lastErr == before.lastErr && s.lastErrAt == before.lastErrAt
  {
  }

  /** A source event connects or disconnects its source, records its error if it has one, and touches no price. */
  lemma EventTouches(sources: map<string, Source>, e: Event)
    requires e.SourceEvent?
    ensures var before, sources' := Known(sources, e.source), Touched(sources, e);
            && sources'.Keys == sources.Keys + {e.source}
            && (forall n :: n in sources && n != e.source ==> sources'[n] == sources[n])
            && var s := sources'[e.source];
               && s.connected == e.connected
               && s.lastPrice == before.lastPrice && s.lastUpdateAt == before.lastUpdateAt
                   && s.latencyMs == before.latencyMs
               && (e.err.Some? ==> s.lastErr == e.err.value && s.lastErrAt == e.at && s.err1m == |s.errTimes|)
               && (e.err.None? ==> s == before.(connected := e.connected))
  {
    hide After;
  }

  /**
   Events without a source name, and prices that are not positive or carry no time, change nothing; all others count.
   */
  lemma IgnoredExactly(cfg: Config, st: State, e: Event)
    ensures (match e
             case PriceUpdate(name, price, _, receivedAt) => name == "" || price <= 0.0 || receivedAt == ZERO_TIME
             case SourceEvent(name, _, _, _) => name == ""
             case TimeTick(_) => false) ==> Step(cfg, st, e) == st
    ensures e.PriceUpdate? && e.source != "" && e.price > 0.0 && e.receivedAt != ZERO_TIME ==>
              e.source in Step(cfg, st, e).sources && Step(cfg, st, e).sources[e.source].lastPrice == e.price
    ensures e.SourceEvent? && e.source != "" ==>
              e.source in Step(cfg, st, e).sources && Step(cfg, st, e).sources[e.source].connected == e.connected
  {
    hide After;
  }

  /** Without a fresh source there is no confidence, however many sources there are. */
  lemma NoFreshNoConfidence(cfg: Config, st: State, now: int)
    ensures Fresh(cfg, st.sources, now) == {} ==>
              var st' := Recompute(cfg, st, now); st'.agg.confidence == 0.0 && st'.risk.mode != Normal
  {
  }

  // ---------------------------------------------------------------- what every run keeps

  function Updated(sources: map<string, Source>): set<string> {
    set n | n in sources && sources[n].lastUpdateAt != ZERO_TIME
  }

  /** t is the newest update time of any source, or the zero time when there is none. */
  ghost predicate IsNewest(t: int, sources: map<string, Source>) {
    if Updated(sources) == {} then t == ZERO_TIME
    else
      && t != ZERO_TIME
      && (exists n :: n in Updated(sources) && sources[n].lastUpdateAt == t)
      && (forall n :: n in Updated(sources) ==> sources[n].lastUpdateAt <= t)
  }

  predicate PricedTogether(sources: map<string, Source>) {
    forall n :: n in sources ==> (sources[n].lastUpdateAt != ZERO_TIME <==> sources[n].lastPrice > 0.0)
  }

  /** At most two sources have ever sent a price, and the aggregate carries the newest time. */
  ghost predicate Tracks(st: State) {
    && PricedTogether(st.sources)
    && |Updated(st.sources)| <= 2
    && IsNewest(st.agg.updatedAt, st.sources)
  }

  /** Two fresh sources whose gap is within the limit. */
  ghost predicate Agreeing(cfg: Config, sources: map<string, Source>, now: int) {
    var live := Fresh(cfg, sources, now);
    |live| >= 2 && live - {First(live)} != {} &&
    Gap(sources[First(live)].lastPrice, sources[First(live - {First(live)})].lastPrice) <= cfg.divergencePct
  }

  function Level(m: Mode): nat {
    match m case Normal => 0 case Degraded => 1 case Frozen => 2
  }

  /** The risk level as a function of the sources and the time alone. */
  ghost function LevelAt(cfg: Config, sources: map<string, Source>, newest: int, now: int): nat {
    if Overdue(newest, now, cfg.freezeMs) then 2 else if Agreeing(cfg, sources, now) then 0 else 1
  }

  lemma {:induction false} SubsetSize<T>(a: set<T>, b: set<T>)
    requires a <= b
    ensures |a| <= |b| && (|a| == |b| ==> a == b)
  {
    var rest := b - a;
    assert b == a + rest && a !! rest;
  }

  /** A fresh name is an updated one; with two updated names, two fresh ones are all of them. */
  lemma FreshAreUpdated(cfg: Config, sources: map<string, Source>, now: int)
    ensures Fresh(cfg, sources, now) <= Updated(sources)
    ensures |Fresh(cfg, sources, now)| <= |Updated(sources)|
    ensures |Fresh(cfg, sources, now)| == |Updated(sources)| ==> Fresh(cfg, sources, now) == Updated(sources)
  {
    SubsetSize(Fresh(cfg, sources, now), Updated(sources));
  }

  lemma TwoNames(names: set<string>)
    requires |names| == 2
    ensures names - {First(names)} != {} && names == {First(names), First(names - {First(names)})}
  {
    var n1 := First(names);
    var rest := names - {n1};
    assert |rest| == 1;
    assert names == {n1} + rest;
    OneName(rest);
  }

  lemma OneName(names: set<string>)
    requires |names| == 1
    ensures names == {First(names)}
  {
    SubsetSize({First(names)}, names);
  }

  /**
   A recomputation keeps the aggregate at the newest update time, provided that it already is there or that
   some source is fresh.
   */
  lemma RecomputeTracksNewest(cfg: Config, st: State, now: int)
    requires Valid(cfg) && PricedTogether(st.sources) && |Updated(st.sources)| <= 2
    requires Fresh(cfg, st.sources, now) == {} ==> IsNewest(st.agg.updatedAt, st.sources)
    ensures IsNewest(Recompute(cfg, st, now).agg.updatedAt, st.sources)
  {
    var live := Fresh(cfg, st.sources, now);
    FreshAreUpdated(cfg, st.sources, now);
    if |live| >= 2 {
      TwoNames(live);
      var n1 := First(live);
      assert n1 in Updated(st.sources) && First(live - {n1}) in Updated(st.sources);
    } else if |live| == 1 {
      OneName(live);
      var n := First(live);
      assert n in Updated(st.sources);
      forall m | m in Updated(st.sources) ensures st.sources[m].lastUpdateAt <= st.sources[n].lastUpdateAt {
        assert m in live || now - st.sources[m].lastUpdateAt > cfg.staleMs;
      }
    }
  }

  /**
   What a recomputation leaves behind once the aggregate is at the newest time: it is stale exactly when no
   source is fresh, the level is the one that the sources and the time determine, the reason of the fallback
   branch never survives, and full confidence is the same thing as normal mode.
   */
  lemma RecomputeVerdict(cfg: Config, st: State, now: int)
    requires Valid(cfg) && PricedTogether(st.sources) && |Updated(st.sources)| <= 2
    requires IsNewest(Recompute(cfg, st, now).agg.updatedAt, st.sources)
    ensures var st' := Recompute(cfg, st, now);
            && (st'.agg.stale <==> Fresh(cfg, st.sources, now) == {})
            && Level(st'.risk.mode) == LevelAt(cfg, st.sources, st'.agg.updatedAt, now)
            && st'.risk.reason != NoFreshSource
            && (st'.agg.stale ==> st'.risk.reason in {PriceStale, PriceFrozen} && st'.agg.confidence == 0.0)
            && (st'.risk.mode == Normal <==> st'.agg.confidence == 1.0)
  {
    var live := Fresh(cfg, st.sources, now);
    var newest := Recompute(cfg, st, now).agg.updatedAt;
    FreshAreUpdated(cfg, st.sources, now);
    if live != {} {
      var n :| n in live;
      assert n in Updated(st.sources);
      assert st.sources[n].lastUpdateAt <= newest;
    } else if newest != ZERO_TIME {
      var n :| n in Updated(st.sources) && st.sources[n].lastUpdateAt == newest;
      assert n !in live;
    }
    if |live| >= 2 {
      TwoNames(live);
    }
  }

  /** A source event changes neither prices nor update times, and a price update makes its source fresh. */
  lemma TouchEffect(cfg: Config, st: State, e: Event)
    requires Valid(cfg) && PricedTogether(st.sources) && !Ignored(e)
    ensures PricedTogether(Touched(st.sources, e))
    ensures Updated(st.sources) <= Updated(Touched(st.sources, e))
    ensures e.PriceUpdate? ==> e.source in Fresh(cfg, Touched(st.sources, e), TimeOf(e))
    ensures !e.PriceUpdate? ==>
              && Updated(Touched(st.sources, e)) == Updated(st.sources)
              && forall n :: n in Updated(st.sources) ==>
                   Touched(st.sources, e)[n].lastUpdateAt == st.sources[n].lastUpdateAt &&
                   Touched(st.sources, e)[n].lastPrice == st.sources[n].lastPrice
  {
  }

  lemma StepTracks(cfg: Config, st: State, e: Event)
    requires Valid(cfg) && Tracks(st) && |Updated(Step(cfg, st, e).sources)| <= 2
    ensures Tracks(Step(cfg, st, e))
  {
    if !Ignored(e) {
      TouchEffect(cfg, st, e);
      var touched := st.(sources := Touched(st.sources, e));
      RecomputeTracksNewest(cfg, touched, TimeOf(e));
    }
  }

  lemma {:induction false} RunTracks(cfg: Config, events: seq<Event>)
    requires Valid(cfg) && |Updated(Run(cfg, events).sources)| <= 2
    ensures Tracks(Run(cfg, events)) && Run(cfg, events).risk.reason != NoFreshSource
  {
    if events != [] {
      var before, e := events[..|events| - 1], events[|events| - 1];
      UpdatedGrows(cfg, before, e);
      SubsetSize(Updated(Run(cfg, before).sources), Updated(Run(cfg, events).sources));
      RunTracks(cfg, before);
      StepTracks(cfg, Run(cfg, before), e);
      if !Ignored(e) {
        RecomputeVerdict(cfg, Run(cfg, before).(sources := Touched(Run(cfg, before).sources, e)), TimeOf(e));
      }
    }
  }

  lemma UpdatedGrows(cfg: Config, before: seq<Event>, e: Event)
    ensures Updated(Run(cfg, before).sources) <= Updated(Step(cfg, Run(cfg, before), e).sources)
  {
    var sources := Run(cfg, before).sources;
    if !Ignored(e) {
      assert forall n :: n in Updated(sources) ==> n in Updated(Touched(sources, e));
    }
  }

  /**
   In every reachable state with at most two price sources, whatever the clock did, the aggregate carries the
   newest update time, and right after an event it is stale exactly when no source is fresh.
   */
  lemma AggregateIsNewest(cfg: Config, events: seq<Event>)
    requires Valid(cfg) && |Updated(Run(cfg, events).sources)| <= 2
    ensures var st := Run(cfg, events);
            && IsNewest(st.agg.updatedAt, st.sources)
            && st.risk.reason != NoFreshSource
            && (events != [] && !Ignored(events[|events| - 1]) ==>
                  var now := TimeOf(events[|events| - 1]);
                  && (st.agg.stale <==> Fresh(cfg, st.sources, now) == {})
                  && (st.agg.stale ==> st.risk.reason in {PriceStale, PriceFrozen})
                  && Level(st.risk.mode) == LevelAt(cfg, st.sources, st.agg.updatedAt, now))
  {
    RunTracks(cfg, events);
    if events != [] && !Ignored(events[|events| - 1]) {
      var before, e := Run(cfg, events[..|events| - 1]), events[|events| - 1];
      RecomputeVerdict(cfg, before.(sources := Touched(before.sources, e)), TimeOf(e));
    }
  }

  /** A first price of a source, received at a time. */
  function FirstPrice(name: string, at: int): Event {
    PriceUpdate(name, 1.0, ZERO_TIME, at)
  }

  /** With three sources the aggregate can miss the newest time: it looks at the first two fresh names only. */
  lemma ThreeSourcesMissTheNewest(cfg: Config)
    requires Valid(cfg) && cfg.staleMs >= 2
    ensures var st := Run(cfg, [FirstPrice("a", 1), FirstPrice("b", 2), FirstPrice("c", 3)]);
            st.agg.updatedAt == 2 && "c" in st.sources && st.sources["c"].lastUpdateAt == 3
  {
    hide Recompute, Priced, First;
    var ea, eb, ec := FirstPrice("a", 1), FirstPrice("b", 2), FirstPrice("c", 3);
    RunOneMore(cfg, [], ea);
    RunOneMore(cfg, [ea], eb);
    RunOneMore(cfg, [ea, eb], ec);
    assert [] + [ea] == [ea] && [ea] + [eb] == [ea, eb] && [ea, eb] + [ec] == [ea, eb, ec];
    assert Run(cfg, []).sources == map[];
    hide Run;
    assert Run(cfg, [ea]).sources == map["a" := Priced(NEW_SOURCE, ea)];
    assert Run(cfg, [ea, eb]).sources == map["a" := Priced(NEW_SOURCE, ea), "b" := Priced(NEW_SOURCE, eb)];
    ThirdSource(cfg, Run(cfg, [ea, eb]));
  }

  lemma ThirdSource(cfg: Config, before: State)
    requires Valid(cfg) && cfg.staleMs >= 2
    requires before.sources == map["a" := Priced(NEW_SOURCE, FirstPrice("a", 1)),
                                   "b" := Priced(NEW_SOURCE, FirstPrice("b", 2))]
    ensures var st := Step(cfg, before, FirstPrice("c", 3));
            st.agg.updatedAt == 2 && "c" in st.sources && st.sources["c"].lastUpdateAt == 3
  {
    hide Recompute, First;
    var sources := Touched(before.sources, FirstPrice("c", 3));
    assert sources.Keys == {"a", "b", "c"};
    assert Fresh(cfg, sources, 3) == {"a", "b", "c"};
    FirstOfThree();
    NewestOfFirstTwo(cfg, before.(sources := sources), 3);
  }

  lemma NewestOfFirstTwo(cfg: Config, st: State, now: int)
    requires |Fresh(cfg, st.sources, now)| >= 2
    ensures var live := Fresh(cfg, st.sources, now);
            live - {First(live)} != {} &&
            Recompute(cfg, st, now).agg.updatedAt ==
            Later(st.sources[First(live)].lastUpdateAt, st.sources[First(live - {First(live)})].lastUpdateAt)
    ensures Recompute(cfg, st, now).sources == st.sources
  {
  }

  lemma FirstOfThree()
    ensures First({"a", "b", "c"}) == "a" && {"a", "b", "c"} - {"a"} == {"b", "c"} && First({"b", "c"}) == "b"
    ensures |{"a", "b", "c"}| == 3
  {
    FirstIsUnique("a", {"a", "b", "c"});
    FirstIsUnique("b", {"b", "c"});
  }

  lemma RunOneMore(cfg: Config, events: seq<Event>, e: Event)
    ensures Run(cfg, events + [e]) == Step(cfg, Run(cfg, events), e)
    ensures !Ignored(e) ==> Run(cfg, events + [e]).sources == Touched(Run(cfg, events).sources, e)
  {
    assert (events + [e])[..|events|] == events;
  }

  /** Time alone never lowers the level. */
  lemma LevelOnlyRises(cfg: Config, sources: map<string, Source>, newest: int, t1: int, t2: int)
    requires PricedTogether(sources) && |Updated(sources)| <= 2 && t1 <= t2
    ensures LevelAt(cfg, sources, newest, t1) <= LevelAt(cfg, sources, newest, t2)
  {
    FreshAreUpdated(cfg, sources, t1);
    FreshAreUpdated(cfg, sources, t2);
    assert Fresh(cfg, sources, t2) <= Fresh(cfg, sources, t1);
    SubsetSize(Fresh(cfg, sources, t2), Fresh(cfg, sources, t1));
  }

  /** The level looks only at the prices and times of updated sources. */
  lemma LevelIgnoresTheRest(cfg: Config, s1: map<string, Source>, s2: map<string, Source>, newest: int, now: int)
    requires PricedTogether(s1) && PricedTogether(s2) && Updated(s1) == Updated(s2)
    requires forall n :: n in Updated(s1) ==>
             s1[n].lastUpdateAt == s2[n].lastUpdateAt && s1[n].lastPrice == s2[n].lastPrice
    ensures LevelAt(cfg, s1, newest, now) == LevelAt(cfg, s2, newest, now)
  {
    FreshAreUpdated(cfg, s1, now);
    FreshAreUpdated(cfg, s2, now);
    assert Fresh(cfg, s1, now) == Fresh(cfg, s2, now);
  }

  /** The time of the last event that was not ignored. */
  function LastTime(events: seq<Event>): Option<int> {
    if events == [] then None
    else if Ignored(events[|events| - 1]) then LastTime(events[..|events| - 1])
    else Some(TimeOf(events[|events| - 1]))
  }

  /** No price updates, and times that do not go back, neither among themselves nor before what came first. */
  predicate Quiet(from: Option<int>, later: seq<Event>) {
    later == [] ||
    (var init, e := later[..|later| - 1], later[|later| - 1];
     var earlier := if LastTime(init).Some? then LastTime(init) else from;
     && Quiet(from, init)
     && !e.PriceUpdate?
     && (earlier.Some? ==> TimeOf(e) >= earlier.value))
  }

  /**
   The state after the last counted event has the level of its sources and time; before the first one it is degraded.
   */
  ghost predicate LevelFits(cfg: Config, st: State, last: Option<int>) {
    if last.None? then st == START else Level(st.risk.mode) == LevelAt(cfg, st.sources, st.agg.updatedAt, last.value)
  }

  /**
   From the start or any later point on, the risk level never falls between price updates, whatever source events
   occur and however many ticks pass, as long as the clock does not run backwards.
   */
  lemma {:induction false} RiskOnlyRises(cfg: Config, events: seq<Event>, later: seq<Event>)
    requires Valid(cfg) && |Updated(Run(cfg, events + later).sources)| <= 2
    requires Quiet(LastTime(events), later)
    ensures Level(Run(cfg, events).risk.mode) <= Level(Run(cfg, events + later).risk.mode)
    ensures LastTime(events + later) == if LastTime(later).Some? then LastTime(later) else LastTime(events)
    ensures LevelFits(cfg, Run(cfg, events + later), LastTime(events + later))
    decreases |later|
  {
    hide LevelAt, Step, Fresh;
    if later == [] {
      assert events + later == events;
      LevelAtLastTime(cfg, events);
    } else {
      var init, e := later[..|later| - 1], later[|later| - 1];
      var all, prev := events + later, events + init;
      assert all[..|all| - 1] == prev && all[|all| - 1] == e;
      UpdatedGrows(cfg, prev, e);
      SubsetSize(Updated(Run(cfg, prev).sources), Updated(Run(cfg, all).sources));
      RiskOnlyRises(cfg, events, init);
      RunTracks(cfg, prev);
      QuietEvent(cfg, Run(cfg, prev), e, LastTime(prev));
    }
  }

  /** One quiet event, counted or not. */
  lemma QuietEvent(cfg: Config, st: State, e: Event, last: Option<int>)
    requires Valid(cfg) && Tracks(st) && !e.PriceUpdate? && (last.Some? ==> last.value <= TimeOf(e))
    requires LevelFits(cfg, st, last)
    ensures var st' := Step(cfg, st, e);
            && Level(st.risk.mode) <= Level(st'.risk.mode)
            && LevelFits(cfg, st', if Ignored(e) then last else Some(TimeOf(e)))
  {
    if !Ignored(e) {
      if last.Some? {
        QuietStep(cfg, st, e, last.value);
      } else {
        FirstQuietStep(cfg, e);
      }
    }
  }

  /** Without any price the first event freezes the aggregate. */
  lemma FirstQuietStep(cfg: Config, e: Event)
    requires Valid(cfg) && !Ignored(e) && !e.PriceUpdate?
    ensures var st := Step(cfg, START, e);
            st.risk.mode == Frozen && LevelFits(cfg, st, Some(TimeOf(e)))
  {
    TouchEffect(cfg, START, e);
    var sources := Touched(START.sources, e);
    assert Updated(sources) == {};
    FreshAreUpdated(cfg, sources, TimeOf(e));
    assert Fresh(cfg, sources, TimeOf(e)) == {};
  }

  lemma QuietStep(cfg: Config, st: State, e: Event, t: int)
    requires Valid(cfg) && Tracks(st) && !Ignored(e) && !e.PriceUpdate? && t <= TimeOf(e)
    requires Level(st.risk.mode) == LevelAt(cfg, st.sources, st.agg.updatedAt, t)
    ensures var st' := Step(cfg, st, e);
            && Level(st.risk.mode) <= Level(st'.risk.mode)
            && Level(st'.risk.mode) == LevelAt(cfg, st'.sources, st'.agg.updatedAt, TimeOf(e))
  {
    TouchEffect(cfg, st, e);
    var touched := st.(sources := Touched(st.sources, e));
    StepTracks(cfg, st, e);
    RecomputeVerdict(cfg, touched, TimeOf(e));
    SameNewest(st.agg.updatedAt, Step(cfg, st, e).agg.updatedAt, st.sources, touched.sources);
    LevelIgnoresTheRest(cfg, st.sources, touched.sources, st.agg.updatedAt, TimeOf(e));
    LevelOnlyRises(cfg, st.sources, st.agg.updatedAt, t, TimeOf(e));
  }

  lemma SameNewest(t1: int, t2: int, s1: map<string, Source>, s2: map<string, Source>)
    requires IsNewest(t1, s1) && IsNewest(t2, s2) && Updated(s1) == Updated(s2)
    requires forall n :: n in Updated(s1) ==> s1[n].lastUpdateAt == s2[n].lastUpdateAt
    ensures t1 == t2
  {
  }

  lemma {:induction false} LevelAtLastTime(cfg: Config, events: seq<Event>)
    requires Valid(cfg) && |Updated(Run(cfg, events).sources)| <= 2
    ensures LevelFits(cfg, Run(cfg, events), LastTime(events))
  {
    if events != [] {
      if Ignored(events[|events| - 1]) {
        LevelAtLastTime(cfg, events[..|events| - 1]);
      } else {
        AggregateIsNewest(cfg, events);
      }
    }
  }

  /**
   With a freeze window at least as long as the stale window, normal mode means exactly two fresh sources within
   the divergence limit, and then the aggregate price lies between their prices.
   */
  lemma NormalMeansAgreement(cfg: Config, events: seq<Event>)
    requires Valid(cfg) && cfg.freezeMs >= cfg.staleMs && |Updated(Run(cfg, events).sources)| <= 2
    requires events != [] && !Ignored(events[|events| - 1])
    ensures var st, now := Run(cfg, events), TimeOf(events[|events| - 1]);
            && (st.risk.mode == Normal <==> st.agg.confidence == 1.0)
            && (st.risk.mode == Normal <==> Agreeing(cfg, st.sources, now))
            && (st.risk.mode == Normal ==> exists a, b ::
                  && Fresh(cfg, st.sources, now) == {a, b} && a != b
                  && st.sources[a].lastPrice <= st.agg.price <= st.sources[b].lastPrice)
  {
    AggregateIsNewest(cfg, events);
    RunTracks(cfg, events);
    var st, now := Run(cfg, events), TimeOf(events[|events| - 1]);
    var before := Run(cfg, events[..|events| - 1]);
    RecomputeVerdict(cfg, before.(sources := st.sources), now);
    FreshAreUpdated(cfg, st.sources, now);
    var live := Fresh(cfg, st.sources, now);
    if live != {} {
      var n :| n in live;
      assert n in Updated(st.sources);
    }
    if st.risk.mode == Normal {
      TwoNames(live);
      var a, b := First(live), First(live - {First(live)});
      assert live == {b, a};
      assert st.agg.price == (st.sources[a].lastPrice + st.sources[b].lastPrice) / 2.0;
    }
  }

  // ---------------------------------------------------------------- two sources, told in prices

  /** A source that has sent a price not longer ago than the stale window. */
  predicate Live(cfg: Config, sources: map<string, Source>, n: string, now: int) {
    && n in sources && sources[n].lastUpdateAt != ZERO_TIME && sources[n].lastPrice > 0.0
    && now <= sources[n].lastUpdateAt + cfg.staleMs
  }

  lemma FreshIsLive(cfg: Config, sources: map<string, Source>, now: int, a: string, b: string)
    requires Updated(sources) <= {a, b}
    ensures Fresh(cfg, sources, now) ==
            (if Live(cfg, sources, a, now) then {a} else {}) + (if Live(cfg, sources, b, now) then {b} else {})
  {
    FreshAreUpdated(cfg, sources, now);
  }

  /** |p - q| <= limit * (p + q) / 2, without a quotient. */
  predicate Close(p: real, q: real, limit: real) {
    p - q <= limit * ((p + q) / 2.0) && q - p <= limit * ((p + q) / 2.0)
  }

  /** g is |p - q| relative to the mean of the two prices. */
  predicate IsGap(g: real, p: real, q: real) {
    g * ((p + q) / 2.0) == if p >= q then p - q else q - p
  }

  lemma GapMeans(p: real, q: real, limit: real)
    requires p > 0.0 && q > 0.0
    ensures Gap(p, q) <= limit <==> Close(p, q, limit)
    ensures IsGap(Gap(p, q), p, q)
  {
    var mean := (p + q) / 2.0;
    var far := if p >= q then p - q else q - p;
    var g := far / mean;
    assert g * mean == far;
    assert (limit - g) * mean == limit * mean - far;
    if g <= limit {
      assert (limit - g) * mean >= 0.0;
    } else {
      assert (g - limit) * mean > 0.0;
    }
  }

  lemma CloseEitherWay(p: real, q: real, limit: real)
    ensures Close(p, q, limit) <==> Close(q, p, limit)
    ensures forall g :: IsGap(g, p, q) <==> IsGap(g, q, p)
  {
    assert (p + q) / 2.0 == (q + p) / 2.0;
  }

  /** The blend of two live sources, whichever of their names comes first. */
  ghost predicate Midpoint(cfg: Config, sources: map<string, Source>, a: string, b: string, agg: Aggregate, risk: Risk)
    requires a in sources && b in sources
  {
    var p, q := sources[a].lastPrice, sources[b].lastPrice;
    && agg.price == (p + q) / 2.0
    && agg.updatedAt == Max(sources[a].lastUpdateAt, sources[b].lastUpdateAt)
    && IsGap(agg.divergencePct, p, q)
    && agg.confidence == (if Close(p, q, cfg.divergencePct) then 1.0 else 0.6)
    && risk == (if Close(p, q, cfg.divergencePct) then Risk(Normal, Clear) else Risk(Degraded, Divergence))
  }

  lemma BlendOfTwo(cfg: Config, sources: map<string, Source>, agg: Aggregate, now: int, a: string, b: string)
    requires Valid(cfg) && a != b && Fresh(cfg, sources, now) == {a, b}
    ensures a in Fresh(cfg, sources, now) && b in Fresh(cfg, sources, now)
    ensures var (agg', risk) := Blend(cfg, sources, agg, now); Midpoint(cfg, sources, a, b, agg', risk)
  {
    var live := Fresh(cfg, sources, now);
    assert |live| == 2;
    TwoNames(live);
    var one, two := First(live), First(live - {First(live)});
    BlendInOrder(cfg, sources, agg, now, one, two);
    assert one in live && two in live;
    CloseEitherWay(sources[a].lastPrice, sources[b].lastPrice, cfg.divergencePct);
    hide Blend, Close, IsGap, Gap, First, Fresh;
  }

  lemma BlendInOrder(cfg: Config, sources: map<string, Source>, agg: Aggregate, now: int, one: string, two: string)
    requires Valid(cfg) && |Fresh(cfg, sources, now)| == 2
    requires var live := Fresh(cfg, sources, now);
             one == First(live) && live - {one} != {} && two == First(live - {one})
    ensures one in Fresh(cfg, sources, now) && two in Fresh(cfg, sources, now)
    ensures var (agg', risk) := Blend(cfg, sources, agg, now); Midpoint(cfg, sources, one, two, agg', risk)
  {
    assert one in Fresh(cfg, sources, now) && two in Fresh(cfg, sources, now);
    GapMeans(sources[one].lastPrice, sources[two].lastPrice, cfg.divergencePct);
    hide Gap, Close, IsGap;
  }

  lemma BlendOfOne(cfg: Config, sources: map<string, Source>, agg: Aggregate, now: int, a: string, b: string)
    requires Valid(cfg) && a != b && Updated(sources) <= {a, b} && Fresh(cfg, sources, now) == {a}
    ensures var (agg', risk) := Blend(cfg, sources, agg, now);
            var late := b in sources && sources[b].connected && !sources[b].NeverUpdated();
            var missing := ConnectedNeverUpdated(sources);
            && agg'.price == sources[a].lastPrice && agg'.updatedAt == sources[a].lastUpdateAt
            && agg'.divergencePct == 0.0 && agg'.confidence == 0.7
            && risk == Risk(Degraded, if late then OneSourceStale(b)
                                      else if missing != {} then OneSourceMissing(First(missing)) else SingleSource)
  {
    var live := Fresh(cfg, sources, now);
    OneName(live);
    assert a in live && b !in live;
    var late := ConnectedStale(cfg, sources, now);
    forall n | n in late ensures n == b {
      assert n in Updated(sources) && n !in live;
    }
    if late != {} {
      assert First(late) == b;
    } else {
      assert b !in late;
    }
  }

  /** What a recomputation adds to the blend: the age, and what follows from it. */
  lemma BlendThenAge(cfg: Config, st: State, now: int)
    ensures var (agg, risk) := Blend(cfg, st.sources, st.agg, now);
            var st' := Recompute(cfg, st, now);
            var t := agg.updatedAt;
            var frozen, stale := t == ZERO_TIME || now > t + cfg.freezeMs, t == ZERO_TIME || now > t + cfg.staleMs;
            && st'.agg.price == agg.price && st'.agg.updatedAt == t && st'.agg.divergencePct == agg.divergencePct
            && st'.agg.stale == stale
            && st'.agg.staleAgeMs == (if t == ZERO_TIME || now < t then 0 else now - t)
            && st'.agg.confidence == (if frozen || stale then 0.0 else agg.confidence)
            && st'.risk == (if frozen then Risk(Frozen, PriceFrozen)
                            else if stale then Risk(Degraded, PriceStale) else risk)
  {
    hide Blend;
  }

  /**
   Two live prices, from the prices alone: the midpoint, the relative gap, and normal mode with full confidence exactly
   if they are close, unless the freeze window has passed.
   */
  lemma TwoLivePrices(cfg: Config, st: State, now: int, a: string, b: string)
    requires Valid(cfg) && a != b && Updated(st.sources) <= {a, b}
    requires Live(cfg, st.sources, a, now) && Live(cfg, st.sources, b, now)
    ensures var p, q := st.sources[a].lastPrice, st.sources[b].lastPrice;
            var newest := Max(st.sources[a].lastUpdateAt, st.sources[b].lastUpdateAt);
            var close, frozen := Close(p, q, cfg.divergencePct), now > newest + cfg.freezeMs;
            var st' := Recompute(cfg, st, now);
            && st'.agg.price == (p + q) / 2.0 && st'.agg.updatedAt == newest && !st'.agg.stale
            && IsGap(st'.agg.divergencePct, p, q)
            && st'.agg.confidence == (if frozen then 0.0 else if close then 1.0 else 0.6)
            && st'.risk == (if frozen then Risk(Frozen, PriceFrozen)
                            else if close then Risk(Normal, Clear) else Risk(Degraded, Divergence))
  {
    FreshIsLive(cfg, st.sources, now, a, b);
    BlendOfTwo(cfg, st.sources, st.agg, now, a, b);
    BlendThenAge(cfg, st, now);
    NotStaleYet(cfg, st.sources, now, a, b);
    hide Blend, Recompute, Fresh, Updated, Live, Max, Close, IsGap;
  }

  lemma NotStaleYet(cfg: Config, sources: map<string, Source>, now: int, a: string, b: string)
    ensures Live(cfg, sources, a, now) && Live(cfg, sources, b, now) ==>
              var newest := Max(sources[a].lastUpdateAt, sources[b].lastUpdateAt);
              newest != ZERO_TIME && now <= newest + cfg.staleMs
  {
  }

  /** One live price: it is the aggregate, with confidence 0.7, degraded for what keeps the other source away. */
  lemma OneLivePrice(cfg: Config, st: State, now: int, a: string, b: string)
    requires Valid(cfg) && a != b && Updated(st.sources) <= {a, b}
    requires Live(cfg, st.sources, a, now) && !Live(cfg, st.sources, b, now)
    ensures var s, st' := st.sources[a], Recompute(cfg, st, now);
            var frozen := now > s.lastUpdateAt + cfg.freezeMs;
            var late := b in st.sources && st.sources[b].connected && !st.sources[b].NeverUpdated();
            var missing := ConnectedNeverUpdated(st.sources);
            && st'.agg.price == s.lastPrice && st'.agg.updatedAt == s.lastUpdateAt && !st'.agg.stale
            && st'.agg.divergencePct == 0.0
            && st'.agg.confidence == (if frozen then 0.0 else 0.7)
            && st'.risk == (if frozen then Risk(Frozen, PriceFrozen)
                            else Risk(Degraded, if late then OneSourceStale(b)
                                                else if missing != {} then OneSourceMissing(First(missing))
                                                else SingleSource))
  {
    FreshIsLive(cfg, st.sources, now, a, b);
    assert Fresh(cfg, st.sources, now) == {a};
    BlendOfOne(cfg, st.sources, st.agg, now, a, b);
    BlendThenAge(cfg, st, now);
    hide Blend, Recompute, Fresh, ConnectedNeverUpdated;
  }

  /** No live price: the last aggregate stays, without confidence, and is degraded or frozen for its age. */
  lemma NoLivePrice(cfg: Config, st: State, now: int, a: string, b: string)
    requires Valid(cfg) && a != b && PricedTogether(st.sources) && Updated(st.sources) <= {a, b}
    requires IsNewest(st.agg.updatedAt, st.sources)
    requires !Live(cfg, st.sources, a, now) && !Live(cfg, st.sources, b, now)
    ensures var t, st' := st.agg.updatedAt, Recompute(cfg, st, now);
            && st'.agg.price == st.agg.price && st'.agg.updatedAt == t && st'.agg.divergencePct == st.agg.divergencePct
            && st'.agg.stale && st'.agg.confidence == 0.0
            && st'.risk == (if t == ZERO_TIME || now > t + cfg.freezeMs then Risk(Frozen, PriceFrozen)
                            else Risk(Degraded, PriceStale))
  {
    FreshIsLive(cfg, st.sources, now, a, b);
    assert Fresh(cfg, st.sources, now) == {};
    BlendThenAge(cfg, st, now);
    hide Recompute;
    if st.agg.updatedAt != ZERO_TIME {
      var n :| n in Updated(st.sources) && st.sources[n].lastUpdateAt == st.agg.updatedAt;
      assert n in {a, b};
    }
  }

  /**
   In every reachable state with two sources and a freeze window not shorter than the stale window: right after an
   event the mode is normal exactly if both prices are live and close.
   */
  lemma NormalInPrices(cfg: Config, events: seq<Event>, a: string, b: string)
    requires Valid(cfg) && cfg.freezeMs >= cfg.staleMs && a != b && Updated(Run(cfg, events).sources) <= {a, b}
    requires events != [] && !Ignored(events[|events| - 1])
    ensures var st, now := Run(cfg, events), TimeOf(events[|events| - 1]);
            st.risk.mode == Normal <==>
            && Live(cfg, st.sources, a, now) && Live(cfg, st.sources, b, now)
            && Close(st.sources[a].lastPrice, st.sources[b].lastPrice, cfg.divergencePct)
  {
    var before, e := Run(cfg, events[..|events| - 1]), events[|events| - 1];
    var touched, now := before.(sources := Touched(before.sources, e)), TimeOf(e);
    SubsetSize(Updated(Run(cfg, events).sources), {a, b});
    AggregateIsNewest(cfg, events);
    assert Run(cfg, events) == Recompute(cfg, touched, now);
    BlendThenAge(cfg, touched, now);
    hide *;
    NormalFromLive(cfg, touched, now, a, b);
  }

  lemma NormalFromLive(cfg: Config, st: State, now: int, a: string, b: string)
    requires Valid(cfg) && cfg.freezeMs >= cfg.staleMs && a != b && Updated(st.sources) <= {a, b}
    requires Recompute(cfg, st, now).agg.stale <==> Fresh(cfg, st.sources, now) == {}
    ensures Recompute(cfg, st, now).risk.mode == Normal <==>
            && Live(cfg, st.sources, a, now) && Live(cfg, st.sources, b, now)
            && Close(st.sources[a].lastPrice, st.sources[b].lastPrice, cfg.divergencePct)
  {
    FreshIsLive(cfg, st.sources, now, a, b);
    assert {a, b} == {b, a};
    var liveA, liveB := Live(cfg, st.sources, a, now), Live(cfg, st.sources, b, now);
    hide Blend, Recompute, Fresh, Updated, Close, IsGap;
    if liveA && liveB {
      TwoLivePrices(cfg, st, now, a, b);
      NotStaleYet(cfg, st.sources, now, a, b);
    } else if liveA {
      OneLivePrice(cfg, st, now, a, b);
    } else if liveB {
      OneLivePrice(cfg, st, now, b, a);
    } else {
      StaleIsNotNormal(cfg, st, now);
    }
  }

  lemma StaleIsNotNormal(cfg: Config, st: State, now: int)
    requires Recompute(cfg, st, now).agg.stale
    ensures Recompute(cfg, st, now).risk.mode != Normal
  {
    BlendThenAge(cfg, st, now);
  }

  // ---------------------------------------------------------------- the error window

  /** Every error time of one source, pruned as each error arrives. */
  function PrunedAsTheyCome(times: seq<int>): seq<int> {
    if times == [] then [] else
      var t := times[|times| - 1];
      After(PrunedAsTheyCome(times[..|times| - 1]) + [t], t - ERROR_WINDOW_MS)
  }

  lemma AfterAppend(times: seq<int>, t: int, cutoff: int)
    ensures After(times + [t], cutoff) == After(times, cutoff) + if t > cutoff then [t] else []
  {
    assert (times + [t])[..|times|] == times;
  }

  lemma {:induction false} AfterAfter(times: seq<int>, c1: int, c2: int)
    requires c1 <= c2
    ensures After(After(times, c1), c2) == After(times, c2)
  {
    if times != [] {
      var init, t := times[..|times| - 1], times[|times| - 1];
      AfterAfter(init, c1, c2);
      if t > c1 {
        assert (After(init, c1) + [t])[..|After(init, c1)|] == After(init, c1);
      } else {
        assert After(times, c1) == After(init, c1);
      }
    }
  }

  /** Pruning at every error loses nothing: the list is exactly the errors of the last minute, for an ordered clock. */
  lemma {:induction false} ErrorWindowIsExact(times: seq<int>)
    requires forall i, j :: 0 <= i <= j < |times| ==> times[i] <= times[j]
    ensures times != [] ==> PrunedAsTheyCome(times) == After(times, times[|times| - 1] - ERROR_WINDOW_MS)
  {
    if times != [] {
      var init, t := times[..|times| - 1], times[|times| - 1];
      var c := t - ERROR_WINDOW_MS;
      assert times == init + [t];
      ErrorWindowIsExact(init);
      AfterAppend(PrunedAsTheyCome(init), t, c);
      AfterAppend(init, t, c);
      if init != [] {
        AfterAfter(init, init[|init| - 1] - ERROR_WINDOW_MS, c);
      }
    }
  }

  /** The times of the errors that one source reported, oldest first. */
  function ErrorTimes(events: seq<Event>, name: string): seq<int> {
    if events == [] then [] else
      var e := events[|events| - 1];
      ErrorTimes(events[..|events| - 1], name) +
      if Reports(e, name) then [e.at] else []
  }

  predicate Reports(e: Event, name: string) {
    e.SourceEvent? && e.source == name && e.err.Some?
  }

  /** Only an error of the source itself touches its list of errors. */
  lemma ErrorStep(cfg: Config, st: State, e: Event, name: string)
    requires name != ""
    ensures var s, s' := Known(st.sources, name), Known(Step(cfg, st, e).sources, name);
            && s'.errTimes == (if Reports(e, name) then After(s.errTimes + [e.at], e.at - ERROR_WINDOW_MS)
                               else s.errTimes)
            && s'.err1m == (if Reports(e, name) then |s'.errTimes| else s.err1m)
  {
    hide After;
  }

  /** One more event, told by the three histories. */
  lemma HistoriesGrow(cfg: Config, events: seq<Event>, name: string)
    ensures events != [] ==>
              var before, e := events[..|events| - 1], events[|events| - 1];
              && Run(cfg, events) == Step(cfg, Run(cfg, before), e)
              && ErrorTimes(events, name) == ErrorTimes(before, name) + if Reports(e, name) then [e.at] else []
  {
    hide Step;
  }

  lemma PrunedOneMore(times: seq<int>, t: int)
    ensures PrunedAsTheyCome(times + [t]) == After(PrunedAsTheyCome(times) + [t], t - ERROR_WINDOW_MS)
  {
    hide After;
    assert (times + [t])[..|times|] == times;
  }

  lemma NoErrorsYet(cfg: Config, name: string)
    ensures Known(Run(cfg, []).sources, name) == NEW_SOURCE && PrunedAsTheyCome(ErrorTimes([], name)) == []
  {
  }

  lemma {:induction false} KeptErrors(cfg: Config, events: seq<Event>, name: string)
    requires name != ""
    ensures var s := Known(Run(cfg, events).sources, name);
            s.errTimes == PrunedAsTheyCome(ErrorTimes(events, name)) && s.err1m == |s.errTimes|
  {
    hide Step, After, Run, PrunedAsTheyCome, ErrorTimes, Known;
    if events == [] {
      NoErrorsYet(cfg, name);
    } else {
      var before, e := events[..|events| - 1], events[|events| - 1];
      KeptErrors(cfg, before, name);
      HistoriesGrow(cfg, events, name);
      ErrorStep(cfg, Run(cfg, before), e, name);
      if Reports(e, name) {
        PrunedOneMore(ErrorTimes(before, name), e.at);
      } else {
        assert ErrorTimes(before, name) + [] == ErrorTimes(before, name);
      }
    }
  }

  /** The reported error count is the number of errors in the minute up to the source's last error. */
  lemma ErrorCountIsExact(cfg: Config, events: seq<Event>, name: string)
    requires name != ""
    requires var times := ErrorTimes(events, name); forall i, j :: 0 <= i <= j < |times| ==> times[i] <= times[j]
    ensures var times := ErrorTimes(events, name);
            times != [] ==>
              Known(Run(cfg, events).sources, name).err1m ==
              |After(times, times[|times| - 1] - ERROR_WINDOW_MS)|
  {
    hide Run, PrunedAsTheyCome, After, ErrorTimes, Known;
    KeptErrors(cfg, events, name);
    ErrorWindowIsExact(ErrorTimes(events, name));
  }
}
