/**
 The in-memory event stream: bounded channels that drop their oldest event when full, and the table of
 subscriptions (internal/events/memory_stream.go).
 */
module MemoryStream {

  // ---------------------------------------------------------------- one subscription

  /** Which of its three `select` statements a publisher executes next. */
  datatype Stage = Offer | DropOldest | Retry

  datatype Channel<E> = Channel(
    cap: nat,
    pending: map<nat, (E, Stage)>,  // publishers in the middle of Publish
    buf: seq<E>,
    published: seq<E>,              // in the order in which the Publish calls began
    received: seq<E>,
    dropped: seq<E>)

  datatype Step<E> = Begin(publisher: nat, event: E) | Advance(publisher: nat) | Receive

  /** A step that cannot happen (receiving from an empty channel, for instance) leaves the channel as it is. */
  predicate Enabled<E>(c: Channel<E>, step: Step<E>) {
    match step
    case Begin(p, _) => p !in c.pending
    case Advance(p) => p in c.pending
    case Receive => c.buf != []
  }

  /** One `select` of a publisher, or one receive by the subscriber. */
  function Apply<E>(c: Channel<E>, step: Step<E>): Channel<E> {
    if !Enabled(c, step) then c else
      match step
      case Begin(p, e) => c.(pending := c.pending[p := (e, Offer)], published := c.published + [e])
      case Receive => c.(received := c.received + [c.buf[0]], buf := c.buf[1..])
      case Advance(p) =>
        var (e, stage) := c.pending[p];
        match stage
        case Offer =>
          if |c.buf| < c.cap then c.(buf := c.buf + [e], pending := c.pending - {p})
          else c.(pending := c.pending[p := (e, DropOldest)])
        case DropOldest =>
          var c' := c.(pending := c.pending[p := (e, Retry)]);
          if c.buf == [] then c' else c'.(dropped := c.dropped + [c.buf[0]], buf := c.buf[1..])
        case Retry =>
          var c' := c.(pending := c.pending - {p});
          if |c.buf| < c.cap then c'.(buf := c.buf + [e]) else c'.(dropped := c.dropped + [e])
  }

  function Run<E>(cap: nat, steps: seq<Step<E>>): Channel<E> {
    if steps == [] then Channel(cap, map[], [], [], [], [])
    else Apply(Run(cap, steps[..|steps| - 1]), steps[|steps| - 1])
  }

  /** No Publish begins while another one is under way. */
  predicate Serialized<E>(cap: nat, steps: seq<Step<E>>) {
    steps == [] ||
    (var before := steps[..|steps| - 1];
     Serialized(cap, before) && (steps[|steps| - 1].Begin? ==> Run(cap, before).pending == map[]))
  }

  // ---------------------------------------------------------------- subsequences

  ghost predicate IsSubsequence<E>(a: seq<E>, b: seq<E>) {
    a == [] ||
    (b != [] &&
     var a', b' := a[..|a| - 1], b[..|b| - 1];
     (a[|a| - 1] == b[|b| - 1] && IsSubsequence(a', b')) || IsSubsequence(a, b'))
  }

  lemma SubsequenceExtends<E>(a: seq<E>, b: seq<E>, e: E)
    requires IsSubsequence(a, b)
    ensures IsSubsequence(a, b + [e])
    ensures IsSubsequence(a + [e], b + [e])
  {
    assert (a + [e])[..|a|] == a && (b + [e])[..|b|] == b;
  }

  lemma {:induction false} SubsequenceAppend<E>(a: seq<E>, b: seq<E>, tail: seq<E>)
    requires IsSubsequence(a, b)
    ensures IsSubsequence(a + tail, b + tail)
    decreases |tail|
  {
    if tail == [] {
      assert a + tail == a && b + tail == b;
    } else {
      var init, e := tail[..|tail| - 1], tail[|tail| - 1];
      SubsequenceAppend(a, b, init);
      SubsequenceExtends(a + init, b + init, e);
      assert a + tail == a + init + [e] && b + tail == b + init + [e];
    }
  }

  // ---------------------------------------------------------------- what every run keeps

  /** The publishers that are in the middle of publishing e. */
  ghost function Publishing<E>(pending: map<nat, (E, Stage)>, e: E): set<nat> {
    set p | p in pending && pending[p].0 == e
  }

  /** Every copy of e that was published is received, buffered, dropped or on its way. */
  ghost predicate Accounted<E>(c: Channel<E>, e: E) {
    multiset(c.published)[e] ==
    multiset(c.received)[e] + multiset(c.buf)[e] + multiset(c.dropped)[e] + |Publishing(c.pending, e)|
  }

  lemma PublishingWithout<E>(pending: map<nat, (E, Stage)>, p: nat, e: E)
    requires p in pending
    ensures |Publishing(pending - {p}, e)| == |Publishing(pending, e)| - if pending[p].0 == e then 1 else 0
  {
    assert Publishing(pending - {p}, e) == Publishing(pending, e) - if pending[p].0 == e then {p} else {};
  }

  lemma PublishingWith<E>(pending: map<nat, (E, Stage)>, p: nat, x: E, stage: Stage, e: E)
    requires p !in pending
    ensures |Publishing(pending[p := (x, stage)], e)| == |Publishing(pending, e)| + if x == e then 1 else 0
  {
    assert Publishing(pending[p := (x, stage)], e) == Publishing(pending, e) + if x == e then {p} else {};
  }

  lemma PublishingStill<E>(pending: map<nat, (E, Stage)>, p: nat, stage: Stage, e: E)
    requires p in pending
    ensures Publishing(pending[p := (pending[p].0, stage)], e) == Publishing(pending, e)
  {
  }

  lemma TakeFirst<E>(buf: seq<E>, out: seq<E>, e: E)
    requires buf != []
    ensures multiset(buf)[e] + multiset(out)[e] == multiset(buf[1..])[e] + multiset(out + [buf[0]])[e]
  {
    assert buf == [buf[0]] + buf[1..];
  }

  lemma AccountedStep<E>(c: Channel<E>, step: Step<E>, e: E)
    requires Accounted(c, e)
    ensures Accounted(Apply(c, step), e)
  {
    hide Publishing;
    if Enabled(c, step) {
      match step {
        case Begin(p, x) => PublishingWith(c.pending, p, x, Offer, e);
        case Receive => TakeFirst(c.buf, c.received, e);
        case Advance(p) => AccountedAdvance(c, p, e);
      }
    }
  }

  lemma AccountedAdvance<E>(c: Channel<E>, p: nat, e: E)
    requires Accounted(c, e) && p in c.pending
    ensures Accounted(Apply(c, Advance(p)), e)
  {
    hide Publishing;
    var (x, stage) := c.pending[p];
    match stage {
      case Offer =>
        if |c.buf| < c.cap {
          PublishingWithout(c.pending, p, e);
        } else {
          PublishingStill(c.pending, p, DropOldest, e);
        }
      case DropOldest =>
        PublishingStill(c.pending, p, Retry, e);
        if c.buf != [] {
          TakeFirst(c.buf, c.dropped, e);
        }
      case Retry => PublishingWithout(c.pending, p, e);
    }
  }

  /**
   Under any overlap of publishers the buffer is bounded, and every published copy of every event is in exactly one
   place.
   */
  lemma {:induction false} NothingUnaccounted<E>(cap: nat, steps: seq<Step<E>>, e: E)
    ensures var c := Run(cap, steps);
            && |c.buf| <= c.cap == cap
            && multiset(c.published)[e] ==
               multiset(c.received)[e] + multiset(c.buf)[e] + multiset(c.dropped)[e] + |Publishing(c.pending, e)|
  {
    hide Apply;
    if steps != [] {
      var before := steps[..|steps| - 1];
      NothingUnaccounted(cap, before, e);
      AccountedStep(Run(cap, before), steps[|steps| - 1], e);
      BufferBounded(Run(cap, before), steps[|steps| - 1]);
    }
  }

  lemma BufferBounded<E>(c: Channel<E>, step: Step<E>)
    ensures |c.buf| <= c.cap ==>
              |Apply(c, step).buf| <= Apply(c, step).cap == c.cap
  {
  }

  /** The Publish call under way, when there is at most one. */
  datatype Flight<E> = Idle | Busy(publisher: nat, event: E, stage: Stage)

  /**
   With one publisher at a time the buffer is always the newest stretch of the settled events (those whose
   Publish call has returned), and what has been received is a subsequence of the older ones. The newest
   settled event may be missing only while a newer one is about to be stored.
   */
  ghost predicate InOrder<E>(cap: nat, buf: seq<E>, received: seq<E>, storing: bool, done: seq<E>) {
    var older := |done| - |buf|;
    && (storing ==> |buf| < cap)
    && |buf| <= cap
    && older >= 0
    && buf == done[older..]
    && IsSubsequence(received, done[..older])
    && (buf == [] && done != [] && !storing ==> received != [] && received[|received| - 1] == done[|done| - 1])
  }

  function Pending<E>(f: Flight<E>): map<nat, (E, Stage)> {
    if f.Idle? then map[] else map[f.publisher := (f.event, f.stage)]
  }

  ghost predicate Orderly<E>(c: Channel<E>, f: Flight<E>, done: seq<E>) {
    && c.pending == Pending(f)
    && c.published == (if f.Idle? then done else done + [f.event])
    && InOrder(c.cap, c.buf, c.received, f.Busy? && f.stage == Retry, done)
  }

  /** The oldest buffered event is received, or dropped to make room. */
  lemma InOrderWithoutFirst<E>(cap: nat, buf: seq<E>, received: seq<E>, storing: bool, done: seq<E>)
    requires InOrder(cap, buf, received, storing, done) && buf != []
    ensures InOrder(cap, buf[1..], received + [buf[0]], storing, done)
    ensures InOrder(cap, buf[1..], received, true, done)
  {
    var older := |done| - |buf|;
    assert done[..older + 1] == done[..older] + [buf[0]];
    SubsequenceExtends(received, done[..older], buf[0]);
  }

  lemma InOrderWithOneMore<E>(cap: nat, buf: seq<E>, received: seq<E>, storing: bool, done: seq<E>, e: E)
    requires InOrder(cap, buf, received, storing, done) && |buf| < cap
    ensures InOrder(cap, buf + [e], received, false, done + [e])
  {
    hide IsSubsequence;
    var older := |done| - |buf|;
    assert buf + [e] == (done + [e])[older..] && (done + [e])[..older] == done[..older];
  }

  /** The three selects of the only publisher. */
  lemma AdvanceAlone<E>(c: Channel<E>, p: nat, e: E, stage: Stage)
    requires c.pending == map[p := (e, stage)]
    ensures stage != DropOldest && |c.buf| < c.cap ==> Apply(c, Advance(p)) == c.(buf := c.buf + [e], pending := map[])
    ensures stage == Offer && |c.buf| >= c.cap ==> Apply(c, Advance(p)) == c.(pending := map[p := (e, DropOldest)])
    ensures stage == DropOldest ==>
              Apply(c, Advance(p)) ==
              if c.buf == [] then c.(pending := map[p := (e, Retry)])
              else c.(pending := map[p := (e, Retry)], dropped := c.dropped + [c.buf[0]], buf := c.buf[1..])
  {
    assert c.pending[p] == (e, stage);
    assert c.pending - {p} == map[];
    assert c.pending[p := (e, DropOldest)] == map[p := (e, DropOldest)];
    assert c.pending[p := (e, Retry)] == map[p := (e, Retry)];
  }

  lemma OrderlyAdvance<E>(c: Channel<E>, f: Flight<E>, done: seq<E>) returns (f': Flight<E>, done': seq<E>)
    requires Orderly(c, f, done) && c.cap > 0 && f.Busy?
    ensures Orderly(Apply(c, Advance(f.publisher)), f', done')
  {
    hide InOrder, Apply;
    AdvanceAlone(c, f.publisher, f.event, f.stage);
    f', done' := f, done;
    if f.stage == DropOldest {
      f' := f.(stage := Retry);
      MakesRoom(c, done);
    } else if |c.buf| < c.cap {
      f', done' := Idle, done + [f.event];
      InOrderWithOneMore(c.cap, c.buf, c.received, f.stage == Retry, done, f.event);
    } else {
      f' := f.(stage := DropOldest);
      RetryHasRoom(c, f.stage == Retry, done);
    }
  }

  lemma MakesRoom<E>(c: Channel<E>, done: seq<E>)
    requires InOrder(c.cap, c.buf, c.received, false, done) && c.cap > 0
    ensures InOrder(c.cap, if c.buf == [] then [] else c.buf[1..], c.received, true, done)
  {
    if c.buf != [] {
      InOrderWithoutFirst(c.cap, c.buf, c.received, false, done);
    }
  }

  lemma RetryHasRoom<E>(c: Channel<E>, storing: bool, done: seq<E>)
    ensures InOrder(c.cap, c.buf, c.received, storing, done) ==>
              storing ==> |c.buf| < c.cap
  {
  }

  lemma OnlyIdleHasNonePending<E>(c: Channel<E>, f: Flight<E>, done: seq<E>)
    requires Orderly(c, f, done)
    ensures c.pending == map[] <==> f.Idle?
    ensures forall p :: p in c.pending ==> f.Busy? && p == f.publisher
  {
    hide InOrder;
    if f.Busy? {
      assert f.publisher in c.pending;
    }
  }

  lemma OrderlyReceive<E>(c: Channel<E>, f: Flight<E>, done: seq<E>)
    requires Orderly(c, f, done)
    ensures Orderly(Apply(c, Receive), f, done)
  {
    hide InOrder;
    if c.buf != [] {
      InOrderWithoutFirst(c.cap, c.buf, c.received, f.Busy? && f.stage == Retry, done);
    }
  }

  lemma OrderlyBegin<E>(c: Channel<E>, done: seq<E>, p: nat, e: E)
    requires Orderly(c, Idle, done)
    ensures Orderly(Apply(c, Begin(p, e)), Busy(p, e, Offer), done)
  {
    hide InOrder;
  }

  lemma OrderlyStep<E>(c: Channel<E>, f: Flight<E>, done: seq<E>, step: Step<E>) returns (f': Flight<E>, done': seq<E>)
    requires Orderly(c, f, done) && c.cap > 0
    requires step.Begin? ==> c.pending == map[]
    ensures Orderly(Apply(c, step), f', done')
  {
    OnlyIdleHasNonePending(c, f, done);
    hide Orderly;
    f', done' := f, done;
    match step {
      case Receive => OrderlyReceive(c, f, done);
      case Begin(p, e) =>
        OrderlyBegin(c, done, p, e);
        f' := Busy(p, e, Offer);
      case Advance(p) =>
        if p in c.pending {
          f', done' := OrderlyAdvance(c, f, done);
        }
    }
  }

  /** Returns the Publish call under way and the settled events. */
  lemma {:induction false} OrderlyRun<E>(cap: nat, steps: seq<Step<E>>) returns (f: Flight<E>, done: seq<E>)
    requires cap > 0 && Serialized(cap, steps)
    ensures Orderly(Run(cap, steps), f, done) && Run(cap, steps).cap == cap
  {
    if steps == [] {
      f, done := Idle, [];
    } else {
      f, done := OrderlyRun(cap, steps[..|steps| - 1]);
      f, done := OrderlyStep(Run(cap, steps[..|steps| - 1]), f, done, steps[|steps| - 1]);
    }
  }

  /**
   With one publisher at a time, and a subscriber that may receive between any two selects: what was received
   followed by what is buffered is a subsequence of what was published, in order, and between two Publish
   calls the newest event is there.
   */
  lemma DeliveredInOrder<E>(cap: nat, steps: seq<Step<E>>)
    requires cap > 0 && Serialized(cap, steps)
    ensures var c := Run(cap, steps);
            var seen := c.received + c.buf;
            && |c.buf| <= cap
            && IsSubsequence(seen, c.published)
            && (c.pending == map[] && c.published != [] ==>
                  seen != [] && seen[|seen| - 1] == c.published[|c.published| - 1])
  {
    hide IsSubsequence, Run, Serialized;
    var f, done := OrderlyRun(cap, steps);
    var c := Run(cap, steps);
    var older := |done| - |c.buf|;
    SubsequenceAppend(c.received, done[..older], c.buf);
    assert done == done[..older] + c.buf;
    OnlyIdleHasNonePending(c, f, done);
    if f.Busy? {
      SubsequenceExtends(c.received + c.buf, done, f.event);
    }
  }

  /**
   Two overlapping publishers can lose the newest event although nobody receives: the second one makes room,
   and the first one takes it.
   */
  lemma OverlapLosesNewest()
    ensures var steps := [Begin(0, 10), Advance(0), Begin(0, 11), Begin(1, 12), Advance(1), Advance(1), Advance(0),
                          Advance(1)];
            var c := Run(1, steps);
            && !Serialized(1, steps)
            && c.pending == map[] && c.published == [10, 11, 12]
            && c.buf == [11] && c.received == [] && c.dropped == [10, 12]
  {
    var c := Run<int>(1, []);
    var s1 := RunOneMore(1, [], Begin(0, 10));
    var s2 := RunOneMore(1, s1, Advance(0));
    assert Run(1, s2) == c.(buf := [10], published := [10]);
    var s3 := RunOneMore(1, s2, Begin(0, 11));
    var s4 := RunOneMore(1, s3, Begin(1, 12));
    assert Run(1, s4) == c.(buf := [10], pending := map[0 := (11, Offer), 1 := (12, Offer)], published := [10, 11, 12]);
    var s5 := RunOneMore(1, s4, Advance(1));
    var s6 := RunOneMore(1, s5, Advance(1));
    assert Run(1, s6) == c.(dropped := [10], pending := map[0 := (11, Offer), 1 := (12, Retry)],
                            published := [10, 11, 12]);
    var s7 := RunOneMore(1, s6, Advance(0));
    assert Run(1, s7) == c.(dropped := [10], buf := [11], pending := map[1 := (12, Retry)], published := [10, 11, 12]);
    var s8 := RunOneMore(1, s7, Advance(1));
    assert s8 == [Begin(0, 10), Advance(0), Begin(0, 11), Begin(1, 12), Advance(1), Advance(1), Advance(0), Advance(1)];
  }

  lemma RunOneMore<E>(cap: nat, steps: seq<Step<E>>, step: Step<E>) returns (steps': seq<Step<E>>)
    ensures steps' == steps + [step] && Run(cap, steps') == Apply(Run(cap, steps), step)
    ensures Serialized(cap, steps') ==> Serialized(cap, steps) && (step.Begin? ==> Run(cap, steps).pending == map[])
  {
    steps' := steps + [step];
    assert steps'[..|steps|] == steps;
  }

  // ---------------------------------------------------------------- the table of subscriptions

  ghost predicate NoDuplicates(s: seq<nat>) {
    forall i, j :: 0 <= i < j < |s| ==> s[i] != s[j]
  }

  /** Removes a channel by moving the last one into its place. */
  method SwapRemove(list: seq<nat>, ch: nat) returns (rest: seq<nat>)
    requires NoDuplicates(list)
    ensures NoDuplicates(rest)
    ensures forall x :: x in rest <==> x in list && x != ch
  {
    var i := 0;
    while i < |list|
      invariant 0 <= i <= |list|
      invariant ch !in list[..i]
    {
      if list[i] == ch {
        rest := list[i := list[|list| - 1]];
        rest := rest[..|list| - 1];
        forall x | x in list && x != ch ensures x in rest {
          var k :| 0 <= k < |list| && list[k] == x;
          assert rest[if k == |list| - 1 then i else k] == x;
        }
        return;
      }
      i := i + 1;
    }
    rest := list;
  }

  /** Every listed channel is open and listed once, under one topic, and no list is empty. */
  ghost predicate WellKept(subs: map<string, seq<nat>>, made: nat, closed: set<nat>) {
    && (forall t :: t in subs ==> subs[t] != [] && NoDuplicates(subs[t]))
    && (forall t, i :: t in subs && 0 <= i < |subs[t]| ==> subs[t][i] < made && subs[t][i] !in closed)
    && (forall t, u, i, j :: t in subs && u in subs && t != u && 0 <= i < |subs[t]| && 0 <= j < |subs[u]| ==>
          subs[t][i] != subs[u][j])
    && (forall c :: c in closed ==> c < made)
  }

  lemma AppendKeeps(subs: map<string, seq<nat>>, made: nat, closed: set<nat>, topic: string)
    requires WellKept(subs, made, closed)
    ensures var list := if topic in subs then subs[topic] else [];
            WellKept(subs[topic := list + [made]], made + 1, closed)
  {
    if topic in subs {
      assert NoDuplicates(subs[topic]);
    }
  }

  lemma RemoveKeeps(subs: map<string, seq<nat>>, made: nat, closed: set<nat>, topic: string, ch: nat, rest: seq<nat>)
    requires WellKept(subs, made, closed) && topic in subs && ch in subs[topic] && NoDuplicates(rest)
    requires forall x :: x in rest <==> x in subs[topic] && x != ch
    ensures WellKept(if rest == [] then subs - {topic} else subs[topic := rest], made, closed + {ch})
  {
    var list := subs[topic];
    var k :| 0 <= k < |list| && list[k] == ch;
    forall i | 0 <= i < |rest| ensures rest[i] != ch && exists j :: 0 <= j < |list| && list[j] == rest[i] {
      assert rest[i] in rest;
    }
  }

  /** Channels are numbered in the order in which they are made. */
  class Subscriptions {
    var subs: map<string, seq<nat>>
    var made: nat
    var closed: set<nat>

    ghost predicate Valid()
      reads this
    {
      WellKept(subs, made, closed)
    }

    function Listed(topic: string): seq<nat>
      reads this
    {
      if topic in subs then subs[topic] else []
    }

    constructor ()
      ensures Valid() && subs == map[] && made == 0
    {
      subs, made, closed := map[], 0, {};
    }

    method Subscribe(topic: string) returns (ch: nat)
      requires Valid()
      modifies this
      ensures Valid()
      ensures ch == old(made) && made == ch + 1 && closed == old(closed)
      ensures subs == old(subs)[topic := old(Listed(topic)) + [ch]]
    {
      AppendKeeps(subs, made, closed, topic);
      ch := made;
      subs := subs[topic := Listed(topic) + [ch]];
      made := made + 1;
    }

    /** The closure that Subscribe returns. A channel may not be closed twice, so it must still be listed. */
    method Cancel(topic: string, ch: nat)
      requires Valid() && ch in Listed(topic)
      modifies this
      ensures Valid()
      ensures forall c :: c in Listed(topic) <==> c in old(Listed(topic)) && c != ch
      ensures closed == old(closed) + {ch} && made == old(made)
      ensures subs - {topic} == old(subs) - {topic}
    {
      var rest := SwapRemove(subs[topic], ch);
      RemoveKeeps(subs, made, closed, topic, ch, rest);
      if rest == [] {
        subs := subs - {topic};
      } else {
        subs := subs[topic := rest];
      }
      closed := closed + {ch};
    }
  }
}
