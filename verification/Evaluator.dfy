/**
 The first-reject evaluator: rules are consulted in order until one rejects, and among several modifications
 the most conservative one wins (internal/riskcontrol/evaluator.go, degrade.go).
 */
module Evaluator {
  import opened Basics
  import opened Names
  import opened Text
  import opened RiskTypes

  /** A rule looks at a context and at a state that it may change. */
  datatype Rule<!C, !S> = Rule(id: string, eval: (C, S) -> (RiskDecision, S))

  datatype Evaluation = Evaluation(verdict: Verdict, reason: string, ruleId: string, decisions: seq<RiskDecision>)

  /** The evaluator fills in what a rule left blank. */
  function Tidied(d: RiskDecision, ruleId: string): RiskDecision {
    d.(ruleId := if TrimSpace(d.ruleId) == "" then TrimSpace(ruleId) else TrimSpace(d.ruleId),
       reason := if d.reason == "" then "unspecified" else d.reason,
       verdict := if d.verdict == Unset then Approve else d.verdict)
  }

  predicate Stops(d: RiskDecision) {
    d.verdict == Reject || d.verdict.Invalid?
  }

  // ---------------------------------------------------------------- the most conservative modification

  const MAX_INT: int := MAX_INT64
  const FAR_FUTURE: int := 0x4000_0000_0000_0000 * 1000

  function UrgencyOrMax(u: Option<int>): int {
    if u.Some? then u.value else MAX_INT
  }

  function DeadlineOrMax(d: Option<int>): int {
    if d.Some? && d.value != ZERO_TIME then d.value else FAR_FUTURE
  }

  function MostConservative(a: RiskDecision, b: RiskDecision): RiskDecision {
    match (a.degrade, b.degrade)
    case (None, Some(_)) => b
    case (Some(_), None) => a
    case (None, None) => if LexLe(a.ruleId, b.ruleId) then a else b
    case (Some(x), Some(y)) =>
      if UrgencyOrMax(x.urgency) != UrgencyOrMax(y.urgency) then
        if UrgencyOrMax(x.urgency) < UrgencyOrMax(y.urgency) then a else b
      else if DeadlineOrMax(x.deadline) != DeadlineOrMax(y.deadline) then
        if DeadlineOrMax(x.deadline) < DeadlineOrMax(y.deadline) then a else b
      else if LexLe(a.ruleId, b.ruleId) then a else b
  }

  /** The place of a decision: with a degradation first, then lower urgency, then earlier deadline. */
  function Place(d: RiskDecision): (int, int, int) {
    match d.degrade
    case None => (1, 0, 0)
    case Some(g) => (0, UrgencyOrMax(g.urgency), DeadlineOrMax(g.deadline))
  }

  predicate Before(x: (int, int, int), y: (int, int, int)) {
    x.0 < y.0 || (x.0 == y.0 && (x.1 < y.1 || (x.1 == y.1 && x.2 < y.2)))
  }

  /** a comes no later than b: by place, and by rule id within one place. */
  predicate NoLater(a: RiskDecision, b: RiskDecision) {
    Before(Place(a), Place(b)) || (Place(a) == Place(b) && LexLe(a.ruleId, b.ruleId))
  }

  lemma NoLaterIsTotalPreorder(a: RiskDecision, b: RiskDecision, c: RiskDecision)
    ensures NoLater(a, b) || NoLater(b, a)
    ensures NoLater(a, b) && NoLater(b, c) ==> NoLater(a, c)
    ensures NoLater(a, b) && NoLater(b, a) ==> Place(a) == Place(b) && a.ruleId == b.ruleId
  {
    LexTotal(a.ruleId, b.ruleId);
    if LexLe(a.ruleId, b.ruleId) && LexLe(b.ruleId, c.ruleId) {
      LexTransitive(a.ruleId, b.ruleId, c.ruleId);
    }
  }

  /** The pairwise choice is the minimum of that order. */
  lemma ChoiceIsMinimum(a: RiskDecision, b: RiskDecision)
    ensures MostConservative(a, b) == if NoLater(a, b) then a else b
    ensures NoLater(MostConservative(a, b), a) && NoLater(MostConservative(a, b), b)
  {
    NoLaterIsTotalPreorder(a, b, a);
    LexTotal(a.ruleId, a.ruleId);
    LexTotal(b.ruleId, b.ruleId);
  }

  /** A deadline that is set: neither missing nor the zero time. */
  predicate HasDeadline(g: Degradation) {
    g.deadline.Some? && g.deadline.value != ZERO_TIME
  }

  /**
   Which of two modifications wins, whichever comes first: one with a degradation; then the lower urgency, a missing one
   being the highest; then the earlier deadline, a missing one being the latest.
   */
  lemma PreferredModification(a: RiskDecision, b: RiskDecision)
    ensures a.degrade.Some? && b.degrade.None? ==> MostConservative(a, b) == MostConservative(b, a) == a
    ensures a.degrade.Some? && b.degrade.Some? ==>
              var x, y := a.degrade.value, b.degrade.value;
              && (x.urgency.Some? && y.urgency.Some? && x.urgency.value < y.urgency.value ==>
                    MostConservative(a, b) == MostConservative(b, a) == a)
              && (x.urgency.Some? && y.urgency.None? && x.urgency.value < MAX_INT64 ==>
                    MostConservative(a, b) == MostConservative(b, a) == a)
              && (x.urgency == y.urgency && HasDeadline(x) && HasDeadline(y) && x.deadline.value < y.deadline.value ==>
                    MostConservative(a, b) == MostConservative(b, a) == a)
              && (x.urgency == y.urgency && HasDeadline(x) && !HasDeadline(y) && x.deadline.value < FAR_FUTURE ==>
                    MostConservative(a, b) == MostConservative(b, a) == a)
              && (x.urgency == y.urgency && !HasDeadline(x) && !HasDeadline(y) && a.ruleId != b.ruleId
                  && LexLe(a.ruleId, b.ruleId) ==>
                    MostConservative(a, b) == MostConservative(b, a) == a)
    ensures a.degrade.None? && b.degrade.None? && a.ruleId != b.ruleId && LexLe(a.ruleId, b.ruleId) ==>
              MostConservative(a, b) == MostConservative(b, a) == a
  {
    LexTotal(a.ruleId, b.ruleId);
    hide LexLe;
  }

  // ---------------------------------------------------------------- evaluation

  /** The decisions of the rules that are consulted, and the state they leave. */
  function Consulted<C, S>(rules: seq<Rule<C, S>>, ctx: C, s: S): (seq<RiskDecision>, S) {
    if rules == [] then ([], s)
    else
      var (d, s') := rules[0].eval(ctx, s);
      var tidy := Tidied(d, rules[0].id);
      if Stops(tidy) then ([tidy], s')
      else
        var (rest, s'') := Consulted(rules[1..], ctx, s');
        ([tidy] + rest, s'')
  }

  /** The winner among the modifications of a list, folded from the left. */
  function Winner(ds: seq<RiskDecision>): Option<RiskDecision> {
    if ds == [] then None
    else
      var before, d := Winner(ds[..|ds| - 1]), ds[|ds| - 1];
      if d.verdict != Modify then before
      else if before.None? then Some(d)
      else Some(MostConservative(before.value, d))
  }

  /** The final verdict that a list of consulted decisions leads to. */
  function Conclude(ds: seq<RiskDecision>): Evaluation {
    if ds != [] && Stops(ds[|ds| - 1]) then
      var d := ds[|ds| - 1];
      Evaluation(Reject, if d.verdict == Reject then d.reason else InvalidReason(d.verdict), d.ruleId, ds)
    else
      var w := Winner(ds);
      if w.Some? then Evaluation(Modify, w.value.reason, w.value.ruleId, ds)
      else Evaluation(Approve, "all_rules_approved", "risk_control", ds)
  }

  function InvalidReason(v: Verdict): string {
    "invalid_verdict=" + if v.Invalid? then v.text else ""
  }

  lemma NothingConsulted<C, S>(rules: seq<Rule<C, S>>, ctx: C, s: S)
    ensures rules == [] ==>
              Consulted(rules, ctx, s) == ([], s)
  {
  }

  lemma NoWinner()
    ensures Winner([]) == None
  {
  }

  lemma ConsultedStep<C, S>(rules: seq<Rule<C, S>>, ctx: C, s: S)
    requires rules != []
    ensures var (d, s') := rules[0].eval(ctx, s);
            var tidy := Tidied(d, rules[0].id);
            Consulted(rules, ctx, s) ==
            if Stops(tidy) then ([tidy], s')
            else ([tidy] + Consulted(rules[1..], ctx, s').0, Consulted(rules[1..], ctx, s').1)
  {
    hide Tidied, Stops;
  }

  lemma WinnerStep(before: seq<RiskDecision>, d: RiskDecision)
    ensures var w := Winner(before);
            Winner(before + [d]) ==
            if d.verdict != Modify then w else if w.None? then Some(d) else Some(MostConservative(w.value, d))
  {
    hide MostConservative;
    assert (before + [d])[..|before|] == before;
  }

  method Evaluate<C, S>(rules: seq<Rule<C, S>>, ctx: C, s: S) returns (ev: Evaluation, s': S)
    ensures ev == Conclude(Consulted(rules, ctx, s).0) && s' == Consulted(rules, ctx, s).1
  {
    hide MostConservative, Tidied, Consulted, Winner, Stops;
    NoWinner();
    s' := s;
    var decisions: seq<RiskDecision> := [];
    var best: Option<RiskDecision> := None;
    assert rules[0..] == rules;
    for i := 0 to |rules|
      invariant Consulted(rules, ctx, s).0 == decisions + Consulted(rules[i..], ctx, s').0
      invariant Consulted(rules, ctx, s).1 == Consulted(rules[i..], ctx, s').1
      invariant best == Winner(decisions)
      invariant decisions != [] ==> !Stops(decisions[|decisions| - 1])
    {
      ConsultedStep(rules[i..], ctx, s');
      assert rules[i..][1..] == rules[i + 1..];
      var (d, s1) := rules[i].eval(ctx, s');
      d, s' := Tidied(d, rules[i].id), s1;
      decisions := decisions + [d];
      if Stops(d) {
        ev := Evaluation(Reject, if d.verdict == Reject then d.reason else InvalidReason(d.verdict), d.ruleId,
                         decisions);
        return;
      }
      WinnerStep(decisions[..|decisions| - 1], d);
      assert decisions[..|decisions| - 1] + [d] == decisions;
      if d.verdict == Modify {
        best := match best case None => Some(d) case Some(b) => Some(MostConservative(b, d));
      }
    }
    NothingConsulted(rules[|rules|..], ctx, s');
    assert decisions + [] == decisions;
    match best {
      case Some(w) => ev := Evaluation(Modify, w.reason, w.ruleId, decisions);
      case None => ev := Evaluation(Approve, "all_rules_approved", "risk_control", decisions);
    }
  }

  // ---------------------------------------------------------------- what the verdict means

  /** Only the last consulted rule can have stopped the evaluation. */
  lemma {:induction false} OnlyLastStops<C, S>(rules: seq<Rule<C, S>>, ctx: C, s: S)
    ensures var ds := Consulted(rules, ctx, s).0;
            |ds| <= |rules| && forall i :: 0 <= i < |ds| - 1 ==> !Stops(ds[i])
    ensures forall d :: d in Consulted(rules, ctx, s).0 ==> d.verdict != Unset
  {
    if rules != [] {
      var (d, s') := rules[0].eval(ctx, s);
      if !Stops(Tidied(d, rules[0].id)) {
        OnlyLastStops(rules[1..], ctx, s');
      }
    }
  }

  /** The winner is a minimum of the order over all modifications. */
  lemma {:induction false} WinnerIsLeast(ds: seq<RiskDecision>)
    ensures Winner(ds).None? <==> forall d :: d in ds ==> d.verdict != Modify
    ensures Winner(ds).Some? ==>
              var w := Winner(ds).value;
              w in ds && w.verdict == Modify && forall d :: d in ds && d.verdict == Modify ==> NoLater(w, d)
  {
    if ds != [] {
      var init, d := ds[..|ds| - 1], ds[|ds| - 1];
      WinnerIsLeast(init);
      assert ds == init + [d];
      NoLaterIsTotalPreorder(d, d, d);
      if d.verdict == Modify && Winner(init).Some? {
        var b, w := Winner(init).value, Winner(ds).value;
        ChoiceIsMinimum(b, d);
        forall x | x in ds && x.verdict == Modify ensures NoLater(w, x) {
          if x in init {
            NoLaterIsTotalPreorder(w, b, x);
          }
        }
      }
    }
  }

  /**
   What the evaluation reports: a rejection under the rule that rejected and for its reason, or for its invalid verdict
   by name; a modification under the winner; an approval under the evaluator's own name.
   */
  lemma ReportedRule<C, S>(rules: seq<Rule<C, S>>, ctx: C, s: S)
    ensures var ds := Consulted(rules, ctx, s).0;
            var ev := Conclude(ds);
            && ev.decisions == ds
            && (ev.verdict == Reject ==>
                  && ds != []
                  && var d := ds[|ds| - 1];
                     && ev.ruleId == d.ruleId
                     && (d.verdict == Reject ==> ev.reason == d.reason)
                     && (d.verdict != Reject ==>
                         d.verdict.Invalid? && ev.reason == "invalid_verdict=" + d.verdict.text))
            && (ev.verdict == Modify ==>
                  exists d :: d in ds && d.verdict == Modify && ev.ruleId == d.ruleId && ev.reason == d.reason)
            && (ev.verdict == Approve ==> ev.ruleId == "risk_control" && ev.reason == "all_rules_approved")
            && (ev.verdict == Approve <==> forall d :: d in ds ==> d.verdict == Approve)
  {
    var ds := Consulted(rules, ctx, s).0;
    OnlyLastStops(rules, ctx, s);
    WinnerIsLeast(ds);
    hide Consulted;
    if Conclude(ds).verdict == Modify {
      assert Winner(ds).value in ds;
    }
    if ds != [] {
      assert ds[|ds| - 1] in ds;
    }
    if Conclude(ds).verdict == Approve {
      forall d | d in ds ensures d.verdict == Approve {
        var i :| 0 <= i < |ds| && ds[i] == d;
      }
    }
  }

  /**
   What the evaluator makes of a rule's answer: the trimmed rule id of the decision, or else of the rule; a reason that
   is not empty; and a verdict that is not.
   */
  lemma TidiedDecision(d: RiskDecision, ruleId: string)
    ensures var t := Tidied(d, ruleId);
            && t.ruleId == (if TrimSpace(d.ruleId) != "" then TrimSpace(d.ruleId) else TrimSpace(ruleId))
            && t.reason != "" && (d.reason != "" ==> t.reason == d.reason)
            && t.verdict != Unset && (d.verdict != Unset ==> t.verdict == d.verdict)
            && (d.verdict == Unset ==> t.verdict == Approve)
            && t.degrade == d.degrade
  {
    hide TrimSpace;
  }

  /** A rule whose decision and effect do not depend on the state. */
  ghost predicate Stateless<C, S(!new)>(r: Rule<C, S>, ctx: C) {
    forall s, t :: r.eval(ctx, s).1 == s && r.eval(ctx, s).0 == r.eval(ctx, t).0
  }

  /** What each rule would decide if all of them were consulted. */
  function Opinions<C, S>(rules: seq<Rule<C, S>>, ctx: C, s: S): seq<RiskDecision> {
    if rules == [] then [] else [Tidied(rules[0].eval(ctx, s).0, rules[0].id)] + Opinions(rules[1..], ctx, s)
  }

  /** For stateless rules the consulted decisions are the opinions up to the first one that stops. */
  lemma {:induction false} ConsultedAreOpinions<C, S(!new)>(rules: seq<Rule<C, S>>, ctx: C, s: S)
    requires forall r :: r in rules ==> Stateless(r, ctx)
    ensures var (ds, s') := Consulted(rules, ctx, s);
            var all := Opinions(rules, ctx, s);
            && s' == s && |ds| <= |all| == |rules| && ds == all[..|ds|]
            && (if exists d :: d in all && Stops(d) then ds != [] && Stops(ds[|ds| - 1]) else ds == all)
  {
    hide Tidied, Stops;
    if rules != [] {
      var r := rules[0];
      assert Stateless(r, ctx);
      var (d, s') := r.eval(ctx, s);
      assert s' == s;
      var tidy, rest := Tidied(d, r.id), Opinions(rules[1..], ctx, s);
      var all := Opinions(rules, ctx, s);
      assert all == [tidy] + rest;
      ConsultedAreOpinions(rules[1..], ctx, s);
      assert forall x :: x in all <==> x == tidy || x in rest;
      if !Stops(tidy) {
        var ds := Consulted(rules[1..], ctx, s).0;
        assert [tidy] + rest[..|ds|] == all[..|ds| + 1];
      } else {
        assert tidy in all;
      }
    }
  }

  ghost predicate SomeStops(ds: seq<RiskDecision>) {
    exists d :: d in ds && Stops(d)
  }

  /** The conclusion in terms of all opinions. */
  lemma ConclusionFromOpinions<C, S(!new)>(rules: seq<Rule<C, S>>, ctx: C, s: S)
    requires forall r :: r in rules ==> Stateless(r, ctx)
    ensures var ev, all := Conclude(Consulted(rules, ctx, s).0), Opinions(rules, ctx, s);
            && (ev.verdict == Reject <==> SomeStops(all))
            && (!SomeStops(all) ==> ev.decisions == all && (ev.verdict == Modify <==> Winner(all).Some?))
            && (ev.verdict == Modify ==> ev.ruleId == Winner(all).value.ruleId)
            && ev.verdict in {Approve, Modify, Reject}
  {
    ConsultedAreOpinions(rules, ctx, s);
  }

  lemma SameWinner(all: seq<RiskDecision>, all': seq<RiskDecision>)
    requires multiset(all) == multiset(all')
    ensures SomeStops(all) <==> SomeStops(all')
    ensures Winner(all).Some? <==> Winner(all').Some?
    ensures Winner(all).Some? ==>
              Winner(all).value.ruleId == Winner(all').value.ruleId
                  && Place(Winner(all).value) == Place(Winner(all').value)
  {
    forall d ensures d in all <==> d in all' {
      assert d in all <==> d in multiset(all);
      assert d in all' <==> d in multiset(all');
    }
    WinnerIsLeast(all);
    WinnerIsLeast(all');
    if Winner(all).Some? {
      NoLaterIsTotalPreorder(Winner(all).value, Winner(all').value, Winner(all).value);
    }
  }

  function Mapped<T, U>(f: T -> U, s: seq<T>): seq<U> {
    if s == [] then [] else Mapped(f, s[..|s| - 1]) + [f(s[|s| - 1])]
  }

  lemma {:induction false} MappedWithout<T, U>(f: T -> U, s: seq<T>, k: nat)
    requires k < |s|
    ensures multiset(Mapped(f, s)) == multiset(Mapped(f, s[..k] + s[k + 1..])) + multiset{f(s[k])}
  {
    var init, last := s[..|s| - 1], s[|s| - 1];
    if k == |init| {
      assert s[..k] + s[k + 1..] == init;
    } else {
      MappedWithout(f, init, k);
      var rest := init[..k] + init[k + 1..];
      assert s[..k] + s[k + 1..] == rest + [last];
      assert (rest + [last])[..|rest|] == rest;
    }
  }

  lemma MultisetWithout<T>(t: seq<T>, k: nat)
    requires k < |t|
    ensures multiset(t[..k] + t[k + 1..]) == multiset(t) - multiset{t[k]}
  {
    assert t == t[..k] + [t[k]] + t[k + 1..];
  }

  lemma {:induction false} MappedPermutation<T, U>(f: T -> U, s: seq<T>, t: seq<T>)
    requires multiset(s) == multiset(t)
    ensures multiset(Mapped(f, s)) == multiset(Mapped(f, t))
    decreases |s|
  {
    assert |s| == |multiset(s)| == |multiset(t)| == |t|;
    if s != [] {
      assert s[|s| - 1] in multiset(t);
      var k :| 0 <= k < |t| && t[k] == s[|s| - 1];
      MultisetWithout(t, k);
      MultisetWithout(s, |s| - 1);
      assert s[..|s| - 1] + s[|s|..] == s[..|s| - 1];
      MappedPermutation(f, s[..|s| - 1], t[..k] + t[k + 1..]);
      MappedWithout(f, t, k);
    }
  }

  function Opinion<C, S>(ctx: C, s: S): Rule<C, S> -> RiskDecision {
    (r: Rule<C, S>) => Tidied(r.eval(ctx, s).0, r.id)
  }

  lemma {:induction false} OpinionsAreMapped<C, S(!new)>(rules: seq<Rule<C, S>>, ctx: C, s: S)
    ensures Opinions(rules, ctx, s) == Mapped(Opinion<C, S>(ctx, s), rules)
  {
    hide Tidied;
    if rules != [] {
      OpinionsAreMapped(rules[1..], ctx, s);
      MappedFromFront(Opinion<C, S>(ctx, s), rules);
    }
  }

  lemma {:induction false} MappedFromFront<T, U>(f: T -> U, s: seq<T>)
    requires s != []
    ensures Mapped(f, s) == [f(s[0])] + Mapped(f, s[1..])
  {
    var init := s[..|s| - 1];
    if init != [] {
      MappedFromFront(f, init);
      assert init[1..] == s[1..][..|s| - 2];
    }
  }

  /**
   For stateless rules the verdict does not depend on the order of the rules: a permutation of them reaches the
   same verdict, and a final MODIFY names the same rule with the same place.
   */
  lemma VerdictIgnoresOrder<C, S(!new)>(rules: seq<Rule<C, S>>, shuffled: seq<Rule<C, S>>, ctx: C, s: S)
    requires multiset(rules) == multiset(shuffled)
    requires forall r :: r in rules ==> Stateless(r, ctx)
    ensures var ev, ev' := Conclude(Consulted(rules, ctx, s).0), Conclude(Consulted(shuffled, ctx, s).0);
            && ev.verdict == ev'.verdict
            && (ev.verdict == Modify ==>
                  && ev.ruleId == ev'.ruleId
                  && Place(Winner(ev.decisions).value) == Place(Winner(ev'.decisions).value))
  {
    forall r | r in shuffled ensures Stateless(r, ctx) {
      assert r in multiset(rules);
    }
    OpinionsAreMapped(rules, ctx, s);
    OpinionsAreMapped(shuffled, ctx, s);
    MappedPermutation(Opinion<C, S>(ctx, s), rules, shuffled);
    ConclusionFromOpinions(rules, ctx, s);
    ConclusionFromOpinions(shuffled, ctx, s);
    SameWinner(Opinions(rules, ctx, s), Opinions(shuffled, ctx, s));
  }

  /** The count of rejecting decisions tells how the evaluation ended: one for a rejection, none otherwise. */
  function Rejections(ds: seq<RiskDecision>): nat {
    if ds == [] then 0 else Rejections(ds[..|ds| - 1]) + if ds[|ds| - 1].verdict == Reject then 1 else 0
  }

  lemma {:induction false} NoRejections(ds: seq<RiskDecision>)
    requires forall i :: 0 <= i < |ds| ==> !Stops(ds[i])
    ensures Rejections(ds) == 0
  {
    if ds != [] {
      NoRejections(ds[..|ds| - 1]);
    }
  }

  /** An evaluation rejects with exactly one rejecting decision, or with an invalid verdict and none. */
  lemma RejectsOnce<C, S>(rules: seq<Rule<C, S>>, ctx: C, s: S)
    ensures var ds := Consulted(rules, ctx, s).0;
            && Rejections(ds) == (if ds != [] && ds[|ds| - 1].verdict == Reject then 1 else 0)
            && (Conclude(ds).verdict == Reject <==> Rejections(ds) == 1 || (ds != [] && ds[|ds| - 1].verdict.Invalid?))
  {
    var ds := Consulted(rules, ctx, s).0;
    OnlyLastStops(rules, ctx, s);
    if ds != [] {
      NoRejections(ds[..|ds| - 1]);
    }
  }

  /** A rule that only ever approves or rejects. */
  ghost predicate TwoValued<C, S(!new)>(r: Rule<C, S>, ctx: C) {
    forall s :: r.eval(ctx, s).0.verdict == Approve || r.eval(ctx, s).0.verdict == Reject
  }

  /** The verdict of rules that only approve or reject: the first rejection ends it. */
  function Screen<C, S>(rules: seq<Rule<C, S>>, ctx: C, s: S): (Verdict, S) {
    if rules == [] then (Approve, s)
    else
      var (d, s') := rules[0].eval(ctx, s);
      if d.verdict == Reject then (Reject, s') else Screen(rules[1..], ctx, s')
  }

  lemma {:induction false} ScreenIsVerdict<C, S(!new)>(rules: seq<Rule<C, S>>, ctx: C, s: S)
    requires forall r :: r in rules ==> TwoValued(r, ctx)
    ensures var (ds, s') := Consulted(rules, ctx, s);
            (Conclude(ds).verdict, s') == Screen(rules, ctx, s) && Winner(ds).None?
  {
    hide Consulted, Winner, Tidied;
    if rules == [] {
      NothingConsulted(rules, ctx, s);
      NoWinner();
    } else {
      var (d, s1) := rules[0].eval(ctx, s);
      var tidy := Tidied(d, rules[0].id);
      assert TwoValued(rules[0], ctx);
      TidiedDecision(d, rules[0].id);
      ConsultedStep(rules, ctx, s);
      var rest := Consulted(rules[1..], ctx, s1).0;
      ScreenIsVerdict(rules[1..], ctx, s1);
      WinnerIsLeast(rest);
      WinnerIsLeast([tidy]);
      WinnerIsLeast([tidy] + rest);
    }
  }
}
