/** Sorting integers, and the rank of an element, for the statistics and the sample collector. */
module Ranks {

  function InsertAsc(s: seq<int>, x: int): seq<int> {
    if s == [] || s[|s| - 1] <= x then s + [x] else InsertAsc(s[..|s| - 1], x) + [s[|s| - 1]]
  }

  function SortAsc(s: seq<int>): seq<int> {
    if s == [] then [] else InsertAsc(SortAsc(s[..|s| - 1]), s[|s| - 1])
  }

  ghost predicate Ascending(s: seq<int>) {
    forall i, j :: 0 <= i <= j < |s| ==> s[i] <= s[j]
  }

  lemma {:induction false} InsertKeepsOrder(s: seq<int>, x: int)
    requires Ascending(s)
    ensures Ascending(InsertAsc(s, x)) && |InsertAsc(s, x)| == |s| + 1
    ensures forall y :: y in InsertAsc(s, x) <==> y == x || y in s
  {
    if s != [] && s[|s| - 1] > x {
      var init, last := s[..|s| - 1], s[|s| - 1];
      InsertKeepsOrder(init, x);
      assert s == init + [last];
      var t := InsertAsc(init, x);
      forall i | 0 <= i < |t| ensures t[i] <= last {
        assert t[i] in t;
      }
    }
  }

  lemma {:induction false} SortIsSorted(s: seq<int>)
    ensures Ascending(SortAsc(s)) && |SortAsc(s)| == |s|
    ensures forall y :: y in SortAsc(s) <==> y in s
  {
    if s != [] {
      var init, last := s[..|s| - 1], s[|s| - 1];
      assert s == init + [last];
      SortIsSorted(init);
      InsertKeepsOrder(SortAsc(init), last);
    }
  }

  function CountBelow(s: seq<int>, v: int): nat {
    if s == [] then 0 else CountBelow(s[..|s| - 1], v) + if s[|s| - 1] < v then 1 else 0
  }

  function CountUpTo(s: seq<int>, v: int): nat {
    CountBelow(s, v + 1)
  }

  lemma {:induction false} InsertCounts(s: seq<int>, x: int, v: int)
    ensures CountBelow(InsertAsc(s, x), v) == CountBelow(s, v) + if x < v then 1 else 0
  {
    if s == [] || s[|s| - 1] <= x {
      assert (s + [x])[..|s|] == s;
    } else {
      var init, last := s[..|s| - 1], s[|s| - 1];
      InsertCounts(init, x, v);
      assert (InsertAsc(init, x) + [last])[..|InsertAsc(init, x)|] == InsertAsc(init, x);
    }
  }

  lemma {:induction false} SortCounts(s: seq<int>, v: int)
    ensures CountBelow(SortAsc(s), v) == CountBelow(s, v)
  {
    if s != [] {
      SortCounts(s[..|s| - 1], v);
      InsertCounts(SortAsc(s[..|s| - 1]), s[|s| - 1], v);
    }
  }

  /** In a sorted list, at most r elements are below the one at r, and more than r are up to it. */
  lemma {:induction false} CountInSorted(s: seq<int>, r: nat, v: int)
    requires Ascending(s) && r < |s|
    ensures v <= s[r] ==> CountBelow(s, v) <= r
    ensures v > s[r] ==> CountBelow(s, v) > r
  {
    var init := s[..|s| - 1];
    if r < |init| {
      CountInSorted(init, r, v);
    } else if init != [] {
      CountInSorted(init, |init| - 1, v);
      CountAtMost(init, v);
    }
  }

  lemma {:induction false} CountAtMost(s: seq<int>, v: int)
    ensures CountBelow(s, v) <= |s|
  {
    if s != [] {
      CountAtMost(s[..|s| - 1], v);
    }
  }

  /** v is the element of rank r: at most r elements are smaller, and more than r are not larger. */
  ghost predicate HasRank(s: seq<int>, r: nat, v: int) {
    v in s && CountBelow(s, v) <= r < CountUpTo(s, v)
  }

  lemma SortedHasRank(s: seq<int>, r: nat)
    requires r < |s|
    ensures r < |SortAsc(s)| && HasRank(s, r, SortAsc(s)[r])
  {
    hide SortAsc, CountBelow;
    SortIsSorted(s);
    var v := SortAsc(s)[r];
    assert v in SortAsc(s);
    CountInSorted(SortAsc(s), r, v);
    CountInSorted(SortAsc(s), r, v + 1);
    SortCounts(s, v);
    SortCounts(s, v + 1);
  }

  // ---------------------------------------------------------------- the n largest

  function InsertDesc(s: seq<int>, x: int): seq<int> {
    if s == [] || s[0] < x then [x] + s else [s[0]] + InsertDesc(s[1..], x)
  }

  function SortDesc(s: seq<int>): seq<int> {
    if s == [] then [] else InsertDesc(SortDesc(s[..|s| - 1]), s[|s| - 1])
  }

  ghost predicate Descending(s: seq<int>) {
    forall i, j :: 0 <= i <= j < |s| ==> s[i] >= s[j]
  }

  function Take(n: nat, s: seq<int>): seq<int> {
    if |s| <= n then s else s[..n]
  }

  lemma {:induction false} InsertDescShape(s: seq<int>, x: int)
    requires Descending(s)
    ensures Descending(InsertDesc(s, x)) && |InsertDesc(s, x)| == |s| + 1
    ensures multiset(InsertDesc(s, x)) == multiset(s) + multiset{x}
  {
    if s != [] && s[0] >= x {
      InsertDescShape(s[1..], x);
      assert s == [s[0]] + s[1..];
      ConsKeepsOrder(s[0], s[1..], InsertDesc(s[1..], x), x);
    } else if s != [] {
      assert multiset([x] + s) == multiset{x} + multiset(s);
    }
  }

  lemma ConsKeepsOrder(y: int, s: seq<int>, t: seq<int>, x: int)
    requires Descending([y] + s) && y >= x && Descending(t) && multiset(t) == multiset(s) + multiset{x}
    ensures Descending([y] + t)
  {
    forall i | 0 <= i < |t| ensures y >= t[i] {
      assert t[i] in multiset(t);
      assert t[i] in multiset(s) || t[i] == x;
      if t[i] in s {
        var j :| 0 <= j < |s| && s[j] == t[i];
        assert ([y] + s)[0] >= ([y] + s)[j + 1] == s[j];
      }
    }
  }

  lemma {:induction false} SortDescShape(s: seq<int>)
    ensures Descending(SortDesc(s)) && |SortDesc(s)| == |s| && multiset(SortDesc(s)) == multiset(s)
  {
    if s != [] {
      var init := s[..|s| - 1];
      assert s == init + [s[|s| - 1]];
      SortDescShape(init);
      InsertDescShape(SortDesc(init), s[|s| - 1]);
    }
  }

  lemma TailOfMultiset(s: seq<int>)
    requires s != []
    ensures multiset(s[1..]) == multiset(s) - multiset{s[0]}
  {
    assert s == [s[0]] + s[1..];
  }

  lemma HeadIsLargest(s: seq<int>, t: seq<int>)
    requires Descending(s) && Descending(t) && multiset(s) == multiset(t) && s != [] && t != []
    ensures s[0] == t[0]
  {
    assert s[0] in multiset(t) && t[0] in multiset(s);
  }

  /** Two descending lists of the same elements are the same list. */
  lemma {:induction false} DescendingIsUnique(s: seq<int>, t: seq<int>)
    requires Descending(s) && Descending(t) && multiset(s) == multiset(t)
    ensures s == t
  {
    assert |s| == |multiset(s)| == |multiset(t)| == |t|;
    if s != [] {
      HeadIsLargest(s, t);
      TailOfMultiset(s);
      TailOfMultiset(t);
      DescendingIsUnique(s[1..], t[1..]);
      assert s == [s[0]] + s[1..] && t == [t[0]] + t[1..];
    }
  }

  lemma TakeCons(n: nat, x: int, s: seq<int>)
    requires n > 0
    ensures Take(n, [x] + s) == [x] + Take(n - 1, s)
    ensures Take(n - 1, Take(n, s)) == Take(n - 1, s)
  {
  }

  lemma InsertCons(x: int, y: int, s: seq<int>)
    ensures InsertDesc([y] + s, x) == if y < x then [x] + ([y] + s) else [y] + InsertDesc(s, x)
  {
    assert ([y] + s)[1..] == s;
  }

  /** To know the n largest after one more element, the n largest before are enough. */
  lemma {:induction false} TopIsIncremental(n: nat, s: seq<int>, x: int)
    ensures Take(n, InsertDesc(s, x)) == Take(n, InsertDesc(Take(n, s), x))
  {
    if n > 0 && s != [] {
      var y, rest := s[0], s[1..];
      assert s == [y] + rest;
      InsertCons(x, y, rest);
      TakeCons(n, y, rest);
      InsertCons(x, y, Take(n - 1, rest));
      if y < x {
        TakeCons(n, x, s);
        TakeCons(n, x, Take(n, s));
      } else {
        TopIsIncremental(n - 1, rest, x);
        TakeCons(n, y, InsertDesc(rest, x));
        TakeCons(n, y, InsertDesc(Take(n - 1, rest), x));
      }
    }
  }
}
