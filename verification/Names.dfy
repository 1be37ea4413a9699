/** Names in the byte order of Go's string comparison, and sorting by it. */
module Names {

  predicate LexLe(a: string, b: string) {
    a == [] || (b != [] && (a[0] < b[0] || (a[0] == b[0] && LexLe(a[1..], b[1..]))))
  }

  lemma {:induction false} LexTotal(a: string, b: string)
    ensures LexLe(a, b) || LexLe(b, a)
    ensures LexLe(a, b) && LexLe(b, a) ==> a == b
  {
    if a != [] && b != [] && a[0] == b[0] {
      LexTotal(a[1..], b[1..]);
      assert a == [a[0]] + a[1..] && b == [b[0]] + b[1..];
    }
  }

  lemma {:induction false} LexTransitive(a: string, b: string, c: string)
    requires LexLe(a, b) && LexLe(b, c)
    ensures LexLe(a, c)
  {
    if a != [] && a[0] == b[0] && b[0] == c[0] {
      LexTransitive(a[1..], b[1..], c[1..]);
    }
  }

  ghost predicate IsFirst(n: string, names: set<string>) {
    n in names && forall m :: m in names ==> LexLe(n, m)
  }

  ghost function First(names: set<string>): (n: string)
    requires names != {}
    ensures IsFirst(n, names)
  {
    var x :| x in names;
    LexTotal(x, x);
    if names == {x} then x else
      var rest := names - {x};
      assert rest != {};
      var y := First(rest);
      LexTotal(x, y);
      var n := if LexLe(x, y) then x else y;
      assert IsFirst(n, names) by {
        forall m | m in names ensures LexLe(n, m) {
          if m != x { LexTransitive(n, y, m); }
        }
      }
      n
  }

  lemma FirstIsUnique(n: string, names: set<string>)
    requires IsFirst(n, names)
    ensures n == First(names)
  {
    LexTotal(n, First(names));
  }

  ghost predicate Sorted(names: seq<string>) {
    forall i, j :: 0 <= i <= j < |names| ==> LexLe(names[i], names[j])
  }

  /** The names of a set, each once, in any order. */
  ghost predicate Listing(names: seq<string>, all: set<string>) {
    && |names| == |all|
    && (forall i :: 0 <= i < |names| ==> names[i] in all)
    && (forall n :: n in all ==> n in names)
    && (forall i, j :: 0 <= i < j < |names| ==> names[i] != names[j])
  }

  /** As many names as the set has, with its first two in the first two places. */
  ghost predicate InOrder(names: seq<string>, all: set<string>) {
    && |names| == |all|
    && (|all| > 0 ==> names[0] == First(all))
    && (|all| > 1 ==> all - {names[0]} != {} && names[1] == First(all - {names[0]}))
  }

  /** The names of a set, each once, in order (Go's `sort.Strings` on a list without duplicates). */
  method SortNames(names: seq<string>, ghost all: set<string>) returns (sorted: seq<string>)
    requires Listing(names, all)
    ensures InOrder(sorted, all)
  {
    sorted := [];
    for i := 0 to |names|
      invariant |sorted| == i && Sorted(sorted)
      invariant multiset(sorted) == multiset(names[..i])
    {
      assert names[..i + 1] == names[..i] + [names[i]];
      sorted := Insert(sorted, names[i]);
    }
    assert names[..|names|] == names;
    SortedListing(names, sorted, all);
  }

  method Insert(sorted: seq<string>, x: string) returns (out: seq<string>)
    requires Sorted(sorted)
    ensures Sorted(out) && multiset(out) == multiset(sorted) + multiset{x} && |out| == |sorted| + 1
  {
    var k := |sorted|;
    while k > 0 && !LexLe(sorted[k - 1], x)
      invariant 0 <= k <= |sorted|
      invariant forall j :: k <= j < |sorted| ==> LexLe(x, sorted[j])
    {
      LexTotal(sorted[k - 1], x);
      k := k - 1;
    }
    out := sorted[..k] + [x] + sorted[k..];
    assert sorted == sorted[..k] + sorted[k..];
    forall j | 0 <= j < k ensures LexLe(sorted[j], x) {
      LexTransitive(sorted[j], sorted[k - 1], x);
    }
    LexTotal(x, x);
  }

  lemma SortedListing(names: seq<string>, sorted: seq<string>, all: set<string>)
    requires Listing(names, all) && Sorted(sorted) && multiset(sorted) == multiset(names) && |sorted| == |names|
    ensures InOrder(sorted, all)
  {
    forall n ensures n in all <==> n in sorted {
      assert n in sorted <==> n in multiset(sorted);
      assert n in names <==> n in multiset(names);
    }
    if |all| > 0 {
      assert sorted[0] in sorted;
      assert IsFirst(sorted[0], all);
      FirstIsUnique(sorted[0], all);
    }
    if |all| > 1 {
      var rest := all - {sorted[0]};
      assert |rest| == |all| - 1;
      Distinct(names, sorted);
      assert sorted[1] in sorted && sorted[1] != sorted[0];
      assert IsFirst(sorted[1], rest);
      FirstIsUnique(sorted[1], rest);
    }
  }

  lemma Distinct(names: seq<string>, sorted: seq<string>)
    requires multiset(sorted) == multiset(names) && |sorted| > 1
    requires forall i, j :: 0 <= i < j < |names| ==> names[i] != names[j]
    ensures sorted[0] != sorted[1]
  {
    if sorted[0] == sorted[1] {
      assert sorted == [sorted[0], sorted[1]] + sorted[2..];
      assert multiset(sorted)[sorted[0]] >= 2;
      OnceOnly(names, sorted[0]);
      assert false;
    }
  }

  lemma {:induction false} OnceOnly(names: seq<string>, n: string)
    requires forall i, j :: 0 <= i < j < |names| ==> names[i] != names[j]
    ensures multiset(names)[n] <= 1
  {
    if names != [] {
      var init := names[..|names| - 1];
      assert names == init + [names[|names| - 1]];
      OnceOnly(init, n);
      if names[|names| - 1] == n {
        assert n !in init;
        assert multiset(init)[n] == 0;
      }
    }
  }
}
