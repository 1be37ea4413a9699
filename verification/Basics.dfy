/** Small shared definitions: optional values, Go's integer division, and sums over maps. */
module Basics {

  datatype Option<+T> = None | Some(value: T)

  /** Go's zero `time.Time` (1 January of year 1, UTC) in milliseconds since the Unix epoch. */
  const ZERO_TIME: int := -62135596800000

  /** Reading a key that is missing from a Go map of integers yields zero. */
  function Get<K>(m: map<K, int>, k: K): int {
    if k in m then m[k] else 0
  }

  function Abs(x: int): int {
    if x < 0 then -x else x
  }

  function Min(a: int, b: int): int {
    if a <= b then a else b
  }

  function Max(a: int, b: int): int {
    if a <= b then b else a
  }

  /** Go's `/` on signed integers truncates toward zero. */
  function Quo(a: int, b: int): int
    requires b > 0
  {
    if a >= 0 then a / b else -((-a) / b)
  }

  /** Go's `%` takes the sign of the dividend. */
  function Rem(a: int, b: int): int
    requires b > 0
  {
    a - Quo(a, b) * b
  }

  function Sum(s: seq<int>): int {
    if s == [] then 0 else Sum(s[..|s| - 1]) + s[|s| - 1]
  }

  lemma {:induction false} SumUpdate(s: seq<int>, i: nat, v: int)
    requires i < |s|
    ensures Sum(s[i := v]) == Sum(s) - s[i] + v
  {
    var last := |s| - 1;
    if i < last {
      assert s[i := v][..last] == s[..last][i := v];
      SumUpdate(s[..last], i, v);
    } else {
      assert s[i := v][..last] == s[..last];
    }
  }

  /** The sum of all values of a map of counters. */
  ghost function Total<K(!new)>(m: map<K, int>): int
    decreases |m|
  {
    if m == map[] then 0 else
      var k :| k in m;
      assert |m - {k}| == |m| - 1 by { Shrinks(m, k); }
      m[k] + Total(m - {k})
  }

  lemma Shrinks<K>(m: map<K, int>, k: K)
    requires k in m
    ensures |m - {k}| == |m| - 1
  {
    assert (m - {k}).Keys == m.Keys - {k};
  }

  /** The total does not depend on the order in which keys are taken out. */
  lemma {:induction false} TotalRemove<K(!new)>(m: map<K, int>, k: K)
    requires k in m
    ensures Total(m) == m[k] + Total(m - {k})
    decreases |m|
  {
    var j :| j in m && Total(m) == m[j] + Total(m - {j});
    if j != k {
      Shrinks(m, j);
      Shrinks(m, k);
      TotalRemove(m - {j}, k);
      TotalRemove(m - {k}, j);
      assert m - {j} - {k} == m - {k} - {j};
    }
  }

  /** Writing one counter moves the total by the change of that counter. */
  lemma TotalSet<K(!new)>(m: map<K, int>, k: K, v: int)
    ensures Total(m[k := v]) == Total(m) - Get(m, k) + v
  {
    var m' := m[k := v];
    TotalRemove(m', k);
    if k in m {
      TotalRemove(m, k);
    }
    assert m' - {k} == m - {k};
    if k !in m {
      assert m - {k} == m;
    }
  }

  /** Times at least `gap` apart, one after the other. */
  ghost predicate Spaced(times: seq<int>, gap: int) {
    forall i :: 0 < i < |times| ==> times[i] - times[i - 1] >= gap
  }

  /** Gaps add up. */
  lemma {:induction false} GapsAddUp(times: seq<int>, gap: int, i: nat, j: nat)
    requires Spaced(times, gap) && i <= j < |times|
    ensures times[j] - times[i] >= (j - i) * gap
  {
    if i < j {
      GapsAddUp(times, gap, i, j - 1);
      assert (j - i) * gap == (j - 1 - i) * gap + gap;
    } else {
      assert (j - i) * gap == 0;
    }
  }

  /** A closed window of `window` holds at most window / gap + 1 spaced times. */
  lemma WindowHoldsFew(times: seq<int>, gap: int, window: nat, i: nat, j: nat)
    requires Spaced(times, gap) && gap > 0
    requires i <= j < |times| && times[j] - times[i] <= window
    ensures j - i + 1 <= window / gap + 1
  {
    GapsAddUp(times, gap, i, j);
    assert window < (window / gap + 1) * gap;
    MultiplyMonotone(window / gap + 1, j - i, gap);
  }

  lemma MultiplyMonotone(a: int, b: int, c: int)
    requires c >= 0
    ensures a <= b ==> a * c <= b * c
  {
    if a <= b {
      assert (b - a) * c >= 0;
      assert b * c == a * c + (b - a) * c;
    }
  }
}
