/** Totals over sequences and maps, used wherever a conservation law is stated. */
module Sums {

  /** The sum of f over the elements of s. */
  function SumBy<T>(s: seq<T>, f: T -> int): int {
    if s == [] then 0 else SumBy(s[..|s| - 1], f) + f(s[|s| - 1])
  }

  lemma SumByAppend<T>(s: seq<T>, x: T, f: T -> int)
    ensures SumBy(s + [x], f) == SumBy(s, f) + f(x)
  {
    assert (s + [x])[..|s|] == s;
  }

  /** Two functions that agree everywhere in s except at position i give sums that differ by the difference there. */
  lemma {:induction false} SumByDiff<T>(s: seq<T>, t: seq<T>, f: T -> int, g: T -> int, i: nat)
    requires i < |s| == |t|
    requires forall j :: 0 <= j < |s| && j != i ==> f(s[j]) == g(t[j])
    ensures SumBy(t, g) == SumBy(s, f) - f(s[i]) + g(t[i])
  {
    var n := |s| - 1;
    if i == n {
      SumBySame(s[..n], t[..n], f, g);
    } else {
      SumByDiff(s[..n], t[..n], f, g, i);
    }
  }

  lemma {:induction false} SumBySame<T>(s: seq<T>, t: seq<T>, f: T -> int, g: T -> int)
    requires |s| == |t|
    requires forall j :: 0 <= j < |s| ==> f(s[j]) == g(t[j])
    ensures SumBy(s, f) == SumBy(t, g)
  {
    if s != [] {
      SumBySame(s[..|s| - 1], t[..|s| - 1], f, g);
    }
  }

  lemma SumByUpdate<T>(s: seq<T>, i: nat, x: T, f: T -> int)
    requires i < |s|
    ensures SumBy(s[i := x], f) == SumBy(s, f) - f(s[i]) + f(x)
  {
    SumByDiff(s, s[i := x], f, f, i);
  }

  /** If f is g plus h on every element, so are the sums. */
  lemma {:induction false} SumBySplit<T>(s: seq<T>, f: T -> int, g: T -> int, h: T -> int)
    requires forall x :: x in s ==> f(x) == g(x) + h(x)
    ensures SumBy(s, f) == SumBy(s, g) + SumBy(s, h)
  {
    if s != [] {
      SumBySplit(s[..|s| - 1], f, g, h);
    }
  }

  lemma {:induction false} SumByZero<T>(s: seq<T>, f: T -> int)
    requires forall x :: x in s ==> f(x) == 0
    ensures SumBy(s, f) == 0
  {
    if s != [] {
      SumByZero(s[..|s| - 1], f);
    }
  }

  lemma {:induction false} SumByNonNegative<T>(s: seq<T>, f: T -> int)
    requires forall x :: x in s ==> f(x) >= 0
    ensures SumBy(s, f) >= 0
    ensures forall i :: 0 <= i < |s| ==> f(s[i]) <= SumBy(s, f)
  {
    if s != [] {
      SumByNonNegative(s[..|s| - 1], f);
    }
  }

  /** The sum of the values of m. */
  ghost function SumMap<K>(m: map<K, int>): int {
    if m == map[] then 0 else
      var k :| k in m;
      m[k] + SumMap(m - {k})
  }

  /** Any key may be taken out first. */
  lemma {:induction false} SumMapRemove<K>(m: map<K, int>, k: K)
    requires k in m
    ensures SumMap(m) == m[k] + SumMap(m - {k})
    decreases |m|
  {
    var c :| c in m && SumMap(m) == m[c] + SumMap(m - {c});
    if c != k {
      SumMapRemove(m - {c}, k);
      SumMapRemove(m - {k}, c);
      assert m - {c} - {k} == m - {k} - {c};
    }
  }

  lemma SumMapSet<K>(m: map<K, int>, k: K, v: int)
    ensures SumMap(m[k := v]) == SumMap(m) - (if k in m then m[k] else 0) + v
  {
    SumMapRemove(m[k := v], k);
    if k in m {
      SumMapRemove(m, k);
      assert m[k := v] - {k} == m - {k};
    } else {
      assert m[k := v] - {k} == m;
    }
  }

  lemma {:induction false} SumMapNonNegative<K>(m: map<K, int>)
    requires forall k :: k in m ==> m[k] >= 0
    ensures SumMap(m) >= 0
    ensures forall k :: k in m ==> m[k] <= SumMap(m)
    decreases |m|
  {
    forall k | k in m ensures 0 <= m[k] <= SumMap(m) {
      SumMapRemove(m, k);
      SumMapNonNegative(m - {k});
    }
    if k :| k in m {
      assert 0 <= m[k] <= SumMap(m);
    }
  }
}
