/** The nearest-rank percentile: an order statistic characterised by counting, not by sorting. */
module Percentile {

  ghost predicate Ordered(s: seq<real>) {
    forall i, j :: 0 <= i < j < |s| ==> s[i] <= s[j]
  }

  function InsertValue(x: real, s: seq<real>): seq<real> {
    if s == [] || s[|s| - 1] <= x then s + [x] else InsertValue(x, s[..|s| - 1]) + [s[|s| - 1]]
  }

  function Sorted(values: seq<real>): (s: seq<real>)
    decreases |values|
  {
    if values == [] then [] else InsertValue(values[|values| - 1], Sorted(values[..|values| - 1]))
  }

  lemma {:induction false} InsertKeepsOrder(x: real, s: seq<real>)
    requires Ordered(s)
    ensures Ordered(InsertValue(x, s)) && |InsertValue(x, s)| == |s| + 1
    ensures forall i :: 0 <= i <= |s| ==> InsertValue(x, s)[i] == x || InsertValue(x, s)[i] in s
    ensures forall v :: CountAtMost(InsertValue(x, s), v) == CountAtMost(s, v) + (if x <= v then 1 else 0)
  {
    var t := InsertValue(x, s);
    if s != [] && s[|s| - 1] > x {
      InsertKeepsOrder(x, s[..|s| - 1]);
      assert t[..|t| - 1] == InsertValue(x, s[..|s| - 1]);
    } else {
      assert t[..|t| - 1] == s;
    }
  }

  /** Sorting keeps the length, the members and every count. */
  lemma {:induction false} SortedIsOrdered(values: seq<real>)
    ensures Ordered(Sorted(values)) && |Sorted(values)| == |values|
    ensures forall i :: 0 <= i < |values| ==> Sorted(values)[i] in values
    ensures forall v :: CountAtMost(Sorted(values), v) == CountAtMost(values, v)
    decreases |values|
  {
    if values != [] {
      SortedIsOrdered(values[..|values| - 1]);
      InsertKeepsOrder(values[|values| - 1], Sorted(values[..|values| - 1]));
    }
  }

  /** How many samples are at most `v`. */
  function CountAtMost(values: seq<real>, v: real): nat {
    if values == [] then 0
    else CountAtMost(values[..|values| - 1], v) + (if values[|values| - 1] <= v then 1 else 0)
  }

  lemma {:induction false} CountSplit(a: seq<real>, b: seq<real>, v: real)
    ensures CountAtMost(a + b, v) == CountAtMost(a, v) + CountAtMost(b, v)
  {
    if b == [] {
      assert a + b == a;
    } else {
      CountSplit(a, b[..|b| - 1], v);
      assert (a + b)[..|a + b| - 1] == a + b[..|b| - 1];
    }
  }

  function Without(s: seq<real>, k: nat): seq<real>
    requires k < |s|
  {
    s[..k] + s[k + 1..]
  }

  lemma CountWithout(s: seq<real>, k: nat, v: real)
    requires k < |s|
    ensures CountAtMost(s, v) == CountAtMost(Without(s, k), v) + (if s[k] <= v then 1 else 0)
  {
    var a, b, c := s[..k], [s[k]], s[k + 1..];
    CountSplit(a, b, v);
    CountSplit(a + b, c, v);
    CountSplit(a, c, v);
    assert b[..0] == [];
    assert CountAtMost(b, v) == (if s[k] <= v then 1 else 0);
    assert s == a + b + c;
  }

  lemma MultisetWithout(s: seq<real>, k: nat)
    requires k < |s|
    ensures multiset(Without(s, k)) == multiset(s) - multiset{s[k]}
  {
    var a, b, c := s[..k], [s[k]], s[k + 1..];
    assert s == a + b + c;
    assert multiset(s) == multiset(a) + multiset(b) + multiset(c);
  }

  /** Counting does not depend on the order in which the calls of a batch were observed. */
  lemma {:induction false} CountIgnoresOrder(a: seq<real>, b: seq<real>, v: real)
    requires multiset(a) == multiset(b)
    ensures CountAtMost(a, v) == CountAtMost(b, v)
    decreases |a|
  {
    if a == [] {
      assert |multiset(b)| == 0 && |multiset(b)| == |b|;
    } else {
      var n := |a| - 1;
      assert a[n] in multiset(b);
      var k :| 0 <= k < |b| && b[k] == a[n];
      CountWithout(a, n, v);
      CountWithout(b, k, v);
      MultisetWithout(a, n);
      MultisetWithout(b, k);
      CountIgnoresOrder(Without(a, n), Without(b, k), v);
    }
  }

  /** In an ordered list, position `i` is at most `v` exactly when more than `i` entries are. */
  lemma {:induction false} RankByCount(s: seq<real>, i: nat, v: real)
    requires Ordered(s) && i < |s|
    ensures s[i] <= v <==> CountAtMost(s, v) >= i + 1
  {
    var n := |s| - 1;
    if i < n {
      RankByCount(s[..n], i, v);
    } else {
      CountBound(s[..n], v);
      if s[n] <= v {
        AllCounted(s[..n], v);
      }
    }
  }

  lemma {:induction false} CountBound(s: seq<real>, v: real)
    ensures CountAtMost(s, v) <= |s|
  {
    if s != [] {
      CountBound(s[..|s| - 1], v);
    }
  }

  lemma {:induction false} AllCounted(s: seq<real>, v: real)
    requires forall i :: 0 <= i < |s| ==> s[i] <= v
    ensures CountAtMost(s, v) == |s|
  {
    if s != [] {
      AllCounted(s[..|s| - 1], v);
    }
  }

  // ---------------------------------------------------------------- percentile

  function Ceil(x: real): int { -(-x).Floor }

  function Min(a: int, b: int): int { if a <= b then a else b }

  function Max(a: int, b: int): int { if a >= b then a else b }

  /** The code's index arithmetic, clamped into the list. */
  function Index(n: nat, fraction: real): (index: nat)
    requires n > 0
    ensures index < n
  {
    Max(Min(Ceil(n as real * fraction) - 1, n - 1), 0)
  }

  /** `percentile`: zero for no samples, else the entry of the sorted list at the clamped index. */
  function PercentileOf(values: seq<real>, fraction: real): real {
    if values == [] then 0.0
    else
      SortedIsOrdered(values);
      Sorted(values)[Index(|values|, fraction)]
  }

  /** The rank the percentile must reach; for a fraction in (0, 1] it is ceil(fraction * n). */
  function Rank(n: nat, fraction: real): int {
    Max(1, Min(n, Ceil(n as real * fraction)))
  }

  lemma IndexIsRank(n: nat, fraction: real)
    requires n > 0
    ensures Index(n, fraction) + 1 == Rank(n, fraction)
  {
  }

  lemma RankInRange(n: nat, fraction: real)
    requires n >= 1 && 0.0 < fraction <= 1.0
    ensures Rank(n, fraction) == Ceil(n as real * fraction)
  {
    var x := n as real * fraction;
    assert x > 0.0;
    assert x <= n as real;
    var whole: int := n;
    assert (-x).Floor <= -1;
    assert (-x).Floor >= 0 - whole;
  }

  /** Bounding the percentile is the same as counting samples; and the percentile is itself a sample. */
  lemma PercentileIsNearestRank(values: seq<real>, fraction: real, v: real)
    requires values != []
    ensures PercentileOf(values, fraction) <= v <==> CountAtMost(values, v) >= Rank(|values|, fraction)
    ensures PercentileOf(values, fraction) in values
  {
    SortedIsOrdered(values);
    IndexIsRank(|values|, fraction);
    RankByCount(Sorted(values), Index(|values|, fraction), v);
  }

  /** An integer reaches a number exactly when it reaches its ceiling. */
  lemma CeilIsLeast(x: real, n: int)
    ensures n >= Ceil(x) <==> n as real >= x
  {
    assert Ceil(x) as real >= x && Ceil(x) as real < x + 1.0;
  }

  /** It is the least sample with enough samples at or below it. */
  lemma PercentileIsLeast(values: seq<real>, fraction: real, v: real)
    requires values != [] && 0.0 < fraction <= 1.0
    ensures CountAtMost(values, PercentileOf(values, fraction)) as real >= |values| as real * fraction
    ensures v in values && CountAtMost(values, v) as real >= |values| as real * fraction ==> PercentileOf(values, fraction) <= v
  {
    CeilIsLeast(|values| as real * fraction, CountAtMost(values, v));
    CeilIsLeast(|values| as real * fraction, CountAtMost(values, PercentileOf(values, fraction)));
    RankInRange(|values|, fraction);
    PercentileIsNearestRank(values, fraction, PercentileOf(values, fraction));
    PercentileIsNearestRank(values, fraction, v);
  }

  lemma PercentileIgnoresOrder(a: seq<real>, b: seq<real>, fraction: real)
    requires multiset(a) == multiset(b)
    ensures PercentileOf(a, fraction) == PercentileOf(b, fraction)
  {
    assert |multiset(a)| == |a| && |multiset(b)| == |b|;
    if a != [] {
      var p, q := PercentileOf(a, fraction), PercentileOf(b, fraction);
      PercentileIsNearestRank(a, fraction, p);
      PercentileIsNearestRank(a, fraction, q);
      PercentileIsNearestRank(b, fraction, p);
      PercentileIsNearestRank(b, fraction, q);
      CountIgnoresOrder(a, b, p);
      CountIgnoresOrder(a, b, q);
    }
  }
}
