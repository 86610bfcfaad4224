/** Sorted samples: the order statistics that `sorted` delivers and what they depend on. */
module Sorting {
  predicate IsSorted(s: seq<real>) {
    forall i, j :: 0 <= i <= j < |s| ==> s[i] <= s[j]
  }

  function Insert(x: real, s: seq<real>): (r: seq<real>)
    ensures |r| == |s| + 1
  {
    if s == [] || x <= s[0] then [x] + s else [s[0]] + Insert(x, s[1..])
  }

  /** `sorted(values)`. */
  function Sort(values: seq<real>): (s: seq<real>)
    ensures |s| == |values|
  {
    if values == [] then [] else Insert(values[0], Sort(values[1..]))
  }

  lemma {:induction false} InsertSorted(x: real, s: seq<real>)
    requires IsSorted(s)
    ensures IsSorted(Insert(x, s))
    ensures Insert(x, s)[0] == if s == [] || x <= s[0] then x else s[0]
  {
    if s != [] && x > s[0] {
      InsertSorted(x, s[1..]);
      var rest := Insert(x, s[1..]);
      assert s[0] <= rest[0];
      assert Insert(x, s) == [s[0]] + rest;
    }
  }

  lemma {:induction false} SortSorted(values: seq<real>)
    ensures IsSorted(Sort(values))
  {
    if values != [] {
      SortSorted(values[1..]);
      InsertSorted(values[0], Sort(values[1..]));
    }
  }

  lemma {:induction false} InsertMultiset(x: real, s: seq<real>)
    ensures multiset(Insert(x, s)) == multiset(s) + multiset{x}
  {
    if s != [] && x > s[0] {
      InsertMultiset(x, s[1..]);
      assert s == [s[0]] + s[1..];
    }
  }

  lemma {:induction false} SortMultiset(values: seq<real>)
    ensures multiset(Sort(values)) == multiset(values)
  {
    if values != [] {
      SortMultiset(values[1..]);
      InsertMultiset(values[0], Sort(values[1..]));
      assert values == [values[0]] + values[1..];
    }
  }

  // ---- Counting ----

  function CountLe(s: seq<real>, t: real): (n: nat)
    ensures n <= |s|
  {
    if s == [] then 0 else (if s[0] <= t then 1 else 0) + CountLe(s[1..], t)
  }

  function CountGe(s: seq<real>, t: real): (n: nat)
    ensures n <= |s|
  {
    if s == [] then 0 else (if s[0] >= t then 1 else 0) + CountGe(s[1..], t)
  }

  lemma {:induction false} CountInsert(x: real, s: seq<real>, t: real)
    ensures CountLe(Insert(x, s), t) == (if x <= t then 1 else 0) + CountLe(s, t)
    ensures CountGe(Insert(x, s), t) == (if x >= t then 1 else 0) + CountGe(s, t)
  {
    var r := Insert(x, s);
    if s != [] && x > s[0] {
      CountInsert(x, s[1..], t);
      assert r[1..] == Insert(x, s[1..]);
    } else {
      assert r[1..] == s;
    }
  }

  lemma {:induction false} CountSort(values: seq<real>, t: real)
    ensures CountLe(Sort(values), t) == CountLe(values, t)
    ensures CountGe(Sort(values), t) == CountGe(values, t)
  {
    if values != [] {
      CountSort(values[1..], t);
      CountInsert(values[0], Sort(values[1..]), t);
    }
  }

  /** The k-th smallest value is at most t exactly when more than k values are. */
  lemma {:induction false} RankLe(s: seq<real>, k: nat, t: real)
    requires IsSorted(s) && k < |s|
    ensures s[k] <= t <==> CountLe(s, t) > k
    decreases |s|
  {
    if s[0] > t {
      NoneLe(s, t);
    } else if k > 0 {
      RankLe(s[1..], k - 1, t);
    }
  }

  lemma {:induction false} NoneLe(s: seq<real>, t: real)
    requires forall i :: 0 <= i < |s| ==> s[i] > t
    ensures CountLe(s, t) == 0
  {
    if s != [] { NoneLe(s[1..], t); }
  }

  /** The k-th smallest value is at least t exactly when at least n - k values are. */
  lemma {:induction false} RankGe(s: seq<real>, k: nat, t: real)
    requires IsSorted(s) && k < |s|
    ensures s[k] >= t <==> CountGe(s, t) >= |s| - k
    decreases |s|
  {
    if s[0] >= t {
      AllGe(s, t);
    } else if k > 0 {
      RankGe(s[1..], k - 1, t);
    }
  }

  lemma {:induction false} AllGe(s: seq<real>, t: real)
    requires forall i :: 0 <= i < |s| ==> s[i] >= t
    ensures CountGe(s, t) == |s|
  {
    if s != [] { AllGe(s[1..], t); }
  }

  predicate Below(u: seq<real>, v: seq<real>) {
    |u| == |v| && forall i :: 0 <= i < |u| ==> u[i] <= v[i]
  }

  lemma {:induction false} CountBelow(u: seq<real>, v: seq<real>, t: real)
    requires Below(u, v)
    ensures CountLe(u, t) >= CountLe(v, t)
  {
    if u != [] { CountBelow(u[1..], v[1..], t); }
  }

  /** Raising samples raises every order statistic. */
  lemma SortMonotone(u: seq<real>, v: seq<real>)
    requires Below(u, v)
    ensures Below(Sort(u), Sort(v))
  {
    SortSorted(u);
    SortSorted(v);
    forall k | 0 <= k < |u| ensures Sort(u)[k] <= Sort(v)[k] {
      var t := Sort(v)[k];
      RankLe(Sort(v), k, t);
      CountSort(v, t);
      CountBelow(u, v, t);
      CountSort(u, t);
      RankLe(Sort(u), k, t);
    }
  }

  /** Sorted samples are told apart by their counts alone. */
  lemma SortedByCounts(a: seq<real>, b: seq<real>)
    requires IsSorted(a) && IsSorted(b) && |a| == |b|
    requires forall t :: CountLe(a, t) == CountLe(b, t)
    ensures a == b
  {
    forall k | 0 <= k < |a| ensures a[k] == b[k] {
      RankLe(a, k, a[k]);
      RankLe(b, k, a[k]);
      RankLe(a, k, b[k]);
      RankLe(b, k, b[k]);
    }
  }

  // ---- Permutations ----

  lemma {:induction false} CountConcat(a: seq<real>, b: seq<real>, t: real)
    ensures CountLe(a + b, t) == CountLe(a, t) + CountLe(b, t)
  {
    if a == [] {
      assert a + b == b;
    } else {
      assert (a + b)[1..] == a[1..] + b;
      CountConcat(a[1..], b, t);
    }
  }

  lemma MultisetWithout<T>(b: seq<T>, k: nat)
    requires k < |b|
    ensures b == b[..k] + [b[k]] + b[k + 1..]
    ensures multiset(b[..k] + b[k + 1..]) == multiset(b) - multiset{b[k]}
  {
    assert b == b[..k] + [b[k]] + b[k + 1..];
    assert multiset(b) == multiset(b[..k]) + multiset{b[k]} + multiset(b[k + 1..]);
  }

  /** Where the first of some values stands in a permutation of them, and what is left. */
  lemma Unplug<T>(a: seq<T>, b: seq<T>) returns (k: nat)
    requires a != [] && multiset(a) == multiset(b)
    ensures k < |b| && b[k] == a[0]
    ensures b == b[..k] + [a[0]] + b[k + 1..]
    ensures multiset(a[1..]) == multiset(b[..k] + b[k + 1..])
  {
    assert a[0] in multiset(b);
    k :| 0 <= k < |b| && b[k] == a[0];
    MultisetWithout(a, 0);
    assert a[..0] + a[1..] == a[1..];
    MultisetWithout(b, k);
  }

  lemma {:induction false} CountPermutation(a: seq<real>, b: seq<real>, t: real)
    requires multiset(a) == multiset(b)
    ensures CountLe(a, t) == CountLe(b, t)
    decreases |a|
  {
    if a == [] {
      assert |multiset(b)| == 0;
    } else {
      var k := Unplug(a, b);
      CountPermutation(a[1..], b[..k] + b[k + 1..], t);
      CountConcat(b[..k], b[k + 1..], t);
      CountConcat(b[..k] + [a[0]], b[k + 1..], t);
      CountConcat(b[..k], [a[0]], t);
    }
  }

  /** Sorting depends on the values and not on their order. */
  lemma SortPermutation(a: seq<real>, b: seq<real>)
    requires multiset(a) == multiset(b)
    ensures Sort(a) == Sort(b)
  {
    assert |a| == |multiset(a)| == |multiset(b)| == |b|;
    SortSorted(a);
    SortSorted(b);
    forall t ensures CountLe(Sort(a), t) == CountLe(Sort(b), t) {
      CountSort(a, t);
      CountSort(b, t);
      CountPermutation(a, b, t);
    }
    SortedByCounts(Sort(a), Sort(b));
  }

  // ---- Shifting and negating ----

  function Shift(s: seq<real>, c: real): (r: seq<real>)
    ensures |r| == |s| && forall i :: 0 <= i < |s| ==> r[i] == s[i] + c
  {
    if s == [] then [] else [s[0] + c] + Shift(s[1..], c)
  }

  lemma {:induction false} CountShift(s: seq<real>, c: real, t: real)
    ensures CountLe(Shift(s, c), t) == CountLe(s, t - c)
  {
    if s != [] { CountShift(s[1..], c, t); }
  }

  lemma CountSortedShift(values: seq<real>, c: real, t: real)
    ensures CountLe(Sort(Shift(values, c)), t) == CountLe(values, t - c)
  {
    CountSort(Shift(values, c), t);
    CountShift(values, c, t);
  }

  lemma CountShiftedSort(values: seq<real>, c: real, t: real)
    ensures CountLe(Shift(Sort(values), c), t) == CountLe(values, t - c)
  {
    CountShift(Sort(values), c, t);
    CountSort(values, t - c);
  }

  lemma SortShift(values: seq<real>, c: real)
    ensures Sort(Shift(values, c)) == Shift(Sort(values), c)
  {
    var a, b := Sort(Shift(values, c)), Shift(Sort(values), c);
    SortSorted(values);
    SortSorted(Shift(values, c));
    forall t ensures CountLe(a, t) == CountLe(b, t) {
      CountSortedShift(values, c, t);
      CountShiftedSort(values, c, t);
    }
    SortedByCounts(a, b);
  }

  /** The sample with every sign flipped, last value first. */
  function Mirror(s: seq<real>): (r: seq<real>)
    ensures |r| == |s| && forall i :: 0 <= i < |s| ==> r[i] == -s[|s| - 1 - i]
  {
    if s == [] then [] else Mirror(s[1..]) + [-s[0]]
  }

  lemma {:induction false} CountMirror(s: seq<real>, t: real)
    ensures CountLe(Mirror(s), t) == CountGe(s, -t)
  {
    if s != [] {
      CountMirror(s[1..], t);
      CountConcat(Mirror(s[1..]), [-s[0]], t);
    }
  }

  lemma CountSortedMirror(values: seq<real>, t: real)
    ensures CountLe(Sort(Mirror(values)), t) == CountGe(values, -t)
  {
    CountSort(Mirror(values), t);
    CountMirror(values, t);
  }

  lemma CountMirroredSort(values: seq<real>, t: real, u: real)
    requires u == -t
    ensures CountLe(Mirror(Sort(values)), t) == CountGe(values, u)
  {
    CountMirror(Sort(values), t);
    CountSort(values, u);
  }

  lemma SortMirror(values: seq<real>)
    ensures Sort(Mirror(values)) == Mirror(Sort(values))
  {
    var a, b := Sort(Mirror(values)), Mirror(Sort(values));
    SortSorted(values);
    SortSorted(Mirror(values));
    forall t ensures CountLe(a, t) == CountLe(b, t) {
      CountSortedMirror(values, t);
      CountMirroredSort(values, t, -t);
    }
    SortedByCounts(a, b);
  }
}
