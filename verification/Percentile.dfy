/**
 The interpolated percentile of `analytics.py` over real numbers, and the proof that it is a
 quantile: ordered, equivariant, robust and, at 50, the least-absolute-deviation centre.
 */
module Percentile {
  import opened Reals
  import opened Wrappers
  import opened Sorting

  /** Python indexing: a negative index counts from the end, any other outside the list raises. */
  function PyAt(s: seq<real>, i: int): Option<real> {
    if 0 <= i < |s| then Some(s[i])
    else if -|s| <= i < 0 then Some(s[|s| + i])
    else None
  }

  /** So the indices -n to -1 stand for the whole list once more. */
  lemma NegativeIndices(s: seq<real>, i: int)
    requires 0 <= i < |s|
    ensures PyAt(s, i - |s|) == PyAt(s, i) == Some(s[i]) && PyAt(s, |s| + i).None? && PyAt(s, -1 - |s| - i).None?
  {
  }

  function Floor(x: real): int { x.Floor }

  function Ceil(x: real): int { -((-x).Floor) }

  function Position(n: nat, p: real): real {
    (n - 1) as real * p / 100.0
  }

  datatype Answer = NoSample | Value(v: real) | IndexError

  /** Linear interpolation between two neighbouring samples. */
  function Mix(low: real, high: real, weight: real): real {
    low * (1.0 - weight) + high * weight
  }

  function PercentileOfSorted(ordered: seq<real>, p: real): Answer
    requires ordered != []
  {
    if |ordered| == 1 then Value(ordered[0]) else
    var position := Position(|ordered|, p);
    var lower, upper := Floor(position), Ceil(position);
    var low, high := PyAt(ordered, lower), PyAt(ordered, upper);
    if low.None? then IndexError
    else if lower == upper then Value(low.value)
    else if high.None? then IndexError
    else Value(Mix(low.value, high.value, position - lower as real))
  }

  function Percentile(values: seq<real>, p: real): Answer {
    if values == [] then NoSample else PercentileOfSorted(Sort(values), p)
  }

  // ---- Arithmetic ----

  lemma CeilIs(x: real)
    ensures Ceil(x) as real - 1.0 < x <= Ceil(x) as real
    ensures Ceil(x) == if Floor(x) as real == x then Floor(x) else Floor(x) + 1
  {
    assert (-x).Floor as real <= -x < (-x).Floor as real + 1.0;
    assert x.Floor as real <= x < x.Floor as real + 1.0;
  }

  lemma MixIs(low: real, high: real, w: real)
    ensures Mix(low, high, w) == low + (high - low) * w
  {
    TimesDifference(low, w, 1.0);
    DifferenceTimes(w, low, high);
  }

  lemma MixMonotone(low: real, high: real, v: real, w: real)
    requires low <= high && v <= w
    ensures Mix(low, high, v) <= Mix(low, high, w)
  {
    hide Mix;
    MixIs(low, high, v);
    MixIs(low, high, w);
    Scale(high - low, v, w);
  }

  lemma MixEnds(low: real, high: real)
    ensures Mix(low, high, 0.0) == low && Mix(low, high, 1.0) == high
  {
  }

  lemma MixBetween(low: real, high: real, w: real)
    requires low <= high && 0.0 <= w <= 1.0
    ensures low <= Mix(low, high, w) <= high
  {
    hide Mix;
    MixEnds(low, high);
    MixMonotone(low, high, 0.0, w);
    MixMonotone(low, high, w, 1.0);
  }

  lemma WeighBoth(low: real, high: real, low': real, high': real, v: real, w: real)
    requires low <= low' && high <= high' && 0.0 <= v && 0.0 <= w
    ensures low * v + high * w <= low' * v + high' * w
  {
    Scale(v, low, low');
    Scale(w, high, high');
  }

  lemma MixBelow(low: real, high: real, low': real, high': real, w: real)
    requires low <= low' && high <= high' && 0.0 <= w <= 1.0
    ensures Mix(low, high, w) <= Mix(low', high', w)
  {
    WeighBoth(low, high, low', high', 1.0 - w, w);
  }

  lemma MixShift(low: real, high: real, c: real, w: real)
    ensures Mix(low + c, high + c, w) == Mix(low, high, w) + c
  {
  }

  lemma MixMirror(low: real, high: real, w: real)
    ensures Mix(-high, -low, 1.0 - w) == -Mix(low, high, w)
  {
  }

  lemma MixEqual(low: real, w: real)
    ensures Mix(low, low, w) == low
  {
  }

  lemma PositionScaled(n: nat, p: real)
    requires n > 0
    ensures Position(n, p) * 100.0 == (n - 1) as real * p
  {
  }

  lemma PositionMonotone(n: nat, p: real, q: real)
    requires n > 0 && p <= q
    ensures Position(n, p) <= Position(n, q)
  {
    PositionScaled(n, p);
    PositionScaled(n, q);
    Scale((n - 1) as real, p, q);
  }

  lemma PositionEnds(n: nat)
    requires n > 0
    ensures Position(n, 0.0) == 0.0 && Position(n, 100.0) == (n - 1) as real
  {
  }

  lemma PositionInRange(n: nat, p: real)
    requires n > 0 && 0.0 <= p <= 100.0
    ensures 0.0 <= Position(n, p) <= (n - 1) as real
  {
    PositionEnds(n);
    PositionMonotone(n, 0.0, p);
    PositionMonotone(n, p, 100.0);
  }

  lemma PositionMirror(n: nat, p: real)
    requires n > 0
    ensures Position(n, 100.0 - p) == (n - 1) as real - Position(n, p)
  {
    PositionScaled(n, p);
    PositionScaled(n, 100.0 - p);
  }

  lemma PositionHalf(n: nat)
    requires n > 0
    ensures Position(n, 50.0) == (n - 1) as real / 2.0
  {
  }

  lemma HalfOf(m: nat)
    ensures m % 2 == 0 ==> m as real / 2.0 == (m / 2) as real
    ensures m % 2 == 1 ==> m as real / 2.0 == (m / 2) as real + 0.5
  {
    assert m == 2 * (m / 2) + m % 2;
    assert m as real == 2.0 * (m / 2) as real + (m % 2) as real;
  }

  lemma WholeAndHalf(k: int)
    ensures Floor(k as real) == k && Ceil(k as real) == k
    ensures Floor(k as real + 0.5) == k && Ceil(k as real + 0.5) == k + 1
  {
    CeilIs(k as real);
    CeilIs(k as real + 0.5);
  }

  lemma PositionMiddle(n: nat)
    requires n > 0
    ensures Floor(Position(n, 50.0)) == (n - 1) / 2 && Ceil(Position(n, 50.0)) == n / 2
  {
    hide Position, Floor, Ceil;
    PositionHalf(n);
    HalfOf(n - 1);
    WholeAndHalf((n - 1) / 2);
  }

  lemma Bracket(position: real, n: nat)
    requires n > 0 && 0.0 <= position <= (n - 1) as real
    ensures 0 <= Floor(position) <= Ceil(position) < n
    ensures 0.0 <= position - Floor(position) as real <= 1.0
    ensures Ceil(position) == if Floor(position) as real == position then Floor(position) else Floor(position) + 1
  {
    CeilIs(position);
  }

  // ---- Interpolation in a sorted sample ----

  predicate InRange(s: seq<real>, position: real) {
    s != [] && 0.0 <= position <= (|s| - 1) as real
  }

  /** The value at a real-valued rank. */
  function At(s: seq<real>, position: real): real
    requires InRange(s, position)
  {
    Bracket(position, |s|);
    Mix(s[Floor(position)], s[Ceil(position)], position - Floor(position) as real)
  }

  lemma SortedPercentileIsAt(s: seq<real>, p: real)
    requires s != [] && 0.0 <= p <= 100.0
    ensures InRange(s, Position(|s|, p))
    ensures PercentileOfSorted(s, p) == Value(At(s, Position(|s|, p)))
  {
    var position := Position(|s|, p);
    PositionInRange(|s|, p);
    Bracket(position, |s|);
    MixEqual(s[Floor(position)], position - Floor(position) as real);
  }

  function SortedQuantile(s: seq<real>, p: real): (v: real)
    requires s != [] && 0.0 <= p <= 100.0
    ensures PercentileOfSorted(s, p) == Value(v)
  {
    SortedPercentileIsAt(s, p);
    At(s, Position(|s|, p))
  }

  /** The quantile itself: the interpolated rank of the sorted sample. */
  function Quantile(values: seq<real>, p: real): (v: real)
    requires values != [] && 0.0 <= p <= 100.0
    ensures Percentile(values, p) == Value(v)
  {
    SortedQuantile(Sort(values), p)
  }

  /** Exactly when the function raises: always beyond 100, below 0 only once the index wraps past the front. */
  lemma RaisesExactly(values: seq<real>, p: real)
    ensures Percentile(values, p).IndexError? <==>
            |values| >= 2 && (p > 100.0 || p * (|values| - 1) as real < -100.0 * |values| as real)
    ensures Percentile(values, p).NoSample? <==> values == []
  {
    var n := |values|;
    if n >= 2 {
      PositionScaled(n, p);
      CeilIs(Position(n, p));
      PositionEnds(n);
      Beyond(n, p);
      assert Floor(Position(n, p)) < -n <==> Position(n, p) < (-n) as real;
    }
  }

  lemma Beyond(n: nat, p: real)
    requires n >= 2
    ensures Position(n, p) > (n - 1) as real <==> p > 100.0
  {
    PositionEnds(n);
    if p <= 100.0 {
      PositionMonotone(n, p, 100.0);
    } else {
      PositionScaled(n, p);
      assert ((n - 1) as real) * (p - 100.0) > 0.0;
    }
  }

  // ---- Order ----

  lemma AtBetween(s: seq<real>, position: real)
    requires IsSorted(s) && InRange(s, position)
    ensures 0 <= Floor(position) <= Ceil(position) < |s|
    ensures s[Floor(position)] <= At(s, position) <= s[Ceil(position)]
  {
    Bracket(position, |s|);
    MixBetween(s[Floor(position)], s[Ceil(position)], position - Floor(position) as real);
  }

  lemma AtMonotone(s: seq<real>, x: real, y: real)
    requires IsSorted(s) && InRange(s, x) && InRange(s, y) && x <= y
    ensures At(s, x) <= At(s, y)
  {
    Bracket(x, |s|);
    Bracket(y, |s|);
    AtBetween(s, x);
    AtBetween(s, y);
    if Floor(x) == Floor(y) {
      if Ceil(x) == Ceil(y) {
        MixMonotone(s[Floor(x)], s[Ceil(x)], x - Floor(x) as real, y - Floor(x) as real);
      }
    } else {
      assert Ceil(x) <= Floor(y);
    }
  }

  lemma AtBelow(s: seq<real>, t: seq<real>, position: real)
    requires Below(s, t) && InRange(s, position)
    ensures At(s, position) <= At(t, position)
  {
    Bracket(position, |s|);
    var lower, upper := Floor(position), Ceil(position);
    MixBelow(s[lower], s[upper], t[lower], t[upper], position - lower as real);
  }

  lemma AtShift(s: seq<real>, c: real, position: real)
    requires InRange(s, position)
    ensures At(Shift(s, c), position) == At(s, position) + c
  {
    hide Shift;
    Bracket(position, |s|);
    MixShift(s[Floor(position)], s[Ceil(position)], c, position - Floor(position) as real);
  }

  lemma BracketMirror(position: real, n: nat)
    requires n > 0 && 0.0 <= position <= (n - 1) as real
    ensures var back := (n - 1) as real - position;
            0.0 <= back <= (n - 1) as real &&
            Floor(back) == n - 1 - Ceil(position) && Ceil(back) == n - 1 - Floor(position) &&
            (Floor(position) != Ceil(position) ==>
              back - Floor(back) as real == 1.0 - (position - Floor(position) as real))
  {
    CeilIs(position);
    CeilIs((n - 1) as real - position);
  }

  lemma AtMirror(s: seq<real>, t: seq<real>, position: real)
    requires InRange(s, position) && |t| == |s|
    requires forall i :: 0 <= i < |s| ==> t[i] == -s[|s| - 1 - i]
    ensures InRange(t, (|s| - 1) as real - position)
    ensures At(t, (|s| - 1) as real - position) == -At(s, position)
  {
    var back := (|s| - 1) as real - position;
    Bracket(position, |s|);
    BracketMirror(position, |s|);
    var low, high, w := s[Floor(position)], s[Ceil(position)], position - Floor(position) as real;
    assert t[Floor(back)] == -high && t[Ceil(back)] == -low;
    if Floor(position) == Ceil(position) {
      MixEqual(low, w);
      MixEqual(-low, back - Floor(back) as real);
    } else {
      MixMirror(low, high, w);
    }
  }

  // ---- The percentile is a quantile ----

  lemma QuantileMonotoneInP(values: seq<real>, p: real, q: real)
    requires values != [] && 0.0 <= p <= q <= 100.0
    ensures Quantile(values, p) <= Quantile(values, q)
  {
    PositionInRange(|values|, p);
    PositionInRange(|values|, q);
    PositionMonotone(|values|, p, q);
    SortSorted(values);
    AtMonotone(Sort(values), Position(|values|, p), Position(|values|, q));
  }

  /** It splits the sample: enough values are at or below it and enough at or above it. */
  lemma QuantileSplits(values: seq<real>, p: real)
    requires values != [] && 0.0 <= p <= 100.0
    ensures var n, position := |values|, Position(|values|, p);
            CountLe(values, Quantile(values, p)) >= Floor(position) + 1 &&
            CountGe(values, Quantile(values, p)) >= n - Ceil(position)
  {
    var s, position, v := Sort(values), Position(|values|, p), Quantile(values, p);
    PositionInRange(|values|, p);
    SortSorted(values);
    AtBetween(s, position);
    RankLe(s, Floor(position), v);
    RankGe(s, Ceil(position), v);
    CountSort(values, v);
  }

  lemma QuantileEnds(values: seq<real>)
    requires values != []
    ensures Quantile(values, 0.0) in values && Quantile(values, 100.0) in values
    ensures forall x :: x in values ==> Quantile(values, 0.0) <= x <= Quantile(values, 100.0)
  {
    var s := Sort(values);
    PositionInRange(|values|, 0.0);
    PositionInRange(|values|, 100.0);
    PositionEnds(|values|);
    Bracket(0.0, |s|);
    Bracket((|s| - 1) as real, |s|);
    MixEqual(s[0], 0.0);
    MixEqual(s[|s| - 1], 0.0);
    assert Quantile(values, 0.0) == s[0] && Quantile(values, 100.0) == s[|s| - 1];
    SortSorted(values);
    SortMultiset(values);
    assert s[0] in multiset(s) && s[|s| - 1] in multiset(s);
    forall x | x in values ensures s[0] <= x <= s[|s| - 1] {
      assert x in multiset(values);
      assert x in multiset(s);
    }
  }

  lemma QuantilePermutation(a: seq<real>, b: seq<real>, p: real)
    requires multiset(a) == multiset(b)
    ensures Percentile(a, p) == Percentile(b, p)
  {
    SortPermutation(a, b);
    assert |a| == |Sort(a)| && |b| == |Sort(b)|;
  }

  lemma SortedMirror(s: seq<real>, t: seq<real>, p: real)
    requires s != [] && |t| == |s| && 0.0 <= p <= 100.0
    requires forall i :: 0 <= i < |s| ==> t[i] == -s[|s| - 1 - i]
    ensures SortedQuantile(t, 100.0 - p) == -SortedQuantile(s, p)
  {
    PositionInRange(|s|, p);
    PositionMirror(|s|, p);
    AtMirror(s, t, Position(|s|, p));
  }

  /** Flipping the sign of every value swaps p and 100 - p. */
  lemma QuantileMirror(values: seq<real>, p: real)
    requires values != [] && 0.0 <= p <= 100.0
    ensures Quantile(Mirror(values), 100.0 - p) == -Quantile(values, p)
  {
    hide Sort, Mirror, SortedQuantile, PercentileOfSorted;
    SortMirror(values);
    SortedMirror(Sort(values), Mirror(Sort(values)), p);
  }

  lemma SortedShift(s: seq<real>, c: real, p: real)
    requires s != [] && 0.0 <= p <= 100.0
    ensures SortedQuantile(Shift(s, c), p) == SortedQuantile(s, p) + c
  {
    PositionInRange(|s|, p);
    AtShift(s, c, Position(|s|, p));
  }

  lemma QuantileShift(values: seq<real>, c: real, p: real)
    requires values != [] && 0.0 <= p <= 100.0
    ensures Quantile(Shift(values, c), p) == Quantile(values, p) + c
  {
    SortShift(values, c);
    SortedShift(Sort(values), c, p);
  }

  lemma SortedBelow(s: seq<real>, t: seq<real>, p: real)
    requires s != [] && Below(s, t) && 0.0 <= p <= 100.0
    ensures SortedQuantile(s, p) <= SortedQuantile(t, p)
  {
    PositionInRange(|s|, p);
    AtBelow(s, t, Position(|s|, p));
  }

  /** Raising samples pointwise never lowers the percentile. */
  lemma QuantileMonotoneInData(u: seq<real>, v: seq<real>, p: real)
    requires u != [] && Below(u, v) && 0.0 <= p <= 100.0
    ensures Quantile(u, p) <= Quantile(v, p)
  {
    SortMonotone(u, v);
    SortedBelow(Sort(u), Sort(v), p);
  }

  predicate Within(u: seq<real>, v: seq<real>, e: real) {
    |u| == |v| && forall i :: 0 <= i < |u| ==> v[i] - e <= u[i] <= v[i] + e
  }

  lemma WithinShifts(u: seq<real>, v: seq<real>, e: real)
    requires Within(u, v, e)
    ensures Below(u, Shift(v, e)) && Below(v, Shift(u, e))
  {
  }

  lemma QuantileRaised(u: seq<real>, v: seq<real>, e: real, p: real)
    requires u != [] && Below(u, Shift(v, e)) && 0.0 <= p <= 100.0
    ensures v != [] && Quantile(u, p) <= Quantile(v, p) + e
  {
    QuantileMonotoneInData(u, Shift(v, e), p);
    QuantileShift(v, e, p);
  }

  /** Moving every sample by at most e moves the percentile by at most e. */
  lemma QuantileLipschitz(u: seq<real>, v: seq<real>, e: real, p: real)
    requires u != [] && Within(u, v, e) && 0.0 <= p <= 100.0
    ensures Quantile(v, p) - e <= Quantile(u, p) <= Quantile(v, p) + e
  {
    WithinShifts(u, v, e);
    QuantileRaised(u, v, e, p);
    QuantileRaised(v, u, e, p);
  }

  // ---- The interpolation is linear ----

  lemma SortOfSorted(s: seq<real>)
    requires IsSorted(s)
    ensures Sort(s) == s
  {
    SortSorted(s);
    forall t ensures CountLe(Sort(s), t) == CountLe(s, t) {
      CountSort(s, t);
    }
    SortedByCounts(Sort(s), s);
  }

  lemma MixAffine(a: real, d: real, l: real, x: real)
    ensures Mix(a + d * l, a + d * (l + 1.0), x - l) == a + d * x
  {
    assert d * (l + 1.0) == d * l + d;
    assert Mix(a + d * l, a + d * l + d, x - l) == a + d * l + d * (x - l);
    assert d * (x - l) == d * x - d * l;
  }

  lemma AtProgression(s: seq<real>, a: real, d: real, position: real)
    requires InRange(s, position)
    requires forall i :: 0 <= i < |s| ==> s[i] == a + d * i as real
    ensures At(s, position) == a + d * position
  {
    Bracket(position, |s|);
    var l, u := Floor(position), Ceil(position);
    var low := l as real;
    if l == u {
      MixEqual(s[l], position - low);
    } else {
      assert u as real == low + 1.0;
      assert s[u] == a + d * (low + 1.0);
      MixAffine(a, d, low, position);
    }
  }

  lemma ProgressionRises(a: real, d: real, i: nat, j: nat)
    requires d >= 0.0 && i <= j
    ensures a + d * i as real <= a + d * j as real
  {
    Scale(d, i as real, j as real);
  }

  lemma ProgressionSorted(s: seq<real>, a: real, d: real)
    requires d >= 0.0 && forall i :: 0 <= i < |s| ==> s[i] == a + d * i as real
    ensures IsSorted(s)
  {
    forall i, j | 0 <= i <= j < |s| ensures s[i] <= s[j] {
      ProgressionRises(a, d, i, j);
    }
  }

  /** On equally spaced samples the percentile is the exact fraction of the way from first to last. */
  lemma QuantileOfProgression(values: seq<real>, a: real, d: real, p: real)
    requires values != [] && d >= 0.0 && 0.0 <= p <= 100.0
    requires forall i :: 0 <= i < |values| ==> values[i] == a + d * i as real
    ensures Quantile(values, p) == a + d * Position(|values|, p)
  {
    hide Sort, At, Position, PercentileOfSorted, Percentile;
    ProgressionSorted(values, a, d);
    SortOfSorted(values);
    PositionInRange(|values|, p);
    AtProgression(values, a, d, Position(|values|, p));
  }

  // ---- The median minimises total absolute deviation ----

  function Deviation(values: seq<real>, x: real): real {
    if values == [] then 0.0 else Abs(values[0] - x) + Deviation(values[1..], x)
  }

  lemma {:induction false} DeviationInsert(v: real, s: seq<real>, x: real)
    ensures Deviation(Insert(v, s), x) == Abs(v - x) + Deviation(s, x)
  {
    var r := Insert(v, s);
    if s != [] && v > s[0] {
      DeviationInsert(v, s[1..], x);
      assert r[1..] == Insert(v, s[1..]);
    } else {
      assert r[1..] == s;
    }
  }

  lemma {:induction false} DeviationSort(values: seq<real>, x: real)
    ensures Deviation(Sort(values), x) == Deviation(values, x)
  {
    if values != [] {
      DeviationSort(values[1..], x);
      DeviationInsert(values[0], Sort(values[1..]), x);
    }
  }

  lemma {:induction false} DeviationAppend(s: seq<real>, b: real, x: real)
    ensures Deviation(s + [b], x) == Deviation(s, x) + Abs(b - x)
  {
    if s == [] {
      assert s + [b] == [b];
    } else {
      assert (s + [b])[1..] == s[1..] + [b];
      DeviationAppend(s[1..], b, x);
    }
  }

  /** Between the two middle values of a sorted sample the deviation is least, outside them it is larger. */
  lemma {:induction false} MiddleIsLeast(s: seq<real>, m: real, x: real)
    requires IsSorted(s) && s != []
    requires s[(|s| - 1) / 2] <= m <= s[|s| / 2]
    ensures Deviation(s, m) <= Deviation(s, x)
    ensures Deviation(s, m) == Deviation(s, x) ==> s[(|s| - 1) / 2] <= x <= s[|s| / 2]
    decreases |s|
  {
    var n := |s|;
    if n == 1 {
      assert Deviation(s[1..], m) == Deviation(s[1..], x) == 0.0;
    } else {
      var a, inner, b := s[0], s[1..n - 1], s[n - 1];
      Peel(s, m);
      Peel(s, x);
      if n > 2 {
        assert inner[(|inner| - 1) / 2] == s[(n - 1) / 2] && inner[|inner| / 2] == s[n / 2];
        MiddleIsLeast(inner, m, x);
      }
    }
  }

  lemma Peel(s: seq<real>, x: real)
    requires |s| >= 2
    ensures Deviation(s, x) == Abs(s[0] - x) + Deviation(s[1..|s| - 1], x) + Abs(s[|s| - 1] - x)
  {
    assert s[1..] == s[1..|s| - 1] + [s[|s| - 1]];
    DeviationAppend(s[1..|s| - 1], s[|s| - 1], x);
  }

  lemma MedianIsMiddle(values: seq<real>)
    requires values != []
    ensures Sort(values)[(|values| - 1) / 2] <= Quantile(values, 50.0) <= Sort(values)[|values| / 2]
  {
    var n, s := |values|, Sort(values);
    PositionInRange(|values|, 50.0);
    PositionMiddle(n);
    SortSorted(values);
    AtBetween(s, Position(n, 50.0));
  }

  /** No real number is closer to a sample, in total absolute deviation, than its p50. */
  lemma MedianMinimises(values: seq<real>, x: real)
    requires values != []
    ensures Deviation(values, Quantile(values, 50.0)) <= Deviation(values, x)
  {
    MedianIsMiddle(values);
    SortSorted(values);
    MiddleIsLeast(Sort(values), Quantile(values, 50.0), x);
    DeviationSort(values, x);
    DeviationSort(values, Quantile(values, 50.0));
  }

  /** The minimisers are exactly the values between the two middle samples. */
  lemma MinimisersExactly(values: seq<real>, m: real)
    requires values != []
    ensures (forall x :: Deviation(values, m) <= Deviation(values, x)) <==>
            Sort(values)[(|values| - 1) / 2] <= m <= Sort(values)[|values| / 2]
  {
    var s, p50 := Sort(values), Quantile(values, 50.0);
    MedianIsMiddle(values);
    SortSorted(values);
    if s[(|s| - 1) / 2] <= m <= s[|s| / 2] {
      forall x ensures Deviation(values, m) <= Deviation(values, x) {
        MiddleIsLeast(s, m, x);
        DeviationSort(values, m);
        DeviationSort(values, x);
      }
    } else {
      MiddleIsLeast(s, p50, m);
      DeviationSort(values, p50);
      DeviationSort(values, m);
    }
  }
}
