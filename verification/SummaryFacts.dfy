/** What the dashboard's summary depends on, and how it moves when the measurements move. */
module SummaryFacts {
  import opened Wrappers
  import opened Modes
  import opened Store
  import opened Analytics
  import S = Sorting
  import P = Percentile

  // ---- The values behind one metric of one mode ----

  predicate Contributes(r: Record, mode: Mode, metric: Metric) {
    r.row.mode == mode && r.row.success && MetricOf(r.row, metric).Some?
  }

  function Contributions(rows: seq<Record>, mode: Mode, metric: Metric): seq<real> {
    if rows == [] then []
    else if Contributes(rows[0], mode, metric) then
      [MetricOf(rows[0].row, metric).value as real] + Contributions(rows[1..], mode, metric)
    else Contributions(rows[1..], mode, metric)
  }

  lemma {:induction false} SamplesAre(rows: seq<Record>, mode: Mode, metric: Metric)
    ensures Samples(rows, mode, metric) == Contributions(rows, mode, metric)
  {
    if rows != [] {
      SamplesAre(rows[1..], mode, metric);
      var rest := ModeRows(rows[1..], mode);
      if rows[0].row.mode == mode {
        assert ModeRows(rows, mode) == [rows[0]] + rest;
        assert ([rows[0]] + rest)[1..] == rest;
        var good := Successful(rest);
        if rows[0].row.success {
          assert Successful(ModeRows(rows, mode)) == [rows[0]] + good;
          assert ([rows[0]] + good)[1..] == good;
          var column := Column(good, metric);
          assert Column([rows[0]] + good, metric) == [MetricOf(rows[0].row, metric)] + column;
          assert ([MetricOf(rows[0].row, metric)] + column)[1..] == column;
        }
      }
    }
  }

  // ---- describe ----

  function Scaled(x: real, n: nat): real {
    x * n as real
  }

  lemma {:induction false} SumBounds(values: seq<real>, lo: real, hi: real)
    requires forall v :: v in values ==> lo <= v <= hi
    ensures Scaled(lo, |values|) <= Sum(values) <= Scaled(hi, |values|)
  {
    if values == [] {
      assert Scaled(lo, 0) == Scaled(hi, 0) == 0.0;
    } else {
      hide Scaled;
      assert values[0] in values;
      assert forall v :: v in values[1..] ==> v in values;
      SumBounds(values[1..], lo, hi);
      AddBounds(values[0], Sum(values[1..]), lo, hi, |values|);
    }
  }

  lemma AddBounds(value: real, sum: real, lo: real, hi: real, n: nat)
    requires n > 0 && lo <= value <= hi && Scaled(lo, n - 1) <= sum <= Scaled(hi, n - 1)
    ensures Scaled(lo, n) <= value + sum <= Scaled(hi, n)
  {
    OneMore(lo, n);
    OneMore(hi, n);
  }

  lemma OneMore(x: real, n: nat)
    requires n > 0
    ensures x * n as real == x + x * (n - 1) as real
  {
  }

  lemma DivideBounds(lo: real, sum: real, hi: real, n: real)
    requires n > 0.0 && lo * n <= sum <= hi * n
    ensures lo <= sum / n <= hi
  {
    var mean := sum / n;
    assert mean * n == sum;
  }

  lemma MeanBounds(values: seq<real>, lo: real, hi: real)
    requires values != [] && forall v :: v in values ==> lo <= v <= hi
    ensures lo <= Mean(values) <= hi
  {
    SumBounds(values, lo, hi);
    var n := |values|;
    assert Scaled(lo, n) == lo * n as real && Scaled(hi, n) == hi * n as real;
    DivideBounds(lo, Sum(values), hi, n as real);
  }

  /** The displayed statistics are ordered, and the mean lies among the values. */
  lemma DescriptionOrdered(values: seq<Option<int>>)
    requires Clean(values) != []
    ensures var d := Describe(values);
            d.count == |Clean(values)| && d.mean.Some? &&
            d.min.Some? && d.p50.Some? && d.p95.Some? && d.p99.Some? && d.max.Some? &&
            d.min.value <= d.p50.value <= d.p95.value <= d.p99.value <= d.max.value &&
            d.min.value <= d.mean.value <= d.max.value &&
            d.min.value in Clean(values) && d.max.value in Clean(values)
  {
    hide P.Quantile, Mean, Least, Greatest, Clean;
    var clean := Clean(values);
    Extremes(clean);
    ExtremesAreQuantiles(clean);
    P.QuantileMonotoneInP(clean, 0.0, 50.0);
    P.QuantileMonotoneInP(clean, 50.0, 95.0);
    P.QuantileMonotoneInP(clean, 95.0, 99.0);
    P.QuantileMonotoneInP(clean, 99.0, 100.0);
    MeanBounds(clean, Least(clean), Greatest(clean));
  }

  lemma ExtremesAreQuantiles(values: seq<real>)
    requires values != []
    ensures Least(values) == P.Quantile(values, 0.0) && Greatest(values) == P.Quantile(values, 100.0)
  {
    Extremes(values);
    P.QuantileEnds(values);
  }

  lemma {:induction false} SumConcat(a: seq<real>, b: seq<real>)
    ensures Sum(a + b) == Sum(a) + Sum(b)
  {
    if a == [] {
      assert a + b == b;
    } else {
      assert (a + b)[1..] == a[1..] + b;
      SumConcat(a[1..], b);
    }
  }

  lemma {:induction false} SumPermutation(a: seq<real>, b: seq<real>)
    requires multiset(a) == multiset(b)
    ensures Sum(a) == Sum(b)
    decreases |a|
  {
    if a == [] {
      assert |multiset(b)| == 0;
    } else {
      var k := S.Unplug(a, b);
      SumPermutation(a[1..], b[..k] + b[k + 1..]);
      SumConcat(b[..k], b[k + 1..]);
      SumConcat(b[..k] + [a[0]], b[k + 1..]);
      SumConcat(b[..k], [a[0]]);
    }
  }

  lemma DescribePermutation(a: seq<real>, b: seq<real>)
    requires multiset(a) == multiset(b)
    ensures DescribeClean(a) == DescribeClean(b)
  {
    assert |a| == |multiset(a)| == |multiset(b)| == |b|;
    if a != [] {
      SumPermutation(a, b);
      ExtremesAreQuantiles(a);
      ExtremesAreQuantiles(b);
      P.QuantilePermutation(a, b, 0.0);
      P.QuantilePermutation(a, b, 50.0);
      P.QuantilePermutation(a, b, 95.0);
      P.QuantilePermutation(a, b, 99.0);
      P.QuantilePermutation(a, b, 100.0);
    }
  }

  // ---- The mean ----

  lemma {:induction false} SumShift(values: seq<real>, c: real)
    ensures Sum(S.Shift(values, c)) == Sum(values) + c * |values| as real
  {
    if values != [] {
      var shifted := S.Shift(values, c);
      assert shifted[1..] == S.Shift(values[1..], c);
      SumShift(values[1..], c);
      OneMore(c, |values|);
    }
  }

  function Square(v: real, x: real): real {
    (v - x) * (v - x)
  }

  function Squares(values: seq<real>, x: real): real {
    if values == [] then 0.0 else Square(values[0], x) + Squares(values[1..], x)
  }

  /** Squared deviations from x by those from m: `sum` adds up the n plain deviations from m. */
  function Moved(fromM: real, m: real, x: real, sum: real, n: nat): real {
    fromM + 2.0 * (m - x) * sum + (m - x) * (m - x) * n as real
  }

  lemma SquareMoves(v: real, m: real, x: real)
    ensures Square(v, x) == Square(v, m) + 2.0 * (m - x) * (v - m) + (m - x) * (m - x)
  {
    var a, b := v - m, m - x;
    assert v - x == a + b;
    assert (a + b) * (a + b) == a * a + 2.0 * b * a + b * b;
  }

  lemma TimesSum(w: real, a: real, b: real)
    ensures w * (a + b) == w * a + w * b
  {
  }

  lemma OneMoreSquare(v: real, m: real, x: real, fromM: real, sum: real, n: nat)
    requires n > 0
    ensures Square(v, x) + Moved(fromM, m, x, sum, n - 1) == Moved(Square(v, m) + fromM, m, x, v - m + sum, n)
  {
    hide Square;
    SquareMoves(v, m, x);
    TimesSum(2.0 * (m - x), v - m, sum);
    OneMore((m - x) * (m - x), n);
  }

  lemma NothingMoved(m: real, x: real)
    ensures Moved(0.0, m, x, 0.0, 0) == 0.0
  {
  }

  lemma {:induction false} SquaresMove(values: seq<real>, m: real, x: real)
    ensures Squares(values, x) == Moved(Squares(values, m), m, x, Sum(S.Shift(values, -m)), |values|)
  {
    hide Square, Moved;
    if values == [] {
      NothingMoved(m, x);
    } else {
      var shifted := S.Shift(values, -m);
      assert shifted[0] == values[0] - m && shifted[1..] == S.Shift(values[1..], -m);
      SquaresMove(values[1..], m, x);
      OneMoreSquare(values[0], m, x, Squares(values[1..], m), Sum(S.Shift(values[1..], -m)), |values|);
    }
  }

  /** The deviations from the mean cancel. */
  lemma MeanBalances(values: seq<real>)
    requires values != []
    ensures Sum(S.Shift(values, -Mean(values))) == 0.0
  {
    SumShift(values, -Mean(values));
    QuotientTimes(Sum(values), |values| as real);
  }

  lemma QuotientTimes(sum: real, n: real)
    requires n > 0.0
    ensures -(sum / n) * n == -sum
  {
    assert sum / n * n == sum;
  }

  /**
   The displayed mean is the centre of the values: the squared deviations from any other number add
   up to more, by the number of values times the square of the distance.
   */
  lemma MeanIsCentre(values: seq<Option<int>>, x: real)
    requires Clean(values) != []
    ensures Describe(values).mean.Some?
    ensures var clean, mean := Clean(values), Describe(values).mean.value;
            Squares(clean, x) == Squares(clean, mean) + (mean - x) * (mean - x) * |clean| as real &&
            Sum(S.Shift(clean, -mean)) == 0.0
  {
    hide Clean, P.Quantile, P.Percentile, Least, Greatest, Mean, Squares;
    var clean := Clean(values);
    MeanBalances(clean);
    SquaresMove(clean, Mean(clean), x);
  }

  /** Nothing is described of no values; otherwise each figure is the statistic it is named after. */
  lemma DescriptionIs(values: seq<Option<int>>)
    ensures Clean(values) == [] ==> Describe(values) == Description(0, None, None, None, None, None, None)
    ensures var clean, d := Clean(values), Describe(values);
            clean != [] ==>
              d.count == |clean| &&
              d.p50 == Some(P.Quantile(clean, 50.0)) && d.p95 == Some(P.Quantile(clean, 95.0)) &&
              d.p99 == Some(P.Quantile(clean, 99.0)) && d.min == Some(P.Quantile(clean, 0.0)) &&
              d.max == Some(P.Quantile(clean, 100.0))
  {
    hide Clean, P.Quantile, P.PercentileOfSorted, Mean, Least, Greatest;
    if Clean(values) != [] { ExtremesAreQuantiles(Clean(values)); }
  }

  // ---- The comparison ----

  /**
   What a comparison means: the difference of two medians, and the same difference in hundredths of
   the first. Where one of them is missing nothing is compared, and a first median of 0 admits no
   percentage.
   */
  predicate Relates(base: Option<real>, other: Option<real>, d: Delta) {
    (d.delta.Some? <==> base.Some? && other.Some?) &&
    (d.delta.Some? ==> base.value + d.delta.value == other.value) &&
    (d.percent.Some? <==> d.delta.Some? && base.value != 0.0) &&
    (d.percent.Some? ==> d.percent.value / 100.0 * base.value == d.delta.value)
  }

  /** Every mode is compared with the classical one. */
  lemma ComparisonMeans(rows: seq<Record>, mode: Mode, metric: Metric)
    ensures Relates(DescriptionOf(rows, Classical, metric).p50, DescriptionOf(rows, mode, metric).p50,
                    DeltaOf(rows, mode, metric))
  {
    hide DescriptionOf;
    var base, other := DescriptionOf(rows, Classical, metric).p50, DescriptionOf(rows, mode, metric).p50;
    if base.Some? && other.Some? && base.value != 0.0 { PercentOf(other.value - base.value, base.value); }
  }

  /** A table for each mode, a comparison for each but the classical one, and an alias of the hybrid's. */
  lemma SummaryHolds(rows: seq<Record>, mode: Mode)
    ensures mode in SummaryOf(rows).modes && SummaryOf(rows).modes[mode] == ModeSummaryOf(rows, mode)
    ensures mode in SummaryOf(rows).comparison <==> mode == Hybrid || mode == HybridP256
    ensures mode in SummaryOf(rows).comparison ==> SummaryOf(rows).comparison[mode] == ComparisonOf(rows, mode)
    ensures Hybrid in SummaryOf(rows).comparison && SummaryOf(rows).alias == SummaryOf(rows).comparison[Hybrid]
  {
    hide ModeSummaryOf, ComparisonOf;
    AllModes(mode);
    AllModes(Hybrid);
  }

  /** A mode's table describes every metric, and so does its comparison. */
  lemma TablesHold(rows: seq<Record>, mode: Mode, metric: Metric)
    ensures metric in ModeSummaryOf(rows, mode).metrics && metric in ComparisonOf(rows, mode)
    ensures ModeSummaryOf(rows, mode).metrics[metric] == DescriptionOf(rows, mode, metric)
    ensures ComparisonOf(rows, mode)[metric] == DeltaOf(rows, mode, metric)
  {
    hide DescriptionOf, DeltaOf, ModeRows, Successful;
    EveryMetric(metric);
  }

  lemma EveryMetric(metric: Metric)
    ensures metric in METRICS
  {
    assert METRICS[0] == ClientTcp && METRICS[1] == ClientHandshake && METRICS[2] == ServerHandshake;
    assert METRICS[3] == ClientTtfb && METRICS[4] == ClientTotal && METRICS[5] == BytesSent;
    assert METRICS[6] == BytesReceived;
  }

  lemma PercentOf(delta: real, base: real)
    requires base != 0.0
    ensures Percent(delta, base) / 100.0 * base == delta
  {
    var q := delta / base;
    assert q * base == delta;
    assert q * 100.0 / 100.0 == q;
  }

  // ---- Row order ----

  lemma {:induction false} ContributionsConcat(a: seq<Record>, b: seq<Record>, mode: Mode, metric: Metric)
    ensures Contributions(a + b, mode, metric) == Contributions(a, mode, metric) + Contributions(b, mode, metric)
  {
    if a == [] {
      assert a + b == b;
    } else {
      assert (a + b)[1..] == a[1..] + b;
      ContributionsConcat(a[1..], b, mode, metric);
    }
  }

  lemma {:induction false} ContributionsPermutation(a: seq<Record>, b: seq<Record>, mode: Mode, metric: Metric)
    requires multiset(a) == multiset(b)
    ensures multiset(Contributions(a, mode, metric)) == multiset(Contributions(b, mode, metric))
    decreases |a|
  {
    if a == [] {
      assert |multiset(b)| == 0;
    } else {
      var k := S.Unplug(a, b);
      var front, back := b[..k], b[k + 1..];
      ContributionsPermutation(a[1..], front + back, mode, metric);
      ContributionsConcat(front, back, mode, metric);
      ContributionsConcat(front + [a[0]], back, mode, metric);
      ContributionsConcat(front, [a[0]], mode, metric);
      assert Contributions([a[0]][1..], mode, metric) == [];
    }
  }

  lemma {:induction false} FilterConcat(a: seq<Record>, b: seq<Record>, p: Record -> bool)
    ensures Filter(a + b, p) == Filter(a, p) + Filter(b, p)
  {
    if a == [] {
      assert a + b == b;
    } else {
      assert (a + b)[1..] == a[1..] + b;
      FilterConcat(a[1..], b, p);
    }
  }

  lemma {:induction false} FilterPermutation(a: seq<Record>, b: seq<Record>, p: Record -> bool)
    requires multiset(a) == multiset(b)
    ensures multiset(Filter(a, p)) == multiset(Filter(b, p))
    decreases |a|
  {
    if a == [] {
      assert |multiset(b)| == 0;
    } else {
      var k := S.Unplug(a, b);
      var front, back := b[..k], b[k + 1..];
      FilterPermutation(a[1..], front + back, p);
      FilterConcat(front, back, p);
      FilterConcat(front + [a[0]], back, p);
      FilterConcat(front, [a[0]], p);
      assert [a[0]][1..] == [];
      assert Filter([a[0]], p) == if p(a[0]) then [a[0]] else [];
    }
  }

  lemma {:induction false} CountsPermutation(a: seq<Record>, b: seq<Record>, mode: Mode)
    requires multiset(a) == multiset(b)
    ensures |ModeRows(a, mode)| == |ModeRows(b, mode)|
    ensures |Successful(ModeRows(a, mode))| == |Successful(ModeRows(b, mode))|
  {
    FilterPermutation(a, b, (r: Record) => r.row.mode == mode);
    FilterPermutation(ModeRows(a, mode), ModeRows(b, mode), (r: Record) => r.row.success);
    assert |multiset(ModeRows(a, mode))| == |multiset(ModeRows(b, mode))|;
    assert |multiset(Successful(ModeRows(a, mode)))| == |multiset(Successful(ModeRows(b, mode)))|;
  }

  lemma {:induction false} DescriptionPermutation(a: seq<Record>, b: seq<Record>, mode: Mode, metric: Metric)
    requires multiset(a) == multiset(b)
    ensures DescriptionOf(a, mode, metric) == DescriptionOf(b, mode, metric)
  {
    SamplesAre(a, mode, metric);
    SamplesAre(b, mode, metric);
    ContributionsPermutation(a, b, mode, metric);
    DescribePermutation(Contributions(a, mode, metric), Contributions(b, mode, metric));
  }

  /** Two row lists with the same descriptions compare alike. */
  lemma {:induction false} SameComparisons(a: seq<Record>, b: seq<Record>)
    requires forall mode, metric :: DescriptionOf(a, mode, metric) == DescriptionOf(b, mode, metric)
    ensures ComparisonTable(a) == ComparisonTable(b) && SummaryOf(a).alias == SummaryOf(b).alias
  {
    hide DescriptionOf;
    forall mode ensures ComparisonOf(a, mode) == ComparisonOf(b, mode) {
      forall metric ensures DeltaOf(a, mode, metric) == DeltaOf(b, mode, metric) {
      }
    }
  }

  /** The summary does not depend on the order in which the query returned the rows. */
  lemma {:induction false} SummaryPermutation(a: seq<Record>, b: seq<Record>)
    requires multiset(a) == multiset(b)
    ensures SummaryOf(a) == SummaryOf(b)
  {
    hide DescriptionOf, ModeRows, Successful;
    forall mode, metric ensures DescriptionOf(a, mode, metric) == DescriptionOf(b, mode, metric) {
      DescriptionPermutation(a, b, mode, metric);
    }
    forall mode ensures ModeSummaryOf(a, mode) == ModeSummaryOf(b, mode) {
      CountsPermutation(a, b, mode);
    }
    SameComparisons(a, b);
  }

  // ---- Failed rows ----

  lemma {:induction false} OnlySuccessesContribute(rows: seq<Record>, mode: Mode, metric: Metric)
    ensures Contributions(Successful(rows), mode, metric) == Contributions(rows, mode, metric)
  {
    if rows != [] {
      OnlySuccessesContribute(rows[1..], mode, metric);
      var rest := Successful(rows[1..]);
      if rows[0].row.success {
        assert Successful(rows) == [rows[0]] + rest;
        assert ([rows[0]] + rest)[1..] == rest;
      }
    }
  }

  /** Adding, removing or editing failed rows changes no metric and no comparison. */
  lemma {:induction false} FailedRowsIrrelevant(a: seq<Record>, b: seq<Record>)
    requires Successful(a) == Successful(b)
    ensures forall mode, metric :: DescriptionOf(a, mode, metric) == DescriptionOf(b, mode, metric)
    ensures ComparisonTable(a) == ComparisonTable(b) && SummaryOf(a).alias == SummaryOf(b).alias
  {
    forall mode, metric ensures DescriptionOf(a, mode, metric) == DescriptionOf(b, mode, metric) {
      SamplesAre(a, mode, metric);
      SamplesAre(b, mode, metric);
      OnlySuccessesContribute(a, mode, metric);
      OnlySuccessesContribute(b, mode, metric);
    }
    SameComparisons(a, b);
  }

  // ---- Shifting one metric of one mode ----

  function Raise(value: Option<int>, c: int): Option<int> {
    if value.Some? then Some(value.value + c) else None
  }

  function RaiseMetric(row: Row, metric: Metric, c: int): Row {
    var t := row.timing;
    match metric
    case ClientTcp => row.(timing := t.(tcpUs := Raise(t.tcpUs, c)))
    case ClientHandshake => row.(timing := t.(handshakeUs := Raise(t.handshakeUs, c)))
    case ServerHandshake => row.(serverHandshakeUs := Raise(row.serverHandshakeUs, c))
    case ClientTtfb => row.(timing := t.(ttfbUs := Raise(t.ttfbUs, c)))
    case ClientTotal => row.(timing := t.(totalUs := Raise(t.totalUs, c)))
    case BytesSent => row.(timing := t.(bytesSent := Raise(t.bytesSent, c)))
    case BytesReceived => row.(timing := t.(bytesReceived := Raise(t.bytesReceived, c)))
  }

  /** A successful record of one mode with one metric raised by c; any other record as it is. */
  function RaiseRecord(r: Record, mode: Mode, metric: Metric, c: int): Record {
    if r.row.mode == mode && r.row.success then r.(row := RaiseMetric(r.row, metric, c)) else r
  }

  /** The same rows with one metric of every successful row of one mode raised by c. */
  function RaiseRows(rows: seq<Record>, mode: Mode, metric: Metric, c: int): seq<Record> {
    if rows == [] then [] else [RaiseRecord(rows[0], mode, metric, c)] + RaiseRows(rows[1..], mode, metric, c)
  }

  function Contribution(r: Record, mode: Mode, metric: Metric): seq<real> {
    if Contributes(r, mode, metric) then [MetricOf(r.row, metric).value as real] else []
  }

  lemma ContributionsOfFirst(r: Record, rest: seq<Record>, mode: Mode, metric: Metric)
    ensures Contributions([r] + rest, mode, metric) == Contribution(r, mode, metric) + Contributions(rest, mode, metric)
  {
    hide Contributes;
    assert ([r] + rest)[1..] == rest;
  }

  lemma RaisedContribution(r: Record, mode: Mode, metric: Metric, c: int, m: Mode, k: Metric)
    ensures Contribution(RaiseRecord(r, mode, metric, c), m, k) ==
            if m == mode && k == metric then S.Shift(Contribution(r, m, k), c as real) else Contribution(r, m, k)
  {
    hide RaiseMetric, MetricOf, S.Shift;
    RaisedMetric(r.row, metric, c, k);
  }

  lemma ShiftConcat(a: seq<real>, b: seq<real>, c: real)
    ensures S.Shift(a + b, c) == S.Shift(a, c) + S.Shift(b, c)
  {
    hide S.Shift;
  }

  lemma {:induction false} RaisedContributions(rows: seq<Record>, mode: Mode, metric: Metric, c: int,
                                               m: Mode, k: Metric)
    ensures Contributions(RaiseRows(rows, mode, metric, c), m, k) ==
            if m == mode && k == metric then S.Shift(Contributions(rows, m, k), c as real)
            else Contributions(rows, m, k)
  {
    hide S.Shift, RaiseRecord, Contribution, Contributes;
    if rows != [] {
      hide Contributions;
      RaisedContributions(rows[1..], mode, metric, c, m, k);
      assert rows == [rows[0]] + rows[1..];
      ContributionsOfFirst(rows[0], rows[1..], m, k);
      ContributionsOfFirst(RaiseRecord(rows[0], mode, metric, c), RaiseRows(rows[1..], mode, metric, c), m, k);
      RaisedContribution(rows[0], mode, metric, c, m, k);
      ShiftConcat(Contribution(rows[0], m, k), Contributions(rows[1..], m, k), c as real);
    }
  }

  lemma RaisedMetric(row: Row, metric: Metric, c: int, k: Metric)
    ensures var raised := RaiseMetric(row, metric, c);
            raised.mode == row.mode && raised.success == row.success &&
            MetricOf(raised, k) == if k == metric then Raise(MetricOf(row, k), c) else MetricOf(row, k)
  {
  }

  lemma QuantilesShift(clean: seq<real>, c: real)
    requires clean != []
    ensures P.Quantile(S.Shift(clean, c), 50.0) == P.Quantile(clean, 50.0) + c
    ensures P.Quantile(S.Shift(clean, c), 95.0) == P.Quantile(clean, 95.0) + c
    ensures P.Quantile(S.Shift(clean, c), 99.0) == P.Quantile(clean, 99.0) + c
  {
    hide P.Quantile, S.Shift;
    P.QuantileShift(clean, c, 50.0);
    P.QuantileShift(clean, c, 95.0);
    P.QuantileShift(clean, c, 99.0);
  }

  /** Raising every value by c raises every displayed percentile by c. */
  lemma RaisedDescription(clean: seq<real>, c: real)
    ensures var d, d' := DescribeClean(clean), DescribeClean(S.Shift(clean, c));
            d'.count == d.count && (d.p50.Some? <==> clean != []) && (d'.p50.Some? <==> clean != []) &&
            (clean != [] ==> d'.p50 == Some(d.p50.value + c) && d'.p95 == Some(d.p95.value + c) &&
                             d'.p99 == Some(d.p99.value + c))
  {
    hide P.Quantile, P.Percentile, Mean, Least, Greatest, S.Shift;
    if clean != [] { QuantilesShift(clean, c); }
  }

  lemma {:induction false} RaisedCounts(rows: seq<Record>, mode: Mode, metric: Metric, c: int, m: Mode)
    ensures |ModeRows(RaiseRows(rows, mode, metric, c), m)| == |ModeRows(rows, m)|
    ensures |Successful(ModeRows(RaiseRows(rows, mode, metric, c), m))| == |Successful(ModeRows(rows, m))|
  {
    hide ModeRows, Successful;
    var raised := RaiseRows(rows, mode, metric, c);
    if rows != [] {
      RaisedCounts(rows[1..], mode, metric, c, m);
      RaisedMetric(rows[0].row, metric, c, metric);
      assert raised[1..] == RaiseRows(rows[1..], mode, metric, c);
      SuccessesOfOne(rows, m);
      SuccessesOfOne(raised, m);
    }
  }

  lemma {:induction false} OtherDescriptionStays(rows: seq<Record>, mode: Mode, metric: Metric, c: int,
                                                 m: Mode, k: Metric)
    requires (m, k) != (mode, metric)
    ensures DescriptionOf(RaiseRows(rows, mode, metric, c), m, k) == DescriptionOf(rows, m, k)
  {
    hide Samples, Contributions, RaiseRows, DescribeClean, S.Shift;
    SamplesAre(rows, m, k);
    SamplesAre(RaiseRows(rows, mode, metric, c), m, k);
    RaisedContributions(rows, mode, metric, c, m, k);
  }

  lemma {:induction false} RaisedMedian(rows: seq<Record>, mode: Mode, metric: Metric, c: int)
    ensures var p50 := DescriptionOf(rows, mode, metric).p50;
            DescriptionOf(RaiseRows(rows, mode, metric, c), mode, metric).p50 ==
            if p50.None? then None else Some(p50.value + c as real)
  {
    hide Samples, Contributions, RaiseRows, DescribeClean, S.Shift;
    SamplesAre(rows, mode, metric);
    SamplesAre(RaiseRows(rows, mode, metric, c), mode, metric);
    RaisedContributions(rows, mode, metric, c, mode, metric);
    RaisedDescription(Contributions(rows, mode, metric), c as real);
  }

  lemma {:induction false} OtherModeStays(rows: seq<Record>, mode: Mode, metric: Metric, c: int, m: Mode)
    requires m != mode
    ensures ModeSummaryOf(RaiseRows(rows, mode, metric, c), m) == ModeSummaryOf(rows, m)
  {
    hide DescriptionOf, RaiseRows, ModeRows, Successful;
    RaisedCounts(rows, mode, metric, c, m);
    forall k ensures DescriptionOf(RaiseRows(rows, mode, metric, c), m, k) == DescriptionOf(rows, m, k) {
      OtherDescriptionStays(rows, mode, metric, c, m, k);
    }
  }

  /**
   Raising one metric of a compared mode by c moves that mode's delta by exactly c and leaves every
   count, every other description and every other delta as it was.
   */
  lemma {:induction false} RaiseMovesOneDelta(rows: seq<Record>, mode: Mode, metric: Metric, c: int)
    requires mode != BASELINE_MODE
    ensures var raised := RaiseRows(rows, mode, metric, c);
            (forall m, k :: (m, k) != (mode, metric) ==> DescriptionOf(raised, m, k) == DescriptionOf(rows, m, k)) &&
            (forall m, k :: (m, k) != (mode, metric) ==> DeltaOf(raised, m, k) == DeltaOf(rows, m, k)) &&
            DeltaOf(raised, mode, metric).delta ==
              (if DeltaOf(rows, mode, metric).delta.None? then None
               else Some(DeltaOf(rows, mode, metric).delta.value + c as real))
    ensures var raised := RaiseRows(rows, mode, metric, c);
            forall m :: |ModeRows(raised, m)| == |ModeRows(rows, m)| &&
                        |Successful(ModeRows(raised, m))| == |Successful(ModeRows(rows, m))|
    ensures forall m :: m != mode ==> ModeSummaryOf(RaiseRows(rows, mode, metric, c), m) == ModeSummaryOf(rows, m)
  {
    hide DescriptionOf, RaiseRows, ModeRows, Successful, ModeSummaryOf, Percent;
    var raised := RaiseRows(rows, mode, metric, c);
    forall m ensures |ModeRows(raised, m)| == |ModeRows(rows, m)| &&
                     |Successful(ModeRows(raised, m))| == |Successful(ModeRows(rows, m))|
    {
      RaisedCounts(rows, mode, metric, c, m);
    }
    forall m, k | (m, k) != (mode, metric) ensures DescriptionOf(raised, m, k) == DescriptionOf(rows, m, k) {
      OtherDescriptionStays(rows, mode, metric, c, m, k);
    }
    forall m | m != mode ensures ModeSummaryOf(raised, m) == ModeSummaryOf(rows, m) {
      OtherModeStays(rows, mode, metric, c, m);
    }
    RaisedMedian(rows, mode, metric, c);
  }

  // ---- Small changes ----

  predicate Near(a: Option<int>, b: Option<int>, e: int) {
    (a.None? && b.None?) || (a.Some? && b.Some? && b.value - e <= a.value <= b.value + e)
  }

  /** The same probes with every metric moved by at most e. */
  predicate NearRows(a: seq<Record>, b: seq<Record>, e: int) {
    |a| == |b| &&
    forall i :: 0 <= i < |a| ==>
      a[i].row.mode == b[i].row.mode && a[i].row.success == b[i].row.success &&
      forall metric :: Near(MetricOf(a[i].row, metric), MetricOf(b[i].row, metric), e)
  }

  lemma {:induction false} NearContributions(a: seq<Record>, b: seq<Record>, e: int, mode: Mode, metric: Metric)
    requires NearRows(a, b, e)
    ensures P.Within(Contributions(a, mode, metric), Contributions(b, mode, metric), e as real)
  {
    if a != [] {
      assert NearRows(a[1..], b[1..], e);
      NearContributions(a[1..], b[1..], e, mode, metric);
      assert Near(MetricOf(a[0].row, metric), MetricOf(b[0].row, metric), e);
    }
  }

  predicate Close(a: Option<real>, b: Option<real>, e: real) {
    (a.None? && b.None?) || (a.Some? && b.Some? && b.value - e <= a.value <= b.value + e)
  }

  lemma {:induction false} NearMedian(a: seq<Record>, b: seq<Record>, e: int, mode: Mode, metric: Metric)
    requires NearRows(a, b, e)
    ensures Close(DescriptionOf(a, mode, metric).p50, DescriptionOf(b, mode, metric).p50, e as real)
  {
    SamplesAre(a, mode, metric);
    SamplesAre(b, mode, metric);
    NearContributions(a, b, e, mode, metric);
    var u, v := Contributions(a, mode, metric), Contributions(b, mode, metric);
    if u != [] { P.QuantileLipschitz(u, v, e as real, 50.0); }
  }

  /** Measurement noise of at most e moves a median by at most e and a comparison by at most 2e. */
  lemma {:induction false} NearDeltas(a: seq<Record>, b: seq<Record>, e: int, mode: Mode, metric: Metric)
    requires NearRows(a, b, e)
    ensures Close(DescriptionOf(a, mode, metric).p50, DescriptionOf(b, mode, metric).p50, e as real)
    ensures Close(DeltaOf(a, mode, metric).delta, DeltaOf(b, mode, metric).delta, 2.0 * e as real)
  {
    NearMedian(a, b, e, mode, metric);
    NearMedian(a, b, e, BASELINE_MODE, metric);
  }

  // ---- Counts ----

  lemma {:induction false} FilterSmaller(rows: seq<Record>, p: Record -> bool)
    ensures |Filter(rows, p)| <= |rows|
  {
    if rows != [] { FilterSmaller(rows[1..], p); }
  }

  /** Every row is counted once, in its mode, as a success or as a failure. */
  lemma {:induction false} CountsAddUp(rows: seq<Record>)
    ensures |ModeRows(rows, Classical)| + |ModeRows(rows, Hybrid)| + |ModeRows(rows, HybridP256)| == |rows|
    ensures |Successful(ModeRows(rows, Classical))| + |Successful(ModeRows(rows, Hybrid))|
            + |Successful(ModeRows(rows, HybridP256))| == |Successful(rows)|
  {
    if rows != [] {
      CountsAddUp(rows[1..]);
      forall mode ensures |ModeRows(rows, mode)| ==
                            (if rows[0].row.mode == mode then 1 else 0) + |ModeRows(rows[1..], mode)| &&
                          |Successful(ModeRows(rows, mode))| ==
                            (if rows[0].row.mode == mode && rows[0].row.success then 1 else 0)
                            + |Successful(ModeRows(rows[1..], mode))|
      {
        SuccessesOfOne(rows, mode);
      }
    }
  }

  lemma {:induction false} SuccessesOfOne(rows: seq<Record>, mode: Mode)
    requires rows != []
    ensures |ModeRows(rows, mode)| == (if rows[0].row.mode == mode then 1 else 0) + |ModeRows(rows[1..], mode)|
    ensures |Successful(ModeRows(rows, mode))| ==
            (if rows[0].row.mode == mode && rows[0].row.success then 1 else 0)
            + |Successful(ModeRows(rows[1..], mode))|
  {
    var rest := ModeRows(rows[1..], mode);
    if rows[0].row.mode == mode {
      assert ModeRows(rows, mode) == [rows[0]] + rest;
      assert ([rows[0]] + rest)[1..] == rest;
    }
  }
}
