/** `describe` and `summarize`: the statistics the dashboard shows for a list of measurement rows. */
module Analytics {
  import opened Wrappers
  import opened Modes
  import opened Store
  import P = Percentile

  datatype Metric =
    ClientTcp | ClientHandshake | ServerHandshake | ClientTtfb | ClientTotal | BytesSent | BytesReceived

  const METRICS: seq<Metric> :=
    [ClientTcp, ClientHandshake, ServerHandshake, ClientTtfb, ClientTotal, BytesSent, BytesReceived]

  /** A measurement as a query returns it: the row with its key. */
  datatype Record = Record(sampleId: string, row: Row)

  function MetricOf(row: Row, metric: Metric): Option<int> {
    match metric
    case ClientTcp => row.timing.tcpUs
    case ClientHandshake => row.timing.handshakeUs
    case ServerHandshake => row.serverHandshakeUs
    case ClientTtfb => row.timing.ttfbUs
    case ClientTotal => row.timing.totalUs
    case BytesSent => row.timing.bytesSent
    case BytesReceived => row.timing.bytesReceived
  }

  // ---- Comprehensions ----

  function Filter(rows: seq<Record>, p: Record -> bool): seq<Record> {
    if rows == [] then []
    else if p(rows[0]) then [rows[0]] + Filter(rows[1..], p)
    else Filter(rows[1..], p)
  }

  function ModeRows(rows: seq<Record>, mode: Mode): seq<Record> {
    Filter(rows, (r: Record) => r.row.mode == mode)
  }

  function Successful(rows: seq<Record>): seq<Record> {
    Filter(rows, (r: Record) => r.row.success)
  }

  function Column(rows: seq<Record>, metric: Metric): seq<Option<int>> {
    if rows == [] then [] else [MetricOf(rows[0].row, metric)] + Column(rows[1..], metric)
  }

  /** The values that are not None, as floats. */
  function Clean(values: seq<Option<int>>): seq<real> {
    if values == [] then []
    else if values[0].Some? then [values[0].value as real] + Clean(values[1..])
    else Clean(values[1..])
  }

  // ---- describe ----

  datatype Description = Description(
    count: nat, mean: Option<real>,
    p50: Option<real>, p95: Option<real>, p99: Option<real>,
    min: Option<real>, max: Option<real>)

  const NO_DESCRIPTION := Description(0, None, None, None, None, None, None)

  function Sum(values: seq<real>): real {
    if values == [] then 0.0 else values[0] + Sum(values[1..])
  }

  /** `statistics.fmean`, without rounding. */
  function Mean(values: seq<real>): real
    requires values != []
  {
    Sum(values) / |values| as real
  }

  function Least(values: seq<real>): real
    requires values != []
  {
    if |values| == 1 then values[0]
    else
      var rest := Least(values[1..]); if values[0] <= rest then values[0] else rest
  }

  function Greatest(values: seq<real>): real
    requires values != []
  {
    if |values| == 1 then values[0]
    else
      var rest := Greatest(values[1..]); if values[0] >= rest then values[0] else rest
  }

  lemma {:induction false} Extremes(values: seq<real>)
    requires values != []
    ensures Least(values) in values && Greatest(values) in values
    ensures forall v :: v in values ==> Least(values) <= v <= Greatest(values)
  {
    if |values| > 1 {
      Extremes(values[1..]);
      assert values == [values[0]] + values[1..];
    }
  }

  function DescribeClean(clean: seq<real>): Description {
    if clean == [] then NO_DESCRIPTION
    else Description(
        |clean|, Some(Mean(clean)),
        Some(P.Quantile(clean, 50.0)), Some(P.Quantile(clean, 95.0)), Some(P.Quantile(clean, 99.0)),
        Some(Least(clean)), Some(Greatest(clean)))
  }

  /** The percentile as `describe` stores it; the values asked for never raise. */
  function Stored(answer: P.Answer): Option<real> {
    if answer.Value? then Some(answer.v) else None
  }

  function Describe(values: seq<Option<int>>): (d: Description)
    ensures d == DescribeClean(Clean(values))
  {
    var clean := Clean(values);
    if clean == [] then NO_DESCRIPTION
    else Description(
        |clean|, Some(Mean(clean)),
        Stored(P.Percentile(clean, 50.0)), Stored(P.Percentile(clean, 95.0)), Stored(P.Percentile(clean, 99.0)),
        Some(Least(clean)), Some(Greatest(clean)))
  }

  // ---- summarize ----

  datatype ModeSummary = ModeSummary(
    samples: nat, successes: nat, failures: int, metrics: map<Metric, Description>)

  datatype Delta = Delta(delta: Option<real>, percent: Option<real>)

  /** `comparison`: one table per non-baseline mode, and the metric keys that alias the hybrid table. */
  datatype Summary = Summary(
    modes: map<Mode, ModeSummary>,
    comparison: map<Mode, map<Metric, Delta>>,
    alias: map<Metric, Delta>)

  /** The values one mode contributes to one metric. */
  function Samples(rows: seq<Record>, mode: Mode, metric: Metric): seq<real> {
    Clean(Column(Successful(ModeRows(rows, mode)), metric))
  }

  function DescriptionOf(rows: seq<Record>, mode: Mode, metric: Metric): Description {
    DescribeClean(Samples(rows, mode, metric))
  }

  function ModeSummaryOf(rows: seq<Record>, mode: Mode): ModeSummary {
    var all, good := |ModeRows(rows, mode)|, |Successful(ModeRows(rows, mode))|;
    ModeSummary(all, good, all - good, map metric | metric in METRICS :: DescriptionOf(rows, mode, metric))
  }

  function Percent(delta: real, baseline: real): real
    requires baseline != 0.0
  {
    delta / baseline * 100.0
  }

  function Compare(baseline: Option<real>, other: Option<real>): Delta {
    if baseline.None? || other.None? then Delta(None, None)
    else
      var delta := other.value - baseline.value;
      Delta(Some(delta), if baseline.value != 0.0 then Some(Percent(delta, baseline.value)) else None)
  }

  function DeltaOf(rows: seq<Record>, mode: Mode, metric: Metric): Delta {
    Compare(DescriptionOf(rows, BASELINE_MODE, metric).p50, DescriptionOf(rows, mode, metric).p50)
  }

  function ComparisonOf(rows: seq<Record>, mode: Mode): map<Metric, Delta> {
    map metric | metric in METRICS :: DeltaOf(rows, mode, metric)
  }

  function ModeTable(rows: seq<Record>): map<Mode, ModeSummary> {
    map mode | mode in MODES :: ModeSummaryOf(rows, mode)
  }

  function ComparisonTable(rows: seq<Record>): map<Mode, map<Metric, Delta>> {
    map mode | mode in MODES && mode != BASELINE_MODE :: ComparisonOf(rows, mode)
  }

  function SummaryOf(rows: seq<Record>): Summary {
    Summary(ModeTable(rows), ComparisonTable(rows), ComparisonOf(rows, Hybrid))
  }

  lemma AllModes(mode: Mode)
    ensures mode in MODES
  {
    assert MODES[0] == Classical && MODES[1] == Hybrid && MODES[2] == HybridP256;
  }

  method SummarizeMode(rows: seq<Record>, mode: Mode) returns (summary: ModeSummary)
    ensures summary == ModeSummaryOf(rows, mode)
  {
    hide Filter, Column, Clean, Describe, DescribeClean;
    var modeRows := ModeRows(rows, mode);
    var successful := Successful(modeRows);
    var metrics: map<Metric, Description> := map[];
    for i := 0 to |METRICS|
      invariant forall metric :: metric in metrics <==> metric in METRICS[..i]
      invariant forall metric :: metric in metrics ==> metrics[metric] == DescriptionOf(rows, mode, metric)
    {
      metrics := metrics[METRICS[i] := Describe(Column(successful, METRICS[i]))];
      assert METRICS[..i + 1] == METRICS[..i] + [METRICS[i]];
    }
    assert METRICS[..|METRICS|] == METRICS;
    summary := ModeSummary(|modeRows|, |successful|, |modeRows| - |successful|, metrics);
  }

  method CompareMode(ghost rows: seq<Record>, ghost mode: Mode, metrics: seq<Metric>,
                     baseline: map<Metric, Description>, other: map<Metric, Description>)
    returns (table: map<Metric, Delta>)
    requires forall metric :: metric in metrics ==>
               metric in baseline && baseline[metric] == DescriptionOf(rows, BASELINE_MODE, metric)
    requires forall metric :: metric in metrics ==>
               metric in other && other[metric] == DescriptionOf(rows, mode, metric)
    ensures table == map metric | metric in metrics :: DeltaOf(rows, mode, metric)
  {
    hide DescriptionOf, Percent;
    table := map[];
    for i := 0 to |metrics|
      invariant forall metric :: metric in table <==> metric in metrics[..i]
      invariant forall metric :: metric in table ==> table[metric] == DeltaOf(rows, mode, metric)
    {
      var metric := metrics[i];
      var baselineP50, modeP50 := baseline[metric].p50, other[metric].p50;
      assert metrics[..i + 1] == metrics[..i] + [metric];
      if baselineP50.None? || modeP50.None? {
        table := table[metric := Delta(None, None)];
        continue;
      }
      var delta := modeP50.value - baselineP50.value;
      var percent: Option<real> := None;
      if baselineP50.value != 0.0 { percent := Some(Percent(delta, baselineP50.value)); }
      table := table[metric := Delta(Some(delta), percent)];
    }
    assert metrics[..|metrics|] == metrics;
  }

  method SummarizeModes(rows: seq<Record>) returns (modes: map<Mode, ModeSummary>)
    ensures modes == ModeTable(rows)
  {
    hide ModeSummaryOf;
    modes := map[];
    for i := 0 to |MODES|
      invariant forall mode :: mode in modes <==> mode in MODES[..i]
      invariant forall mode :: mode in modes ==> modes[mode] == ModeSummaryOf(rows, mode)
    {
      var summary := SummarizeMode(rows, MODES[i]);
      modes := modes[MODES[i] := summary];
      assert MODES[..i + 1] == MODES[..i] + [MODES[i]];
    }
    assert MODES[..|MODES|] == MODES;
  }

  lemma ComparisonIs(rows: seq<Record>, mode: Mode, table: map<Metric, Delta>)
    requires table == map metric | metric in METRICS :: DeltaOf(rows, mode, metric)
    ensures table == ComparisonOf(rows, mode)
  {
    hide DeltaOf;
  }

  lemma TableSays(rows: seq<Record>, mode: Mode)
    ensures mode in ModeTable(rows)
    ensures forall metric :: metric in METRICS ==>
              metric in ModeTable(rows)[mode].metrics &&
              ModeTable(rows)[mode].metrics[metric] == DescriptionOf(rows, mode, metric)
  {
    hide DescriptionOf, ModeRows, Successful;
    AllModes(mode);
  }

  method CompareModes(ghost rows: seq<Record>, modes: map<Mode, ModeSummary>)
    returns (comparison: map<Mode, map<Metric, Delta>>)
    requires modes == ModeTable(rows)
    ensures comparison == ComparisonTable(rows)
  {
    hide DescriptionOf, DeltaOf, ModeTable, ComparisonOf;
    TableSays(rows, BASELINE_MODE);
    var baseline := modes[BASELINE_MODE].metrics;
    comparison := map[];
    for i := 0 to |MODES|
      invariant forall mode :: mode in comparison <==> mode in MODES[..i] && mode != BASELINE_MODE
      invariant forall mode :: mode in comparison ==> comparison[mode] == ComparisonOf(rows, mode)
    {
      assert MODES[..i + 1] == MODES[..i] + [MODES[i]];
      if MODES[i] == BASELINE_MODE { continue; }
      TableSays(rows, MODES[i]);
      var table := CompareMode(rows, MODES[i], METRICS, baseline, modes[MODES[i]].metrics);
      ComparisonIs(rows, MODES[i], table);
      comparison := comparison[MODES[i] := table];
    }
    assert MODES[..|MODES|] == MODES;
  }

  method Summarize(rows: seq<Record>) returns (output: Summary)
    ensures output == SummaryOf(rows)
  {
    var modes := SummarizeModes(rows);
    var comparison := CompareModes(rows, modes);
    var alias: map<Metric, Delta> := map[];
    AllModes(Hybrid);
    if Hybrid in comparison { alias := comparison[Hybrid]; }
    output := Summary(modes, comparison, alias);
  }
}
