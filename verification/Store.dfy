/**
 The benchmark database: its two tables as maps, its four write transactions as atomic steps,
 and the repository object whose methods perform them with roll-back.
 */
module Store {
  import opened Wrappers
  import opened Modes

  /** A clock reading; ISO timestamps of one format compare as their instants do. */
  type Time = int

  // ---- Table rows ----

  datatype Run = Run(
    startedAt: Time,
    completedAt: Option<Time>,
    clientName: string,
    opensslVersion: Option<string>,
    iterations: Option<int>,
    warmup: Option<int>,
    notes: Option<string>)

  /** The three columns both sides report. */
  datatype Negotiated = Negotiated(group: Option<string>, tlsVersion: Option<string>, cipher: Option<string>)

  /** The six columns only the client reports. */
  datatype ClientTiming = ClientTiming(
    tcpUs: Option<int>, handshakeUs: Option<int>, ttfbUs: Option<int>, totalUs: Option<int>,
    bytesSent: Option<int>, bytesReceived: Option<int>)

  const NO_TIMING := ClientTiming(None, None, None, None, None, None)

  datatype Stamps = Stamps(server: Option<Time>, client: Option<Time>, created: Time)

  datatype Row = Row(
    runId: string,
    mode: Mode,
    expectedGroup: string,
    negotiated: Negotiated,
    serverHandshakeUs: Option<int>,
    timing: ClientTiming,
    success: bool,
    error: Option<string>,
    stamps: Stamps)

  datatype State = State(runs: map<string, Run>, rows: map<string, Row>)

  const EMPTY := State(map[], map[])

  // ---- Payloads ----

  datatype RunPayload = RunPayload(
    runId: string, clientName: Option<string>, opensslVersion: Option<string>,
    iterations: Option<int>, warmup: Option<int>, notes: Option<string>)

  datatype ServerPayload = ServerPayload(
    sampleId: string, runId: string, mode: Mode, expectedGroup: string,
    negotiated: Negotiated, handshakeUs: int)

  datatype ClientPayload = ClientPayload(
    sampleId: string, runId: string, mode: Mode, expectedGroup: string,
    negotiated: Negotiated, timing: ClientTiming, success: bool, error: Option<string>)

  /** One write request with the clock readings its transaction takes. */
  datatype Op =
    | WriteRun(run: RunPayload, now: Time)
    | FinishRun(id: string, runNow: Time, now: Time)
    | ServerPost(server: ServerPayload, runNow: Time, now: Time)
    | ClientPost(client: ClientPayload, runNow: Time, now: Time)

  // ---- Which writes the database takes ----

  /** SQLite binds only signed 64-bit integers; the driver raises on any other. */
  predicate Fits(i: int) {
    -0x8000_0000_0000_0000 <= i < 0x8000_0000_0000_0000
  }

  predicate FitsOrNull(i: Option<int>) {
    i.None? || Fits(i.value)
  }

  predicate TimingFits(t: ClientTiming) {
    FitsOrNull(t.tcpUs) && FitsOrNull(t.handshakeUs) && FitsOrNull(t.ttfbUs) && FitsOrNull(t.totalUs) &&
    FitsOrNull(t.bytesSent) && FitsOrNull(t.bytesReceived)
  }

  /** CHECK constraints apply to the proposed row before any conflict on its key is looked at. */
  predicate Admitted(op: Op) {
    match op
    case WriteRun(p, _) => FitsOrNull(p.iterations) && FitsOrNull(p.warmup)
    case FinishRun(_, _, _) => true
    case ServerPost(p, _, _) => TableAdmits(p.mode) && Fits(p.handshakeUs)
    case ClientPost(p, _, _) => TableAdmits(p.mode) && TimingFits(p.timing)
  }

  // ---- The effect of an admitted write ----

  const DEFAULT_CLIENT := "openssl-client"

  function EnsureRun(runs: map<string, Run>, id: string, now: Time): map<string, Run> {
    if id in runs then runs else runs[id := Run(now, None, DEFAULT_CLIENT, None, None, None, None)]
  }

  function ClientName(p: RunPayload): string {
    if p.clientName.Some? then p.clientName.value else DEFAULT_CLIENT
  }

  function Coalesce<T>(a: Option<T>, b: Option<T>): Option<T> {
    if a.Some? then a else b
  }

  function AfterServer(rows: map<string, Row>, p: ServerPayload, now: Time): Row {
    if p.sampleId in rows then
      var row := rows[p.sampleId];
      row.(negotiated := p.negotiated, serverHandshakeUs := Some(p.handshakeUs),
           stamps := row.stamps.(server := Some(now)))
    else
      Row(p.runId, p.mode, p.expectedGroup, p.negotiated, Some(p.handshakeUs), NO_TIMING, true, None,
          Stamps(Some(now), None, now))
  }

  function AfterClient(rows: map<string, Row>, p: ClientPayload, now: Time): Row {
    if p.sampleId in rows then
      var row := rows[p.sampleId];
      var merged := Negotiated(Coalesce(p.negotiated.group, row.negotiated.group),
                               Coalesce(p.negotiated.tlsVersion, row.negotiated.tlsVersion),
                               Coalesce(p.negotiated.cipher, row.negotiated.cipher));
      row.(negotiated := merged, timing := p.timing, success := p.success, error := p.error,
           stamps := row.stamps.(client := Some(now)))
    else
      Row(p.runId, p.mode, p.expectedGroup, p.negotiated, None, p.timing, p.success, p.error,
          Stamps(None, Some(now), now))
  }

  function Step(st: State, op: Op): State {
    if !Admitted(op) then st else
    match op
    case WriteRun(p, now) =>
      var run := if p.runId in st.runs then st.runs[p.runId] else Run(now, None, "", None, None, None, None);
      st.(runs := st.runs[p.runId := run.(clientName := ClientName(p), opensslVersion := p.opensslVersion,
                                          iterations := p.iterations, warmup := p.warmup, notes := p.notes)])
    case FinishRun(id, runNow, now) =>
      var runs := EnsureRun(st.runs, id, runNow);
      st.(runs := runs[id := runs[id].(completedAt := Some(now))])
    case ServerPost(p, runNow, now) =>
      State(EnsureRun(st.runs, p.runId, runNow), st.rows[p.sampleId := AfterServer(st.rows, p, now)])
    case ClientPost(p, runNow, now) =>
      State(EnsureRun(st.runs, p.runId, runNow), st.rows[p.sampleId := AfterClient(st.rows, p, now)])
  }

  /** The state a sequence of requests leaves, in the order the database serialises them. */
  function Replay(st: State, log: seq<Op>): State {
    if log == [] then st else Step(Replay(st, log[..|log| - 1]), log[|log| - 1])
  }
}
