/** The field limits the dashboard's API puts before the database, and what they mean for live reports. */
module Schemas {
  import opened Wrappers
  import opened Modes
  import opened SampleIds
  import opened Probes
  import Analytics
  import Json
  import Messages
  import Queries
  import Store

  predicate Text(text: string, least: nat, most: nat) {
    least <= |text| <= most
  }

  predicate TextOrNull(text: Option<string>, most: nat) {
    text.None? || |text.value| <= most
  }

  predicate Identifier(text: string, most: nat) {
    Text(text, 1, most) && AllIdentifierChars(text)
  }

  predicate Within(n: Option<int>, least: int, most: int) {
    n.None? || least <= n.value <= most
  }

  predicate AtLeastZero(n: Option<int>) {
    n.None? || 0 <= n.value
  }

  const TWO_MINUTES := 120_000_000

  predicate Names(n: Store.Negotiated) {
    TextOrNull(n.group, 80) && TextOrNull(n.tlsVersion, 40) && TextOrNull(n.cipher, 100)
  }

  predicate AcceptsRun(p: Store.RunPayload) {
    Identifier(p.runId, 120) && TextOrNull(p.clientName, 120) && TextOrNull(p.opensslVersion, 240) &&
    Within(p.iterations, 1, 1_000_000) && Within(p.warmup, 0, 100_000) && TextOrNull(p.notes, 500)
  }

  predicate AcceptsServer(p: Store.ServerPayload) {
    Identifier(p.sampleId, 160) && Identifier(p.runId, 120) && Text(p.expectedGroup, 1, 80) && Names(p.negotiated) &&
    0 <= p.handshakeUs <= TWO_MINUTES
  }

  predicate AcceptsClient(p: Store.ClientPayload) {
    Identifier(p.sampleId, 160) && Identifier(p.runId, 120) && Text(p.expectedGroup, 1, 80) && Names(p.negotiated) &&
    Within(p.timing.tcpUs, 0, TWO_MINUTES) && Within(p.timing.handshakeUs, 0, TWO_MINUTES) &&
    Within(p.timing.ttfbUs, 0, TWO_MINUTES) && Within(p.timing.totalUs, 0, TWO_MINUTES) &&
    AtLeastZero(p.timing.bytesSent) && AtLeastZero(p.timing.bytesReceived) && TextOrNull(p.error, 1000)
  }

  /**
   Of what the API accepts the database takes every run, every server report of a mode the table
   knows, and every client report of such a mode whose byte counts, which the API does not bound,
   are signed 64-bit numbers; it rejects everything else.
   */
  lemma AcceptedIsAdmitted(run: Store.RunPayload, server: Store.ServerPayload, client: Store.ClientPayload,
                           t: Store.Time, u: Store.Time)
    ensures AcceptsRun(run) ==> Store.Admitted(Store.WriteRun(run, t))
    ensures AcceptsServer(server) ==>
            (Store.Admitted(Store.ServerPost(server, t, u)) <==> TableAdmits(server.mode))
    ensures AcceptsClient(client) ==>
            (Store.Admitted(Store.ClientPost(client, t, u)) <==>
              TableAdmits(client.mode) && Store.FitsOrNull(client.timing.bytesSent) &&
              Store.FitsOrNull(client.timing.bytesReceived))
  {
  }

  // ---- What the API's states are like ----

  /** A write request that has passed the API. */
  predicate FromApi(op: Store.Op) {
    match op
    case WriteRun(p, _) => AcceptsRun(p)
    case FinishRun(_, _, _) => true
    case ServerPost(p, _, _) => AcceptsServer(p)
    case ClientPost(p, _, _) => AcceptsClient(p)
  }

  lemma {:induction false} NoNamelessRows(log: seq<Store.Op>)
    requires forall op :: op in log ==> FromApi(op)
    ensures Queries.SamplesOf(Store.Replay(Store.EMPTY, log), "") == {}
  {
    if log != [] {
      var before, op := log[..|log| - 1], log[|log| - 1];
      assert forall o :: o in before ==> o in log;
      NoNamelessRows(before);
      NoNamelessRow(Store.Replay(Store.EMPTY, before), op);
    }
  }

  lemma NoNamelessRow(st: Store.State, op: Store.Op)
    requires FromApi(op) && Queries.SamplesOf(st, "") == {}
    ensures Queries.SamplesOf(Store.Step(st, op), "") == {}
  {
    var rows := Store.Step(st, op).rows;
    forall id | id in rows ensures rows[id].runId != "" {
      assert id in st.rows ==> st.rows[id].runId == "" ==> id in Queries.SamplesOf(st, "");
    }
  }

  /**
   The run list and the page agree in every state that the API can bring about: it refuses the one
   run id for which they would not.
   */
  lemma {:induction false} ApiPagesAgree(log: seq<Store.Op>, id: string, rows: seq<Analytics.Record>)
    requires forall op :: op in log ==> FromApi(op)
    requires Queries.PageRows(Store.Replay(Store.EMPTY, log), Some(id), rows)
    ensures Queries.Listed(Store.Replay(Store.EMPTY, log), id) == Queries.Totals(Analytics.SummaryOf(rows))
  {
    NoNamelessRows(log);
    Queries.AggregatesAgree(Store.Replay(Store.EMPTY, log), id, rows);
  }

  // ---- Live reports ----

  lemma {:induction false} SanitiseShrinks(text: string)
    ensures |Json.Sanitise(text)| <= |text|
  {
    if text != "" { SanitiseShrinks(text[..|text| - 1]); }
  }

  /**
   A live client report is accepted exactly when its run id has at most 120 characters, the probe took
   at most two minutes in all, and its names keep to the API's lengths, which are shorter than those
   of the client's own buffers. The database then takes it exactly when its mode is classical or
   hybrid and its byte counts are signed 64-bit numbers.
   */
  lemma LiveReportAccepted(key: ProbeKey, endpoint: Endpoint, a: Attempt, t: Store.Time, u: Store.Time)
    requires ClientKey(key) && Timed(a.times, a.exit) && Sized(a)
    requires a.negotiated.group.Some? && a.negotiated.tlsVersion.Some? && a.negotiated.cipher.Some?
    ensures var half := HalfOf(key, endpoint, a);
            (AcceptsClient(half) <==>
              |key.runId| <= 120 && a.times.completed - a.times.started <= 120_000_000 &&
              1 <= |endpoint.group| <= 80 && |a.negotiated.group.value| <= 80 &&
              |a.negotiated.tlsVersion.value| <= 40 && |a.negotiated.cipher.value| <= 100) &&
            (AcceptsClient(half) ==>
              (Store.Admitted(Store.ClientPost(half, t, u)) <==>
                (endpoint.mode == Classical || endpoint.mode == Hybrid) &&
                a.bytesSent <= 0x7FFF_FFFF_FFFF_FFFF && a.bytesReceived <= 0x7FFF_FFFF_FFFF_FFFF))
  {
    hide Json.Sanitise;
    SpansAreTrue(a.times, a.exit);
    SanitiseShrinks(a.error);
    if |key.runId| <= 120 { SampleIdsUnique(key, key); }
  }

  /** The live creation of a run is accepted, and taken, exactly up to 120 characters of run id and 240 of version. */
  lemma LiveRunAccepted(runId: string, version: string, iterations: nat, warmup: nat, t: Store.Time)
    requires IsIdentifier(runId) && 1 <= iterations <= 1_000_000 && warmup <= 100_000
    ensures var run := Messages.RunOf(runId, version, iterations, warmup);
            (AcceptsRun(run) <==> |runId| <= 120 && |Messages.VersionKept(version)| <= 240) &&
            Store.Admitted(Store.WriteRun(run, t))
  {
    hide Messages.VersionKept, Messages.NOTES;
    Messages.PlainNotes();
  }

  /** A text of these characters only, as long as its bounds admit. */
  predicate Fitting(text: string, most: nat) {
    1 <= |text| <= most && forall i :: 0 <= i < |text| ==> IdentifierChar(text[i])
  }

  predicate Short(text: Option<string>, most: nat) {
    text.Some? ==> |text.value| <= most
  }

  predicate Bounded(n: Option<int>, least: int, most: int) {
    n.Some? ==> least <= n.value <= most
  }

  /** The limits of every field, for the three kinds of object. */
  lemma FieldLimits(run: Store.RunPayload, server: Store.ServerPayload, client: Store.ClientPayload)
    ensures AcceptsRun(run) <==>
            Fitting(run.runId, 120) && Short(run.clientName, 120) && Short(run.opensslVersion, 240) &&
            Bounded(run.iterations, 1, 1000000) && Bounded(run.warmup, 0, 100000) && Short(run.notes, 500)
    ensures AcceptsServer(server) <==>
            Fitting(server.sampleId, 160) && Fitting(server.runId, 120) &&
            1 <= |server.expectedGroup| <= 80 && Short(server.negotiated.group, 80) &&
            Short(server.negotiated.tlsVersion, 40) && Short(server.negotiated.cipher, 100) &&
            Bounded(Some(server.handshakeUs), 0, 120000000)
    ensures AcceptsClient(client) <==>
            Fitting(client.sampleId, 160) && Fitting(client.runId, 120) &&
            1 <= |client.expectedGroup| <= 80 && Short(client.negotiated.group, 80) &&
            Short(client.negotiated.tlsVersion, 40) && Short(client.negotiated.cipher, 100) &&
            Bounded(client.timing.tcpUs, 0, 120000000) && Bounded(client.timing.handshakeUs, 0, 120000000) &&
            Bounded(client.timing.ttfbUs, 0, 120000000) && Bounded(client.timing.totalUs, 0, 120000000) &&
            (client.timing.bytesSent.Some? ==> client.timing.bytesSent.value >= 0) &&
            (client.timing.bytesReceived.Some? ==> client.timing.bytesReceived.value >= 0) &&
            Short(client.error, 1000)
  {
    hide IdentifierChar;
  }
}
