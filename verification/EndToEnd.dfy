/**
 The whole pipeline: the halves of a live run, delivered in any order amid any other traffic, leave
 one row for every measured probe of the modes the table admits, and the dashboard counts them.
 */
module EndToEnd {
  import opened Wrappers
  import opened CText
  import opened Modes
  import opened SampleIds
  import opened Schedule
  import opened Probes
  import opened Benchmark
  import opened Store
  import opened StoreLog
  import opened Analytics
  import opened Queries
  import Messages
  import Requests
  import Schemas
  import Server
  import StoreInvariants

  // ---- Which writes a run causes ----

  /** The run id obeys the dashboard's limit, and no host name carries the record flag. */
  predicate Live(o: Options) {
    ValidOptions(o) && |o.runId| <= 120 &&
    forall slot :: 0 <= slot < 3 ==> !Contains(o.endpoints[slot].host, Requests.FLAG)
  }

  predicate Outcomes(o: Options, outcomes: seq<Outcome>)
    requires ValidOptions(o)
  {
    |outcomes| == 3 * o.iterations && forall k :: 0 <= k < |outcomes| ==> Genuine(o, k, outcomes[k])
  }

  /** A half that the matching server posts for a request it has read. */
  predicate ServerSays(p: ServerPayload, endpoint: Endpoint, session: Session, request: string) {
    var ids := Requests.RecordedAs(request);
    ids.Some? &&
    p == Server.ServerHalf(ids.value, Server.ServerOptions(endpoint.mode, endpoint.group), session, p.handshakeUs)
  }

  /** A write that stems from the k-th measured probe of the run. */
  predicate Stems(op: Op, o: Options, k: nat, outcome: Outcome)
    requires ValidOptions(o)
  {
    (op.ClientPost? && op.client == HalfAt(o, k, outcome)) ||
    (op.ServerPost? && outcome.attempt.request.Some? &&
      ServerSays(op.server, EndpointAt(o, k), outcome.session, outcome.attempt.request.value))
  }

  /** A write that a server makes of one of the run's warm-up probes. */
  ghost predicate StemsFromWarmup(op: Op, o: Options)
    requires ValidOptions(o)
  {
    op.ServerPost? && exists slot: nat, index: nat, session ::
      slot < 3 && 1 <= index <= o.warmup &&
      ServerSays(op.server, o.endpoints[slot], session,
                 Requests.ProbeRequest(ProbeKey(o.runId, o.endpoints[slot].mode, index), false, o.endpoints[slot].host))
  }

  /** Not the id of any of the run's measured probes. */
  predicate Elsewhere(id: string, o: Options) {
    forall k :: 0 <= k < 3 * o.iterations ==> id != SampleId(KeyAt(o, k))
  }

  /** A write that names neither the run nor any of its samples, or none of a measurement. */
  predicate Foreign(op: Op, o: Options) {
    match op
    case ServerPost(p, _, _) => p.runId != o.runId && Elsewhere(p.sampleId, o)
    case ClientPost(p, _, _) => p.runId != o.runId && Elsewhere(p.sampleId, o)
    case _ => true
  }

  /** Every write the database takes while the run is on, in whatever order; what it rejects may be anything. */
  ghost predicate Traffic(log: seq<Op>, o: Options, outcomes: seq<Outcome>)
    requires ValidOptions(o)
  {
    forall op :: op in log && Admitted(op) ==>
      Foreign(op, o) || StemsFromWarmup(op, o) || exists k :: 0 <= k < |outcomes| && Stems(op, o, k, outcomes[k])
  }

  /** Every measured probe of a mode the table admits has been reported by the client, and the report was taken. */
  ghost predicate AllReported(log: seq<Op>, o: Options, outcomes: seq<Outcome>)
    requires ValidOptions(o)
  {
    forall k :: 0 <= k < |outcomes| && TableAdmits(KeyAt(o, k).mode) ==>
      exists op :: op in log && op.ClientPost? && op.client == HalfAt(o, k, outcomes[k]) && Admitted(op)
  }

  /** The dashboard took what it read off a client's connection: it answers no post before that. */
  ghost predicate Took(log: seq<Op>, stream: string) {
    exists op :: op in log && op.ClientPost? && Admitted(op) && Schemas.AcceptsClient(op.client) &&
                 Delivers(stream, op.client)
  }

  /** Every post about a mode the table admits was answered. */
  predicate AllAnswered(o: Options, outcomes: seq<Outcome>, wires: seq<Option<string>>)
    requires ValidOptions(o) && |wires| == |outcomes|
  {
    forall k :: 0 <= k < |outcomes| && TableAdmits(KeyAt(o, k).mode) ==> wires[k].Some?
  }

  /** A valid database without rows of the run or under its ids. */
  ghost predicate Fresh(st: State, o: Options) {
    StoreInvariants.Valid(st) &&
    forall id :: id in st.rows ==> st.rows[id].runId != o.runId && Elsewhere(id, o)
  }

  // ---- Identity ----

  lemma KeyAtIsClientKey(o: Options, k: nat)
    requires ValidOptions(o) && k < 3 * o.iterations
    ensures ClientKey(KeyAt(o, k)) && SlotAt(k) < 3
    ensures KeyAt(o, k).mode == MODES[SlotAt(k)] == EndpointAt(o, k).mode
  {
  }

  /** Different measured probes have different keys. */
  lemma KeyAtInjective(o: Options, j: nat, k: nat)
    requires KeyAt(o, j) == KeyAt(o, k)
    ensures j == k
  {
    assert MODES[SlotAt(j)] == MODES[SlotAt(k)];
    assert SlotAt(j) < 3 && SlotAt(k) < 3;
    assert SlotAt(j) == SlotAt(k);
    EachModeOnce(j / 3 + 1, j % 3, SlotAt(j));
    EachModeOnce(k / 3 + 1, k % 3, SlotAt(k));
    assert j / 3 == k / 3 && j % 3 == k % 3;
  }

  /** The id of a measurement of some run that obeys the dashboard's limit. */
  ghost predicate Labels(id: string, runId: string) {
    exists key :: id == SampleId(key) && ClientKey(key) && |key.runId| <= 120 && key.runId == runId
  }

  /** Other runs of the benchmark client never use an id of this one. */
  lemma LabelledElsewhere(id: string, runId: string, o: Options)
    requires ValidOptions(o) && |o.runId| <= 120 && runId != o.runId && Labels(id, runId)
    ensures Elsewhere(id, o)
  {
    hide SampleId, KeyAt;
    var key :| id == SampleId(key) && ClientKey(key) && |key.runId| <= 120 && key.runId == runId;
    forall k | 0 <= k < 3 * o.iterations ensures id != SampleId(KeyAt(o, k)) {
      KeyAtIsClientKey(o, k);
      RunOfKey(o, k);
      SampleIdsUnique(key, KeyAt(o, k));
    }
  }

  /**
   Nor does anyone whose ids do not begin with the run's id and a dash, or are too short to hold a
   mode and a padded number behind them.
   */
  lemma UnlikeElsewhere(id: string, o: Options)
    requires ValidOptions(o) && |o.runId| <= 120
    requires !(o.runId + "-" <= id) || |id| < |o.runId| + 14
    ensures Elsewhere(id, o)
  {
    forall k | 0 <= k < 3 * o.iterations ensures id != SampleId(KeyAt(o, k)) {
      KeyAtIsClientKey(o, k);
      var key := KeyAt(o, k);
      SampleIdsUnique(key, key);
      SequenceWidth(key.sequence);
      assert FullId(key)[..|o.runId| + 1] == o.runId + "-";
    }
  }

  lemma PrefixContains(text: string, n: nat, pattern: string)
    requires n <= |text| && Contains(text[..n], pattern)
    ensures Contains(text, pattern)
  {
    var i: nat :| i <= n && OccursAt(text[..n], pattern, i);
    assert text[..n][i..i + |pattern|] == text[i..i + |pattern|];
    assert OccursAt(text, pattern, i);
  }

  lemma HostKeptClean(key: ProbeKey, record: bool, host: string)
    requires !Contains(host, Requests.FLAG)
    ensures !Contains(Requests.HostKept(key, record, host), Requests.FLAG)
  {
    var kept := Requests.HostKept(key, record, host);
    if kept != host && Contains(kept, Requests.FLAG) {
      PrefixContains(host, |kept|, Requests.FLAG);
    }
  }

  /** A warm-up probe leaves nothing behind at the server either. */
  lemma WarmupsLeaveNothing(op: Op, o: Options)
    requires Live(o)
    ensures !StemsFromWarmup(op, o)
  {
    hide Requests.ProbeRequest, Requests.RecordedAs, Requests.HostKept, Contains;
    if op.ServerPost? {
      forall slot: nat, index: nat, session | slot < 3 && 1 <= index <= o.warmup
        ensures var e := o.endpoints[slot];
                !ServerSays(op.server, e, session,
                            Requests.ProbeRequest(ProbeKey(o.runId, e.mode, index), false, e.host))
      {
        var key := ProbeKey(o.runId, o.endpoints[slot].mode, index);
        Requests.RequestRoundTrip(key, false, o.endpoints[slot].host);
        HostKeptClean(key, false, o.endpoints[slot].host);
      }
    }
  }

  /** Both halves of a measured probe carry its id, its run and its mode. */
  lemma StemsSays(op: Op, o: Options, k: nat, outcome: Outcome)
    requires Live(o) && k < 3 * o.iterations && Genuine(o, k, outcome) && Stems(op, o, k, outcome)
    ensures op.ClientPost? ==> op.client.sampleId == SampleId(KeyAt(o, k)) && op.client.runId == o.runId &&
                               op.client.mode == KeyAt(o, k).mode && op.client.success == outcome.attempt.exit.Done?
    ensures op.ServerPost? ==> op.server.sampleId == SampleId(KeyAt(o, k)) && op.server.runId == o.runId &&
                               op.server.mode == KeyAt(o, k).mode
  {
    hide Requests.ProbeRequest, Requests.RecordedAs, Requests.HostKept, Contains, SampleId, Timed, Recorded;
    KeyAtIsClientKey(o, k);
    if op.ServerPost? {
      Requests.RequestRoundTrip(KeyAt(o, k), true, EndpointAt(o, k).host);
    }
  }

  /**
   In a live run the two halves of a probe always agree, so by convergence their order of arrival
   does not matter: the server posts only what it was asked over a session that the client, too,
   has reported.
   */
  lemma LiveHalvesAgree(o: Options, k: nat, outcome: Outcome, p: ServerPayload)
    requires Live(o) && k < 3 * o.iterations && Genuine(o, k, outcome)
    requires outcome.attempt.request.Some?
    requires ServerSays(p, EndpointAt(o, k), outcome.session, outcome.attempt.request.value)
    ensures Agree(p, HalfAt(o, k, outcome))
  {
    hide Requests.ProbeRequest, Requests.RecordedAs, Requests.HostKept, Contains, SampleId, Timed, Recorded;
    KeyAtIsClientKey(o, k);
    Requests.RequestRoundTrip(KeyAt(o, k), true, EndpointAt(o, k).host);
  }

  /**
   A run whose posts were answered has all been reported: the bytes that the client sent can only
   be read as the half that it meant.
   */
  lemma {:induction false} AnsweredIsReported(log: seq<Op>, o: Options, outcomes: seq<Outcome>,
                                              wires: seq<Option<string>>)
    requires ValidOptions(o) && '\r' !in o.dashboardHost && Outcomes(o, outcomes) && Wired(o, outcomes, wires)
    requires forall slot :: 0 <= slot < 3 ==> Messages.PlainGroup(o.endpoints[slot])
    requires forall k :: 0 <= k < |outcomes| ==> Messages.PlainNames(outcomes[k].session)
    requires AllAnswered(o, outcomes, wires)
    requires forall k :: 0 <= k < |wires| && wires[k].Some? ==> Took(log, wires[k].value)
    ensures AllReported(log, o, outcomes)
  {
    hide Delivers, Genuine, KeyAt, HalfAt, WireAt, Messages.PlainGroup, Messages.PlainNames, Schemas.AcceptsClient;
    forall k | 0 <= k < |outcomes| && TableAdmits(KeyAt(o, k).mode)
      ensures exists op :: op in log && op.ClientPost? && op.client == HalfAt(o, k, outcomes[k]) && Admitted(op)
    {
      assert Took(log, wires[k].value);
      var op :| op in log && op.ClientPost? && Admitted(op) && Schemas.AcceptsClient(op.client) &&
                Delivers(wires[k].value, op.client);
      KeyAtIsClientKey(o, k);
      WireDelivers(o, k, outcomes[k], op.client);
    }
  }

  // ---- The rows of the run ----

  /** Every write for the sample of a measured probe stems from that probe. */
  lemma {:induction false} HistoryStems(log: seq<Op>, o: Options, outcomes: seq<Outcome>, k: nat, op: Op)
    requires Live(o) && Outcomes(o, outcomes) && Traffic(log, o, outcomes) && k < |outcomes|
    requires op in History(log, SampleId(KeyAt(o, k)))
    ensures Stems(op, o, k, outcomes[k])
  {
    hide SampleId, Stems, StemsFromWarmup, Genuine, KeyAt, Contains;
    WarmupsLeaveNothing(op, o);
    if Foreign(op, o) {
      assert false;
    } else {
      var j :| 0 <= j < |outcomes| && Stems(op, o, j, outcomes[j]);
      StemsSays(op, o, j, outcomes[j]);
      KeyAtIsClientKey(o, j);
      KeyAtIsClientKey(o, k);
      RunOfKey(o, j);
      RunOfKey(o, k);
      SampleIdsUnique(KeyAt(o, j), KeyAt(o, k));
      KeyAtInjective(o, j, k);
    }
  }

  lemma RunOfKey(o: Options, k: nat)
    ensures KeyAt(o, k).runId == o.runId
  {
  }

  lemma NotYetThere(st: State, o: Options, k: nat)
    requires Live(o) && Fresh(st, o) && k < 3 * o.iterations
    ensures SampleId(KeyAt(o, k)) !in st.rows
  {
    hide SampleId, KeyAt, Contains, StoreInvariants.Valid;
    assert Elsewhere(SampleId(KeyAt(o, k)), o) ==> SampleId(KeyAt(o, k)) != SampleId(KeyAt(o, k));
  }

  /** The row a history of one probe's writes denotes: a success until the client has said otherwise. */
  lemma {:induction false} RowOfProbe(h: seq<Op>, o: Options, k: nat, outcome: Outcome)
    requires Live(o) && k < 3 * o.iterations && Genuine(o, k, outcome) && IsMeasurement(h) && h != []
    requires forall op :: op in h ==> Stems(op, o, k, outcome)
    ensures RowOf(h).runId == o.runId && RowOf(h).mode == KeyAt(o, k).mode
    ensures RowOf(h).success <==> Clients(h) == {} || outcome.attempt.exit.Done?
  {
    hide SampleId, KeyAt, Contains, Genuine, Stems, Settled;
    forall op | op in h
      ensures op.ClientPost? ==> op.client.runId == o.runId && op.client.mode == KeyAt(o, k).mode &&
                                 op.client.success == outcome.attempt.exit.Done? && op.client in Clients(h)
      ensures op.ServerPost? ==> op.server.runId == o.runId && op.server.mode == KeyAt(o, k).mode
    {
      StemsSays(op, o, k, outcome);
    }
    assert h[0] in h;
    var last := LastSuch(h, (op: Op) => op.ClientPost?);
    if last.Some? { assert h[last.value] in h; } else { assert Clients(h) == {}; }
  }

  /**
   A measured probe has a row exactly when one of its halves was taken, and the row says how the
   probe ended exactly when the client's half was among them: a server's half alone counts as a
   success.
   */
  lemma {:induction false} ProbeHasRow(st: State, log: seq<Op>, o: Options, outcomes: seq<Outcome>, k: nat)
    requires Live(o) && Outcomes(o, outcomes) && Fresh(st, o) && Traffic(log, o, outcomes) && k < |outcomes|
    ensures var rows, id := Replay(st, log).rows, SampleId(KeyAt(o, k));
            (id in rows <==> History(log, id) != []) &&
            (id in rows ==>
              rows[id].runId == o.runId && rows[id].mode == KeyAt(o, k).mode &&
              (rows[id].success <==> Clients(History(log, id)) == {} || outcomes[k].attempt.exit.Done?))
  {
    hide SampleId, KeyAt, Contains, Genuine, Stems, RowOf, Fresh, Traffic, Clients;
    var id := SampleId(KeyAt(o, k));
    NotYetThere(st, o, k);
    RowsRefineLog(st, log, id);
    var h := History(log, id);
    forall op | op in h ensures Stems(op, o, k, outcomes[k]) {
      HistoryStems(log, o, outcomes, k, op);
    }
    if h != [] { RowOfProbe(h, o, k, outcomes[k]); }
  }

  /** And every row of the run is that of a measured probe of an admitted mode. */
  lemma {:induction false} RowHasProbe(st: State, log: seq<Op>, o: Options, outcomes: seq<Outcome>, id: string)
    returns (k: nat)
    requires Live(o) && Outcomes(o, outcomes) && Fresh(st, o) && Traffic(log, o, outcomes)
    requires id in Replay(st, log).rows && Replay(st, log).rows[id].runId == o.runId
    ensures k < |outcomes| && id == SampleId(KeyAt(o, k)) && TableAdmits(KeyAt(o, k).mode)
  {
    hide SampleId, KeyAt, Contains, Genuine, Elsewhere, StoreInvariants.Valid, Settled;
    if id in st.rows {
      StoreInvariants.ReplayKeeps(st, log);
      assert false;
    } else {
      RowsRefineLog(st, log, id);
      var op := History(log, id)[0];
      assert op in History(log, id);
      WarmupsLeaveNothing(op, o);
      assert !Foreign(op, o);
      k :| 0 <= k < |outcomes| && Stems(op, o, k, outcomes[k]);
      StemsSays(op, o, k, outcomes[k]);
    }
  }

  // ---- Counting ----

  /** Where in the run a mode's i-th measured probe stands. */
  function PlaceInRun(slot: nat, i: nat): nat
    requires slot < 3 && i >= 1
  {
    3 * (i - 1) + PositionOf(slot, i)
  }

  lemma KeyInRun(o: Options, slot: nat, i: nat)
    requires ValidOptions(o) && slot < 3 && 1 <= i <= o.iterations
    ensures PlaceInRun(slot, i) < 3 * o.iterations
    ensures KeyAt(o, PlaceInRun(slot, i)) == ProbeKey(o.runId, MODES[slot], i)
  {
    hide PositionOf, Slot, SlotAt;
    EachModeOnce(i, 0, slot);
    EachModeOnce(i, PositionOf(slot, i), slot);
    PlaceOf(i, PositionOf(slot, i));
  }

  lemma PlaceOfKey(o: Options, k: nat, slot: nat)
    requires ValidOptions(o) && k < 3 * o.iterations && slot < 3 && KeyAt(o, k).mode == MODES[slot]
    ensures 1 <= KeyAt(o, k).sequence <= o.iterations
    ensures KeyAt(o, k) == ProbeKey(o.runId, MODES[slot], KeyAt(o, k).sequence)
    ensures k == PlaceInRun(slot, KeyAt(o, k).sequence)
  {
    var i := k / 3 + 1;
    KeyInRun(o, slot, i);
    KeyAtInjective(o, k, PlaceInRun(slot, i));
  }

  function Id(o: Options, slot: nat, i: nat): string
    requires slot < 3
  {
    SampleId(ProbeKey(o.runId, MODES[slot], i))
  }

  /** A mode's i-th measured probe returned 0. */
  predicate Done(outcomes: seq<Outcome>, slot: nat, i: nat)
    requires slot < 3
  {
    i >= 1 && PlaceInRun(slot, i) < |outcomes| && outcomes[PlaceInRun(slot, i)].attempt.exit.Done?
  }

  /** Some half of the probe was taken. */
  predicate Arrived(log: seq<Op>, o: Options, slot: nat, i: nat)
    requires slot < 3
  {
    History(log, Id(o, slot, i)) != []
  }

  /** And the client's is not among them, or says that the probe returned 0. */
  predicate SeemsDone(log: seq<Op>, o: Options, outcomes: seq<Outcome>, slot: nat, i: nat)
    requires slot < 3
  {
    Arrived(log, o, slot, i) && (Clients(History(log, Id(o, slot, i))) == {} || Done(outcomes, slot, i))
  }

  /** How many of a mode's first n probes meet a test. */
  function Count(test: nat -> bool, n: nat): (c: nat)
    ensures c <= n
  {
    if n == 0 then 0 else Count(test, n - 1) + if test(n) then 1 else 0
  }

  lemma {:induction false} CountAll(test: nat -> bool, n: nat)
    requires forall i :: 1 <= i <= n ==> test(i)
    ensures Count(test, n) == n
  {
    if n > 0 { CountAll(test, n - 1); }
  }

  lemma {:induction false} CountSame(p: nat -> bool, q: nat -> bool, n: nat)
    requires forall i :: 1 <= i <= n ==> p(i) == q(i)
    ensures Count(p, n) == Count(q, n)
  {
    if n > 0 { CountSame(p, q, n - 1); }
  }

  function DoneTest(outcomes: seq<Outcome>, slot: nat): nat -> bool
    requires slot < 3
  {
    (i: nat) => Done(outcomes, slot, i)
  }

  function ArrivedTest(log: seq<Op>, o: Options, slot: nat): nat -> bool
    requires slot < 3
  {
    (i: nat) => Arrived(log, o, slot, i)
  }

  function SeemsDoneTest(log: seq<Op>, o: Options, outcomes: seq<Outcome>, slot: nat): nat -> bool
    requires slot < 3
  {
    (i: nat) => SeemsDone(log, o, outcomes, slot, i)
  }

  /** How many of a mode's first n measured probes returned 0. */
  function Successes(outcomes: seq<Outcome>, slot: nat, n: nat): (s: nat)
    requires slot < 3
    ensures s <= n
  {
    Count(DoneTest(outcomes, slot), n)
  }

  /** The ids of those of a mode's first n probes that meet a test. */
  function IdsOf(o: Options, slot: nat, n: nat, test: nat -> bool): set<string>
    requires slot < 3
  {
    if n == 0 then {} else IdsOf(o, slot, n - 1, test) + if test(n) then {Id(o, slot, n)} else {}
  }

  lemma {:induction false} IdsOfAre(o: Options, slot: nat, n: nat, test: nat -> bool, id: string)
    requires slot < 3
    ensures id in IdsOf(o, slot, n, test) <==>
            exists i: nat {:trigger Id(o, slot, i)} :: 1 <= i <= n && id == Id(o, slot, i) && test(i)
  {
    hide Id;
    if n > 0 {
      IdsOfAre(o, slot, n - 1, test, id);
      if id in IdsOf(o, slot, n - 1, test) {
        var i: nat :| 1 <= i <= n - 1 && id == Id(o, slot, i) && test(i);
      }
      assert id == Id(o, slot, n) || id != Id(o, slot, n);
    }
  }

  lemma {:induction false} IdsOfSize(o: Options, slot: nat, n: nat, test: nat -> bool)
    requires ValidOptions(o) && |o.runId| <= 120 && slot < 3 && n <= o.iterations
    ensures |IdsOf(o, slot, n, test)| == Count(test, n)
  {
    hide Id;
    if n > 0 {
      IdsOfSize(o, slot, n - 1, test);
      NextIdIsNew(o, slot, n, test);
    }
  }

  lemma {:induction false} NextIdIsNew(o: Options, slot: nat, n: nat, test: nat -> bool)
    requires ValidOptions(o) && |o.runId| <= 120 && slot < 3 && 1 <= n <= o.iterations
    ensures Id(o, slot, n) !in IdsOf(o, slot, n - 1, test)
  {
    hide SampleId, IdsOf;
    IdsOfAre(o, slot, n - 1, test, Id(o, slot, n));
    forall i: nat | 1 <= i <= n - 1 ensures Id(o, slot, i) != Id(o, slot, n) {
      SampleIdsUnique(ProbeKey(o.runId, MODES[slot], i), ProbeKey(o.runId, MODES[slot], n));
    }
  }

  /** The run's rows of one mode, as the table holds them. */
  function RowsOfMode(st: State, runId: string, mode: Mode, onlySuccesses: bool): set<string> {
    set id | id in st.rows && st.rows[id].runId == runId && st.rows[id].mode == mode &&
             (onlySuccesses ==> st.rows[id].success)
  }

  /** The test for a row, or for one that shows a success. */
  function ShownTest(log: seq<Op>, o: Options, outcomes: seq<Outcome>, slot: nat, onlySuccesses: bool): nat -> bool
    requires slot < 3
  {
    if onlySuccesses then SeemsDoneTest(log, o, outcomes, slot) else ArrivedTest(log, o, slot)
  }

  /** What `ProbeHasRow` says of a mode's i-th probe. */
  lemma {:induction false} RowOfMode(st: State, log: seq<Op>, o: Options, outcomes: seq<Outcome>,
                                     slot: nat, i: nat, onlySuccesses: bool)
    requires Live(o) && Outcomes(o, outcomes) && Fresh(st, o) && Traffic(log, o, outcomes)
    requires slot < 3 && 1 <= i <= o.iterations
    ensures Id(o, slot, i) in RowsOfMode(Replay(st, log), o.runId, MODES[slot], onlySuccesses) <==>
            ShownTest(log, o, outcomes, slot, onlySuccesses)(i)
  {
    hide SampleId, KeyAt, PlaceInRun, Contains, Genuine, Fresh, Traffic, History, Clients;
    KeyInRun(o, slot, i);
    ProbeHasRow(st, log, o, outcomes, PlaceInRun(slot, i));
  }

  lemma {:induction false} ModeRowsAre(st: State, log: seq<Op>, o: Options, outcomes: seq<Outcome>,
                                       slot: nat, onlySuccesses: bool)
    requires Live(o) && Outcomes(o, outcomes) && Fresh(st, o) && Traffic(log, o, outcomes) && slot < 3
    ensures RowsOfMode(Replay(st, log), o.runId, MODES[slot], onlySuccesses) ==
            IdsOf(o, slot, o.iterations, ShownTest(log, o, outcomes, slot, onlySuccesses))
  {
    hide SampleId, KeyAt, PlaceInRun, Contains, Genuine, Fresh, Traffic, IdsOf, ShownTest;
    var final, test := Replay(st, log), ShownTest(log, o, outcomes, slot, onlySuccesses);
    forall id
      ensures id in RowsOfMode(final, o.runId, MODES[slot], onlySuccesses) <==>
              id in IdsOf(o, slot, o.iterations, test)
    {
      IdsOfAre(o, slot, o.iterations, test, id);
      if id in RowsOfMode(final, o.runId, MODES[slot], onlySuccesses) {
        var k := RowHasProbe(st, log, o, outcomes, id);
        ProbeHasRow(st, log, o, outcomes, k);
        ModesDiffer(o, k, slot);
        var i := KeyAt(o, k).sequence;
        RowOfMode(st, log, o, outcomes, slot, i, onlySuccesses);
        assert id == Id(o, slot, i);
      }
      if id in IdsOf(o, slot, o.iterations, test) {
        var i: nat :| 1 <= i <= o.iterations && id == Id(o, slot, i) && test(i);
        RowOfMode(st, log, o, outcomes, slot, i, onlySuccesses);
      }
    }
  }

  /** A probe of the slot's mode is that slot's probe of its sequence number. */
  lemma ModesDiffer(o: Options, k: nat, slot: nat)
    requires ValidOptions(o) && k < 3 * o.iterations && slot < 3
    ensures KeyAt(o, k).mode == MODES[slot] ==>
            1 <= KeyAt(o, k).sequence <= o.iterations &&
            KeyAt(o, k) == ProbeKey(o.runId, MODES[slot], KeyAt(o, k).sequence)
  {
    hide PlaceInRun;
    if KeyAt(o, k).mode == MODES[slot] { PlaceOfKey(o, k, slot); }
  }

  lemma {:induction false} NoRowsOfUnknownMode(st: State, log: seq<Op>, o: Options, outcomes: seq<Outcome>, mode: Mode)
    requires Live(o) && Outcomes(o, outcomes) && Fresh(st, o) && Traffic(log, o, outcomes)
    requires !TableAdmits(mode)
    ensures RowsOfMode(Replay(st, log), o.runId, mode, false) == {}
  {
    StoreInvariants.ReplayKeeps(st, log);
    var final := Replay(st, log);
    forall id | id in final.rows ensures TableAdmits(final.rows[id].mode) {
      assert StoreInvariants.ValidRow(final, final.rows[id]);
    }
  }

  // ---- What the dashboard shows ----

  lemma {:induction false} FilterTwice(records: seq<Record>, p: Record -> bool, q: Record -> bool)
    ensures Filter(Filter(records, p), q) == Filter(records, (r: Record) => p(r) && q(r))
  {
    if records != [] {
      FilterTwice(records[1..], p, q);
      if p(records[0]) {
        assert ([records[0]] + Filter(records[1..], p))[1..] == Filter(records[1..], p);
      }
    }
  }

  lemma {:induction false} SummaryCountsAll(st: State, runId: string, answer: seq<Record>, mode: Mode)
    requires runId != "" && AnswersMeasurements(st, Some(runId), None, answer)
    ensures |ModeRows(answer, mode)| == |RowsOfMode(st, runId, mode, false)|
  {
    hide AnswersMeasurements, Filter;
    var p := (row: Row) => row.mode == mode;
    AnswerCounts(st, Some(runId), answer, p);
    SameFilter(answer, OnRow(p), (r: Record) => r.row.mode == mode);
    assert RowsOfMode(st, runId, mode, false) ==
           (set id | id in Selected(st, Some(runId)) && id in st.rows && p(st.rows[id]));
  }

  lemma {:induction false} SummaryCountsGood(st: State, runId: string, answer: seq<Record>, mode: Mode)
    requires runId != "" && AnswersMeasurements(st, Some(runId), None, answer)
    ensures |Successful(ModeRows(answer, mode))| == |RowsOfMode(st, runId, mode, true)|
  {
    hide AnswersMeasurements, Filter;
    var p := (row: Row) => row.mode == mode && row.success;
    var ofMode, good := (r: Record) => r.row.mode == mode, (r: Record) => r.row.success;
    AnswerCounts(st, Some(runId), answer, p);
    FilterTwice(answer, ofMode, good);
    SameFilter(answer, OnRow(p), (r: Record) => ofMode(r) && good(r));
    assert RowsOfMode(st, runId, mode, true) ==
           (set id | id in Selected(st, Some(runId)) && id in st.rows && p(st.rows[id]));
  }

  /** The summary of a complete answer counts the table's rows of each mode. */
  lemma {:induction false} SummaryCounts(st: State, runId: string, answer: seq<Record>, mode: Mode)
    requires runId != "" && AnswersMeasurements(st, Some(runId), None, answer)
    ensures |ModeRows(answer, mode)| == |RowsOfMode(st, runId, mode, false)|
    ensures |Successful(ModeRows(answer, mode))| == |RowsOfMode(st, runId, mode, true)|
  {
    hide AnswersMeasurements, ModeRows, Successful, RowsOfMode;
    SummaryCountsAll(st, runId, answer, mode);
    SummaryCountsGood(st, runId, answer, mode);
  }

  /** The counts the dashboard shows for one mode. */
  function Shown(answer: seq<Record>, mode: Mode): Counts {
    AllModes(mode);
    var s := SummaryOf(answer).modes[mode];
    Counts(s.samples, s.successes, s.failures)
  }

  /**
   What the dashboard shows at any moment, whatever has arrived so far and whatever was lost. Start
   from any valid database that does not know the run. However the halves of its probes arrive, in
   any order, repeated and amid the traffic of other runs, the samples of a mode are the probes of
   which some half was taken, and the successes among them those that returned 0 or whose client's
   report was not taken.
   */
  lemma {:induction false} ShownExactly(st: State, log: seq<Op>, o: Options, outcomes: seq<Outcome>,
                                        answer: seq<Record>, slot: nat)
    requires Live(o) && Outcomes(o, outcomes) && Fresh(st, o) && Traffic(log, o, outcomes)
    requires AnswersMeasurements(Replay(st, log), Some(o.runId), None, answer) && slot < 3
    ensures var samples := Count(ArrivedTest(log, o, slot), o.iterations);
            var successes := Count(SeemsDoneTest(log, o, outcomes, slot), o.iterations);
            Shown(answer, MODES[slot]) == Counts(samples, successes, samples - successes)
  {
    hide ModeRows, Successful, Traffic, Fresh, Genuine, Contains, AnswersMeasurements, IdsOf, DescriptionOf,
         RowsOfMode, ArrivedTest, SeemsDoneTest, Count;
    SummaryCounts(Replay(st, log), o.runId, answer, MODES[slot]);
    ModeRowsAre(st, log, o, outcomes, slot, false);
    ModeRowsAre(st, log, o, outcomes, slot, true);
    IdsOfSize(o, slot, o.iterations, ArrivedTest(log, o, slot));
    IdsOfSize(o, slot, o.iterations, SeemsDoneTest(log, o, outcomes, slot));
  }

  lemma {:induction false} CountDifference(p: nat -> bool, q: nat -> bool, r: nat -> bool, n: nat)
    requires forall i :: 1 <= i <= n ==> (q(i) ==> p(i)) && (p(i) && !q(i) ==> !r(i))
    ensures 0 <= Count(p, n) - Count(q, n) <= n - Count(r, n)
  {
    if n > 0 { CountDifference(p, q, r, n - 1); }
  }

  /** So the dashboard may lack failures of a run but never invents one. */
  lemma {:induction false} FailuresAreReal(st: State, log: seq<Op>, o: Options, outcomes: seq<Outcome>,
                                           answer: seq<Record>, slot: nat)
    requires Live(o) && Outcomes(o, outcomes) && Fresh(st, o) && Traffic(log, o, outcomes)
    requires AnswersMeasurements(Replay(st, log), Some(o.runId), None, answer) && slot < 3
    ensures 0 <= Shown(answer, MODES[slot]).failures <= o.iterations - Successes(outcomes, slot, o.iterations)
  {
    hide Traffic, Fresh, Genuine, Contains, AnswersMeasurements, Shown, Count, Arrived, Done;
    ShownExactly(st, log, o, outcomes, answer, slot);
    CountDifference(ArrivedTest(log, o, slot), SeemsDoneTest(log, o, outcomes, slot), DoneTest(outcomes, slot),
                    o.iterations);
  }

  /** A reported probe has arrived, and its client's half is among what arrived. */
  lemma {:induction false} ReportedArrived(log: seq<Op>, o: Options, outcomes: seq<Outcome>, slot: nat, i: nat)
    requires Live(o) && Outcomes(o, outcomes) && AllReported(log, o, outcomes)
    requires slot < 3 && TableAdmits(MODES[slot]) && 1 <= i <= o.iterations
    ensures Arrived(log, o, slot, i) && (SeemsDone(log, o, outcomes, slot, i) <==> Done(outcomes, slot, i))
  {
    hide SampleId, KeyAt, PlaceInRun, Contains, Genuine, History;
    KeyInRun(o, slot, i);
    var k := PlaceInRun(slot, i);
    var op :| op in log && op.ClientPost? && op.client == HalfAt(o, k, outcomes[k]) && Admitted(op);
    assert op in History(log, Id(o, slot, i));
    assert op.client in Clients(History(log, Id(o, slot, i)));
  }

  /** One sample per iteration, the probes of a slot that returned 0 as successes and the rest as failures. */
  function AllOf(o: Options, outcomes: seq<Outcome>, slot: nat): Counts
    requires slot < 3
  {
    Counts(o.iterations, Successes(outcomes, slot, o.iterations),
           o.iterations - Successes(outcomes, slot, o.iterations))
  }

  lemma {:induction false} ShownOfSlot(st: State, log: seq<Op>, o: Options, outcomes: seq<Outcome>,
                                       answer: seq<Record>, slot: nat)
    requires Live(o) && Outcomes(o, outcomes) && Fresh(st, o)
    requires Traffic(log, o, outcomes) && AllReported(log, o, outcomes)
    requires AnswersMeasurements(Replay(st, log), Some(o.runId), None, answer) && slot < 3
    ensures Shown(answer, MODES[slot]) ==
            if TableAdmits(MODES[slot])
            then AllOf(o, outcomes, slot)
            else Counts(0, 0, 0)
  {
    hide Traffic, AllReported, Fresh, Genuine, Contains, AnswersMeasurements, Shown, Live, Count, Arrived, SeemsDone,
         Done;
    ShownExactly(st, log, o, outcomes, answer, slot);
    if TableAdmits(MODES[slot]) {
      forall i | 1 <= i <= o.iterations
        ensures Arrived(log, o, slot, i) && (SeemsDone(log, o, outcomes, slot, i) <==> Done(outcomes, slot, i))
      {
        ReportedArrived(log, o, outcomes, slot, i);
      }
      CountAll(ArrivedTest(log, o, slot), o.iterations);
      CountSame(SeemsDoneTest(log, o, outcomes, slot), DoneTest(outcomes, slot), o.iterations);
    } else {
      NothingShownOfUnknownMode(st, log, o, outcomes, answer, slot);
    }
  }

  lemma {:induction false} NothingShownOfUnknownMode(st: State, log: seq<Op>, o: Options, outcomes: seq<Outcome>,
                                                     answer: seq<Record>, slot: nat)
    requires Live(o) && Outcomes(o, outcomes) && Fresh(st, o) && Traffic(log, o, outcomes)
    requires AnswersMeasurements(Replay(st, log), Some(o.runId), None, answer) && slot < 3
    requires !TableAdmits(MODES[slot])
    ensures Shown(answer, MODES[slot]) == Counts(0, 0, 0)
  {
    hide ModeRows, Successful, Traffic, Fresh, Genuine, Contains, AnswersMeasurements, DescriptionOf;
    var final, mode := Replay(st, log), MODES[slot];
    SummaryCounts(final, o.runId, answer, mode);
    NoRowsOfUnknownMode(st, log, o, outcomes, mode);
    assert RowsOfMode(final, o.runId, mode, true) <= RowsOfMode(final, o.runId, mode, false);
  }

  /**
   Conservation. As soon as the client's reports have been taken, the dashboard shows for the
   classical and the hybrid mode exactly one sample per iteration, the probes that returned 0 as
   successes and the rest as failures, and for hybrid_p256 nothing at all.
   */
  lemma {:induction false} Conservation(st: State, log: seq<Op>, o: Options, outcomes: seq<Outcome>,
                                        answer: seq<Record>)
    requires Live(o) && Outcomes(o, outcomes) && Fresh(st, o)
    requires Traffic(log, o, outcomes) && AllReported(log, o, outcomes)
    requires AnswersMeasurements(Replay(st, log), Some(o.runId), None, answer)
    ensures Shown(answer, Classical) == AllOf(o, outcomes, 0)
    ensures Shown(answer, Hybrid) == AllOf(o, outcomes, 1)
    ensures Shown(answer, HybridP256) == Counts(0, 0, 0)
  {
    hide Traffic, AllReported, Fresh, Genuine, Contains, AnswersMeasurements, Shown, AllOf;
    ShownOfSlot(st, log, o, outcomes, answer, 0);
    ShownOfSlot(st, log, o, outcomes, answer, 1);
    ShownOfSlot(st, log, o, outcomes, answer, 2);
  }

  function Fails(outcome: Outcome): nat {
    if outcome.attempt.exit.Done? then 0 else 1
  }

  lemma {:induction false} FailuresOfThree(outcomes: seq<Outcome>, b: nat)
    requires b + 3 <= |outcomes|
    ensures Failures(outcomes[..b + 3]) ==
            Failures(outcomes[..b]) + Fails(outcomes[b]) + Fails(outcomes[b + 1]) + Fails(outcomes[b + 2])
  {
    hide Failures;
    assert outcomes[..b + 1] == outcomes[..b] + [outcomes[b]];
    assert outcomes[..b + 2] == outcomes[..b + 1] + [outcomes[b + 1]];
    assert outcomes[..b + 3] == outcomes[..b + 2] + [outcomes[b + 2]];
    FailuresAppend(outcomes[..b], outcomes[b]);
    FailuresAppend(outcomes[..b + 1], outcomes[b + 1]);
    FailuresAppend(outcomes[..b + 2], outcomes[b + 2]);
  }

  lemma {:induction false} SuccessesStep(outcomes: seq<Outcome>, slot: nat, n: nat)
    requires slot < 3 && n >= 1 && 3 * n <= |outcomes|
    ensures PlaceInRun(slot, n) < |outcomes|
    ensures Successes(outcomes, slot, n) ==
            Successes(outcomes, slot, n - 1) + 1 - Fails(outcomes[PlaceInRun(slot, n)])
  {
    EachModeOnce(n, 0, slot);
  }

  lemma {:induction false} FailuresStep(outcomes: seq<Outcome>, n: nat)
    requires n >= 1 && 3 * n <= |outcomes|
    ensures Failures(outcomes[..3 * n]) - Failures(outcomes[..3 * (n - 1)]) ==
            3 - (Successes(outcomes, 0, n) - Successes(outcomes, 0, n - 1))
              - (Successes(outcomes, 1, n) - Successes(outcomes, 1, n - 1))
              - (Successes(outcomes, 2, n) - Successes(outcomes, 2, n - 1))
  {
    hide Successes, Failures, PlaceInRun, Fails;
    FailuresOfThree(outcomes, 3 * (n - 1));
    SuccessesStep(outcomes, 0, n);
    SuccessesStep(outcomes, 1, n);
    SuccessesStep(outcomes, 2, n);
    ThreePlaces(n);
  }

  lemma NothingCounted(outcomes: seq<Outcome>)
    ensures Failures(outcomes[..0]) == 0
    ensures Successes(outcomes, 0, 0) == Successes(outcomes, 1, 0) == Successes(outcomes, 2, 0) == 0
  {
  }

  lemma {:induction false} FailuresByMode(outcomes: seq<Outcome>, n: nat)
    requires 3 * n <= |outcomes|
    ensures Failures(outcomes[..3 * n]) ==
            3 * n - Successes(outcomes, 0, n) - Successes(outcomes, 1, n) - Successes(outcomes, 2, n)
  {
    hide Successes, Failures;
    if n == 0 {
      NothingCounted(outcomes);
    } else {
      FailuresByMode(outcomes, n - 1);
      FailuresStep(outcomes, n);
    }
  }

  lemma ThreePlaces(n: nat)
    requires n >= 1
    ensures var b := 3 * (n - 1);
            (PlaceInRun(0, n) == b && PlaceInRun(1, n) == b + 1 && PlaceInRun(2, n) == b + 2) ||
            (PlaceInRun(0, n) == b + 2 && PlaceInRun(1, n) == b && PlaceInRun(2, n) == b + 1) ||
            (PlaceInRun(0, n) == b + 1 && PlaceInRun(1, n) == b + 2 && PlaceInRun(2, n) == b)
  {
    var r := (n - 1) % 3;
    assert r == 0 || r == 1 || r == 2;
  }

  /**
   The client's own verdict and the dashboard's differ by exactly the failed probes of the mode the
   table does not admit.
   */
  lemma {:induction false} FailuresAccountedFor(st: State, log: seq<Op>, o: Options, outcomes: seq<Outcome>,
                                                answer: seq<Record>)
    requires Live(o) && Outcomes(o, outcomes) && Fresh(st, o)
    requires Traffic(log, o, outcomes) && AllReported(log, o, outcomes)
    requires AnswersMeasurements(Replay(st, log), Some(o.runId), None, answer)
    ensures Failures(outcomes) ==
            Shown(answer, Classical).failures + Shown(answer, Hybrid).failures +
            (o.iterations - Successes(outcomes, 2, o.iterations))
  {
    hide Traffic, AllReported, Fresh, Genuine, Contains, AnswersMeasurements, Shown, Successes;
    Conservation(st, log, o, outcomes, answer);
    FailuresByMode(outcomes, o.iterations);
    assert outcomes[..3 * o.iterations] == outcomes;
  }

  /** And a probe whose two halves have both arrived has the merged row, whatever the order. */
  lemma {:induction false} LiveRowMerged(st: State, log: seq<Op>, o: Options, outcomes: seq<Outcome>,
                                         k: nat, p: ServerPayload)
    requires Live(o) && Outcomes(o, outcomes) && Fresh(st, o) && Traffic(log, o, outcomes)
    requires k < |outcomes| && Servers(History(log, SampleId(KeyAt(o, k)))) == {p}
    requires Clients(History(log, SampleId(KeyAt(o, k)))) != {}
    ensures SampleId(KeyAt(o, k)) in Replay(st, log).rows
    ensures Untimed(Replay(st, log).rows[SampleId(KeyAt(o, k))]) == Merged(p, HalfAt(o, k, outcomes[k]))
  {
    hide SampleId, KeyAt, Contains, Genuine, Fresh, Traffic, Merged, Untimed, Agree;
    var id, half := SampleId(KeyAt(o, k)), HalfAt(o, k, outcomes[k]);
    var h := History(log, id);
    forall op | op in h ensures Stems(op, o, k, outcomes[k]) {
      HistoryStems(log, o, outcomes, k, op);
    }
    assert p in Servers(h);
    var op :| op in h && op.ServerPost? && op.server == p;
    assert p.sampleId == id;
    LiveHalvesAgree(o, k, outcomes[k], p);
    var c :| c in Clients(h);
    assert Clients(h) == {half};
    NotYetThere(st, o, k);
    Converges(st, log, p, half);
  }
}
