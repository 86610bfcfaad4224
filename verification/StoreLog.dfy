/**
 The tables refine a log: every row and every run is a closed function of the admitted writes
 that name it, so delivery order matters exactly where two writes disagree.
 */
module StoreLog {
  import opened Wrappers
  import opened Store

  // ---- Histories ----

  predicate Names(op: Op, sampleId: string) {
    Admitted(op) &&
    ((op.ServerPost? && op.server.sampleId == sampleId) || (op.ClientPost? && op.client.sampleId == sampleId))
  }

  predicate NamesRun(op: Op, id: string) {
    Admitted(op) &&
    match op
    case WriteRun(p, _) => p.runId == id
    case FinishRun(r, _, _) => r == id
    case ServerPost(p, _, _) => p.runId == id
    case ClientPost(p, _, _) => p.runId == id
  }

  predicate IsMeasurement(h: seq<Op>) {
    forall i :: 0 <= i < |h| ==> h[i].ServerPost? || h[i].ClientPost?
  }

  /** The writes of a log that satisfy a test, in order. */
  function Select(log: seq<Op>, p: Op -> bool): (h: seq<Op>)
    ensures forall op :: op in h <==> op in log && p(op)
  {
    if log == [] then []
    else
      var last := log[|log| - 1];
      assert log == log[..|log| - 1] + [last];
      Select(log[..|log| - 1], p) + if p(last) then [last] else []
  }

  function History(log: seq<Op>, sampleId: string): (h: seq<Op>)
    ensures forall op :: op in h <==> op in log && Names(op, sampleId)
    ensures IsMeasurement(h)
  {
    var h := Select(log, op => Names(op, sampleId));
    assert forall i :: 0 <= i < |h| ==> h[i] in h;
    h
  }

  function RunHistory(log: seq<Op>, id: string): (h: seq<Op>)
    ensures forall op :: op in h <==> op in log && NamesRun(op, id)
  {
    Select(log, op => NamesRun(op, id))
  }

  /** The position of the last element that satisfies a test. */
  function LastSuch(h: seq<Op>, p: Op -> bool): (k: Option<nat>)
    ensures k.Some? ==> k.value < |h| && p(h[k.value])
    ensures k.Some? ==> forall j :: k.value < j < |h| ==> !p(h[j])
    ensures k.None? ==> forall j :: 0 <= j < |h| ==> !p(h[j])
  {
    if h == [] then None
    else if p(h[|h| - 1]) then Some(|h| - 1)
    else LastSuch(h[..|h| - 1], p)
  }

  // ---- The row and the run a history denotes ----

  /** One negotiated column as one write reports it. */
  function Reported(op: Op, column: Negotiated -> Option<string>): Option<string>
    requires op.ServerPost? || op.ClientPost?
  {
    column(if op.ServerPost? then op.server.negotiated else op.client.negotiated)
  }

  /** A write settles a column when it is the server's or when it carries a value. */
  predicate Settles(op: Op, column: Negotiated -> Option<string>) {
    op.ServerPost? || (op.ClientPost? && column(op.client.negotiated).Some?)
  }

  /** The last non-NULL client value since the last server write, or else that server's value. */
  function Settled(h: seq<Op>, column: Negotiated -> Option<string>): Option<string>
    requires IsMeasurement(h)
  {
    match LastSuch(h, op => Settles(op, column))
    case None => None
    case Some(k) => Reported(h[k], column)
  }

  function RowOf(h: seq<Op>): Row
    requires h != [] && IsMeasurement(h)
  {
    var first := h[0];
    var server := LastSuch(h, (op: Op) => op.ServerPost?);
    var client := LastSuch(h, (op: Op) => op.ClientPost?);
    Row(if first.ServerPost? then first.server.runId else first.client.runId,
        if first.ServerPost? then first.server.mode else first.client.mode,
        if first.ServerPost? then first.server.expectedGroup else first.client.expectedGroup,
        Negotiated(Settled(h, (n: Negotiated) => n.group),
                   Settled(h, (n: Negotiated) => n.tlsVersion),
                   Settled(h, (n: Negotiated) => n.cipher)),
        if server.Some? then Some(h[server.value].server.handshakeUs) else None,
        if client.Some? then h[client.value].client.timing else NO_TIMING,
        if client.Some? then h[client.value].client.success else true,
        if client.Some? then h[client.value].client.error else None,
        Stamps(if server.Some? then Some(h[server.value].now) else None,
               if client.Some? then Some(h[client.value].now) else None,
               first.now))
  }

  function RunOf(h: seq<Op>): Run
    requires h != []
  {
    var written := LastSuch(h, (op: Op) => op.WriteRun?);
    var finished := LastSuch(h, (op: Op) => op.FinishRun?);
    Run(if h[0].WriteRun? then h[0].now else h[0].runNow,
        if finished.Some? then Some(h[finished.value].now) else None,
        if written.Some? then ClientName(h[written.value].run) else DEFAULT_CLIENT,
        if written.Some? then h[written.value].run.opensslVersion else None,
        if written.Some? then h[written.value].run.iterations else None,
        if written.Some? then h[written.value].run.warmup else None,
        if written.Some? then h[written.value].run.notes else None)
  }

  // ---- Refinement ----

  lemma {:induction false} LastSuchAppend(h: seq<Op>, op: Op, p: Op -> bool)
    ensures LastSuch(h + [op], p) == if p(op) then Some(|h|) else LastSuch(h, p)
  {
    assert (h + [op])[..|h|] == h;
  }

  lemma {:induction false} SettledAppend(h: seq<Op>, op: Op, column: Negotiated -> Option<string>)
    requires IsMeasurement(h + [op])
    ensures IsMeasurement(h)
    ensures Settled(h + [op], column) == if Settles(op, column) then Reported(op, column) else Settled(h, column)
  {
    assert forall i :: 0 <= i < |h| ==> h[i] == (h + [op])[i];
    LastSuchAppend(h, op, o => Settles(o, column));
  }

  /** One more write for a sample turns the row of its history into the row of the longer history. */
  lemma {:induction false} RowOfAppend(h: seq<Op>, op: Op)
    requires h != [] && IsMeasurement(h) && (op.ServerPost? || op.ClientPost?)
    ensures IsMeasurement(h + [op])
    ensures RowOf(h + [op]) ==
            if op.ServerPost?
            then AfterServer(map[op.server.sampleId := RowOf(h)], op.server, op.now)
            else AfterClient(map[op.client.sampleId := RowOf(h)], op.client, op.now)
  {
    hide Settled, LastSuch;
    SettledAppend(h, op, (n: Negotiated) => n.group);
    SettledAppend(h, op, (n: Negotiated) => n.tlsVersion);
    SettledAppend(h, op, (n: Negotiated) => n.cipher);
    LastSuchAppend(h, op, (o: Op) => o.ServerPost?);
    LastSuchAppend(h, op, (o: Op) => o.ClientPost?);
  }

  lemma SettledOne(op: Op, column: Negotiated -> Option<string>)
    requires op.ServerPost? || op.ClientPost?
    ensures Settled([op], column) == Reported(op, column)
  {
    assert LastSuch([op], o => Settles(o, column)) == if Settles(op, column) then Some(0) else None;
  }

  lemma RowOfOne(op: Op)
    requires op.ServerPost? || op.ClientPost?
    ensures RowOf([op]) ==
            if op.ServerPost? then AfterServer(map[], op.server, op.now) else AfterClient(map[], op.client, op.now)
  {
    SettledOne(op, (n: Negotiated) => n.group);
    SettledOne(op, (n: Negotiated) => n.tlsVersion);
    SettledOne(op, (n: Negotiated) => n.cipher);
  }

  /** One more write for a sample turns what its history denotes into what the longer history denotes. */
  lemma {:induction false} RowStep(st: State, h: seq<Op>, op: Op, sampleId: string)
    requires IsMeasurement(h) && Names(op, sampleId)
    requires sampleId in st.rows <==> h != []
    requires h != [] ==> st.rows[sampleId] == RowOf(h)
    ensures IsMeasurement(h + [op]) && sampleId in Step(st, op).rows
    ensures Step(st, op).rows[sampleId] == RowOf(h + [op])
  {
    hide RowOf;
    if h == [] {
      assert h + [op] == [op];
      RowOfOne(op);
    } else {
      RowOfAppend(h, op);
    }
  }

  /** After any requests, a row is exactly what its history says, and is there iff the history is not empty. */
  lemma {:induction false} RowsRefineLog(st: State, log: seq<Op>, sampleId: string)
    requires sampleId !in st.rows
    ensures sampleId in Replay(st, log).rows <==> History(log, sampleId) != []
    ensures History(log, sampleId) != [] ==> Replay(st, log).rows[sampleId] == RowOf(History(log, sampleId))
  {
    hide RowOf;
    if log != [] {
      var before, op := log[..|log| - 1], log[|log| - 1];
      RowsRefineLog(st, before, sampleId);
      var h := History(before, sampleId);
      if Names(op, sampleId) {
        assert History(log, sampleId) == h + [op];
        RowStep(Replay(st, before), h, op, sampleId);
      } else {
        assert History(log, sampleId) == h;
      }
    }
  }

  lemma {:induction false} RunOfAppend(h: seq<Op>, op: Op, st: State, id: string)
    requires h != [] && NamesRun(op, id) && id in st.runs && st.runs[id] == RunOf(h)
    ensures id in Step(st, op).runs && Step(st, op).runs[id] == RunOf(h + [op])
  {
    LastSuchAppend(h, op, (o: Op) => o.WriteRun?);
    LastSuchAppend(h, op, (o: Op) => o.FinishRun?);
  }

  lemma RunOfOne(op: Op, st: State, id: string)
    requires NamesRun(op, id) && id !in st.runs
    ensures id in Step(st, op).runs && Step(st, op).runs[id] == RunOf([op])
  {
  }

  lemma {:induction false} RunsRefineLog(st: State, log: seq<Op>, id: string)
    requires id !in st.runs
    ensures id in Replay(st, log).runs <==> RunHistory(log, id) != []
    ensures RunHistory(log, id) != [] ==> Replay(st, log).runs[id] == RunOf(RunHistory(log, id))
  {
    if log != [] {
      var before, op := log[..|log| - 1], log[|log| - 1];
      RunsRefineLog(st, before, id);
      var h := RunHistory(before, id);
      if !NamesRun(op, id) {
        assert RunHistory(log, id) == h;
      } else if h == [] {
        assert RunHistory(log, id) == [op];
        RunOfOne(op, Replay(st, before), id);
      } else {
        assert RunHistory(log, id) == h + [op];
        RunOfAppend(h, op, Replay(st, before), id);
      }
    }
  }

  // ---- Convergence ----

  /** Everything a row records except when it was recorded. */
  function Untimed(row: Row): Row {
    row.(stamps := Stamps(None, None, 0))
  }

  predicate NullOrEqual(c: Option<string>, s: Option<string>) {
    c.None? || c == s
  }

  /** The two halves of one sample agree wherever both speak. */
  predicate Agree(s: ServerPayload, c: ClientPayload) {
    s.sampleId == c.sampleId && s.runId == c.runId && s.mode == c.mode && s.expectedGroup == c.expectedGroup &&
    NullOrEqual(c.negotiated.group, s.negotiated.group) &&
    NullOrEqual(c.negotiated.tlsVersion, s.negotiated.tlsVersion) &&
    NullOrEqual(c.negotiated.cipher, s.negotiated.cipher)
  }

  /** The merged row of two halves. */
  function Merged(s: ServerPayload, c: ClientPayload): Row {
    Row(s.runId, s.mode, s.expectedGroup, s.negotiated, Some(s.handshakeUs), c.timing, c.success, c.error,
        Stamps(None, None, 0))
  }

  /** The server reports and the client reports among some writes, without order, number or time. */
  function Servers(log: seq<Op>): set<ServerPayload> {
    set op | op in log && op.ServerPost? :: op.server
  }

  function Clients(log: seq<Op>): set<ClientPayload> {
    set op | op in log && op.ClientPost? :: op.client
  }

  function Only<T>(half: Option<T>): set<T> {
    if half.Some? then {half.value} else {}
  }

  /** The halves that the writes of one sample carry, when those do not contradict each other. */
  ghost predicate Carries(h: seq<Op>, s: Option<ServerPayload>, c: Option<ClientPayload>) {
    IsMeasurement(h) && Servers(h) == Only(s) && Clients(h) == Only(c) &&
    (s.Some? && c.Some? ==> Agree(s.value, c.value))
  }

  lemma {:induction false} CarriedOp(h: seq<Op>, s: Option<ServerPayload>, c: Option<ClientPayload>, i: nat)
    requires Carries(h, s, c) && i < |h|
    ensures h[i].ServerPost? ==> s == Some(h[i].server)
    ensures h[i].ClientPost? ==> c == Some(h[i].client)
  {
    assert h[i] in h;
    assert h[i].ServerPost? ==> h[i].server in Servers(h);
    assert h[i].ClientPost? ==> h[i].client in Clients(h);
  }

  lemma {:induction false} SettledConsistent(h: seq<Op>, s: Option<ServerPayload>, c: Option<ClientPayload>,
                          column: Negotiated -> Option<string>)
    requires Carries(h, s, c) && (s.Some? || c.Some?)
    requires s.Some? && c.Some? ==> NullOrEqual(column(c.value.negotiated), column(s.value.negotiated))
    ensures Settled(h, column) == if s.Some? then column(s.value.negotiated) else column(c.value.negotiated)
  {
    forall i | 0 <= i < |h|
      ensures (h[i].ServerPost? ==> s == Some(h[i].server)) && (h[i].ClientPost? ==> c == Some(h[i].client))
    {
      CarriedOp(h, s, c, i);
    }
    if s.Some? {
      assert s.value in Servers(h);
      var op :| op in h && op.ServerPost?;
      assert Settles(op, column);
    } else {
      assert c.value in Clients(h);
      var op :| op in h && op.ClientPost?;
      assert Settles(op, column) <==> column(c.value.negotiated).Some?;
    }
  }

  /** The untimed row of a history whose halves do not contradict each other. */
  function RowOfHalves(s: Option<ServerPayload>, c: Option<ClientPayload>): Row
    requires s.Some? || c.Some?
  {
    if s.None? then
      Row(c.value.runId, c.value.mode, c.value.expectedGroup, c.value.negotiated, None,
          c.value.timing, c.value.success, c.value.error, Stamps(None, None, 0))
    else if c.None? then
      Row(s.value.runId, s.value.mode, s.value.expectedGroup, s.value.negotiated, Some(s.value.handshakeUs),
          NO_TIMING, true, None, Stamps(None, None, 0))
    else Merged(s.value, c.value)
  }

  lemma {:induction false} RowOfConsistent(h: seq<Op>, s: Option<ServerPayload>, c: Option<ClientPayload>)
    requires Carries(h, s, c) && h != []
    ensures s.Some? || c.Some?
    ensures Untimed(RowOf(h)) == RowOfHalves(s, c)
  {
    CarriedOp(h, s, c, 0);
    assert h[0].ServerPost? || h[0].ClientPost?;
    var server := LastSuch(h, (op: Op) => op.ServerPost?);
    var client := LastSuch(h, (op: Op) => op.ClientPost?);
    if server.Some? { CarriedOp(h, s, c, server.value); } else { assert Servers(h) == {}; }
    if client.Some? { CarriedOp(h, s, c, client.value); } else { assert Clients(h) == {}; }
    SettledConsistent(h, s, c, (n: Negotiated) => n.group);
    SettledConsistent(h, s, c, (n: Negotiated) => n.tlsVersion);
    SettledConsistent(h, s, c, (n: Negotiated) => n.cipher);
  }

  /**
   Convergence: once both halves of a sample have arrived, in any order, any number of times and
   amid any other traffic, the row is their merge.
   */
  lemma {:induction false} Converges(st: State, log: seq<Op>, s: ServerPayload, c: ClientPayload)
    requires s.sampleId !in st.rows
    requires Agree(s, c)
    requires Servers(History(log, s.sampleId)) == {s} && Clients(History(log, s.sampleId)) == {c}
    ensures s.sampleId in Replay(st, log).rows
    ensures Untimed(Replay(st, log).rows[s.sampleId]) == Merged(s, c)
  {
    var h := History(log, s.sampleId);
    RowsRefineLog(st, log, s.sampleId);
    assert s in Servers(h);
    RowOfConsistent(h, Some(s), Some(c));
  }

  lemma ReplayTwo(st: State, a: Op, b: Op)
    ensures Replay(st, [a, b]) == Step(Step(st, a), b)
  {
    assert [a, b][..1] == [a] && [a][..0] == [];
    assert Replay(st, [a]) == Step(st, a);
  }

  /** The two orders of one delivery each leave the same row exactly when the halves agree. */
  lemma OrdersAgreeExactly(st: State, s: ServerPayload, c: ClientPayload, r: Time, t: Time, r': Time, t': Time)
    requires s.sampleId == c.sampleId && s.sampleId !in st.rows
    requires Admitted(ServerPost(s, r, t)) && Admitted(ClientPost(c, r', t'))
    ensures var server, client := ServerPost(s, r, t), ClientPost(c, r', t');
            s.sampleId in Replay(st, [server, client]).rows && s.sampleId in Replay(st, [client, server]).rows &&
            (Untimed(Replay(st, [server, client]).rows[s.sampleId]) ==
             Untimed(Replay(st, [client, server]).rows[s.sampleId])
             <==> Agree(s, c))
  {
    ReplayTwo(st, ServerPost(s, r, t), ClientPost(c, r', t'));
    ReplayTwo(st, ClientPost(c, r', t'), ServerPost(s, r, t));
  }

  /** COALESCE skips NULL only: a client that reports the empty string erases what the server reported. */
  lemma EmptyStringErases(st: State, s: ServerPayload, c: ClientPayload, r: Time, t: Time)
    requires s.sampleId == c.sampleId && s.sampleId !in st.rows
    requires Admitted(ServerPost(s, r, t)) && Admitted(ClientPost(c, r, t))
    requires c.negotiated.cipher == Some("") && s.negotiated.cipher.Some? && s.negotiated.cipher.value != ""
    ensures var server, client := ServerPost(s, r, t), ClientPost(c, r, t);
            s.sampleId in Replay(st, [server, client]).rows && s.sampleId in Replay(st, [client, server]).rows &&
            Replay(st, [server, client]).rows[s.sampleId].negotiated.cipher == Some("") &&
            Replay(st, [client, server]).rows[s.sampleId].negotiated.cipher == s.negotiated.cipher
  {
    ReplayTwo(st, ServerPost(s, r, t), ClientPost(c, r, t));
    ReplayTwo(st, ClientPost(c, r, t), ServerPost(s, r, t));
  }

  // ---- Whole tables ----

  /** Any two admitted reports of one sample repeat or agree with each other. */
  ghost predicate Consistent(log: seq<Op>) {
    var said := set op | op in log && Admitted(op);
    (forall a, b | a in said && b in said && a.ServerPost? && b.ServerPost? ::
      a.server.sampleId == b.server.sampleId ==> a.server == b.server) &&
    (forall a, b | a in said && b in said && a.ClientPost? && b.ClientPost? ::
      a.client.sampleId == b.client.sampleId ==> a.client == b.client) &&
    (forall a, b | a in said && b in said && a.ServerPost? && b.ClientPost? ::
      a.server.sampleId == b.client.sampleId ==> Agree(a.server, b.client))
  }

  /** Any two reports of one sample in a consistent log repeat or agree with each other. */
  lemma {:induction false} SameHalf(log: seq<Op>, sampleId: string, a: Op, b: Op)
    requires Consistent(log) && a in History(log, sampleId) && b in History(log, sampleId)
    ensures a.ServerPost? && b.ServerPost? ==> a.server == b.server
    ensures a.ClientPost? && b.ClientPost? ==> a.client == b.client
    ensures a.ServerPost? && b.ClientPost? ==> Agree(a.server, b.client)
  {
    hide Admitted, History, Agree;
    var said := set op | op in log && Admitted(op);
    assert a in said && b in said;
  }

  /** The halves of a sample that a consistent log carries. */
  lemma {:induction false} HalvesOf(log: seq<Op>, sampleId: string)
    returns (s: Option<ServerPayload>, c: Option<ClientPayload>)
    requires Consistent(log)
    ensures Carries(History(log, sampleId), s, c)
  {
    hide Consistent, History, Names, Agree;
    var h := History(log, sampleId);
    s, c := None, None;
    if op :| op in h && op.ServerPost? { s := Some(op.server); }
    if op :| op in h && op.ClientPost? { c := Some(op.client); }
    forall a, b | a in h && b in h
      ensures a.ServerPost? && b.ServerPost? ==> a.server == b.server
      ensures a.ClientPost? && b.ClientPost? ==> a.client == b.client
      ensures a.ServerPost? && b.ClientPost? ==> Agree(a.server, b.client)
    {
      SameHalf(log, sampleId, a, b);
    }
  }

  /** The reports of one sample are told by the reports of the whole log. */
  lemma {:induction false} ReportsOf(log: seq<Op>, sampleId: string)
    ensures Servers(History(log, sampleId)) ==
            set p | p in Servers(log) && p.sampleId == sampleId && Admitted(ServerPost(p, 0, 0))
    ensures Clients(History(log, sampleId)) ==
            set p | p in Clients(log) && p.sampleId == sampleId && Admitted(ClientPost(p, 0, 0))
  {
  }

  /**
   Two deliveries of the same consistent reports, whatever their orders, repetitions, clocks and
   other traffic, leave the same rows up to timestamps.
   */
  lemma {:induction false} DeliveriesConverge(st: State, log: seq<Op>, other: seq<Op>, sampleId: string)
    requires sampleId !in st.rows
    requires Consistent(log) && Servers(log) == Servers(other) && Clients(log) == Clients(other)
    ensures sampleId in Replay(st, log).rows <==> sampleId in Replay(st, other).rows
    ensures sampleId in Replay(st, log).rows ==>
            Untimed(Replay(st, log).rows[sampleId]) == Untimed(Replay(st, other).rows[sampleId])
  {
    var h, h' := History(log, sampleId), History(other, sampleId);
    var s, c := HalvesOf(log, sampleId);
    ReportsOf(log, sampleId);
    ReportsOf(other, sampleId);
    assert Carries(h', s, c);
    NonEmptyCarries(h, s, c);
    NonEmptyCarries(h', s, c);
    RowsRefineLog(st, log, sampleId);
    RowsRefineLog(st, other, sampleId);
    if h != [] {
      RowOfConsistent(h, s, c);
      RowOfConsistent(h', s, c);
    }
  }

  lemma {:induction false} NonEmptyCarries(h: seq<Op>, s: Option<ServerPayload>, c: Option<ClientPayload>)
    requires Carries(h, s, c)
    ensures h != [] <==> s.Some? || c.Some?
  {
    if h != [] {
      CarriedOp(h, s, c, 0);
    } else {
      assert Servers(h) == {} && Clients(h) == {};
    }
  }

  /** A write request without the clock readings of its transaction. */
  function Timeless(op: Op): Op {
    match op
    case WriteRun(p, _) => WriteRun(p, 0)
    case FinishRun(id, _, _) => FinishRun(id, 0, 0)
    case ServerPost(p, _, _) => ServerPost(p, 0, 0)
    case ClientPost(p, _, _) => ClientPost(p, 0, 0)
  }

  /** What a log asks for, without order, number or time. */
  function Said(log: seq<Op>): set<Op> {
    set op | op in log :: Timeless(op)
  }

  /** What a creation request says of its run: client, OpenSSL version, iterations, warm-ups and notes. */
  function Description(p: RunPayload): (string, Option<string>, Option<int>, Option<int>, Option<string>) {
    (ClientName(p), p.opensslVersion, p.iterations, p.warmup, p.notes)
  }

  /** No two admitted creation requests describe the run differently. */
  ghost predicate DescribedOnce(log: seq<Op>, id: string) {
    forall a, b | a in log && b in log && a.WriteRun? && b.WriteRun? && NamesRun(a, id) && NamesRun(b, id) ::
      Description(a.run) == Description(b.run)
  }

  /** Everything a run records except when it began and ended. */
  function UntimedRun(run: Run): Run {
    run.(startedAt := 0, completedAt := if run.completedAt.Some? then Some(0) else None)
  }

  /** A log that says the same has a request that does. */
  lemma SameSaid(log: seq<Op>, other: seq<Op>, op: Op, id: string) returns (twin: Op)
    requires Said(log) == Said(other) && op in log
    ensures twin in other && Timeless(twin) == Timeless(op) && (NamesRun(twin, id) <==> NamesRun(op, id))
  {
    assert Timeless(op) in Said(other);
    twin :| twin in other && Timeless(twin) == Timeless(op);
  }

  lemma {:induction false} LastWritten(log: seq<Op>, other: seq<Op>, id: string)
    requires Said(log) == Said(other)
    requires DescribedOnce(log, id)
    ensures var written := LastSuch(RunHistory(log, id), (op: Op) => op.WriteRun?);
            var written' := LastSuch(RunHistory(other, id), (op: Op) => op.WriteRun?);
            written.Some? ==>
              written'.Some? &&
              Description(RunHistory(log, id)[written.value].run) ==
              Description(RunHistory(other, id)[written'.value].run)
  {
    var h, h' := RunHistory(log, id), RunHistory(other, id);
    var written := LastSuch(h, (op: Op) => op.WriteRun?);
    var written' := LastSuch(h', (op: Op) => op.WriteRun?);
    if written.Some? {
      assert h[written.value] in h;
      var twin := SameSaid(log, other, h[written.value], id);
      assert twin in h';
      assert written'.Some?;
      assert h'[written'.value] in h';
      var back := SameSaid(other, log, h'[written'.value], id);
    }
  }

  lemma {:induction false} SomeFinished(log: seq<Op>, other: seq<Op>, id: string)
    requires Said(log) == Said(other)
    ensures LastSuch(RunHistory(log, id), (op: Op) => op.FinishRun?).Some? ==>
            LastSuch(RunHistory(other, id), (op: Op) => op.FinishRun?).Some?
    ensures RunHistory(log, id) != [] ==> RunHistory(other, id) != []
  {
    var h, h' := RunHistory(log, id), RunHistory(other, id);
    var finished := LastSuch(h, (op: Op) => op.FinishRun?);
    if finished.Some? {
      assert h[finished.value] in h;
      var twin := SameSaid(log, other, h[finished.value], id);
      assert twin in h';
    }
    if h != [] {
      assert h[0] in h;
      var twin := SameSaid(log, other, h[0], id);
      assert twin in h';
    }
  }

  /** So do they leave the same runs, up to when those began and ended, unless a run is described in two ways. */
  lemma {:induction false} RunsConverge(st: State, log: seq<Op>, other: seq<Op>, id: string)
    requires id !in st.runs
    requires Said(log) == Said(other) && DescribedOnce(log, id)
    ensures id in Replay(st, log).runs <==> id in Replay(st, other).runs
    ensures id in Replay(st, log).runs ==>
            UntimedRun(Replay(st, log).runs[id]) == UntimedRun(Replay(st, other).runs[id])
  {
    hide LastSuch, RunHistory, NamesRun, Said;
    RunsRefineLog(st, log, id);
    RunsRefineLog(st, other, id);
    SomeFinished(log, other, id);
    SomeFinished(other, log, id);
    LastWritten(log, other, id);
    DescribedAlike(log, other, id);
    LastWritten(other, log, id);
  }

  lemma DescribedAlike(log: seq<Op>, other: seq<Op>, id: string)
    requires Said(log) == Said(other) && DescribedOnce(log, id)
    ensures DescribedOnce(other, id)
  {
    forall a, b | a in other && b in other && a.WriteRun? && b.WriteRun? && NamesRun(a, id) && NamesRun(b, id)
      ensures Description(a.run) == Description(b.run)
    {
      var a' := SameSaid(other, log, a, id);
      var b' := SameSaid(other, log, b, id);
    }
  }

  /** And two creation requests of one run may come in either order exactly when they describe it alike. */
  lemma CreationOrdersAgreeExactly(st: State, p: RunPayload, q: RunPayload, t: Time, t': Time)
    requires p.runId == q.runId && Admitted(WriteRun(p, t)) && Admitted(WriteRun(q, t'))
    ensures var a, b := WriteRun(p, t), WriteRun(q, t');
            p.runId in Replay(st, [a, b]).runs && p.runId in Replay(st, [b, a]).runs &&
            (UntimedRun(Replay(st, [a, b]).runs[p.runId]) == UntimedRun(Replay(st, [b, a]).runs[p.runId])
             <==> Description(p) == Description(q))
  {
    ReplayTwo(st, WriteRun(p, t), WriteRun(q, t'));
    ReplayTwo(st, WriteRun(q, t'), WriteRun(p, t));
  }

  /** Both tables without their timestamps. */
  function UntimedTables(st: State): State {
    State(map id | id in st.runs :: UntimedRun(st.runs[id]), map id | id in st.rows :: Untimed(st.rows[id]))
  }

  /**
   Two histories of a new database that say the same, in whatever order, as often and whenever,
   leave the same tables up to timestamps.
   */
  lemma {:induction false} TablesConverge(log: seq<Op>, other: seq<Op>)
    requires Said(log) == Said(other) && Consistent(log)
    requires forall id :: DescribedOnce(log, id)
    ensures UntimedTables(Replay(EMPTY, log)) == UntimedTables(Replay(EMPTY, other))
  {
    hide Consistent, DescribedOnce, Replay, Said, Untimed, UntimedRun;
    SameReports(log, other);
    forall id
      ensures id in Replay(EMPTY, log).rows <==> id in Replay(EMPTY, other).rows
      ensures id in Replay(EMPTY, log).rows ==>
              Untimed(Replay(EMPTY, log).rows[id]) == Untimed(Replay(EMPTY, other).rows[id])
    {
      DeliveriesConverge(EMPTY, log, other, id);
    }
    forall id
      ensures id in Replay(EMPTY, log).runs <==> id in Replay(EMPTY, other).runs
      ensures id in Replay(EMPTY, log).runs ==>
              UntimedRun(Replay(EMPTY, log).runs[id]) == UntimedRun(Replay(EMPTY, other).runs[id])
    {
      RunsConverge(EMPTY, log, other, id);
    }
  }

  lemma {:induction false} SameReports(log: seq<Op>, other: seq<Op>)
    requires Said(log) == Said(other)
    ensures Servers(log) == Servers(other) && Clients(log) == Clients(other)
  {
    hide NamesRun;
    forall op | op in log
      ensures op.ServerPost? ==> op.server in Servers(other)
      ensures op.ClientPost? ==> op.client in Clients(other)
    {
      var twin := SameSaid(log, other, op, "");
    }
    forall op | op in other
      ensures op.ServerPost? ==> op.server in Servers(log)
      ensures op.ClientPost? ==> op.client in Clients(log)
    {
      var twin := SameSaid(other, log, op, "");
    }
  }
}
