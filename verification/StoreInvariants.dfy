/** What holds in every state the database can reach, and what no write ever undoes. */
module StoreInvariants {
  import opened Wrappers
  import opened Modes
  import opened Store

  predicate ValidRow(st: State, row: Row) {
    row.runId in st.runs &&
    TableAdmits(row.mode) &&
    FitsOrNull(row.serverHandshakeUs) && TimingFits(row.timing) &&
    // each side's columns are set exactly when that side has reported
    (row.stamps.server.Some? <==> row.serverHandshakeUs.Some?) &&
    (row.stamps.client.None? ==> row.timing == NO_TIMING && row.success && row.error.None?) &&
    (row.stamps.server.Some? || row.stamps.client.Some?)
  }

  predicate ValidRun(run: Run) {
    FitsOrNull(run.iterations) && FitsOrNull(run.warmup)
  }

  predicate Valid(st: State) {
    (forall id :: id in st.rows ==> ValidRow(st, st.rows[id])) &&
    (forall id :: id in st.runs ==> ValidRun(st.runs[id]))
  }

  /** What a later state keeps of an earlier one. */
  predicate Keeps(st: State, st': State) {
    (forall id :: id in st.runs ==>
      id in st'.runs && st'.runs[id].startedAt == st.runs[id].startedAt &&
      (st.runs[id].completedAt.Some? ==> st'.runs[id].completedAt.Some?)) &&
    (forall id :: id in st.rows ==>
      id in st'.rows &&
      st'.rows[id].runId == st.rows[id].runId &&
      st'.rows[id].mode == st.rows[id].mode &&
      st'.rows[id].expectedGroup == st.rows[id].expectedGroup &&
      st'.rows[id].stamps.created == st.rows[id].stamps.created &&
      (st.rows[id].stamps.server.Some? ==> st'.rows[id].stamps.server.Some?) &&
      (st.rows[id].stamps.client.Some? ==> st'.rows[id].stamps.client.Some?))
  }

  lemma PutRunKeeps(st: State, id: string, run: Run)
    requires Valid(st) && ValidRun(run)
    requires id in st.runs ==> run.startedAt == st.runs[id].startedAt &&
                               (st.runs[id].completedAt.Some? ==> run.completedAt.Some?)
    ensures var st' := st.(runs := st.runs[id := run]); Valid(st') && Keeps(st, st')
  {
    var st' := st.(runs := st.runs[id := run]);
    forall sid | sid in st'.rows ensures ValidRow(st', st'.rows[sid]) {
      assert ValidRow(st, st.rows[sid]);
    }
  }

  lemma PutRowKeeps(st: State, sampleId: string, row: Row)
    requires Valid(st) && ValidRow(st, row)
    requires sampleId in st.rows ==>
               var was := st.rows[sampleId];
               row.runId == was.runId && row.mode == was.mode && row.expectedGroup == was.expectedGroup &&
               row.stamps.created == was.stamps.created &&
               (was.stamps.server.Some? ==> row.stamps.server.Some?) &&
               (was.stamps.client.Some? ==> row.stamps.client.Some?)
    ensures var st' := st.(rows := st.rows[sampleId := row]); Valid(st') && Keeps(st, st')
  {
    var st' := st.(rows := st.rows[sampleId := row]);
    forall sid | sid in st'.rows ensures ValidRow(st', st'.rows[sid]) {
      assert sid != sampleId ==> ValidRow(st, st.rows[sid]);
    }
  }

  lemma EnsureRunKeeps(st: State, id: string, now: Time)
    requires Valid(st)
    ensures var st' := st.(runs := EnsureRun(st.runs, id, now)); Valid(st') && Keeps(st, st') && id in st'.runs
  {
    if id !in st.runs { PutRunKeeps(st, id, Run(now, None, DEFAULT_CLIENT, None, None, None, None)); }
  }

  lemma KeepsTransitive(a: State, b: State, c: State)
    requires Keeps(a, b) && Keeps(b, c)
    ensures Keeps(a, c)
  {
  }

  lemma StepKeeps(st: State, op: Op)
    requires Valid(st)
    ensures Valid(Step(st, op)) && Keeps(st, Step(st, op))
  {
    if Admitted(op) {
      match op
      case WriteRun(p, now) =>
        PutRunKeeps(st, p.runId, Step(st, op).runs[p.runId]);
      case FinishRun(id, runNow, now) =>
        var mid := st.(runs := EnsureRun(st.runs, id, runNow));
        EnsureRunKeeps(st, id, runNow);
        PutRunKeeps(mid, id, Step(st, op).runs[id]);
        KeepsTransitive(st, mid, Step(st, op));
      case ServerPost(p, runNow, now) =>
        var mid := st.(runs := EnsureRun(st.runs, p.runId, runNow));
        EnsureRunKeeps(st, p.runId, runNow);
        PutRowKeeps(mid, p.sampleId, AfterServer(st.rows, p, now));
        KeepsTransitive(st, mid, Step(st, op));
      case ClientPost(p, runNow, now) =>
        var mid := st.(runs := EnsureRun(st.runs, p.runId, runNow));
        EnsureRunKeeps(st, p.runId, runNow);
        PutRowKeeps(mid, p.sampleId, AfterClient(st.rows, p, now));
        KeepsTransitive(st, mid, Step(st, op));
    }
  }

  /** Over every run of the database, from any valid state: validity holds and nothing settled is lost. */
  lemma {:induction false} ReplayKeeps(st: State, log: seq<Op>)
    requires Valid(st)
    ensures Valid(Replay(st, log)) && Keeps(st, Replay(st, log))
  {
    if log != [] {
      ReplayKeeps(st, log[..|log| - 1]);
      StepKeeps(Replay(st, log[..|log| - 1]), log[|log| - 1]);
    }
  }

  /** Between any two moments of one history the later state keeps the earlier one. */
  lemma {:induction false} HistoryKeeps(log: seq<Op>, i: nat)
    requires i <= |log|
    ensures Valid(Replay(EMPTY, log[..i])) && Valid(Replay(EMPTY, log))
    ensures Keeps(Replay(EMPTY, log[..i]), Replay(EMPTY, log))
  {
    ReplayKeeps(EMPTY, log[..i]);
    ReplayKeeps(Replay(EMPTY, log[..i]), log[i..]);
    assert log[..i] + log[i..] == log;
    ReplayConcat(EMPTY, log[..i], log[i..]);
  }

  lemma {:induction false} ReplayConcat(st: State, a: seq<Op>, b: seq<Op>)
    ensures Replay(st, a + b) == Replay(Replay(st, a), b)
  {
    if b == [] {
      assert a + b == a;
    } else {
      assert (a + b)[..|a + b| - 1] == a + b[..|b| - 1];
      ReplayConcat(st, a, b[..|b| - 1]);
    }
  }

  /** A log and its admitted writes leave the same state: a rejected write leaves no trace, not even its run. */
  lemma {:induction false} RejectedLeaveNoTrace(st: State, log: seq<Op>)
    ensures Replay(st, log) == Replay(st, OnlyAdmitted(log))
  {
    if log != [] {
      var before, op := log[..|log| - 1], log[|log| - 1];
      RejectedLeaveNoTrace(st, before);
      if Admitted(op) {
        assert OnlyAdmitted(log)[..|OnlyAdmitted(log)| - 1] == OnlyAdmitted(before);
      } else {
        assert OnlyAdmitted(log) == OnlyAdmitted(before);
      }
    }
  }

  function OnlyAdmitted(log: seq<Op>): (kept: seq<Op>)
    ensures forall op :: op in kept <==> op in log && Admitted(op)
  {
    if log == [] then []
    else
      assert log == log[..|log| - 1] + [log[|log| - 1]];
      OnlyAdmitted(log[..|log| - 1]) + if Admitted(log[|log| - 1]) then [log[|log| - 1]] else []
  }

  // ---- Single writes, in the terms of the table definition ----

  /** The table was defined for two modes: reports of the third leave no trace. */
  lemma ThirdModeRejected(st: State, s: ServerPayload, c: ClientPayload, t: Time, u: Time)
    ensures s.mode == HybridP256 ==> Step(st, ServerPost(s, t, u)) == st
    ensures c.mode == HybridP256 ==> Step(st, ClientPost(c, t, u)) == st
  {
  }

  predicate SixtyFourBits(n: Option<int>) {
    n.Some? ==> -9_223_372_036_854_775_808 <= n.value <= 9_223_372_036_854_775_807
  }

  /** Reports of the two are kept whole when their numbers are signed 64-bit ones, and otherwise leave no trace. */
  lemma OtherModesTaken(st: State, s: ServerPayload, c: ClientPayload, t: Time, u: Time)
    requires (s.mode == Classical || s.mode == Hybrid) && (c.mode == Classical || c.mode == Hybrid)
    ensures var after, n := Step(st, ServerPost(s, t, u)), Some(s.handshakeUs);
            if SixtyFourBits(n)
            then s.sampleId in after.rows && after.rows[s.sampleId].serverHandshakeUs == n && s.runId in after.runs &&
                 after.rows[s.sampleId].negotiated == s.negotiated
            else after == st
    ensures var after, n := Step(st, ClientPost(c, t, u)), c.timing;
            if SixtyFourBits(n.tcpUs) && SixtyFourBits(n.handshakeUs) && SixtyFourBits(n.ttfbUs) &&
               SixtyFourBits(n.totalUs) && SixtyFourBits(n.bytesSent) && SixtyFourBits(n.bytesReceived)
            then c.sampleId in after.rows && after.rows[c.sampleId].timing == n && c.runId in after.runs &&
                 after.rows[c.sampleId].success == c.success && after.rows[c.sampleId].error == c.error
            else after == st
  {
  }

  /** A creation request leaves the run as it describes it, and a known run its start and completion. */
  lemma CreationSays(st: State, p: RunPayload, t: Time)
    requires SixtyFourBits(p.iterations) && SixtyFourBits(p.warmup)
    ensures var runs := Step(st, WriteRun(p, t)).runs;
            p.runId in runs &&
            runs[p.runId].clientName == (if p.clientName.Some? then p.clientName.value else "openssl-client") &&
            runs[p.runId].opensslVersion == p.opensslVersion && runs[p.runId].iterations == p.iterations &&
            runs[p.runId].warmup == p.warmup && runs[p.runId].notes == p.notes &&
            (if p.runId in st.runs
             then runs[p.runId].startedAt == st.runs[p.runId].startedAt &&
                  runs[p.runId].completedAt == st.runs[p.runId].completedAt
             else runs[p.runId].startedAt == t && runs[p.runId].completedAt == None)
  {
  }

  /** A report of an unknown run creates a bare one, which began when the report's transaction did. */
  lemma BareRunCreated(st: State, s: ServerPayload, c: ClientPayload, id: string, t: Time, u: Time)
    requires s.runId == c.runId == id && id !in st.runs
    requires Admitted(ServerPost(s, t, u)) && Admitted(ClientPost(c, t, u))
    ensures var bare := Run(t, None, "openssl-client", None, None, None, None);
            Step(st, ServerPost(s, t, u)).runs == st.runs[id := bare] &&
            Step(st, ClientPost(c, t, u)).runs == st.runs[id := bare] &&
            Step(st, FinishRun(id, t, u)).runs == st.runs[id := bare.(completedAt := Some(u))]
  {
  }
}
