/** The repository object: every write is one transaction that commits or changes nothing. */
module Repository {
  import opened Wrappers
  import opened Modes
  import opened Store
  import opened Analytics
  import opened Queries
  import StoreInvariants

  /** What the dashboard page is rendered from. */
  datatype Dashboard = Dashboard(
    selectedRun: Option<string>, runs: seq<Listing>, summary: Summary, recent: seq<Record>)

  class BenchmarkRepository {
    var runs: map<string, Run>
    var measurements: map<string, Row>

    ghost function Contents(): State
      reads this
    {
      State(runs, measurements)
    }

    /** What holds between any two method calls. */
    ghost predicate Valid()
      reads this
    {
      StoreInvariants.Valid(Contents())
    }

    constructor ()
      ensures Contents() == EMPTY && Valid()
    {
      runs, measurements := map[], map[];
    }

    method InsertOrIgnoreRun(id: string, now: Time)
      modifies this`runs
      ensures runs == EnsureRun(old(runs), id, now)
    {
      if id !in runs {
        runs := runs[id := Run(now, None, DEFAULT_CLIENT, None, None, None, None)];
      }
    }

    method CreateRun(p: RunPayload, now: Time) returns (committed: bool)
      requires Valid()
      modifies this
      ensures committed == Admitted(WriteRun(p, now))
      ensures Contents() == Step(old(Contents()), WriteRun(p, now))
      ensures Valid() && StoreInvariants.Keeps(old(Contents()), Contents())
    {
      StoreInvariants.StepKeeps(Contents(), WriteRun(p, now));
      if !FitsOrNull(p.iterations) || !FitsOrNull(p.warmup) { return false; }
      var name := if p.clientName.Some? then p.clientName.value else DEFAULT_CLIENT;
      if p.runId in runs {
        var run := runs[p.runId];
        runs := runs[p.runId := Run(run.startedAt, run.completedAt, name, p.opensslVersion,
                                    p.iterations, p.warmup, p.notes)];
      } else {
        runs := runs[p.runId := Run(now, None, name, p.opensslVersion, p.iterations, p.warmup, p.notes)];
      }
      return true;
    }

    method CompleteRun(id: string, runNow: Time, now: Time)
      requires Valid()
      modifies this
      ensures Contents() == Step(old(Contents()), FinishRun(id, runNow, now))
      ensures Valid() && StoreInvariants.Keeps(old(Contents()), Contents())
    {
      StoreInvariants.StepKeeps(Contents(), FinishRun(id, runNow, now));
      InsertOrIgnoreRun(id, runNow);
      runs := runs[id := runs[id].(completedAt := Some(now))];
    }

    method RecordServer(p: ServerPayload, runNow: Time, now: Time) returns (committed: bool)
      requires Valid()
      modifies this
      ensures committed == Admitted(ServerPost(p, runNow, now))
      ensures Contents() == Step(old(Contents()), ServerPost(p, runNow, now))
      ensures Valid() && StoreInvariants.Keeps(old(Contents()), Contents())
    {
      StoreInvariants.StepKeeps(Contents(), ServerPost(p, runNow, now));
      var savedRuns := runs;
      InsertOrIgnoreRun(p.runId, runNow);
      if !Fits(p.handshakeUs) || !TableAdmits(p.mode) {
        runs := savedRuns;
        return false;
      }
      if p.sampleId in measurements {
        var row := measurements[p.sampleId];
        row := row.(negotiated := p.negotiated, serverHandshakeUs := Some(p.handshakeUs));
        row := row.(stamps := row.stamps.(server := Some(now)));
        measurements := measurements[p.sampleId := row];
      } else {
        measurements := measurements[p.sampleId :=
          Row(p.runId, p.mode, p.expectedGroup, p.negotiated, Some(p.handshakeUs), NO_TIMING, true, None,
              Stamps(Some(now), None, now))];
      }
      return true;
    }

    method RecordClient(p: ClientPayload, runNow: Time, now: Time) returns (committed: bool)
      requires Valid()
      modifies this
      ensures committed == Admitted(ClientPost(p, runNow, now))
      ensures Contents() == Step(old(Contents()), ClientPost(p, runNow, now))
      ensures Valid() && StoreInvariants.Keeps(old(Contents()), Contents())
    {
      StoreInvariants.StepKeeps(Contents(), ClientPost(p, runNow, now));
      var savedRuns := runs;
      InsertOrIgnoreRun(p.runId, runNow);
      if !TimingFits(p.timing) || !TableAdmits(p.mode) {
        runs := savedRuns;
        return false;
      }
      if p.sampleId in measurements {
        var row := measurements[p.sampleId];
        var merged := row.negotiated;
        if p.negotiated.group.Some? { merged := merged.(group := p.negotiated.group); }
        if p.negotiated.tlsVersion.Some? { merged := merged.(tlsVersion := p.negotiated.tlsVersion); }
        if p.negotiated.cipher.Some? { merged := merged.(cipher := p.negotiated.cipher); }
        row := row.(negotiated := merged, timing := p.timing, success := p.success, error := p.error);
        row := row.(stamps := row.stamps.(client := Some(now)));
        measurements := measurements[p.sampleId := row];
      } else {
        measurements := measurements[p.sampleId :=
          Row(p.runId, p.mode, p.expectedGroup, p.negotiated, None, p.timing, p.success, p.error,
              Stamps(None, Some(now), now))];
      }
      return true;
    }

    /** What the LEFT JOIN counts for one run. */
    method JoinRun(id: string) returns (line: Listing)
      requires id in runs
      ensures line == Listing(id, runs[id], |SamplesOf(Contents(), id)|, |SuccessesOf(Contents(), id)|)
    {
      var joined := set s | s in measurements && measurements[s].runId == id;
      var succeeded := set s | s in joined && measurements[s].success;
      assert joined == SamplesOf(Contents(), id);
      assert succeeded == SuccessesOf(Contents(), id);
      line := Listing(id, runs[id], |joined|, |succeeded|);
    }

    method JoinRuns(newest: seq<string>) returns (answer: seq<Listing>)
      requires forall i :: 0 <= i < |newest| ==> newest[i] in runs
      ensures |answer| == |newest|
      ensures forall j :: 0 <= j < |answer| ==>
                var id := newest[j];
                answer[j] == Listing(id, runs[id], |SamplesOf(Contents(), id)|, |SuccessesOf(Contents(), id)|)
    {
      answer := [];
      for i := 0 to |newest|
        invariant |answer| == i
        invariant forall j :: 0 <= j < i ==>
                    var id := newest[j];
                    answer[j] == Listing(id, runs[id], |SamplesOf(Contents(), id)|, |SuccessesOf(Contents(), id)|)
      {
        var line := JoinRun(newest[i]);
        answer := answer + [line];
      }
    }

    method Runs(limit: int := 20) returns (answer: seq<Listing>)
      ensures AnswersRuns(Contents(), limit, answer)
    {
      var newest := Newest(map id | id in runs :: runs[id].startedAt, runs.Keys, Some(limit));
      answer := JoinRuns(newest);
      assert Ids(answer) == newest;
    }

    method Fetch(newest: seq<string>) returns (answer: seq<Record>)
      requires forall i :: 0 <= i < |newest| ==> newest[i] in measurements
      ensures |answer| == |newest|
      ensures forall j :: 0 <= j < |answer| ==> answer[j] == Record(newest[j], measurements[newest[j]])
    {
      answer := [];
      for i := 0 to |newest|
        invariant |answer| == i
        invariant forall j :: 0 <= j < i ==> answer[j] == Record(newest[j], measurements[newest[j]])
      {
        answer := answer + [Record(newest[i], measurements[newest[i]])];
      }
    }

    method Measurements(runId: Option<string>, limit: Option<int>) returns (answer: seq<Record>)
      ensures AnswersMeasurements(Contents(), runId, limit, answer)
    {
      var selected := measurements.Keys;
      if runId.Some? && runId.value != "" {
        selected := set s | s in measurements && measurements[s].runId == runId.value;
      }
      var newest := Newest(map s | s in measurements :: measurements[s].stamps.created, selected, limit);
      answer := Fetch(newest);
      assert SampleIds(answer) == newest;
      assert selected == Selected(Contents(), runId);
    }

    /** The page of one run: by default the newest, and no rows at all for the empty run id. */
    method DashboardData(runId: Option<string>) returns (page: Dashboard, ghost rows: seq<Record>)
      ensures AnswersRuns(Contents(), 20, page.runs)
      ensures page.selectedRun ==
              if runId.None? && page.runs != [] then Some(page.runs[0].id) else runId
      ensures PageRows(Contents(), page.selectedRun, rows)
      ensures page.summary == SummaryOf(rows)
      ensures page.recent == rows[..if |rows| < 40 then |rows| else 40]
    {
      var selectedRun := runId;
      var available := Runs();
      if selectedRun.None? && |available| > 0 { selectedRun := Some(available[0].id); }
      var found: seq<Record> := [];
      if selectedRun.Some? && selectedRun.value != "" { found := Measurements(selectedRun, None); }
      var summary := Summarize(found);
      rows := found;
      page := Dashboard(selectedRun, available, summary, if |found| < 40 then found else found[..40]);
    }
  }
}
