/** What the read queries answer, up to the order of equal timestamps, and how their counts fit together. */
module Queries {
  import opened Wrappers
  import opened Modes
  import opened Store
  import opened Analytics
  import SummaryFacts
  import StoreInvariants

  // ---- ORDER BY ... DESC LIMIT ... ----

  /** SQL reads a negative LIMIT as no limit. */
  function RowsAsked(limit: Option<int>, available: nat): nat {
    if limit.None? || limit.value < 0 || limit.value > available then available else limit.value
  }

  predicate Distinct<T(==)>(s: seq<T>) {
    forall i, j :: 0 <= i < j < |s| ==> s[i] != s[j]
  }

  /** The answer of a query ordered newest first: ties in any order, the oldest cut off. */
  ghost predicate NewestFirst(time: map<string, Time>, keys: set<string>, limit: Option<int>, answer: seq<string>)
    requires keys <= time.Keys
  {
    Distinct(answer) &&
    |answer| == RowsAsked(limit, |keys|) &&
    (forall k :: k in answer ==> k in keys) &&
    (forall i, j :: 0 <= i < j < |answer| ==> time[answer[i]] >= time[answer[j]]) &&
    (forall i, k :: 0 <= i < |answer| && k in keys && k !in answer ==> time[answer[i]] >= time[k])
  }

  lemma {:induction false} NewestExists(time: map<string, Time>, keys: set<string>)
    requires keys <= time.Keys && keys != {}
    ensures exists k :: k in keys && forall o :: o in keys ==> time[o] <= time[k]
  {
    var k :| k in keys;
    if keys != {k} {
      NewestExists(time, keys - {k});
      var m :| m in keys - {k} && forall o :: o in keys - {k} ==> time[o] <= time[m];
      var best := if time[m] <= time[k] then k else m;
      assert best in keys && forall o :: o in keys ==> o == k || o in keys - {k};
    } else {
      assert forall o :: o in keys ==> o == k;
    }
  }

  method Newest(time: map<string, Time>, keys: set<string>, limit: Option<int>) returns (answer: seq<string>)
    requires keys <= time.Keys
    ensures NewestFirst(time, keys, limit, answer)
  {
    answer := [];
    var rest := keys;
    while rest != {} && (limit.None? || limit.value < 0 || |answer| < limit.value)
      invariant Distinct(answer) && rest <= keys
      invariant forall k :: k in keys <==> k in answer || k in rest
      invariant forall k :: k in answer ==> k !in rest
      invariant |answer| + |rest| == |keys|
      invariant |answer| <= RowsAsked(limit, |keys|)
      invariant forall i, j :: 0 <= i < j < |answer| ==> time[answer[i]] >= time[answer[j]]
      invariant forall i, k :: 0 <= i < |answer| && k in rest ==> time[answer[i]] >= time[k]
      decreases |rest|
    {
      NewestExists(time, rest);
      var k :| k in rest && forall o :: o in rest ==> time[o] <= time[k];
      answer := answer + [k];
      rest := rest - {k};
    }
  }

  // ---- The two queries ----

  function StartTimes(st: State): map<string, Time> {
    map id | id in st.runs :: st.runs[id].startedAt
  }

  function CreationTimes(st: State): map<string, Time> {
    map id | id in st.rows :: st.rows[id].stamps.created
  }

  function SamplesOf(st: State, runId: string): set<string> {
    set id | id in st.rows && st.rows[id].runId == runId
  }

  function SuccessesOf(st: State, runId: string): set<string> {
    set id | id in st.rows && st.rows[id].runId == runId && st.rows[id].success
  }

  /** One line of the run list: the run and what the join counts for it. */
  datatype Listing = Listing(id: string, run: Run, samples: nat, successes: nat)

  function Ids(listings: seq<Listing>): (ids: seq<string>)
    ensures |ids| == |listings| && forall i :: 0 <= i < |ids| ==> ids[i] == listings[i].id
  {
    if listings == [] then [] else [listings[0].id] + Ids(listings[1..])
  }

  ghost predicate AnswersRuns(st: State, limit: int, answer: seq<Listing>) {
    NewestFirst(StartTimes(st), st.runs.Keys, Some(limit), Ids(answer)) &&
    forall i :: 0 <= i < |answer| ==>
      var l := answer[i];
      l.id in st.runs && l.run == st.runs[l.id] &&
      l.samples == |SamplesOf(st, l.id)| && l.successes == |SuccessesOf(st, l.id)|
  }

  function SampleIds(records: seq<Record>): (ids: seq<string>)
    ensures |ids| == |records| && forall i :: 0 <= i < |ids| ==> ids[i] == records[i].sampleId
  {
    if records == [] then [] else [records[0].sampleId] + SampleIds(records[1..])
  }

  /** The WHERE clause is added only for a run id that is given and not empty. */
  function Selected(st: State, runId: Option<string>): set<string> {
    if runId.Some? && runId.value != "" then SamplesOf(st, runId.value) else st.rows.Keys
  }

  ghost predicate AnswersMeasurements(st: State, runId: Option<string>, limit: Option<int>, answer: seq<Record>) {
    NewestFirst(CreationTimes(st), Selected(st, runId), limit, SampleIds(answer)) &&
    forall i :: 0 <= i < |answer| ==>
      answer[i].sampleId in st.rows && answer[i].row == st.rows[answer[i].sampleId]
  }

  // ---- Counting records by what their rows say ----

  lemma {:induction false} DistinctTail(records: seq<Record>)
    requires records != [] && Distinct(SampleIds(records))
    ensures Distinct(SampleIds(records[1..]))
    ensures forall r :: r in records[1..] ==> r.sampleId != records[0].sampleId
  {
    var ids := SampleIds(records);
    assert ids[1..] == SampleIds(records[1..]);
    forall r | r in records[1..] ensures r.sampleId != records[0].sampleId {
      var i :| 0 <= i < |records[1..]| && records[1..][i] == r;
      assert ids[i + 1] == r.sampleId && ids[0] == records[0].sampleId;
    }
  }

  function IdsWhere(records: seq<Record>, p: Row -> bool): set<string> {
    set r | r in records && p(r.row) :: r.sampleId
  }

  /** A test of rows as a test of records. */
  function OnRow(p: Row -> bool): Record -> bool {
    (r: Record) => p(r.row)
  }

  lemma FilterOfFirst(head: Record, tail: seq<Record>, p: Row -> bool)
    ensures |Filter([head] + tail, OnRow(p))| == |Filter(tail, OnRow(p))| + if p(head.row) then 1 else 0
  {
    assert ([head] + tail)[1..] == tail;
  }

  lemma IdsOfFirst(head: Record, tail: seq<Record>, p: Row -> bool)
    requires forall r :: r in tail ==> r.sampleId != head.sampleId
    ensures |IdsWhere([head] + tail, p)| == |IdsWhere(tail, p)| + if p(head.row) then 1 else 0
  {
    var own := if p(head.row) then {head.sampleId} else {};
    assert IdsWhere([head] + tail, p) == IdsWhere(tail, p) + own;
    assert IdsWhere(tail, p) !! own;
  }

  lemma {:induction false} FilteredRecords(records: seq<Record>, p: Row -> bool)
    requires Distinct(SampleIds(records))
    ensures |Filter(records, OnRow(p))| == |IdsWhere(records, p)|
  {
    if records == [] {
      assert IdsWhere(records, p) == {};
    } else {
      hide Filter, IdsWhere, OnRow, SampleIds;
      DistinctTail(records);
      FilteredRecords(records[1..], p);
      assert records == [records[0]] + records[1..];
      FilterOfFirst(records[0], records[1..], p);
      IdsOfFirst(records[0], records[1..], p);
    }
  }

  lemma {:induction false} DistinctCovers<T>(s: seq<T>, keys: set<T>)
    requires Distinct(s) && |s| == |keys| && forall k :: k in s ==> k in keys
    ensures forall k :: k in keys ==> k in s
  {
    if s == [] {
      assert keys == {};
    } else {
      assert s[0] in keys;
      var rest := keys - {s[0]};
      forall k | k in s[1..] ensures k in rest {
        var i :| 0 <= i < |s[1..]| && s[1..][i] == k;
        assert s[i + 1] == k;
        assert k in s;
      }
      DistinctCovers(s[1..], rest);
      assert s == [s[0]] + s[1..];
    }
  }

  /** A complete answer lists each selected row once. */
  lemma {:induction false} CompleteAnswer(st: State, runId: Option<string>, answer: seq<Record>)
    requires AnswersMeasurements(st, runId, None, answer)
    ensures Distinct(SampleIds(answer))
    ensures forall id :: id in Selected(st, runId) <==> exists r :: r in answer && r.sampleId == id
    ensures forall r :: r in answer ==> r.sampleId in st.rows && r.row == st.rows[r.sampleId]
  {
    var ids := SampleIds(answer);
    DistinctCovers(ids, Selected(st, runId));
    forall id | id in Selected(st, runId) ensures exists r :: r in answer && r.sampleId == id {
      var i :| 0 <= i < |ids| && ids[i] == id;
      assert answer[i] in answer;
    }
    forall r | r in answer ensures r.sampleId in Selected(st, runId) {
      var i :| 0 <= i < |answer| && answer[i] == r;
      assert ids[i] in ids;
    }
  }

  /** Counting the records of a complete answer is counting rows of the table. */
  lemma {:induction false} AnswerCounts(st: State, runId: Option<string>, answer: seq<Record>, p: Row -> bool)
    requires AnswersMeasurements(st, runId, None, answer)
    ensures |Filter(answer, OnRow(p))| ==
            |set id | id in Selected(st, runId) && id in st.rows && p(st.rows[id])|
  {
    CompleteAnswer(st, runId, answer);
    FilteredRecords(answer, p);
    var a := IdsWhere(answer, p);
    var b := set id | id in Selected(st, runId) && id in st.rows && p(st.rows[id]);
    forall id | id in b ensures id in a {
      var r :| r in answer && r.sampleId == id;
    }
    assert a == b;
  }

  lemma {:induction false} SameFilter(records: seq<Record>, p: Record -> bool, q: Record -> bool)
    requires forall r :: r in records ==> p(r) == q(r)
    ensures Filter(records, p) == Filter(records, q)
  {
    if records != [] {
      assert records[0] in records;
      assert forall r :: r in records[1..] ==> r in records;
      SameFilter(records[1..], p, q);
    }
  }

  lemma {:induction false} SuccessCount(st: State, runId: Option<string>, answer: seq<Record>)
    requires AnswersMeasurements(st, runId, None, answer)
    ensures |Successful(answer)| == |set id | id in Selected(st, runId) && id in st.rows && st.rows[id].success|
  {
    var p := (row: Row) => row.success;
    AnswerCounts(st, runId, answer, p);
    SameFilter(answer, OnRow(p), (r: Record) => r.row.success);
    assert (set id | id in Selected(st, runId) && id in st.rows && p(st.rows[id])) ==
           (set id | id in Selected(st, runId) && id in st.rows && st.rows[id].success);
  }

  // ---- SQL and Python count alike ----

  datatype Counts = Counts(samples: int, successes: int, failures: int)

  /** The per-mode counts of a summary, added up. */
  function Totals(summary: Summary): Counts
    requires forall mode :: mode in MODES ==> mode in summary.modes
  {
    AllModes(Classical);
    AllModes(Hybrid);
    AllModes(HybridP256);
    var c, h, p := summary.modes[Classical], summary.modes[Hybrid], summary.modes[HybridP256];
    Counts(c.samples + h.samples + p.samples, c.successes + h.successes + p.successes,
           c.failures + h.failures + p.failures)
  }

  /** The rows behind the page of a selected run: none for the empty run id. */
  ghost predicate PageRows(st: State, selected: Option<string>, rows: seq<Record>) {
    if selected.Some? && selected.value != ""
    then AnswersMeasurements(st, selected, None, rows)
    else rows == []
  }

  /** What the join counts for a run in the run list. */
  function Listed(st: State, id: string): Counts {
    Counts(|SamplesOf(st, id)|, |SuccessesOf(st, id)|, |SamplesOf(st, id)| - |SuccessesOf(st, id)|)
  }

  lemma {:induction false} TotalsOf(rows: seq<Record>)
    ensures Totals(SummaryOf(rows)) == Counts(|rows|, |Successful(rows)|, |rows| - |Successful(rows)|)
  {
    hide ComparisonOf, ComparisonTable, DescriptionOf, ModeRows, Successful;
    AllModes(Classical);
    AllModes(Hybrid);
    AllModes(HybridP256);
    SummaryFacts.CountsAddUp(rows);
  }

  /**
   The run list and the summary on the page of the selected run show the same counts for every run
   with a non-empty id. The page of the empty id is empty, so there they differ, already in the
   number of samples, exactly when the table has rows of that run.
   */
  lemma {:induction false} AggregatesAgree(st: State, id: string, rows: seq<Record>)
    requires PageRows(st, Some(id), rows)
    ensures Listed(st, id) == Totals(SummaryOf(rows)) <==> id != "" || SamplesOf(st, "") == {}
    ensures Listed(st, id).samples == Totals(SummaryOf(rows)).samples <==> id != "" || SamplesOf(st, "") == {}
  {
    hide SummaryOf, Successful;
    TotalsOf(rows);
    if id != "" {
      SuccessCount(st, Some(id), rows);
      assert SuccessesOf(st, id) == set s | s in Selected(st, Some(id)) && s in st.rows && st.rows[s].success;
    } else {
      NoneSuccessful();
      assert SuccessesOf(st, id) <= SamplesOf(st, id);
    }
  }

  lemma NoneSuccessful()
    ensures Successful([]) == []
  {
  }

  lemma {:induction false} ListedAlike(st: State, runId: Option<string>, a: seq<Record>, b: seq<Record>)
    requires AnswersMeasurements(st, runId, None, a) && AnswersMeasurements(st, runId, None, b)
    ensures forall r :: r in a ==> r in b
  {
    hide AnswersMeasurements, Selected, Distinct, SampleIds;
    CompleteAnswer(st, runId, a);
    CompleteAnswer(st, runId, b);
    forall r | r in a ensures r in b {
      assert r.sampleId in Selected(st, runId);
      var s :| s in b && s.sampleId == r.sampleId;
    }
  }

  /** The statistics on screen are a function of the table: ties in the query's order do not show. */
  lemma {:induction false} SummaryIsOfTheTable(st: State, runId: Option<string>, a: seq<Record>, b: seq<Record>)
    requires AnswersMeasurements(st, runId, None, a) && AnswersMeasurements(st, runId, None, b)
    ensures SummaryOf(a) == SummaryOf(b)
  {
    hide SummaryOf, NewestFirst, SampleIds, Selected;
    CompleteAnswer(st, runId, a);
    CompleteAnswer(st, runId, b);
    ListedAlike(st, runId, a, b);
    ListedAlike(st, runId, b, a);
    SameRecords(a, b);
    SummaryFacts.SummaryPermutation(a, b);
  }

  lemma {:induction false} SameRecords(a: seq<Record>, b: seq<Record>)
    requires Distinct(SampleIds(a)) && Distinct(SampleIds(b))
    requires forall r :: r in a ==> r in b
    requires forall r :: r in b ==> r in a
    ensures multiset(a) == multiset(b)
  {
    forall r ensures multiset(a)[r] == multiset(b)[r] {
      Once(a, r);
      Once(b, r);
    }
  }

  lemma {:induction false} Once(a: seq<Record>, r: Record)
    requires Distinct(SampleIds(a))
    ensures multiset(a)[r] == if r in a then 1 else 0
  {
    if a != [] {
      assert a == [a[0]] + a[1..];
      DistinctTail(a);
      Once(a[1..], r);
    }
  }

  function SumOfSamples(answer: seq<Listing>): nat {
    if answer == [] then 0 else answer[0].samples + SumOfSamples(answer[1..])
  }

  lemma {:induction false} SamplesOfListings(st: State, answer: seq<Listing>)
    requires Distinct(Ids(answer))
    requires forall i :: 0 <= i < |answer| ==> answer[i].samples == |SamplesOf(st, answer[i].id)|
    ensures SumOfSamples(answer) == |set s | s in st.rows && st.rows[s].runId in Ids(answer)|
  {
    var all := set s | s in st.rows && st.rows[s].runId in Ids(answer);
    if answer == [] {
      assert all == {};
    } else {
      var tail := answer[1..];
      assert Ids(answer) == [answer[0].id] + Ids(tail);
      assert Distinct(Ids(tail)) by {
        assert forall i :: 0 <= i < |tail| ==> Ids(tail)[i] == Ids(answer)[i + 1];
      }
      SamplesOfListings(st, tail);
      var rest := set s | s in st.rows && st.rows[s].runId in Ids(tail);
      assert answer[0].id !in Ids(tail) by {
        assert forall i :: 0 <= i < |tail| ==> Ids(tail)[i] == Ids(answer)[i + 1];
      }
      assert all == SamplesOf(st, answer[0].id) + rest;
      assert SamplesOf(st, answer[0].id) !! rest;
    }
  }

  /** A list of all runs names each of them. */
  lemma {:induction false} AllListed(st: State, limit: int, answer: seq<Listing>)
    requires limit < 0 && AnswersRuns(st, limit, answer)
    ensures Distinct(Ids(answer)) && forall id :: id in st.runs ==> id in Ids(answer)
    ensures forall i :: 0 <= i < |answer| ==> answer[i].samples == |SamplesOf(st, answer[i].id)|
  {
    hide SamplesOf, SuccessesOf;
    DistinctCovers(Ids(answer), st.runs.Keys);
  }

  /** Without a limit the run list accounts for every row of the table, in any valid state. */
  lemma {:induction false} ListingsCoverTable(st: State, limit: int, answer: seq<Listing>)
    requires StoreInvariants.Valid(st)
    requires limit < 0 && AnswersRuns(st, limit, answer)
    ensures SumOfSamples(answer) == |st.rows|
  {
    hide AnswersRuns, SamplesOf, SumOfSamples, Distinct;
    AllListed(st, limit, answer);
    SamplesOfListings(st, answer);
    assert forall s :: s in st.rows ==> StoreInvariants.ValidRow(st, st.rows[s]);
    assert (set s | s in st.rows && st.rows[s].runId in Ids(answer)) == st.rows.Keys;
    assert |st.rows| == |st.rows.Keys|;
  }

  // ---- The order and the limit ----

  /** At most as many as were asked for, of those there are; all of them without a limit. */
  lemma HowMany(limit: Option<int>, available: nat)
    ensures var n := RowsAsked(limit, available);
            n <= available &&
            (limit.Some? && 0 <= limit.value <= available ==> n == limit.value) &&
            (limit.None? || limit.value < 0 || limit.value > available ==> n == available)
  {
  }

  lemma KeysCounted(st: State)
    ensures |st.runs.Keys| == |st.runs|
  {
  }

  lemma {:induction false} ListedRuns(st: State, limit: int, answer: seq<Listing>)
    requires AnswersRuns(st, limit, answer)
    ensures NewestFirst(StartTimes(st), st.runs.Keys, Some(limit), Ids(answer))
    ensures forall i :: 0 <= i < |answer| ==>
              answer[i].id in st.runs && answer[i].run.startedAt == StartTimes(st)[answer[i].id]
  {
    hide SamplesOf, SuccessesOf, NewestFirst;
  }

  lemma {:induction false} NewestOrdered(time: map<string, Time>, keys: set<string>, limit: Option<int>,
                                         ids: seq<string>)
    requires keys <= time.Keys && NewestFirst(time, keys, limit, ids)
    ensures |ids| == RowsAsked(limit, |keys|)
    ensures forall i, j :: 0 <= i < j < |ids| ==>
              ids[i] in time && ids[j] in time && ids[i] != ids[j] && time[ids[i]] >= time[ids[j]]
    ensures forall i, k :: 0 <= i < |ids| && k in keys && k !in ids ==> ids[i] in time && time[ids[i]] >= time[k]
  {
    hide RowsAsked;
    assert forall i :: 0 <= i < |ids| ==> ids[i] in ids;
  }

  /** The run list: the latest started first, and none left out that is later than one listed. */
  lemma {:induction false} RunListOrder(st: State, limit: int, answer: seq<Listing>)
    requires AnswersRuns(st, limit, answer)
    ensures |answer| == if 0 <= limit <= |st.runs| then limit else |st.runs|
    ensures forall i, j :: 0 <= i < j < |answer| ==>
              answer[i].id != answer[j].id && answer[i].run.startedAt >= answer[j].run.startedAt
    ensures forall i, id :: 0 <= i < |answer| && id in st.runs && id !in Ids(answer) ==>
              answer[i].run.startedAt >= st.runs[id].startedAt
  {
    hide RowsAsked, AnswersRuns, NewestFirst;
    KeysCounted(st);
    HowMany(Some(limit), |st.runs|);
    ListedRuns(st, limit, answer);
    NewestOrdered(StartTimes(st), st.runs.Keys, Some(limit), Ids(answer));
  }

  /** The measurements: likewise, by the time their rows were created, and only those of the run that is asked for. */
  lemma {:induction false} MeasurementOrder(st: State, runId: Option<string>, limit: Option<int>, answer: seq<Record>)
    requires AnswersMeasurements(st, runId, limit, answer)
    ensures limit.Some? && 0 <= limit.value ==> |answer| <= limit.value
    ensures forall i, j :: 0 <= i < j < |answer| ==>
              answer[i].sampleId != answer[j].sampleId &&
              answer[i].row.stamps.created >= answer[j].row.stamps.created
    ensures runId.Some? && runId.value != "" ==> forall i :: 0 <= i < |answer| ==> answer[i].row.runId == runId.value
  {
    var ids := SampleIds(answer);
    assert forall i :: 0 <= i < |answer| ==>
             ids[i] == answer[i].sampleId && CreationTimes(st)[ids[i]] == answer[i].row.stamps.created;
    assert forall i :: 0 <= i < |answer| ==> ids[i] in ids;
  }
}
