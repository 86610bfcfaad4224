/** The benchmark client's run: warm-ups, the rotating measured probes and what it reports of them. */
module Benchmark {
  import opened Wrappers
  import opened CText
  import opened Modes
  import opened Platform
  import opened SampleIds
  import opened Schedule
  import opened Probes
  import Http
  import Intake
  import Messages
  import Requests
  import Store

  datatype Options = Options(
    runId: string, iterations: nat, warmup: nat, endpoints: seq<Endpoint>, dashboardHost: string)

  /** What `parse_options` lets through, with the three endpoints in their fixed order. */
  predicate ValidOptions(o: Options) {
    IsIdentifier(o.runId) && 1 <= o.iterations <= 1_000_000 && o.warmup <= 100_000 &&
    |o.endpoints| == 3 && forall slot :: 0 <= slot < 3 ==> o.endpoints[slot].mode == MODES[slot]
  }

  /** The limits that `parse_options` checks last. */
  method AcceptOptions(runId: string, iterations: int, warmup: int) returns (accepted: bool)
    ensures accepted <==>
            1 <= |runId| <= 160 && AllIdentifierChars(runId) && 0 < iterations <= 1000000 && 0 <= warmup <= 100000
  {
    var identifier := ValidIdentifier(runId);
    if iterations < 1 || iterations > 1000000 || warmup < 0 || warmup > 100000 || !identifier { return false; }
    return true;
  }

  /** The k-th measured probe of the run, counting from 0. */
  function SlotAt(k: nat): nat { Slot(k / 3 + 1, k % 3) }

  function KeyAt(o: Options, k: nat): ProbeKey
  {
    ProbeKey(o.runId, MODES[SlotAt(k)], k / 3 + 1)
  }

  function EndpointAt(o: Options, k: nat): Endpoint
    requires ValidOptions(o)
  {
    o.endpoints[SlotAt(k)]
  }

  /** A measured probe: what the TLS ends saw, and what the client made of it. */
  datatype Outcome = Outcome(session: Session, attempt: Attempt)

  /** What `Probe` promises of a measured probe. */
  predicate Genuine(o: Options, k: nat, outcome: Outcome)
    requires ValidOptions(o)
  {
    var a := outcome.attempt;
    Timed(a.times, a.exit) && Sized(a) &&
    a.request == (if Asked(a.exit)
                  then Some(Requests.ProbeRequest(KeyAt(o, k), true, EndpointAt(o, k).host)) else None) &&
    a.negotiated == if Handshaken(a.exit) then Reported(outcome.session)
                    else Store.Negotiated(Some(""), Some(""), Some(""))
  }

  /** The half the client posts for its k-th measured probe. */
  function HalfAt(o: Options, k: nat, outcome: Outcome): Store.ClientPayload
    requires ValidOptions(o)
  {
    HalfOf(KeyAt(o, k), EndpointAt(o, k), outcome.attempt)
  }

  function Failures(outcomes: seq<Outcome>): nat {
    if outcomes == [] then 0
    else Failures(outcomes[..|outcomes| - 1]) + if outcomes[|outcomes| - 1].attempt.exit.Done? then 0 else 1
  }

  lemma {:induction false} FailuresAppend(outcomes: seq<Outcome>, outcome: Outcome)
    ensures Failures(outcomes + [outcome]) == Failures(outcomes) + if outcome.attempt.exit.Done? then 0 else 1
  {
    assert (outcomes + [outcome])[..|outcomes|] == outcomes;
  }

  // ---- Reporting ----

  const PATH := "/api/measurements/client"

  /** What the dashboard's end of a connection receives of a client's post. */
  function Wire(dashboardHost: string, key: ProbeKey, endpoint: Endpoint, a: Attempt): string
    requires Timed(a.times, a.exit) && Messages.Spoken(a.negotiated)
  {
    Http.Message(PATH, dashboardHost, Messages.ClientMessage(key, endpoint, a))
  }

  /** `record_client`: no socket stays open, and the post is answered for what it is. */
  method RecordClient(kernel: Kernel, candidates: int, dashboardHost: string,
                      key: ProbeKey, endpoint: Endpoint, a: Attempt)
    returns (status: int, ghost fd: int, ghost x: Http.Exchange)
    requires kernel.Valid() && Timed(a.times, a.exit) && Messages.Spoken(a.negotiated)
    modifies kernel`open, kernel`sent, kernel`heldAt, kernel`now, kernel`calls, kernel`resolved
    ensures kernel.Valid() && kernel.open == old(kernel.open)
    ensures kernel.calls == old(kernel.calls) + x.dial + x.sends + x.wait
    ensures kernel.resolved == old(kernel.resolved) + [dashboardHost]
    ensures fd >= 0 ==> fd in kernel.sent
    ensures Http.Answers(x.wait, fd >= 0 && kernel.sent[fd] == Wire(dashboardHost, key, endpoint, a), status)
  {
    hide Http.Message, Messages.ClientMessage, Http.Accepts, Http.Header;
    status, fd, x :=
      Http.PostJson(kernel, candidates, dashboardHost, PATH, Messages.ClientMessage(key, endpoint, a));
  }

  /** The dashboard takes this half in off a connection. */
  predicate Delivers(stream: string, p: Store.ClientPayload) {
    Http.ReceiveBody(stream).Some? && Messages.ReadObject(Http.ReceiveBody(stream).value).Some? &&
    Intake.ClientOf(Messages.ReadObject(Http.ReceiveBody(stream).value).value) == Some(p)
  }

  /** What the dashboard receives of the k-th measured probe when it answers the post. */
  function WireAt(o: Options, k: nat, outcome: Outcome): string
    requires ValidOptions(o) && Genuine(o, k, outcome)
  {
    Wire(o.dashboardHost, KeyAt(o, k), EndpointAt(o, k), outcome.attempt)
  }

  /** Every genuine attempt of a run can be reported when the names involved need no escaping. */
  lemma GenuineIsReportable(o: Options, k: nat, outcome: Outcome)
    requires ValidOptions(o) && k < 3 * o.iterations && Genuine(o, k, outcome)
    requires Messages.PlainGroup(EndpointAt(o, k)) && Messages.PlainNames(outcome.session)
    ensures Messages.Reportable(KeyAt(o, k), EndpointAt(o, k), outcome.attempt)
  {
    hide Reported, Timed, Sized, Messages.Wordy, Requests.ProbeRequest, Messages.PlainGroup, IsIdentifier;
    Messages.PlainNamesAreWordy(outcome.session);
  }

  lemma CountableHalf(o: Options, k: nat, outcome: Outcome)
    requires ValidOptions(o) && Genuine(o, k, outcome)
    ensures Messages.CountableTiming(HalfAt(o, k, outcome).timing)
  {
    hide Reported, Requests.ProbeRequest;
    SpansAreTrue(outcome.attempt.times, outcome.attempt.exit);
  }

  lemma PathHasNoReturn()
    ensures '\r' !in PATH && ' ' !in PATH
  {
  }

  /** The post is addressed to where the dashboard takes client reports. */
  lemma WireAddressed(dashboardHost: string, key: ProbeKey, endpoint: Endpoint, a: Attempt)
    requires Timed(a.times, a.exit) && Messages.Spoken(a.negotiated)
    ensures Http.ReadRequestLine(Wire(dashboardHost, key, endpoint, a)) ==
            Some(("POST", "/api/measurements/client", "HTTP/1.1"))
  {
    hide Http.ReadRequestLine, Http.Message, Messages.ClientMessage;
    PathHasNoReturn();
    Http.RequestLineRead(PATH, dashboardHost, Messages.ClientMessage(key, endpoint, a));
  }

  lemma {:induction false} WireReads(dashboardHost: string, key: ProbeKey, endpoint: Endpoint, a: Attempt)
    requires Messages.Reportable(key, endpoint, a) && '\r' !in dashboardHost
    ensures Http.ReceiveBody(Wire(dashboardHost, key, endpoint, a)).Some?
    ensures Messages.ReadObject(Http.ReceiveBody(Wire(dashboardHost, key, endpoint, a)).value) ==
            Some(Messages.ClientEntries(HalfOf(key, endpoint, a)))
  {
    hide PATH, Http.ReceiveBody, Http.Message, Messages.ReadObject, Messages.ClientEntries, Messages.ClientMessage,
         HalfOf, Timed, Sized, ClientKey, Messages.PlainGroup, Messages.Plain;
    PathHasNoReturn();
    Messages.ClientMessageReadsBack(key, endpoint, a);
    Http.FramingRecovers(PATH, dashboardHost, Messages.ClientMessage(key, endpoint, a));
  }

  /** From an answered post the dashboard takes in exactly the half that the probe reported, and no other. */
  lemma {:induction false} WireDelivers(o: Options, k: nat, outcome: Outcome, p: Store.ClientPayload)
    requires ValidOptions(o) && k < 3 * o.iterations && Genuine(o, k, outcome) && '\r' !in o.dashboardHost
    requires Messages.PlainGroup(EndpointAt(o, k)) && Messages.PlainNames(outcome.session)
    ensures Delivers(WireAt(o, k, outcome), p) <==> p == HalfAt(o, k, outcome)
  {
    hide Http.ReceiveBody, Messages.ReadObject, Messages.ClientEntries, Messages.Reportable, Wire, Intake.ClientOf,
         Messages.CountableTiming, HalfOf, Genuine, KeyAt, EndpointAt, Messages.PlainGroup, Messages.PlainNames;
    GenuineIsReportable(o, k, outcome);
    GenuineIsPrinted(o, k, outcome);
    CountableHalf(o, k, outcome);
    WireReads(o.dashboardHost, KeyAt(o, k), EndpointAt(o, k), outcome.attempt);
    Intake.ClientTakenIn(HalfAt(o, k, outcome));
  }

  lemma GenuineIsPrinted(o: Options, k: nat, outcome: Outcome)
    requires ValidOptions(o) && Genuine(o, k, outcome)
    ensures Timed(outcome.attempt.times, outcome.attempt.exit) && Messages.Spoken(outcome.attempt.negotiated)
  {
  }

  // ---- The calls of `probe` ----

  /**
   One call of `probe` with a fresh connection; the network's part is not determined. `wire` is what
   the dashboard received, if the post was answered.
   */
  method ProbeOnce(kernel: Kernel, endpoint: Endpoint, key: ProbeKey, record: bool, dashboardHost: string)
    returns (status: int, post: Option<Store.ClientPayload>, outcome: Outcome, ghost wire: Option<string>)
    requires kernel.Valid()
    modifies kernel
    ensures kernel.Valid() && kernel.open == old(kernel.open) && kernel.ssl == old(kernel.ssl)
    ensures Timed(outcome.attempt.times, outcome.attempt.exit) && Sized(outcome.attempt)
    ensures status == 0 <==> outcome.attempt.exit.Done?
    ensures outcome.attempt.request ==
            if Asked(outcome.attempt.exit) then Some(Requests.ProbeRequest(key, record, endpoint.host)) else None
    ensures outcome.attempt.negotiated ==
            if Handshaken(outcome.attempt.exit) then Reported(outcome.session) else NOTHING_REPORTED
    ensures post == if record then Some(HalfOf(key, endpoint, outcome.attempt)) else None
    ensures Messages.Spoken(outcome.attempt.negotiated)
    ensures !record ==> Silent(old(kernel.sent), kernel.sent)
    ensures wire.Some? ==> record && wire.value == Wire(dashboardHost, key, endpoint, outcome.attempt)
    ensures kernel.resolved == old(kernel.resolved) + [endpoint.host] + if record then [dashboardHost] else []
  {
    hide Timed, Sized, Requests.ProbeRequest, HalfOf, Wire, NegotiatedGroup, Answered, TimesFirst, Silent, Ran, Clocked,
         CallsOf, Explained, Judged, Http.Accepts;
    var candidates: int := *;
    var session: Session := *;
    var answer: string := *;
    var stream := new TlsStream(answer);
    var a;
    ghost var delivered, course;
    status, post, a, delivered, course := Probe(kernel, endpoint, key, record, candidates, session, stream);
    outcome, wire := Outcome(session, a), None;
    if record {
      var found: int := *;
      ghost var fd, x;
      var taken;
      taken, fd, x := RecordClient(kernel, found, dashboardHost, key, endpoint, a);
      if taken == 0 { wire := Some(kernel.sent[fd]); }
    }
  }

  /** What a call to `probe` adds to the posts. */
  function Posted(post: Option<Store.ClientPayload>): seq<Store.ClientPayload> {
    if post.Some? then [post.value] else []
  }

  /** The endpoints in their fixed order. */
  function RoundHosts(o: Options): seq<string>
    requires ValidOptions(o)
  {
    [o.endpoints[0].host, o.endpoints[1].host, o.endpoints[2].host]
  }

  /** The hosts that n rounds of warm-ups look up. */
  function WarmupHosts(o: Options, n: nat): seq<string>
    requires ValidOptions(o)
  {
    if n == 0 then [] else WarmupHosts(o, n - 1) + RoundHosts(o)
  }

  /** And those of n measured probes with their reports. */
  function MeasuredHosts(o: Options, n: nat): seq<string>
    requires ValidOptions(o)
  {
    if n == 0 then [] else MeasuredHosts(o, n - 1) + [EndpointAt(o, n - 1).host, o.dashboardHost]
  }

  /**
   The warm-up probes: every endpoint once in each round, in their fixed order. Nothing is reported
   of them, to the caller or over any socket.
   */
  method Warmup(kernel: Kernel, o: Options) returns (posts: seq<Store.ClientPayload>)
    requires kernel.Valid() && ValidOptions(o)
    modifies kernel
    ensures kernel.Valid() && kernel.open == old(kernel.open) && kernel.ssl == old(kernel.ssl)
    ensures posts == [] && Silent(old(kernel.sent), kernel.sent)
    ensures kernel.resolved == old(kernel.resolved) + WarmupHosts(o, o.warmup)
  {
    hide Timed, Sized, Reported, Requests.ProbeRequest, Wire, Messages.Spoken, Silent, RoundHosts;
    posts := [];
    SilentAtFirst(kernel.sent);
    for index := 1 to o.warmup + 1
      invariant kernel.Valid() && kernel.open == old(kernel.open) && kernel.ssl == old(kernel.ssl)
      invariant posts == [] && Silent(old(kernel.sent), kernel.sent)
      invariant kernel.resolved == old(kernel.resolved) + WarmupHosts(o, index - 1)
    {
      ghost var looked := kernel.resolved;
      ThreeHosts(o);
      for g := 0 to 3
        invariant kernel.Valid() && kernel.open == old(kernel.open) && kernel.ssl == old(kernel.ssl)
        invariant posts == [] && Silent(old(kernel.sent), kernel.sent)
        invariant kernel.resolved == looked + RoundHosts(o)[..g]
      {
        var key := ProbeKey(o.runId, o.endpoints[g].mode, index);
        ghost var before := kernel.sent;
        var status, post, outcome, wire := ProbeOnce(kernel, o.endpoints[g], key, false, o.dashboardHost);
        SilentThroughout(old(kernel.sent), before, kernel.sent);
        assert RoundHosts(o)[..g + 1] == RoundHosts(o)[..g] + [RoundHosts(o)[g]];
        posts := posts + Posted(post);
      }
      assert RoundHosts(o)[..3] == RoundHosts(o);
    }
  }

  lemma ThreeHosts(o: Options)
    requires ValidOptions(o)
    ensures |RoundHosts(o)| == 3 && forall g :: 0 <= g < 3 ==> RoundHosts(o)[g] == o.endpoints[g].host
  {
  }

  lemma PlaceOf(index: nat, g: nat)
    requires index >= 1 && g < 3
    ensures (3 * (index - 1) + g) / 3 + 1 == index && (3 * (index - 1) + g) % 3 == g
    ensures SlotAt(3 * (index - 1) + g) == Slot(index, g)
  {
  }

  lemma SlotInRange(index: nat, g: nat)
    requires index >= 1
    ensures Slot(index, g) == ((index - 1) % 3 + g) % 3 && Slot(index, g) < 3
  {
  }

  method Measure(kernel: Kernel, o: Options, index: nat, g: nat, ghost k: nat)
    returns (status: int, post: Option<Store.ClientPayload>, outcome: Outcome, ghost wire: Option<string>)
    requires kernel.Valid() && ValidOptions(o) && index >= 1 && g < 3 && k == 3 * (index - 1) + g
    modifies kernel
    ensures kernel.Valid() && kernel.open == old(kernel.open) && kernel.ssl == old(kernel.ssl)
    ensures status == 0 <==> outcome.attempt.exit.Done?
    ensures Genuine(o, k, outcome) && post == Some(HalfAt(o, k, outcome))
    ensures wire.Some? ==> wire.value == WireAt(o, k, outcome)
    ensures kernel.resolved == old(kernel.resolved) + [EndpointAt(o, k).host, o.dashboardHost]
  {
    hide Timed, Sized, Reported, Requests.ProbeRequest, HalfOf, Wire, Messages.Spoken, Slot, SlotAt;
    var start := (index - 1) % 3;
    var slot := (start + g) % 3;
    SlotInRange(index, g);
    PlaceOf(index, g);
    var key := ProbeKey(o.runId, o.endpoints[slot].mode, index);
    assert key == KeyAt(o, k);
    status, post, outcome, wire := ProbeOnce(kernel, o.endpoints[slot], key, true, o.dashboardHost);
  }

  /** The measured probes so far and what was posted of them. */
  predicate Measured(o: Options, outcomes: seq<Outcome>, posts: seq<Store.ClientPayload>)
    requires ValidOptions(o)
  {
    |posts| == |outcomes| &&
    forall k :: 0 <= k < |outcomes| ==> Genuine(o, k, outcomes[k]) && posts[k] == HalfAt(o, k, outcomes[k])
  }

  lemma {:induction false} MeasuredAppend(o: Options, outcomes: seq<Outcome>, posts: seq<Store.ClientPayload>,
                                          outcome: Outcome)
    requires ValidOptions(o) && Measured(o, outcomes, posts) && Genuine(o, |outcomes|, outcome)
    ensures Measured(o, outcomes + [outcome], posts + Posted(Some(HalfAt(o, |outcomes|, outcome))))
  {
    hide Genuine, HalfAt;
  }

  /** What of the posts was answered, and with which byte stream at the dashboard's end. */
  ghost predicate Wired(o: Options, outcomes: seq<Outcome>, wires: seq<Option<string>>)
    requires ValidOptions(o)
  {
    |wires| == |outcomes| &&
    forall k :: 0 <= k < |outcomes| && wires[k].Some? ==>
      Genuine(o, k, outcomes[k]) && wires[k].value == WireAt(o, k, outcomes[k])
  }

  lemma {:induction false} WiredAppend(o: Options, outcomes: seq<Outcome>, wires: seq<Option<string>>,
                                       outcome: Outcome, wire: Option<string>)
    requires ValidOptions(o) && Wired(o, outcomes, wires) && Genuine(o, |outcomes|, outcome)
    requires wire.Some? ==> wire.value == WireAt(o, |outcomes|, outcome)
    ensures Wired(o, outcomes + [outcome], wires + [wire])
  {
    hide Genuine, WireAt;
  }

  /**
   The probes of `main`: the warm-ups post nothing, the measured ones run in the rotating order and
   post one half each, in that order, and the failures are those that did not return 0. `wires` holds
   what the dashboard received of each answered post.
   */
  method RunProbes(kernel: Kernel, o: Options)
    returns (outcomes: seq<Outcome>, posts: seq<Store.ClientPayload>, failures: nat,
             ghost wires: seq<Option<string>>)
    requires kernel.Valid() && ValidOptions(o)
    modifies kernel
    ensures kernel.Valid() && kernel.open == old(kernel.open) && kernel.ssl == old(kernel.ssl)
    ensures |outcomes| == 3 * o.iterations && Measured(o, outcomes, posts)
    ensures failures == Failures(outcomes) && Wired(o, outcomes, wires)
    ensures kernel.resolved ==
            old(kernel.resolved) + WarmupHosts(o, o.warmup) + MeasuredHosts(o, 3 * o.iterations)
  {
    hide Genuine, HalfAt, WireAt, Measured, Wired, Posted, Silent, EndpointAt;
    posts := Warmup(kernel, o);
    ghost var warm := kernel.resolved;
    outcomes, failures, wires := [], 0, [];
    NothingMeasured(o);
    for index := 1 to o.iterations + 1
      invariant kernel.Valid() && kernel.open == old(kernel.open) && kernel.ssl == old(kernel.ssl)
      invariant |outcomes| == 3 * (index - 1) && Measured(o, outcomes, posts)
      invariant failures == Failures(outcomes) && Wired(o, outcomes, wires)
      invariant kernel.resolved == warm + MeasuredHosts(o, |outcomes|)
    {
      for g := 0 to 3
        invariant kernel.Valid() && kernel.open == old(kernel.open) && kernel.ssl == old(kernel.ssl)
        invariant |outcomes| == 3 * (index - 1) + g && Measured(o, outcomes, posts)
        invariant failures == Failures(outcomes) && Wired(o, outcomes, wires)
        invariant kernel.resolved == warm + MeasuredHosts(o, |outcomes|)
      {
        var status, post, outcome, wire := Measure(kernel, o, index, g, |outcomes|);
        if status != 0 { failures := failures + 1; }
        FailuresAppend(outcomes, outcome);
        MeasuredAppend(o, outcomes, posts, outcome);
        WiredAppend(o, outcomes, wires, outcome, wire);
        outcomes, wires := outcomes + [outcome], wires + [wire];
        posts := posts + Posted(post);
      }
    }
  }

  lemma NothingMeasured(o: Options)
    requires ValidOptions(o)
    ensures Measured(o, [], []) && Failures([]) == 0 && Wired(o, [], [])
  {
  }

  // ---- The whole client ----

  /** The creation request as it reaches the dashboard. */
  function RunWire(o: Options, version: string): string {
    Http.Message("/api/runs", o.dashboardHost, Messages.RunMessage(o.runId, version, o.iterations, o.warmup))
  }

  /** The dashboard takes in this run off a connection. */
  predicate DeliversRun(stream: string, p: Store.RunPayload) {
    Http.ReceiveBody(stream).Some? && Messages.ReadObject(Http.ReceiveBody(stream).value).Some? &&
    Intake.RunOf(Messages.ReadObject(Http.ReceiveBody(stream).value).value) == Some(p)
  }

  /** The run that the dashboard is asked to create is the one the options describe. */
  lemma {:induction false} RunDelivers(o: Options, version: string, p: Store.RunPayload)
    requires ValidOptions(o) && NoNul(version) && '\r' !in o.dashboardHost
    ensures DeliversRun(RunWire(o, version), p) <==> p == Messages.RunOf(o.runId, version, o.iterations, o.warmup)
  {
    hide Http.ReceiveBody, Http.Message, Messages.ReadObject, Messages.RunMessage, Messages.RunEntries, Intake.RunOf,
         Messages.VersionKept, Messages.NOTES;
    assert '\r' !in "/api/runs";
    var json := Messages.RunMessage(o.runId, version, o.iterations, o.warmup);
    Messages.RunMessageReadsBack(o.runId, version, o.iterations, o.warmup);
    Http.FramingRecovers("/api/runs", o.dashboardHost, json);
    Intake.RunTakenIn(Messages.RunOf(o.runId, version, o.iterations, o.warmup));
  }

  /**
   `main` behind its options: without the three TLS contexts, or when the run could not be created,
   it probes nothing and returns 1; otherwise it runs all probes, asks for the completion of the run,
   and returns 0 exactly when none of them failed.
   */
  method RunBenchmark(kernel: Kernel, o: Options, contexts: bool, version: CString)
    returns (code: int, outcomes: seq<Outcome>, posts: seq<Store.ClientPayload>, ghost wires: seq<Option<string>>,
             ghost stream: string, ghost x: Http.Exchange)
    requires kernel.Valid() && ValidOptions(o)
    modifies kernel
    ensures kernel.Valid() && kernel.open == old(kernel.open) && kernel.ssl == old(kernel.ssl)
    ensures contexts && Created(x) ==> stream == RunWire(o, version)
    ensures !contexts ==> code == 1 && outcomes == [] && kernel.resolved == old(kernel.resolved)
    ensures contexts && !Created(x) ==>
              code == 1 && outcomes == [] && kernel.resolved == old(kernel.resolved) + [o.dashboardHost]
    ensures contexts && Created(x) ==>
              |outcomes| == 3 * o.iterations && Measured(o, outcomes, posts) && Wired(o, outcomes, wires) &&
              code == (if Failures(outcomes) == 0 then 0 else 1) &&
              kernel.resolved == old(kernel.resolved) + [o.dashboardHost] + WarmupHosts(o, o.warmup) +
                                 MeasuredHosts(o, 3 * o.iterations) + [o.dashboardHost]
  {
    hide Measured, Wired, Http.Accepts, Http.Message, Failures, WarmupHosts, MeasuredHosts, Http.Header;
    outcomes, posts, wires, stream, x := [], [], [], "", Http.Exchange([], [], []);
    if !contexts { return 1, outcomes, posts, wires, stream, x; }
    var candidates: int := *;
    var status;
    ghost var fd;
    status, fd, x := Http.PostJson(kernel, candidates, o.dashboardHost, "/api/runs",
                                   Messages.RunMessage(o.runId, version, o.iterations, o.warmup));
    if fd >= 0 { stream := kernel.sent[fd]; }
    if status != 0 { return 1, outcomes, posts, wires, stream, x; }
    var failures;
    outcomes, posts, failures, wires := RunProbes(kernel, o);
    candidates := *;
    ghost var fd', x';
    status, fd', x' :=
      Http.PostJson(kernel, candidates, o.dashboardHost, Printed("/api/runs/" + o.runId + "/complete", 300), "{}");
    code := if failures == 0 then 0 else 1;
  }

  /** The creation request was answered, and taken. */
  predicate Created(x: Http.Exchange) {
    |x.wait| == 1 && x.wait[0].what.Receive? && Http.Accepts(x.wait[0].what.answer)
  }
}
