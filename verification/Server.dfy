/** The TLS server's side of a probe: when it records one, and that it reports after closing. */
module Server {
  import opened Wrappers
  import opened CText
  import opened Modes
  import opened Platform
  import opened Requests
  import opened SampleIds
  import Decimal
  import Http
  import Intake
  import Messages
  import Probes
  import Store

  datatype ServerOptions = ServerOptions(mode: Mode, group: string)

  /** The server's half of a measurement. */
  function ServerHalf(ids: Ids, options: ServerOptions, session: Probes.Session, handshakeUs: int)
    : Store.ServerPayload
  {
    Store.ServerPayload(ids.sampleId, ids.runId, options.mode, options.group, Probes.Reported(session), handshakeUs)
  }

  const REQUEST_BUFFER := 2048

  method FillBuffer(buffer: array<char>, text: string)
    requires |text| < buffer.Length
    modifies buffer
    ensures '\0' in buffer[..] && UpToNul(buffer[..]) == UpToNul(text)
  {
    for i := 0 to |text|
      invariant buffer[..i] == text[..i]
    {
      buffer[i] := text[i];
    }
    buffer[|text|] := '\0';
    assert buffer[..|text|] == text;
    assert buffer[..][|text|] == '\0';
    Probes.HeldText(buffer[..], text);
  }

  /** The decision to record, made on the C string in the request buffer. */
  method DecideRecord(request: array<char>) returns (recorded: Option<Ids>)
    requires '\0' in request[..]
    ensures recorded == RecordedAs(UpToNul(request[..]))
  {
    ghost var text := UpToNul(request[..]);
    var sampleId, runId := new char[SAMPLE_BUFFER], new char[RUN_BUFFER];
    recorded := None;
    var flag := StrStr(UpToNul(request[..]), "record=1");
    if flag.None? {
      assert !Contains(text, "record=1");
      return;
    }
    assert Contains(text, "record=1");
    var found := ExtractQueryValue(request, "sample_id", sampleId);
    if !found { return; }
    ghost var sample := UpToNul(sampleId[..]);
    found := ExtractQueryValue(request, "run_id", runId);
    if !found { return; }
    recorded := Some(Ids(UpToNul(sampleId[..]), UpToNul(runId[..])));
  }

  // ---- The server's message ----

  const MESSAGE_SIZE := 1200
  const PATH := "/api/measurements/server"

  /** The message as it stands in the server's buffer. */
  function ServerMessage(p: Store.ServerPayload): string
    requires Messages.Spoken(p.negotiated) && p.handshakeUs >= 0
  {
    Printed(Messages.PrintObject(Messages.ServerMembers(p)), MESSAGE_SIZE)
  }

  /** What holds of every half the server posts for a request, when its names need no escaping. */
  predicate Reportable(p: Store.ServerPayload) {
    IsIdentifier(p.sampleId) && IsIdentifier(p.runId) && |p.expectedGroup| <= 80 && Messages.Plain(p.expectedGroup) &&
    Messages.Wordy(p.negotiated) && 0 <= p.handshakeUs < UINT64
  }

  /** Whatever the server's own parsing lets through can be reported. */
  lemma HalvesAreReportable(request: string, options: ServerOptions, session: Probes.Session, handshakeUs: int)
    requires RecordedAs(request).Some? && 0 <= handshakeUs < UINT64
    requires |options.group| <= 80 && Messages.Plain(options.group) && Messages.PlainNames(session)
    ensures Reportable(ServerHalf(RecordedAs(request).value, options, session, handshakeUs))
  {
    hide Probes.Reported, Contains;
    Messages.PlainNamesAreWordy(session);
  }

  /** The server's message is never cut off and a JSON reader recovers exactly the half, which it determines. */
  lemma {:induction false} ServerMessageReadsBack(p: Store.ServerPayload)
    requires Reportable(p)
    ensures ServerMessage(p) == Messages.PrintObject(Messages.ServerMembers(p))
    ensures Messages.ReadObject(ServerMessage(p)) == Some(Messages.ServerEntries(p))
  {
    hide Messages.Says, Messages.CommonMembers, Messages.CommonEntries, Messages.NumberEntry, AllIdentifierChars,
         Messages.PrintObject, Messages.ReadObject, Messages.Wordy;
    assert Messages.Spoken(p.negotiated) by { WordySpoken(p.negotiated); }
    Messages.SaysCommon(p.sampleId, p.runId, p.mode, p.expectedGroup, p.negotiated);
    Messages.SaysThenNumber(Messages.CommonMembers(p.sampleId, p.runId, p.mode, p.expectedGroup, p.negotiated),
                            Messages.CommonEntries(p.sampleId, p.runId, p.mode, p.expectedGroup, p.negotiated), 840,
                            "server_handshake_us", p.handshakeUs, 43);
    Messages.SaidAndRead(Messages.ServerMembers(p), Messages.ServerEntries(p), 883, MESSAGE_SIZE);
  }

  lemma WordySpoken(n: Store.Negotiated)
    ensures Messages.Wordy(n) ==> Messages.Spoken(n)
  {
  }

  /** What the dashboard's end of a connection receives of a half; a half without its names is never printed. */
  function Wire(p: Store.ServerPayload, dashboardHost: string): string {
    if Messages.Spoken(p.negotiated) && p.handshakeUs >= 0
    then Http.Message(PATH, dashboardHost, ServerMessage(p)) else ""
  }

  /** The dashboard takes this half in off a connection. */
  predicate Delivers(stream: string, p: Store.ServerPayload) {
    Http.ReceiveBody(stream).Some? && Messages.ReadObject(Http.ReceiveBody(stream).value).Some? &&
    Intake.ServerOf(Messages.ReadObject(Http.ReceiveBody(stream).value).value) == Some(p)
  }

  /** From an answered post the dashboard takes in the posted half and no other. */
  lemma {:induction false} PostDelivers(p: Store.ServerPayload, q: Store.ServerPayload, dashboardHost: string)
    requires Reportable(p) && '\r' !in dashboardHost
    ensures Delivers(Wire(p, dashboardHost), q) <==> p == q
  {
    hide PATH, Http.ReceiveBody, Http.Message, Messages.ReadObject, ServerMessage, Messages.ServerEntries, Reportable,
         Intake.ServerOf;
    PathHasNoReturn();
    ReportableIsPrinted(p);
    Http.FramingRecovers(PATH, dashboardHost, ServerMessage(p));
    ServerMessageReadsBack(p);
    Intake.ServerTakenIn(p);
  }

  lemma PathHasNoReturn()
    ensures '\r' !in PATH && ' ' !in PATH
  {
  }

  /** And the post is addressed to where the dashboard takes server reports. */
  lemma PostAddressed(p: Store.ServerPayload, dashboardHost: string)
    requires Reportable(p)
    ensures Http.ReadRequestLine(Wire(p, dashboardHost)) == Some(("POST", "/api/measurements/server", "HTTP/1.1"))
  {
    hide Http.ReadRequestLine, Http.Message, ServerMessage, Reportable;
    PathHasNoReturn();
    ReportableIsPrinted(p);
    Http.RequestLineRead(PATH, dashboardHost, ServerMessage(p));
  }

  lemma ReportableIsPrinted(p: Store.ServerPayload)
    requires Reportable(p)
    ensures Messages.Spoken(p.negotiated) && p.handshakeUs >= 0
  {
  }

  // ---- The connection handler ----

  const BODY_SIZE := 768

  /** What the server answers; its status line is the one the client looks for. */
  function Response(body: string): string {
    "HTTP/1.1 200 OK" + "\r\nContent-Type: application/json\r\nContent-Length: " + Decimal.Dec(|body|) +
    "\r\nConnection: close\r\nCache-Control: no-store\r\n\r\n" + body
  }

  /** Fifteen bytes of the response are enough for the client to take it for an answer. */
  lemma ResponseIsAnswer(body: string, n: nat)
    requires 15 <= n <= |Response(body)|
    ensures Probes.Answered(Response(body)[..n])
  {
    var text := Response(body)[..n];
    var status := "HTTP/1.1 200 OK";
    assert text[..15] == status;
    StatusHasNoNul();
    HoldsPrefix(text, status);
    assert OccursAt(UpToNul(text), status, 0);
  }

  lemma {:induction false} HoldsPrefix(text: string, prefix: string)
    requires prefix <= text && NoNul(prefix)
    ensures prefix <= UpToNul(text)
  {
    if prefix != "" {
      assert prefix[0] == text[0] && prefix[0] in prefix;
      assert forall c :: c in prefix[1..] ==> c in prefix;
      HoldsPrefix(text[1..], prefix[1..]);
      assert UpToNul(text) == [text[0]] + UpToNul(text[1..]);
      assert prefix == [prefix[0]] + prefix[1..];
    }
  }

  lemma StatusHasNoNul()
    ensures NoNul("HTTP/1.1 200 OK")
  {
  }

  /** The calls of a connection: as far as its outcomes let it come, and the request read at most once. */
  ghost predicate Handled(calls: seq<Call>, incoming: string, served: bool) {
    var n := |calls|;
    n >= 1 && (calls[0].what == NewSsl(n > 1)) &&
    (n > 1 ==> calls[1].what == What.Handshake(n > 2)) &&
    (n > 2 ==> calls[2].what == Read(incoming) && calls[n - 1].what.Shutdown?) &&
    (n > 2 ==> n == if incoming == "" then 4 else 5) &&
    (n == 5 ==> calls[3].what.Write? && exists body :: calls[3].what.text == Response(body)) &&
    (served <==> n == 5)
  }

  /** A time that covers the handshake, and nothing of the calls before and after it. */
  ghost predicate HandshakeTimed(calls: seq<Call>, us: int) {
    |calls| > 2 && calls[1].ended - calls[1].began <= us <= calls[2].began - calls[0].ended
  }

  /** The handler behind the handshake: the request, the response and the farewell. */
  method Respond(kernel: Kernel, incoming: string) returns (recorded: Option<Ids>, ghost calls: seq<Call>)
    requires kernel.Valid() && |incoming| < 2048
    modifies kernel`now, kernel`calls, kernel`bytesIn, kernel`bytesOut
    ensures kernel.Valid() && old(kernel.now) <= kernel.now
    ensures recorded == if incoming == "" then None else RecordedAs(UpToNul(incoming))
    ensures kernel.calls == old(kernel.calls) + calls
    ensures |calls| == (if incoming == "" then 2 else 3) && old(kernel.now) <= calls[0].began
    ensures calls[0].what == Read(incoming) && calls[|calls| - 1].what.Shutdown?
    ensures incoming != "" ==> calls[1].what.Write? && exists body :: calls[1].what.text == Response(body)
  {
    hide RecordedAs, UpToNul, Response;
    recorded := None;
    ghost var request, write, farewell;
    request := kernel.SslRead(incoming);
    if incoming == "" {
      farewell := kernel.SslShutdown();
      calls := [request, farewell];
      return;
    }
    var buffer := new char[REQUEST_BUFFER];
    FillBuffer(buffer, incoming);
    recorded := DecideRecord(buffer);
    var body: string := *;
    var response := Response(Printed(body, BODY_SIZE));
    var written;
    written, write := kernel.SslWrite(response);
    farewell := kernel.SslShutdown();
    calls := [request, write, farewell];
  }

  /** `handle_connection` up to its report: what the connection asked for, and its release. */
  method Serve(kernel: Kernel, connection: int, options: ServerOptions, session: Probes.Session, incoming: string)
    returns (half: Option<Store.ServerPayload>, served: bool, ghost calls: seq<Call>)
    requires kernel.Valid() && connection in kernel.open && |incoming| < 2048
    modifies kernel`open, kernel`ssl, kernel`now, kernel`calls, kernel`bytesIn, kernel`bytesOut
    ensures kernel.Valid() && kernel.open == old(kernel.open) - {connection} && kernel.ssl == old(kernel.ssl)
    ensures half.Some? <==> served && RecordedAs(UpToNul(incoming)).Some?
    ensures half.Some? ==>
              0 <= half.value.handshakeUs < UINT64 &&
              half.value == ServerHalf(RecordedAs(UpToNul(incoming)).value, options, session, half.value.handshakeUs) &&
              HandshakeTimed(calls, half.value.handshakeUs)
    ensures kernel.calls == old(kernel.calls) + calls && Handled(calls, incoming, served)
  {
    hide RecordedAs, UpToNul, Probes.Reported, Response;
    half, served := None, false;
    ghost var made, shake, more;
    var ssl;
    ssl, made := kernel.SslNew();
    if ssl < 0 {
      kernel.Close(connection);
      calls := [made];
      return;
    }
    var started := kernel.Now();
    var accepted;
    accepted, shake := kernel.Handshake();
    if !accepted {
      kernel.SslFree(ssl);
      kernel.Close(connection);
      calls := [made, shake];
      return;
    }
    var completed := kernel.Now();
    var handshakeUs := Minus(completed, started);
    Probes.MinusIs(completed, started);
    var recorded;
    recorded, more := Respond(kernel, incoming);
    kernel.SslFree(ssl);
    kernel.Close(connection);
    calls := [made, shake] + more;
    served := incoming != "";
    if recorded.Some? {
      half := Some(ServerHalf(recorded.value, options, session, handshakeUs));
    }
  }

  /**
   `handle_connection`: the connection and its SSL object are released exactly once on every path.
   It is served exactly when the handshake succeeded and a request was read, and a half is posted
   exactly when that asks for it. When the socket that carries the half is opened the connection and
   its SSL object are no longer held. `incoming` is what SSL_read would put into the request buffer.
   */
  method HandleConnection(kernel: Kernel, connection: int, options: ServerOptions, session: Probes.Session,
                          incoming: string, candidates: int, dashboardHost: string)
    returns (post: Option<Store.ServerPayload>, served: bool, answered: bool, ghost fd: int, ghost calls: seq<Call>,
             ghost x: Http.Exchange)
    requires kernel.Valid() && connection in kernel.open && |incoming| < 2048
    modifies kernel
    ensures kernel.Valid() && kernel.open == old(kernel.open) - {connection} && kernel.ssl == old(kernel.ssl)
    ensures post.Some? <==> served && RecordedAs(UpToNul(incoming)).Some?
    ensures post.Some? ==>
              0 <= post.value.handshakeUs < UINT64 &&
              post.value == ServerHalf(RecordedAs(UpToNul(incoming)).value, options, session, post.value.handshakeUs) &&
              HandshakeTimed(calls, post.value.handshakeUs)
    ensures kernel.calls == old(kernel.calls) + calls + x.dial + x.sends + x.wait && Handled(calls, incoming, served)
    ensures post.None? ==> fd < 0 && kernel.sent == old(kernel.sent) && kernel.resolved == old(kernel.resolved)
    ensures post.Some? ==> kernel.resolved == old(kernel.resolved) + [dashboardHost]
    ensures fd >= 0 ==>
              post.Some? && fd in kernel.sent && fd in kernel.heldAt &&
              kernel.heldAt[fd] == Held(old(kernel.open) - {connection}, old(kernel.ssl)) &&
              kernel.sent[fd] <= Wire(post.value, dashboardHost)
    ensures Http.Answers(x.wait,
              fd >= 0 && kernel.sent[fd] == Wire(post.value, dashboardHost),
              if answered then 0 else -1)
  {
    hide RecordedAs, UpToNul, Http.Message, ServerMessage, Probes.NegotiatedGroup, Handled, Http.Accepts,
         HandshakeTimed;
    answered, fd, x := false, -1, Http.Exchange([], [], []);
    post, served, calls := Serve(kernel, connection, options, session, incoming);
    if post.Some? {
      var status;
      status, fd, x := Http.PostJson(kernel, candidates, dashboardHost, PATH, ServerMessage(post.value));
      answered := status == 0;
    }
  }
}
