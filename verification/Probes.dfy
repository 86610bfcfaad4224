/**
 One probe of the benchmark client: its exits, its clock readings, the response it chunks and the
 half of the measurement it reports.
 */
module Probes {
  import opened Wrappers
  import opened CText
  import opened Modes
  import opened Platform
  import opened SampleIds
  import Decimal
  import Requests
  import Json
  import Store

  datatype Endpoint = Endpoint(host: string, group: CString, mode: Mode)

  // ---- Reading the response ----

  const RESPONSE_SIZE := 4096

  /** The decrypted bytes the peer will still deliver, in whatever pieces. */
  class TlsStream {
    var pending: string
    var ended: bool
    /** The clock when each chunk so far was delivered. */
    ghost var arrivals: seq<int>

    /** Nothing has been read yet. */
    ghost predicate Unread()
      reads this
    {
      !ended && arrivals == []
    }

    constructor (pending: string)
      ensures this.pending == pending && Unread()
    {
      this.pending, ended, arrivals := pending, false, [];
    }

    /** `SSL_read`: after a while some of the pending bytes, at most as many as asked for, or the end. */
    method Read(kernel: Kernel, buffer: array<char>, offset: nat, count: int) returns (result: int, ghost call: Call)
      requires kernel.Valid() && 1 <= count && offset + count <= buffer.Length
      modifies this, buffer, kernel`now, kernel`calls, kernel`bytesIn, kernel`bytesOut
      ensures kernel.calls == old(kernel.calls) + [call]
      ensures old(kernel.now) <= call.began <= call.ended == kernel.now && call.what.Read?
      ensures kernel.Valid() && old(kernel.now) <= kernel.now && result <= count
      ensures result <= 0 ==> ended && pending == old(pending) && buffer[..] == old(buffer[..])
      ensures result > 0 ==> ended == old(ended) && result <= |old(pending)|
      ensures result > 0 ==> pending == old(pending)[result..]
      ensures arrivals == if result > 0 then old(arrivals) + [kernel.now] else old(arrivals)
      ensures result > 0 ==> buffer[..offset + result] == old(buffer[..offset]) + old(pending)[..result]
    {
      result := *;
      if result > count { result := count; }
      if result > |pending| { result := |pending|; }
      call := kernel.SslRead(if result > 0 then pending[..result] else "");
      if result <= 0 {
        ended := true;
        return;
      }
      for i := 0 to result
        modifies buffer
        invariant buffer[..offset + i] == old(buffer[..offset]) + pending[..i]
      {
        buffer[offset + i] := pending[i];
      }
      pending, arrivals := pending[result..], arrivals + [kernel.now];
    }
  }

  /** A reading taken between the first chunk and any later one, or 0 when there was none. */
  predicate TimesFirst(arrivals: seq<int>, reading: int) {
    (reading == 0 <==> arrivals == []) &&
    (arrivals != [] ==> arrivals[0] <= reading) &&
    forall i :: 1 <= i < |arrivals| ==> reading <= arrivals[i]
  }

  ghost predicate AllReads(calls: seq<Call>) {
    forall i :: 0 <= i < |calls| ==> calls[i].what.Read?
  }

  lemma NothingRead(now: int)
    ensures AllReads([]) && During([], now, now)
  {
  }

  lemma OneMoreRead(chunks: seq<Call>, call: Call, from: int, middle: int, to: int)
    requires AllReads(chunks) && During(chunks, from, middle) && call.what.Read?
    requires from <= middle <= call.began <= call.ended <= to
    ensures AllReads(chunks + [call]) && During(chunks + [call], from, to)
  {
  }

  lemma NothingTimed()
    ensures TimesFirst([], 0)
  {
  }

  lemma FirstTimed(arrival: int, reading: int)
    requires 0 < arrival <= reading
    ensures TimesFirst([arrival], reading)
  {
  }

  lemma LaterUntimed(arrivals: seq<int>, reading: int, arrival: int)
    requires TimesFirst(arrivals, reading) && arrivals != [] && reading <= arrival
    ensures TimesFirst(arrivals + [arrival], reading)
  {
    assert forall i :: 0 <= i < |arrivals| ==> (arrivals + [arrival])[i] == arrivals[i];
  }

  lemma TimedOnce(arrivals: seq<int>, reading: int)
    requires TimesFirst(arrivals, reading)
    ensures reading == 0 <==> arrivals == []
  {
  }

  /** One turn of the read loop: a read, and the clock when its chunk is the first. */
  method ReadOnce(stream: TlsStream, kernel: Kernel, response: array<char>, offset: nat, firstByte: int)
    returns (result: int, reading: int, ghost call: Call)
    requires kernel.Valid() && offset < RESPONSE_SIZE - 1 && response.Length == RESPONSE_SIZE && !stream.ended
    requires TimesFirst(stream.arrivals, firstByte) && firstByte <= kernel.now
    modifies stream, response, kernel`now, kernel`calls, kernel`bytesIn, kernel`bytesOut
    ensures kernel.Valid() && old(kernel.now) <= kernel.now && result <= RESPONSE_SIZE - 1 - offset
    ensures kernel.calls == old(kernel.calls) + [call] && call.what.Read?
    ensures old(kernel.now) <= call.began <= call.ended <= kernel.now
    ensures result <= 0 ==> stream.ended && stream.pending == old(stream.pending) && reading == firstByte
    ensures result <= 0 ==> response[..] == old(response[..])
    ensures result > 0 ==> !stream.ended && result <= |old(stream.pending)|
    ensures result > 0 ==> stream.pending == old(stream.pending)[result..]
    ensures result > 0 ==> response[..offset + result] == old(response[..offset]) + old(stream.pending)[..result]
    ensures TimesFirst(stream.arrivals, reading) && reading <= kernel.now
    ensures result > 0 ==> reading != 0 && (if firstByte == 0 then old(kernel.now) <= reading else reading == firstByte)
  {
    hide TimesFirst;
    reading := firstByte;
    ghost var earlier := stream.arrivals;
    TimedOnce(earlier, firstByte);
    result, call := stream.Read(kernel, response, offset, RESPONSE_SIZE - offset - 1);
    if result <= 0 { return; }
    if reading == 0 {
      ghost var arrival := kernel.now;
      reading := kernel.Now();
      FirstTimed(arrival, reading);
      assert earlier + [arrival] == [arrival];
    } else {
      LaterUntimed(earlier, firstByte, kernel.now);
    }
  }

  /**
   The read loop, for any chunking: every call asks for at least one byte, the buffer ends up
   holding the delivered bytes, all of them or the first 4095, and is NUL-terminated. The recorded
   reading is taken after the first chunk and before any other.
   */
  method ReadResponse(stream: TlsStream, kernel: Kernel, response: array<char>)
    returns (offset: nat, firstByte: int, ghost chunks: seq<Call>)
    requires kernel.Valid() && response.Length == RESPONSE_SIZE && stream.Unread()
    modifies stream, response, kernel`now, kernel`calls, kernel`bytesIn, kernel`bytesOut
    ensures kernel.Valid() && old(kernel.now) <= kernel.now && offset <= 4095
    ensures offset <= |old(stream.pending)| && stream.pending == old(stream.pending)[offset..]
    ensures response[..offset] == old(stream.pending)[..offset] && response[offset] == '\0'
    ensures stream.ended || offset == 4095
    ensures firstByte == 0 <==> offset == 0
    ensures firstByte != 0 ==> old(kernel.now) <= firstByte <= kernel.now
    ensures TimesFirst(stream.arrivals, firstByte)
    ensures kernel.calls == old(kernel.calls) + chunks
    ensures AllReads(chunks) && During(chunks, old(kernel.now), kernel.now)
  {
    hide TimesFirst, AllReads, During;
    offset, firstByte, chunks := 0, 0, [];
    ghost var whole, past := stream.pending, kernel.calls;
    NothingTimed();
    NothingRead(kernel.now);
    while true
      invariant kernel.Valid() && old(kernel.now) <= kernel.now
      invariant offset < RESPONSE_SIZE - 1 && !stream.ended
      invariant offset <= |whole| && stream.pending == whole[offset..]
      invariant response[..offset] == whole[..offset]
      invariant firstByte == 0 <==> offset == 0
      invariant firstByte != 0 ==> old(kernel.now) <= firstByte
      invariant firstByte <= kernel.now && TimesFirst(stream.arrivals, firstByte)
      invariant kernel.calls == past + chunks && AllReads(chunks) && During(chunks, old(kernel.now), kernel.now)
      decreases RESPONSE_SIZE - offset
    {
      ghost var moment := kernel.now;
      ghost var call;
      var result;
      result, firstByte, call := ReadOnce(stream, kernel, response, offset, firstByte);
      OneMoreRead(chunks, call, old(kernel.now), moment, kernel.now);
      Associates(past, chunks, [call]);
      chunks := chunks + [call];
      if result <= 0 { break; }
      TwoPieces(whole, offset, result);
      offset := offset + result;
      if offset >= RESPONSE_SIZE - 1 { break; }
    }
    response[offset] := '\0';
  }

  lemma TwoPieces(whole: string, m: nat, n: nat)
    requires m + n <= |whole|
    ensures whole[..m] + whole[m..][..n] == whole[..m + n] && whole[m..][n..] == whole[m + n..]
  {
  }

  // ---- The probe ----

  /** How a probe ended, in the order of the checks. */
  datatype Exit =
    ConnectFailed | SslNewFailed | HandshakeFailed | WrongGroup | WriteFailed | BadResponse | Done

  /** The clock readings a probe keeps. */
  datatype Times = Times(started: int, connected: int, handshakeDone: int, firstByte: int, completed: int)

  /** What both TLS ends report of a finished handshake. */
  datatype Session = Session(group: Option<CString>, version: CString, cipher: CString)

  /** `strcasecmp(a, b) == 0`. */
  predicate SameIgnoringCase(a: string, b: string) {
    |a| == |b| && forall i :: 0 <= i < |a| ==> Lower(a[i]) == Lower(b[i])
  }

  function NegotiatedGroup(session: Session): CString {
    Printed(if session.group.Some? then session.group.value else "unknown", 100)
  }

  /** The negotiated values as both programs print them into their buffers. */
  function Reported(session: Session): Store.Negotiated {
    Store.Negotiated(
      Some(NegotiatedGroup(session)),
      Some(Printed(session.version, 50)),
      Some(Printed(session.cipher, 120)))
  }

  /** Each name is reported in its own column, as it is unless its buffer is too short for it. */
  lemma NamesReported(session: Session)
    ensures var r := Reported(session);
            r.group.Some? && r.tlsVersion.Some? && r.cipher.Some? &&
            (session.group.None? ==> r.group.value == "unknown") &&
            (session.group.Some? ==>
              r.group.value ==
              if |session.group.value| < 100 then session.group.value else session.group.value[..99]) &&
            r.tlsVersion.value == (if |session.version| < 50 then session.version else session.version[..49]) &&
            r.cipher.value == if |session.cipher| < 120 then session.cipher else session.cipher[..119]
  {
  }

  /** Two letters are the same but for their case. */
  predicate OtherCase(a: char, b: char) {
    ('A' <= a <= 'Z' && b as int == a as int + 32) || ('A' <= b <= 'Z' && a as int == b as int + 32)
  }

  /** The expected group is recognised in either case, and nothing else is taken for it. */
  lemma CaseIgnored(a: string, b: string)
    ensures SameIgnoringCase(a, b) <==>
            |a| == |b| && forall i :: 0 <= i < |a| ==> a[i] == b[i] || OtherCase(a[i], b[i])
  {
    forall c: char, d: char ensures Lower(c) == Lower(d) <==> c == d || OtherCase(c, d) {
      LowerSame(c, d);
    }
  }

  lemma LowerSame(c: char, d: char)
    ensures Lower(c) == Lower(d) <==> c == d || OtherCase(c, d)
  {
  }

  const NOTHING_REPORTED := Store.Negotiated(Some(""), Some(""), Some(""))

  /** The differences as the client records them, and the handshake time as it prints it. */
  datatype Spans = Spans(tcp: int, handshake: int, ttfb: int, total: int, printedHandshake: int)

  function Recorded(t: Times): Spans {
    Spans(Minus(t.connected, t.started),
          if t.handshakeDone >= t.connected then Minus(t.handshakeDone, t.connected) else 0,
          if t.firstByte != 0 then Minus(t.firstByte, t.started) else 0,
          Minus(t.completed, t.started),
          Minus(t.handshakeDone, t.connected))
  }

  /** What the order of the clock readings is at each exit. */
  predicate Timed(t: Times, exit: Exit) {
    0 < t.started <= t.connected <= t.completed < UINT64 &&
    (if exit.ConnectFailed? || exit.SslNewFailed? then t.handshakeDone == t.started
     else t.connected <= t.handshakeDone <= t.completed) &&
    (t.firstByte != 0 ==> (exit.BadResponse? || exit.Done?) && t.handshakeDone <= t.firstByte <= t.completed) &&
    (exit.Done? ==> t.firstByte != 0)
  }

  /**
   No recorded subtraction wraps on any exit, and the parts fit in the whole; on success the
   phases follow each other. The printed handshake time wraps exactly when the probe failed before
   the handshake and the clock had moved.
   */
  lemma SpansAreTrue(t: Times, exit: Exit)
    requires Timed(t, exit)
    ensures var s := Recorded(t);
            s.tcp == t.connected - t.started && s.total == t.completed - t.started &&
            s.handshake == (if exit.ConnectFailed? || exit.SslNewFailed? then 0 else t.handshakeDone - t.connected) &&
            s.ttfb == (if t.firstByte == 0 then 0 else t.firstByte - t.started) &&
            0 <= s.tcp && 0 <= s.handshake && s.tcp + s.handshake <= s.total && 0 <= s.ttfb <= s.total &&
            (exit.Done? ==> s.tcp + s.handshake <= s.ttfb) &&
            (s.printedHandshake != t.handshakeDone - t.connected <==>
              (exit.ConnectFailed? || exit.SslNewFailed?) && t.started < t.connected)
  {
    forall a: int, b: int | 0 <= b <= a < UINT64 ensures Minus(a, b) == a - b {
      MinusIs(a, b);
    }
    if t.handshakeDone < t.connected { MinusWraps(t.handshakeDone, t.connected); }
  }

  lemma MinusIs(a: int, b: int)
    requires 0 <= b <= a < UINT64
    ensures Minus(a, b) == a - b
  {
  }

  lemma MinusWraps(a: int, b: int)
    requires 0 <= a < b < UINT64
    ensures Minus(a, b) == a - b + UINT64
  {
  }

  /** The client's half of the measurement. */
  function ClientHalf(key: ProbeKey, endpoint: Endpoint, negotiated: Store.Negotiated, spans: Spans,
                      bytesSent: nat, bytesReceived: nat, success: bool, error: string): Store.ClientPayload {
    Store.ClientPayload(
      SampleId(key), key.runId, endpoint.mode, endpoint.group, negotiated,
      Store.ClientTiming(Some(spans.tcp), Some(spans.handshake), Some(spans.ttfb), Some(spans.total),
                         Some(bytesSent), Some(bytesReceived)),
      success,
      if success then None else Some(Json.Sanitise(error)))
  }

  /** What one attempt at a probe leaves behind. */
  datatype Attempt = Attempt(
    exit: Exit, times: Times,
    /** what was handed to SSL_write, if it got that far */
    request: Option<string>,
    negotiated: Store.Negotiated,
    bytesSent: nat, bytesReceived: nat, error: string)

  /** The texts and counts fit the client's variables. */
  predicate Sized(a: Attempt) {
    |a.error| < ERROR_BUFFER && NoNul(a.error) && a.bytesSent < UINT64 && a.bytesReceived < UINT64
  }

  /** The exits at which the peer can have been sent a request. */
  predicate Asked(exit: Exit) {
    exit.WriteFailed? || exit.BadResponse? || exit.Done?
  }

  /** The exits behind a finished handshake. */
  predicate Handshaken(exit: Exit) {
    exit.WrongGroup? || Asked(exit)
  }

  /** The response counts as an answer. */
  predicate Answered(delivered: string) {
    delivered != "" && Contains(UpToNul(delivered), "HTTP/1.1 200 OK")
  }

  lemma StatusChars(code: string, reason: string, i: nat)
    requires |code| == 3 && i < 13 + |reason|
    ensures var text := "HTTP/1.1 " + code + " " + reason;
            text[i] == (if i < 9 then "HTTP/1.1 "[i] else if i < 12 then code[i - 9] else if i == 12 then ' '
                        else reason[i - 13])
  {
  }

  lemma NoneInside(code: string, reason: string, i: nat)
    requires |code| == 3 && Decimal.AllDigits(code) && 'H' !in reason
    ensures 9 <= i < 12 ==> code[i - 9] != 'H'
    ensures 13 <= i < 13 + |reason| ==> reason[i - 13] != 'H'
  {
  }

  lemma OnlyAtFront(code: string, reason: string, i: nat)
    requires |code| == 3 && Decimal.AllDigits(code) && 'H' !in reason
    requires OccursAt("HTTP/1.1 " + code + " " + reason, "HTTP/1.1 200 OK", i)
    ensures i == 0
  {
    var text := "HTTP/1.1 " + code + " " + reason;
    OccursChar(text, "HTTP/1.1 200 OK", i, 0);
    StatusChars(code, reason, i);
    NoneInside(code, reason, i);
  }

  lemma StatusAtFront(code: string, reason: string)
    requires |code| == 3 && OccursAt("HTTP/1.1 " + code + " " + reason, "HTTP/1.1 200 OK", 0)
    ensures code == "200" && "OK" <= reason
  {
    var text, pattern := "HTTP/1.1 " + code + " " + reason, "HTTP/1.1 200 OK";
    assert text[..15] == pattern;
    assert code == text[9..12] && pattern[9..12] == "200";
    assert reason[..2] == text[13..15] && pattern[13..15] == "OK";
  }

  /** Of all status lines only that of a success is taken for an answer. */
  lemma AnswerDecides(code: string, reason: string)
    requires |code| == 3 && Decimal.AllDigits(code) && 'H' !in reason && NoNul(reason)
    ensures Answered("HTTP/1.1 " + code + " " + reason) <==> code == "200" && "OK" <= reason
  {
    var text, pattern := "HTTP/1.1 " + code + " " + reason, "HTTP/1.1 200 OK";
    StatusHasNoNul(code, reason);
    UpToNulIs(text, text);
    forall i: nat | OccursAt(text, pattern, i) ensures code == "200" && "OK" <= reason {
      OnlyAtFront(code, reason, i);
      StatusAtFront(code, reason);
    }
    if code == "200" && "OK" <= reason {
      assert reason == "OK" + reason[2..];
      assert text == "HTTP/1.1 200 OK" + reason[2..];
      assert OccursAt(text, pattern, 0);
    }
  }

  lemma StatusHasNoNul(code: string, reason: string)
    requires Decimal.AllDigits(code) && NoNul(reason)
    ensures NoNul("HTTP/1.1 " + code + " " + reason)
  {
    assert NoNul("HTTP/1.1 ") && NoNul(" ") && NoNul(code);
  }

  const ERROR_BUFFER := 512
  const NO_SSL: CString := "SSL_new failed"
  const ENDPOINT_RETURNED: CString := "TLS endpoint returned "
  const NO_RESPONSE: CString := "no valid HTTP response"
  /** One literal in the source; the verifier looks only so far into a long one for a NUL. */
  const NO_ANSWER := Joined(ENDPOINT_RETURNED, NO_RESPONSE)

  /** What `connection_error` holds of a message. */
  function ErrorText(message: CString): (text: CString)
    ensures |text| < ERROR_BUFFER
  {
    Printed(message, ERROR_BUFFER)
  }

  function Mismatch(group: CString, expected: CString): CString {
    Joined(Joined("negotiated ", group), Joined(" instead of ", expected))
  }

  /** The response, read to its end or as far as the buffer reaches, and judged. */
  method Listen(kernel: Kernel, stream: TlsStream)
    returns (firstByte: int, answered: bool, ghost delivered: string, ghost chunks: seq<Call>)
    requires kernel.Valid() && stream.Unread()
    modifies kernel`now, kernel`calls, kernel`bytesIn, kernel`bytesOut, stream
    ensures kernel.Valid() && old(kernel.now) <= kernel.now
    ensures firstByte != 0 ==> old(kernel.now) <= firstByte <= kernel.now
    ensures TimesFirst(stream.arrivals, firstByte)
    ensures old(stream.pending) == delivered + stream.pending && (stream.ended || |delivered| == 4095)
    ensures answered == Answered(delivered) && (answered ==> firstByte != 0)
    ensures kernel.calls == old(kernel.calls) + chunks
    ensures AllReads(chunks) && During(chunks, old(kernel.now), kernel.now)
  {
    hide UpToNul, StrStr, TimesFirst, AllReads, During;
    var response := new char[RESPONSE_SIZE];
    var offset;
    offset, firstByte, chunks := ReadResponse(stream, kernel, response);
    delivered := old(stream.pending)[..offset];
    HeldText(response[..], delivered);
    answered := firstByte != 0 && StrStr(UpToNul(response[..]), "HTTP/1.1 200 OK").Some?;
  }

  /** The calls after a handshake: none for a wrong group, else a write of the request and, if it succeeds, chunks. */
  ghost predicate Talked(talk: seq<Call>, exit: Exit, request: string) {
    Handshaken(exit) && (exit.WrongGroup? <==> talk == []) &&
    (talk != [] ==> talk[0].what == Write(request, !exit.WriteFailed?) && AllReads(talk[1..])) &&
    (exit.WriteFailed? ==> |talk| == 1)
  }

  lemma TalkedBy(write: Call, chunks: seq<Call>, exit: Exit, request: string)
    requires Asked(exit) && write.what == Write(request, !exit.WriteFailed?) && AllReads(chunks)
    requires exit.WriteFailed? ==> chunks == []
    ensures Talked([write] + chunks, exit, request)
  {
    assert ([write] + chunks)[1..] == chunks;
  }

  /** The error texts that are the client's own, and that success has none. */
  predicate Explained(exit: Exit, error: string, group: string, expected: string) {
    match exit
    case SslNewFailed => error == "SSL_new failed"
    case WrongGroup => error == Printed("negotiated " + group + " instead of " + expected, 512)
    case BadResponse => error == "TLS endpoint returned no valid HTTP response"
    case Done => error == ""
    case _ => true
  }

  lemma OwnTexts(group: CString, expected: CString)
    ensures ErrorText(NO_SSL) == "SSL_new failed"
    ensures ErrorText(NO_ANSWER) == "TLS endpoint returned no valid HTTP response"
    ensures ErrorText(Mismatch(group, expected)) == Printed("negotiated " + group + " instead of " + expected, 512)
  {
    NoSslText();
    NoAnswerText();
    MismatchText(group, expected);
  }

  lemma NoSslText()
    ensures ErrorText(NO_SSL) == "SSL_new failed"
  {
  }

  lemma NoAnswerText()
    ensures ErrorText(NO_ANSWER) == "TLS endpoint returned no valid HTTP response"
  {
    hide ENDPOINT_RETURNED, NO_RESPONSE;
    AnswerPieces();
    assert "TLS endpoint returned " + "no valid HTTP response" == "TLS endpoint returned no valid HTTP response";
  }

  lemma AnswerPieces()
    ensures ENDPOINT_RETURNED == "TLS endpoint returned " && NO_RESPONSE == "no valid HTTP response"
  {
  }

  lemma MismatchText(group: CString, expected: CString)
    ensures ErrorText(Mismatch(group, expected)) == Printed("negotiated " + group + " instead of " + expected, 512)
  {
    assert Mismatch(group, expected) == "negotiated " + group + " instead of " + expected;
  }

  /** The probe between the handshake and the end of the response: everything that needs a live session. */
  method Converse(kernel: Kernel, endpoint: Endpoint, key: ProbeKey, record: bool, session: Session, stream: TlsStream)
    returns (exit: Exit, firstByte: int, request: Option<string>, error: string, ghost delivered: string,
             ghost talk: seq<Call>)
    requires kernel.Valid() && stream.Unread()
    modifies kernel`now, kernel`calls, kernel`bytesIn, kernel`bytesOut, stream
    ensures kernel.Valid() && old(kernel.now) <= kernel.now && Handshaken(exit)
    ensures exit.WrongGroup? <==> !SameIgnoringCase(NegotiatedGroup(session), endpoint.group)
    ensures request == if exit.WrongGroup? then None else Some(Requests.ProbeRequest(key, record, endpoint.host))
    ensures firstByte != 0 ==> (exit.BadResponse? || exit.Done?) && old(kernel.now) <= firstByte <= kernel.now
    ensures exit.Done? ==> firstByte != 0
    ensures |error| < ERROR_BUFFER && NoNul(error) && Explained(exit, error, NegotiatedGroup(session), endpoint.group)
    ensures TimesFirst(stream.arrivals, firstByte)
    ensures old(stream.pending) == delivered + stream.pending
    ensures Judged(exit, delivered, stream.ended)
    ensures kernel.calls == old(kernel.calls) + talk && During(talk, old(kernel.now), kernel.now)
    ensures Talked(talk, exit, Requests.ProbeRequest(key, record, endpoint.host))
  {
    hide ErrorText, Mismatch, NegotiatedGroup, SameIgnoringCase, Requests.ProbeRequest, Answered, TimesFirst, AllReads,
         During, Talked, NO_ANSWER;
    firstByte, request, error, delivered, talk := 0, None, "", "", [];
    NothingTimed();
    NothingRead(kernel.now);
    var group := NegotiatedGroup(session);
    OwnTexts(group, endpoint.group);
    if !SameIgnoringCase(group, endpoint.group) {
      exit, error := WrongGroup, ErrorText(Mismatch(group, endpoint.group));
      NothingTalked(Requests.ProbeRequest(key, record, endpoint.host));
      return;
    }
    request := Some(Requests.ProbeRequest(key, record, endpoint.host));
    var written;
    ghost var write;
    written, write := kernel.SslWrite(request.value);
    Written(write, old(kernel.now), kernel.now);
    ghost var wrote := kernel.now;
    if written <= 0 {
      var reason: CString := *;
      exit, error := WriteFailed, ErrorText(reason);
      talk := [write] + [];
      TalkedBy(write, [], exit, request.value);
      return;
    }
    var answered;
    ghost var chunks;
    firstByte, answered, delivered, chunks := Listen(kernel, stream);
    talk := [write] + chunks;
    DuringConcat([write], chunks, old(kernel.now), wrote, kernel.now);
    exit := Done;
    if !answered {
      exit, error := BadResponse, ErrorText(NO_ANSWER);
    }
    TalkedBy(write, chunks, exit, request.value);
  }

  lemma NothingTalked(request: string)
    ensures Talked([], WrongGroup, request)
  {
  }

  lemma Written(write: Call, from: int, to: int)
    requires from <= write.began <= write.ended <= to
    ensures During([write], from, to) && During([write] + [], from, to)
  {
  }

  /** Success and a bad response are told apart by what was delivered, once nothing more could be. */
  predicate Judged(exit: Exit, delivered: string, ended: bool) {
    (exit.Done? || exit.BadResponse? ==> (ended || |delivered| == 4095) && (exit.Done? <==> Answered(delivered))) &&
    (!(exit.Done? || exit.BadResponse?) ==> delivered == "")
  }

  lemma HeldText(buffer: seq<char>, text: string)
    requires |text| < |buffer| && buffer[..|text|] == text && buffer[|text|] == '\0'
    ensures UpToNul(buffer) == UpToNul(text)
  {
    var held := UpToNul(text);
    assert held <= buffer;
    assert |held| < |text| ==> buffer[|held|] == text[|held|];
    UpToNulIs(buffer, held);
  }

  /** The probe with a live SSL object: the handshake, and what follows it. */
  method Shake(kernel: Kernel, endpoint: Endpoint, key: ProbeKey, record: bool, session: Session, stream: TlsStream)
    returns (exit: Exit, handshakeDone: int, firstByte: int, request: Option<string>, negotiated: Store.Negotiated,
             error: string, ghost delivered: string, ghost shake: Call, ghost talk: seq<Call>)
    requires kernel.Valid() && stream.Unread()
    modifies kernel`now, kernel`calls, kernel`bytesIn, kernel`bytesOut, stream
    ensures kernel.Valid() && old(kernel.now) <= handshakeDone <= kernel.now
    ensures exit.HandshakeFailed? || Handshaken(exit)
    ensures firstByte != 0 ==> (exit.BadResponse? || exit.Done?) && handshakeDone <= firstByte <= kernel.now
    ensures exit.Done? ==> firstByte != 0
    ensures request == if Asked(exit) then Some(Requests.ProbeRequest(key, record, endpoint.host)) else None
    ensures negotiated == if Handshaken(exit) then Reported(session) else NOTHING_REPORTED
    ensures Handshaken(exit) ==> (Asked(exit) <==> SameIgnoringCase(NegotiatedGroup(session), endpoint.group))
    ensures |error| < ERROR_BUFFER && NoNul(error) && Explained(exit, error, NegotiatedGroup(session), endpoint.group)
    ensures TimesFirst(stream.arrivals, firstByte)
    ensures old(stream.pending) == delivered + stream.pending && Judged(exit, delivered, stream.ended)
    ensures kernel.calls == old(kernel.calls) + [shake] + talk
    ensures shake.what == What.Handshake(!exit.HandshakeFailed?)
    ensures old(kernel.now) <= shake.began <= shake.ended <= handshakeDone && During(talk, handshakeDone, kernel.now)
    ensures if exit.HandshakeFailed? then talk == []
            else Talked(talk, exit, Requests.ProbeRequest(key, record, endpoint.host))
  {
    hide Reported, NegotiatedGroup, SameIgnoringCase, Answered, Requests.ProbeRequest, ErrorText, TimesFirst, During,
         Talked;
    firstByte, request, negotiated, delivered, talk := 0, None, NOTHING_REPORTED, "", [];
    NothingTimed();
    var handshaken;
    handshaken, shake := kernel.Handshake();
    handshakeDone := kernel.Now();
    NothingRead(kernel.now);
    if !handshaken {
      var reason: CString := *;
      exit, error := HandshakeFailed, ErrorText(reason);
    } else {
      negotiated := Reported(session);
      exit, firstByte, request, error, delivered, talk := Converse(kernel, endpoint, key, record, session, stream);
    }
  }

  /** The calls of one probe, phase by phase. */
  datatype Course = Course(dial: seq<Call>, made: seq<Call>, shake: seq<Call>, talk: seq<Call>, farewell: seq<Call>)

  function CallsOf(c: Course): seq<Call> {
    c.dial + c.made + c.shake + c.talk + c.farewell
  }

  /** Which calls an attempt makes, and that they decide how it exits. */
  ghost predicate Ran(c: Course, a: Attempt, candidates: int, request: string) {
    Dialled(c.dial, candidates, !a.exit.ConnectFailed?) && Carried(c, a, request)
  }

  /** The calls behind the connection. */
  ghost predicate Carried(c: Course, a: Attempt, request: string) {
    var x := a.exit;
    (if x.ConnectFailed? then c.made == [] else |c.made| == 1 && c.made[0].what == NewSsl(!x.SslNewFailed?)) &&
    (if x.ConnectFailed? || x.SslNewFailed? then c.shake == []
     else |c.shake| == 1 && c.shake[0].what == What.Handshake(!x.HandshakeFailed?)) &&
    (if Handshaken(x) then Talked(c.talk, x, request) else c.talk == []) &&
    (if x.ConnectFailed? || x.SslNewFailed? then c.farewell == [] && a.bytesReceived == a.bytesSent == 0
     else |c.farewell| == 1 && c.farewell[0].what == Shutdown(a.bytesReceived, a.bytesSent))
  }

  /**
   Where the clock readings stand among the calls: `started` before the look-up, `connected` after
   the last attempt to connect and before the handshake, `handshakeDone` after the handshake and
   before anything is written or read, `completed` after that and before the farewell.
   */
  ghost predicate Clocked(c: Course, t: Times, from: int, to: int) {
    from <= t.started && During(c.dial, t.started, t.connected) && Paced(c, t, t.connected, to)
  }

  /** The readings behind the connection, none of whose calls began before it. */
  ghost predicate Paced(c: Course, t: Times, connected: int, to: int) {
    (forall i :: 0 <= i < |c.made| ==> connected <= c.made[i].began) &&
    (forall i :: 0 <= i < |c.shake| ==> connected <= c.shake[i].began <= c.shake[i].ended <= t.handshakeDone) &&
    During(c.talk, t.handshakeDone, t.completed) && During(c.farewell, t.completed, to)
  }

  lemma NothingJudged(exit: Exit, ended: bool)
    requires !exit.Done? && !exit.BadResponse?
    ensures Judged(exit, "", ended)
  {
  }

  lemma NoSslExplained(group: string, expected: string)
    ensures Explained(SslNewFailed, ErrorText(NO_SSL), group, expected)
  {
    NoSslText();
  }

  lemma NeverMade(made: Call, a: Attempt, request: string, from: int, to: int)
    requires a.exit.SslNewFailed? && a.bytesReceived == a.bytesSent == 0
    requires made.what == NewSsl(false) && from <= made.began
    ensures Carried(Course([], [made], [], [], []), a, request)
    ensures Paced(Course([], [made], [], [], []), a.times, from, to)
  {
  }

  lemma WentThrough(made: Call, shake: Call, talk: seq<Call>, farewell: Call, a: Attempt, request: string,
                    from: int, to: int)
    requires a.exit.HandshakeFailed? || Handshaken(a.exit)
    requires made.what == NewSsl(true) && shake.what == What.Handshake(!a.exit.HandshakeFailed?)
    requires if a.exit.HandshakeFailed? then talk == [] else Talked(talk, a.exit, request)
    requires farewell.what == Shutdown(a.bytesReceived, a.bytesSent)
    requires from <= made.began && from <= shake.began <= shake.ended <= a.times.handshakeDone
    requires During(talk, a.times.handshakeDone, a.times.completed)
    requires a.times.completed <= farewell.began <= farewell.ended <= to
    ensures Carried(Course([], [made], [shake], talk, [farewell]), a, request)
    ensures Paced(Course([], [made], [shake], talk, [farewell]), a.times, from, to)
  {
    hide Talked;
  }

  /** The probe from `SSL_new` to `SSL_free`, with `completed` read before the farewell. */
  method Engage(kernel: Kernel, endpoint: Endpoint, key: ProbeKey, record: bool, session: Session, stream: TlsStream,
                started: int)
    returns (a: Attempt, ghost delivered: string, ghost c: Course)
    requires kernel.Valid() && stream.Unread()
    modifies kernel`now, kernel`calls, kernel`bytesIn, kernel`bytesOut, kernel`ssl, stream
    ensures kernel.Valid() && kernel.ssl == old(kernel.ssl)
    ensures !a.exit.ConnectFailed? && a.times.started == started
    ensures old(kernel.now) <= a.times.completed <= kernel.now
    ensures if a.exit.SslNewFailed? then a.times.handshakeDone == started
            else old(kernel.now) <= a.times.handshakeDone <= a.times.completed
    ensures a.times.firstByte != 0 ==>
              (a.exit.BadResponse? || a.exit.Done?) && a.times.handshakeDone <= a.times.firstByte <= a.times.completed
    ensures a.exit.Done? ==> a.times.firstByte != 0
    ensures a.request == if Asked(a.exit) then Some(Requests.ProbeRequest(key, record, endpoint.host)) else None
    ensures a.negotiated == if Handshaken(a.exit) then Reported(session) else NOTHING_REPORTED
    ensures Handshaken(a.exit) ==>
              (Asked(a.exit) <==> SameIgnoringCase(NegotiatedGroup(session), endpoint.group))
    ensures Sized(a) && Explained(a.exit, a.error, NegotiatedGroup(session), endpoint.group)
    ensures TimesFirst(stream.arrivals, a.times.firstByte)
    ensures old(stream.pending) == delivered + stream.pending && Judged(a.exit, delivered, stream.ended)
    ensures kernel.calls == old(kernel.calls) + c.made + c.shake + c.talk + c.farewell
    ensures Carried(c, a, Requests.ProbeRequest(key, record, endpoint.host))
    ensures Paced(c, a.times, old(kernel.now), kernel.now)
  {
    hide Reported, NegotiatedGroup, SameIgnoringCase, Answered, Requests.ProbeRequest, ErrorText, TimesFirst, During,
         Talked, Judged, Carried, Paced, Explained;
    NothingTimed();
    NothingJudged(SslNewFailed, stream.ended);
    NoSslExplained(NegotiatedGroup(session), endpoint.group);
    ghost var request := Requests.ProbeRequest(key, record, endpoint.host);
    ghost var made, shake, talk, farewell;
    delivered := "";
    var ssl;
    ssl, made := kernel.SslNew();
    if ssl < 0 {
      var completed := kernel.Now();
      a := Attempt(SslNewFailed, Times(started, 0, started, 0, completed), None, NOTHING_REPORTED, 0, 0,
                   ErrorText(NO_SSL));
      c := Course([], [made], [], [], []);
      NeverMade(made, a, request, old(kernel.now), kernel.now);
      return;
    }
    var exit, handshakeDone, firstByte, asked, negotiated, error;
    exit, handshakeDone, firstByte, asked, negotiated, error, delivered, shake, talk :=
      Shake(kernel, endpoint, key, record, session, stream);
    ghost var quiet := kernel.now;
    var completed := kernel.Now();
    DuringLonger(talk, handshakeDone, quiet, handshakeDone, completed);
    var bytesReceived := kernel.BytesRead();
    var bytesSent := kernel.BytesWritten();
    farewell := kernel.SslShutdown();
    kernel.SslFree(ssl);
    a := Attempt(exit, Times(started, 0, handshakeDone, firstByte, completed), asked, negotiated,
                 bytesSent, bytesReceived, error);
    c := Course([], [made], [shake], talk, [farewell]);
    WentThrough(made, shake, talk, farewell, a, request, old(kernel.now), kernel.now);
  }

  lemma NeverConnected(dial: seq<Call>, a: Attempt, request: string, to: int)
    requires a.exit.ConnectFailed? && a.bytesReceived == a.bytesSent == 0
    ensures Carried(Course(dial, [], [], [], []), a, request)
    ensures Paced(Course(dial, [], [], [], []), a.times, a.times.connected, to)
  {
  }

  lemma LeftUnexplained(error: string, group: string, expected: string)
    ensures Explained(ConnectFailed, error, group, expected)
  {
  }

  lemma DialledBefore(c: Course, dial: seq<Call>, a: Attempt, connected: int, request: string, to: int)
    requires Carried(c, a, request) && Paced(c, a.times, connected, to)
    ensures Carried(c.(dial := dial), a.(times := a.times.(connected := connected)), request)
    ensures Paced(c.(dial := dial), a.times.(connected := connected), connected, to)
  {
    hide During, Talked;
  }

  /**
   `probe` up to its report. Whatever the network does, every socket and SSL object is released
   exactly once, each clock reading is taken at its place among the calls, and the exit is the one
   that the calls' outcomes demand.
   */
  method Try(kernel: Kernel, endpoint: Endpoint, key: ProbeKey, record: bool,
             candidates: int, session: Session, stream: TlsStream)
    returns (a: Attempt, ghost delivered: string, ghost c: Course)
    requires kernel.Valid() && stream.Unread()
    modifies kernel, stream
    ensures kernel.Valid() && kernel.open == old(kernel.open) && kernel.ssl == old(kernel.ssl)
    ensures Silent(old(kernel.sent), kernel.sent)
    ensures Timed(a.times, a.exit)
    ensures a.request == if Asked(a.exit) then Some(Requests.ProbeRequest(key, record, endpoint.host)) else None
    ensures a.negotiated == if Handshaken(a.exit) then Reported(session) else NOTHING_REPORTED
    ensures Handshaken(a.exit) ==>
              (Asked(a.exit) <==> SameIgnoringCase(NegotiatedGroup(session), endpoint.group))
    ensures Sized(a) && Explained(a.exit, a.error, NegotiatedGroup(session), endpoint.group)
    ensures TimesFirst(stream.arrivals, a.times.firstByte)
    ensures old(stream.pending) == delivered + stream.pending && Judged(a.exit, delivered, stream.ended)
    ensures a.exit.ConnectFailed? ==> (if candidates < 0 then "getaddrinfo: " else "connect: ") <= a.error
    ensures kernel.calls == old(kernel.calls) + CallsOf(c) && kernel.resolved == old(kernel.resolved) + [endpoint.host]
    ensures Ran(c, a, candidates, Requests.ProbeRequest(key, record, endpoint.host))
    ensures Clocked(c, a.times, old(kernel.now), kernel.now)
  {
    hide Reported, NegotiatedGroup, SameIgnoringCase, Answered, Requests.ProbeRequest, ErrorText, TimesFirst, Silent,
         During, Talked, Dialled, Judged, Explained, Carried, Paced;
    ghost var request := Requests.ProbeRequest(key, record, endpoint.host);
    NothingTimed();
    NothingJudged(ConnectFailed, stream.ended);
    var started := kernel.Now();
    ghost var dial;
    var socket, error;
    socket, error, dial := TcpConnectHost(kernel, endpoint.host, candidates, ERROR_BUFFER);
    ghost var dialled := kernel.now;
    var connected := kernel.Now();
    DuringLonger(dial, started, dialled, started, connected);
    if socket < 0 {
      var completed := kernel.Now();
      delivered := "";
      a := Attempt(ConnectFailed, Times(started, connected, started, 0, completed), None, NOTHING_REPORTED, 0, 0,
                   error);
      c := Course(dial, [], [], [], []);
      NeverConnected(dial, a, request, kernel.now);
      LeftUnexplained(error, NegotiatedGroup(session), endpoint.group);
      return;
    }
    a, delivered, c := Engage(kernel, endpoint, key, record, session, stream, started);
    DialledBefore(c, dial, a, connected, request, kernel.now);
    c := c.(dial := dial);
    a := a.(times := a.times.(connected := connected));
    kernel.Close(socket);
  }

  /** The half that `probe` reports for an attempt. */
  function HalfOf(key: ProbeKey, endpoint: Endpoint, a: Attempt): Store.ClientPayload {
    ClientHalf(key, endpoint, a.negotiated, Recorded(a.times), a.bytesSent, a.bytesReceived, a.exit.Done?, a.error)
  }

  /** `probe`: 0 exactly on success; the client's half is posted exactly when the probe is a recorded one. */
  method Probe(kernel: Kernel, endpoint: Endpoint, key: ProbeKey, record: bool,
               candidates: int, session: Session, stream: TlsStream)
    returns (status: int, post: Option<Store.ClientPayload>, a: Attempt, ghost delivered: string, ghost c: Course)
    requires kernel.Valid() && stream.Unread()
    modifies kernel, stream
    ensures kernel.Valid() && kernel.open == old(kernel.open) && kernel.ssl == old(kernel.ssl)
    ensures Silent(old(kernel.sent), kernel.sent)
    ensures Timed(a.times, a.exit) && Sized(a) && TimesFirst(stream.arrivals, a.times.firstByte)
    ensures status == 0 <==> a.exit.Done?
    ensures a.exit.Done? ==> SameIgnoringCase(NegotiatedGroup(session), endpoint.group)
    ensures a.request == if Asked(a.exit) then Some(Requests.ProbeRequest(key, record, endpoint.host)) else None
    ensures a.negotiated == if Handshaken(a.exit) then Reported(session)
                                else Store.Negotiated(Some(""), Some(""), Some(""))
    ensures Explained(a.exit, a.error, NegotiatedGroup(session), endpoint.group)
    ensures old(stream.pending) == delivered + stream.pending && Judged(a.exit, delivered, stream.ended)
    ensures a.exit.ConnectFailed? ==> (if candidates < 0 then "getaddrinfo: " else "connect: ") <= a.error
    ensures kernel.calls == old(kernel.calls) + CallsOf(c) && kernel.resolved == old(kernel.resolved) + [endpoint.host]
    ensures Ran(c, a, candidates, Requests.ProbeRequest(key, record, endpoint.host))
    ensures Clocked(c, a.times, old(kernel.now), kernel.now)
    ensures post == if record then Some(HalfOf(key, endpoint, a)) else None
  {
    hide Reported, NegotiatedGroup, SameIgnoringCase, Requests.ProbeRequest, Timed, HalfOf, Silent, Ran, Clocked,
         Explained, Judged, CallsOf;
    a, delivered, c := Try(kernel, endpoint, key, record, candidates, session, stream);
    post := None;
    if record { post := Some(HalfOf(key, endpoint, a)); }
    status := if a.exit.Done? then 0 else -1;
  }
}
