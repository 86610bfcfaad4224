/**
 Posting JSON to the dashboard: `send_all` over partial sends, the request `post_json` builds, and
 the message body that framing by section 6.2 of RFC 9112 recovers from the byte stream.
 */
module Http {
  import opened Wrappers
  import opened CText
  import opened Platform
  import Decimal

  // ---- send_all ----

  /** Sends that were all accepted, but for the last one when the data could not be sent whole. */
  ghost predicate Sends(calls: seq<Call>, whole: bool) {
    forall i :: 0 <= i < |calls| ==> calls[i].what == What.Send(whole || i < |calls| - 1)
  }

  lemma OneMoreSend(calls: seq<Call>, call: Call, accepted: bool)
    requires Sends(calls, true) && call.what == What.Send(accepted)
    ensures Sends(calls + [call], accepted)
  {
  }

  lemma SendsConcat(a: seq<Call>, b: seq<Call>, whole: bool)
    requires Sends(a, true) && Sends(b, whole) && (whole || b != [])
    ensures Sends(a + b, whole)
  {
    assert forall i :: 0 <= i < |a + b| ==> (a + b)[i] == if i < |a| then a[i] else b[i - |a|];
  }

  /**
   Success delivers the data once and in order; failure delivers a proper prefix of it, and only
   because a send was refused.
   */
  method SendAll(kernel: Kernel, fd: int, data: string) returns (status: int, ghost sends: seq<Call>)
    requires kernel.Valid() && fd in kernel.open
    modifies kernel`sent, kernel`now, kernel`calls
    ensures kernel.Valid() && (status == 0 || status == -1)
    ensures status == 0 ==> kernel.sent[fd] == old(kernel.sent[fd]) + data
    ensures status != 0 ==> exists k :: 0 <= k < |data| && kernel.sent[fd] == old(kernel.sent[fd]) + data[..k]
    ensures forall s :: s in kernel.open && s != fd ==> kernel.sent[s] == old(kernel.sent[s])
    ensures kernel.calls == old(kernel.calls) + sends && Sends(sends, status == 0)
    ensures sends == [] <==> data == ""
  {
    hide Sends;
    NothingSent();
    var delivered := 0;
    sends := [];
    while delivered < |data|
      invariant delivered <= |data| && kernel.Valid()
      invariant kernel.sent[fd] == old(kernel.sent[fd]) + data[..delivered]
      invariant forall s :: s in kernel.open && s != fd ==> kernel.sent[s] == old(kernel.sent[s])
      invariant kernel.calls == old(kernel.calls) + sends && Sends(sends, true)
      invariant sends == [] <==> delivered == 0
    {
      ghost var call;
      var result;
      result, call := kernel.Send(fd, data, delivered, |data| - delivered);
      OneMoreSend(sends, call, result > 0);
      sends := sends + [call];
      if result <= 0 { return -1, sends; }
      assert data[..delivered] + data[delivered..delivered + result] == data[..delivered + result];
      delivered := delivered + result;
    }
    assert data[..delivered] == data;
    status := 0;
  }

  lemma NothingSent()
    ensures Sends([], true)
  {
  }

  // ---- The request ----

  const HEADER_SIZE := 1024
  const CRLF := "\r\n"

  function RequestLine(path: string): string { "POST " + path + " HTTP/1.1" }

  function HostLine(host: string): string { "Host: " + host }

  const JSON_TYPE := "application/json"
  const TYPE_LINE := "Content-Type: " + JSON_TYPE

  function LengthLine(n: nat): string { "Content-Length: " + Decimal.Dec(n) }

  const CLOSE_LINE := "Connection: close"

  function Header(path: string, host: string, length: nat): string {
    RequestLine(path) + CRLF + HostLine(host) + CRLF + TYPE_LINE + CRLF + LengthLine(length) + CRLF
    + CLOSE_LINE + CRLF + CRLF
  }

  function Message(path: string, host: string, json: string): string {
    Header(path, host, |json|) + json
  }

  /** The calls of one post: the connection attempts, the sends and the wait for the answer. */
  datatype Exchange = Exchange(dial: seq<Call>, sends: seq<Call>, wait: seq<Call>)

  /** The dashboard answered, and with one of the two statuses that mean it took the request. */
  predicate Accepts(answer: string) {
    answer != "" && (Contains(UpToNul(answer), " 200 ") || Contains(UpToNul(answer), " 201 "))
  }

  /** An answer is waited for exactly when the whole message was sent; what it says decides the result. */
  ghost predicate Answers(wait: seq<Call>, sent: bool, status: int) {
    (if sent then |wait| == 1 && wait[0].what.Receive? else wait == []) &&
    (status == 0 <==> sent && Accepts(wait[0].what.answer))
  }

  /** Header and body, one after the other, the body only once the header is sent. */
  method SendBoth(kernel: Kernel, fd: int, header: string, json: string) returns (status: int, ghost sends: seq<Call>)
    requires kernel.Valid() && fd in kernel.open && kernel.sent[fd] == "" && header != ""
    modifies kernel`sent, kernel`now, kernel`calls
    ensures kernel.Valid() && (status == 0 || status == -1)
    ensures fd in kernel.sent && kernel.sent[fd] <= header + json && (status == 0 <==> kernel.sent[fd] == header + json)
    ensures forall s :: s in kernel.open && s != fd ==> kernel.sent[s] == old(kernel.sent[s])
    ensures kernel.calls == old(kernel.calls) + sends && Sends(sends, status == 0) && sends != []
  {
    hide Sends;
    ghost var more;
    status, sends := SendAll(kernel, fd, header);
    if status == 0 {
      assert kernel.sent[fd] == header;
      status, more := SendAll(kernel, fd, json);
      SendsConcat(sends, more, status == 0);
      sends := sends + more;
    }
  }

  /**
   `post_json`: every socket it opened is closed again. Once connected it sends the message when its
   header fits the buffer, stops only at a refused send, then waits for the answer, and succeeds
   exactly when the whole message was sent and the answer accepts it.
   */
  method PostJson(kernel: Kernel, candidates: int, host: string, path: string, json: string)
    returns (status: int, ghost fd: int, ghost x: Exchange)
    requires kernel.Valid()
    modifies kernel`open, kernel`sent, kernel`heldAt, kernel`now, kernel`calls, kernel`resolved
    ensures kernel.Valid() && kernel.open == old(kernel.open)
    ensures fd >= 0 ==> fd in kernel.sent && kernel.sent[fd] <= Message(path, host, json)
    ensures fd >= 0 ==> fd in kernel.heldAt && kernel.heldAt[fd] == Held(old(kernel.open), kernel.ssl)
    ensures forall s :: s in kernel.open ==> kernel.sent[s] == old(kernel.sent[s])
    ensures kernel.calls == old(kernel.calls) + x.dial + x.sends + x.wait
    ensures Dialled(x.dial, candidates, fd >= 0) && kernel.resolved == old(kernel.resolved) + [host]
    ensures x.sends != [] <==> fd >= 0 && |Header(path, host, |json|)| < 1024
    ensures var sent := fd >= 0 && kernel.sent[fd] == Message(path, host, json);
            (x.sends != [] ==> Sends(x.sends, sent)) && Answers(x.wait, sent, status)
  {
    hide Header, Silent, Sends, Accepts, Dialled, During, UpToNul, StrStr;
    HeaderIsLong(path, host, |json|);
    ghost var dial, sends;
    var socket, error;
    socket, error, dial := TcpConnectHost(kernel, host, candidates, 256);
    fd, x := socket, Exchange(dial, [], []);
    if socket < 0 { return -1, fd, x; }
    var header := Header(path, host, |json|);
    if |header| >= HEADER_SIZE {
      kernel.Close(socket);
      return -1, fd, x;
    }
    status, sends := SendBoth(kernel, socket, header, json);
    x := Exchange(dial, sends, []);
    if status != 0 {
      kernel.Close(socket);
      return -1, fd, x;
    }
    ghost var wait;
    var received, response;
    received, response, wait := kernel.Receive(socket, 255);
    x := x.(wait := [wait]);
    kernel.Close(socket);
    var accepted := Judge(received, response);
    status := if accepted then 0 else -1;
  }

  /** The judgement of `post_json` over what it received. */
  method Judge(received: int, response: string) returns (accepted: bool)
    requires |response| == if received > 0 then received else 0
    ensures accepted == Accepts(response)
  {
    if received <= 0 { return false; }
    var text := UpToNul(response);
    if StrStr(text, " 200 ").None? && StrStr(text, " 201 ").None? { return false; }
    return true;
  }

  lemma HeaderIsLong(path: string, host: string, length: nat)
    ensures Header(path, host, length) != ""
  {
  }

  // ---- What an HTTP/1.1 recipient reads ----

  /** A line and what follows its CRLF. */
  function ReadLine(stream: string): Option<(string, string)> {
    match StrStr(stream, CRLF)
    case None => None
    case Some(i) => Some((stream[..i], stream[i + 2..]))
  }

  /** Field names compare without regard to case. */
  predicate HasName(line: string, name: string) {
    |line| > |name| && line[|name|] == ':' && forall i :: 0 <= i < |name| ==> Lower(line[i]) == name[i]
  }

  predicate IsBlank(c: char) { c == ' ' || c == '\t' }

  function Trim(text: string): string {
    if text != [] && IsBlank(text[0]) then Trim(text[1..])
    else if text != [] && IsBlank(text[|text| - 1]) then Trim(text[..|text| - 1])
    else text
  }

  const LENGTH_NAME := "content-length"

  /** The declared body length and the stream behind the fields; conflicting or malformed lengths are errors. */
  function ReadFields(stream: string, length: Option<nat>): Option<(Option<nat>, string)>
    decreases |stream|
  {
    match ReadLine(stream)
    case None => None
    case Some((line, rest)) =>
      if line == "" then Some((length, rest))
      else if !HasName(line, LENGTH_NAME) then ReadFields(rest, length)
      else
        var digits := Trim(line[|LENGTH_NAME| + 1..]);
        if digits == "" || !Decimal.AllDigits(digits) then None
        else
          var n := Decimal.Value(digits);
          if length.Some? && length.value != n then None else ReadFields(rest, Some(n))
  }

  /** The body of the request at the head of a stream: no length means no body, a short stream is incomplete. */
  function ReceiveBody(stream: string): Option<string> {
    match ReadLine(stream)
    case None => None
    case Some((_, rest)) =>
      match ReadFields(rest, None)
      case None => None
      case Some((None, _)) => Some("")
      case Some((Some(n), body)) => if n <= |body| then Some(body[..n]) else None
  }

  // ---- Framing recovers the JSON ----

  lemma ReadLineIs(line: string, rest: string)
    requires '\r' !in line
    ensures ReadLine(line + CRLF + rest) == Some((line, rest))
  {
    var stream := line + CRLF + rest;
    assert OccursAt(stream, CRLF, |line|);
    forall i: nat | i < |line| ensures !OccursAt(stream, CRLF, i) {
      assert stream[i] == line[i];
      OccursChar(stream, CRLF, i, 0);
    }
    assert StrStr(stream, CRLF) == Some(|line|);
    assert stream[..|line|] == line && stream[|line| + 2..] == rest;
  }

  lemma OtherField(line: string, rest: string, length: Option<nat>)
    requires '\r' !in line && line != "" && !HasName(line, LENGTH_NAME)
    ensures ReadFields(line + CRLF + rest, length) == ReadFields(rest, length)
  {
    ReadLineIs(line, rest);
  }

  lemma {:induction false} TrimDigits(digits: string)
    requires digits != "" && Decimal.AllDigits(digits)
    ensures Trim(" " + digits) == digits
  {
    assert (" " + digits)[1..] == digits;
    assert Decimal.IsDigit(digits[0]) && Decimal.IsDigit(digits[|digits| - 1]);
  }

  lemma LengthLineIs(n: nat)
    ensures '\r' !in LengthLine(n) && LengthLine(n) != "" && HasName(LengthLine(n), LENGTH_NAME)
    ensures LengthLine(n)[|LENGTH_NAME| + 1..] == " " + Decimal.Dec(n)
  {
    var digits := Decimal.Dec(n);
    assert '\r' !in digits by { assert forall i :: 0 <= i < |digits| ==> Decimal.IsDigit(digits[i]); }
  }

  lemma LengthField(n: nat, rest: string)
    ensures ReadFields(LengthLine(n) + CRLF + rest, None) == ReadFields(rest, Some(n))
  {
    hide LengthLine, HasName, ReadLine, Trim;
    LengthLineIs(n);
    TrimDigits(Decimal.Dec(n));
    Decimal.ValueOfDec(n);
    ReadLineIs(LengthLine(n), rest);
  }

  lemma EndOfFields(rest: string, length: Option<nat>)
    ensures ReadFields(CRLF + rest, length) == Some((length, rest))
  {
    ReadLineIs("", rest);
    assert "" + CRLF + rest == CRLF + rest;
  }

  lemma HostField(host: string, rest: string)
    requires '\r' !in host
    ensures ReadFields(HostLine(host) + CRLF + rest, None) == ReadFields(rest, None)
  {
    assert HostLine(host)[0] == 'H';
    OtherField(HostLine(host), rest, None);
  }

  lemma TypeField(rest: string)
    ensures ReadFields(TYPE_LINE + CRLF + rest, None) == ReadFields(rest, None)
  {
    assert TYPE_LINE[8] == 'T';
    OtherField(TYPE_LINE, rest, None);
  }

  lemma CloseField(n: nat, rest: string)
    ensures ReadFields(CLOSE_LINE + CRLF + rest, Some(n)) == ReadFields(rest, Some(n))
  {
    assert CLOSE_LINE[3] == 'n';
    OtherField(CLOSE_LINE, rest, Some(n));
  }

  function Fields(host: string, json: string): string {
    HostLine(host) + CRLF + (TYPE_LINE + CRLF + (LengthLine(|json|) + CRLF + (CLOSE_LINE + CRLF + (CRLF + json))))
  }

  lemma FieldsRead(host: string, json: string)
    requires '\r' !in host
    ensures ReadFields(Fields(host, json), None) == Some((Some(|json|), json))
  {
    hide ReadFields, HostLine, LengthLine;
    var afterLength := CLOSE_LINE + CRLF + (CRLF + json);
    var afterType := LengthLine(|json|) + CRLF + afterLength;
    HostField(host, TYPE_LINE + CRLF + afterType);
    TypeField(afterType);
    LengthField(|json|, afterLength);
    CloseField(|json|, CRLF + json);
    EndOfFields(json, Some(|json|));
  }

  lemma MessageIs(path: string, host: string, json: string)
    ensures Message(path, host, json) == RequestLine(path) + CRLF + Fields(host, json)
  {
    hide RequestLine, HostLine, LengthLine;
  }

  /** When path and host carry no CR the recipient reads exactly the JSON that was posted. */
  lemma FramingRecovers(path: string, host: string, json: string)
    requires '\r' !in path && '\r' !in host
    ensures ReceiveBody(Message(path, host, json)) == Some(json)
  {
    hide ReadFields, Message, Fields, ReadLine;
    MessageIs(path, host, json);
    ReadLineIs(RequestLine(path), Fields(host, json));
    FieldsRead(host, json);
    assert json[..|json|] == json;
  }

  // ---- What else the recipient reads: the request line and the fields ----

  /** Method, target and version of the request at the head of a stream. */
  function ReadRequestLine(stream: string): Option<(string, string, string)> {
    match ReadLine(stream)
    case None => None
    case Some((line, _)) =>
      match StrStr(line, " ")
      case None => None
      case Some(i) =>
        match StrStr(line[i + 1..], " ")
        case None => None
        case Some(j) => Some((line[..i], line[i + 1..][..j], line[i + 1..][j + 1..]))
  }

  lemma FirstSpace(word: string, rest: string)
    requires ' ' !in word
    ensures StrStr(word + " " + rest, " ") == Some(|word|)
    ensures (word + " " + rest)[..|word|] == word && (word + " " + rest)[|word| + 1..] == rest
  {
    var text := word + " " + rest;
    assert OccursAt(text, " ", |word|);
    forall i: nat | i < |word| ensures !OccursAt(text, " ", i) {
      assert text[i] == word[i];
      OccursChar(text, " ", i, 0);
    }
  }

  /** The dashboard is asked to POST to exactly the path that was given. */
  lemma RequestLineRead(path: string, host: string, json: string)
    requires '\r' !in path && ' ' !in path
    ensures ReadRequestLine(Message(path, host, json)) == Some(("POST", path, "HTTP/1.1"))
  {
    hide Message, Fields, StrStr;
    MessageIs(path, host, json);
    var line := RequestLine(path);
    ReadLineIs(line, Fields(host, json));
    assert line == "POST" + " " + (path + " " + "HTTP/1.1");
    FirstSpace("POST", path + " " + "HTTP/1.1");
    FirstSpace(path, "HTTP/1.1");
  }

  /** The value of the first header field of a name, given in lower case. */
  function ReadField(stream: string, name: string): Option<string>
    decreases |stream|
  {
    match ReadLine(stream)
    case None => None
    case Some((line, rest)) =>
      if line == "" then None
      else if HasName(line, name) then Some(Trim(line[|name| + 1..]))
      else ReadField(rest, name)
  }

  lemma FieldRead(line: string, rest: string, name: string)
    requires '\r' !in line && line != ""
    ensures ReadField(line + CRLF + rest, name) ==
            if HasName(line, name) then Some(Trim(line[|name| + 1..])) else ReadField(rest, name)
  {
    hide Trim, HasName, ReadLine;
    ReadLineIs(line, rest);
  }

  lemma NotNamed(line: string, name: string, k: nat)
    requires k < |name| && k < |line| && Lower(line[k]) != name[k]
    ensures !HasName(line, name)
  {
  }

  lemma TrimBlank(text: string)
    ensures Trim(" " + text) == Trim(text)
  {
    assert (" " + text)[1..] == text;
  }

  lemma HostIsRead(host: string)
    ensures HasName(HostLine(host), "host") && HostLine(host)[5..] == " " + host && HostLine(host)[0] == 'H'
  {
    assert HostLine(host)[4] == ':';
  }

  lemma TypeHasNoReturn()
    ensures '\r' !in TYPE_LINE
  {
    assert '\r' !in "Content-Type: ";
    assert '\r' !in JSON_TYPE;
  }

  lemma TypeIsNamed()
    ensures HasName(TYPE_LINE, "content-type") && TYPE_LINE[3] == 't'
  {
  }

  lemma TypeIsRead()
    ensures TYPE_LINE[13..] == " " + "application/json"
  {
    assert "Content-Type: "[13..] == " ";
  }

  lemma CloseIsRead()
    ensures '\r' !in CLOSE_LINE && HasName(CLOSE_LINE, "connection")
    ensures CLOSE_LINE[11..] == " " + "close"
  {
  }

  lemma TrimWords()
    ensures Trim("application/json") == "application/json" && Trim("close") == "close"
  {
  }

  lemma TypeSaid(rest: string)
    ensures ReadField(TYPE_LINE + CRLF + rest, "content-type") == Some("application/json")
    ensures ReadField(TYPE_LINE + CRLF + rest, "connection") == ReadField(rest, "connection")
  {
    hide ReadField, Trim, HasName;
    TypeHasNoReturn();
    TypeIsNamed();
    TypeIsRead();
    TrimWords();
    TrimBlank("application/json");
    assert "connection"[3] == 'n';
    NotNamed(TYPE_LINE, "connection", 3);
    FieldRead(TYPE_LINE, rest, "content-type");
    FieldRead(TYPE_LINE, rest, "connection");
  }

  lemma CloseSaid(rest: string)
    ensures ReadField(CLOSE_LINE + CRLF + rest, "connection") == Some("close")
  {
    hide ReadField, Trim, HasName;
    CloseIsRead();
    TrimWords();
    TrimBlank("close");
    FieldRead(CLOSE_LINE, rest, "connection");
  }

  lemma LengthSaid(n: nat, rest: string)
    ensures ReadField(LengthLine(n) + CRLF + rest, "connection") == ReadField(rest, "connection")
  {
    hide ReadField, Trim, HasName;
    LengthLineIs(n);
    assert LengthLine(n)[3] == 't' && "connection"[3] == 'n';
    NotNamed(LengthLine(n), "connection", 3);
    FieldRead(LengthLine(n), rest, "connection");
  }

  lemma HostSaid(host: string, rest: string)
    requires '\r' !in host
    ensures ReadField(HostLine(host) + CRLF + rest, "host") == Some(Trim(host))
    ensures ReadField(HostLine(host) + CRLF + rest, "content-type") == ReadField(rest, "content-type")
    ensures ReadField(HostLine(host) + CRLF + rest, "connection") == ReadField(rest, "connection")
  {
    HostHasNoReturn(host);
    hide ReadField, Trim, HasName;
    HostIsRead(host);
    TrimBlank(host);
    assert "content-type"[0] == 'c' && "connection"[0] == 'c';
    NotNamed(HostLine(host), "content-type", 0);
    NotNamed(HostLine(host), "connection", 0);
    FieldRead(HostLine(host), rest, "host");
    FieldRead(HostLine(host), rest, "content-type");
    FieldRead(HostLine(host), rest, "connection");
  }

  lemma HostHasNoReturn(host: string)
    requires '\r' !in host
    ensures '\r' !in HostLine(host)
  {
  }

  /** The host, the kind of content and the wish to close are read as they were meant. */
  lemma FieldsSaid(host: string, json: string)
    requires '\r' !in host
    ensures ReadField(Fields(host, json), "host") == Some(Trim(host))
    ensures ReadField(Fields(host, json), "content-type") == Some("application/json")
    ensures ReadField(Fields(host, json), "connection") == Some("close")
  {
    hide ReadField, LengthLine, Trim, HostLine;
    var afterLength := CLOSE_LINE + CRLF + (CRLF + json);
    var afterType := LengthLine(|json|) + CRLF + afterLength;
    HostSaid(host, TYPE_LINE + CRLF + afterType);
    TypeSaid(afterType);
    LengthSaid(|json|, afterLength);
    CloseSaid(CRLF + json);
  }

  // ---- Which answers are accepted ----

  lemma OnlyInStatus(code: string, reason: string, pattern: string, i: nat)
    requires |code| == 3 && Decimal.AllDigits(code) && '2' !in reason && pattern in [" 200 ", " 201 "]
    requires OccursAt("HTTP/1.1 " + code + " " + reason, pattern, i)
    ensures i == 8 && code == pattern[1..4]
  {
    var text := "HTTP/1.1 " + code + " " + reason;
    OccursChar(text, pattern, i, 0);
    OccursChar(text, pattern, i, 1);
    OccursChar(text, pattern, i, 2);
    OccursChar(text, pattern, i, 3);
    assert text[9] == code[0] && text[10] == code[1] && text[11] == code[2] && text[12] == ' ';
    assert forall j :: 0 <= j < |reason| ==> text[13 + j] == reason[j] && reason[j] in reason;
    assert Decimal.IsDigit(code[0]) && Decimal.IsDigit(code[1]) && Decimal.IsDigit(code[2]);
    assert "HTTP/1.1 "[0] == 'H' && "HTTP/1.1 "[1] == 'T';
  }

  /** A status line is an acceptance exactly when its code is 200 or 201, the reason phrase containing no digit 2. */
  lemma StatusDecides(code: string, reason: string)
    requires |code| == 3 && Decimal.AllDigits(code) && '2' !in reason && NoNul(reason)
    ensures Accepts("HTTP/1.1 " + code + " " + reason) <==> code == "200" || code == "201"
  {
    var text := "HTTP/1.1 " + code + " " + reason;
    StatusHasNoNul(code, reason);
    UpToNulIs(text, text);
    forall pattern, i: nat | pattern in [" 200 ", " 201 "] && OccursAt(text, pattern, i)
      ensures code == "200" || code == "201"
    {
      OnlyInStatus(code, reason, pattern, i);
    }
    if code == "200" { assert OccursAt(text, " 200 ", 8); }
    if code == "201" { assert OccursAt(text, " 201 ", 8); }
  }

  lemma StatusHasNoNul(code: string, reason: string)
    requires Decimal.AllDigits(code) && NoNul(reason)
    ensures NoNul("HTTP/1.1 " + code + " " + reason)
  {
    assert NoNul("HTTP/1.1 ") && NoNul(" ") && NoNul(code);
  }
}
