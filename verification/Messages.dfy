/**
 The JSON messages of the two reporters: printed with fixed-size buffers, and read back by the
 object and string grammar of RFC 8259 (sections 4 and 7) as the payload that was meant.
 */
module Messages {
  import opened Wrappers
  import opened CText
  import opened Modes
  import opened SampleIds
  import opened Json
  import opened Probes
  import Decimal
  import Platform
  import Requests
  import Store

  // ---- Printing flat objects ----

  /** A member value as the format strings print it; a text is printed between quotes as it stands. */
  datatype Item = Text(body: string) | Number(n: nat) | Flag(b: bool) | Null

  datatype Member = Member(name: string, item: Item)

  function PrintItem(item: Item): string {
    match item
    case Text(body) => "\"" + body + "\""
    case Number(n) => Decimal.Dec(n)
    case Flag(b) => if b then "true" else "false"
    case Null => "null"
  }

  function PrintMembers(members: seq<Member>): string
    requires members != []
  {
    "\"" + members[0].name + "\":" + PrintItem(members[0].item) +
    if |members| == 1 then "}" else "," + PrintMembers(members[1..])
  }

  function PrintObject(members: seq<Member>): string
    requires members != []
  {
    "{" + PrintMembers(members)
  }

  // ---- Reading them ----

  datatype Value = Str(units: seq<int>) | Num(n: nat) | Bool(b: bool) | Nil

  datatype Entry = Entry(name: seq<int>, value: Value)

  /** The position of the quote that ends a string. */
  function QuoteAt(s: string): (q: Option<nat>)
    ensures q.Some? ==> q.value < |s|
    decreases |s|
  {
    if s == "" then None
    else if s[0] == '"' then Some(0)
    else
      var width := if s[0] == '\\' then 2 else 1;
      if |s| < width then None
      else
        match QuoteAt(s[width..])
        case None => None
        case Some(q) => Some(q + width)
  }

  function ReadString(s: string): (r: Option<(seq<int>, string)>)
    ensures r.Some? ==> |r.value.1| < |s|
  {
    if s == "" || s[0] != '"' then None
    else
      match QuoteAt(s[1..])
      case None => None
      case Some(q) =>
        var units := Decode(s[1..q + 1]);
        if units.None? then None else Some((units.value, s[q + 2..]))
  }

  function DigitCount(s: string): (k: nat)
    ensures k <= |s|
    ensures Decimal.AllDigits(s[..k])
    ensures k < |s| ==> !Decimal.IsDigit(s[k])
  {
    if s != "" && Decimal.IsDigit(s[0]) then
      var k := DigitCount(s[1..]);
      assert s[..k + 1] == [s[0]] + s[1..][..k];
      k + 1
    else 0
  }

  /** An integer without sign; a leading zero is malformed. */
  function ReadNumber(s: string): (r: Option<(Value, string)>)
    ensures r.Some? ==> |r.value.1| < |s|
  {
    var k := DigitCount(s);
    if k == 0 || (k > 1 && s[0] == '0') then None else Some((Num(Decimal.Value(s[..k])), s[k..]))
  }

  function ReadValue(s: string): (r: Option<(Value, string)>)
    ensures r.Some? ==> |r.value.1| < |s|
  {
    if s == "" then None
    else if s[0] == '"' then
      match ReadString(s)
      case None => None
      case Some((units, rest)) => Some((Str(units), rest))
    else if s[0] == 't' then if "true" <= s then Some((Bool(true), s[4..])) else None
    else if s[0] == 'f' then if "false" <= s then Some((Bool(false), s[5..])) else None
    else if s[0] == 'n' then if "null" <= s then Some((Nil, s[4..])) else None
    else ReadNumber(s)
  }

  /** The members up to the closing brace, which must end the text. */
  function ReadMembers(s: string): Option<seq<Entry>>
    decreases |s|
  {
    match ReadString(s)
    case None => None
    case Some((name, afterName)) =>
      if afterName == "" || afterName[0] != ':' then None else
      match ReadValue(afterName[1..])
      case None => None
      case Some((value, rest)) =>
        if rest == "}" then Some([Entry(name, value)])
        else if rest == "" || rest[0] != ',' then None
        else
          match ReadMembers(rest[1..])
          case None => None
          case Some(more) => Some([Entry(name, value)] + more)
  }

  function ReadObject(s: string): Option<seq<Entry>> {
    if s == "" || s[0] != '{' then None
    else if s == "{}" then Some([])
    else ReadMembers(s[1..])
  }

  // ---- Reading inverts printing ----

  /** Characters that stand for themselves in a JSON string. */
  predicate Plain(text: string) {
    forall i :: 0 <= i < |text| ==> text[i] >= ' ' && text[i] != '"' && text[i] != '\\'
  }

  lemma {:induction false} PlainDecodes(text: string)
    requires Plain(text)
    ensures Decode(text) == Some(Units(text))
  {
    if text != "" { PlainDecodes(text[1..]); }
  }

  predicate Printable(item: Item) {
    item.Text? ==> Decode(item.body).Some?
  }

  function Meaning(item: Item): Value
    requires Printable(item)
  {
    match item
    case Text(body) => Str(Decode(body).value)
    case Number(n) => Num(n)
    case Flag(b) => Bool(b)
    case Null => Nil
  }

  /** Behind a cut-off escape the rest of a readable body is readable. */
  lemma EscapeTail(body: string)
    requires body != "" && body[0] == '\\' && Decode(body).Some?
    ensures |body| >= 2 && Decode(body[2..]).Some?
  {
    if SimpleEscape(body[1]).None? {
      var tail := body[2..];
      assert body[1] == 'u' && |body| >= 6 && Decode(body[6..]).Some?;
      assert tail[4..] == body[6..] && tail[3..][1..] == tail[4..];
      assert tail[2..][1..] == tail[3..] && tail[1..][1..] == tail[2..];
      HexIsPlain(tail[3..]);
      HexIsPlain(tail[2..]);
      HexIsPlain(tail[1..]);
      HexIsPlain(tail);
    }
  }

  lemma HexIsPlain(s: string)
    requires s != "" && HexValue(s[0]).Some? && Decode(s[1..]).Some?
    ensures Decode(s).Some?
  {
  }

  lemma {:induction false} QuoteEnds(body: string, rest: string)
    requires Decode(body).Some?
    ensures QuoteAt(body + "\"" + rest) == Some(|body|)
    decreases |body|
  {
    var s := body + "\"" + rest;
    if body != "" {
      var width := if body[0] == '\\' then 2 else 1;
      if body[0] == '\\' { EscapeTail(body); }
      assert s[width..] == body[width..] + "\"" + rest;
      QuoteEnds(body[width..], rest);
    }
  }

  lemma ReadStringIs(body: string, rest: string)
    requires Decode(body).Some?
    ensures ReadString("\"" + body + "\"" + rest) == Some((Decode(body).value, rest))
  {
    hide Decode, QuoteAt;
    var s := "\"" + body + "\"" + rest;
    assert s[1..] == body + "\"" + rest;
    QuoteEnds(body, rest);
    assert s[1..|body| + 1] == body && s[|body| + 2..] == rest;
  }

  lemma {:induction false} DigitsCounted(digits: string, rest: string)
    requires Decimal.AllDigits(digits) && (rest == "" || !Decimal.IsDigit(rest[0]))
    ensures DigitCount(digits + rest) == |digits|
  {
    if digits == "" {
      assert digits + rest == rest;
    } else {
      assert (digits + rest)[1..] == digits[1..] + rest;
      DigitsCounted(digits[1..], rest);
    }
  }

  lemma {:induction false} NoLeadingZero(n: nat)
    ensures n > 0 ==> Decimal.Dec(n)[0] != '0'
    ensures n == 0 ==> Decimal.Dec(n) == "0"
  {
    if n >= 10 { NoLeadingZero(n / 10); }
  }

  lemma ReadNumberIs(n: nat, rest: string)
    requires rest == "" || !Decimal.IsDigit(rest[0])
    ensures ReadValue(Decimal.Dec(n) + rest) == Some((Num(n), rest))
  {
    var digits := Decimal.Dec(n);
    var s := digits + rest;
    DigitsCounted(digits, rest);
    NoLeadingZero(n);
    Decimal.ValueOfDec(n);
    assert Decimal.IsDigit(digits[0]) && s[0] == digits[0];
    assert s[..|digits|] == digits && s[|digits|..] == rest;
  }

  lemma ReadItemIs(item: Item, rest: string)
    requires Printable(item) && rest != "" && !Decimal.IsDigit(rest[0])
    ensures ReadValue(PrintItem(item) + rest) == Some((Meaning(item), rest))
  {
    match item
    case Text(body) =>
      ReadStringIs(body, rest);
      assert PrintItem(item) + rest == "\"" + body + "\"" + rest;
    case Number(n) => ReadNumberIs(n, rest);
    case Flag(b) =>
      assert b ==> ("true" + rest)[4..] == rest;
      assert !b ==> ("false" + rest)[5..] == rest;
    case Null =>
      assert ("null" + rest)[4..] == rest;
  }

  function Entries(members: seq<Member>): (entries: seq<Entry>)
    requires forall i :: 0 <= i < |members| ==> Printable(members[i].item)
    ensures |entries| == |members|
    ensures forall i :: 0 <= i < |members| ==>
              entries[i] == Entry(Units(members[i].name), Meaning(members[i].item))
  {
    if members == [] then []
    else [Entry(Units(members[0].name), Meaning(members[0].item))] + Entries(members[1..])
  }

  lemma ReadOneMember(name: string, item: Item, rest: string)
    requires Plain(name) && Printable(item) && rest != "" && (rest[0] == ',' || rest == "}")
    ensures ReadMembers("\"" + name + "\":" + PrintItem(item) + rest) ==
            if rest == "}" then Some([Entry(Units(name), Meaning(item))])
            else match ReadMembers(rest[1..])
                 case None => None
                 case Some(more) => Some([Entry(Units(name), Meaning(item))] + more)
  {
    hide Decode, Units, Meaning, PrintItem, Plain, Printable, ReadValue, ReadString;
    var tail := PrintItem(item) + rest;
    PlainDecodes(name);
    ReadStringIs(name, ":" + tail);
    assert "\"" + name + "\":" + PrintItem(item) + rest == "\"" + name + "\"" + (":" + tail);
    assert (":" + tail)[1..] == tail;
    ReadItemIs(item, rest);
  }

  lemma {:induction false} ReadMembersIs(members: seq<Member>)
    requires members != []
    requires forall i :: 0 <= i < |members| ==> Plain(members[i].name) && Printable(members[i].item)
    ensures ReadMembers(PrintMembers(members)) == Some(Entries(members))
  {
    hide Decode, Units, Meaning, PrintItem, Plain, Printable, ReadMembers;
    var first := members[0];
    if |members| == 1 {
      ReadOneMember(first.name, first.item, "}");
      assert PrintMembers(members) == "\"" + first.name + "\":" + PrintItem(first.item) + "}";
      assert ReadMembers(PrintMembers(members)) == Some([Entry(Units(first.name), Meaning(first.item))]);
      assert |Entries(members)| == 1;
      assert Entries(members)[0] == Entry(Units(first.name), Meaning(first.item));
      assert Entries(members) == [Entry(Units(first.name), Meaning(first.item))];
    } else {
      var more := PrintMembers(members[1..]);
      ReadMembersIs(members[1..]);
      ReadOneMember(first.name, first.item, "," + more);
      assert ("," + more)[1..] == more;
    }
  }

  /** A printed object reads back as its members. */
  lemma {:induction false} ReadsBack(members: seq<Member>)
    requires members != []
    requires forall i :: 0 <= i < |members| ==> Plain(members[i].name) && Printable(members[i].item)
    ensures ReadObject(PrintObject(members)) == Some(Entries(members))
  {
    hide Decode, Units, Meaning, PrintItem, Plain, Printable, ReadMembers;
    ReadMembersIs(members);
    assert PrintObject(members)[1..] == PrintMembers(members);
    assert PrintObject(members)[1] == '"';
  }

  // ---- How long a printed object is ----

  function Width(members: seq<Member>): nat {
    if members == [] then 0
    else |members[0].name| + 4 + |PrintItem(members[0].item)| + Width(members[1..])
  }

  lemma {:induction false} PrintedWidth(members: seq<Member>)
    requires members != []
    ensures |PrintMembers(members)| == Width(members)
  {
    hide PrintItem;
    if |members| > 1 { PrintedWidth(members[1..]); } else { assert Width(members[1..]) == 0; }
  }

  lemma {:induction false} WidthConcat(a: seq<Member>, b: seq<Member>)
    ensures Width(a + b) == Width(a) + Width(b)
  {
    hide PrintItem;
    if a == [] {
      assert a + b == b;
    } else {
      assert (a + b)[1..] == a[1..] + b;
      WidthConcat(a[1..], b);
    }
  }

  lemma Digits64(n: nat)
    requires n < Platform.UINT64
    ensures |Decimal.Dec(n)| <= 20
  {
    assert Decimal.Pow10(5) == 100_000;
    assert Decimal.Pow10(10) == 10_000_000_000;
    assert Decimal.Pow10(15) == 1_000_000_000_000_000;
    assert Decimal.Pow10(20) == 100_000_000_000_000_000_000;
    Decimal.DecWidth(n, 20);
  }

  // ---- The client's message ----

  const ERROR_SIZE := 1024
  const CLIENT_SIZE := 2600

  /** Every negotiated column is printed as a text. */
  predicate Spoken(n: Store.Negotiated) {
    n.group.Some? && n.tlsVersion.Some? && n.cipher.Some?
  }

  /** And in the form both programs hold it: short and without quotes or backslashes. */
  predicate Wordy(n: Store.Negotiated) {
    Spoken(n) &&
    |n.group.value| < 100 && |n.tlsVersion.value| < 50 && |n.cipher.value| < 120 &&
    Plain(n.group.value) && Plain(n.tlsVersion.value) && Plain(n.cipher.value)
  }

  function TextMember(name: string, text: string): seq<Member> {
    [Member(name, Text(text))]
  }

  function NumberMember(name: string, n: nat): seq<Member> {
    [Member(name, Number(n))]
  }

  /** The members both reporters begin with. */
  function CommonMembers(sampleId: string, runId: string, mode: Mode, group: string, n: Store.Negotiated): seq<Member>
    requires Spoken(n)
  {
    TextMember("sample_id", sampleId) + TextMember("run_id", runId) +
    TextMember("mode", Name(mode)) + TextMember("expected_group", group) +
    TextMember("negotiated_group", n.group.value) + TextMember("tls_version", n.tlsVersion.value) +
    TextMember("cipher", n.cipher.value)
  }

  function SpanMembers(tcp: nat, handshake: nat, ttfb: nat, total: nat, sent: nat, received: nat): seq<Member> {
    NumberMember("client_tcp_us", tcp) + NumberMember("client_handshake_us", handshake) +
    NumberMember("client_ttfb_us", ttfb) + NumberMember("client_total_us", total) +
    NumberMember("bytes_sent", sent) + NumberMember("bytes_received", received)
  }

  function ErrorItem(success: bool, error: string): Item {
    if success then Null else Text(Escaped(error, ERROR_SIZE))
  }

  function OutcomeMembers(success: bool, error: string): seq<Member> {
    [Member("success", Flag(success))] + [Member("error", ErrorItem(success, error))]
  }

  /** The expected group and the names the TLS library reports need no escaping; `probe` sees to the rest. */
  predicate Reportable(key: ProbeKey, endpoint: Endpoint, a: Attempt) {
    ClientKey(key) && Timed(a.times, a.exit) && Sized(a) && Wordy(a.negotiated) && PlainGroup(endpoint)
  }

  predicate PlainGroup(endpoint: Endpoint) {
    |endpoint.group| <= 80 && Plain(endpoint.group)
  }

  /** No name that OpenSSL has for a group, a version or a cipher contains quotes, backslashes or control characters. */
  predicate PlainNames(session: Session) {
    (session.group.Some? ==> Plain(session.group.value)) && Plain(session.version) && Plain(session.cipher)
  }

  lemma PlainNamesAreWordy(session: Session)
    requires PlainNames(session)
    ensures Wordy(Reported(session)) && Wordy(NOTHING_REPORTED)
  {
  }

  function ClientMembers(key: ProbeKey, endpoint: Endpoint, a: Attempt): seq<Member>
    requires Timed(a.times, a.exit) && Spoken(a.negotiated)
  {
    SpansAreTrue(a.times, a.exit);
    var s := Recorded(a.times);
    CommonMembers(SampleId(key), key.runId, endpoint.mode, endpoint.group, a.negotiated) +
    SpanMembers(s.tcp, s.handshake, s.ttfb, s.total, a.bytesSent, a.bytesReceived) +
    OutcomeMembers(a.exit.Done?, a.error)
  }

  /** The message as it stands in the client's buffer. */
  function ClientMessage(key: ProbeKey, endpoint: Endpoint, a: Attempt): string
    requires Timed(a.times, a.exit) && Spoken(a.negotiated)
  {
    Printed(PrintObject(ClientMembers(key, endpoint, a)), CLIENT_SIZE)
  }

  // ---- The payload the dashboard is meant to read ----

  function StrOf(text: Option<string>): Value {
    if text.Some? then Str(Units(text.value)) else Nil
  }

  function NumOf(n: Option<int>): Value {
    if n.Some? && n.value >= 0 then Num(n.value) else Nil
  }

  function TextEntry(name: string, text: Option<string>): seq<Entry> {
    [Entry(Units(name), StrOf(text))]
  }

  function NumberEntry(name: string, n: Option<int>): seq<Entry> {
    [Entry(Units(name), NumOf(n))]
  }

  function CommonEntries(sampleId: string, runId: string, mode: Mode, group: string, n: Store.Negotiated): seq<Entry> {
    TextEntry("sample_id", Some(sampleId)) + TextEntry("run_id", Some(runId)) +
    TextEntry("mode", Some(Name(mode))) + TextEntry("expected_group", Some(group)) +
    TextEntry("negotiated_group", n.group) + TextEntry("tls_version", n.tlsVersion) + TextEntry("cipher", n.cipher)
  }

  function SpanEntries(t: Store.ClientTiming): seq<Entry> {
    NumberEntry("client_tcp_us", t.tcpUs) + NumberEntry("client_handshake_us", t.handshakeUs) +
    NumberEntry("client_ttfb_us", t.ttfbUs) + NumberEntry("client_total_us", t.totalUs) +
    NumberEntry("bytes_sent", t.bytesSent) + NumberEntry("bytes_received", t.bytesReceived)
  }

  function OutcomeEntries(success: bool, error: Option<string>): seq<Entry> {
    [Entry(Units("success"), Bool(success))] + TextEntry("error", error)
  }

  function ClientEntries(p: Store.ClientPayload): seq<Entry> {
    CommonEntries(p.sampleId, p.runId, p.mode, p.expectedGroup, p.negotiated) + SpanEntries(p.timing) +
    OutcomeEntries(p.success, p.error)
  }

  function ServerMembers(p: Store.ServerPayload): seq<Member>
    requires Spoken(p.negotiated) && p.handshakeUs >= 0
  {
    CommonMembers(p.sampleId, p.runId, p.mode, p.expectedGroup, p.negotiated) +
    NumberMember("server_handshake_us", p.handshakeUs)
  }

  function ServerEntries(p: Store.ServerPayload): seq<Entry> {
    CommonEntries(p.sampleId, p.runId, p.mode, p.expectedGroup, p.negotiated) +
    NumberEntry("server_handshake_us", Some(p.handshakeUs))
  }

  // ---- Nothing is cut off and nothing is misread ----

  predicate AllPrintable(members: seq<Member>) {
    forall i :: 0 <= i < |members| ==> Plain(members[i].name) && Printable(members[i].item)
  }

  /** These members print within a width and mean these entries. */
  predicate Says(members: seq<Member>, entries: seq<Entry>, width: nat) {
    AllPrintable(members) && Entries(members) == entries && Width(members) <= width
  }

  lemma {:induction false} SaysBoth(a: seq<Member>, x: seq<Entry>, v: nat, b: seq<Member>, y: seq<Entry>, w: nat)
    requires Says(a, x, v) && Says(b, y, w)
    ensures Says(a + b, x + y, v + w)
  {
    hide Units, Meaning, Printable, Plain, Width;
    WidthConcat(a, b);
  }

  lemma {:induction false} SaysOne(name: string, item: Item)
    requires Plain(name) && Printable(item)
    ensures Says([Member(name, item)], [Entry(Units(name), Meaning(item))], |name| + 4 + |PrintItem(item)|)
  {
    hide Units, Meaning, PrintItem, Plain, Printable;
    var members := [Member(name, item)];
    assert members[1..] == [];
    assert Width(members[1..]) == 0;
    assert Entries(members) == [Entry(Units(name), Meaning(item))];
  }

  lemma {:induction false} SaysText(name: string, text: string, w: nat)
    requires Plain(name) && Plain(text) && |name| + 6 + |text| <= w
    ensures Says(TextMember(name, text), TextEntry(name, Some(text)), w)
  {
    PlainDecodes(text);
    SaysOne(name, Text(text));
  }

  lemma {:induction false} SaysNumber(name: string, n: nat, w: nat)
    requires Plain(name) && n < Platform.UINT64 && |name| + 24 <= w
    ensures Says(NumberMember(name, n), NumberEntry(name, Some(n)), w)
  {
    Digits64(n);
    SaysOne(name, Number(n));
  }

  lemma {:induction false} SaysOutcome(success: bool, error: string)
    requires |error| < 512 && NoNul(error)
    ensures Says(OutcomeMembers(success, error),
                 OutcomeEntries(success, if success then None else Some(Sanitise(error))), 1049)
    ensures |PrintItem(ErrorItem(success, error))| < 1100
  {
    hide Units, Decode, Escaped, Entries, Sanitise, Says;
    ErrorSaid(error);
    SaysOne("success", Flag(success));
    SaysOne("error", ErrorItem(success, error));
    var item := ErrorItem(success, error);
    var flag, said := [Member("success", Flag(success))], [Entry(Units("success"), Bool(success))];
    var reason, told := [Member("error", item)], [Entry(Units("error"), Meaning(item))];
    SaysWider(flag, said, 11 + |PrintItem(Flag(success))|, 16);
    SaysWider(reason, told, 9 + |PrintItem(item)|, 1033);
    SaysBoth(flag, said, 16, reason, told, 1033);
  }

  lemma {:induction false} SaysWider(members: seq<Member>, entries: seq<Entry>, v: nat, w: nat)
    requires Says(members, entries, v) && v <= w
    ensures Says(members, entries, w)
  {
  }

  /** An error of at most 511 characters is escaped whole and reads back sanitised. */
  lemma {:induction false} ErrorSaid(error: string)
    requires |error| < 512 && NoNul(error)
    ensures Decode(Escaped(error, ERROR_SIZE)) == Some(Units(Sanitise(error)))
    ensures |Escaped(error, ERROR_SIZE)| <= 1022
  {
    TakesAllExactly(error, ERROR_SIZE);
    EscapedDecodes(error, ERROR_SIZE);
    assert error[..|error|] == error && error[..0] == [];
    EscapeGrows(error, 0, |error|);
  }

  lemma {:induction false} IdentifiersArePlain(text: string)
    requires AllIdentifierChars(text)
    ensures Plain(text)
  {
  }

  lemma {:induction false} SaysIds(sampleId: string, runId: string)
    requires AllIdentifierChars(sampleId) && AllIdentifierChars(runId) && |sampleId| <= 179 && |runId| <= 160
    ensures Says(TextMember("sample_id", sampleId) + TextMember("run_id", runId),
                 TextEntry("sample_id", Some(sampleId)) + TextEntry("run_id", Some(runId)), 366)
  {
    hide Says, TextMember, TextEntry, AllIdentifierChars;
    IdentifiersArePlain(sampleId);
    IdentifiersArePlain(runId);
    SaysText("sample_id", sampleId, 194);
    SaysText("run_id", runId, 172);
    SaysBoth(TextMember("sample_id", sampleId), TextEntry("sample_id", Some(sampleId)), 194,
             TextMember("run_id", runId), TextEntry("run_id", Some(runId)), 172);
  }

  /** Adding one more text to what is said. */
  lemma {:induction false} SaysThen(members: seq<Member>, entries: seq<Entry>, v: nat,
                                    name: string, text: string, w: nat)
    requires Says(members, entries, v) && Plain(name) && Plain(text) && |name| + 6 + |text| <= w
    ensures Says(members + TextMember(name, text), entries + TextEntry(name, Some(text)), v + w)
  {
    hide Says, TextMember, TextEntry, Plain;
    SaysText(name, text, w);
    SaysBoth(members, entries, v, TextMember(name, text), TextEntry(name, Some(text)), w);
  }

  lemma {:induction false} SaysThenNumber(members: seq<Member>, entries: seq<Entry>, v: nat,
                                          name: string, n: nat, w: nat)
    requires Says(members, entries, v) && Plain(name) && n < Platform.UINT64 && |name| + 24 <= w
    ensures Says(members + NumberMember(name, n), entries + NumberEntry(name, Some(n)), v + w)
  {
    hide Says, NumberMember, NumberEntry, Plain;
    SaysNumber(name, n, w);
    SaysBoth(members, entries, v, NumberMember(name, n), NumberEntry(name, Some(n)), w);
  }

  lemma {:induction false} SaysCommon(sampleId: string, runId: string, mode: Mode, group: string, n: Store.Negotiated)
    requires AllIdentifierChars(sampleId) && AllIdentifierChars(runId) && |sampleId| <= 179 && |runId| <= 160
    requires Wordy(n) && |group| <= 80 && Plain(group)
    ensures Says(CommonMembers(sampleId, runId, mode, group, n), CommonEntries(sampleId, runId, mode, group, n), 840)
  {
    NameIsPlain(mode);
    hide Says, TextMember, TextEntry, Name, AllIdentifierChars;
    SaysIds(sampleId, runId);
    var m, e := TextMember("sample_id", sampleId) + TextMember("run_id", runId),
                TextEntry("sample_id", Some(sampleId)) + TextEntry("run_id", Some(runId));
    SaysThen(m, e, 366, "mode", Name(mode), 21);
    m, e := m + TextMember("mode", Name(mode)), e + TextEntry("mode", Some(Name(mode)));
    SaysThen(m, e, 387, "expected_group", group, 100);
    m, e := m + TextMember("expected_group", group), e + TextEntry("expected_group", Some(group));
    SaysThen(m, e, 487, "negotiated_group", n.group.value, 121);
    m, e := m + TextMember("negotiated_group", n.group.value), e + TextEntry("negotiated_group", n.group);
    SaysThen(m, e, 608, "tls_version", n.tlsVersion.value, 66);
    m, e := m + TextMember("tls_version", n.tlsVersion.value), e + TextEntry("tls_version", n.tlsVersion);
    SaysThen(m, e, 674, "cipher", n.cipher.value, 166);
  }

  lemma {:induction false} NameIsPlain(mode: Mode)
    ensures Plain(Name(mode)) && |Name(mode)| <= 11
  {
  }

  lemma {:induction false} SaysPhases(tcp: nat, handshake: nat, ttfb: nat)
    requires tcp < Platform.UINT64 && handshake < Platform.UINT64 && ttfb < Platform.UINT64
    ensures Says(NumberMember("client_tcp_us", tcp) + NumberMember("client_handshake_us", handshake) +
                   NumberMember("client_ttfb_us", ttfb),
                 NumberEntry("client_tcp_us", Some(tcp)) + NumberEntry("client_handshake_us", Some(handshake)) +
                   NumberEntry("client_ttfb_us", Some(ttfb)),
                 129)
  {
    hide Says, NumberMember, NumberEntry;
    SaysNumber("client_tcp_us", tcp, 43);
    var m, e := NumberMember("client_tcp_us", tcp), NumberEntry("client_tcp_us", Some(tcp));
    SaysThenNumber(m, e, 43, "client_handshake_us", handshake, 43);
    m, e := m + NumberMember("client_handshake_us", handshake), e + NumberEntry("client_handshake_us", Some(handshake));
    SaysThenNumber(m, e, 86, "client_ttfb_us", ttfb, 43);
  }

  lemma {:induction false} SaysSpans(tcp: nat, handshake: nat, ttfb: nat, total: nat, sent: nat, received: nat)
    requires tcp < Platform.UINT64 && handshake < Platform.UINT64 && ttfb < Platform.UINT64
    requires total < Platform.UINT64 && sent < Platform.UINT64 && received < Platform.UINT64
    ensures Says(SpanMembers(tcp, handshake, ttfb, total, sent, received),
                 SpanEntries(Store.ClientTiming(Some(tcp), Some(handshake), Some(ttfb), Some(total),
                                                Some(sent), Some(received))),
                 258)
  {
    hide Says, NumberMember, NumberEntry;
    SaysPhases(tcp, handshake, ttfb);
    var m := NumberMember("client_tcp_us", tcp) + NumberMember("client_handshake_us", handshake) +
             NumberMember("client_ttfb_us", ttfb);
    var e := NumberEntry("client_tcp_us", Some(tcp)) + NumberEntry("client_handshake_us", Some(handshake)) +
             NumberEntry("client_ttfb_us", Some(ttfb));
    SaysThenNumber(m, e, 129, "client_total_us", total, 43);
    m, e := m + NumberMember("client_total_us", total), e + NumberEntry("client_total_us", Some(total));
    SaysThenNumber(m, e, 172, "bytes_sent", sent, 43);
    m, e := m + NumberMember("bytes_sent", sent), e + NumberEntry("bytes_sent", Some(sent));
    SaysThenNumber(m, e, 215, "bytes_received", received, 43);
  }

  /** What is said within a buffer's size is printed whole and read back. */
  lemma {:induction false} SaidAndRead(members: seq<Member>, entries: seq<Entry>, width: nat, size: nat)
    requires Says(members, entries, width) && members != [] && width + 1 < size
    ensures Printed(PrintObject(members), size) == PrintObject(members)
    ensures ReadObject(Printed(PrintObject(members), size)) == Some(entries)
  {
    hide Units, Meaning, Printable, Plain, PrintMembers, Entries, Width, ReadObject;
    PrintedWidth(members);
    ReadsBack(members);
  }

  /**
   The client's message is never cut off by its buffers, whatever went wrong in the probe, and a
   JSON reader recovers from it exactly the payload the client meant to report.
   */
  lemma {:induction false} ClientMessageReadsBack(key: ProbeKey, endpoint: Endpoint, a: Attempt)
    requires Reportable(key, endpoint, a)
    ensures ClientMessage(key, endpoint, a) == PrintObject(ClientMembers(key, endpoint, a))
    ensures ReadObject(ClientMessage(key, endpoint, a)) == Some(ClientEntries(HalfOf(key, endpoint, a)))
  {
    hide Says, CommonMembers, CommonEntries, SpanMembers, SpanEntries, OutcomeMembers, OutcomeEntries,
         SampleId, Sanitise, AllIdentifierChars, PrintObject, ReadObject;
    SpansAreTrue(a.times, a.exit);
    Requests.HeadLength(key, true);
    Requests.RunIdChars(key);
    var s := Recorded(a.times);
    var common := CommonMembers(SampleId(key), key.runId, endpoint.mode, endpoint.group, a.negotiated);
    var spans := SpanMembers(s.tcp, s.handshake, s.ttfb, s.total, a.bytesSent, a.bytesReceived);
    var outcome := OutcomeMembers(a.exit.Done?, a.error);
    var half := HalfOf(key, endpoint, a);
    var x := CommonEntries(half.sampleId, half.runId, half.mode, half.expectedGroup, half.negotiated);
    var y, z := SpanEntries(half.timing), OutcomeEntries(half.success, half.error);
    SaysCommon(SampleId(key), key.runId, endpoint.mode, endpoint.group, a.negotiated);
    SaysSpans(s.tcp, s.handshake, s.ttfb, s.total, a.bytesSent, a.bytesReceived);
    SaysOutcome(a.exit.Done?, a.error);
    SaysBoth(common, x, 840, spans, y, 258);
    SaysBoth(common + spans, x + y, 1098, outcome, z, 1049);
    SixSpans(s.tcp, s.handshake, s.ttfb, s.total, a.bytesSent, a.bytesReceived);
    assert |common + spans + outcome| >= 6;
    SaidAndRead(common + spans + outcome, x + y + z, 2147, CLIENT_SIZE);
  }

  lemma {:induction false} SixSpans(tcp: nat, handshake: nat, ttfb: nat, total: nat, sent: nat, received: nat)
    ensures |SpanMembers(tcp, handshake, ttfb, total, sent, received)| == 6
  {
  }

  // ---- The message that creates a run ----

  const VERSION_SIZE := 500
  const RUN_SIZE := 1400
  const CLIENT_NAME := "openssl-c-client"
  const NOTES := "Rotating classical/hybrid/" + "hybrid_p256 order; TLS 1.3; " + "fresh full handshakes"

  /** What is left of the library's version text in its buffer. */
  function VersionKept(version: string): string {
    Sanitise(version[..Taken(version, VERSION_SIZE)])
  }

  /** A version text of up to 249 characters is kept whole, of others at least as much. */
  lemma VersionWhole(version: string)
    ensures |version| <= 249 ==> VersionKept(version) == Sanitise(version)
    ensures |version| > 249 ==> Taken(version, VERSION_SIZE) >= 249
  {
    hide Sanitise;
    TakesAllExactly(version, VERSION_SIZE);
    if |version| <= 249 {
      assert version[..|version|] == version;
    } else {
      TakenStops(version, VERSION_SIZE, 0);
      var k := Taken(version, VERSION_SIZE);
      assert version[..0] == [];
      if k < |version| { EscapeGrows(version, 0, k); }
    }
  }

  /** The run as the client describes it. */
  function RunOf(runId: string, version: string, iterations: nat, warmup: nat): Store.RunPayload {
    Store.RunPayload(runId, Some("openssl-c-client"), Some(VersionKept(version)), Some(iterations), Some(warmup),
                     Some(NOTES))
  }

  function RunMembers(runId: string, version: string, iterations: nat, warmup: nat): seq<Member> {
    TextMember("run_id", runId) + TextMember("client_name", CLIENT_NAME) +
    TextMember("openssl_version", Escaped(version, VERSION_SIZE)) + NumberMember("iterations", iterations) +
    NumberMember("warmup", warmup) + TextMember("notes", NOTES)
  }

  function RunEntries(p: Store.RunPayload): seq<Entry> {
    TextEntry("run_id", Some(p.runId)) + TextEntry("client_name", p.clientName) +
    TextEntry("openssl_version", p.opensslVersion) + NumberEntry("iterations", p.iterations) +
    NumberEntry("warmup", p.warmup) + TextEntry("notes", p.notes)
  }

  function RunMessage(runId: string, version: string, iterations: nat, warmup: nat): string {
    Printed(PrintObject(RunMembers(runId, version, iterations, warmup)), RUN_SIZE)
  }

  lemma PlainConcat(a: string, b: string)
    requires Plain(a) && Plain(b)
    ensures Plain(a + b)
  {
  }

  lemma PlainNotes()
    ensures Plain(NOTES) && |NOTES| <= 80
  {
    var a, b, c := "Rotating classical/hybrid/", "hybrid_p256 order; TLS 1.3; ", "fresh full handshakes";
    PlainRotating();
    PlainOrder();
    PlainFresh();
    PlainConcat(a, b);
    PlainConcat(a + b, c);
  }

  lemma PlainRotating()
    ensures Plain("Rotating classical/hybrid/")
  {
  }

  lemma PlainOrder()
    ensures Plain("hybrid_p256 order; TLS 1.3; ")
  {
  }

  lemma PlainFresh()
    ensures Plain("fresh full handshakes")
  {
  }

  lemma {:induction false} SaysVersion(version: string)
    requires NoNul(version)
    ensures Says(TextMember("openssl_version", Escaped(version, VERSION_SIZE)),
                 TextEntry("openssl_version", Some(VersionKept(version))), 520)
  {
    hide Units, Decode, Escaped, Entries, Sanitise, Says;
    EscapedDecodes(version, VERSION_SIZE);
    var item := Text(Escaped(version, VERSION_SIZE));
    SaysOne("openssl_version", item);
    SaysWider([Member("openssl_version", item)], [Entry(Units("openssl_version"), Meaning(item))],
              19 + |PrintItem(item)|, 520);
  }

  /** The message that creates the run is never cut, and reads back as the client described the run. */
  lemma {:induction false} RunMessageReadsBack(runId: string, version: string, iterations: nat, warmup: nat)
    requires IsIdentifier(runId) && NoNul(version) && iterations < Platform.UINT64 && warmup < Platform.UINT64
    ensures RunMessage(runId, version, iterations, warmup) ==
            PrintObject(RunMembers(runId, version, iterations, warmup))
    ensures ReadObject(RunMessage(runId, version, iterations, warmup)) ==
            Some(RunEntries(RunOf(runId, version, iterations, warmup)))
  {
    hide Says, TextMember, TextEntry, NumberMember, NumberEntry, AllIdentifierChars, Escaped, VersionKept, PrintObject,
         ReadObject, NOTES, CLIENT_NAME;
    IdentifiersArePlain(runId);
    ClientIsPlain();
    PlainNotes();
    var m, e := TextMember("run_id", runId), TextEntry("run_id", Some(runId));
    SaysText("run_id", runId, 172);
    SaysThen(m, e, 172, "client_name", CLIENT_NAME, 33);
    m, e := m + TextMember("client_name", CLIENT_NAME), e + TextEntry("client_name", Some(CLIENT_NAME));
    SaysVersion(version);
    SaysBoth(m, e, 205, TextMember("openssl_version", Escaped(version, VERSION_SIZE)),
             TextEntry("openssl_version", Some(VersionKept(version))), 520);
    m, e := m + TextMember("openssl_version", Escaped(version, VERSION_SIZE)),
            e + TextEntry("openssl_version", Some(VersionKept(version)));
    SaysThenNumber(m, e, 725, "iterations", iterations, 34);
    m, e := m + NumberMember("iterations", iterations), e + NumberEntry("iterations", Some(iterations));
    SaysThenNumber(m, e, 759, "warmup", warmup, 30);
    m, e := m + NumberMember("warmup", warmup), e + NumberEntry("warmup", Some(warmup));
    SaysThen(m, e, 789, "notes", NOTES, 91);
    SomeMembers(runId, version, iterations, warmup);
    SaidAndRead(m + TextMember("notes", NOTES), e + TextEntry("notes", Some(NOTES)), 880, RUN_SIZE);
  }

  lemma ClientIsPlain()
    ensures Plain(CLIENT_NAME) && |CLIENT_NAME| == 16 && CLIENT_NAME == "openssl-c-client"
  {
  }

  lemma SomeMembers(runId: string, version: string, iterations: nat, warmup: nat)
    ensures RunMembers(runId, version, iterations, warmup) != []
  {
  }

  // ---- What reading depends on ----

  lemma UnitsInjective(a: string, b: string)
    requires Units(a) == Units(b)
    ensures a == b
  {
    assert |a| == |b|;
    forall i | 0 <= i < |a| ensures a[i] == b[i] {
      assert Units(a)[i] == Units(b)[i];
    }
  }

  predicate Countable(n: Option<int>) {
    n.None? || n.value >= 0
  }

  /** No reporter prints a negative number. */
  predicate CountableTiming(t: Store.ClientTiming) {
    Countable(t.tcpUs) && Countable(t.handshakeUs) && Countable(t.ttfbUs) && Countable(t.totalUs) &&
    Countable(t.bytesSent) && Countable(t.bytesReceived)
  }
}
