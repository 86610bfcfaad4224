/**
 The probe request: what the client prints, what the server reads back out of it, and the proof
 that the two agree for every run id the server's buffers can hold.
 */
module Requests {
  import opened Wrappers
  import opened CText
  import opened SampleIds

  // ---- The server's search ----

  const PATTERN_SIZE := 64
  const SAMPLE_BUFFER := 180
  const RUN_BUFFER := 140

  predicate Stops(c: char) {
    c == '&' || c == ' ' || c == '\r' || c == '\n'
  }

  /** Where a value that begins at `start` ends. */
  function ValueEnd(text: string, start: nat): (end: nat)
    requires start <= |text|
    ensures start <= end <= |text|
    ensures forall i :: start <= i < end ==> !Stops(text[i])
    ensures end < |text| ==> Stops(text[end])
    decreases |text| - start
  {
    if start == |text| || Stops(text[start]) then start else ValueEnd(text, start + 1)
  }

  /** The value the server takes for a name: after the first `name=`, up to a stop, if it fits and is an identifier. */
  function QueryValue(request: string, name: string, size: nat): Option<string> {
    var pattern := Printed(name + "=", PATTERN_SIZE);
    match StrStr(request, pattern)
    case None => None
    case Some(found) =>
      var start := found + |pattern|;
      var value := request[start..ValueEnd(request, start)];
      if |value| == 0 || |value| >= size || !IsIdentifier(value) then None else Some(value)
  }

  /** `memcpy` of a value into a buffer, and its NUL. */
  method CopyValue(request: array<char>, begin: nat, length: nat, output: array<char>)
    requires begin + length <= request.Length && length < output.Length && request != output
    modifies output
    ensures output[..length] == request[begin..begin + length] && output[length] == '\0'
  {
    for i := 0 to length
      invariant forall k :: 0 <= k < i ==> output[k] == request[begin + k]
    {
      output[i] := request[begin + i];
    }
    output[length] := '\0';
  }

  method ScanValue(request: array<char>, begin: nat) returns (end: nat)
    requires begin <= |UpToNul(request[..])| < request.Length
    ensures end == ValueEnd(UpToNul(request[..]), begin)
  {
    ghost var text := UpToNul(request[..]);
    assert request[..][|text|] == '\0';
    assert forall i :: 0 <= i < |text| ==> text[i] == request[..][i];
    end := begin;
    while request[end] != '\0' && request[end] != '&' && request[end] != ' ' &&
          request[end] != '\r' && request[end] != '\n'
      invariant begin <= end <= |text|
      invariant ValueEnd(text, begin) == ValueEnd(text, end)
      decreases |text| - end
    {
      assert end != |text|;
      end := end + 1;
    }
    assert end < |text| ==> text[end] != '\0';
  }

  method ExtractQueryValue(request: array<char>, name: string, output: array<char>) returns (found: bool)
    requires '\0' in request[..] && request != output
    modifies output
    ensures found <==> QueryValue(UpToNul(request[..]), name, output.Length).Some?
    ensures found ==> UpToNul(output[..]) == QueryValue(UpToNul(request[..]), name, output.Length).value
  {
    hide StrStr, ValueEnd, IsIdentifier, UpToNul;
    ghost var buffer := request[..];
    ghost var text := UpToNul(buffer);
    assert |text| < |buffer|;
    var pattern := Printed(name + "=", PATTERN_SIZE);
    var start := StrStr(UpToNul(request[..]), pattern);
    if start.None? { return false; }
    var begin := start.value + |pattern|;
    var end := ScanValue(request, begin);
    var length := end - begin;
    if length == 0 || length >= output.Length { return false; }
    CopyValue(request, begin, length, output);
    assert request[..] == buffer;
    ghost var value := text[begin..end];
    assert value == buffer[begin..end];
    UpToNulIs(output[..], value);
    found := ValidIdentifier(UpToNul(output[..]));
  }

  /** The server records a probe under these ids. */
  datatype Ids = Ids(sampleId: string, runId: string)

  function RecordedAs(request: string): Option<Ids> {
    var sample, run := QueryValue(request, "sample_id", SAMPLE_BUFFER), QueryValue(request, "run_id", RUN_BUFFER);
    if Contains(request, "record=1") && sample.Some? && run.Some?
    then Some(Ids(sample.value, run.value)) else None
  }

  // ---- The client's request ----

  const REQUEST_SIZE := 640

  function Path(sampleId: string, runId: string, record: bool): string {
    "GET /probe" + "?" + "sample_id=" + sampleId + "&" + "run_id=" + runId + "&" +
    "record=" + (if record then "1" else "0")
  }

  /** Everything before the Host value. */
  function Head(sampleId: string, runId: string, record: bool): string {
    Path(sampleId, runId, record) + " " + "HTTP/1.1\r\nHost:" + " "
  }

  const AFTER_HOST := "\r\nConnection: close\r\n\r\n"

  function FullRequest(sampleId: string, runId: string, record: bool, host: string): string {
    Head(sampleId, runId, record) + host + AFTER_HOST
  }

  /** The request as it stands in the client's 640-byte buffer. */
  function ProbeRequest(key: ProbeKey, record: bool, host: string): string {
    Printed(FullRequest(SampleId(key), key.runId, record, host), REQUEST_SIZE)
  }

  /** The part of the Host value the buffer has room for. */
  function HostKept(key: ProbeKey, record: bool, host: string): string {
    var room := REQUEST_SIZE - 1 - |Head(SampleId(key), key.runId, record)|;
    if |host| <= room || room < 0 then host else host[..room]
  }

  // ---- Occurrences and separators ----

  /** An occurrence never straddles a character the pattern does not have. */
  lemma OccursAcross(a: string, c: char, b: string, pattern: string, i: nat)
    requires c !in pattern && pattern != []
    ensures OccursAt(a + [c] + b, pattern, i) <==>
            OccursAt(a, pattern, i) || (i > |a| && OccursAt(b, pattern, i - |a| - 1))
  {
    var text := a + [c] + b;
    if i + |pattern| <= |a| {
      assert text[i..i + |pattern|] == a[i..i + |pattern|];
    } else if i > |a| {
      if i + |pattern| <= |text| {
        assert text[i..i + |pattern|] == b[i - |a| - 1..i - |a| - 1 + |pattern|];
      }
    } else {
      OccursChar(text, pattern, i, |a| - i);
    }
  }

  lemma ContainsAcross(a: string, c: char, b: string, pattern: string)
    requires c !in pattern && pattern != []
    ensures Contains(a + [c] + b, pattern) <==> Contains(a, pattern) || Contains(b, pattern)
  {
    var text := a + [c] + b;
    if Contains(text, pattern) {
      var i: nat :| i <= |text| && OccursAt(text, pattern, i);
      OccursAcross(a, c, b, pattern, i);
    }
    if Contains(a, pattern) {
      var i: nat :| i <= |a| && OccursAt(a, pattern, i);
      OccursAcross(a, c, b, pattern, i);
    }
    if Contains(b, pattern) {
      var i: nat :| i <= |b| && OccursAt(b, pattern, i);
      OccursAcross(a, c, b, pattern, i + |a| + 1);
      assert OccursAt(text, pattern, i + |a| + 1);
    }
  }

  /** The first occurrence in a text whose part before the separator has none. */
  lemma FoundAcross(a: string, c: char, b: string, pattern: string)
    requires c !in pattern && pattern != [] && !Contains(a, pattern) && pattern <= b
    ensures StrStr(a + [c] + b, pattern) == Some(|a| + 1)
  {
    var text := a + [c] + b;
    OccursAcross(a, c, b, pattern, |a| + 1);
    assert OccursAt(b, pattern, 0);
    forall i: nat | i <= |a| ensures !OccursAt(text, pattern, i) {
      OccursAcross(a, c, b, pattern, i);
    }
  }

  /** A pattern with a '=' does not occur in a text without one. */
  lemma NeedsEquals(text: string, pattern: string)
    requires '=' in pattern && '=' !in text
    ensures !Contains(text, pattern)
  {
    var k :| 0 <= k < |pattern| && pattern[k] == '=';
    forall i: nat ensures !OccursAt(text, pattern, i) {
      OccursChar(text, pattern, i, k);
    }
  }

  /**
   In `name=value` with no further '=', a pattern's '=' can only meet that one, so a pattern whose
   d-th character differs from the one that would face it does not occur.
   */
  lemma MissesField(name: string, value: string, pattern: string, k: nat, d: nat)
    requires '=' !in name && '=' !in value
    requires k < |pattern| && pattern[k] == '=' && d < |pattern| && k <= |name|
    requires |name| - k + d < |name + "=" + value| ==> pattern[d] != (name + "=" + value)[|name| - k + d]
    ensures !Contains(name + "=" + value, pattern)
  {
    var text := name + "=" + value;
    forall i: nat ensures !OccursAt(text, pattern, i) {
      OccursChar(text, pattern, i, k);
      OccursChar(text, pattern, i, d);
    }
  }

  // ---- Reading the ids back ----

  lemma IdentifierHasNo(text: string)
    requires AllIdentifierChars(text)
    ensures '=' !in text && '\0' !in text && forall i :: 0 <= i < |text| ==> !Stops(text[i])
  {
  }

  lemma ValueEndIs(text: string, start: nat, value: string)
    requires start + |value| < |text| && text[start..start + |value|] == value
    requires forall i :: 0 <= i < |value| ==> !Stops(value[i])
    requires Stops(text[start + |value|])
    ensures ValueEnd(text, start) == start + |value|
  {
    assert forall i :: 0 <= i < |value| ==> text[start + i] == value[i];
  }

  /** A name found at its first occurrence gives back the value that follows it. */
  lemma ReadsBack(a: string, c: char, name: string, value: string, stop: char, rest: string, size: nat)
    requires |name| < 60 && c !in name && c != '=' && !Contains(a, name + "=")
    requires AllIdentifierChars(value) && value != [] && stop in "& \r\n"
    ensures QueryValue(a + [c] + (name + "=" + value + [stop] + rest), name, size) ==
            if |value| < size && |value| <= 160 then Some(value) else None
  {
    hide StrStr, Contains, OccursAt, ValueEnd, Stops, AllIdentifierChars;
    var b := name + "=" + value + [stop] + rest;
    var text := a + [c] + b;
    FoundAcross(a, c, b, name + "=");
    IdentifierHasNo(value);
    var start := |a| + 1 + |name| + 1;
    assert text[start..start + |value|] == value;
    assert text[start + |value|] == stop;
    ValueEndIs(text, start, value);
  }

  lemma SampleIdReadsBack(sampleId: string, rest: string)
    requires AllIdentifierChars(sampleId) && sampleId != []
    ensures QueryValue("GET /probe" + "?" + "sample_id=" + sampleId + "&" + rest, "sample_id", SAMPLE_BUFFER) ==
            if |sampleId| <= 160 then Some(sampleId) else None
  {
    hide QueryValue, Contains, AllIdentifierChars;
    assert "sample_id" + "=" == "sample_id=";
    NeedsEquals("GET /probe", "sample_id=");
    ReadsBack("GET /probe", '?', "sample_id", sampleId, '&', rest, SAMPLE_BUFFER);
    assert "GET /probe" + ['?'] + ("sample_id" + "=" + sampleId + ['&'] + rest) ==
           "GET /probe" + "?" + "sample_id=" + sampleId + "&" + rest;
  }

  lemma NoRunIdBefore(sampleId: string)
    requires AllIdentifierChars(sampleId)
    ensures !Contains("GET /probe" + ['?'] + ("sample_id" + "=" + sampleId), "run_id" + "=")
  {
    assert "run_id" + "=" == "run_id=";
    IdentifierHasNo(sampleId);
    NeedsEquals("GET /probe", "run_id=");
    MissesField("sample_id", sampleId, "run_id=", 6, 0);
    ContainsAcross("GET /probe", '?', "sample_id" + "=" + sampleId, "run_id=");
  }

  lemma RunIdReadsBack(sampleId: string, runId: string, rest: string)
    requires AllIdentifierChars(sampleId) && AllIdentifierChars(runId) && 1 <= |runId| <= 160
    ensures QueryValue("GET /probe" + "?" + "sample_id=" + sampleId + "&" + "run_id=" + runId + "&" + rest,
                       "run_id", RUN_BUFFER) ==
            if |runId| < RUN_BUFFER then Some(runId) else None
  {
    hide QueryValue, Contains, AllIdentifierChars;
    var before := "GET /probe" + ['?'] + ("sample_id" + "=" + sampleId);
    NoRunIdBefore(sampleId);
    ReadsBack(before, '&', "run_id", runId, '&', rest, RUN_BUFFER);
    assert before + ['&'] + ("run_id" + "=" + runId + ['&'] + rest) ==
           "GET /probe" + "?" + "sample_id=" + sampleId + "&" + "run_id=" + runId + "&" + rest;
  }

  // ---- The record flag ----

  const FLAG := "record=1"

  lemma FlagInFields(sampleId: string, runId: string, record: bool)
    requires AllIdentifierChars(sampleId) && AllIdentifierChars(runId)
    ensures !Contains("sample_id" + "=" + sampleId, FLAG)
    ensures !Contains("run_id" + "=" + runId, FLAG)
    ensures Contains("record" + "=" + (if record then "1" else "0"), FLAG) <==> record
  {
    IdentifierHasNo(sampleId);
    IdentifierHasNo(runId);
    MissesField("sample_id", sampleId, FLAG, 6, 0);
    MissesField("run_id", runId, FLAG, 6, 1);
    if record {
      assert OccursAt("record" + "=" + "1", FLAG, 0);
    } else {
      MissesField("record", "0", FLAG, 6, 7);
    }
  }

  lemma FlagInPath(sampleId: string, runId: string, record: bool)
    requires AllIdentifierChars(sampleId) && AllIdentifierChars(runId)
    ensures Contains(Path(sampleId, runId, record), FLAG) <==> record
  {
    var s, r, d := "sample_id" + "=" + sampleId, "run_id" + "=" + runId,
                   "record" + "=" + (if record then "1" else "0");
    FlagInFields(sampleId, runId, record);
    NeedsEquals("GET /probe", FLAG);
    ContainsAcross("GET /probe", '?', s, FLAG);
    ContainsAcross("GET /probe" + ['?'] + s, '&', r, FLAG);
    ContainsAcross("GET /probe" + ['?'] + s + ['&'] + r, '&', d, FLAG);
    assert "GET /probe" + ['?'] + s + ['&'] + r + ['&'] + d == Path(sampleId, runId, record);
  }

  lemma FlagInRequest(sampleId: string, runId: string, record: bool, host: string, tail: string)
    requires AllIdentifierChars(sampleId) && AllIdentifierChars(runId)
    requires tail <= AFTER_HOST
    ensures Contains(Head(sampleId, runId, record) + host + tail, FLAG) <==> record || Contains(host, FLAG)
  {
    var path, middle := Path(sampleId, runId, record), "HTTP/1.1\r\nHost:";
    FlagInPath(sampleId, runId, record);
    NeedsEquals(middle, FLAG);
    ContainsAcross(path, ' ', middle, FLAG);
    ContainsAcross(path + [' '] + middle, ' ', host, FLAG);
    assert path + [' '] + middle + [' '] + host == Head(sampleId, runId, record) + host;
    if tail == [] {
      assert Head(sampleId, runId, record) + host + tail == Head(sampleId, runId, record) + host;
    } else {
      assert tail[0] == '\r';
      assert forall i :: 0 <= i < |tail| ==> tail[i] == AFTER_HOST[i];
      NeedsEquals(tail[1..], FLAG);
      ContainsAcross(Head(sampleId, runId, record) + host, '\r', tail[1..], FLAG);
      assert Head(sampleId, runId, record) + host + ['\r'] + tail[1..] ==
             Head(sampleId, runId, record) + host + tail;
    }
  }

  // ---- The round trip ----

  lemma HeadLength(key: ProbeKey, record: bool)
    requires ClientKey(key)
    ensures |Head(SampleId(key), key.runId, record)| == 55 + |SampleId(key)| + |key.runId|
    ensures 1 <= |SampleId(key)| <= 179 && AllIdentifierChars(SampleId(key))
  {
    FullIdChars(key);
  }

  /** How the 640 bytes are filled: the head always fits, the Host value and what follows it as far as there is room. */
  lemma RequestLayout(key: ProbeKey, record: bool, host: string) returns (tail: string)
    requires ClientKey(key)
    ensures tail <= AFTER_HOST
    ensures ProbeRequest(key, record, host) ==
            Head(SampleId(key), key.runId, record) + HostKept(key, record, host) + tail
  {
    HeadLength(key, record);
    var head := Head(SampleId(key), key.runId, record);
    var full := FullRequest(SampleId(key), key.runId, record, host);
    var kept := ProbeRequest(key, record, host);
    var room := REQUEST_SIZE - 1 - |head|;
    if |full| < REQUEST_SIZE {
      tail := AFTER_HOST;
    } else if |host| <= room {
      tail := AFTER_HOST[..room - |host|];
      assert kept == full[..REQUEST_SIZE - 1];
    } else {
      tail := [];
      assert kept == full[..REQUEST_SIZE - 1];
    }
  }

  lemma BothReadBack(sid: string, rid: string, after: string)
    requires AllIdentifierChars(sid) && AllIdentifierChars(rid) && 1 <= |sid| && 1 <= |rid| <= 160
    ensures var request := "GET /probe" + "?" + "sample_id=" + sid + "&" + "run_id=" + rid + "&" + after;
            QueryValue(request, "sample_id", SAMPLE_BUFFER) == (if |sid| <= 160 then Some(sid) else None) &&
            QueryValue(request, "run_id", RUN_BUFFER) == if |rid| < RUN_BUFFER then Some(rid) else None
  {
    var request := "GET /probe" + "?" + "sample_id=" + sid + "&" + "run_id=" + rid + "&" + after;
    RunIdReadsBack(sid, rid, after);
    SampleIdReadsBack(sid, "run_id=" + rid + "&" + after);
    assert request == "GET /probe" + "?" + "sample_id=" + sid + "&" + ("run_id=" + rid + "&" + after);
  }

  lemma PathFirst(sid: string, rid: string, record: bool, host: string, tail: string)
    ensures Head(sid, rid, record) + host + tail ==
            "GET /probe" + "?" + "sample_id=" + sid + "&" + "run_id=" + rid + "&" +
            ("record=" + (if record then "1" else "0") + " " + "HTTP/1.1\r\nHost:" + " " + host + tail)
  {
  }

  lemma CleanLiterals()
    ensures NoNul("GET /probe") && NoNul("?") && NoNul("sample_id=") && NoNul("&") && NoNul("run_id=")
    ensures NoNul("record=") && NoNul("1") && NoNul("0") && NoNul(" ")
    ensures NoNul("HTTP/1.1\r\nHost:") && NoNul(AFTER_HOST)
  {
  }

  lemma CleanConcat(a: string, b: string)
    requires NoNul(a) && NoNul(b)
    ensures NoNul(a + b)
  {
  }

  lemma CleanPath(sampleId: string, runId: string, record: bool)
    requires NoNul(sampleId) && NoNul(runId)
    ensures NoNul(Path(sampleId, runId, record))
  {
    CleanLiterals();
    hide NoNul;
    CleanConcat("GET /probe", "?");
    CleanConcat("GET /probe" + "?", "sample_id=");
    CleanConcat("GET /probe" + "?" + "sample_id=", sampleId);
    CleanConcat("GET /probe" + "?" + "sample_id=" + sampleId, "&");
    CleanConcat("GET /probe" + "?" + "sample_id=" + sampleId + "&", "run_id=");
    CleanConcat("GET /probe" + "?" + "sample_id=" + sampleId + "&" + "run_id=", runId);
    CleanConcat("GET /probe" + "?" + "sample_id=" + sampleId + "&" + "run_id=" + runId, "&");
    CleanConcat("GET /probe" + "?" + "sample_id=" + sampleId + "&" + "run_id=" + runId + "&", "record=");
    CleanConcat("GET /probe" + "?" + "sample_id=" + sampleId + "&" + "run_id=" + runId + "&" + "record=",
                if record then "1" else "0");
  }

  lemma CleanRequest(sampleId: string, runId: string, record: bool, host: string)
    requires NoNul(sampleId) && NoNul(runId) && NoNul(host)
    ensures NoNul(FullRequest(sampleId, runId, record, host))
  {
    CleanLiterals();
    CleanPath(sampleId, runId, record);
    hide NoNul, Path;
    var path := Path(sampleId, runId, record);
    CleanConcat(path, " ");
    CleanConcat(path + " ", "HTTP/1.1\r\nHost:");
    CleanConcat(path + " " + "HTTP/1.1\r\nHost:", " ");
    CleanConcat(Head(sampleId, runId, record), host);
    CleanConcat(Head(sampleId, runId, record) + host, AFTER_HOST);
  }

  /** The request reaches the server whole: it fits the server's buffer and no NUL cuts it short. */
  lemma RequestArrives(key: ProbeKey, record: bool, host: string)
    requires ClientKey(key) && NoNul(host)
    ensures |ProbeRequest(key, record, host)| < 640
    ensures UpToNul(ProbeRequest(key, record, host)) == ProbeRequest(key, record, host)
  {
    hide FullRequest, UpToNul, AllIdentifierChars, FullId;
    HeadLength(key, record);
    RunIdChars(key);
    IdentifierHasNo(SampleId(key));
    IdentifierHasNo(key.runId);
    CleanRequest(SampleId(key), key.runId, record, host);
    UpToNulIs(ProbeRequest(key, record, host), ProbeRequest(key, record, host));
  }

  /**
   For every probe the client can make, whatever the host and however long: the server recovers
   exactly the printed ids when the run id is at most 139 characters, and records the probe when,
   besides, the client asked for it or the Host value itself contains the flag; and not otherwise.
   */
  lemma RequestRoundTrip(key: ProbeKey, record: bool, host: string)
    requires ClientKey(key)
    ensures RecordedAs(ProbeRequest(key, record, host)) ==
            if |key.runId| <= 139 && (record || Contains(HostKept(key, record, host), FLAG))
            then Some(Ids(SampleId(key), key.runId)) else None
    ensures |key.runId| <= 139 ==>
            QueryValue(ProbeRequest(key, record, host), "sample_id", SAMPLE_BUFFER) == Some(SampleId(key)) &&
            QueryValue(ProbeRequest(key, record, host), "run_id", RUN_BUFFER) == Some(key.runId)
  {
    hide QueryValue, Contains, Head, ProbeRequest, HostKept, FullId, AllIdentifierChars;
    var sid, rid, kept := SampleId(key), key.runId, HostKept(key, record, host);
    HeadLength(key, record);
    TruncationExactly(key);
    RunIdChars(key);
    var tail := RequestLayout(key, record, host);
    PathFirst(sid, rid, record, kept, tail);
    BothReadBack(sid, rid, "record=" + (if record then "1" else "0") + " " + "HTTP/1.1\r\nHost:" + " " + kept + tail);
    FlagInRequest(sid, rid, record, kept, tail);
  }

  /** What the client prints, and that the buffer cuts it exactly from 640 bytes on. */
  lemma RequestFormat(key: ProbeKey, record: bool, host: string)
    requires ClientKey(key)
    ensures FullRequest(SampleId(key), key.runId, record, host) ==
            "GET /probe?sample_id=" + SampleId(key) + "&run_id=" + key.runId + "&record="
            + (if record then "1" else "0") + " HTTP/1.1\r\nHost: " + host + "\r\nConnection: close\r\n\r\n"
    ensures ProbeRequest(key, record, host) == FullRequest(SampleId(key), key.runId, record, host) <==>
            78 + |SampleId(key)| + |key.runId| + |host| < 640
  {
    hide SampleId;
    HeadLengthOf(SampleId(key), key.runId, record);
    FormatOf(SampleId(key), key.runId, record, host);
  }

  lemma HeadLengthOf(sampleId: string, runId: string, record: bool)
    ensures |Head(sampleId, runId, record)| == 55 + |sampleId| + |runId|
  {
  }

  lemma PathIs(sampleId: string, runId: string, record: bool)
    ensures Path(sampleId, runId, record) ==
            "GET /probe?sample_id=" + sampleId + "&run_id=" + runId + "&record=" + if record then "1" else "0"
  {
    assert "GET /probe" + "?" + "sample_id=" == "GET /probe?sample_id=";
    assert "&" + "run_id=" == "&run_id=";
    assert "&" + "record=" == "&record=";
  }

  lemma HeadIs(sampleId: string, runId: string, record: bool)
    ensures Head(sampleId, runId, record) == Path(sampleId, runId, record) + " HTTP/1.1\r\nHost: "
  {
    hide Path;
    assert " " + "HTTP/1.1\r\nHost:" == " HTTP/1.1\r\nHost:";
    assert " HTTP/1.1\r\nHost:" + " " == " HTTP/1.1\r\nHost: ";
  }

  lemma FormatOf(sampleId: string, runId: string, record: bool, host: string)
    ensures FullRequest(sampleId, runId, record, host) ==
            "GET /probe?sample_id=" + sampleId + "&run_id=" + runId + "&record=" + (if record then "1" else "0")
            + " HTTP/1.1\r\nHost: " + host + "\r\nConnection: close\r\n\r\n"
  {
    hide Path, Head;
    PathIs(sampleId, runId, record);
    HeadIs(sampleId, runId, record);
  }

  /** Only an identifier that fits is ever taken for a value. */
  lemma ValueIsIdentifier(request: string, name: string, size: nat)
    ensures var value := QueryValue(request, name, size);
            value.Some? ==> IsIdentifier(value.value) && |value.value| < size
    ensures !Contains(request, Printed(name + "=", 64)) ==> QueryValue(request, name, size).None?
  {
  }

  lemma RunIdChars(key: ProbeKey)
    requires ClientKey(key)
    ensures AllIdentifierChars(key.runId) && 1 <= |key.runId| <= 160
  {
  }
}
