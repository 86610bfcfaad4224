/**
 Run and sample identifiers: the validity test shared by the C programs, the sample id that
 `probe` prints into its 180-byte buffer, and the proof that it identifies the probe.
 */
module SampleIds {
  import opened CText
  import opened Modes
  import Decimal

  predicate IdentifierChar(c: char) {
    'a' <= c <= 'z' || 'A' <= c <= 'Z' || '0' <= c <= '9' || c == '_' || c == '-' || c == '.'
  }

  predicate AllIdentifierChars(text: string) {
    forall i :: 0 <= i < |text| ==> IdentifierChar(text[i])
  }

  predicate IsIdentifier(text: string) {
    1 <= |text| <= 160 && AllIdentifierChars(text)
  }

  method ValidIdentifier(value: string) returns (valid: bool)
    ensures valid <==> IsIdentifier(value)
  {
    if |value| == 0 || |value| > 160 { return false; }
    var index := 0;
    while index < |value|
      invariant index <= |value|
      invariant forall i :: 0 <= i < index ==> IdentifierChar(value[i])
    {
      var character := value[index];
      if !(('a' <= character && character <= 'z') || ('A' <= character && character <= 'Z') ||
           ('0' <= character && character <= '9') ||
           character == '_' || character == '-' || character == '.')
      {
        return false;
      }
      index := index + 1;
    }
    return true;
  }

  const SAMPLE_ID_SIZE := 180

  /** What distinguishes one measured probe from every other. */
  datatype ProbeKey = ProbeKey(runId: string, mode: Mode, sequence: nat)

  /** The limits of `parse_options`. */
  predicate ClientKey(key: ProbeKey) {
    IsIdentifier(key.runId) && 1 <= key.sequence <= 1_000_000
  }

  /** The full text of `"%s-%s-%06d"`. */
  function FullId(key: ProbeKey): string {
    key.runId + "-" + Name(key.mode) + "-" + Decimal.Padded(key.sequence)
  }

  /** The id as it stands in the 180-byte buffer. */
  function SampleId(key: ProbeKey): (id: string) {
    Printed(FullId(key), SAMPLE_ID_SIZE)
  }

  // ---- The full text determines the probe ----

  /** A text splits in one way only at its last '-'. */
  lemma SplitAtLastDash(a: string, b: string, a': string, b': string)
    requires a + "-" + b == a' + "-" + b'
    requires '-' !in b && '-' !in b'
    ensures a == a' && b == b'
  {
    var text, text' := a + "-" + b, a' + "-" + b';
    assert text[|a|] == '-' && text'[|a'|] == '-';
    assert |a| == |a'|;
    assert a == text[..|a|] && a' == text'[..|a'|];
    assert b == text[|a| + 1..] && b' == text'[|a'| + 1..];
  }

  lemma FullIdInjective(j: ProbeKey, k: ProbeKey)
    requires FullId(j) == FullId(k)
    ensures j == k
  {
    SplitAtLastDash(j.runId + "-" + Name(j.mode), Decimal.Padded(j.sequence),
                    k.runId + "-" + Name(k.mode), Decimal.Padded(k.sequence));
    SplitAtLastDash(j.runId, Name(j.mode), k.runId, Name(k.mode));
    Decimal.PaddedInjective(j.sequence, k.sequence);
  }

  // ---- When the buffer is long enough ----

  lemma SequenceWidth(n: nat)
    requires 1 <= n <= 1_000_000
    ensures |Decimal.Padded(n)| == if n == 1_000_000 then 7 else 6
  {
    assert Decimal.Pow10(7) == 10_000_000 && Decimal.Pow10(6) == 1_000_000;
    Decimal.DecWidth(n, 6);
    Decimal.DecWidth(n, 7);
  }

  /** The one kind of probe whose id the client's buffer cuts short. */
  predicate CutShort(key: ProbeKey) {
    |key.runId| == 160 && key.mode == HybridP256 && key.sequence == 1_000_000
  }

  lemma TruncationExactly(key: ProbeKey)
    requires ClientKey(key)
    ensures SampleId(key) == FullId(key) <==> !CutShort(key)
    ensures |FullId(key)| <= |key.runId| + 20
  {
    SequenceWidth(key.sequence);
  }

  /** The shortened id loses its last digit and becomes the id of the 100000th probe. */
  lemma CutShortId(key: ProbeKey)
    requires ClientKey(key) && CutShort(key)
    ensures SampleId(key) == FullId(key.(sequence := 100_000))
  {
    assert Decimal.Dec(1_000_000) == "1000000" by { SmallDecimals(); }
    assert Decimal.Dec(100_000) == "100000" by { SmallDecimals(); }
    assert "1000000"[..6] == "100000";
    var head := key.runId + "-" + Name(key.mode) + "-";
    assert FullId(key) == head + "1000000";
    assert |head| == 173;
    assert SampleId(key) == head + "1000000"[..6];
  }

  lemma SmallDecimals()
    ensures Decimal.Dec(100_000) == "100000" && Decimal.Dec(1_000_000) == "1000000"
  {
    assert Decimal.Dec(10) == "10";
    assert Decimal.Dec(100) == "100";
    assert Decimal.Dec(1_000) == "1000";
    assert Decimal.Dec(10_000) == "10000";
  }

  /**
   Exactly when two probes of any two runs share a sample id. Over everything the client's own
   option check lets through, the only collision is between probes 100000 and 1000000 of the
   P-256 mode of a run whose id has the full 160 characters.
   */
  lemma SampleIdCollisions(j: ProbeKey, k: ProbeKey)
    requires ClientKey(j) && ClientKey(k)
    ensures SampleId(j) == SampleId(k) <==>
            j == k
            || (CutShort(j) && k == j.(sequence := 100_000))
            || (CutShort(k) && j == k.(sequence := 100_000))
  {
    TruncationExactly(j);
    TruncationExactly(k);
    var j' := if CutShort(j) then j.(sequence := 100_000) else j;
    var k' := if CutShort(k) then k.(sequence := 100_000) else k;
    if CutShort(j) { CutShortId(j); }
    if CutShort(k) { CutShortId(k); }
    if SampleId(j) == SampleId(k) {
      FullIdInjective(j', k');
    }
  }

  /** Within the dashboard's 120-character limit every probe has its own, valid, id. */
  lemma SampleIdsUnique(j: ProbeKey, k: ProbeKey)
    requires ClientKey(j) && ClientKey(k) && |j.runId| <= 120 && |k.runId| <= 120
    ensures SampleId(j) == SampleId(k) <==> j == k
    ensures SampleId(j) == FullId(j) && IsIdentifier(SampleId(j)) && |SampleId(j)| <= 140
  {
    SampleIdCollisions(j, k);
    TruncationExactly(j);
    FullIdChars(j);
  }

  lemma FullIdChars(key: ProbeKey)
    requires IsIdentifier(key.runId)
    ensures AllIdentifierChars(FullId(key)) && |FullId(key)| >= 7
  {
    var padded := Decimal.Padded(key.sequence);
    assert forall i :: 0 <= i < |padded| ==> Decimal.IsDigit(padded[i]);
    assert AllIdentifierChars(padded);
    assert AllIdentifierChars(Name(key.mode));
  }

  // ---- The format, letter by letter ----

  const LETTERS := "abcdefghijklm" + "nopqrstuvwxyz"
  const CAPITALS := "ABCDEFGHIJKLM" + "NOPQRSTUVWXYZ"

  /** The identifier alphabet: letters of both cases, digits and three signs, and nothing else. */
  lemma Alphabet(c: char)
    ensures IdentifierChar(c) <==> c in LETTERS || c in CAPITALS || c in "0123456789" || c in "_-."
  {
    InLetters(c);
    InCapitals(c);
    InDigits(c);
    hide LETTERS, CAPITALS;
    assert c in "_-." <==> c == '_' || c == '-' || c == '.';
  }

  lemma InLetters(c: char)
    ensures c in LETTERS <==> 'a' <= c <= 'z'
  {
    InFirstHalf(c);
    InSecondHalf(c);
  }

  lemma InFirstHalf(c: char)
    ensures c in "abcdefghijklm" <==> 'a' <= c <= 'm'
  {
    if 'a' <= c <= 'm' { assert "abcdefghijklm"[(c - 'a') as int] == c; }
  }

  lemma InSecondHalf(c: char)
    ensures c in "nopqrstuvwxyz" <==> 'n' <= c <= 'z'
  {
    if 'n' <= c <= 'z' { assert "nopqrstuvwxyz"[(c - 'n') as int] == c; }
  }

  lemma InCapitals(c: char)
    ensures c in CAPITALS <==> 'A' <= c <= 'Z'
  {
    InFirstCapitals(c);
    InSecondCapitals(c);
  }

  lemma InFirstCapitals(c: char)
    ensures c in "ABCDEFGHIJKLM" <==> 'A' <= c <= 'M'
  {
    if 'A' <= c <= 'M' { assert "ABCDEFGHIJKLM"[(c - 'A') as int] == c; }
  }

  lemma InSecondCapitals(c: char)
    ensures c in "NOPQRSTUVWXYZ" <==> 'N' <= c <= 'Z'
  {
    if 'N' <= c <= 'Z' { assert "NOPQRSTUVWXYZ"[(c - 'N') as int] == c; }
  }

  lemma InDigits(c: char)
    ensures c in "0123456789" <==> '0' <= c <= '9'
  {
    if '0' <= c <= '9' { assert "0123456789"[(c - '0') as int] == c; }
  }

  /** The run id the client makes up when it is given none. */
  function DefaultRunId(date: string, time: string, pid: nat): string {
    "run-" + date + "T" + time + "Z-" + Decimal.Dec(pid)
  }

  /** It always passes the client's own check and stays far below the dashboard's limit. */
  lemma DefaultRunIdValid(date: string, time: string, pid: nat)
    requires |date| == 8 && Decimal.AllDigits(date) && |time| == 6 && Decimal.AllDigits(time)
    requires pid < 0x8000_0000_0000_0000
    ensures IsIdentifier(DefaultRunId(date, time, pid)) && |DefaultRunId(date, time, pid)| <= 41
  {
    var digits := Decimal.Dec(pid);
    assert Decimal.Pow10(5) == 100_000;
    assert Decimal.Pow10(10) == 10_000_000_000;
    assert Decimal.Pow10(15) == 1_000_000_000_000_000;
    assert Decimal.Pow10(20) == 100_000_000_000_000_000_000;
    Decimal.DecWidth(pid, 20);
    assert AllIdentifierChars("run-") && AllIdentifierChars("T") && AllIdentifierChars("Z-");
    assert AllIdentifierChars(date) && AllIdentifierChars(time) && AllIdentifierChars(digits);
  }

  /** One id as it is printed. */
  lemma IdAsPrinted(runId: string, mode: Mode)
    requires |runId| <= 120
    ensures mode == Classical ==> SampleId(ProbeKey(runId, mode, 42)) == runId + "-" + "classical" + "-" + "000042"
    ensures mode == Hybrid ==> SampleId(ProbeKey(runId, mode, 42)) == runId + "-" + "hybrid" + "-" + "000042"
    ensures mode == HybridP256 ==> SampleId(ProbeKey(runId, mode, 42)) == runId + "-" + "hybrid_p256" + "-" + "000042"
  {
    hide Decimal.Padded;
    PaddedExample();
  }

  lemma PaddedExample()
    ensures Decimal.Padded(42) == "000042"
  {
    assert Decimal.Dec(4) == "4";
    assert Decimal.Dec(42) == "42";
    assert Decimal.Zeros(2) == "00";
    assert Decimal.Zeros(4) == "0000";
  }
}
