/**
 `json_escape` in its bounded buffer, and the reading of JSON string bodies by section 7 of
 RFC 8259 that it is meant for.
 */
module Json {
  import opened Wrappers
  import opened CText

  // ---- What escaping writes ----

  predicate IsSpacing(c: char) {
    c == '\n' || c == '\r' || c == '\t'
  }

  function EscapeChar(c: char): (e: string)
    ensures |e| <= 2
  {
    if c == '"' || c == '\\' then ['\\', c]
    else if IsSpacing(c) then [' ']
    else if c >= ' ' then [c]
    else []
  }

  function Escape(text: string): string {
    if text == [] then [] else Escape(text[..|text| - 1]) + EscapeChar(text[|text| - 1])
  }

  /** What is left of a text once escaped: line breaks and tabs as spaces, other control characters gone. */
  function Sanitise(text: string): string {
    if text == [] then [] else Sanitise(text[..|text| - 1]) + SanitiseChar(text[|text| - 1])
  }

  function SanitiseChar(c: char): string {
    if IsSpacing(c) then [' '] else if c >= ' ' then [c] else []
  }

  // ---- What a JSON reader makes of a string body ----

  function HexValue(c: char): Option<nat> {
    if '0' <= c <= '9' then Some((c - '0') as nat)
    else if 'a' <= c <= 'f' then Some((c - 'a') as nat + 10)
    else if 'A' <= c <= 'F' then Some((c - 'A') as nat + 10)
    else None
  }

  function SimpleEscape(c: char): Option<int> {
    if c == '"' || c == '\\' || c == '/' then Some(c as int)
    else if c == 'b' then Some(8)
    else if c == 'f' then Some(12)
    else if c == 'n' then Some(10)
    else if c == 'r' then Some(13)
    else if c == 't' then Some(9)
    else None
  }

  /** The code unit that the escape at the head of a body denotes, and its length. */
  function ReadEscape(body: string): Option<(int, nat)>
    requires body != [] && body[0] == '\\'
  {
    if |body| < 2 then None
    else if SimpleEscape(body[1]).Some? then Some((SimpleEscape(body[1]).value, 2))
    else if body[1] != 'u' || |body| < 6 then None
    else
      var a, b, c, d := HexValue(body[2]), HexValue(body[3]), HexValue(body[4]), HexValue(body[5]);
      if a.None? || b.None? || c.None? || d.None? then None
      else Some((((a.value * 16 + b.value) * 16 + c.value) * 16 + d.value, 6))
  }

  /** The code units of a string body; an unescaped quote or control character, or a cut escape, is an error. */
  function Decode(body: string): Option<seq<int>>
    decreases |body|
  {
    if body == [] then Some([])
    else if body[0] == '"' || body[0] < ' ' then None
    else if body[0] != '\\' then Prepend(body[0] as int, Decode(body[1..]))
    else
      match ReadEscape(body)
      case None => None
      case Some((unit, width)) => if width <= |body| then Prepend(unit, Decode(body[width..])) else None
  }

  function Prepend(unit: int, rest: Option<seq<int>>): Option<seq<int>> {
    if rest.None? then None else Some([unit] + rest.value)
  }

  function Units(text: string): (units: seq<int>)
    ensures |units| == |text| && forall i :: 0 <= i < |text| ==> units[i] == text[i] as int
  {
    if text == [] then [] else [text[0] as int] + Units(text[1..])
  }

  // ---- Round trip ----

  lemma {:induction false} EscapeConcat(a: string, b: string)
    ensures Escape(a + b) == Escape(a) + Escape(b)
  {
    hide EscapeChar;
    if b == [] {
      assert a + b == a;
    } else {
      var tail := b[..|b| - 1];
      assert (a + b)[..|a + b| - 1] == a + tail;
      EscapeConcat(a, tail);
    }
  }

  lemma {:induction false} SanitiseConcat(a: string, b: string)
    ensures Sanitise(a + b) == Sanitise(a) + Sanitise(b)
  {
    hide SanitiseChar;
    if b == [] {
      assert a + b == a;
    } else {
      var tail := b[..|b| - 1];
      assert (a + b)[..|a + b| - 1] == a + tail;
      SanitiseConcat(a, tail);
    }
  }

  lemma EscapeOne(c: char)
    ensures Escape([c]) == EscapeChar(c) && Sanitise([c]) == SanitiseChar(c)
  {
    assert [c][..0] == [];
    assert Escape([c]) == [] + EscapeChar(c);
  }

  lemma EscapeFirst(text: string)
    requires text != []
    ensures Escape(text) == EscapeChar(text[0]) + Escape(text[1..])
    ensures Sanitise(text) == SanitiseChar(text[0]) + Sanitise(text[1..])
  {
    hide Escape, Sanitise, EscapeChar, SanitiseChar;
    assert text == [text[0]] + text[1..];
    EscapeConcat([text[0]], text[1..]);
    SanitiseConcat([text[0]], text[1..]);
    EscapeOne(text[0]);
  }

  lemma DecodeOneMore(c: char, rest: string)
    requires c != '\0'
    ensures Decode(EscapeChar(c) + rest) ==
            if IsSpacing(c) then Prepend(' ' as int, Decode(rest))
            else if c >= ' ' then Prepend(c as int, Decode(rest))
            else Decode(rest)
  {
    var body := EscapeChar(c) + rest;
    if c == '"' || c == '\\' {
      assert body[0] == '\\' && body[1] == c && body[2..] == rest;
    } else if IsSpacing(c) || c >= ' ' {
      assert body[1..] == rest;
    } else {
      assert body == rest;
    }
  }

  /** Every escaped text reads back as the sanitised text. */
  lemma {:induction false} EscapeDecodes(text: string)
    requires NoNul(text)
    ensures Decode(Escape(text)) == Some(Units(Sanitise(text)))
  {
    if text != [] {
      EscapeFirst(text);
      assert NoNul(text[1..]);
      EscapeDecodes(text[1..]);
      DecodeOneMore(text[0], Escape(text[1..]));
      if text[0] >= ' ' || IsSpacing(text[0]) {
        assert Sanitise(text)[1..] == Sanitise(text[1..]);
      } else {
        assert Sanitise(text) == Sanitise(text[1..]);
      }
    }
  }

  // ---- The bounded buffer ----

  /** How many characters of the text the loop takes before the buffer has no room for an escape pair. */
  function Taken(text: string, size: nat, from: nat := 0): (taken: nat)
    requires from <= |text|
    ensures from <= taken <= |text|
    decreases |text| - from
  {
    if from == |text| || |Escape(text[..from])| + 2 >= size then from else Taken(text, size, from + 1)
  }

  /** What the buffer holds afterwards. */
  function Escaped(text: string, size: nat): string {
    Escape(text[..Taken(text, size)])
  }

  lemma EscapeStep(text: string, k: nat)
    requires k < |text|
    ensures Escape(text[..k + 1]) == Escape(text[..k]) + EscapeChar(text[k])
  {
    assert text[..k + 1][..k] == text[..k];
  }

  lemma {:induction false} EscapeGrows(text: string, j: nat, k: nat)
    requires j <= k <= |text|
    ensures |Escape(text[..j])| <= |Escape(text[..k])| <= |Escape(text[..j])| + 2 * (k - j)
    decreases k
  {
    hide Escape, EscapeChar;
    if j < k {
      EscapeStep(text, k - 1);
      EscapeGrows(text, j, k - 1);
    }
  }

  lemma {:induction false} EscapeHasNoNul(text: string)
    requires NoNul(text)
    ensures NoNul(Escape(text))
  {
    if text != [] {
      EscapeHasNoNul(text[..|text| - 1]);
    }
  }

  method PutEscaped(output: array<char>, target: nat, character: char) returns (next: nat)
    requires target + 2 < output.Length
    modifies output
    ensures next < output.Length && output[..next] == old(output[..target]) + EscapeChar(character)
  {
    next := target;
    if character == '"' || character == '\\' {
      output[next] := '\\';
      next := next + 1;
      output[next] := character;
      next := next + 1;
    } else if character == '\n' || character == '\r' || character == '\t' {
      output[next] := ' ';
      next := next + 1;
    } else if character >= ' ' {
      output[next] := character;
      next := next + 1;
    }
  }

  method JsonEscape(input: array<char>, output: array<char>)
    requires '\0' in input[..] && input != output
    modifies output
    ensures output.Length > 0 ==>
              '\0' in output[..] && UpToNul(output[..]) == Escaped(UpToNul(input[..]), output.Length)
  {
    hide Escape, EscapeChar, UpToNul;
    if output.Length == 0 { return; }
    ghost var text := UpToNul(input[..]);
    assert input[..][|text|] == '\0';
    assert forall i :: 0 <= i < |text| ==> text[i] == input[..][i];
    var source: nat, target: nat := 0, 0;
    assert text[..0] == [] && output[..0] == [];
    EscapeNothing();
    while input[source] != '\0' && target + 2 < output.Length
      invariant source <= |text| && target < output.Length
      invariant output[..target] == Escape(text[..source])
      invariant Taken(text, output.Length) == Taken(text, output.Length, source)
      decreases |text| - source
    {
      assert source != |text|;
      EscapeStep(text, source);
      var character := input[source];
      source := source + 1;
      target := PutEscaped(output, target, character);
    }
    output[target] := '\0';
    assert source < |text| ==> text[source] != '\0';
    assert source == Taken(text, output.Length);
    assert output[..target] == Escape(text[..source]);
    EscapeHasNoNul(text[..source]);
    assert output[..][target] == '\0';
    UpToNulIs(output[..], Escape(text[..source]));
  }

  lemma EscapeNothing()
    ensures Escape([]) == []
  {
  }

  /** In any buffer of at least one byte the result fits with its NUL and reads back as a sanitised prefix. */
  lemma EscapedDecodes(text: string, size: nat)
    requires NoNul(text) && size >= 1
    ensures |Escaped(text, size)| < size
    ensures Decode(Escaped(text, size)) == Some(Units(Sanitise(text[..Taken(text, size)])))
  {
    TakenFits(text, size, 0);
    EscapeDecodes(text[..Taken(text, size)]);
  }

  lemma {:induction false} TakenFits(text: string, size: nat, from: nat)
    requires from <= |text| && size >= 1 && |Escape(text[..from])| < size
    ensures |Escape(text[..Taken(text, size, from)])| < size
    decreases |text| - from
  {
    if from < |text| && |Escape(text[..from])| + 2 < size {
      EscapeStep(text, from);
      TakenFits(text, size, from + 1);
    }
  }

  /** The whole text is taken exactly when there is still room for a pair before its last character. */
  lemma TakesAllExactly(text: string, size: nat)
    ensures Taken(text, size) == |text| <==>
            text == [] || |Escape(text[..|text| - 1])| + 2 < size
    ensures size > 2 * |text| ==> Taken(text, size) == |text|
  {
    if text != [] {
      var last := |text| - 1;
      TakenStops(text, size, 0);
      EscapeGrows(text, 0, last);
      if |Escape(text[..last])| + 2 < size {
        var k := Taken(text, size);
        if k < |text| { EscapeGrows(text, k, last); }
      }
    }
  }

  lemma {:induction false} TakenStops(text: string, size: nat, from: nat)
    requires from <= |text|
    ensures var k := Taken(text, size, from);
            (k < |text| ==> |Escape(text[..k])| + 2 >= size) &&
            forall j :: from <= j < k ==> |Escape(text[..j])| + 2 < size
    decreases |text| - from
  {
    hide Escape;
    if from < |text| && |Escape(text[..from])| + 2 < size { TakenStops(text, size, from + 1); }
  }

  // ---- What sanitising and reading mean ----

  /** Printable text is left alone. */
  lemma {:induction false} PrintableStays(text: string)
    requires forall i :: 0 <= i < |text| ==> text[i] >= ' '
    ensures Sanitise(text) == text
  {
    if text != "" {
      PrintableStays(text[..|text| - 1]);
      assert text == text[..|text| - 1] + [text[|text| - 1]];
    }
  }

  /** A line break or a tab becomes a space, any other control character goes. */
  lemma ControlsSanitised(a: string, c: char, b: string)
    requires c as int < 32
    ensures Sanitise(a + [c] + b) == Sanitise(a) + (if c in "\n\r\t" then " " else "") + Sanitise(b)
  {
    hide Sanitise;
    SanitiseConcat(a + [c], b);
    SanitiseConcat(a, [c]);
    EscapeOne(c);
  }

  /** What a text looks like once escaped: quotes and backslashes behind a backslash. */
  lemma QuotesEscaped(a: string, c: char, b: string)
    requires c == '"' || c == '\\'
    ensures Escape(a + [c] + b) == Escape(a) + "\\" + [c] + Escape(b)
  {
    hide Escape;
    EscapeConcat(a + [c], b);
    EscapeConcat(a, [c]);
    EscapeOne(c);
  }

  /** What the two-character escapes of a JSON string stand for. */
  lemma EscapeMeans(c: char, rest: string)
    ensures c == 'n' ==> Decode("\\" + [c] + rest) == Prepend(10, Decode(rest))
    ensures c == 'r' ==> Decode("\\" + [c] + rest) == Prepend(13, Decode(rest))
    ensures c == 't' ==> Decode("\\" + [c] + rest) == Prepend(9, Decode(rest))
    ensures c == 'b' ==> Decode("\\" + [c] + rest) == Prepend(8, Decode(rest))
    ensures c == 'f' ==> Decode("\\" + [c] + rest) == Prepend(12, Decode(rest))
    ensures c == '/' || c == '"' || c == '\\' ==> Decode("\\" + [c] + rest) == Prepend(c as int, Decode(rest))
  {
    assert ("\\" + [c] + rest)[2..] == rest;
  }
}
