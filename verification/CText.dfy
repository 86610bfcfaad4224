/**
 C strings: a C string is a sequence of characters without '\0'; a C buffer is an array
 (or a sequence) of characters that holds the string up to its first '\0'.
 */
module CText {
  import opened Wrappers

  predicate NoNul(text: string) {
    '\0' !in text
  }

  /** What a `char *` that comes from outside can point to. */
  type CString = text: string | NoNul(text)

  function Joined(a: CString, b: CString): CString {
    a + b
  }

  function Lower(c: char): char {
    if 'A' <= c <= 'Z' then c - 'A' + 'a' else c
  }

  /** What `snprintf(buffer, size, ...)` leaves in the buffer when the full output is `text`. */
  function Printed(text: string, size: nat): (kept: string)
    requires size > 0
    ensures kept <= text && |kept| < size
    ensures kept == text <==> |text| < size
    ensures |text| >= size ==> |kept| == size - 1
    ensures NoNul(text) ==> NoNul(kept)
  {
    if |text| < size then text else text[..size - 1]
  }

  /** The string a buffer holds: everything before its first '\0'. */
  function UpToNul(buffer: seq<char>): (text: string)
    ensures text <= buffer && NoNul(text)
    ensures |text| == |buffer| || buffer[|text|] == '\0'
  {
    if buffer == [] || buffer[0] == '\0' then [] else [buffer[0]] + UpToNul(buffer[1..])
  }

  lemma {:induction false} UpToNulIs(buffer: seq<char>, text: string)
    requires text <= buffer && NoNul(text)
    requires |text| == |buffer| || buffer[|text|] == '\0'
    ensures UpToNul(buffer) == text
  {
    var found := UpToNul(buffer);
    assert |found| == |text|;
    assert found == buffer[..|found|];
  }

  predicate OccursAt(text: string, pattern: string, i: nat) {
    i + |pattern| <= |text| && text[i..i + |pattern|] == pattern
  }

  lemma OccursChar(text: string, pattern: string, i: nat, d: nat)
    requires d < |pattern|
    ensures OccursAt(text, pattern, i) ==> i + d < |text| && text[i + d] == pattern[d]
  {
    if OccursAt(text, pattern, i) {
      assert text[i..i + |pattern|][d] == text[i + d];
    }
  }

  predicate Contains(text: string, pattern: string) {
    exists i: nat | i <= |text| :: OccursAt(text, pattern, i)
  }

  /** `strstr`: the first occurrence of the pattern. */
  function StrStr(text: string, pattern: string, from: nat := 0): (found: Option<nat>)
    requires from <= |text|
    ensures found.Some? ==> from <= found.value && OccursAt(text, pattern, found.value)
    ensures found.Some? ==> forall i: nat :: from <= i < found.value ==> !OccursAt(text, pattern, i)
    ensures found.None? ==> forall i: nat :: from <= i ==> !OccursAt(text, pattern, i)
    decreases |text| - from
  {
    if OccursAt(text, pattern, from) then Some(from)
    else if from == |text| then None
    else StrStr(text, pattern, from + 1)
  }
}
