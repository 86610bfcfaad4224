/** Decimal printing (`%d`, `%zu`, `%06d`) and the value a reader assigns to a digit string. */
module Decimal {
  function Digit(d: nat): char
    requires d < 10
  {
    '0' + d as char
  }

  predicate IsDigit(c: char) {
    '0' <= c <= '9'
  }

  predicate AllDigits(text: string) {
    forall i :: 0 <= i < |text| ==> IsDigit(text[i])
  }

  /** `%d` of a non-negative number. */
  function Dec(n: nat): (text: string)
    ensures text != [] && AllDigits(text)
  {
    if n < 10 then [Digit(n)] else Dec(n / 10) + [Digit(n % 10)]
  }

  /** The number a digit string denotes. */
  function Value(text: string): nat
    requires AllDigits(text)
  {
    if text == [] then 0
    else 10 * Value(text[..|text| - 1]) + (text[|text| - 1] - '0') as nat
  }

  lemma {:induction false} ValueOfDec(n: nat)
    ensures Value(Dec(n)) == n
  {
    if n >= 10 {
      ValueOfDec(n / 10);
      assert Dec(n)[..|Dec(n)| - 1] == Dec(n / 10);
    }
  }

  function Zeros(k: nat): (text: string)
    ensures |text| == k && forall i :: 0 <= i < k ==> text[i] == '0'
  {
    seq(k, _ => '0')
  }

  /** `%06d` of a non-negative number. */
  function Padded(n: nat): (text: string)
    ensures |text| >= 6 && AllDigits(text)
  {
    if |Dec(n)| >= 6 then Dec(n) else Zeros(6 - |Dec(n)|) + Dec(n)
  }

  lemma {:induction false} ValueIgnoresZeros(k: nat, text: string)
    requires AllDigits(text)
    ensures AllDigits(Zeros(k) + text) && Value(Zeros(k) + text) == Value(text)
    decreases k, |text|
  {
    var all := Zeros(k) + text;
    if text == [] {
      if k > 0 {
        assert all[..k - 1] == Zeros(k - 1) + [];
        ValueIgnoresZeros(k - 1, []);
      }
    } else {
      assert all[..|all| - 1] == Zeros(k) + text[..|text| - 1];
      ValueIgnoresZeros(k, text[..|text| - 1]);
    }
  }

  /** Zero-padded printing loses nothing. */
  lemma PaddedInjective(m: nat, n: nat)
    requires Padded(m) == Padded(n)
    ensures m == n
  {
    forall k: nat ensures Value(Padded(k)) == k {
      ValueOfDec(k);
      if |Dec(k)| < 6 { ValueIgnoresZeros(6 - |Dec(k)|, Dec(k)); }
    }
  }

  function Pow10(k: nat): nat {
    if k == 0 then 1 else 10 * Pow10(k - 1)
  }

  /** The width of a printed number, in both directions. */
  lemma {:induction false} DecWidth(n: nat, k: nat)
    requires k > 0
    ensures |Dec(n)| <= k <==> n < Pow10(k)
  {
    if n < 10 {
      Pow10Grows(k);
    } else if k == 1 {
      assert Pow10(1) == 10 * Pow10(0);
    } else {
      DecWidth(n / 10, k - 1);
    }
  }

  lemma {:induction false} Pow10Grows(k: nat)
    requires k > 0
    ensures Pow10(k) >= 10
  {
    if k > 1 { Pow10Grows(k - 1); } else { assert Pow10(1) == 10 * Pow10(0); }
  }
}
