/** Decimal text: how natural numbers are printed and read back. */
module DecimalText {
  import opened Positional

  predicate IsDigit(c: char) {
    '0' <= c <= '9'
  }

  predicate AllDigits(s: string) {
    forall i :: 0 <= i < |s| ==> IsDigit(s[i])
  }

  function DigitValues(s: string): (ds: seq<nat>)
    requires AllDigits(s)
    ensures |ds| == |s| && AllBelow(10, ds)
  {
    seq(|s|, i requires 0 <= i < |s| => s[i] as int - '0' as int)
  }

  function DigitChars(ds: seq<nat>): (s: string)
    requires AllBelow(10, ds)
    ensures |s| == |ds| && AllDigits(s) && DigitValues(s) == ds
  {
    seq(|ds|, i requires 0 <= i < |ds| => (ds[i] + '0' as int) as char)
  }

  /** The number a string of digits stands for; the empty string is 0. */
  function NatOf(s: string): nat
    requires AllDigits(s)
  {
    Value(10, DigitValues(s))
  }

  /** The decimal text of a number, without leading zeros. */
  function Print(n: nat): (s: string)
    ensures s != "" && AllDigits(s)
    ensures |s| > 1 ==> s[0] != '0'
  {
    DigitsDenote(10, n);
    if n == 0 then "0" else DigitChars(Digits(10, n))
  }

  lemma NatOfPrint(n: nat)
    ensures NatOf(Print(n)) == n
  {
    DigitsDenote(10, n);
    if n == 0 {
      assert DigitValues("0") == [] + [0];
      ValueSnoc(10, [], 0);
    }
  }

  /** Text of digits without a superfluous leading zero is the printed form of
      its value, and of no other number. */
  lemma PrintNatOf(s: string)
    requires AllDigits(s) && s != ""
    requires |s| > 1 ==> s[0] != '0'
    ensures Print(NatOf(s)) == s
  {
    var ds := DigitValues(s);
    assert DigitChars(ds) == s;
    if s == "0" {
      assert ds == [] + [0];
      ValueSnoc(10, [], 0);
    } else {
      DigitsUnique(10, ds);
    }
  }

  lemma DigitValuesConcat(a: string, b: string)
    requires AllDigits(a) && AllDigits(b)
    ensures DigitValues(a + b) == DigitValues(a) + DigitValues(b)
  {
  }

  lemma NatOfConcat(a: string, b: string)
    requires AllDigits(a) && AllDigits(b)
    ensures NatOf(a + b) == Shift(10, NatOf(a), |b|) + NatOf(b)
  {
    DigitValuesConcat(a, b);
    ValueConcat(10, DigitValues(a), DigitValues(b));
  }

  lemma NatOfZeros(k: nat)
    ensures NatOf(Repeat('0', k)) == 0
  {
    assert DigitValues(Repeat('0', k)) == Zeros(k);
    ValueOfZeros(10, k);
  }
}
