/** Natural numbers written in a positional base, most significant digit first.
    Base 58, base 256 and base 10 all use these definitions. */
module Positional {

  type Byte = x: nat | x < 256

  predicate AllBelow(base: nat, ds: seq<nat>) {
    forall i :: 0 <= i < |ds| ==> ds[i] < base
  }

  /** The number a digit string denotes. */
  function Value(base: nat, ds: seq<nat>): nat {
    if ds == [] then 0 else Value(base, ds[..|ds| - 1]) * base + ds[|ds| - 1]
  }

  /** The digit string of `n` without leading zeros; 0 has no digits at all. */
  function Digits(base: nat, n: nat): seq<nat>
    requires 2 <= base
  {
    if n == 0 then [] else
      DivShrinks(base, n);
      Digits(base, n / base) + [n % base]
  }

  /** The number stored least significant byte first, as in `readBigUInt64LE`. */
  function LittleEndian(bytes: seq<Byte>): nat {
    if bytes == [] then 0 else bytes[0] + 256 * LittleEndian(bytes[1..])
  }

  lemma MoveFactor(x: nat, p: nat)
    ensures 256 * (x * p) == x * (p * 256)
  {
  }

  /** Each further byte weighs 256 times as much as the one before. */
  lemma {:induction false} LittleEndianSnoc(bytes: seq<Byte>, x: Byte)
    ensures LittleEndian(bytes + [x]) == LittleEndian(bytes) + x * Pow(256, |bytes|)
  {
    if bytes == [] {
      assert [x][1..] == [];
      assert LittleEndian([x]) == x;
      assert [] + [x] == [x];
    } else {
      assert (bytes + [x])[1..] == bytes[1..] + [x];
      LittleEndianSnoc(bytes[1..], x);
      MoveFactor(x, Pow(256, |bytes| - 1));
    }
  }

  function Pow(base: nat, e: nat): nat {
    if e == 0 then 1 else Pow(base, e - 1) * base
  }

  /** `v` followed by `k` zero digits. */
  function Shift(base: nat, v: nat, k: nat): nat {
    if k == 0 then v else Shift(base, v, k - 1) * base
  }

  function Repeat<T>(x: T, k: nat): (s: seq<T>)
    ensures |s| == k && forall i :: 0 <= i < k ==> s[i] == x
  {
    seq(k, _ => x)
  }

  function Zeros(k: nat): seq<nat> {
    Repeat<nat>(0, k)
  }

  /** How many elements at the front of `s` equal `x`. */
  function LeadingRun<T(==)>(x: T, s: seq<T>): (k: nat)
    ensures k <= |s|
    ensures forall i :: 0 <= i < k ==> s[i] == x
    ensures k < |s| ==> s[k] != x
  {
    if s == [] || s[0] != x then 0 else 1 + LeadingRun(x, s[1..])
  }

  lemma DivShrinks(base: nat, n: nat)
    requires 2 <= base && 0 < n
    ensures n / base < n
  {
    var q := n / base;
    assert n == base * q + n % base;
    MulMonotone(2, base, q);
  }

  lemma MulMonotone(a: nat, b: nat, c: nat)
    requires a <= b
    ensures a * c <= b * c
  {
  }

  lemma DivModSplit(base: nat, n: nat)
    requires 0 < base
    ensures n == n / base * base + n % base && n % base < base
    ensures n / base == 0 ==> n % base == n
  {
  }

  lemma DigitsSnoc(base: nat, q: nat, r: nat)
    requires 2 <= base && r < base && (q > 0 || r > 0)
    ensures q * base + r > 0
    ensures Digits(base, q * base + r) == Digits(base, q) + [r]
  {
    DivModUnique(base, q, r);
    if q > 0 {
      MulMonotone(1, q, base);
    }
  }

  lemma Distribute(a: nat, b: nat, base: nat)
    ensures (a + b) * base == a * base + b * base
  {
  }

  /** Division with remainder has one answer. */
  lemma DivModUnique(base: nat, q: nat, r: nat)
    requires r < base
    ensures (q * base + r) / base == q && (q * base + r) % base == r
  {
    var n := q * base + r;
    var q', r' := n / base, n % base;
    assert n == base * q' + r';
    if q < q' {
      MulMonotone(q + 1, q', base);
    } else if q' < q {
      MulMonotone(q' + 1, q, base);
    }
  }

  lemma ValueSnoc(base: nat, front: seq<nat>, last: nat)
    ensures Value(base, front + [last]) == Value(base, front) * base + last
  {
    assert (front + [last])[..|front|] == front;
  }

  /** Writing a number and reading it back gives the number, in proper digits
      with no leading zero. */
  lemma {:induction false} DigitsDenote(base: nat, n: nat)
    requires 2 <= base
    ensures Value(base, Digits(base, n)) == n
    ensures AllBelow(base, Digits(base, n))
    ensures n != 0 ==> Digits(base, n) != [] && Digits(base, n)[0] != 0
    decreases n
  {
    if n != 0 {
      DivShrinks(base, n);
      DivModSplit(base, n);
      var q, r := n / base, n % base;
      DigitsDenote(base, q);
      ValueSnoc(base, Digits(base, q), r);
    }
  }

  lemma UniqueSnoc(base: nat, front: seq<nat>, last: nat, q: nat)
    requires 2 <= base && last < base
    requires q == Value(base, front) && Digits(base, q) == front
    requires q > 0 || last > 0
    ensures Digits(base, Value(base, front + [last])) == front + [last]
    ensures Value(base, front + [last]) > 0
  {
    DigitsSnoc(base, q, last);
    ValueSnoc(base, front, last);
  }

  /** A digit string that does not start with zero is the only such string for
      its number. */
  lemma {:induction false} DigitsUnique(base: nat, ds: seq<nat>)
    requires 2 <= base && AllBelow(base, ds)
    requires ds != [] ==> ds[0] != 0
    ensures Digits(base, Value(base, ds)) == ds
    ensures ds != [] ==> Value(base, ds) > 0
    decreases |ds|
  {
    if ds != [] {
      var front, last := ds[..|ds| - 1], ds[|ds| - 1];
      assert ds == front + [last];
      assert front != [] ==> front[0] == ds[0];
      DigitsUnique(base, front);
      UniqueSnoc(base, front, last, Value(base, front));
    }
  }

  /** Concatenating digit strings shifts the first one. */
  lemma {:induction false} ValueConcat(base: nat, a: seq<nat>, b: seq<nat>)
    ensures Value(base, a + b) == Shift(base, Value(base, a), |b|) + Value(base, b)
    decreases |b|
  {
    if b == [] {
      assert a + b == a;
    } else {
      var front, last := b[..|b| - 1], b[|b| - 1];
      ValueConcat(base, a, front);
      assert b == front + [last] && a + b == (a + front) + [last];
      ValueSnoc(base, a + front, last);
      ValueSnoc(base, front, last);
      Distribute(Shift(base, Value(base, a), |front|), Value(base, front), base);
    }
  }

  lemma {:induction false} ShiftZero(base: nat, k: nat)
    ensures Shift(base, 0, k) == 0
  {
    if k > 0 {
      ShiftZero(base, k - 1);
    }
  }

  lemma {:induction false} ValueOfZeros(base: nat, k: nat)
    ensures Value(base, Zeros(k)) == 0
    decreases k
  {
    if k > 0 {
      ValueOfZeros(base, k - 1);
      assert Zeros(k) == Zeros(k - 1) + [0];
      ValueSnoc(base, Zeros(k - 1), 0);
    }
  }

  lemma LeadingZerosIgnored(base: nat, k: nat, rest: seq<nat>)
    ensures Value(base, Zeros(k) + rest) == Value(base, rest)
  {
    ValueOfZeros(base, k);
    ShiftZero(base, |rest|);
    ValueConcat(base, Zeros(k), rest);
  }

  /** Any digit string splits into its leading zeros and the canonical digits
      of its value. */
  lemma SplitLeadingZeros(base: nat, ds: seq<nat>)
    requires 2 <= base && AllBelow(base, ds)
    ensures ds == Zeros(LeadingRun<nat>(0, ds)) + Digits(base, Value(base, ds))
  {
    var k := LeadingRun<nat>(0, ds);
    assert ds == Zeros(k) + ds[k..];
    LeadingZerosIgnored(base, k, ds[k..]);
    DigitsUnique(base, ds[k..]);
  }

  lemma {:induction false} LeadingRunConcat<T>(x: T, k: nat, rest: seq<T>)
    requires rest != [] ==> rest[0] != x
    ensures LeadingRun(x, Repeat(x, k) + rest) == k
  {
    var s := Repeat(x, k) + rest;
    assert forall i :: 0 <= i < k ==> s[i] == x;
    assert rest != [] ==> s[k] == rest[0];
  }

  /** Leading zeros followed by canonical digits: the zeros can be counted and
      the value read off. */
  lemma ZerosThenDigits(base: nat, k: nat, n: nat)
    requires 2 <= base
    ensures var ds := Zeros(k) + Digits(base, n);
            LeadingRun<nat>(0, ds) == k && Value(base, ds) == n && AllBelow(base, ds)
  {
    DigitsDenote(base, n);
    LeadingRunConcat<nat>(0, k, Digits(base, n));
    LeadingZerosIgnored(base, k, Digits(base, n));
  }
}
