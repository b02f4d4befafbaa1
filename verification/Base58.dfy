/** The base-58 decoder of the lender audit script, and the encoder it inverts. */
module Base58 {
  import opened Options
  import opened Positional

  const ALPHABET := "123456789" + "ABCDEFGH" + "JKLMN" + "PQRSTUVWXYZ" + "abcdefghijk" + "mnopqrstuvwxyz"

  /** Position of `c` in `s[from..]`, counted from the start of `s`. */
  function IndexFrom(s: string, c: char, from: nat): (r: Option<nat>)
    requires from <= |s|
    ensures r.Some? ==> from <= r.value < |s| && s[r.value] == c
    ensures r.None? ==> forall i :: from <= i < |s| ==> s[i] != c
    decreases |s| - from
  {
    if from == |s| then None
    else if s[from] == c then Some(from)
    else IndexFrom(s, c, from + 1)
  }

  function DigitOf(c: char): (r: Option<nat>)
    ensures r.Some? ==> r.value < 58 && CharOf(r.value) == c
  {
    AlphabetSize();
    IndexFrom(ALPHABET, c, 0)
  }

  function CharOf(d: nat): char
    requires d < 58
  {
    AlphabetSize();
    ALPHABET[d]
  }

  lemma AlphabetSize()
    ensures |ALPHABET| == 58
  {
  }

  /** The digits '1' to '9', then capitals without I and O, then small letters without l. */
  function ExpectedChar(d: nat): char
    requires d < 58
  {
    if d < 9 then '1' + d as char
    else if d < 17 then 'A' + (d - 9) as char
    else if d < 22 then 'J' + (d - 17) as char
    else if d < 33 then 'P' + (d - 22) as char
    else if d < 44 then 'a' + (d - 33) as char
    else 'm' + (d - 44) as char
  }

  lemma AlphabetIs(d: nat)
    requires d < 58
    ensures CharOf(d) == ExpectedChar(d)
  {
  }

  predicate InAlphabet(s: string) {
    forall i :: 0 <= i < |s| ==> DigitOf(s[i]).Some?
  }

  /** The alphabet is in increasing character order, so no character repeats. */
  lemma AlphabetIncreasing(i: nat, j: nat)
    requires i < j < 58
    ensures |ALPHABET| == 58 && ALPHABET[i] < ALPHABET[j]
  {
    if i + 1 < j {
      AlphabetIncreasing(i, j - 1);
    }
    AlphabetStep(j - 1);
  }

  lemma AlphabetStep(i: nat)
    requires i < 57
    ensures |ALPHABET| == 58 && ALPHABET[i] < ALPHABET[i + 1]
  {
    AlphabetIs(i);
    AlphabetIs(i + 1);
    CharOfIs(i);
    CharOfIs(i + 1);
    hide CharOf;
  }

  lemma CharOfIs(d: nat)
    requires d < 58
    ensures |ALPHABET| == 58 && CharOf(d) == ALPHABET[d]
  {
    AlphabetSize();
  }

  lemma DigitOfChar(d: nat)
    requires d < 58
    ensures DigitOf(CharOf(d)) == Some(d)
  {
    AlphabetSize();
    var r := IndexFrom(ALPHABET, ALPHABET[d], 0);
    if r.value < d {
      AlphabetIncreasing(r.value, d);
    } else if d < r.value {
      AlphabetIncreasing(d, r.value);
    }
  }

  /** The digits of a string over the alphabet. */
  function DigitsOf(s: string): (ds: seq<nat>)
    requires InAlphabet(s)
    ensures |ds| == |s| && AllBelow(58, ds)
    ensures forall i :: 0 <= i < |s| ==> CharOf(ds[i]) == s[i]
  {
    if s == [] then [] else
      DigitsOf(s[..|s| - 1]) + [DigitOf(s[|s| - 1]).value]
  }

  function CharsOf(ds: seq<nat>): (s: string)
    requires AllBelow(58, ds)
    ensures |s| == |ds|
    ensures forall i :: 0 <= i < |ds| ==> s[i] == CharOf(ds[i])
  {
    seq(|ds|, i requires 0 <= i < |ds| => CharOf(ds[i]))
  }

  lemma {:induction false} DigitsOfChars(ds: seq<nat>)
    requires AllBelow(58, ds)
    ensures InAlphabet(CharsOf(ds))
    ensures DigitsOf(CharsOf(ds)) == ds
  {
    forall i | 0 <= i < |ds| ensures DigitOf(CharOf(ds[i])) == Some(ds[i]) {
      DigitOfChar(ds[i]);
    }
    var s := CharsOf(ds);
    forall i | 0 <= i < |ds| ensures DigitsOf(s)[i] == ds[i] {
      DigitOfChar(ds[i]);
      DigitOfChar(DigitsOf(s)[i]);
    }
  }

  /** What the decoder promises: the leading '1's become zero bytes, the rest is
      the same number in base 256. Anything outside the alphabet, and the empty
      string, is refused. */
  function Decode(s: string): Option<seq<nat>> {
    if s == "" || !InAlphabet(s) then None
    else Some(Zeros(LeadingRun('1', s)) + Digits(256, Value(58, DigitsOf(s))))
  }

  /** The matching encoder. The repository does not contain one. */
  function Encode(bytes: seq<Byte>): string {
    DigitsDenote(58, Value(256, bytes));
    Repeat('1', LeadingRun<nat>(0, bytes)) + CharsOf(Digits(58, Value(256, bytes)))
  }

  lemma ValueOfNextChar(s: string, i: nat)
    requires i < |s| && InAlphabet(s[..i]) && DigitOf(s[i]).Some?
    ensures InAlphabet(s[..i + 1])
    ensures Value(58, DigitsOf(s[..i + 1])) == Value(58, DigitsOf(s[..i])) * 58 + DigitOf(s[i]).value
  {
    var t := s[..i + 1];
    assert t[..|t| - 1] == s[..i];
    ValueSnoc(58, DigitsOf(s[..i]), DigitOf(s[i]).value);
  }

  /** The decoder: refuse the empty string, accumulate the number, unshift its
      low bytes, then unshift one zero for each leading '1'. */
  method DecodeBase58(s: string) returns (r: Option<seq<nat>>)
    ensures r == Decode(s)
  {
    if s == "" {
      return None;
    }
    var num := NumberOf(s);
    if num.None? {
      return None;
    }
    var bytes := BytesOf(num.value);
    bytes := UnshiftZeros(s, bytes);
    r := Some(bytes);
  }

  /** The first loop: `num * 58 + v` for each character. */
  method NumberOf(s: string) returns (r: Option<nat>)
    ensures r == if InAlphabet(s) then Some(Value(58, DigitsOf(s))) else None
  {
    var num: nat := 0;
    var i := 0;
    while i < |s|
      invariant 0 <= i <= |s|
      invariant InAlphabet(s[..i]) && num == Value(58, DigitsOf(s[..i]))
    {
      var v := DigitOf(s[i]);
      if v.None? {
        return None;
      }
      ValueOfNextChar(s, i);
      num := num * 58 + v.value;
      i := i + 1;
    }
    assert s[..i] == s;
    r := Some(num);
  }

  /** The last loop stops at the first character other than '1'. */
  method UnshiftZeros(s: string, low: seq<nat>) returns (bytes: seq<nat>)
    ensures bytes == Zeros(LeadingRun('1', s)) + low
  {
    bytes := low;
    var i := 0;
    while i < |s|
      invariant 0 <= i <= LeadingRun('1', s)
      invariant bytes == Zeros(i) + low
    {
      if s[i] != '1' {
        break;
      }
      assert Zeros(i + 1) == [0] + Zeros(i);
      bytes := [0] + bytes;
      i := i + 1;
    }
  }

  /** The byte loop: `unshift(num & 0xff)` and `num >>= 8` on a non-negative
      number are remainder and quotient by 256. */
  method BytesOf(n: nat) returns (bytes: seq<nat>)
    ensures bytes == Digits(256, n)
  {
    var num := n;
    bytes := [];
    while num > 0
      invariant Digits(256, num) + bytes == Digits(256, n)
      decreases num
    {
      DivShrinks(256, num);
      assert Digits(256, num) + bytes == Digits(256, num / 256) + ([num % 256] + bytes);
      bytes, num := [num % 256] + bytes, num / 256;
    }
  }

  /** '1' is the digit zero, so leading '1's are leading zero digits. */
  lemma LeadingOnes(s: string)
    requires InAlphabet(s)
    ensures LeadingRun('1', s) == LeadingRun<nat>(0, DigitsOf(s))
  {
    var k, m := LeadingRun('1', s), LeadingRun<nat>(0, DigitsOf(s));
    DigitOfChar(0);
    assert CharOf(0) == '1';
    forall i | 0 <= i < |s| ensures s[i] == '1' <==> DigitsOf(s)[i] == 0 {
      assert CharOf(DigitsOf(s)[i]) == s[i];
      DigitOfChar(DigitsOf(s)[i]);
    }
  }

  lemma DecodedAreBytes(s: string)
    requires Decode(s).Some?
    ensures AllBelow(256, Decode(s).value) && Decode(s).value != []
  {
    var n := Value(58, DigitsOf(s));
    DigitsDenote(256, n);
    if n == 0 {
      LeadingOnes(s);
      SplitLeadingZeros(58, DigitsOf(s));
    }
  }

  /** The decoded bytes denote the same number as the string, and have exactly
      as many leading zero bytes as the string has leading '1's. */
  lemma DecodePreservesValue(s: string)
    requires s != "" && InAlphabet(s)
    ensures Decode(s).Some?
    ensures Value(256, Decode(s).value) == Value(58, DigitsOf(s))
    ensures LeadingRun<nat>(0, Decode(s).value) == LeadingRun('1', s)
  {
    ZerosThenDigits(256, LeadingRun('1', s), Value(58, DigitsOf(s)));
  }

  /** A string over the alphabet is its leading '1's and the canonical digits
      of its value. */
  lemma CanonicalString(s: string)
    requires InAlphabet(s)
    ensures AllBelow(58, Digits(58, Value(58, DigitsOf(s))))
    ensures s == Repeat('1', LeadingRun('1', s)) + CharsOf(Digits(58, Value(58, DigitsOf(s))))
  {
    hide Value, Digits, LeadingRun, IndexFrom;
    var ds := DigitsOf(s);
    var k, rest := LeadingRun('1', s), Digits(58, Value(58, ds));
    DigitsDenote(58, Value(58, ds));
    SplitLeadingZeros(58, ds);
    LeadingOnes(s);
    assert ds == Zeros(k) + rest;
    assert ds[k..] == rest;
    var t := Repeat('1', k) + CharsOf(rest);
    forall i | 0 <= i < |s| ensures t[i] == s[i] {
      if k <= i {
        assert ds[i] == rest[i - k];
      }
    }
  }

  /** Decoding is defined exactly on the non-empty strings over the alphabet,
      and encoding the result gives the string back. */
  lemma EncodeAfterDecode(s: string)
    ensures Decode(s).Some? <==> s != "" && InAlphabet(s)
    ensures Decode(s).Some? ==> AllBelow(256, Decode(s).value) && Decode(s).value != []
    ensures Decode(s).Some? ==> Encode(Decode(s).value) == s
  {
    if Decode(s).Some? {
      DecodedAreBytes(s);
      DecodePreservesValue(s);
      CanonicalString(s);
    }
  }

  lemma ZeroIsOne()
    ensures CharOf(0) == '1'
  {
  }

  lemma ZerosBelow(base: nat, k: nat, ds: seq<nat>)
    requires 0 < base && AllBelow(base, ds)
    ensures AllBelow(base, Zeros(k) + ds)
  {
  }

  lemma EmptyDigits(base: nat, n: nat)
    requires 2 <= base
    ensures Digits(base, n) == [] <==> n == 0
  {
  }

  lemma EncodedDigits(bytes: seq<Byte>)
    ensures var ds := Zeros(LeadingRun<nat>(0, bytes)) + Digits(58, Value(256, bytes));
            AllBelow(58, ds) && Encode(bytes) == CharsOf(ds)
  {
    hide Value, LeadingRun, CharOf;
    ZeroIsOne();
    DigitsDenote(58, Value(256, bytes));
    ZerosBelow(58, LeadingRun<nat>(0, bytes), Digits(58, Value(256, bytes)));
    hide Digits;
  }

  lemma DecodedBytes(s: string, k: nat, n: nat)
    requires s != "" && InAlphabet(s) && LeadingRun('1', s) == k && Value(58, DigitsOf(s)) == n
    ensures Decode(s) == Some(Zeros(k) + Digits(256, n))
  {
    hide Value, Digits, LeadingRun, InAlphabet, Zeros;
  }

  /** Every non-empty byte string is the decoding of its encoding. */
  lemma DecodeAfterEncode(bytes: seq<Byte>)
    requires bytes != []
    ensures Decode(Encode(bytes)) == Some(bytes)
  {
    var n := Value(256, bytes);
    EmptyDigits(58, n);
    EmptyDigits(256, n);
    hide Value, Digits, LeadingRun, IndexFrom, CharOf, DigitOf, Encode, Decode, InAlphabet, AllBelow;
    var k := LeadingRun<nat>(0, bytes);
    var ds := Zeros(k) + Digits(58, n);
    SplitLeadingZeros(256, bytes);
    EncodedDigits(bytes);
    DigitsOfChars(ds);
    ZerosThenDigits(58, k, n);
    LeadingOnes(CharsOf(ds));
    assert |bytes| == k + |Digits(256, n)| && |ds| == k + |Digits(58, n)|;
    DecodedBytes(CharsOf(ds), k, n);
  }

  /** Decoding is injective: two strings with the same bytes are the same string. */
  lemma DecodeInjective(s: string, t: string)
    requires Decode(s).Some? && Decode(s) == Decode(t)
    ensures s == t
  {
    EncodeAfterDecode(s);
    EncodeAfterDecode(t);
  }
}
