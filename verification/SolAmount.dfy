/** Parsing a SOL amount into lamports (compute-distribution-plan.js). */
module SolAmount {
  import opened Options
  import opened Positional
  import opened DecimalText

  const LAMPORTS_PER_SOL := 1_000_000_000

  /** The characters that JavaScript's `trim` removes. */
  predicate IsSpace(c: char) {
    || '\t' <= c <= '\r' || c == ' ' || c == '\U{00A0}' || c == '\U{FEFF}'
    || c == '\U{1680}' || '\U{2000}' <= c <= '\U{200A}'
    || c == '\U{2028}' || c == '\U{2029}' || c == '\U{202F}' || c == '\U{205F}' || c == '\U{3000}'
  }

  function TrimStart(s: string): string {
    if s != "" && IsSpace(s[0]) then TrimStart(s[1..]) else s
  }

  function TrimEnd(s: string): string {
    if s != "" && IsSpace(s[|s| - 1]) then TrimEnd(s[..|s| - 1]) else s
  }

  function Trim(s: string): string {
    TrimEnd(TrimStart(s))
  }

  /** Length of the longest run of digits at the front of `s`. */
  function DigitRun(s: string): (k: nat)
    ensures k <= |s| && AllDigits(s[..k])
    ensures k < |s| ==> !IsDigit(s[k])
  {
    if s == "" || !IsDigit(s[0]) then 0 else
      var k := 1 + DigitRun(s[1..]);
      assert s[..k] == [s[0]] + s[1..][..k - 1];
      k
  }

  /** The text matches `^\d+(\.\d{0,9})?$`. */
  predicate Matches(t: string) {
    var k := DigitRun(t);
    && 0 < k
    && (k == |t| || (t[k] == '.' && AllDigits(t[k + 1..]) && |t| - (k + 1) <= 9))
  }

  function IntPart(t: string): string {
    t[..DigitRun(t)]
  }

  function FracPart(t: string): string {
    if DigitRun(t) == |t| then "" else t[DigitRun(t) + 1..]
  }

  /** Nine fractional digits: zeros appended, then cut. */
  function PadFraction(f: string): (r: string)
    requires AllDigits(f)
    ensures |r| == 9 && AllDigits(r)
  {
    (f + Repeat('0', 9))[..9]
  }

  /** `undefined` counts as zero; text of any other shape throws, here None. */
  function ParseSolToLamports(s: Option<string>): Option<nat> {
    if s.None? then Some(0) else
      var t := Trim(s.value);
      if !Matches(t) then None else
        Some(NatOf(IntPart(t)) * LAMPORTS_PER_SOL + NatOf(PadFraction(FracPart(t))))
  }

  // ---- Surrounding white space ----

  predicate AllSpace(s: string) {
    forall i :: 0 <= i < |s| ==> IsSpace(s[i])
  }

  lemma {:induction false} StartDropsSpace(a: string, t: string)
    requires AllSpace(a)
    ensures TrimStart(a + t) == TrimStart(t)
  {
    if a == "" {
      assert a + t == t;
    } else {
      StartDropsSpace(a[1..], t);
      assert (a + t)[1..] == a[1..] + t;
    }
  }

  lemma {:induction false} EndDropsSpace(t: string, b: string)
    requires AllSpace(b)
    ensures TrimEnd(t + b) == TrimEnd(t)
  {
    if b == "" {
      assert t + b == t;
    } else {
      EndDropsSpace(t, b[..|b| - 1]);
      assert (t + b)[..|t + b| - 1] == t + b[..|b| - 1];
    }
  }

  lemma {:induction false} StartBeforeSpace(t: string, b: string)
    requires AllSpace(b)
    ensures TrimStart(t + b) == TrimStart(t) + b || (TrimStart(t) == "" && TrimStart(t + b) == "")
  {
    if t == "" {
      StartDropsSpace(b, "");
      assert t + b == b && b + "" == b;
    } else if IsSpace(t[0]) {
      assert (t + b)[1..] == t[1..] + b;
      StartBeforeSpace(t[1..], b);
    }
  }

  /** Blanks, tabs and line ends around an amount make no difference. */
  lemma ParseIgnoresSpace(a: string, t: string, b: string)
    requires forall i :: 0 <= i < |a| ==> a[i] == ' ' || a[i] == '\t' || a[i] == '\n' || a[i] == '\r'
    requires forall i :: 0 <= i < |b| ==> b[i] == ' ' || b[i] == '\t' || b[i] == '\n' || b[i] == '\r'
    ensures ParseSolToLamports(Some(a + t + b)) == ParseSolToLamports(Some(t))
  {
    hide TrimStart, TrimEnd, Matches, IntPart, FracPart;
    assert a + t + b == a + (t + b);
    StartDropsSpace(a, t + b);
    StartBeforeSpace(t, b);
    EndDropsSpace(TrimStart(t), b);
    assert Trim(a + t + b) == Trim(t);
  }

  // ---- What the text means ----

  /** `t` is an amount written with integer digits `i` and fraction digits `f`. */
  predicate Written(t: string, i: string, f: string) {
    && i != "" && AllDigits(i) && AllDigits(f) && |f| <= 9
    && (t == i + "." + f || (f == "" && t == i))
  }

  /** The scanner and the grammar agree, and the two parts are unique. */
  lemma MatchesIffWritten(t: string)
    ensures Matches(t) ==> Written(t, IntPart(t), FracPart(t))
    ensures forall i, f :: Written(t, i, f) ==> Matches(t) && i == IntPart(t) && f == FracPart(t)
  {
    var k := DigitRun(t);
    if Matches(t) && k < |t| {
      assert t == t[..k] + "." + t[k + 1..];
    }
    forall i, f | Written(t, i, f)
      ensures Matches(t) && i == IntPart(t) && f == FracPart(t)
    {
      WrittenSplits(t, i, f);
    }
  }

  lemma WrittenSplits(t: string, i: string, f: string)
    requires Written(t, i, f)
    ensures DigitRun(t) == |i|
    ensures Matches(t) && i == IntPart(t) && f == FracPart(t)
  {
    var k := DigitRun(t);
    assert forall j :: 0 <= j < |i| ==> t[j] == i[j];
    if t != i {
      assert t[|i|] == '.';
      assert t[|i| + 1..] == f;
    }
    assert k == |i|;
    assert t[..k] == i;
  }

  /** The rational number the text denotes. */
  ghost function Denotes(t: string): real
    requires Matches(t)
  {
    MatchesIffWritten(t);
    PowPositive(|FracPart(t)|);
    NatOf(IntPart(t) + FracPart(t)) as real / Pow(10, |FracPart(t)|) as real
  }

  lemma PowPositive(e: nat)
    ensures Pow(10, e) > 0
  {
  }

  /** Shifting by at most nine digits, written out. */
  lemma ShiftIsScale(v: nat, k: nat)
    requires k <= 9
    ensures Shift(10, v, k) == v * Pow(10, k)
  {
    if k > 0 {
      ShiftIsScale(v, k - 1);
      assert v * Pow(10, k - 1) * 10 == v * Pow(10, k);
    }
  }

  lemma {:induction false} ShiftCompose(v: nat, j: nat, k: nat)
    ensures Shift(10, Shift(10, v, j), k) == Shift(10, v, j + k)
  {
    if k > 0 {
      ShiftCompose(v, j, k - 1);
    }
  }

  lemma {:induction false} ShiftAdds(a: nat, b: nat, k: nat)
    ensures Shift(10, a + b, k) == Shift(10, a, k) + Shift(10, b, k)
  {
    if k > 0 {
      ShiftAdds(a, b, k - 1);
    }
  }

  lemma NinePlaces(v: nat)
    ensures Shift(10, v, 9) == v * LAMPORTS_PER_SOL
  {
    ShiftThree(v, 6);
    ShiftThree(v * 1000, 3);
    ShiftThree(v * 1000 * 1000, 0);
  }

  lemma ShiftThree(v: nat, k: nat)
    ensures Shift(10, v, k + 3) == Shift(10, v * 1000, k)
  {
    ShiftCompose(v, 3, k);
    assert Shift(10, v, 1) == v * 10;
    assert Shift(10, v, 2) == v * 100;
  }

  lemma PaddedFraction(f: string)
    requires AllDigits(f) && |f| <= 9
    ensures NatOf(PadFraction(f)) == Shift(10, NatOf(f), 9 - |f|)
  {
    var z := Repeat('0', 9 - |f|);
    assert PadFraction(f) == f + z;
    NatOfConcat(f, z);
    NatOfZeros(9 - |f|);
  }

  /** Padding the fraction to nine digits loses nothing: the lamports are the
      digits of both parts together, shifted by the missing places. */
  lemma PaddedValue(i: string, f: string)
    requires AllDigits(i) && AllDigits(f) && |f| <= 9
    ensures NatOf(i) * LAMPORTS_PER_SOL + NatOf(PadFraction(f)) == Shift(10, NatOf(i + f), 9 - |f|)
  {
    hide NatOf, Shift, PadFraction;
    var k := |f|;
    var vi, vf := NatOf(i), NatOf(f);
    calc {
      vi * LAMPORTS_PER_SOL + NatOf(PadFraction(f));
      { NinePlaces(vi); PaddedFraction(f); }
      Shift(10, vi, 9) + Shift(10, vf, 9 - k);
      { ShiftCompose(vi, k, 9 - k); }
      Shift(10, Shift(10, vi, k), 9 - k) + Shift(10, vf, 9 - k);
      { ShiftAdds(Shift(10, vi, k), vf, 9 - k); }
      Shift(10, Shift(10, vi, k) + vf, 9 - k);
      { NatOfConcat(i, f); }
      Shift(10, NatOf(i + f), 9 - k);
    }
  }

  lemma Quotient(n: nat, m: nat, k: nat)
    requires k <= 9 && n == Shift(10, m, 9 - k)
    ensures Pow(10, k) > 0
    ensures n as real == m as real / Pow(10, k) as real * LAMPORTS_PER_SOL as real
  {
    ShiftCompose(m, 9 - k, k);
    NinePlaces(m);
    ShiftIsScale(n, k);
    PowPositive(k);
    RealQuotient(n, m, Pow(10, k));
  }

  lemma RealQuotient(n: nat, m: nat, p: nat)
    requires p > 0 && n * p == m * LAMPORTS_PER_SOL
    ensures n as real == m as real / p as real * LAMPORTS_PER_SOL as real
  {
    var x, q := m as real / p as real, p as real;
    assert x * q == m as real;
    assert n as real * q == (n * p) as real;
    assert (n as real - x * LAMPORTS_PER_SOL as real) * q == 0.0;
  }

  /** Parsing is exact: it succeeds exactly on amounts of the stated shape, and
      the lamports are the denoted number times one SOL, with no rounding. */
  lemma ParseExact(s: string)
    ensures ParseSolToLamports(Some(s)).Some? <==> exists i, f :: Written(Trim(s), i, f)
    ensures ParseSolToLamports(Some(s)).Some? ==>
              ParseSolToLamports(Some(s)).value as real == Denotes(Trim(s)) * LAMPORTS_PER_SOL as real
  {
    var t := Trim(s);
    MatchesIffWritten(t);
    if Matches(t) {
      var i, f := IntPart(t), FracPart(t);
      PaddedValue(i, f);
      Quotient(ParseSolToLamports(Some(s)).value, NatOf(i + f), |f|);
    }
  }

  /** Two accepted texts give the same lamports exactly when they denote the
      same decimal number. */
  lemma ParseEqualIffSameDecimal(s: string, s': string)
    requires ParseSolToLamports(Some(s)).Some? && ParseSolToLamports(Some(s')).Some?
    ensures ParseSolToLamports(Some(s)) == ParseSolToLamports(Some(s'))
       <==> Denotes(Trim(s)) == Denotes(Trim(s'))
  {
    ParseExact(s);
    ParseExact(s');
  }

  // ---- Round trip ----

  /** The `k` low decimal digits of `x`, padded on the left. */
  function FixedWidth(x: nat, k: nat): (s: string)
    ensures |s| == k && AllDigits(s)
  {
    if k == 0 then "" else FixedWidth(x / 10, k - 1) + DigitChars([x % 10])
  }

  lemma {:induction false} NatOfFixedWidth(x: nat, k: nat)
    requires x < Pow(10, k)
    ensures NatOf(FixedWidth(x, k)) == x
    decreases k
  {
    if k > 0 {
      NatOfFixedWidth(x / 10, k - 1);
      var front := FixedWidth(x / 10, k - 1);
      assert DigitValues(FixedWidth(x, k)) == DigitValues(front) + [x % 10];
      ValueSnoc(10, DigitValues(front), x % 10);
    }
  }

  /** A lamport amount in SOL with all nine fractional digits. */
  function Render(n: nat): string {
    Print(n / LAMPORTS_PER_SOL) + "." + FixedWidth(n % LAMPORTS_PER_SOL, 9)
  }

  lemma {:induction false} TrimNothing(s: string)
    requires s != "" && !IsSpace(s[0]) && !IsSpace(s[|s| - 1])
    ensures Trim(s) == s
  {
  }

  lemma PadRestoresZeros(f9: string, dropped: nat)
    requires |f9| == 9 && AllDigits(f9) && dropped <= 9
    requires forall j :: 9 - dropped <= j < 9 ==> f9[j] == '0'
    ensures PadFraction(f9[..9 - dropped]) == f9
  {
  }

  lemma ParseWritten(t: string, i: string, f: string)
    requires Written(t, i, f)
    ensures ParseSolToLamports(Some(t)) == Some(NatOf(i) * LAMPORTS_PER_SOL + NatOf(PadFraction(f)))
  {
    TrimNothing(t);
    WrittenSplits(t, i, f);
  }

  lemma RenderedParts(n: nat)
    ensures NatOf(Print(n / LAMPORTS_PER_SOL)) * LAMPORTS_PER_SOL
          + NatOf(FixedWidth(n % LAMPORTS_PER_SOL, 9)) == n
  {
    assert Pow(10, 3) == 1000;
    assert Pow(10, 6) == 1000000;
    assert Pow(10, 9) == LAMPORTS_PER_SOL;
    NatOfFixedWidth(n % LAMPORTS_PER_SOL, 9);
    NatOfPrint(n / LAMPORTS_PER_SOL);
  }

  /** Every lamport amount survives rendering and parsing, with any number of
      its trailing fractional zeros dropped; when all nine are zero the point
      itself may go as well. */
  lemma RenderRoundTrip(n: nat, dropped: nat)
    requires dropped <= 9
    requires var full := Render(n); forall j :: |full| - dropped <= j < |full| ==> full[j] == '0'
    ensures ParseSolToLamports(Some(Render(n)[..|Render(n)| - dropped])) == Some(n)
    ensures dropped == 9 ==> ParseSolToLamports(Some(Print(n / LAMPORTS_PER_SOL))) == Some(n)
  {
    hide FixedWidth, NatOf, Value, Print, ParseSolToLamports;
    var i, f9 := Print(n / LAMPORTS_PER_SOL), FixedWidth(n % LAMPORTS_PER_SOL, 9);
    var f := f9[..9 - dropped];
    var t := Render(n)[..|Render(n)| - dropped];
    assert t == i + "." + f;
    forall j | 9 - dropped <= j < 9 ensures f9[j] == '0' {
      assert Render(n)[|i| + 1 + j] == f9[j];
    }
    PadRestoresZeros(f9, dropped);
    RenderedParts(n);
    ParseWritten(t, i, f);
    if dropped == 9 {
      ParseWritten(i, i, f);
    }
  }
}
