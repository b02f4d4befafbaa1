/** The text form of a credit attestation that gets signed (credit-attest.js). */
module CreditAttestation {
  import opened Options
  import opened DecimalText

  datatype Attestation = Attestation(
    wallet: string, score: nat, tier: string,
    loansTotal: nat, loansRepaid: nat, loansLiquidated: nat,
    issuedAt: string, expiresAt: string)

  /** The string that is signed. */
  function CanonicalPayload(a: Attestation): string {
    "magpie-credit/v1\n" +
    "wallet=" + a.wallet + "\n" +
    "score=" + Print(a.score) + "\n" +
    "tier=" + a.tier + "\n" +
    "loans_total=" + Print(a.loansTotal) + "\n" +
    "loans_repaid=" + Print(a.loansRepaid) + "\n" +
    "loans_liquidated=" + Print(a.loansLiquidated) + "\n" +
    "issued_at=" + a.issuedAt + "\n" +
    "expires_at=" + a.expiresAt + "\n"
  }

  predicate OneLine(s: string) {
    '\n' !in s
  }

  /** No text field breaks the line it stands on. */
  predicate Clean(a: Attestation) {
    OneLine(a.wallet) && OneLine(a.tier) && OneLine(a.issuedAt) && OneLine(a.expiresAt)
  }

  // ---- Lines ----

  /** Every line followed by a newline. */
  function Join(lines: seq<string>): string {
    if lines == [] then "" else lines[0] + "\n" + Join(lines[1..])
  }

  /** Length of the first line. */
  function LineEnd(s: string): (k: nat)
    ensures k <= |s| && forall i :: 0 <= i < k ==> s[i] != '\n'
    ensures k < |s| ==> s[k] == '\n'
  {
    if s == "" || s[0] == '\n' then 0 else 1 + LineEnd(s[1..])
  }

  /** The lines of a text; None if the last line is not terminated. */
  function Split(s: string): Option<seq<string>>
    decreases |s|
  {
    if s == "" then Some([])
    else if LineEnd(s) == |s| then None
    else
      var rest :- Split(s[LineEnd(s) + 1..]);
      Some([s[..LineEnd(s)]] + rest)
  }

  lemma FirstLine(line: string, rest: string)
    requires OneLine(line)
    ensures LineEnd(line + "\n" + rest) == |line|
  {
    var s := line + "\n" + rest;
    var k := LineEnd(s);
    assert s[|line|] == '\n';
    assert forall i :: 0 <= i < |line| ==> s[i] == line[i] && line[i] in line;
  }

  lemma SplitStep(line: string, rest: string)
    requires OneLine(line)
    ensures Split(line + "\n" + rest)
         == if Split(rest).Some? then Some([line] + Split(rest).value) else None
  {
    var s := line + "\n" + rest;
    FirstLine(line, rest);
    assert s[..|line|] == line;
    assert s[|line| + 1..] == rest;
  }

  lemma JoinStep(line: string, lines: seq<string>)
    ensures Join([line] + lines) == line + "\n" + Join(lines)
  {
    assert ([line] + lines)[1..] == lines;
  }

  lemma {:induction false} SplitJoin(lines: seq<string>)
    requires forall i :: 0 <= i < |lines| ==> OneLine(lines[i])
    ensures Split(Join(lines)) == Some(lines)
  {
    if lines != [] {
      SplitJoin(lines[1..]);
      hide Split, Join;
      assert lines == [lines[0]] + lines[1..];
      JoinStep(lines[0], lines[1..]);
      SplitStep(lines[0], Join(lines[1..]));
    }
  }

  lemma AroundNewline(s: string, k: nat)
    requires k < |s| && s[k] == '\n' && forall i :: 0 <= i < k ==> s[i] != '\n'
    ensures s == s[..k] + "\n" + s[k + 1..]
    ensures OneLine(s[..k])
  {
  }

  lemma SplitUnfold(s: string, k: nat, rest: string)
    requires s != "" && k == LineEnd(s) < |s| && rest == s[k + 1..]
    ensures Split(s) == if Split(rest).Some? then Some([s[..k]] + Split(rest).value) else None
  {
    hide LineEnd;
  }

  lemma SplitEnds(s: string)
    requires s != "" && Split(s).Some?
    ensures LineEnd(s) < |s|
  {
    hide LineEnd;
  }

  lemma CleanCons(line: string, lines: seq<string>)
    requires OneLine(line) && forall i :: 0 <= i < |lines| ==> OneLine(lines[i])
    ensures forall i :: 0 <= i < |[line] + lines| ==> OneLine(([line] + lines)[i])
  {
  }

  lemma {:induction false} JoinSplit(s: string)
    requires Split(s).Some?
    ensures Join(Split(s).value) == s
    ensures forall i :: 0 <= i < |Split(s).value| ==> OneLine(Split(s).value[i])
    decreases |s|
  {
    if s != "" {
      SplitEnds(s);
      var k := LineEnd(s);
      var line, rest := s[..k], s[k + 1..];
      SplitUnfold(s, k, rest);
      hide Split, LineEnd, Join, OneLine;
      AroundNewline(s, k);
      JoinSplit(rest);
      JoinStep(line, Split(rest).value);
      CleanCons(line, Split(rest).value);
    }
  }

  // ---- The parser: what a verifier can read off the signed text ----

  const HEADER := "magpie-credit/v1"

  /** The text after `name`, if the line starts with it. */
  function Field(name: string, line: string): Option<string> {
    if |name| <= |line| && line[..|name|] == name then Some(line[|name|..]) else None
  }

  /** A number in the form it is printed: digits, no superfluous zero. */
  function ReadNat(s: string): Option<nat> {
    if s != "" && AllDigits(s) && (|s| > 1 ==> s[0] != '0') then Some(NatOf(s)) else None
  }

  function NatField(name: string, line: string): Option<nat> {
    var text :- Field(name, line);
    ReadNat(text)
  }

  function ParseLines(l: seq<string>): Option<Attestation> {
    if |l| != 9 || l[0] != HEADER then None
    else
      var wallet :- Field("wallet=", l[1]);
      var score :- NatField("score=", l[2]);
      var tier :- Field("tier=", l[3]);
      var total :- NatField("loans_total=", l[4]);
      var repaid :- NatField("loans_repaid=", l[5]);
      var liquidated :- NatField("loans_liquidated=", l[6]);
      var issued :- Field("issued_at=", l[7]);
      var expires :- Field("expires_at=", l[8]);
      Some(Attestation(wallet, score, tier, total, repaid, liquidated, issued, expires))
  }

  function Parse(s: string): Option<Attestation> {
    var lines :- Split(s);
    ParseLines(lines)
  }

  function LinesOf(a: Attestation): (l: seq<string>)
    ensures |l| == 9
  {
    [HEADER, "wallet=" + a.wallet, "score=" + Print(a.score), "tier=" + a.tier,
     "loans_total=" + Print(a.loansTotal), "loans_repaid=" + Print(a.loansRepaid),
     "loans_liquidated=" + Print(a.loansLiquidated), "issued_at=" + a.issuedAt, "expires_at=" + a.expiresAt]
  }

  lemma FieldOf(name: string, value: string)
    ensures Field(name, name + value) == Some(value)
  {
    assert (name + value)[|name|..] == value;
  }

  lemma NatFieldOf(name: string, n: nat)
    ensures NatField(name, name + Print(n)) == Some(n)
  {
    FieldOf(name, Print(n));
    NatOfPrint(n);
  }

  lemma FieldBack(name: string, line: string)
    requires Field(name, line).Some?
    ensures name + Field(name, line).value == line
  {
  }

  lemma NatFieldBack(name: string, line: string)
    requires NatField(name, line).Some?
    ensures name + Print(NatField(name, line).value) == line
  {
    PrintNatOf(Field(name, line).value);
  }

  lemma ParseLinesOf(a: Attestation)
    ensures ParseLines(LinesOf(a)) == Some(a)
  {
    hide Print, NatField, Field;
    FieldOf("wallet=", a.wallet);
    NatFieldOf("score=", a.score);
    FieldOf("tier=", a.tier);
    NatFieldOf("loans_total=", a.loansTotal);
    NatFieldOf("loans_repaid=", a.loansRepaid);
    NatFieldOf("loans_liquidated=", a.loansLiquidated);
    FieldOf("issued_at=", a.issuedAt);
    FieldOf("expires_at=", a.expiresAt);
  }

  lemma LinesOfParse(l: seq<string>)
    requires ParseLines(l).Some?
    ensures LinesOf(ParseLines(l).value) == l
  {
    hide Print, NatField, Field;
    FieldBack("wallet=", l[1]);
    NatFieldBack("score=", l[2]);
    FieldBack("tier=", l[3]);
    NatFieldBack("loans_total=", l[4]);
    NatFieldBack("loans_repaid=", l[5]);
    NatFieldBack("loans_liquidated=", l[6]);
    FieldBack("issued_at=", l[7]);
    FieldBack("expires_at=", l[8]);
  }

  lemma {:induction false} JoinConcat(a: seq<string>, b: seq<string>)
    ensures Join(a + b) == Join(a) + Join(b)
  {
    if a == [] {
      assert a + b == b;
    } else {
      JoinConcat(a[1..], b);
      assert (a + b)[1..] == a[1..] + b;
    }
  }

  /** One more line at the end. */
  lemma JoinSnoc(lines: seq<string>, name: string, value: string)
    ensures Join(lines + [name + value]) == Join(lines) + name + value + "\n"
  {
    var line := name + value;
    JoinConcat(lines, [line]);
    assert [line][1..] == [];
    assert Join([line]) == line + "\n";
    hide Join;
    assert Join(lines) + (name + value + "\n") == Join(lines) + name + value + "\n";
  }

  lemma CanonicalIsJoin(a: Attestation)
    ensures CanonicalPayload(a) == Join(LinesOf(a))
  {
    var l := LinesOf(a);
    JoinHeader();
    assert l[..1] == [HEADER];
    hide Print, Join;
    NextLine(l, 1, "wallet=", a.wallet);
    NextLine(l, 2, "score=", Print(a.score));
    NextLine(l, 3, "tier=", a.tier);
    NextLine(l, 4, "loans_total=", Print(a.loansTotal));
    NextLine(l, 5, "loans_repaid=", Print(a.loansRepaid));
    NextLine(l, 6, "loans_liquidated=", Print(a.loansLiquidated));
    NextLine(l, 7, "issued_at=", a.issuedAt);
    NextLine(l, 8, "expires_at=", a.expiresAt);
    assert l[..9] == l;
  }

  lemma NextLine(l: seq<string>, i: nat, name: string, value: string)
    requires i < |l| && l[i] == name + value
    ensures Join(l[..i + 1]) == Join(l[..i]) + name + value + "\n"
  {
    assert l[..i + 1] == l[..i] + [name + value];
    JoinSnoc(l[..i], name, value);
  }

  lemma JoinHeader()
    ensures Join([HEADER]) == "magpie-credit/v1\n"
  {
    assert [HEADER][1..] == [];
    assert Join([HEADER]) == HEADER + "\n" + "";
  }

  lemma DigitsHaveNoNewline(n: nat)
    ensures OneLine(Print(n))
  {
  }

  lemma LinesAreClean(a: Attestation)
    ensures Clean(a) <==> forall i :: 0 <= i < 9 ==> OneLine(LinesOf(a)[i])
  {
    hide Print, OneLine;
    var l := LinesOf(a);
    HeaderIsOneLine();
    PrefixedLine("wallet=", a.wallet);
    PrefixedNumber("score=", a.score);
    PrefixedLine("tier=", a.tier);
    PrefixedNumber("loans_total=", a.loansTotal);
    PrefixedNumber("loans_repaid=", a.loansRepaid);
    PrefixedNumber("loans_liquidated=", a.loansLiquidated);
    PrefixedLine("issued_at=", a.issuedAt);
    PrefixedLine("expires_at=", a.expiresAt);
    assert OneLine(l[0]) && OneLine(l[2]) && OneLine(l[4]) && OneLine(l[5]) && OneLine(l[6]);
    assert OneLine(l[1]) <==> OneLine(a.wallet);
    assert OneLine(l[3]) <==> OneLine(a.tier);
    assert OneLine(l[7]) <==> OneLine(a.issuedAt);
    assert OneLine(l[8]) <==> OneLine(a.expiresAt);
  }

  lemma PrefixedNumber(name: string, n: nat)
    requires '\n' !in name
    ensures OneLine(name + Print(n))
  {
    DigitsHaveNoNewline(n);
    PrefixedLine(name, Print(n));
  }

  lemma HeaderIsOneLine()
    ensures OneLine(HEADER)
  {
  }

  lemma PrefixedLine(name: string, value: string)
    requires '\n' !in name
    ensures OneLine(name + value) <==> OneLine(value)
  {
    assert forall c :: c in name + value <==> c in name || c in value;
  }

  // ---- Main results ----

  /** The parser inverts the printer exactly on attestations whose text fields
      contain no newline. */
  lemma ParseInvertsIff(a: Attestation)
    ensures Parse(CanonicalPayload(a)) == Some(a) <==> Clean(a)
  {
    CanonicalIsJoin(a);
    LinesAreClean(a);
    var s := CanonicalPayload(a);
    if Clean(a) {
      SplitJoin(LinesOf(a));
      ParseLinesOf(a);
    } else if Parse(s) == Some(a) {
      JoinSplit(s);
      LinesOfParse(Split(s).value);
    }
  }

  /** The parser accepts nothing but printed attestations. */
  lemma PrintInvertsParse(s: string)
    requires Parse(s).Some?
    ensures CanonicalPayload(Parse(s).value) == s && Clean(Parse(s).value)
  {
    JoinSplit(s);
    LinesOfParse(Split(s).value);
    CanonicalIsJoin(Parse(s).value);
    LinesAreClean(Parse(s).value);
  }

  /** The newline condition cannot be dropped: a date field that swallows the
      next line's name gives a second attestation with the same payload. */
  lemma NewlinesCollide(a: Attestation, x: string, y: string, z: string)
    ensures var b := a.(issuedAt := x + "\nexpires_at=" + y, expiresAt := z);
            var c := a.(issuedAt := x, expiresAt := y + "\nexpires_at=" + z);
            CanonicalPayload(b) == CanonicalPayload(c) && b != c && !Clean(b) && !Clean(c)
  {
    hide Print;
    var b := a.(issuedAt := x + "\nexpires_at=" + y, expiresAt := z);
    var c := a.(issuedAt := x, expiresAt := y + "\nexpires_at=" + z);
    assert b.issuedAt[|x|] == '\n' && c.expiresAt[|y|] == '\n';
    assert |b.issuedAt| > |x|;
    var common := FirstSeven(a);
    Swallowed(common, x, y, z);
    assert CanonicalPayload(b) == common + "issued_at=" + b.issuedAt + "\n" + "expires_at=" + z + "\n";
    assert CanonicalPayload(c) == common + "issued_at=" + x + "\n" + "expires_at=" + c.expiresAt + "\n";
  }

  /** The payload up to the line before the dates. */
  function FirstSeven(a: Attestation): string {
    "magpie-credit/v1\n" +
    "wallet=" + a.wallet + "\n" +
    "score=" + Print(a.score) + "\n" +
    "tier=" + a.tier + "\n" +
    "loans_total=" + Print(a.loansTotal) + "\n" +
    "loans_repaid=" + Print(a.loansRepaid) + "\n" +
    "loans_liquidated=" + Print(a.loansLiquidated) + "\n"
  }

  lemma Swallowed(common: string, x: string, y: string, z: string)
    ensures common + "issued_at=" + (x + "\nexpires_at=" + y) + "\n" + "expires_at=" + z + "\n"
         == common + "issued_at=" + x + "\n" + "expires_at=" + (y + "\nexpires_at=" + z) + "\n"
  {
    assert "\nexpires_at=" == "\n" + "expires_at=";
  }
}
