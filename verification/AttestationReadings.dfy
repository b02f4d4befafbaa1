/** When the signed text of a credit attestation can be read in a second way. Its
    lines are fixed; what a reading chooses is where the score, the counts and the
    expiry stand among them. */
module AttestationReadings {
  import opened Options
  import opened DecimalText
  import opened CreditAttestation

  // ---- Lines of one text field ----

  /** The lines of a text, whose last line needs no newline. */
  function TextLines(x: string): (ls: seq<string>)
    ensures ls != []
    ensures forall i :: 0 <= i < |ls| ==> OneLine(ls[i])
    decreases |x|
  {
    var k := LineEnd(x);
    if k == |x| then [x] else [x[..k]] + TextLines(x[k + 1..])
  }

  ghost predicate AllOneLine(ls: seq<string>) {
    forall i :: 0 <= i < |ls| ==> OneLine(ls[i])
  }

  /** The text with these lines. */
  function Text(ls: seq<string>): string
    requires ls != []
  {
    if |ls| == 1 then ls[0] else ls[0] + "\n" + Text(ls[1..])
  }

  lemma {:induction false} JoinText(ls: seq<string>)
    requires ls != []
    ensures Join(ls) == Text(ls) + "\n"
  {
    if |ls| == 1 {
      assert ls[1..] == [];
    } else {
      JoinText(ls[1..]);
      assert ls[0] + "\n" + (Text(ls[1..]) + "\n") == ls[0] + "\n" + Text(ls[1..]) + "\n";
    }
  }

  lemma {:induction false} TextOfLines(x: string)
    ensures Text(TextLines(x)) == x
    decreases |x|
  {
    var k := LineEnd(x);
    if k < |x| {
      TextOfLines(x[k + 1..]);
      assert TextLines(x)[1..] == TextLines(x[k + 1..]);
      assert x == x[..k] + "\n" + x[k + 1..];
    }
  }

  lemma {:induction false} LinesOfText(ls: seq<string>)
    requires ls != [] && AllOneLine(ls)
    ensures TextLines(Text(ls)) == ls
  {
    var x := Text(ls);
    if |ls| == 1 {
      assert forall j :: 0 <= j < |x| ==> x[j] in ls[0];
    } else {
      LinesOfText(ls[1..]);
      FirstLine(ls[0], Text(ls[1..]));
      assert x[..|ls[0]|] == ls[0];
      assert x[|ls[0]| + 1..] == Text(ls[1..]);
    }
  }

  /** A named field as lines. */
  function Named(name: string, x: string): (ls: seq<string>)
    ensures ls != [] && |ls| == |TextLines(x)|
    ensures ls[0] == name + TextLines(x)[0] && ls[1..] == TextLines(x)[1..]
  {
    [name + TextLines(x)[0]] + TextLines(x)[1..]
  }

  /** The field that stands on these lines. */
  function Unnamed(name: string, ls: seq<string>): string
    requires ls != [] && Field(name, ls[0]).Some?
  {
    Text([Field(name, ls[0]).value] + ls[1..])
  }

  lemma UnnamedNamed(name: string, x: string)
    ensures Field(name, Named(name, x)[0]).Some? && Unnamed(name, Named(name, x)) == x
  {
    FieldOf(name, TextLines(x)[0]);
    assert [TextLines(x)[0]] + TextLines(x)[1..] == TextLines(x);
    TextOfLines(x);
  }

  lemma NamedUnnamed(name: string, ls: seq<string>)
    requires ls != [] && AllOneLine(ls) && Field(name, ls[0]).Some?
    ensures Named(name, Unnamed(name, ls)) == ls
  {
    var v := Field(name, ls[0]).value;
    assert OneLine(ls[0]);
    assert forall c :: c in v ==> c in ls[0];
    var vs := [v] + ls[1..];
    assert forall i :: 1 <= i < |vs| ==> vs[i] == ls[i];
    LinesOfText(vs);
    FieldBack(name, ls[0]);
    assert [name + v] + vs[1..] == ls;
  }

  lemma NamedIsOneLine(name: string, x: string)
    requires OneLine(name)
    ensures AllOneLine(Named(name, x))
  {
    var ls := Named(name, x);
    PrefixedLine(name, TextLines(x)[0]);
    assert forall i :: 1 <= i < |ls| ==> ls[i] == TextLines(x)[i];
  }

  lemma JoinNamed(name: string, x: string)
    ensures Join(Named(name, x)) == name + x + "\n"
  {
    var t := TextLines(x);
    var rest := Join(t[1..]);
    assert [name + t[0]][0..] + t[1..] == Named(name, x);
    JoinStep(name + t[0], t[1..]);
    JoinText(t);
    TextOfLines(x);
    assert t == [t[0]] + t[1..];
    JoinStep(t[0], t[1..]);
    hide Join, TextLines;
    assert (name + t[0]) + "\n" + rest == name + (t[0] + "\n" + rest);
  }

  // ---- The lines of a payload ----

  function Layout(w: seq<string>, s: string, t: seq<string>, n: seq<string>, i: seq<string>, e: seq<string>): seq<string> {
    [HEADER] + w + [s] + t + n + i + e
  }

  lemma LayoutAt(w: seq<string>, s: string, t: seq<string>, n: seq<string>, i: seq<string>, e: seq<string>)
    requires |n| == 3
    ensures var l := Layout(w, s, t, n, i, e);
            var p := 1 + |w|;
            var q := p + 1 + |t|;
            var r := q + 3 + |i|;
            && |l| == r + |e| && l[0] == HEADER && l[1..p] == w && l[p] == s && l[p + 1..q] == t
            && l[q..q + 3] == n && l[q + 3..r] == i && l[r..] == e
  {
  }

  lemma LayoutOf(l: seq<string>, p: nat, q: nat, r: nat)
    requires 2 <= p && p + 2 <= q && q + 4 <= r < |l| && l[0] == HEADER
    ensures Layout(l[1..p], l[p], l[p + 1..q], l[q..q + 3], l[q + 3..r], l[r..]) == l
  {
    assert [l[0]] + l[1..p] == l[..p];
    assert l[..p] + [l[p]] == l[..p + 1];
    assert l[..p + 1] + l[p + 1..q] == l[..q];
    assert l[..q] + l[q..q + 3] == l[..q + 3];
    assert l[..q + 3] + l[q + 3..r] == l[..r];
  }

  function Counters(a: Attestation): seq<string> {
    ["loans_total=" + Print(a.loansTotal), "loans_repaid=" + Print(a.loansRepaid),
     "loans_liquidated=" + Print(a.loansLiquidated)]
  }

  function AllLines(a: Attestation): seq<string> {
    Layout(Named("wallet=", a.wallet), "score=" + Print(a.score), Named("tier=", a.tier), Counters(a),
           Named("issued_at=", a.issuedAt), Named("expires_at=", a.expiresAt))
  }

  /** Where the score, the counts and the expiry stand. */
  datatype Cut = Cut(p: nat, q: nat, r: nat)

  function CutOf(a: Attestation): Cut {
    var p := 1 + |TextLines(a.wallet)|;
    var q := p + 1 + |TextLines(a.tier)|;
    Cut(p, q, q + 3 + |TextLines(a.issuedAt)|)
  }

  predicate ScoreAt(l: seq<string>, p: nat) {
    p + 1 < |l| && NatField("score=", l[p]).Some? && Field("tier=", l[p + 1]).Some?
  }

  predicate CountsAt(l: seq<string>, q: nat) {
    && q + 3 < |l| && NatField("loans_total=", l[q]).Some? && NatField("loans_repaid=", l[q + 1]).Some?
    && NatField("loans_liquidated=", l[q + 2]).Some? && Field("issued_at=", l[q + 3]).Some?
  }

  predicate ExpiresAt(l: seq<string>, r: nat) {
    r < |l| && Field("expires_at=", l[r]).Some?
  }

  predicate ValidCut(l: seq<string>, c: Cut) {
    && 1 < |l| && l[0] == HEADER && Field("wallet=", l[1]).Some?
    && 2 <= c.p && ScoreAt(l, c.p) && c.p + 2 <= c.q && CountsAt(l, c.q) && c.q + 4 <= c.r && ExpiresAt(l, c.r)
  }

  /** The attestation read off the lines at a cut. */
  function ReadAt(l: seq<string>, c: Cut): Attestation
    requires ValidCut(l, c)
  {
    Attestation(
      Unnamed("wallet=", l[1..c.p]), NatField("score=", l[c.p]).value, Unnamed("tier=", l[c.p + 1..c.q]),
      NatField("loans_total=", l[c.q]).value, NatField("loans_repaid=", l[c.q + 1]).value,
      NatField("loans_liquidated=", l[c.q + 2]).value,
      Unnamed("issued_at=", l[c.q + 3..c.r]), Unnamed("expires_at=", l[c.r..]))
  }

  // ---- Payloads and lines determine each other ----

  lemma AllLinesClean(a: Attestation)
    ensures AllOneLine(AllLines(a))
  {
    hide Print, Named, OneLine, CutOf;
    NamedIsOneLine("wallet=", a.wallet) by { NamesAreOneLine(); }
    NamedIsOneLine("tier=", a.tier) by { NamesAreOneLine(); }
    NamedIsOneLine("issued_at=", a.issuedAt) by { NamesAreOneLine(); }
    NamedIsOneLine("expires_at=", a.expiresAt) by { NamesAreOneLine(); }
    NumbersAreOneLine(a);
    HeaderIsOneLine();
  }

  lemma NamesAreOneLine()
    ensures OneLine("wallet=") && OneLine("tier=") && OneLine("issued_at=") && OneLine("expires_at=")
  {
  }

  lemma NumbersAreOneLine(a: Attestation)
    ensures OneLine("score=" + Print(a.score)) && AllOneLine(Counters(a))
  {
    PrefixedNumber("score=", a.score);
    PrefixedNumber("loans_total=", a.loansTotal);
    PrefixedNumber("loans_repaid=", a.loansRepaid);
    PrefixedNumber("loans_liquidated=", a.loansLiquidated);
  }

  lemma JoinLayout(w: seq<string>, s: string, t: seq<string>, n: seq<string>, i: seq<string>, e: seq<string>)
    ensures Join(Layout(w, s, t, n, i, e))
         == "magpie-credit/v1\n" + Join(w) + (s + "\n") + Join(t) + Join(n) + Join(i) + Join(e)
  {
    JoinHeader();
    JoinOne(s);
    hide Join;
    JoinConcat([HEADER], w);
    JoinConcat([HEADER] + w, [s]);
    JoinConcat([HEADER] + w + [s], t);
    JoinConcat([HEADER] + w + [s] + t, n);
    JoinConcat([HEADER] + w + [s] + t + n, i);
    JoinConcat([HEADER] + w + [s] + t + n + i, e);
  }

  lemma JoinOne(s: string)
    ensures Join([s]) == s + "\n"
  {
    assert [s][1..] == [];
  }

  lemma JoinCounters(a: Attestation)
    ensures Join(Counters(a)) == ("loans_total=" + Print(a.loansTotal) + "\n") + ("loans_repaid=" + Print(a.loansRepaid) + "\n")
                                 + ("loans_liquidated=" + Print(a.loansLiquidated) + "\n")
  {
    hide Print;
    var t, u, v := "loans_total=" + Print(a.loansTotal), "loans_repaid=" + Print(a.loansRepaid),
                   "loans_liquidated=" + Print(a.loansLiquidated);
    JoinOne(t);
    JoinOne(u);
    JoinOne(v);
    hide Join;
    assert [t, u, v] == [t] + [u] + [v];
    JoinConcat([t] + [u], [v]);
    JoinConcat([t], [u]);
  }

  lemma Regroup(x: string, name: string, value: string)
    ensures x + (name + value + "\n") == x + name + value + "\n"
  {
  }

  lemma RegroupThree(x: string, u: string, v: string, w: string)
    ensures x + (u + v + w) == x + u + v + w
  {
  }

  lemma PayloadOfLines(a: Attestation)
    ensures CanonicalPayload(a) == Join(AllLines(a))
  {
    hide Print, Join, Named, Counters, Layout;
    JoinLayout(Named("wallet=", a.wallet), "score=" + Print(a.score), Named("tier=", a.tier), Counters(a),
               Named("issued_at=", a.issuedAt), Named("expires_at=", a.expiresAt));
    JoinNamed("wallet=", a.wallet);
    JoinNamed("tier=", a.tier);
    JoinNamed("issued_at=", a.issuedAt);
    JoinNamed("expires_at=", a.expiresAt);
    JoinCounters(a);
    var x1 := "magpie-credit/v1\n";
    var x2 := x1 + "wallet=" + a.wallet + "\n";
    var x3 := x2 + "score=" + Print(a.score) + "\n";
    var x4 := x3 + "tier=" + a.tier + "\n";
    var x5 := x4 + "loans_total=" + Print(a.loansTotal) + "\n";
    var x6 := x5 + "loans_repaid=" + Print(a.loansRepaid) + "\n";
    var x7 := x6 + "loans_liquidated=" + Print(a.loansLiquidated) + "\n";
    var x8 := x7 + "issued_at=" + a.issuedAt + "\n";
    Regroup(x1, "wallet=", a.wallet);
    Regroup(x2, "score=", Print(a.score));
    Regroup(x3, "tier=", a.tier);
    Regroup(x4, "loans_total=", Print(a.loansTotal));
    Regroup(x5, "loans_repaid=", Print(a.loansRepaid));
    Regroup(x6, "loans_liquidated=", Print(a.loansLiquidated));
    RegroupThree(x4, "loans_total=" + Print(a.loansTotal) + "\n", "loans_repaid=" + Print(a.loansRepaid) + "\n",
                 "loans_liquidated=" + Print(a.loansLiquidated) + "\n");
    Regroup(x7, "issued_at=", a.issuedAt);
    Regroup(x8, "expires_at=", a.expiresAt);
  }

  lemma SamePayloadIffSameLines(a: Attestation, b: Attestation)
    ensures CanonicalPayload(a) == CanonicalPayload(b) <==> AllLines(a) == AllLines(b)
  {
    hide CanonicalPayload, AllLines, Join, OneLine, Split;
    PayloadOfLines(a);
    PayloadOfLines(b);
    AllLinesClean(a);
    AllLinesClean(b);
    SplitJoin(AllLines(a));
    SplitJoin(AllLines(b));
  }

  // ---- Readings are the valid cuts ----

  lemma LinesAt(a: Attestation)
    ensures var (l, c) := (AllLines(a), CutOf(a));
            && 2 <= c.p && c.p + 2 <= c.q && c.q + 4 <= c.r < |l| && l[0] == HEADER
            && l[1..c.p] == Named("wallet=", a.wallet) && l[c.p] == "score=" + Print(a.score)
            && l[c.p + 1..c.q] == Named("tier=", a.tier) && l[c.q..c.q + 3] == Counters(a)
            && l[c.q + 3..c.r] == Named("issued_at=", a.issuedAt) && l[c.r..] == Named("expires_at=", a.expiresAt)
  {
    hide Print, TextLines, Layout;
    LayoutAt(Named("wallet=", a.wallet), "score=" + Print(a.score), Named("tier=", a.tier), Counters(a),
             Named("issued_at=", a.issuedAt), Named("expires_at=", a.expiresAt));
  }

  /** Its own cut reads an attestation back. */
  lemma OwnCut(a: Attestation)
    ensures ValidCut(AllLines(a), CutOf(a)) && ReadAt(AllLines(a), CutOf(a)) == a
  {
    hide Print, AllLines, CutOf, Named, Unnamed, Field, NatField;
    var l, c := AllLines(a), CutOf(a);
    LinesAt(a);
    assert l[c.q] == l[c.q..c.q + 3][0] && l[c.q + 1] == l[c.q..c.q + 3][1] && l[c.q + 2] == l[c.q..c.q + 3][2];
    assert l[1] == l[1..c.p][0] && l[c.p + 1] == l[c.p + 1..c.q][0] && l[c.q + 3] == l[c.q + 3..c.r][0] && l[c.r] == l[c.r..][0];
    NatFieldOf("score=", a.score);
    NatFieldOf("loans_total=", a.loansTotal);
    NatFieldOf("loans_repaid=", a.loansRepaid);
    NatFieldOf("loans_liquidated=", a.loansLiquidated);
    UnnamedNamed("wallet=", a.wallet);
    UnnamedNamed("tier=", a.tier);
    UnnamedNamed("issued_at=", a.issuedAt);
    UnnamedNamed("expires_at=", a.expiresAt);
  }

  lemma SliceOneLine(l: seq<string>, i: nat, j: nat)
    requires AllOneLine(l) && i <= j <= |l|
    ensures AllOneLine(l[i..j])
  {
  }

  /** Every valid cut of one-line lines reads off an attestation with these lines. */
  lemma AnyCut(l: seq<string>, c: Cut)
    requires AllOneLine(l) && ValidCut(l, c)
    ensures AllLines(ReadAt(l, c)) == l && CutOf(ReadAt(l, c)) == c
  {
    hide Print, Named, Unnamed, Field, NatField, AllOneLine, Layout, TextLines;
    var a := ReadAt(l, c);
    SliceOneLine(l, 1, c.p);
    SliceOneLine(l, c.p + 1, c.q);
    SliceOneLine(l, c.q + 3, c.r);
    SliceOneLine(l, c.r, |l|);
    assert l[c.r..|l|] == l[c.r..];
    NamedUnnamed("wallet=", l[1..c.p]);
    NamedUnnamed("tier=", l[c.p + 1..c.q]);
    NamedUnnamed("issued_at=", l[c.q + 3..c.r]);
    NamedUnnamed("expires_at=", l[c.r..]);
    NatFieldBack("score=", l[c.p]);
    NatFieldBack("loans_total=", l[c.q]);
    NatFieldBack("loans_repaid=", l[c.q + 1]);
    NatFieldBack("loans_liquidated=", l[c.q + 2]);
    assert Counters(a) == l[c.q..c.q + 3];
    LayoutOf(l, c.p, c.q, c.r);
  }

  /** Some other attestation has the same payload. */
  ghost predicate HasSecondReading(a: Attestation) {
    exists b :: b != a && CanonicalPayload(b) == CanonicalPayload(a)
  }

  lemma SecondReadingIsCut(a: Attestation)
    ensures HasSecondReading(a) <==> exists c :: c != CutOf(a) && ValidCut(AllLines(a), c)
  {
    hide CanonicalPayload, AllLines, ValidCut, ReadAt, CutOf;
    OwnCut(a);
    if HasSecondReading(a) {
      var b :| b != a && CanonicalPayload(b) == CanonicalPayload(a);
      SamePayloadIffSameLines(a, b);
      OwnCut(b);
      assert CutOf(b) != CutOf(a);
    }
    if c :| c != CutOf(a) && ValidCut(AllLines(a), c) {
      AllLinesClean(a);
      AnyCut(AllLines(a), c);
      SamePayloadIffSameLines(a, ReadAt(AllLines(a), c));
    }
  }

  // ---- A second cut needs only one of the three marks elsewhere ----

  lemma OneMarkSuffices(l: seq<string>, o: Cut, c: Cut)
    requires ValidCut(l, o) && ValidCut(l, c) && c != o
    ensures (c.p != o.p && ValidCut(l, o.(p := c.p))) || (c.q != o.q && ValidCut(l, o.(q := c.q)))
            || (c.r != o.r && ValidCut(l, o.(r := c.r)))
  {
    hide ScoreAt, CountsAt, ExpiresAt, Field;
  }

  // ---- In terms of the fields ----

  /** After its first line the text has a score line followed by a tier line. */
  predicate ScoreIn(x: string) {
    exists i :: 1 <= i < |TextLines(x)| && ScoreAt(TextLines(x), i)
  }

  /** After its first line the text has the three count lines and an issue line. */
  predicate CountsIn(x: string) {
    exists i :: 1 <= i < |TextLines(x)| && CountsAt(TextLines(x), i)
  }

  /** After its first line the text has an expiry line. */
  predicate ExpiresIn(x: string) {
    exists i :: 1 <= i < |TextLines(x)| && ExpiresAt(TextLines(x), i)
  }

  lemma Clash(n: string, m: string, v: string, k: nat)
    requires k < |n| && k < |m| && n[k] != m[k]
    ensures Field(n, m + v).None? && NatField(n, m + v).None?
  {
    if |n| <= |m + v| {
      assert (m + v)[..|n|][k] == m[k];
    }
  }

  /** Inside the lines of a field, past the first. */
  lemma BlockLine(l: seq<string>, lo: nat, hi: nat, name: string, x: string, j: nat)
    requires lo < hi <= |l| && l[lo..hi] == Named(name, x) && 1 <= j < hi - lo
    ensures hi - lo == |TextLines(x)| && l[lo + j] == TextLines(x)[j]
  {
    assert l[lo + j] == l[lo..hi][j] == Named(name, x)[1..][j - 1];
  }

  /** The lines that carry a name of their own. */
  lemma OwnLines(a: Attestation)
    ensures var (l, c) := (AllLines(a), CutOf(a));
            && 2 <= c.p && c.p + 2 <= c.q && c.q + 4 <= c.r < |l|
            && Field("tier=", l[c.p]).None? && NatField("score=", l[c.p + 1]).None?
            && NatField("loans_repaid=", l[c.q]).None? && NatField("loans_liquidated=", l[c.q]).None?
            && Field("issued_at=", l[c.q]).None?
            && NatField("loans_total=", l[c.q + 1]).None? && NatField("loans_total=", l[c.q + 2]).None?
            && NatField("loans_total=", l[c.q + 3]).None?
  {
    hide Print, AllLines, CutOf, Named, Field, NatField, TextLines;
    var l, c := AllLines(a), CutOf(a);
    LinesAt(a);
    assert l[c.q] == l[c.q..c.q + 3][0] && l[c.q + 1] == l[c.q..c.q + 3][1] && l[c.q + 2] == l[c.q..c.q + 3][2];
    assert l[c.p + 1] == l[c.p + 1..c.q][0] && l[c.q + 3] == l[c.q + 3..c.r][0];
    Clash("tier=", "score=", Print(a.score), 0);
    Clash("score=", "tier=", TextLines(a.tier)[0], 0);
    Clash("loans_repaid=", "loans_total=", Print(a.loansTotal), 6);
    Clash("loans_liquidated=", "loans_total=", Print(a.loansTotal), 6);
    Clash("issued_at=", "loans_total=", Print(a.loansTotal), 0);
    Clash("loans_total=", "loans_repaid=", Print(a.loansRepaid), 6);
    Clash("loans_total=", "loans_liquidated=", Print(a.loansLiquidated), 6);
    Clash("loans_total=", "issued_at=", TextLines(a.issuedAt)[0], 0);
  }

  // ---- Each mark on its own ----

  predicate ScoreCut(a: Attestation, p: nat) {
    p != CutOf(a).p && ValidCut(AllLines(a), CutOf(a).(p := p))
  }

  predicate CountsCut(a: Attestation, q: nat) {
    q != CutOf(a).q && ValidCut(AllLines(a), CutOf(a).(q := q))
  }

  predicate ExpiresCut(a: Attestation, r: nat) {
    r != CutOf(a).r && ValidCut(AllLines(a), CutOf(a).(r := r))
  }

  lemma BlockLines(l: seq<string>, lo: nat, hi: nat, name: string, x: string)
    requires lo < hi <= |l| && l[lo..hi] == Named(name, x)
    ensures hi - lo == |TextLines(x)|
    ensures forall i :: lo + 1 <= i < hi ==> l[i] == TextLines(x)[i - lo]
  {
    hide TextLines;
    forall i | lo + 1 <= i < hi ensures l[i] == TextLines(x)[i - lo] {
      BlockLine(l, lo, hi, name, x, i - lo);
    }
  }

  lemma ScoreCutInside(a: Attestation, p: nat)
    requires ScoreCut(a, p)
    ensures ScoreIn(a.wallet) || ScoreIn(a.tier)
  {
    hide Print, AllLines, CutOf, Named, Field, NatField, TextLines, CountsAt, ExpiresAt, ReadAt;
    var l, o := AllLines(a), CutOf(a);
    LinesAt(a);
    OwnLines(a);
    if p < o.p {
      BlockLines(l, 1, o.p, "wallet=", a.wallet);
      assert p + 1 < o.p;
      assert ScoreAt(TextLines(a.wallet), p - 1);
    } else {
      BlockLines(l, o.p + 1, o.q, "tier=", a.tier);
      assert p != o.p + 1;
      assert ScoreAt(TextLines(a.tier), p - o.p - 1);
    }
  }

  lemma ScoreCutFrom(a: Attestation)
    requires ScoreIn(a.wallet) || ScoreIn(a.tier)
    ensures exists p :: ScoreCut(a, p)
  {
    hide Print, AllLines, CutOf, Named, Field, NatField, TextLines, CountsAt, ExpiresAt, ReadAt;
    var l, o := AllLines(a), CutOf(a);
    LinesAt(a);
    OwnCut(a);
    if ScoreIn(a.wallet) {
      var i :| 1 <= i < |TextLines(a.wallet)| && ScoreAt(TextLines(a.wallet), i);
      BlockLines(l, 1, o.p, "wallet=", a.wallet);
      assert ScoreCut(a, 1 + i);
    } else {
      var i :| 1 <= i < |TextLines(a.tier)| && ScoreAt(TextLines(a.tier), i);
      BlockLines(l, o.p + 1, o.q, "tier=", a.tier);
      assert ScoreCut(a, o.p + 1 + i);
    }
  }

  lemma CountsCutInside(a: Attestation, q: nat)
    requires CountsCut(a, q)
    ensures CountsIn(a.tier) || CountsIn(a.issuedAt)
  {
    hide Print, AllLines, CutOf, Named, Field, NatField, TextLines, ScoreAt, ExpiresAt, ReadAt;
    var l, o := AllLines(a), CutOf(a);
    LinesAt(a);
    OwnLines(a);
    if q < o.q {
      BlockLines(l, o.p + 1, o.q, "tier=", a.tier);
      assert q + 3 < o.q;
      assert CountsAt(TextLines(a.tier), q - o.p - 1);
    } else {
      BlockLines(l, o.q + 3, o.r, "issued_at=", a.issuedAt);
      assert o.q + 3 < q;
      assert CountsAt(TextLines(a.issuedAt), q - o.q - 3);
    }
  }

  lemma CountsCutFrom(a: Attestation)
    requires CountsIn(a.tier) || CountsIn(a.issuedAt)
    ensures exists q :: CountsCut(a, q)
  {
    hide Print, AllLines, CutOf, Named, Field, NatField, TextLines, ScoreAt, ExpiresAt, ReadAt;
    var l, o := AllLines(a), CutOf(a);
    LinesAt(a);
    OwnCut(a);
    if CountsIn(a.tier) {
      var i :| 1 <= i < |TextLines(a.tier)| && CountsAt(TextLines(a.tier), i);
      BlockLines(l, o.p + 1, o.q, "tier=", a.tier);
      assert CountsCut(a, o.p + 1 + i);
    } else {
      var i :| 1 <= i < |TextLines(a.issuedAt)| && CountsAt(TextLines(a.issuedAt), i);
      BlockLines(l, o.q + 3, o.r, "issued_at=", a.issuedAt);
      assert CountsCut(a, o.q + 3 + i);
    }
  }

  lemma ExpiresCutInside(a: Attestation, r: nat)
    requires ExpiresCut(a, r)
    ensures ExpiresIn(a.issuedAt) || ExpiresIn(a.expiresAt)
  {
    hide Print, AllLines, CutOf, Named, Field, NatField, TextLines, ScoreAt, CountsAt, ReadAt;
    var l, o := AllLines(a), CutOf(a);
    LinesAt(a);
    if r < o.r {
      BlockLines(l, o.q + 3, o.r, "issued_at=", a.issuedAt);
      assert ExpiresAt(TextLines(a.issuedAt), r - o.q - 3);
    } else {
      assert l[o.r..|l|] == l[o.r..];
      BlockLines(l, o.r, |l|, "expires_at=", a.expiresAt);
      assert ExpiresAt(TextLines(a.expiresAt), r - o.r);
    }
  }

  lemma ExpiresCutFrom(a: Attestation)
    requires ExpiresIn(a.issuedAt) || ExpiresIn(a.expiresAt)
    ensures exists r :: ExpiresCut(a, r)
  {
    hide Print, AllLines, CutOf, Named, Field, NatField, TextLines, ScoreAt, CountsAt, ReadAt;
    var l, o := AllLines(a), CutOf(a);
    LinesAt(a);
    OwnCut(a);
    if ExpiresIn(a.issuedAt) {
      var i :| 1 <= i < |TextLines(a.issuedAt)| && ExpiresAt(TextLines(a.issuedAt), i);
      BlockLines(l, o.q + 3, o.r, "issued_at=", a.issuedAt);
      assert ExpiresCut(a, o.q + 3 + i);
    } else {
      var i :| 1 <= i < |TextLines(a.expiresAt)| && ExpiresAt(TextLines(a.expiresAt), i);
      assert l[o.r..|l|] == l[o.r..];
      BlockLines(l, o.r, |l|, "expires_at=", a.expiresAt);
      assert ExpiresCut(a, o.r + i);
    }
  }

  /** A text field contains, after its first line, the lines that follow it or the text
      field before it. */
  predicate Ambiguous(a: Attestation) {
    || ScoreIn(a.wallet) || ScoreIn(a.tier)
    || CountsIn(a.tier) || CountsIn(a.issuedAt)
    || ExpiresIn(a.issuedAt) || ExpiresIn(a.expiresAt)
  }

  // ---- Main results ----

  /** Exactly when a second attestation has the same signed text. */
  lemma SecondReadingIff(a: Attestation)
    ensures HasSecondReading(a) <==> Ambiguous(a)
  {
    hide AllLines, CutOf, ValidCut, HasSecondReading, ScoreIn, CountsIn, ExpiresIn;
    SecondReadingIsCut(a);
    OwnCut(a);
    if Ambiguous(a) {
      SomeCut(a);
    }
    if HasSecondReading(a) {
      var c :| c != CutOf(a) && ValidCut(AllLines(a), c);
      OneMarkSuffices(AllLines(a), CutOf(a), c);
      if ScoreCut(a, c.p) {
        ScoreCutInside(a, c.p);
      } else if CountsCut(a, c.q) {
        CountsCutInside(a, c.q);
      } else {
        ExpiresCutInside(a, c.r);
      }
    }
  }

  lemma SomeCut(a: Attestation)
    requires Ambiguous(a)
    ensures exists c :: c != CutOf(a) && ValidCut(AllLines(a), c)
  {
    hide AllLines, CutOf, ValidCut, ScoreIn, CountsIn, ExpiresIn;
    var o := CutOf(a);
    if ScoreIn(a.wallet) || ScoreIn(a.tier) {
      ScoreCutFrom(a);
      var p :| ScoreCut(a, p);
      assert o.(p := p) != o;
    } else if CountsIn(a.tier) || CountsIn(a.issuedAt) {
      CountsCutFrom(a);
      var q :| CountsCut(a, q);
      assert o.(q := q) != o;
    } else {
      ExpiresCutFrom(a);
      var r :| ExpiresCut(a, r);
      assert o.(r := r) != o;
    }
  }

  lemma OneLineText(x: string)
    requires OneLine(x)
    ensures |TextLines(x)| == 1
  {
    assert LineEnd(x) == |x|;
  }

  /** The signed text of an attestation without newlines in its text fields is that
      of no other attestation. */
  lemma CanonicalInjective(a: Attestation, b: Attestation)
    requires Clean(a) && CanonicalPayload(a) == CanonicalPayload(b)
    ensures a == b
  {
    hide TextLines, CanonicalPayload;
    OneLineText(a.wallet);
    OneLineText(a.tier);
    OneLineText(a.issuedAt);
    OneLineText(a.expiresAt);
    SecondReadingIff(a);
  }
}
