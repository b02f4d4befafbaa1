/** Recovery of on-chain loans that the database missed: the scan, diff, insert
    and sync loops of backfill-wallet-loans.js over `recordLoan` (loans.js). The
    loans table has two unique columns, the account address and the loan id. */
module LoanBackfill {

  datatype Pda = Pda(base58: string)

  datatype Status = Active | Repaid | Liquidated

  datatype OnChain = OnChain(pda: Pda, loanId: nat, collateral: nat, loan: nat, repay: nat, status: Status)

  datatype Row = Row(userId: nat, loanId: nat, collateral: nat, loan: nat, original: nat, status: Status)

  type Table = map<Pda, Row>

  /** How one `recordLoan` went: an error before the row was stored, none, or an error
      in the accruals after it. */
  datatype Answer = Down | Answered | ThrewAfterStoring

  /** Account addresses are unique on the chain. */
  ghost predicate Distinct(s: seq<OnChain>) {
    forall i, j :: 0 <= i < j < |s| ==> s[i].pda != s[j].pda
  }

  predicate IdTaken(t: Table, loanId: nat) {
    exists p :: p in t && t[p].loanId == loanId
  }

  ghost predicate IdsUnique(t: Table) {
    forall p, q :: p in t && q in t && p != q ==> t[p].loanId != t[q].loanId
  }

  // ---- Statements and loops as functions ----

  /** A stored row is active, whatever the chain says. */
  function RowOf(userId: nat, l: OnChain): Row {
    Row(userId, l.loanId, l.collateral, l.loan, l.repay, Active)
  }

  /** `INSERT .. ON CONFLICT (loan_id) DO NOTHING`; a clash on the address alone throws. */
  function Recorded(t: Table, userId: nat, l: OnChain): Table {
    if IdTaken(t, l.loanId) || l.pda in t then t else t[l.pda := RowOf(userId, l)]
  }

  /** Whether `recordLoan` returns instead of throwing. It returns early when the id
      is taken. */
  predicate Returns(t: Table, l: OnChain, a: Answer) {
    !a.Down? && (IdTaken(t, l.loanId) || (l.pda !in t && a.Answered?))
  }

  /** `WHERE loan_pda = .. AND status = 'active'` */
  function SyncOne(t: Table, l: OnChain): Table {
    if l.status != Active && l.pda in t && t[l.pda].status == Active then t[l.pda := t[l.pda].(status := l.status)] else t
  }

  function Missing(t: Table, scanned: seq<OnChain>): seq<OnChain> {
    if scanned == [] then [] else
      var n := |scanned| - 1;
      Missing(t, scanned[..n]) + if scanned[n].pda in t then [] else [scanned[n]]
  }

  function Inserted(t: Table, userId: nat, s: seq<OnChain>, answer: Pda -> Answer): Table {
    if s == [] then t else
      var t' := Inserted(t, userId, s[..|s| - 1], answer);
      if answer(s[|s| - 1].pda).Down? then t' else Recorded(t', userId, s[|s| - 1])
  }

  function Reported(t: Table, userId: nat, s: seq<OnChain>, answer: Pda -> Answer): nat {
    if s == [] then 0 else
      var front, l := s[..|s| - 1], s[|s| - 1];
      Reported(t, userId, front, answer) + if Returns(Inserted(t, userId, front, answer), l, answer(l.pda)) then 1 else 0
  }

  function Synced(t: Table, s: seq<OnChain>): Table {
    if s == [] then t else SyncOne(Synced(t, s[..|s| - 1]), s[|s| - 1])
  }

  /** The first `n` statements of the status loop; an error ends it. */
  function Prefix(s: seq<OnChain>, n: nat): seq<OnChain> {
    if n < |s| then s[..n] else s
  }

  /** The table after one backfill; `syncs` bounds the status updates that were answered. */
  function AfterBackfill(t: Table, userId: nat, scanned: seq<OnChain>, answer: Pda -> Answer, syncs: nat): Table {
    var s := Missing(t, scanned);
    var t' := Inserted(t, userId, s, answer);
    if Reported(t, userId, s, answer) > 0 then Synced(t', Prefix(s, syncs)) else t'
  }

  class Loans {
    var rows: Table

    constructor (t: Table)
      ensures rows == t
    {
      rows := t;
    }

    method Diff(scanned: seq<OnChain>) returns (toInsert: seq<OnChain>)
      ensures toInsert == Missing(rows, scanned)
    {
      toInsert := [];
      for i := 0 to |scanned|
        invariant toInsert == Missing(rows, scanned[..i])
      {
        assert scanned[..i + 1][..i] == scanned[..i];
        if scanned[i].pda !in rows {
          toInsert := toInsert + [scanned[i]];
        }
      }
      assert scanned[..|scanned|] == scanned;
    }

    method RecordLoan(userId: nat, l: OnChain, a: Answer) returns (returned: bool)
      modifies this
      ensures rows == if a.Down? then old(rows) else Recorded(old(rows), userId, l)
      ensures returned == Returns(old(rows), l, a)
    {
      if a.Down? {
        return false;
      }
      if IdTaken(rows, l.loanId) {
        return true;
      }
      if l.pda in rows {
        return false;
      }
      rows := rows[l.pda := RowOf(userId, l)];
      returned := a.Answered?;
    }

    method InsertAll(userId: nat, s: seq<OnChain>, answer: Pda -> Answer) returns (inserted: nat)
      modifies this
      ensures rows == Inserted(old(rows), userId, s, answer)
      ensures inserted == Reported(old(rows), userId, s, answer)
    {
      inserted := 0;
      for i := 0 to |s|
        invariant rows == Inserted(old(rows), userId, s[..i], answer)
        invariant inserted == Reported(old(rows), userId, s[..i], answer)
      {
        assert s[..i + 1][..i] == s[..i];
        var returned := RecordLoan(userId, s[i], answer(s[i].pda));
        if returned {
          inserted := inserted + 1;
        }
      }
      assert s[..|s|] == s;
    }

    method SyncAll(s: seq<OnChain>, syncs: nat)
      modifies this
      ensures rows == Synced(old(rows), Prefix(s, syncs))
    {
      for i := 0 to |s|
        invariant i <= syncs
        invariant rows == Synced(old(rows), s[..i])
      {
        if i == syncs {
          return;
        }
        assert s[..i + 1][..i] == s[..i];
        if s[i].status != Active && s[i].pda in rows && rows[s[i].pda].status == Active {
          rows := rows[s[i].pda := rows[s[i].pda].(status := s[i].status)];
        }
      }
      assert s[..|s|] == s;
    }

    method Backfill(userId: nat, scanned: seq<OnChain>, answer: Pda -> Answer, syncs: nat) returns (inserted: nat)
      modifies this
      ensures rows == AfterBackfill(old(rows), userId, scanned, answer, syncs)
      ensures inserted == Reported(old(rows), userId, Missing(old(rows), scanned), answer)
    {
      var toInsert := Diff(scanned);
      inserted := InsertAll(userId, toInsert, answer);
      if inserted > 0 {
        SyncAll(toInsert, syncs);
      }
    }
  }

  // ---- What each loop leaves behind ----

  lemma {:induction false} MissingIs(t: Table, scanned: seq<OnChain>)
    requires Distinct(scanned)
    ensures Distinct(Missing(t, scanned))
    ensures forall l :: l in Missing(t, scanned) <==> l in scanned && l.pda !in t
  {
    if scanned != [] {
      var n := |scanned| - 1;
      MissingIs(t, scanned[..n]);
      assert scanned == scanned[..n] + [scanned[n]];
    }
  }

  /** Rows stay, and addresses outside the list get none. */
  lemma {:induction false} InsertedKeeps(t: Table, userId: nat, s: seq<OnChain>, answer: Pda -> Answer, p: Pda)
    ensures p in t ==> p in Inserted(t, userId, s, answer) && Inserted(t, userId, s, answer)[p] == t[p]
    ensures (forall l :: l in s ==> l.pda != p) && p !in t ==> p !in Inserted(t, userId, s, answer)
  {
    if s != [] {
      assert s[|s| - 1] in s;
      InsertedKeeps(t, userId, s[..|s| - 1], answer, p);
    }
  }

  /** The loan id is among the rows, or a listed loan brings it. */
  ghost predicate IdSeen(t: Table, s: seq<OnChain>, answer: Pda -> Answer, loanId: nat) {
    IdTaken(t, loanId) || exists l :: l in s && !answer(l.pda).Down? && l.loanId == loanId
  }

  lemma {:induction false} InsertedIds(t: Table, userId: nat, s: seq<OnChain>, answer: Pda -> Answer, loanId: nat)
    requires Distinct(s) && forall l :: l in s ==> l.pda !in t
    ensures IdTaken(Inserted(t, userId, s, answer), loanId) <==> IdSeen(t, s, answer, loanId)
  {
    if s != [] {
      var n := |s| - 1;
      var front, l := s[..n], s[n];
      assert s == front + [l];
      assert forall x :: x in s <==> x in front || x == l;
      InsertedIds(t, userId, front, answer, loanId);
      var t' := Inserted(t, userId, front, answer);
      InsertedKeeps(t, userId, front, answer, l.pda);
      RecordedIds(t', userId, l, loanId);
    }
  }

  lemma RecordedIds(t: Table, userId: nat, l: OnChain, loanId: nat)
    requires l.pda !in t
    ensures IdTaken(Recorded(t, userId, l), loanId) <==> IdTaken(t, loanId) || l.loanId == loanId
  {
    var t' := Recorded(t, userId, l);
    if IdTaken(t, loanId) {
      var p :| p in t && t[p].loanId == loanId;
      assert p in t' && t'[p].loanId == loanId;
    }
    assert l.pda in t' ==> t'[l.pda].loanId == l.loanId;
  }

  /** A listed loan gets its row exactly if the database answered and its id was
      free when its turn came. */
  lemma {:induction false} InsertedAt(t: Table, userId: nat, s: seq<OnChain>, answer: Pda -> Answer, k: nat)
    requires Distinct(s) && k < |s| && forall l :: l in s ==> l.pda !in t
    ensures var t' := Inserted(t, userId, s, answer);
            && (s[k].pda in t' <==> !answer(s[k].pda).Down? && !IdSeen(t, s[..k], answer, s[k].loanId))
            && (s[k].pda in t' ==> t'[s[k].pda] == RowOf(userId, s[k]))
    decreases |s|
  {
    var n := |s| - 1;
    assert forall l :: l in s[..n] ==> l in s;
    if k == n {
      InsertedKeeps(t, userId, s[..n], answer, s[n].pda);
      InsertedIds(t, userId, s[..n], answer, s[n].loanId);
    } else {
      assert s[..n][..k] == s[..k];
      InsertedAt(t, userId, s[..n], answer, k);
    }
  }

  lemma {:induction false} ReportedAll(t: Table, userId: nat, s: seq<OnChain>, answer: Pda -> Answer)
    requires Distinct(s) && forall l :: l in s ==> l.pda !in t && answer(l.pda).Answered?
    ensures Reported(t, userId, s, answer) == |s|
  {
    if s != [] {
      var n := |s| - 1;
      assert s == s[..n] + [s[n]];
      ReportedAll(t, userId, s[..n], answer);
      InsertedKeeps(t, userId, s[..n], answer, s[n].pda);
    }
  }

  /** Some insert returned: one that stored its row and did not throw afterwards, or one
      whose id was taken by a row or an earlier listed loan. */
  ghost predicate SomeReturned(t: Table, s: seq<OnChain>, answer: Pda -> Answer) {
    exists k :: 0 <= k < |s| && ReturnedAt(t, s, answer, k)
  }

  ghost predicate ReturnedAt(t: Table, s: seq<OnChain>, answer: Pda -> Answer, k: nat)
    requires k < |s|
  {
    answer(s[k].pda).Answered? || (!answer(s[k].pda).Down? && IdSeen(t, s[..k], answer, s[k].loanId))
  }

  /** Exactly then something is reported as inserted. */
  lemma {:induction false} ReportedIff(t: Table, userId: nat, s: seq<OnChain>, answer: Pda -> Answer)
    requires Distinct(s) && forall l :: l in s ==> l.pda !in t
    ensures Reported(t, userId, s, answer) > 0 <==> SomeReturned(t, s, answer)
  {
    hide IdSeen;
    if s != [] {
      var n := |s| - 1;
      var front := s[..n];
      assert s == front + [s[n]];
      assert forall k :: 0 <= k < n ==> front[..k] == s[..k] && front[k] == s[k];
      ReportedIff(t, userId, front, answer);
      InsertedKeeps(t, userId, front, answer, s[n].pda);
      InsertedIds(t, userId, front, answer, s[n].loanId);
      assert s[n] in s;
      assert ReturnedAt(t, s, answer, n) == Returns(Inserted(t, userId, front, answer), s[n], answer(s[n].pda));
      assert forall k :: 0 <= k < n ==> ReturnedAt(t, front, answer, k) == ReturnedAt(t, s, answer, k);
      if SomeReturned(t, front, answer) {
        var k :| 0 <= k < n && ReturnedAt(t, front, answer, k);
        assert ReturnedAt(t, s, answer, k);
      }
      if k :| 0 <= k < n && ReturnedAt(t, s, answer, k) {
        assert ReturnedAt(t, front, answer, k);
      }
    }
  }

  /** A listed loan whose id is taken is reported whenever the database answers. */
  lemma {:induction false} TakenIsReported(t: Table, userId: nat, s: seq<OnChain>, answer: Pda -> Answer, k: nat)
    requires k < |s| && IdTaken(t, s[k].loanId) && !answer(s[k].pda).Down?
    ensures Reported(t, userId, s, answer) > 0
    decreases |s|
  {
    var n := |s| - 1;
    if k == n {
      var p :| p in t && t[p].loanId == s[k].loanId;
      InsertedKeeps(t, userId, s[..n], answer, p);
    } else {
      TakenIsReported(t, userId, s[..n], answer, k);
    }
  }

  lemma {:induction false} SyncedElsewhere(t: Table, s: seq<OnChain>, p: Pda)
    requires forall l :: l in s ==> l.pda != p
    ensures p in Synced(t, s) <==> p in t
    ensures p in t ==> Synced(t, s)[p] == t[p]
  {
    if s != [] {
      assert s[|s| - 1] in s;
      SyncedElsewhere(t, s[..|s| - 1], p);
    }
  }

  lemma {:induction false} SyncedAt(t: Table, s: seq<OnChain>, k: nat)
    requires Distinct(s) && k < |s|
    ensures var p, t' := s[k].pda, Synced(t, s);
            && (p in t' <==> p in t)
            && (p in t ==> t'[p] == if t[p].status == Active then t[p].(status := s[k].status) else t[p])
    decreases |s|
  {
    var n := |s| - 1;
    if k == n {
      SyncedElsewhere(t, s[..n], s[k].pda);
    } else {
      SyncedAt(t, s[..n], k);
    }
  }

  // ---- What one backfill does ----

  /** Rows that were there, and addresses that were not scanned, are untouched. */
  lemma BackfillKeepsRows(t: Table, userId: nat, scanned: seq<OnChain>, answer: Pda -> Answer, syncs: nat, p: Pda)
    requires Distinct(scanned) && (p in t || forall l :: l in scanned ==> l.pda != p)
    ensures p in AfterBackfill(t, userId, scanned, answer, syncs) <==> p in t
    ensures p in t ==> AfterBackfill(t, userId, scanned, answer, syncs)[p] == t[p]
  {
    hide Missing, Inserted, Synced, Reported, Distinct;
    MissingIs(t, scanned);
    var s := Missing(t, scanned);
    InsertedKeeps(t, userId, s, answer, p);
    assert forall l :: l in Prefix(s, syncs) ==> l in s;
    SyncedElsewhere(Inserted(t, userId, s, answer), Prefix(s, syncs), p);
  }

  /** The status loop runs and reaches the `k`-th missing loan. */
  ghost predicate Reaches(t: Table, scanned: seq<OnChain>, answer: Pda -> Answer, syncs: nat, k: nat) {
    SomeReturned(t, Missing(t, scanned), answer) && k < syncs
  }

  lemma SyncedPrefix(t: Table, s: seq<OnChain>, syncs: nat, k: nat)
    requires Distinct(s) && k < |s|
    ensures var p, t' := s[k].pda, Synced(t, Prefix(s, syncs));
            && (p in t' <==> p in t)
            && (p in t ==> t'[p] == if k < syncs && t[p].status == Active then t[p].(status := s[k].status) else t[p])
  {
    var front := Prefix(s, syncs);
    assert forall i :: 0 <= i < |front| ==> front[i] == s[i];
    if k < syncs {
      SyncedAt(t, front, k);
    } else {
      SyncedElsewhere(t, front, s[k].pda);
    }
  }

  /** The `k`-th missing loan gets a row exactly if the database answered and its
      loan id was not yet taken. The row carries its figures; its status is that on
      the chain if the status loop reaches it, and active otherwise. */
  lemma BackfillStores(t: Table, userId: nat, scanned: seq<OnChain>, answer: Pda -> Answer, syncs: nat, k: nat)
    requires Distinct(scanned) && k < |Missing(t, scanned)|
    ensures var t', s := AfterBackfill(t, userId, scanned, answer, syncs), Missing(t, scanned);
            && (s[k].pda in t' <==> !answer(s[k].pda).Down? && !IdSeen(t, s[..k], answer, s[k].loanId))
            && (s[k].pda in t' ==>
                  t'[s[k].pda] == Row(userId, s[k].loanId, s[k].collateral, s[k].loan, s[k].repay,
                                      if Reaches(t, scanned, answer, syncs, k) then s[k].status else Active))
  {
    hide Missing, Inserted, Synced, Reported, Distinct, IdSeen, Prefix, SomeReturned;
    MissingIs(t, scanned);
    var s := Missing(t, scanned);
    assert s[k] in s;
    ReportedIff(t, userId, s, answer);
    InsertedAt(t, userId, s, answer, k);
    SyncedPrefix(Inserted(t, userId, s, answer), s, syncs, k);
  }

  // ---- Which loans are recovered ----

  /** All scanned loans are in the table afterwards. */
  ghost predicate AllRecovered(t: Table, scanned: seq<OnChain>) {
    forall l :: l in scanned ==> l.pda in t
  }

  ghost predicate FreshAt(t: Table, s: seq<OnChain>, i: nat)
    requires i < |s|
  {
    !IdTaken(t, s[i].loanId) && forall j :: 0 <= j < i ==> s[j].loanId != s[i].loanId
  }

  /** The missing loans bring new loan ids, pairwise different. */
  ghost predicate FreshIds(t: Table, s: seq<OnChain>) {
    forall i :: 0 <= i < |s| ==> FreshAt(t, s, i)
  }

  lemma StoredIffFresh(t: Table, userId: nat, scanned: seq<OnChain>, answer: Pda -> Answer, syncs: nat, i: nat)
    requires Distinct(scanned) && i < |Missing(t, scanned)| && forall l :: l in scanned ==> !answer(l.pda).Down?
    ensures Missing(t, scanned)[i].pda in AfterBackfill(t, userId, scanned, answer, syncs)
       <==> FreshAt(t, Missing(t, scanned), i)
  {
    hide Missing, AfterBackfill, Distinct, FreshAt, IdSeen, Reaches;
    MissingIs(t, scanned);
    BackfillStores(t, userId, scanned, answer, syncs, i);
    SeenIffNotFresh(t, Missing(t, scanned), answer, i);
    assert Missing(t, scanned)[i] in scanned;
  }

  lemma SeenIffNotFresh(t: Table, s: seq<OnChain>, answer: Pda -> Answer, i: nat)
    requires i < |s| && forall l :: l in s ==> !answer(l.pda).Down?
    ensures IdSeen(t, s[..i], answer, s[i].loanId) <==> !FreshAt(t, s, i)
  {
    assert forall j :: 0 <= j < i ==> s[..i][j] == s[j] && s[j] in s && s[j] in s[..i];
  }

  ghost predicate AllIn(t: Table, s: seq<OnChain>) {
    forall i :: 0 <= i < |s| ==> s[i].pda in t
  }

  lemma RecoveredMeansRows(t: Table, t': Table, scanned: seq<OnChain>, s: seq<OnChain>)
    requires forall l :: l in s <==> l in scanned && l.pda !in t
    requires forall l :: l in scanned && l.pda in t ==> l.pda in t'
    ensures AllRecovered(t', scanned) <==> AllIn(t', s)
  {
    assert AllIn(t', s) ==> forall l :: l in s ==> l.pda in t';
    assert forall i :: 0 <= i < |s| ==> s[i] in s;
  }

  /** When the database answers, a backfill recovers everything if and only if no
      missing loan shares its loan id with a row or with another missing loan. */
  lemma AllRecoveredIff(t: Table, userId: nat, scanned: seq<OnChain>, answer: Pda -> Answer, syncs: nat)
    requires Distinct(scanned) && forall l :: l in scanned ==> !answer(l.pda).Down?
    ensures AllRecovered(AfterBackfill(t, userId, scanned, answer, syncs), scanned) <==> FreshIds(t, Missing(t, scanned))
  {
    hide Missing, AfterBackfill, Distinct, FreshAt, AllRecovered;
    MissingIs(t, scanned);
    var s, t' := Missing(t, scanned), AfterBackfill(t, userId, scanned, answer, syncs);
    forall l | l in scanned && l.pda in t ensures l.pda in t' {
      BackfillKeepsRows(t, userId, scanned, answer, syncs, l.pda);
    }
    RecoveredMeansRows(t, t', scanned, s);
    forall i | 0 <= i < |s| ensures s[i].pda in t' <==> FreshAt(t, s, i) {
      StoredIffFresh(t, userId, scanned, answer, syncs, i);
    }
  }

  /** ... and when no call throws, it reports all missing loans as inserted, stored
      or not. */
  lemma ReportsAllMissing(t: Table, userId: nat, scanned: seq<OnChain>, answer: Pda -> Answer)
    requires Distinct(scanned) && forall l :: l in scanned ==> answer(l.pda).Answered?
    ensures Reported(t, userId, Missing(t, scanned), answer) == |Missing(t, scanned)|
  {
    hide Missing, Distinct, Reported;
    MissingIs(t, scanned);
    ReportedAll(t, userId, Missing(t, scanned), answer);
  }

  // ---- What no later backfill repairs ----

  /** One call of the endpoint. */
  datatype Call = Call(userId: nat, scanned: seq<OnChain>, answer: Pda -> Answer, syncs: nat)

  function AfterAll(t: Table, calls: seq<Call>): Table {
    if calls == [] then t else
      var c := calls[|calls| - 1];
      AfterBackfill(AfterAll(t, calls[..|calls| - 1]), c.userId, c.scanned, c.answer, c.syncs)
  }

  /** A scan shows each address once, and this account with its own id. */
  ghost predicate Scans(c: Call, l: OnChain) {
    Distinct(c.scanned) && forall x :: x in c.scanned && x.pda == l.pda ==> x.loanId == l.loanId
  }

  /** A missing loan whose id belongs to a row of another account. */
  predicate Shadowed(t: Table, l: OnChain) {
    l.pda !in t && IdTaken(t, l.loanId)
  }

  lemma ShadowedStays(t: Table, c: Call, l: OnChain)
    requires Scans(c, l) && Shadowed(t, l)
    ensures Shadowed(AfterBackfill(t, c.userId, c.scanned, c.answer, c.syncs), l)
  {
    hide Missing, AfterBackfill, Distinct, Reaches;
    MissingIs(t, c.scanned);
    var s := Missing(t, c.scanned);
    var p :| p in t && t[p].loanId == l.loanId;
    BackfillKeepsRows(t, c.userId, c.scanned, c.answer, c.syncs, p);
    if x :| x in c.scanned && x.pda == l.pda {
      var k :| 0 <= k < |s| && s[k] == x;
      BackfillStores(t, c.userId, c.scanned, c.answer, c.syncs, k);
    } else {
      BackfillKeepsRows(t, c.userId, c.scanned, c.answer, c.syncs, l.pda);
    }
  }

  /** A shadowed loan is stored by no later backfill; each one that scans it and is
      answered reports it as inserted. */
  lemma {:induction false} ShadowedForever(t: Table, calls: seq<Call>, l: OnChain, c: Call)
    requires Shadowed(t, l) && (forall i :: 0 <= i < |calls| ==> Scans(calls[i], l)) && Scans(c, l)
    ensures Shadowed(AfterAll(t, calls), l)
    ensures l in c.scanned && !c.answer(l.pda).Down? ==>
              Reported(AfterAll(t, calls), c.userId, Missing(AfterAll(t, calls), c.scanned), c.answer) > 0
    decreases |calls|
  {
    hide AfterBackfill, Scans, Missing, Reported;
    if calls != [] {
      var front := calls[..|calls| - 1];
      ShadowedForever(t, front, l, c);
      ShadowedStays(AfterAll(t, front), calls[|calls| - 1], l);
    }
    var now := AfterAll(t, calls);
    assert Distinct(c.scanned) by { ScansDistinct(c, l); }
    MissingIs(now, c.scanned);
    if l in c.scanned && !c.answer(l.pda).Down? {
      var k :| 0 <= k < |Missing(now, c.scanned)| && Missing(now, c.scanned)[k] == l;
      TakenIsReported(now, c.userId, Missing(now, c.scanned), c.answer, k);
    }
  }

  lemma ScansDistinct(c: Call, l: OnChain)
    requires Scans(c, l)
    ensures Distinct(c.scanned)
  {
  }

  /** A row that is active although its loan is closed on the chain. */
  predicate Stale(t: Table, l: OnChain) {
    l.pda in t && t[l.pda].status == Active && l.status != Active
  }

  /** No later backfill touches a stale row. */
  lemma {:induction false} StaleForever(t: Table, calls: seq<Call>, l: OnChain)
    requires Stale(t, l) && forall i :: 0 <= i < |calls| ==> Distinct(calls[i].scanned)
    ensures Stale(AfterAll(t, calls), l)
  {
    hide AfterBackfill, Distinct;
    if calls != [] {
      var front, c := calls[..|calls| - 1], calls[|calls| - 1];
      StaleForever(t, front, l);
      BackfillKeepsRows(AfterAll(t, front), c.userId, c.scanned, c.answer, c.syncs, l.pda);
    }
  }

  /** A backfill leaves the `k`-th missing loan stale if and only if it stores a row for
      a closed loan that its status loop does not reach. */
  lemma LeftStaleIff(t: Table, userId: nat, scanned: seq<OnChain>, answer: Pda -> Answer, syncs: nat, k: nat)
    requires Distinct(scanned) && k < |Missing(t, scanned)|
    ensures var s := Missing(t, scanned);
            Stale(AfterBackfill(t, userId, scanned, answer, syncs), s[k]) <==>
              && !answer(s[k].pda).Down? && !IdSeen(t, s[..k], answer, s[k].loanId)
              && s[k].status != Active && !Reaches(t, scanned, answer, syncs, k)
  {
    hide Missing, AfterBackfill, Distinct, IdSeen, Reaches;
    BackfillStores(t, userId, scanned, answer, syncs, k);
  }

  /** One loan, repaid on the chain, whose accruals throw after the insert: nothing is
      reported, the status loop is skipped, and the row stays active. */
  lemma LateErrorLeavesStale(l: OnChain, userId: nat, syncs: nat)
    requires l.status != Active
    ensures Stale(AfterBackfill(map[], userId, [l], _ => ThrewAfterStoring, syncs), l)
  {
    var answer: Pda -> Answer := _ => ThrewAfterStoring;
    assert [l][..0] == [];
    assert Missing(map[], [l]) == [l];
    assert !ReturnedAt(map[], [l], answer, 0);
    LeftStaleIff(map[], userId, [l], answer, syncs, 0);
  }

  // ---- Repeating a backfill ----

  /** A backfill that recovered everything makes the same scan a no-op. */
  lemma BackfillIdempotent(t: Table, userId: nat, scanned: seq<OnChain>, answer: Pda -> Answer, syncs: nat, again: Call)
    requires Distinct(scanned) && AllRecovered(AfterBackfill(t, userId, scanned, answer, syncs), scanned)
    requires again.scanned == scanned
    ensures var t' := AfterBackfill(t, userId, scanned, answer, syncs);
            && AfterBackfill(t', again.userId, scanned, again.answer, again.syncs) == t'
            && Reported(t', again.userId, Missing(t', scanned), again.answer) == 0
  {
    var t' := AfterBackfill(t, userId, scanned, answer, syncs);
    hide AfterBackfill, Distinct, Missing;
    MissingIs(t', scanned);
    EmptyOrFirst(Missing(t', scanned));
    assert Missing(t', scanned) == [];
    NothingMissing(t', again.userId, scanned, again.answer, again.syncs);
  }

  lemma NothingMissing(t: Table, userId: nat, scanned: seq<OnChain>, answer: Pda -> Answer, syncs: nat)
    requires Missing(t, scanned) == []
    ensures AfterBackfill(t, userId, scanned, answer, syncs) == t && Reported(t, userId, Missing(t, scanned), answer) == 0
  {
  }

  lemma EmptyOrFirst(s: seq<OnChain>)
    ensures s == [] || s[0] in s
  {
  }

  lemma {:induction false} InsertedIdsUnique(t: Table, userId: nat, s: seq<OnChain>, answer: Pda -> Answer)
    requires IdsUnique(t)
    ensures IdsUnique(Inserted(t, userId, s, answer))
  {
    if s != [] {
      InsertedIdsUnique(t, userId, s[..|s| - 1], answer);
    }
  }

  lemma {:induction false} SyncedIdsUnique(t: Table, s: seq<OnChain>)
    requires IdsUnique(t)
    ensures IdsUnique(Synced(t, s))
  {
    if s != [] {
      SyncedIdsUnique(t, s[..|s| - 1]);
    }
  }

  /** Loan ids stay unique. */
  lemma BackfillKeepsIdsUnique(t: Table, userId: nat, scanned: seq<OnChain>, answer: Pda -> Answer, syncs: nat)
    requires IdsUnique(t)
    ensures IdsUnique(AfterBackfill(t, userId, scanned, answer, syncs))
  {
    var s := Missing(t, scanned);
    InsertedIdsUnique(t, userId, s, answer);
    SyncedIdsUnique(Inserted(t, userId, s, answer), Prefix(s, syncs));
  }

  /** Two borrowers' loans with the same id: the second is never stored. */
  lemma SharedIdIsLost(answer: Pda -> Answer, syncs: nat)
    ensures var first, second := OnChain(Pda("A"), 7, 1, 1, 1, Active), OnChain(Pda("B"), 7, 2, 2, 2, Active);
            !AllRecovered(AfterBackfill(map[first.pda := RowOf(1, first)], 2, [second], answer, syncs), [second])
  {
    var first, second := OnChain(Pda("A"), 7, 1, 1, 1, Active), OnChain(Pda("B"), 7, 2, 2, 2, Active);
    var t := map[first.pda := RowOf(1, first)];
    assert first.pda in t && first.pda != second.pda;
    ShadowedStays(t, Call(2, [second], answer, syncs), second);
    assert second in [second];
  }
}
