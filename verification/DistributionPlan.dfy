/** The plan file: both pools allocated, one row per wallet, sorted
    (compute-distribution-plan.js). */
module DistributionPlan {
  import opened Sums
  import opened Ordering
  import opened Allocation

  datatype PlanRow = PlanRow(wallet: Wallet, holderLamports: nat, lpLamports: nat, totalLamports: nat)

  predicate RowBefore(a: PlanRow, b: PlanRow) {
    Less(a.wallet.address, b.wallet.address)
  }

  function RowFor(h: map<Wallet, nat>, l: map<Wallet, nat>, w: Wallet): PlanRow {
    PlanRow(w, At(h, w), At(l, w), At(h, w) + At(l, w))
  }

  /** `rows` lists every wallet of either pool once, in address order. */
  ghost predicate IsPlan(h: map<Wallet, nat>, l: map<Wallet, nat>, rows: seq<PlanRow>) {
    && Sorted(RowBefore, rows)
    && Elements(rows) == set w | w in h.Keys + l.Keys :: RowFor(h, l, w)
  }

  /** What the executor reads from each row. */
  function Payments(rows: seq<PlanRow>): seq<Entry> {
    seq(|rows|, i requires 0 <= i < |rows| => Entry(rows[i].wallet, rows[i].totalLamports))
  }

  lemma RowsTotallyOrdered(h: map<Wallet, nat>, l: map<Wallet, nat>, ws: set<Wallet>)
    ensures StrictTotalOn(RowBefore, set w | w in ws :: RowFor(h, l, w))
  {
    forall v: Wallet, w: Wallet ensures v == w || Less(v.address, w.address) || Less(w.address, v.address) {
      LessTrichotomy(v.address, w.address);
    }
    forall v: Wallet, w: Wallet ensures !(Less(v.address, w.address) && Less(w.address, v.address)) {
      LessTrichotomy(v.address, w.address);
    }
    forall a: PlanRow, b: PlanRow, c: PlanRow | RowBefore(a, b) && RowBefore(b, c) ensures RowBefore(a, c) {
      LessTransitive(a.wallet.address, b.wallet.address, c.wallet.address);
    }
  }

  /** Union of the recipients, one row each, sorted by address. The order in
      which the union is enumerated does not matter. */
  method PlanRows(h: map<Wallet, nat>, l: map<Wallet, nat>) returns (rows: seq<PlanRow>)
    ensures IsPlan(h, l, rows)
  {
    var all := h.Keys + l.Keys;
    rows := [];
    var left := all;
    while left != {}
      invariant left <= all
      invariant Elements(rows) == set w | w in all - left :: RowFor(h, l, w)
      invariant Distinct(rows)
      decreases |left|
    {
      var w :| w in left;
      ghost var before := rows;
      assert RowFor(h, l, w) !in Elements(rows);
      rows := rows + [RowFor(h, l, w)];
      assert Elements(rows) == Elements(before) + {RowFor(h, l, w)};
      left := left - {w};
    }
    assert all - left == all;
    RowsTotallyOrdered(h, l, all);
    SortSorts(RowBefore, rows);
    rows := Sort(RowBefore, rows);
  }

  /** The two allocations determine the plan file's rows, order included. */
  lemma PlanUnique(h: map<Wallet, nat>, l: map<Wallet, nat>, rows: seq<PlanRow>, rows': seq<PlanRow>)
    requires IsPlan(h, l, rows) && IsPlan(h, l, rows')
    ensures rows == rows'
  {
    RowsTotallyOrdered(h, l, h.Keys + l.Keys);
    SortedUnique(RowBefore, rows, rows');
  }

  /** The rows in figures: for each recipient of either pool one row with both amounts
      and their sum, in the order of the addresses. */
  lemma PlanRowsAre(h: map<Wallet, nat>, l: map<Wallet, nat>, rows: seq<PlanRow>)
    requires IsPlan(h, l, rows)
    ensures forall r :: r in rows ==>
              && r.holderLamports == At(h, r.wallet) && r.lpLamports == At(l, r.wallet)
              && r.totalLamports == r.holderLamports + r.lpLamports && (r.wallet in h || r.wallet in l)
    ensures forall w :: w in h || w in l ==> exists r :: r in rows && r.wallet == w
    ensures forall i, j :: 0 <= i < j < |rows| ==> Less(rows[i].wallet.address, rows[j].wallet.address)
  {
    hide Less;
    forall r | r in rows
      ensures r.holderLamports == At(h, r.wallet) && r.lpLamports == At(l, r.wallet)
      ensures r.totalLamports == r.holderLamports + r.lpLamports && (r.wallet in h || r.wallet in l)
    {
      assert r in Elements(rows);
    }
    forall w | w in h || w in l ensures exists r :: r in rows && r.wallet == w {
      assert RowFor(h, l, w) in Elements(rows);
    }
  }

  lemma PlanWalletsDistinct(h: map<Wallet, nat>, l: map<Wallet, nat>, rows: seq<PlanRow>)
    requires IsPlan(h, l, rows)
    ensures DistinctKeys(Payments(rows))
    ensures forall w :: At(AsMap(Payments(rows)), w) == At(h, w) + At(l, w)
  {
    hide AsMap;
    var ps := Payments(rows);
    forall i, j | 0 <= i < j < |ps| ensures ps[i].wallet != ps[j].wallet {
      LessTrichotomy(rows[i].wallet.address, rows[j].wallet.address);
      assert RowBefore(rows[i], rows[j]);
    }
    forall w ensures At(AsMap(ps), w) == At(h, w) + At(l, w) {
      GetIsAt(ps, w);
      var p := Position(ps, w);
      if p < |ps| {
        assert rows[p] in Elements(rows);
        assert rows[p] == RowFor(h, l, w);
      } else {
        assert forall k :: 0 <= k < |rows| ==> ps[k].wallet == rows[k].wallet != w;
        assert RowFor(h, l, w) !in Elements(rows);
      }
    }
  }

  /** The plan pays exactly what the two allocations hand out. */
  lemma PlanSum(h: map<Wallet, nat>, l: map<Wallet, nat>, rows: seq<PlanRow>)
    requires IsPlan(h, l, rows)
    ensures SumOf(Payments(rows)) == Total(h) + Total(l)
  {
    PlanWalletsDistinct(h, l, rows);
    SumIsTotal(Payments(rows));
    TotalPointwise(h, l, AsMap(Payments(rows)));
  }

  // ---- From the snapshot to the plan ----

  /** `m` holds each wallet's summed weight. */
  ghost predicate WeighsAs(m: map<Wallet, nat>, rows: seq<Entry>) {
    forall w :: At(m, w) == SumFor(rows, w)
  }

  ghost predicate IsPlanVia(holders: seq<Entry>, lps: seq<Entry>, holderPool: nat, lpPool: nat, rows: seq<PlanRow>,
                            mh: map<Wallet, nat>, ml: map<Wallet, nat>, h: map<Wallet, nat>, l: map<Wallet, nat>)
  {
    && WeighsAs(mh, holders) && WeighsAs(ml, lps)
    && IsAllocation(mh, holderPool, h) && IsAllocation(ml, lpPool, l)
    && IsPlan(h, l, rows)
  }

  /** `rows` is the plan for these snapshot rows and pools; holders and
      collateralized borrowers are one list here. */
  ghost predicate IsPlanFor(holders: seq<Entry>, lps: seq<Entry>, holderPool: nat, lpPool: nat, rows: seq<PlanRow>) {
    exists mh, ml, h, l :: IsPlanVia(holders, lps, holderPool, lpPool, rows, mh, ml, h, l)
  }

  lemma {:induction false} WeightsSum(m: map<Wallet, nat>, rows: seq<Entry>)
    requires WeighsAs(m, rows)
    ensures Total(m) == SumOf(rows)
    decreases |rows|
  {
    hide Total;
    if rows == [] {
      assert forall w :: w in m ==> At(m, w) == SumFor(rows, w);
      TotalOfZeros(m);
    } else {
      var front, last := rows[..|rows| - 1], rows[|rows| - 1];
      var m' := m[last.wallet := SumFor(front, last.wallet)];
      forall w ensures At(m', w) == SumFor(front, w) {
        assert At(m, w) == SumFor(rows, w);
      }
      WeightsSum(m', front);
      assert At(m, last.wallet) == SumFor(rows, last.wallet);
      TotalDrop(m, last.wallet);
      TotalDrop(m', last.wallet);
      assert m - {last.wallet} == m' - {last.wallet};
    }
  }

  /** The whole script: fold, total, allocate both pools, combine, sort. */
  method ComputePlan(holders: seq<Entry>, collateralized: seq<Entry>, lps: seq<Entry>,
                     holderPool: nat, lpPool: nat) returns (rows: seq<PlanRow>)
    ensures IsPlanFor(holders + collateralized, lps, holderPool, lpPool, rows)
  {
    var holderWeight := HolderWeights(holders, collateralized);
    var lpWeight := FoldRows([], lps);
    assert forall w :: At(AsMap([]), w) == 0;
    hide AsMap, IsAllocation, Total, SumFor;
    var h := Allocate(holderWeight, SumOf(holderWeight), holderPool);
    var l := Allocate(lpWeight, SumOf(lpWeight), lpPool);
    rows := PlanRows(h, l);
    assert IsPlanVia(holders + collateralized, lps, holderPool, lpPool, rows,
                     AsMap(holderWeight), AsMap(lpWeight), h, l);
  }

  /** The plan depends on nothing but each wallet's summed weights and the two
      pools: same sums, same rows in the same order. */
  lemma PlanDependsOnSums(holders: seq<Entry>, lps: seq<Entry>, holders': seq<Entry>, lps': seq<Entry>,
                          holderPool: nat, lpPool: nat, rows: seq<PlanRow>, rows': seq<PlanRow>)
    requires IsPlanFor(holders, lps, holderPool, lpPool, rows)
    requires IsPlanFor(holders', lps', holderPool, lpPool, rows')
    requires forall w :: SumFor(holders, w) == SumFor(holders', w)
    requires forall w :: SumFor(lps, w) == SumFor(lps', w)
    ensures rows == rows'
  {
    var mh, ml, h, l :| IsPlanVia(holders, lps, holderPool, lpPool, rows, mh, ml, h, l);
    var mh', ml', h', l' :| IsPlanVia(holders', lps', holderPool, lpPool, rows', mh', ml', h', l');
    hide IsAllocation, IsPlan, SumFor, Total;
    forall w ensures At(mh, w) == At(mh', w) {
      assert SumFor(holders, w) == SumFor(holders', w);
    }
    forall w ensures At(ml, w) == At(ml', w) {
      assert SumFor(lps, w) == SumFor(lps', w);
    }
    AllocationDependsOnSums(mh, mh', holderPool, h, h');
    AllocationDependsOnSums(ml, ml', lpPool, l, l');
    PlanUnique(h, l, rows, rows');
  }

  /** The plan pays out both pools to the last lamport when both categories
      have weight. */
  lemma PlanConserves(holders: seq<Entry>, lps: seq<Entry>, holderPool: nat, lpPool: nat, rows: seq<PlanRow>)
    requires IsPlanFor(holders, lps, holderPool, lpPool, rows)
    requires SumOf(holders) > 0 && SumOf(lps) > 0
    ensures SumOf(Payments(rows)) == holderPool + lpPool
    ensures DistinctKeys(Payments(rows))
  {
    var mh, ml, h, l :| IsPlanVia(holders, lps, holderPool, lpPool, rows, mh, ml, h, l);
    hide IsAllocation, IsPlan, SumFor, Total;
    WeightsSum(mh, holders);
    WeightsSum(ml, lps);
    AllocationTotal(mh, holderPool, h);
    AllocationTotal(ml, lpPool, l);
    PlanSum(h, l, rows);
    PlanWalletsDistinct(h, l, rows);
  }
}
