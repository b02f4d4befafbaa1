/** From the snapshot to the chain: both distribution scripts together. */
module Pipeline {
  import opened Allocation
  import opened DistributionPlan
  import opened Executor

  /** Every lamport of both pools is paid, skipped as dust, or still outstanding,
      in every state the executor can reach from the computed plan without an
      unjournaled batch. */
  lemma PoolsAreConserved(holders: seq<Entry>, lps: seq<Entry>, holderPool: nat, lpPool: nat, rows: seq<PlanRow>,
                          hash: PlanHash, start: State, evs: seq<Event>)
    requires IsPlanFor(holders, lps, holderPool, lpPool, rows)
    requires SumOf(holders) > 0 && SumOf(lps) > 0
    requires Fresh(hash, start)
    requires Steps(Payments(rows), hash, start, evs).unjournaled == 0
    ensures var plan := Payments(rows);
            var s := Steps(plan, hash, start, evs);
            holderPool + lpPool == SumOf(s.chain) + DustSkipped(plan) + Outstanding(plan, Wallets(s.chain))
  {
    hide IsPlanFor, SumOf, Steps, DustSkipped, Outstanding, Payments;
    PlanConserves(holders, lps, holderPool, lpPool, rows);
    PlanIsConserved(Payments(rows), hash, start, evs);
  }

  /** The executor never sends a wallet more than its planned total in one
      transfer, and over all runs of a computed plan the surplus transfers are
      bounded by the unjournaled batches; no condition on the plan is needed. */
  lemma ComputedPlanExcessBounded(holders: seq<Entry>, lps: seq<Entry>, holderPool: nat, lpPool: nat, rows: seq<PlanRow>,
                                  hash: PlanHash, start: State, evs: seq<Event>)
    requires IsPlanFor(holders, lps, holderPool, lpPool, rows) && Fresh(hash, start)
    ensures var s := Steps(Payments(rows), hash, start, evs);
            && |s.chain| - |Wallets(s.chain)| <= BATCH_SIZE * s.unjournaled
            && forall t :: t in s.chain ==>
                 exists r :: r in rows && t == Entry(r.wallet, r.totalLamports)
  {
    var mh, ml, h, l :| IsPlanVia(holders, lps, holderPool, lpPool, rows, mh, ml, h, l);
    PlanWalletsDistinct(h, l, rows);
    hide IsPlanVia, Steps;
    var plan := Payments(rows);
    ExcessBounded(plan, hash, start, evs);
    forall t | t in Steps(plan, hash, start, evs).chain
      ensures exists r :: r in rows && t == Entry(r.wallet, r.totalLamports)
    {
      var k :| 0 <= k < |plan| && plan[k] == t;
      assert rows[k] in rows;
    }
  }
}
