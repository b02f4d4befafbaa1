/** What a revocation settles for good, and what it leaves open. */
module AgentRevocation {
  import opened Options
  import opened AgentOrders
  import opened AgentRuns

  /** An order of this agent on a loan of this wallet. */
  predicate OrderedOn(db: Db, o: Order, wallet: Pubkey, agent: Pubkey) {
    o.agent == Some(agent) && o.loanId in db.loans && db.loans[o.loanId].wallet == wallet
  }

  predicate Paused(s: OrderStatus) {
    s.Firing? || s.AwaitingUser? || s.Approved?
  }

  predicate ArmedOn(db: Db, wallet: Pubkey, agent: Pubkey) {
    exists k :: 0 <= k < |db.orders| && OrderedOn(db, db.orders[k], wallet, agent) && db.orders[k].status == Armed
  }

  predicate PausedOn(db: Db, wallet: Pubkey, agent: Pubkey) {
    exists k :: 0 <= k < |db.orders| && OrderedOn(db, db.orders[k], wallet, agent) && Paused(db.orders[k].status)
  }

  /** The event grants this agent this wallet. */
  predicate GrantsPair(ev: Event, wallet: Pubkey, agent: Pubkey) {
    ev.Authorize? && ev.grant.wallet == wallet && ev.grant.agent == agent
  }

  ghost predicate WithoutGrant(evs: seq<Event>, wallet: Pubkey, agent: Pubkey) {
    forall i :: 0 <= i < |evs| ==> !GrantsPair(evs[i], wallet, agent)
  }

  ghost predicate Ungranted(db: Db, wallet: Pubkey, agent: Pubkey) {
    forall i :: 0 <= i < |db.delegations| ==> !Grants(db.delegations[i], wallet, agent)
  }

  // ---- Without a grant ----

  lemma RevokeUngrants(db: Db, i: nat, userId: nat, agent: Pubkey)
    requires OneActive(db.delegations) && i < |db.delegations| && Hit(db.delegations[i], userId, agent)
    ensures Ungranted(AfterRevoke(db, userId, agent), db.delegations[i].wallet, agent)
  {
  }

  lemma StepKeepsUngranted(db: Db, ev: Event, wallet: Pubkey, agent: Pubkey)
    requires Ungranted(db, wallet, agent) && !GrantsPair(ev, wallet, agent)
    ensures Ungranted(Step(db, ev), wallet, agent)
  {
    hide Step;
    forall k | 0 <= k < |Step(db, ev).delegations| ensures !Grants(Step(db, ev).delegations[k], wallet, agent) {
      RowsOnlyAgeOrAreGranted(db, ev, k);
    }
  }

  lemma {:induction false} StaysUngranted(db: Db, evs: seq<Event>, wallet: Pubkey, agent: Pubkey)
    requires Ungranted(db, wallet, agent) && WithoutGrant(evs, wallet, agent)
    ensures Ungranted(RunFrom(db, evs), wallet, agent)
  {
    hide Step, Ungranted;
    if evs != [] {
      StaysUngranted(db, evs[..|evs| - 1], wallet, agent);
      StepKeepsUngranted(RunFrom(db, evs[..|evs| - 1]), evs[|evs| - 1], wallet, agent);
    }
  }

  lemma UngrantedAreRefused(db: Db, wallet: Pubkey, agent: Pubkey, req: ArmRequest, coreAccepts: bool, orderId: nat, now: int)
    requires Ungranted(db, wallet, agent)
    ensures req.wallet == wallet && req.agent == agent ==> !ArmOutcome(db, req, now, coreAccepts).ArmedOrder?
    ensures orderId < |db.orders| && OrderedOn(db, db.orders[orderId], wallet, agent) ==>
              CancelOutcome(db, orderId, agent, now) == Some(NoActiveDelegation)
  {
  }

  /** Until a new grant the agent can neither arm nor cancel on the wallet. */
  lemma RevokedAgentIsOut(db: Db, i: nat, userId: nat, agent: Pubkey, evs: seq<Event>,
                          req: ArmRequest, coreAccepts: bool, orderId: nat, now: int)
    requires OneActive(db.delegations) && i < |db.delegations| && Hit(db.delegations[i], userId, agent)
    requires WithoutGrant(evs, db.delegations[i].wallet, agent)
    ensures var wallet, later := db.delegations[i].wallet, RunFrom(AfterRevoke(db, userId, agent), evs);
            && (req.wallet == wallet && req.agent == agent ==> !ArmOutcome(later, req, now, coreAccepts).ArmedOrder?)
            && (orderId < |later.orders| && OrderedOn(later, later.orders[orderId], wallet, agent) ==>
                  CancelOutcome(later, orderId, agent, now) == Some(NoActiveDelegation))
  {
    hide Ungranted, ArmOutcome, CancelOutcome;
    var wallet := db.delegations[i].wallet;
    RevokeUngrants(db, i, userId, agent);
    StaysUngranted(AfterRevoke(db, userId, agent), evs, wallet, agent);
    UngrantedAreRefused(RunFrom(AfterRevoke(db, userId, agent), evs), wallet, agent, req, coreAccepts, orderId, now);
  }

  // ---- Orders that outlive a revocation ----

  /** All the agent's orders on the wallet are over. */
  ghost predicate Settled(db: Db, wallet: Pubkey, agent: Pubkey) {
    forall k :: 0 <= k < |db.orders| && OrderedOn(db, db.orders[k], wallet, agent) ==>
      db.orders[k].status.Cancelled? || db.orders[k].status.Closed?
  }

  lemma OverStaysOver(db: Db, ev: Event, k: nat)
    requires k < |db.orders| && (db.orders[k].status.Cancelled? || db.orders[k].status.Closed?)
    ensures k < |Step(db, ev).orders| && (Step(db, ev).orders[k].status.Cancelled? || Step(db, ev).orders[k].status.Closed?)
  {
    hide FindDelegation, Fits, ArmedCount, RevokedRows, Authorized, StandsDown, AfterArm;
    if ev.ArmCall? {
      ArmOnlyAdds(db, ev.req, ev.now, ev.coreAccepts);
    }
  }

  /** A new order of an agent is on a wallet that grants it. */
  lemma NewOrdersAreGranted(db: Db, ev: Event, wallet: Pubkey, agent: Pubkey)
    requires Ungranted(db, wallet, agent)
    ensures var os := Step(db, ev).orders;
            |os| == |db.orders| + 1 ==> !OrderedOn(db, os[|db.orders|], wallet, agent)
  {
    hide Fits, ArmedCount, RevokedRows, Authorized, StandsDown;
    if ev.ArmCall? && ArmOutcome(db, ev.req, ev.now, ev.coreAccepts).ArmedOrder? {
      ArmWithinConsent(db, ev.req, ev.now, ev.coreAccepts);
    }
  }

  lemma OrderedByAgent(db: Db, o: Order, wallet: Pubkey, agent: Pubkey)
    requires OrderedOn(db, o, wallet, agent)
    ensures o.agent == Some(agent)
  {
  }

  lemma OrderedOnStays(db: Db, ev: Event, o: Order, o': Order, wallet: Pubkey, agent: Pubkey)
    requires o.loanId in db.loans && o'.loanId == o.loanId && o'.agent == o.agent
    ensures OrderedOn(Step(db, ev), o', wallet, agent) == OrderedOn(db, o, wallet, agent)
  {
    hide Step;
    LoansStay(db, ev, o.loanId);
  }

  lemma StepKeepsSettled(db: Db, ev: Event, wallet: Pubkey, agent: Pubkey)
    requires LoansKnown(db) && Ungranted(db, wallet, agent) && Settled(db, wallet, agent)
    ensures Settled(Step(db, ev), wallet, agent)
  {
    hide Step, Ungranted, OrderedOn;
    var db' := Step(db, ev);
    forall k | 0 <= k < |db'.orders| && OrderedOn(db', db'.orders[k], wallet, agent)
      ensures db'.orders[k].status.Cancelled? || db'.orders[k].status.Closed?
    {
      OrdersOnlyMoveOrAreNew(db, ev, k);
      OrderedByAgent(db', db'.orders[k], wallet, agent);
      if k < |db.orders| {
        OrderedOnStays(db, ev, db.orders[k], db'.orders[k], wallet, agent);
        OverStaysOver(db, ev, k);
      } else {
        OrderedOnStays(db, ev, db'.orders[k], db'.orders[k], wallet, agent);
        OneMore(db, ev);
        NewOrdersAreGranted(db, ev, wallet, agent);
        assert false;
      }
    }
  }

  lemma OneMore(db: Db, ev: Event)
    ensures |Step(db, ev).orders| <= |db.orders| + 1
  {
    hide Step;
    if |Step(db, ev).orders| > |db.orders| + 1 {
      OrdersOnlyMoveOrAreNew(db, ev, |db.orders| + 1);
    }
  }

  lemma {:induction false} StaysSettled(db: Db, evs: seq<Event>, wallet: Pubkey, agent: Pubkey)
    requires LoansKnown(db) && Ungranted(db, wallet, agent) && Settled(db, wallet, agent)
    requires WithoutGrant(evs, wallet, agent)
    ensures Settled(RunFrom(db, evs), wallet, agent)
    ensures LoansKnown(RunFrom(db, evs))
  {
    hide Step, Ungranted, Settled, LoansKnown;
    if evs != [] {
      var front := evs[..|evs| - 1];
      StaysSettled(db, front, wallet, agent);
      StaysUngranted(db, front, wallet, agent);
      StepKeepsSettled(RunFrom(db, front), evs[|evs| - 1], wallet, agent);
      StepKeepsLoansKnown(RunFrom(db, front), evs[|evs| - 1]);
    }
  }

  lemma RevokeSettles(db: Db, i: nat, userId: nat, agent: Pubkey)
    requires i < |db.delegations| && Hit(db.delegations[i], userId, agent)
    ensures var after, wallet := AfterRevoke(db, userId, agent), db.delegations[i].wallet;
            && (Settled(after, wallet, agent) <==> !PausedOn(db, wallet, agent))
            && |after.orders| == |db.orders|
            && forall k :: 0 <= k < |db.orders| && Paused(db.orders[k].status) ==>
                 after.orders[k] == db.orders[k]
                 && OrderedOn(after, db.orders[k], wallet, agent) == OrderedOn(db, db.orders[k], wallet, agent)
  {
    hide RevokedRows;
    var after, wallet := AfterRevoke(db, userId, agent), db.delegations[i].wallet;
    assert db.delegations[i] in db.delegations;
    assert forall k :: 0 <= k < |db.orders| ==>
      OrderedOn(after, after.orders[k], wallet, agent) == OrderedOn(db, db.orders[k], wallet, agent);
  }

  // ---- A paused order can return ----

  /** The engine ends the armed orders of a slot among the first `n`. */
  function Ends(orders: seq<Order>, loanId: nat, above: bool, n: nat): seq<Event>
    requires n <= |orders|
  {
    if n == 0 then [] else
      Ends(orders, loanId, above, n - 1)
      + if InSlot(orders[n - 1], loanId, above) then [OrderMoves(n - 1, EngineEnds)] else []
  }

  predicate EndedUpTo(before: seq<Order>, now: seq<Order>, loanId: nat, above: bool, n: nat) {
    && |now| == |before|
    && forall i :: 0 <= i < |before| ==>
         now[i] == if i < n && InSlot(before[i], loanId, above) then before[i].(status := Closed) else before[i]
  }

  lemma {:induction false} EndsEnd(db: Db, loanId: nat, above: bool, n: nat, wallet: Pubkey, agent: Pubkey)
    requires n <= |db.orders|
    ensures var db' := RunFrom(db, Ends(db.orders, loanId, above, n));
            db' == db.(orders := db'.orders) && EndedUpTo(db.orders, db'.orders, loanId, above, n)
    ensures WithoutGrant(Ends(db.orders, loanId, above, n), wallet, agent)
    decreases n
  {
    hide RunFrom, Fits;
    if n == 0 {
      EmptyRun(db);
    } else {
      var front := Ends(db.orders, loanId, above, n - 1);
      EndsEnd(db, loanId, above, n - 1, wallet, agent);
      if InSlot(db.orders[n - 1], loanId, above) {
        RunFromSnoc(db, front, OrderMoves(n - 1, EngineEnds));
      } else {
        assert front + [] == front;
      }
    }
  }

  lemma {:induction false} NoneArmedNoSlices(orders: seq<Order>, loanId: nat, above: bool)
    requires forall i :: 0 <= i < |orders| ==> !InSlot(orders[i], loanId, above)
    ensures ArmedSlices(orders, loanId, above) == 0
  {
    if orders != [] {
      NoneArmedNoSlices(orders[..|orders| - 1], loanId, above);
    }
  }

  /** A paused order can be armed again: end whatever orders share its loan and
      direction, then let the borrower decline or the engine resume. */
  lemma PausedCanReturn(db: Db, k: nat, wallet: Pubkey, agent: Pubkey) returns (evs: seq<Event>)
    requires k < |db.orders| && OrderedOn(db, db.orders[k], wallet, agent) && Paused(db.orders[k].status)
    ensures WithoutGrant(evs, wallet, agent)
    ensures ArmedOn(RunFrom(db, evs), wallet, agent)
  {
    hide RunFrom, Step, Ends;
    var o := db.orders[k];
    var ends := Ends(db.orders, o.loanId, o.above, |db.orders|);
    EndsEnd(db, o.loanId, o.above, |db.orders|, wallet, agent);
    var free := RunFrom(db, ends);
    NoneArmedNoSlices(free.orders, o.loanId, o.above);
    var back := OrderMoves(k, if o.status.AwaitingUser? then UserDeclines else EngineResumes);
    evs := ends + [back];
    Returns(free, k, back, wallet, agent);
    RunFromSnoc(db, ends, back);
  }

  lemma Returns(db: Db, k: nat, back: Event, wallet: Pubkey, agent: Pubkey)
    requires k < |db.orders| && OrderedOn(db, db.orders[k], wallet, agent) && Paused(db.orders[k].status)
    requires Fits(db.orders, db.orders[k].loanId, db.orders[k].above, db.orders[k].slice)
    requires back == OrderMoves(k, if db.orders[k].status.AwaitingUser? then UserDeclines else EngineResumes)
    ensures ArmedOn(Step(db, back), wallet, agent)
  {
    hide Fits;
    assert Step(db, back).orders[k].status == Armed;
  }

  // ---- The main result ----

  /** After a revocation the agent never again has an armed order on the wallet
      without a new grant, if and only if none of its orders there was paused when
      the grant ended: only armed orders are stood down. */
  lemma RevocationLastsIff(db: Db, i: nat, userId: nat, agent: Pubkey)
    requires OneActive(db.delegations) && LoansKnown(db)
    requires i < |db.delegations| && Hit(db.delegations[i], userId, agent)
    ensures var wallet := db.delegations[i].wallet;
            (forall evs :: WithoutGrant(evs, wallet, agent) ==>
               !ArmedOn(RunFrom(AfterRevoke(db, userId, agent), evs), wallet, agent))
            <==> !PausedOn(db, wallet, agent)
  {
    hide WithoutGrant, Ungranted, Settled, PausedOn, ArmedOn, AfterRevoke, LoansKnown;
    var wallet, after := db.delegations[i].wallet, AfterRevoke(db, userId, agent);
    RevokeUngrants(db, i, userId, agent);
    RevokeSettles(db, i, userId, agent);
    RevokeKeepsLoans(db, userId, agent);
    if PausedOn(db, wallet, agent) {
      var k := SomePaused(db, wallet, agent);
      var evs := PausedCanReturn(after, k, wallet, agent);
      assert WithoutGrant(evs, wallet, agent) && ArmedOn(RunFrom(after, evs), wallet, agent);
    } else {
      forall evs | WithoutGrant(evs, wallet, agent) ensures !ArmedOn(RunFrom(after, evs), wallet, agent) {
        StaysSettled(after, evs, wallet, agent);
        SettledNotArmed(RunFrom(after, evs), wallet, agent);
      }
    }
  }

  lemma RevokeKeepsLoans(db: Db, userId: nat, agent: Pubkey)
    requires LoansKnown(db)
    ensures LoansKnown(AfterRevoke(db, userId, agent))
  {
    StepKeepsLoansKnown(db, Revoke(userId, agent));
  }

  lemma SettledNotArmed(db: Db, wallet: Pubkey, agent: Pubkey)
    requires Settled(db, wallet, agent)
    ensures !ArmedOn(db, wallet, agent)
  {
  }

  lemma SomePaused(db: Db, wallet: Pubkey, agent: Pubkey) returns (k: nat)
    requires PausedOn(db, wallet, agent)
    ensures k < |db.orders| && OrderedOn(db, db.orders[k], wallet, agent) && Paused(db.orders[k].status)
  {
    k :| 0 <= k < |db.orders| && OrderedOn(db, db.orders[k], wallet, agent) && Paused(db.orders[k].status);
  }

  /** The engine asks about an order, the user revokes the agent, then declines to
      change the order: the revoked agent's order is armed again. */
  lemma DeclineOutlivesRevocation(w: Pubkey, a: Pubkey)
    ensures var evs := Preparation(w, a) + [ArmFor(w, a, 7)] + [OrderMoves(0, EngineAsks)]
                         + [Revoke(1, a)] + [OrderMoves(0, UserDeclines)];
            ArmedOn(Run(evs), w, a) && Ungranted(Run(evs), w, a)
  {
    hide RunFrom, FindDelegation, ArmedCount, Fits;
    PreparationLeads(w, a);
    var e0 := Preparation(w, a);
    var e1 := e0 + [ArmFor(w, a, 7)];
    var e2 := e1 + [OrderMoves(0, EngineAsks)];
    var e3 := e2 + [Revoke(1, a)];
    RunFromSnoc(EmptyDb, e0, ArmFor(w, a, 7));
    RunFromSnoc(EmptyDb, e1, OrderMoves(0, EngineAsks));
    RunFromSnoc(EmptyDb, e2, Revoke(1, a));
    RunFromSnoc(EmptyDb, e3, OrderMoves(0, UserDeclines));
    CountsOfTheRun(a);
    ArmsInto(w, a, [], 7);
    assert [] + [TheOrder(a, 7, Armed)] == [TheOrder(a, 7, Armed)];
    var asked := [TheOrder(a, 7, AwaitingUser)];
    assert Run(e2) == Prepared(w, a, asked);
    assert Run(e3).orders == asked;
    AskedFits(a);
    var db := Run(e3 + [OrderMoves(0, UserDeclines)]);
    assert db.orders[0] == TheOrder(a, 7, Armed);
    assert OrderedOn(db, db.orders[0], w, a);
  }

  lemma AskedFits(a: Pubkey)
    ensures Fits([TheOrder(a, 7, AwaitingUser)], 7, true, FULL)
  {
  }
}
