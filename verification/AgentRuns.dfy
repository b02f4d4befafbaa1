/** Every run of grants, revocations, agent requests, borrower decisions and
    engine moves over the tables of the agent endpoints. */
module AgentRuns {
  import opened Options
  import opened AgentOrders

  // ---- Revoking ----

  predicate Hit(d: Delegation, userId: nat, agent: Pubkey) {
    d.standing == Active && d.userId == userId && d.agent == agent
  }

  /** `/agent_revoke` ends every active grant of the user to the agent ... */
  function RevokedRows(ds: seq<Delegation>, userId: nat, agent: Pubkey): (rs: seq<Delegation>)
    ensures |rs| == |ds|
    ensures forall i :: 0 <= i < |ds| ==>
              rs[i] == if Hit(ds[i], userId, agent) then ds[i].(standing := Revoked) else ds[i]
  {
    if ds == [] then []
    else [if Hit(ds[0], userId, agent) then ds[0].(standing := Revoked) else ds[0]] + RevokedRows(ds[1..], userId, agent)
  }

  /** ... and cancels the agent's armed orders on the wallets it covered. */
  predicate StandsDown(db: Db, o: Order, userId: nat, agent: Pubkey) {
    && o.status == Armed && o.agent == Some(agent) && o.loanId in db.loans
    && exists d :: d in db.delegations && Hit(d, userId, agent) && d.wallet == db.loans[o.loanId].wallet
  }

  function StoodDown(db: Db, orders: seq<Order>, userId: nat, agent: Pubkey): (os: seq<Order>)
    ensures |os| == |orders|
    ensures forall i :: 0 <= i < |orders| ==>
              os[i] == if StandsDown(db, orders[i], userId, agent) then orders[i].(status := Cancelled) else orders[i]
    decreases |orders|
  {
    if orders == [] then []
    else
      var n := |orders| - 1;
      StoodDown(db, orders[..n], userId, agent)
      + [if StandsDown(db, orders[n], userId, agent) then orders[n].(status := Cancelled) else orders[n]]
  }

  function AfterRevoke(db: Db, userId: nat, agent: Pubkey): Db {
    db.(delegations := RevokedRows(db.delegations, userId, agent), orders := StoodDown(db, db.orders, userId, agent))
  }

  /** What a revocation changes, row by row. */
  lemma RevokeChanges(db: Db, userId: nat, agent: Pubkey, i: nat, k: nat)
    requires i < |db.delegations| && k < |db.orders|
    ensures var db', d, o := AfterRevoke(db, userId, agent), db.delegations[i], db.orders[k];
            && db'.delegations[i] == (if d.standing == Active && d.userId == userId && d.agent == agent
                                      then d.(standing := Revoked) else d)
            && db'.orders[k] == (if o.status == Armed && o.agent == Some(agent) && o.loanId in db.loans
                                    && (exists j :: 0 <= j < |db.delegations| && db.delegations[j].standing == Active
                                                    && db.delegations[j].userId == userId && db.delegations[j].agent == agent
                                                    && db.delegations[j].wallet == db.loans[o.loanId].wallet)
                                 then o.(status := Cancelled) else o)
            && db' == db.(delegations := db'.delegations, orders := db'.orders)
            && |db'.delegations| == |db.delegations| && |db'.orders| == |db.orders|
  {
    var o := db.orders[k];
    if j :| 0 <= j < |db.delegations| && Hit(db.delegations[j], userId, agent) && o.loanId in db.loans
            && db.delegations[j].wallet == db.loans[o.loanId].wallet {
      assert db.delegations[j] in db.delegations;
    }
  }

  // ---- Orders between armed and closed ----

  /** What the engine and the borrower do to an order. */
  datatype Move = EngineTakes | EngineAsks | UserDeclines | UserApproves | UserCancels | EngineResumes | EngineEnds

  /** A declined order and an approved one go back to armed. */
  function Moved(s: OrderStatus, m: Move): OrderStatus {
    match m
    case EngineTakes => if s.Armed? then Firing else s
    case EngineAsks => if s.Armed? || s.Firing? then AwaitingUser else s
    case UserDeclines => if s.AwaitingUser? then Armed else s
    case UserApproves => if s.AwaitingUser? then Approved else s
    case UserCancels => if s.Armed? || s.AwaitingUser? then Cancelled else s
    case EngineResumes => if s.Firing? || s.Approved? then Armed else s
    case EngineEnds => if s.Cancelled? then s else Closed
  }

  /** Which answers and engine moves arm an order again, and which end it. */
  lemma MovedIs(s: OrderStatus, m: Move)
    ensures !s.Armed? ==> (Moved(s, m).Armed? <==>
              (s.AwaitingUser? && m.UserDeclines?) || ((s.Firing? || s.Approved?) && m.EngineResumes?))
    ensures s.Armed? ==> (Moved(s, m).Armed? <==> m.UserDeclines? || m.UserApproves? || m.EngineResumes?)
    ensures !s.AwaitingUser? ==> (Moved(s, m).AwaitingUser? <==> (s.Armed? || s.Firing?) && m.EngineAsks?)
    ensures !s.Approved? ==> (Moved(s, m).Approved? <==> s.AwaitingUser? && m.UserApproves?)
    ensures !s.Cancelled? ==> (Moved(s, m).Cancelled? <==> (s.Armed? || s.AwaitingUser?) && m.UserCancels?)
    ensures s.Cancelled? || s.Closed? ==> Moved(s, m) == s
  {
  }

  /** The trigger refuses a statement whose slice does not fit. */
  function AfterMove(db: Db, k: nat, m: Move): Db {
    if k >= |db.orders| then db
    else
      var o := db.orders[k];
      var o' := o.(status := Moved(o.status, m));
      if o'.status == Armed && o.status != Armed && !Fits(db.orders, o.loanId, o.above, o.slice) then db
      else db.(orders := db.orders[k := o'])
  }

  /** After a partial sale the engine borrows anew and moves the armed orders of the
      ladder to the new loan. Agent orders are in no ladder. */
  function AfterLadder(db: Db, k: nat, loanId: nat): Db {
    if k >= |db.orders| then db
    else
      var o := db.orders[k];
      if o.status == Armed && o.agent.None? && loanId in db.loans && loanId != o.loanId && Fits(db.orders, loanId, o.above, o.slice)
      then db.(orders := db.orders[k := o.(loanId := loanId)]) else db
  }

  // ---- The machine ----

  /** What can happen to the tables, one request at a time. `PlatformArms` is an
      order, or one leg of a ladder, armed by the borrower; a loan's wallet never
      changes. */
  datatype Event =
    | Authorize(grant: Delegation)
    | Revoke(userId: nat, agent: Pubkey)
    | ArmCall(req: ArmRequest, now: int, coreAccepts: bool)
    | CancelCall(orderId: nat, agent: Pubkey, now: int)
    | OrderMoves(orderId: nat, move: Move)
    | PlatformArms(loanId: nat, userId: nat, above: bool, slice: Slice)
    | LadderMoves(orderId: nat, newLoan: nat)
    | LoanChanges(loanId: nat, loan: Loan)
    | WalletLinked(userId: nat, wallet: Pubkey)

  /** The user a grant is stored under: the active row of the pair keeps its own. */
  function Grantor(ds: seq<Delegation>, grant: Delegation): nat {
    var i := FindDelegation(ds, grant.wallet, grant.agent);
    if i < |ds| then ds[i].userId else grant.userId
  }

  /** `/agent_authorize` rewrites the bounds of the pair's active row or adds one. */
  function Authorized(ds: seq<Delegation>, grant: Delegation): seq<Delegation> {
    var i := FindDelegation(ds, grant.wallet, grant.agent);
    var row := grant.(standing := Active, userId := Grantor(ds, grant));
    if i < |ds| then ds[i := row] else ds + [row]
  }

  /** A grant changes the bounds of the row in force, or adds an active row. */
  lemma AuthorizeChanges(ds: seq<Delegation>, grant: Delegation)
    ensures (exists i :: 0 <= i < |ds| && InForce(ds, grant.wallet, grant.agent, i)
                         && Authorized(ds, grant) == ds[i := ds[i].(maxPerOrder := grant.maxPerOrder,
                              maxActive := grant.maxActive, maxSlippageBps := grant.maxSlippageBps,
                              expiresAt := grant.expiresAt)])
            || ((forall i :: 0 <= i < |ds| ==> !InForce(ds, grant.wallet, grant.agent, i))
                && Authorized(ds, grant) == ds + [grant.(standing := Active)])
  {
    hide FindDelegation;
    var i := FindDelegation(ds, grant.wallet, grant.agent);
    if i < |ds| {
      InForceIff(ds, grant.wallet, grant.agent, i);
    } else {
      forall j | 0 <= j < |ds| ensures !InForce(ds, grant.wallet, grant.agent, j) {
        InForceIff(ds, grant.wallet, grant.agent, j);
      }
    }
  }

  function Step(db: Db, ev: Event): Db {
    match ev
    case Authorize(grant) => db.(delegations := Authorized(db.delegations, grant))
    case Revoke(userId, agent) => AfterRevoke(db, userId, agent)
    case ArmCall(req, now, coreAccepts) => AfterArm(db, req, now, coreAccepts)
    case CancelCall(orderId, agent, now) => AfterCancel(db, orderId, agent, now)
    case OrderMoves(k, m) => AfterMove(db, k, m)
    case PlatformArms(loanId, userId, above, slice) =>
      if loanId in db.loans && Fits(db.orders, loanId, above, slice)
      then db.(orders := db.orders + [Order(loanId, userId, None, above, slice, Armed)]) else db
    case LadderMoves(k, loanId) => AfterLadder(db, k, loanId)
    case LoanChanges(loanId, loan) =>
      db.(loans := db.loans[loanId := if loanId in db.loans then loan.(wallet := db.loans[loanId].wallet) else loan])
    case WalletLinked(userId, wallet) => db.(wallets := db.wallets + {(userId, wallet)})
  }

  const EmptyDb := Db([], map[], {}, [])

  function RunFrom(db: Db, evs: seq<Event>): Db {
    if evs == [] then db else Step(RunFrom(db, evs[..|evs| - 1]), evs[|evs| - 1])
  }

  function Run(evs: seq<Event>): Db {
    RunFrom(EmptyDb, evs)
  }

  lemma RunFromSnoc(db: Db, evs: seq<Event>, ev: Event)
    ensures RunFrom(db, evs + [ev]) == Step(RunFrom(db, evs), ev)
  {
    assert (evs + [ev])[..|evs|] == evs;
  }

  // ---- Rows of the delegation table ----

  /** A row of the next state is an old row up to its standing, or the new grant. */
  lemma RowsOnlyAgeOrAreGranted(db: Db, ev: Event, k: nat)
    requires k < |Step(db, ev).delegations|
    ensures var d := Step(db, ev).delegations[k];
            || (k < |db.delegations| && (d == db.delegations[k] || d == db.delegations[k].(standing := Expired)
                                         || d == db.delegations[k].(standing := Revoked)))
            || (ev.Authorize? && d == ev.grant.(standing := Active, userId := Grantor(db.delegations, ev.grant)))
  {
    hide FindDelegation, ArmOutcome, CancelOutcome, StoodDown, Grantor, AfterMove, Fits;
    if ev.OrderMoves? {
      assert AfterMove(db, ev.orderId, ev.move).delegations == db.delegations by {
        MovesOrdersOnly(db, ev.orderId, ev.move);
      }
    }
  }

  lemma MovesOrdersOnly(db: Db, k: nat, m: Move)
    ensures AfterMove(db, k, m) == db.(orders := AfterMove(db, k, m).orders)
    ensures |AfterMove(db, k, m).orders| == |db.orders|
  {
  }

  lemma AuthorizedUnique(ds: seq<Delegation>, grant: Delegation)
    requires OneActive(ds)
    ensures OneActive(Authorized(ds, grant))
  {
    var i := FindDelegation(ds, grant.wallet, grant.agent);
    assert forall j :: 0 <= j < |ds| && j != i && Grants(ds[j], grant.wallet, grant.agent) ==> i < j;
  }

  lemma StepKeepsOneActive(db: Db, ev: Event)
    requires OneActive(db.delegations)
    ensures OneActive(Step(db, ev).delegations)
  {
    if ev.Authorize? {
      AuthorizedUnique(db.delegations, ev.grant);
    } else {
      hide Step;
      var ds := Step(db, ev).delegations;
      forall i, j | 0 <= i < j < |ds| && ds[i].standing == Active && ds[j].standing == Active
        ensures ds[i].wallet != ds[j].wallet || ds[i].agent != ds[j].agent
      {
        RowsOnlyAgeOrAreGranted(db, ev, i);
        RowsOnlyAgeOrAreGranted(db, ev, j);
      }
    }
  }

  // ---- Rows of the order table ----

  /** Orders refer to stored loans (a foreign key). */
  ghost predicate LoansKnown(db: Db) {
    forall k :: 0 <= k < |db.orders| ==> db.orders[k].loanId in db.loans
  }

  /** Agent orders sell everything. */
  ghost predicate AgentsFull(orders: seq<Order>) {
    forall k :: 0 <= k < |orders| ==> (orders[k].agent.Some? ==> orders[k].slice == FULL)
  }

  lemma ArmOnlyAdds(db: Db, req: ArmRequest, now: int, coreAccepts: bool)
    ensures var os := AfterArm(db, req, now, coreAccepts).orders;
            || os == db.orders
            || (req.loanId in db.loans && Fits(db.orders, req.loanId, req.above, FULL)
                && exists u, a :: os == db.orders + [Order(req.loanId, u, a, req.above, FULL, Armed)])
  {
    hide FindDelegation, Fits, ArmedCount;
    if ArmOutcome(db, req, now, coreAccepts).ArmedOrder? {
      ArmWithinConsent(db, req, now, coreAccepts);
    }
  }

  /** An order of the next state is an old one up to its status or, for a ladder leg,
      its loan; or it is new, armed and of a stored loan. It comes to be armed in a
      slot only if its slice fits there. */
  lemma OrdersOnlyMoveOrAreNew(db: Db, ev: Event, k: nat)
    requires k < |Step(db, ev).orders|
    ensures var o := Step(db, ev).orders[k];
            && (k < |db.orders| ==>
                  || o == db.orders[k].(status := o.status)
                  || (o.agent.None? && o.loanId in db.loans && o == db.orders[k].(loanId := o.loanId)))
            && (k >= |db.orders| ==>
                  k == |db.orders| && o.status == Armed && o.loanId in db.loans && (o.agent.Some? ==> o.slice == FULL))
            && (NewlyArmed(db, Step(db, ev).orders, k) ==> Fits(db.orders, o.loanId, o.above, o.slice))
  {
    hide FindDelegation, Fits, ArmedCount, RevokedRows, Authorized, StandsDown, AfterArm;
    if ev.ArmCall? {
      ArmOnlyAdds(db, ev.req, ev.now, ev.coreAccepts);
    }
  }

  /** The row is armed in a slot it was not armed in before. */
  predicate NewlyArmed(db: Db, os: seq<Order>, k: nat)
    requires k < |os|
  {
    && os[k].status == Armed
    && !(k < |db.orders| && InSlot(db.orders[k], os[k].loanId, os[k].above))
  }

  lemma ArmingTouchesOne(db: Db, ev: Event, k: nat, j: nat)
    requires k < |Step(db, ev).orders| && NewlyArmed(db, Step(db, ev).orders, k)
    requires j < |Step(db, ev).orders| && j != k
    ensures j < |db.orders| && Step(db, ev).orders[j] == db.orders[j]
  {
    hide FindDelegation, Fits, ArmedCount, RevokedRows, Authorized, StandsDown, AfterArm;
    if ev.ArmCall? {
      ArmOnlyAdds(db, ev.req, ev.now, ev.coreAccepts);
    }
  }

  lemma LoansStay(db: Db, ev: Event, loanId: nat)
    requires loanId in db.loans
    ensures loanId in Step(db, ev).loans && Step(db, ev).loans[loanId].wallet == db.loans[loanId].wallet
  {
    hide FindDelegation, ArmOutcome, CancelOutcome, StoodDown, Moved, Fits;
  }

  lemma StepKeepsRows(db: Db, ev: Event)
    requires LoansKnown(db) && AgentsFull(db.orders)
    ensures LoansKnown(Step(db, ev)) && AgentsFull(Step(db, ev).orders)
  {
    hide Step;
    var os := Step(db, ev).orders;
    forall k | 0 <= k < |os|
      ensures os[k].loanId in Step(db, ev).loans && (os[k].agent.Some? ==> os[k].slice == FULL)
    {
      OrdersOnlyMoveOrAreNew(db, ev, k);
      LoansStay(db, ev, os[k].loanId);
    }
  }

  lemma StepKeepsLoansKnown(db: Db, ev: Event)
    requires LoansKnown(db)
    ensures LoansKnown(Step(db, ev))
  {
    hide Step;
    forall k | 0 <= k < |Step(db, ev).orders| ensures Step(db, ev).orders[k].loanId in Step(db, ev).loans {
      OrdersOnlyMoveOrAreNew(db, ev, k);
      LoansStay(db, ev, Step(db, ev).orders[k].loanId);
    }
  }

  // ---- The armed slices of a loan and direction ----

  lemma SlicesSnoc(orders: seq<Order>, o: Order, loanId: nat, above: bool)
    ensures ArmedSlices(orders + [o], loanId, above)
         == ArmedSlices(orders, loanId, above) + if InSlot(o, loanId, above) then o.slice else 0
  {
    assert (orders + [o])[..|orders|] == orders;
  }

  lemma {:induction false} SlicesUpdate(orders: seq<Order>, k: nat, o: Order, loanId: nat, above: bool)
    requires k < |orders|
    ensures ArmedSlices(orders[k := o], loanId, above) + (if InSlot(orders[k], loanId, above) then orders[k].slice else 0)
         == ArmedSlices(orders, loanId, above) + if InSlot(o, loanId, above) then o.slice else 0
    decreases |orders|
  {
    var front := orders[..|orders| - 1];
    if k == |orders| - 1 {
      assert orders[k := o][..|orders| - 1] == front;
    } else {
      assert orders[k := o][..|orders| - 1] == front[k := o];
      SlicesUpdate(front, k, o, loanId, above);
    }
  }

  lemma {:induction false} StoodDownSlices(db: Db, orders: seq<Order>, userId: nat, agent: Pubkey, loanId: nat, above: bool)
    ensures ArmedSlices(StoodDown(db, orders, userId, agent), loanId, above) <= ArmedSlices(orders, loanId, above)
    decreases |orders|
  {
    hide StandsDown;
    if orders != [] {
      var n := |orders| - 1;
      StoodDownSlices(db, orders[..n], userId, agent, loanId, above);
      assert StoodDown(db, orders, userId, agent)[..n] == StoodDown(db, orders[..n], userId, agent);
    }
  }

  ghost predicate SlotsWithin(orders: seq<Order>) {
    forall loanId, above :: ArmedSlices(orders, loanId, above) <= FULL
  }

  lemma StepKeepsSlot(db: Db, ev: Event, loanId: nat, above: bool)
    requires ArmedSlices(db.orders, loanId, above) <= FULL
    ensures ArmedSlices(Step(db, ev).orders, loanId, above) <= FULL
  {
    hide ArmedSlices, StoodDown, Moved, AfterArm, FindDelegation;
    match ev
    case ArmCall(req, now, coreAccepts) =>
      ArmOnlyAdds(db, req, now, coreAccepts);
      var os := AfterArm(db, req, now, coreAccepts).orders;
      if os != db.orders {
        var u, a :| os == db.orders + [Order(req.loanId, u, a, req.above, FULL, Armed)];
        SlicesSnoc(db.orders, Order(req.loanId, u, a, req.above, FULL, Armed), loanId, above);
      }
    case CancelCall(k, a, now) =>
      if CancelOutcome(db, k, a, now).None? {
        SlicesUpdate(db.orders, k, db.orders[k].(status := Cancelled), loanId, above);
      }
    case OrderMoves(k, m) =>
      if k < |db.orders| {
        SlicesUpdate(db.orders, k, db.orders[k].(status := Moved(db.orders[k].status, m)), loanId, above);
      }
    case Revoke(u, a) => StoodDownSlices(db, db.orders, u, a, loanId, above);
    case PlatformArms(l, u, up, slice) =>
      SlicesSnoc(db.orders, Order(l, u, None, up, slice, Armed), loanId, above);
    case LadderMoves(k, l) =>
      if k < |db.orders| {
        SlicesUpdate(db.orders, k, db.orders[k].(loanId := l), loanId, above);
      }
    case _ =>
  }

  ghost predicate Tidy(db: Db) {
    OneActive(db.delegations) && LoansKnown(db) && AgentsFull(db.orders) && SlotsWithin(db.orders)
  }

  /** In every state: one active delegation per wallet and agent, no order without
      its loan, only full agent orders, and for each loan and direction at most the
      whole collateral in armed slices. */
  lemma {:induction false} RunsAreTidy(db: Db, evs: seq<Event>)
    requires Tidy(db)
    ensures Tidy(RunFrom(db, evs))
  {
    hide OneActive, LoansKnown, AgentsFull, Step, ArmedSlices;
    if evs != [] {
      var before, ev := RunFrom(db, evs[..|evs| - 1]), evs[|evs| - 1];
      RunsAreTidy(db, evs[..|evs| - 1]);
      StepKeepsOneActive(before, ev);
      StepKeepsRows(before, ev);
      forall loanId, above ensures ArmedSlices(Step(before, ev).orders, loanId, above) <= FULL {
        StepKeepsSlot(before, ev, loanId, above);
      }
    }
  }

  lemma {:induction false} OneSlice(orders: seq<Order>, i: nat, loanId: nat, above: bool)
    requires i < |orders| && InSlot(orders[i], loanId, above)
    ensures orders[i].slice <= ArmedSlices(orders, loanId, above)
    decreases |orders|
  {
    if i < |orders| - 1 {
      OneSlice(orders[..|orders| - 1], i, loanId, above);
    }
  }

  lemma {:induction false} TwoSlices(orders: seq<Order>, i: nat, j: nat, loanId: nat, above: bool)
    requires i < j < |orders| && InSlot(orders[i], loanId, above) && InSlot(orders[j], loanId, above)
    ensures orders[i].slice + orders[j].slice <= ArmedSlices(orders, loanId, above)
    decreases |orders|
  {
    var front := orders[..|orders| - 1];
    if j < |orders| - 1 {
      TwoSlices(front, i, j, loanId, above);
    } else {
      OneSlice(front, i, loanId, above);
    }
  }

  /** In every run an armed order that sells everything, as every agent order does, is
      the only armed one of its loan and direction. */
  lemma FullOrderIsAlone(evs: seq<Event>, i: nat, j: nat)
    requires var os := Run(evs).orders;
             && i < |os| && os[i].status == Armed && (os[i].slice == FULL || os[i].agent.Some?)
             && j < |os| && j != i
    ensures !InSlot(Run(evs).orders[j], Run(evs).orders[i].loanId, Run(evs).orders[i].above)
  {
    hide Run, ArmedSlices;
    var os := Run(evs).orders;
    RunIsTidy(evs);
    var o := os[i];
    assert ArmedSlices(os, o.loanId, o.above) <= FULL;
    if InSlot(os[j], o.loanId, o.above) {
      if i < j {
        TwoSlices(os, i, j, o.loanId, o.above);
      } else {
        TwoSlices(os, j, i, o.loanId, o.above);
      }
    }
  }

  lemma RunIsTidy(evs: seq<Event>)
    ensures Tidy(Run(evs))
  {
    hide ArmedSlices;
    assert forall loanId, above :: ArmedSlices([], loanId, above) == 0 by {
      NoSlices();
    }
    RunsAreTidy(EmptyDb, evs);
  }

  lemma NoSlices()
    ensures forall loanId, above :: ArmedSlices([], loanId, above) == 0
  {
  }

  // ---- When a loan and direction has one armed order ----

  ghost predicate OnePerSlot(orders: seq<Order>) {
    forall i, j :: 0 <= i < j < |orders| && orders[i].status == Armed && orders[j].status == Armed ==>
      orders[i].loanId != orders[j].loanId || orders[i].above != orders[j].above
  }

  /** The event arms an order in a slot that has an armed one. */
  ghost predicate ArmsBeside(db: Db, ev: Event) {
    var os := Step(db, ev).orders;
    exists k, j :: 0 <= k < |os| && NewlyArmed(db, os, k)
                   && 0 <= j < |db.orders| && j != k && InSlot(db.orders[j], os[k].loanId, os[k].above)
  }

  lemma OnePerSlotStep(db: Db, ev: Event)
    requires OnePerSlot(db.orders)
    ensures OnePerSlot(Step(db, ev).orders) <==> !ArmsBeside(db, ev)
  {
    hide Step;
    var os := Step(db, ev).orders;
    if ArmsBeside(db, ev) {
      var k, j :| 0 <= k < |os| && NewlyArmed(db, os, k)
                  && 0 <= j < |db.orders| && j != k && InSlot(db.orders[j], os[k].loanId, os[k].above);
      OrdersStay(db, ev);
      ArmingTouchesOne(db, ev, k, j);
      assert os[j].status == os[k].status == Armed && os[j].loanId == os[k].loanId && os[j].above == os[k].above;
    } else {
      forall i, j | 0 <= i < j < |os| && os[i].status == Armed && os[j].status == Armed
        ensures os[i].loanId != os[j].loanId || os[i].above != os[j].above
      {
        if NewlyArmed(db, os, i) {
          ArmingTouchesOne(db, ev, i, j);
        } else if NewlyArmed(db, os, j) {
          ArmingTouchesOne(db, ev, j, i);
        }
      }
    }
  }

  /** No order row is ever removed. */
  lemma OrdersStay(db: Db, ev: Event)
    ensures |db.orders| <= |Step(db, ev).orders|
  {
    hide FindDelegation, Fits, ArmedCount, RevokedRows, Authorized, StandsDown, AfterArm;
    if ev.ArmCall? {
      ArmOnlyAdds(db, ev.req, ev.now, ev.coreAccepts);
    }
  }

  ghost predicate OnePerSlotThroughout(evs: seq<Event>) {
    OnePerSlot(Run(evs).orders) && (evs != [] ==> OnePerSlotThroughout(evs[..|evs| - 1]))
  }

  ghost predicate NeverArmsBeside(evs: seq<Event>) {
    evs != [] ==> NeverArmsBeside(evs[..|evs| - 1]) && !ArmsBeside(Run(evs[..|evs| - 1]), evs[|evs| - 1])
  }

  /** A run has at most one armed order per loan and direction throughout if and only
      if each order was armed in an empty slot. */
  lemma {:induction false} OnePerSlotIff(evs: seq<Event>)
    ensures OnePerSlotThroughout(evs) <==> NeverArmsBeside(evs)
    decreases |evs|
  {
    hide Step, OnePerSlot, ArmsBeside;
    if evs == [] {
      assert OnePerSlot(Run([]).orders) by { NoOrders(); }
    } else {
      var front, ev := evs[..|evs| - 1], evs[|evs| - 1];
      assert evs == front + [ev];
      OnePerSlotIff(front);
      RunFromSnoc(EmptyDb, front, ev);
      if OnePerSlotThroughout(front) {
        OnePerSlotStep(Run(front), ev);
      }
    }
  }

  lemma NoOrders()
    ensures OnePerSlot(Run([]).orders)
  {
  }

  /** Two legs of one half each are armed side by side on a loan. */
  lemma TwoLegsShareASlot(loan: Loan, userId: nat)
    ensures var leg := PlatformArms(7, userId, true, 5_000);
            var os := Run([] + [LoanChanges(7, loan)] + [leg] + [leg]).orders;
            |os| == 2 && InSlot(os[0], 7, true) && InSlot(os[1], 7, true) && !OnePerSlot(os)
  {
    hide RunFrom;
    var leg := PlatformArms(7, userId, true, 5_000);
    var e1 := [] + [LoanChanges(7, loan)];
    var row := Order(7, userId, None, true, 5_000, Armed);
    EmptyRun(EmptyDb);
    RunFromSnoc(EmptyDb, [], LoanChanges(7, loan));
    RunFromSnoc(EmptyDb, e1, leg);
    RunFromSnoc(EmptyDb, e1 + [leg], leg);
    SlicesSnoc([], row, 7, true);
    assert [] + [row] == [row];
    assert Run(e1 + [leg]).orders == [row];
    assert Run(e1 + [leg] + [leg]).orders == [row, row];
  }

  // ---- The armed count of an agent for a user ----

  lemma {:induction false} StoodDownCounts(db: Db, orders: seq<Order>, userId: nat, agent: Pubkey, u: nat, a: Pubkey)
    ensures ArmedCount(StoodDown(db, orders, userId, agent), u, a) <= ArmedCount(orders, u, a)
    decreases |orders|
  {
    hide StandsDown;
    if orders != [] {
      var n := |orders| - 1;
      StoodDownCounts(db, orders[..n], userId, agent, u, a);
      assert StoodDown(db, orders, userId, agent)[..n] == StoodDown(db, orders[..n], userId, agent);
    }
  }

  /** The event puts an order of this user and agent back to armed. */
  predicate Rearms(db: Db, ev: Event, userId: nat, agent: Pubkey) {
    && ev.OrderMoves? && ev.orderId < |db.orders|
    && !Counts(db.orders[ev.orderId], userId, agent)
    && Counts(AfterMove(db, ev.orderId, ev.move).orders[ev.orderId], userId, agent)
  }

  lemma MoveCounts(db: Db, k: nat, m: Move, userId: nat, agent: Pubkey)
    ensures var n, n' := ArmedCount(db.orders, userId, agent), ArmedCount(AfterMove(db, k, m).orders, userId, agent);
            if Rearms(db, OrderMoves(k, m), userId, agent) then n' == n + 1 else n' <= n
  {
    hide ArmedCount, Fits, Moved;
    if k < |db.orders| {
      ArmedCountUpdate(db.orders, k, db.orders[k].(status := Moved(db.orders[k].status, m)), userId, agent);
    }
  }

  /** Only an arm request and a re-arming raise the count. */
  lemma OrdersKept(db: Db, ev: Event, userId: nat, agent: Pubkey)
    requires !ev.ArmCall?
    ensures var n, n' := ArmedCount(db.orders, userId, agent), ArmedCount(Step(db, ev).orders, userId, agent);
            if Rearms(db, ev, userId, agent) then n' == n + 1 else n' <= n
  {
    hide ArmedCount, StoodDown, AfterMove, Fits;
    match ev
    case CancelCall(k, a, now) =>
      if CancelOutcome(db, k, a, now).None? {
        ArmedCountUpdate(db.orders, k, db.orders[k].(status := Cancelled), userId, agent);
      }
    case OrderMoves(k, m) => MoveCounts(db, k, m, userId, agent);
    case Revoke(u, a) => StoodDownCounts(db, db.orders, u, a, userId, agent);
    case PlatformArms(loanId, u, above, slice) =>
      ArmedCountSnoc(db.orders, Order(loanId, u, None, above, slice, Armed), userId, agent);
    case LadderMoves(k, l) =>
      if k < |db.orders| {
        ArmedCountUpdate(db.orders, k, db.orders[k].(loanId := l), userId, agent);
      }
    case _ =>
  }

  lemma ArmKeepsCounts(db: Db, req: ArmRequest, now: int, coreAccepts: bool, userId: nat, agent: Pubkey)
    ensures var db' := AfterArm(db, req, now, coreAccepts);
            || ArmedCount(db'.orders, userId, agent) == ArmedCount(db.orders, userId, agent)
            || exists i :: 0 <= i < |db.delegations|
                           && db.delegations[i].userId == userId && db.delegations[i].agent == agent
                           && ArmedCount(db'.orders, userId, agent) <= db.delegations[i].maxActive
  {
    hide FindDelegation, ArmOutcome, ArmedCount;
    if ArmOutcome(db, req, now, coreAccepts).ArmedOrder? {
      ArmWithinConsent(db, req, now, coreAccepts);
      var i := FindDelegation(db.delegations, req.wallet, req.agent);
      var d := db.delegations[i];
      assert Grants(d, req.wallet, req.agent);
      ArmedCountSnoc(db.orders, Order(req.loanId, d.userId, Some(req.agent), req.above, FULL, Armed), userId, agent);
    }
  }

  // ---- What was granted ----

  /** The order limit that this event grants the agent under this user, or 0. */
  function Granted(db: Db, ev: Event, userId: nat, agent: Pubkey): int {
    if ev.Authorize? && Grantor(db.delegations, ev.grant) == userId && ev.grant.agent == agent then ev.grant.maxActive else 0
  }

  /** The largest order limit ever granted to this agent under this user. */
  function Ceiling(evs: seq<Event>, userId: nat, agent: Pubkey): int {
    if evs == [] then 0 else
      var front, ev := evs[..|evs| - 1], evs[|evs| - 1];
      var c, g := Ceiling(front, userId, agent), Granted(Run(front), ev, userId, agent);
      if c < g then g else c
  }

  /** How often an order of this user and agent was put back to armed. */
  function RearmCount(evs: seq<Event>, userId: nat, agent: Pubkey): nat {
    if evs == [] then 0 else
      var front := evs[..|evs| - 1];
      RearmCount(front, userId, agent) + if Rearms(Run(front), evs[|evs| - 1], userId, agent) then 1 else 0
  }

  predicate WithinCeiling(evs: seq<Event>, d: Delegation) {
    d.maxActive <= Ceiling(evs, d.userId, d.agent)
  }

  lemma CeilingSnoc(evs: seq<Event>, ev: Event, userId: nat, agent: Pubkey)
    ensures var c, g := Ceiling(evs, userId, agent), Granted(Run(evs), ev, userId, agent);
            Ceiling(evs + [ev], userId, agent) == if c < g then g else c
    ensures Ceiling(evs, userId, agent) >= 0
  {
    hide Run, Granted;
    assert (evs + [ev])[..|evs|] == evs;
    CeilingNonNegative(evs, userId, agent);
  }

  lemma {:induction false} CeilingNonNegative(evs: seq<Event>, userId: nat, agent: Pubkey)
    ensures Ceiling(evs, userId, agent) >= 0
  {
    hide Run, Granted;
    if evs != [] {
      CeilingNonNegative(evs[..|evs| - 1], userId, agent);
    }
  }

  lemma LimitsKept(evs: seq<Event>, ev: Event, k: nat)
    requires k < |Step(Run(evs), ev).delegations|
    requires k < |Run(evs).delegations| ==> WithinCeiling(evs, Run(evs).delegations[k])
    ensures WithinCeiling(evs + [ev], Step(Run(evs), ev).delegations[k])
  {
    hide Step, Run, Ceiling, Grantor;
    var d := Step(Run(evs), ev).delegations[k];
    RowsOnlyAgeOrAreGranted(Run(evs), ev, k);
    CeilingSnoc(evs, ev, d.userId, d.agent);
  }

  /** Every stored limit is among those granted. */
  lemma {:induction false} LimitsWithinCeiling(evs: seq<Event>, k: nat)
    requires k < |Run(evs).delegations|
    ensures WithinCeiling(evs, Run(evs).delegations[k])
    decreases |evs|
  {
    hide Step, WithinCeiling;
    if evs != [] {
      var front, ev := evs[..|evs| - 1], evs[|evs| - 1];
      assert evs == front + [ev];
      RunFromSnoc(EmptyDb, front, ev);
      if k < |Run(front).delegations| {
        LimitsWithinCeiling(front, k);
      }
      LimitsKept(front, ev, k);
    }
  }

  /** One more event: a re-arming adds one armed order and grants nothing; any other
      event that raises the count leaves it within what was granted. */
  lemma CountAfterEvent(evs: seq<Event>, ev: Event, userId: nat, agent: Pubkey)
    ensures var n, n' := ArmedCount(Run(evs).orders, userId, agent), ArmedCount(Run(evs + [ev]).orders, userId, agent);
            var c, c' := Ceiling(evs, userId, agent), Ceiling(evs + [ev], userId, agent);
            && c <= c'
            && if Rearms(Run(evs), ev, userId, agent) then n' == n + 1 && c' == c else n' <= n || n' <= c'
  {
    hide Ceiling, AfterArm, AfterCancel, AfterRevoke, AfterMove, ArmedCount, Authorized, Fits;
    var db := Run(evs);
    RunFromSnoc(EmptyDb, evs, ev);
    CeilingSnoc(evs, ev, userId, agent);
    if ev.ArmCall? {
      ArmKeepsCounts(db, ev.req, ev.now, ev.coreAccepts, userId, agent);
      forall i | 0 <= i < |db.delegations| ensures WithinCeiling(evs, db.delegations[i]) {
        LimitsWithinCeiling(evs, i);
      }
    } else {
      OrdersKept(db, ev, userId, agent);
    }
  }

  // ---- The cap over whole runs ----

  /** In every state of every run, an agent's armed orders for a user number at most
      the largest limit ever granted to it under that user, plus one for each time
      an order was put back to armed. */
  lemma {:induction false} ArmedWithinGrants(evs: seq<Event>, userId: nat, agent: Pubkey)
    ensures ArmedCount(Run(evs).orders, userId, agent) <= Ceiling(evs, userId, agent) + RearmCount(evs, userId, agent)
    decreases |evs|
  {
    hide Run, ArmedCount, Ceiling, Rearms;
    if evs == [] {
      NothingArmed(userId, agent);
    } else {
      var front, ev := evs[..|evs| - 1], evs[|evs| - 1];
      assert evs == front + [ev];
      ArmedWithinGrants(front, userId, agent);
      CountAfterEvent(front, ev, userId, agent);
    }
  }

  lemma NothingArmed(userId: nat, agent: Pubkey)
    ensures ArmedCount(Run([]).orders, userId, agent) == 0 && Ceiling([], userId, agent) == 0
  {
  }

  /** At no moment of the run does the armed count exceed what was granted so far. */
  predicate CapKept(evs: seq<Event>, userId: nat, agent: Pubkey) {
    && ArmedCount(Run(evs).orders, userId, agent) <= Ceiling(evs, userId, agent)
    && (evs != [] ==> CapKept(evs[..|evs| - 1], userId, agent))
  }

  /** Every time an order was put back to armed, the count was below what was granted. */
  predicate RearmsHadRoom(evs: seq<Event>, userId: nat, agent: Pubkey) {
    evs != [] ==>
      var front := evs[..|evs| - 1];
      && RearmsHadRoom(front, userId, agent)
      && (Rearms(Run(front), evs[|evs| - 1], userId, agent) ==>
            ArmedCount(Run(front).orders, userId, agent) < Ceiling(front, userId, agent))
  }

  /** Re-arming does not look at the limit. A run keeps the cap at every moment if and
      only if each of its re-armings happened below it. */
  lemma {:induction false} CapKeptIff(evs: seq<Event>, userId: nat, agent: Pubkey)
    ensures CapKept(evs, userId, agent) <==> RearmsHadRoom(evs, userId, agent)
    decreases |evs|
  {
    hide Run, ArmedCount, Ceiling, Rearms;
    if evs == [] {
      NothingArmed(userId, agent);
    } else {
      var front, ev := evs[..|evs| - 1], evs[|evs| - 1];
      assert evs == front + [ev];
      CapKeptIff(front, userId, agent);
      CountAfterEvent(front, ev, userId, agent);
    }
  }

  // ---- A run that exceeds the cap ----

  function Consent(w: Pubkey, a: Pubkey): Delegation {
    Delegation(1, w, a, 5_000_000_000, 1, 500, Active, None)
  }

  function OpenLoan(w: Pubkey): Loan {
    Loan(1, w, 2_000_000_000, true, true)
  }

  function Preparation(w: Pubkey, a: Pubkey): seq<Event> {
    [WalletLinked(1, w), LoanChanges(7, OpenLoan(w)), LoanChanges(8, OpenLoan(w)), Authorize(Consent(w, a))]
  }

  function ArmFor(w: Pubkey, a: Pubkey, loanId: nat): Event {
    ArmCall(ArmRequest(w, a, loanId, true, 200, false, true), 0, true)
  }

  function Prepared(w: Pubkey, a: Pubkey, orders: seq<Order>): Db {
    Db([Consent(w, a)], map[7 := OpenLoan(w), 8 := OpenLoan(w)], {(1, w)}, orders)
  }

  function TheOrder(a: Pubkey, loanId: nat, status: OrderStatus): Order {
    Order(loanId, 1, Some(a), true, FULL, status)
  }

  lemma PreparationLeads(w: Pubkey, a: Pubkey)
    ensures Run(Preparation(w, a)) == Prepared(w, a, [])
  {
    var p := Preparation(w, a);
    assert p[..3] == [p[0], p[1], p[2]] && p[..2] == [p[0], p[1]] && p[..1] == [p[0]];
    assert p == p[..3] + [p[3]] && p[..3] == p[..2] + [p[2]] && p[..2] == p[..1] + [p[1]] && p[..1] == [] + [p[0]];
    hide RunFrom;
    assert RunFrom(EmptyDb, []) == EmptyDb by { EmptyRun(EmptyDb); }
    RunFromSnoc(EmptyDb, [], p[0]);
    RunFromSnoc(EmptyDb, p[..1], p[1]);
    RunFromSnoc(EmptyDb, p[..2], p[2]);
    RunFromSnoc(EmptyDb, p[..3], p[3]);
  }

  lemma EmptyRun(db: Db)
    ensures RunFrom(db, []) == db
  {
  }

  lemma ArmsInto(w: Pubkey, a: Pubkey, orders: seq<Order>, loanId: nat)
    requires loanId == 7 || loanId == 8
    requires ArmedCount(orders, 1, a) == 0 && Fits(orders, loanId, true, FULL)
    ensures Step(Prepared(w, a, orders), ArmFor(w, a, loanId)) == Prepared(w, a, orders + [TheOrder(a, loanId, Armed)])
  {
  }

  lemma CountOfOne(o: Order, userId: nat, agent: Pubkey)
    ensures ArmedCount([o], userId, agent) == if Counts(o, userId, agent) then 1 else 0
  {
    assert [o][..0] == [];
  }

  /** Limit one: the engine asks about the first order, a second one is armed in its
      place, the borrower declines, and two orders are armed. */
  lemma DeclineExceedsCap(w: Pubkey, a: Pubkey)
    ensures var evs := Preparation(w, a) + [ArmFor(w, a, 7)] + [OrderMoves(0, EngineAsks)]
                         + [ArmFor(w, a, 8)] + [OrderMoves(0, UserDeclines)];
            && ArmedCount(Run(evs).orders, 1, a) == 2
            && Ceiling(evs, 1, a) == 1 && RearmCount(evs, 1, a) == 1
  {
    hide Ceiling, RearmCount, RunFrom, FindDelegation, ArmedCount, Fits;
    PreparationLeads(w, a);
    var e0 := Preparation(w, a);
    var e1 := e0 + [ArmFor(w, a, 7)];
    var e2 := e1 + [OrderMoves(0, EngineAsks)];
    var e3 := e2 + [ArmFor(w, a, 8)];
    var e4 := e3 + [OrderMoves(0, UserDeclines)];
    RunFromSnoc(EmptyDb, e0, ArmFor(w, a, 7));
    RunFromSnoc(EmptyDb, e1, OrderMoves(0, EngineAsks));
    RunFromSnoc(EmptyDb, e2, ArmFor(w, a, 8));
    RunFromSnoc(EmptyDb, e3, OrderMoves(0, UserDeclines));
    CountsOfTheRun(a);
    ArmsInto(w, a, [], 7);
    assert [] + [TheOrder(a, 7, Armed)] == [TheOrder(a, 7, Armed)];
    assert Run(e2).orders == [TheOrder(a, 7, AwaitingUser)];
    ArmsInto(w, a, [TheOrder(a, 7, AwaitingUser)], 8);
    assert Run(e3).orders == [TheOrder(a, 7, AwaitingUser), TheOrder(a, 8, Armed)];
    assert Run(e4).orders == [TheOrder(a, 7, Armed), TheOrder(a, 8, Armed)];
    CeilingPrepared(w, a);
    CeilingSnoc(e0, ArmFor(w, a, 7), 1, a);
    CeilingSnoc(e1, OrderMoves(0, EngineAsks), 1, a);
    CeilingSnoc(e2, ArmFor(w, a, 8), 1, a);
    CeilingSnoc(e3, OrderMoves(0, UserDeclines), 1, a);
    RearmCountSnoc(e0, ArmFor(w, a, 7), 1, a);
    RearmCountSnoc(e1, OrderMoves(0, EngineAsks), 1, a);
    RearmCountSnoc(e2, ArmFor(w, a, 8), 1, a);
    RearmCountSnoc(e3, OrderMoves(0, UserDeclines), 1, a);
  }

  lemma RearmCountSnoc(evs: seq<Event>, ev: Event, userId: nat, agent: Pubkey)
    ensures RearmCount(evs + [ev], userId, agent)
         == RearmCount(evs, userId, agent) + if Rearms(Run(evs), ev, userId, agent) then 1 else 0
  {
    assert (evs + [ev])[..|evs|] == evs;
  }

  lemma CeilingPrepared(w: Pubkey, a: Pubkey)
    ensures Ceiling(Preparation(w, a), 1, a) == 1 && RearmCount(Preparation(w, a), 1, a) == 0
  {
    var p := Preparation(w, a);
    assert p == [] + [p[0]] + [p[1]] + [p[2]] + [p[3]];
    var p1, p2, p3 := [] + [p[0]], [] + [p[0]] + [p[1]], [] + [p[0]] + [p[1]] + [p[2]];
    hide Ceiling, RearmCount, RunFrom;
    assert Ceiling([], 1, a) == 0 && RearmCount([], 1, a) == 0 && RunFrom(EmptyDb, []) == EmptyDb by {
      NothingYet(a);
    }
    CeilingSnoc([], p[0], 1, a);
    CeilingSnoc(p1, p[1], 1, a);
    CeilingSnoc(p2, p[2], 1, a);
    CeilingSnoc(p3, p[3], 1, a);
    RearmCountSnoc([], p[0], 1, a);
    RearmCountSnoc(p1, p[1], 1, a);
    RearmCountSnoc(p2, p[2], 1, a);
    RearmCountSnoc(p3, p[3], 1, a);
    RunFromSnoc(EmptyDb, [], p[0]);
    RunFromSnoc(EmptyDb, p1, p[1]);
    RunFromSnoc(EmptyDb, p2, p[2]);
  }

  lemma NothingYet(a: Pubkey)
    ensures Ceiling([], 1, a) == 0 && RearmCount([], 1, a) == 0 && RunFrom(EmptyDb, []) == EmptyDb
  {
  }

  lemma CountsOfTheRun(a: Pubkey)
    ensures ArmedCount([], 1, a) == 0 && Fits([], 7, true, FULL)
    ensures ArmedCount([TheOrder(a, 7, AwaitingUser)], 1, a) == 0 && Fits([TheOrder(a, 7, AwaitingUser)], 8, true, FULL)
    ensures Fits([TheOrder(a, 7, AwaitingUser), TheOrder(a, 8, Armed)], 7, true, FULL)
    ensures ArmedCount([TheOrder(a, 7, Armed), TheOrder(a, 8, Armed)], 1, a) == 2
  {
    CountOfOne(TheOrder(a, 7, AwaitingUser), 1, a);
    CountOfOne(TheOrder(a, 7, Armed), 1, a);
    ArmedCountSnoc([TheOrder(a, 7, Armed)], TheOrder(a, 8, Armed), 1, a);
    assert [TheOrder(a, 7, Armed)] + [TheOrder(a, 8, Armed)] == [TheOrder(a, 7, Armed), TheOrder(a, 8, Armed)];
  }
}
