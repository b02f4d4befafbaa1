/** Agent delegations and the order ledger behind the internal limit-close
    endpoints (internal-agent-limitclose.js). Table rows are addressed by their
    position; rows are updated, never removed. */
module AgentOrders {
  import opened Options

  const MIN_LOAN_LAMPORTS := 1_000_000_000
  const MIN_SLIPPAGE_BPS := 10
  const MAX_PROTOCOL_SLIPPAGE_BPS := 2500

  datatype Pubkey = Pubkey(base58: string)

  datatype Standing = Active | Revoked | Expired

  /** A row of agent_delegations with action 'limit_close'. */
  datatype Delegation = Delegation(
    userId: nat, wallet: Pubkey, agent: Pubkey,
    maxPerOrder: nat, maxActive: int, maxSlippageBps: int, standing: Standing, expiresAt: Option<int>)

  /** A loan with the `enabled` flag of its collateral mint. */
  datatype Loan = Loan(userId: nat, wallet: Pubkey, owed: nat, active: bool, mintEnabled: bool)

  /** `Firing` covers 'firing' and 'twap_in_progress'; `Approved` is 'awaiting_user'
      after the borrower's consent; `Closed` is every end but a cancellation. */
  datatype OrderStatus = Armed | Firing | AwaitingUser | Approved | Cancelled | Closed

  const FULL := 10_000

  /** The part of the collateral an order sells, in basis points. */
  type Slice = n: nat | 1 <= n <= FULL witness FULL

  /** A row of limit_close_orders; `agent` is set when an agent armed it. */
  datatype Order = Order(
    loanId: nat, userId: nat, agent: Option<Pubkey>, above: bool, slice: Slice, status: OrderStatus)

  /** The four tables. Loan ids are unique. */
  datatype Db = Db(delegations: seq<Delegation>, loans: map<nat, Loan>, wallets: set<(nat, Pubkey)>, orders: seq<Order>)

  // ---- Queries ----

  predicate Grants(d: Delegation, wallet: Pubkey, agent: Pubkey) {
    d.standing == Active && d.wallet == wallet && d.agent == agent
  }

  /** First active delegation of the pair, or the length. */
  function FindDelegation(ds: seq<Delegation>, wallet: Pubkey, agent: Pubkey): (i: nat)
    ensures i <= |ds|
    ensures i < |ds| ==> Grants(ds[i], wallet, agent)
    ensures forall k :: 0 <= k < i ==> !Grants(ds[k], wallet, agent)
  {
    if ds == [] || Grants(ds[0], wallet, agent) then 0 else 1 + FindDelegation(ds[1..], wallet, agent)
  }

  predicate Counts(o: Order, userId: nat, agent: Pubkey) {
    o.status == Armed && o.userId == userId && o.agent == Some(agent)
  }

  /** Orders this agent has armed for this user. */
  function ArmedCount(orders: seq<Order>, userId: nat, agent: Pubkey): nat {
    if orders == [] then 0 else
      ArmedCount(orders[..|orders| - 1], userId, agent) + if Counts(orders[|orders| - 1], userId, agent) then 1 else 0
  }

  predicate HasArmedOrder(orders: seq<Order>, loanId: nat) {
    exists i :: 0 <= i < |orders| && orders[i].loanId == loanId && orders[i].status == Armed
  }

  predicate InSlot(o: Order, loanId: nat, above: bool) {
    o.status == Armed && o.loanId == loanId && o.above == above
  }

  /** The armed slices of a loan and trigger direction. */
  function ArmedSlices(orders: seq<Order>, loanId: nat, above: bool): nat {
    if orders == [] then 0 else
      var o := orders[|orders| - 1];
      ArmedSlices(orders[..|orders| - 1], loanId, above) + if InSlot(o, loanId, above) then o.slice else 0
  }

  /** The trigger on armed rows: the slices of a loan and direction stay within the whole. */
  predicate Fits(orders: seq<Order>, loanId: nat, above: bool, slice: Slice) {
    ArmedSlices(orders, loanId, above) + slice <= FULL
  }

  predicate LoanBelongs(db: Db, d: Delegation, loanId: nat) {
    && loanId in db.loans
    && db.loans[loanId].userId == d.userId && db.loans[loanId].wallet == d.wallet
    && (d.userId, d.wallet) in db.wallets
  }

  // ---- Arming ----

  datatype Refusal =
    | BadRequest
    | NoActiveDelegation
    | DelegationExpired
    | LoanNotFoundForWallet
    | OrderExceedsCap
    | SlippageExceedsCap
    | AgentConcurrencyCapReached
    | ArmCoreRefused
    | NotCancellable

  datatype ArmRequest = ArmRequest(
    wallet: Pubkey, agent: Pubkey, loanId: nat, above: bool, slippageBps: int, autoEscalate: bool, shapeOk: bool)

  datatype ArmResult = Refused(reason: Refusal) | ArmedOrder(orderId: nat, capBps: int)

  predicate IsPast(d: Delegation, now: int) {
    d.expiresAt.Some? && d.expiresAt.value < now
  }

  /** The agent-specific checks that do not depend on the requested slippage. */
  function AgentGate(db: Db, wallet: Pubkey, agent: Pubkey, loanId: nat, now: int): Option<Refusal> {
    var i := FindDelegation(db.delegations, wallet, agent);
    if i == |db.delegations| then Some(NoActiveDelegation)
    else
      var d := db.delegations[i];
      if IsPast(d, now) then Some(DelegationExpired)
      else if !LoanBelongs(db, d, loanId) then Some(LoanNotFoundForWallet)
      else if db.loans[loanId].owed > d.maxPerOrder then Some(OrderExceedsCap)
      else if ArmedCount(db.orders, d.userId, agent) >= d.maxActive then Some(AgentConcurrencyCapReached)
      else None
  }

  class Ledger {
    var delegations: seq<Delegation>
    var loans: map<nat, Loan>
    var wallets: set<(nat, Pubkey)>
    var orders: seq<Order>

    ghost function Abstract(): Db
      reads this
    {
      Db(delegations, loans, wallets, orders)
    }

    constructor (db: Db)
      ensures Abstract() == db
    {
      delegations, loans, wallets, orders := db.delegations, db.loans, db.wallets, db.orders;
    }

    /** The concurrency query. */
    method CountArmed(userId: nat, agent: Pubkey) returns (n: nat)
      ensures n == ArmedCount(orders, userId, agent)
    {
      n := 0;
      for i := 0 to |orders|
        invariant n == ArmedCount(orders[..i], userId, agent)
      {
        assert orders[..i + 1][..i] == orders[..i];
        if Counts(orders[i], userId, agent) {
          n := n + 1;
        }
      }
      assert orders[..|orders|] == orders;
    }

    /** The arm endpoint; `coreAccepts` is the verdict of the shared arm core,
        which either rejects or inserts one armed row. */
    method Arm(req: ArmRequest, now: int, coreAccepts: bool) returns (r: ArmResult)
      modifies this`delegations, this`orders
      ensures r == ArmOutcome(old(Abstract()), req, now, coreAccepts)
      ensures Abstract() == AfterArm(old(Abstract()), req, now, coreAccepts)
    {
      if !req.shapeOk || req.slippageBps < MIN_SLIPPAGE_BPS || req.slippageBps > MAX_PROTOCOL_SLIPPAGE_BPS {
        return Refused(BadRequest);
      }
      var i := FindDelegation(delegations, req.wallet, req.agent);
      if i == |delegations| {
        return Refused(NoActiveDelegation);
      }
      var d := delegations[i];
      if d.expiresAt.Some? && d.expiresAt.value < now {
        delegations := delegations[i := d.(standing := Expired)];
        return Refused(DelegationExpired);
      }
      if !(req.loanId in loans && loans[req.loanId].userId == d.userId && loans[req.loanId].wallet == req.wallet
           && (d.userId, req.wallet) in wallets) {
        return Refused(LoanNotFoundForWallet);
      }
      if loans[req.loanId].owed > d.maxPerOrder {
        return Refused(OrderExceedsCap);
      }
      if req.slippageBps > d.maxSlippageBps {
        return Refused(SlippageExceedsCap);
      }
      var active := CountArmed(d.userId, req.agent);
      if active >= d.maxActive {
        return Refused(AgentConcurrencyCapReached);
      }
      var capBps := if req.autoEscalate then d.maxSlippageBps else req.slippageBps;
      if !coreAccepts || !Fits(orders, req.loanId, req.above, FULL) {
        return Refused(ArmCoreRefused);
      }
      r := ArmedOrder(|orders|, capBps);
      orders := orders + [Order(req.loanId, d.userId, Some(req.agent), req.above, FULL, Armed)];
    }

    /** The cancel endpoint. */
    method Delete(orderId: nat, agent: Pubkey, now: int) returns (refusal: Option<Refusal>)
      modifies this`orders
      ensures refusal == CancelOutcome(old(Abstract()), orderId, agent, now)
      ensures Abstract() == AfterCancel(old(Abstract()), orderId, agent, now)
    {
      if !HasDelegationForOrder(Db(delegations, loans, wallets, orders), orderId, agent, now) {
        return Some(NoActiveDelegation);
      }
      if orders[orderId].status != Armed {
        return Some(NotCancellable);
      }
      orders := orders[orderId := orders[orderId].(status := Cancelled)];
      refusal := None;
    }

    /** The lines of one delegation, with the number of eligible ones. */
    method LinesFor(i: nat, users: set<nat>, rows: seq<nat>) returns (lines: seq<Line>, eligible: nat)
      requires i < |delegations|
      requires forall l :: l in rows ==> l in loans
      ensures lines == LinesOf(Abstract(), i, users, rows)
      ensures eligible == CountEligible(lines)
    {
      hide Reasons;
      lines, eligible := [], 0;
      var d := delegations[i];
      for j := 0 to |rows|
        invariant lines == LinesOf(Abstract(), i, users, rows[..j])
        invariant eligible == CountEligible(lines)
      {
        var l := loans[rows[j]];
        assert rows[..j + 1][..j] == rows[..j];
        if l.active && l.userId in users && l.wallet == d.wallet {
          var line := Line(i, rows[j], Reasons(Db(delegations, loans, wallets, orders), d, rows[j]));
          CountEligibleConcat(lines, [line]);
          lines := lines + [line];
          if line.reasons == [] {
            eligible := eligible + 1;
          }
        }
      }
      assert rows[..|rows|] == rows;
    }

    /** The listing; `rows` is the order in which the query returns the loans. */
    method EligibleLoans(agent: Pubkey, now: int, rows: seq<nat>) returns (report: seq<Line>, totalEligible: nat)
      requires forall l :: l in rows ==> l in loans
      ensures report == Listing(Abstract(), agent, now, rows, |delegations|)
      ensures totalEligible == CountEligible(report)
    {
      hide IsGrantTo, GrantingUsers, LinesOf;
      report, totalEligible := [], 0;
      var users := GrantingUsers(delegations, agent, now);
      for i := 0 to |delegations|
        invariant report == Listing(Abstract(), agent, now, rows, i)
        invariant totalEligible == CountEligible(report)
      {
        if IsGrantTo(delegations[i], agent, now) {
          var lines, eligible := LinesFor(i, users, rows);
          CountEligibleConcat(report, lines);
          report := report + lines;
          totalEligible := totalEligible + eligible;
        }
      }
    }
  }

  /** What the arm endpoint answers. */
  function ArmOutcome(db: Db, req: ArmRequest, now: int, coreAccepts: bool): ArmResult {
    if !req.shapeOk || req.slippageBps < MIN_SLIPPAGE_BPS || req.slippageBps > MAX_PROTOCOL_SLIPPAGE_BPS
    then Refused(BadRequest)
    else
      var gate := AgentGate(db, req.wallet, req.agent, req.loanId, now);
      if gate.Some? && gate.value != AgentConcurrencyCapReached then Refused(gate.value)
      else
        var d := db.delegations[FindDelegation(db.delegations, req.wallet, req.agent)];
        if req.slippageBps > d.maxSlippageBps then Refused(SlippageExceedsCap)
        else if gate.Some? then Refused(gate.value)
        else if !coreAccepts || !Fits(db.orders, req.loanId, req.above, FULL) then Refused(ArmCoreRefused)
        else ArmedOrder(|db.orders|, if req.autoEscalate then d.maxSlippageBps else req.slippageBps)
  }

  function AfterArm(db: Db, req: ArmRequest, now: int, coreAccepts: bool): Db {
    var r := ArmOutcome(db, req, now, coreAccepts);
    var i := FindDelegation(db.delegations, req.wallet, req.agent);
    if r == Refused(DelegationExpired)
    then if i < |db.delegations|
         then db.(delegations := db.delegations[i := db.delegations[i].(standing := Expired)]) else db
    else if r.ArmedOrder? && i < |db.delegations|
    then db.(orders := db.orders + [Order(req.loanId, db.delegations[i].userId, Some(req.agent), req.above, FULL, Armed)])
    else db
  }

  // ---- Cancelling ----

  predicate IsLive(d: Delegation, now: int) {
    d.standing == Active && (d.expiresAt.None? || d.expiresAt.value > now)
  }

  /** The agent armed this order and still holds a live delegation on the wallet
      of its loan. */
  predicate HasDelegationForOrder(db: Db, orderId: nat, agent: Pubkey, now: int) {
    && orderId < |db.orders| && db.orders[orderId].agent == Some(agent)
    && db.orders[orderId].loanId in db.loans
    && exists i :: 0 <= i < |db.delegations|
         && db.delegations[i].wallet == db.loans[db.orders[orderId].loanId].wallet
         && db.delegations[i].agent == agent && IsLive(db.delegations[i], now)
  }

  function CancelOutcome(db: Db, orderId: nat, agent: Pubkey, now: int): Option<Refusal> {
    if !HasDelegationForOrder(db, orderId, agent, now) then Some(NoActiveDelegation)
    else if db.orders[orderId].status != Armed then Some(NotCancellable)
    else None
  }

  function AfterCancel(db: Db, orderId: nat, agent: Pubkey, now: int): Db {
    if CancelOutcome(db, orderId, agent, now).Some? then db
    else db.(orders := db.orders[orderId := db.orders[orderId].(status := Cancelled)])
  }

  // ---- Listing ----

  datatype Ineligibility =
    | LoanNotActive
    | BelowMinimumSize
    | CollateralNotEnabled
    | AlreadyHasActiveOrder
    | ExceedsPerOrderCap
    | ConcurrencyCapReached

  /** One loan of the listing under one delegation. */
  datatype Line = Line(delegation: nat, loan: nat, reasons: seq<Ineligibility>)

  function When<T>(c: bool, x: T): seq<T> {
    if c then [x] else []
  }

  function Headroom(db: Db, d: Delegation): int {
    d.maxActive - ArmedCount(db.orders, d.userId, d.agent)
  }

  /** Why a loan is not eligible under a delegation; empty if it is. */
  function Reasons(db: Db, d: Delegation, loanId: nat): seq<Ineligibility>
    requires loanId in db.loans
  {
    var l := db.loans[loanId];
    When(!l.active, LoanNotActive)
    + When(l.owed < MIN_LOAN_LAMPORTS, BelowMinimumSize)
    + When(!l.mintEnabled, CollateralNotEnabled)
    + When(HasArmedOrder(db.orders, loanId), AlreadyHasActiveOrder)
    + When(l.owed > d.maxPerOrder, ExceedsPerOrderCap)
    + When(Headroom(db, d) <= 0, ConcurrencyCapReached)
  }

  predicate IsGrantTo(d: Delegation, agent: Pubkey, now: int) {
    d.agent == agent && IsLive(d, now)
  }

  /** The users behind the agent's live delegations. */
  function GrantingUsers(ds: seq<Delegation>, agent: Pubkey, now: int): set<nat> {
    set d | d in ds && IsGrantTo(d, agent, now) :: d.userId
  }

  /** The listing selects open loans on the delegation's wallet by the users of
      any live delegation of the agent, not by this delegation's user. */
  predicate Selected(db: Db, i: nat, users: set<nat>, loanId: nat)
    requires i < |db.delegations| && loanId in db.loans
  {
    var l := db.loans[loanId];
    l.active && l.userId in users && l.wallet == db.delegations[i].wallet
  }

  function LinesOf(db: Db, i: nat, users: set<nat>, rows: seq<nat>): seq<Line>
    requires i < |db.delegations| && forall l :: l in rows ==> l in db.loans
  {
    if rows == [] then [] else
      var n := |rows| - 1;
      LinesOf(db, i, users, rows[..n])
      + When(Selected(db, i, users, rows[n]), Line(i, rows[n], Reasons(db, db.delegations[i], rows[n])))
  }

  /** The lines of the first `n` delegations. */
  function Listing(db: Db, agent: Pubkey, now: int, rows: seq<nat>, n: nat): seq<Line>
    requires n <= |db.delegations| && forall l :: l in rows ==> l in db.loans
  {
    if n == 0 then [] else
      Listing(db, agent, now, rows, n - 1)
      + if IsGrantTo(db.delegations[n - 1], agent, now)
        then LinesOf(db, n - 1, GrantingUsers(db.delegations, agent, now), rows) else []
  }

  ghost predicate NoRepeats(s: seq<nat>) {
    forall i, j :: 0 <= i < j < |s| ==> s[i] != s[j]
  }

  ghost predicate DistinctLines(s: seq<Line>) {
    forall i, j :: 0 <= i < j < |s| ==> s[i].delegation != s[j].delegation || s[i].loan != s[j].loan
  }

  lemma {:induction false} LinesOfExact(db: Db, i: nat, users: set<nat>, rows: seq<nat>)
    requires i < |db.delegations| && forall l :: l in rows ==> l in db.loans
    ensures forall e :: e in LinesOf(db, i, users, rows) <==>
              && e.delegation == i && e.loan in rows && Selected(db, i, users, e.loan)
              && e.reasons == Reasons(db, db.delegations[i], e.loan)
    ensures NoRepeats(rows) ==> DistinctLines(LinesOf(db, i, users, rows))
  {
    hide Reasons, Selected;
    if rows != [] {
      var n := |rows| - 1;
      LinesOfExact(db, i, users, rows[..n]);
      assert rows == rows[..n] + [rows[n]];
    }
  }

  lemma DistinctLinesConcat(a: seq<Line>, b: seq<Line>)
    requires DistinctLines(a) && DistinctLines(b)
    requires forall x, y :: x in a && y in b ==> x.delegation != y.delegation
    ensures DistinctLines(a + b)
  {
  }

  lemma {:induction false} ListingMembers(db: Db, agent: Pubkey, now: int, rows: seq<nat>, n: nat)
    requires n <= |db.delegations| && forall l :: l in rows ==> l in db.loans
    ensures forall e :: e in Listing(db, agent, now, rows, n) <==>
              && e.delegation < n && IsGrantTo(db.delegations[e.delegation], agent, now) && e.loan in rows
              && Selected(db, e.delegation, GrantingUsers(db.delegations, agent, now), e.loan)
              && e.reasons == Reasons(db, db.delegations[e.delegation], e.loan)
    ensures NoRepeats(rows) ==> DistinctLines(Listing(db, agent, now, rows, n))
    decreases n
  {
    hide Reasons, Selected, IsGrantTo, GrantingUsers, LinesOf, DistinctLines, NoRepeats;
    if n == 0 {
      assert DistinctLines([]) by {
        NothingRepeats();
      }
    } else {
      ListingMembers(db, agent, now, rows, n - 1);
      var users := GrantingUsers(db.delegations, agent, now);
      LinesOfExact(db, n - 1, users, rows);
      var front := Listing(db, agent, now, rows, n - 1);
      if IsGrantTo(db.delegations[n - 1], agent, now) {
        if NoRepeats(rows) {
          DistinctLinesConcat(front, LinesOf(db, n - 1, users, rows));
        }
      } else {
        assert front + [] == front;
      }
    }
  }

  lemma NothingRepeats()
    ensures DistinctLines([])
  {
  }

  function Eligible(report: seq<Line>): set<Line> {
    set e | e in report && e.reasons == []
  }

  lemma EligibleCons(e: Line, rest: seq<Line>)
    ensures Eligible([e] + rest) == Eligible(rest) + if e.reasons == [] then {e} else {}
  {
  }

  lemma {:induction false} EligibleCounted(report: seq<Line>)
    requires DistinctLines(report)
    ensures CountEligible(report) == |Eligible(report)|
    decreases |report|
  {
    hide Eligible;
    if report == [] {
      assert Eligible([]) == {} by { NoneEligible(); }
    } else {
      EligibleCounted(report[1..]);
      EligibleCons(report[0], report[1..]);
      assert report == [report[0]] + report[1..];
      NotAmong(report);
    }
  }

  lemma NoneEligible()
    ensures Eligible([]) == {}
  {
  }

  lemma NotAmong(report: seq<Line>)
    requires DistinctLines(report) && report != []
    ensures report[0] !in Eligible(report[1..])
  {
  }

  /** The listing shows each live delegation of the agent with each selected loan
      on its wallet, once and with its reasons, and nothing else; the total is
      the number of lines without a reason. */
  lemma ListingExact(db: Db, agent: Pubkey, now: int, rows: seq<nat>, e: Line)
    requires NoRepeats(rows) && forall l :: l in rows ==> l in db.loans
    ensures var report := Listing(db, agent, now, rows, |db.delegations|);
            && (e in report <==>
                  && e.delegation < |db.delegations| && LiveGrant(db, e.delegation, agent, now)
                  && e.loan in rows && db.loans[e.loan].active
                  && db.loans[e.loan].wallet == db.delegations[e.delegation].wallet
                  && (exists j :: 0 <= j < |db.delegations| && LiveGrant(db, j, agent, now)
                                  && db.delegations[j].userId == db.loans[e.loan].userId)
                  && e.reasons == Reasons(db, db.delegations[e.delegation], e.loan))
            && DistinctLines(report)
            && CountEligible(report) == |Eligible(report)|
  {
    hide Listing, Reasons;
    ListingMembers(db, agent, now, rows, |db.delegations|);
    EligibleCounted(Listing(db, agent, now, rows, |db.delegations|));
    forall u ensures u in GrantingUsers(db.delegations, agent, now) <==>
        exists j :: 0 <= j < |db.delegations| && LiveGrant(db, j, agent, now) && db.delegations[j].userId == u
    {
      GrantingUsersAre(db, agent, now, u);
    }
  }

  /** The `i`-th delegation is the agent's, active and not expired. */
  predicate LiveGrant(db: Db, i: nat, agent: Pubkey, now: int)
    requires i < |db.delegations|
  {
    var d := db.delegations[i];
    d.agent == agent && d.standing == Active && (d.expiresAt.None? || d.expiresAt.value > now)
  }

  lemma GrantingUsersAre(db: Db, agent: Pubkey, now: int, u: nat)
    ensures u in GrantingUsers(db.delegations, agent, now) <==>
              exists j :: 0 <= j < |db.delegations| && LiveGrant(db, j, agent, now) && db.delegations[j].userId == u
  {
    if u in GrantingUsers(db.delegations, agent, now) {
      var d :| d in db.delegations && IsGrantTo(d, agent, now) && d.userId == u;
      var j :| 0 <= j < |db.delegations| && db.delegations[j] == d;
      assert LiveGrant(db, j, agent, now);
    }
    if j :| 0 <= j < |db.delegations| && LiveGrant(db, j, agent, now) && db.delegations[j].userId == u {
      assert db.delegations[j] in db.delegations && IsGrantTo(db.delegations[j], agent, now);
    }
  }

  lemma InSix<T>(y: T, a: seq<T>, b: seq<T>, c: seq<T>, d: seq<T>, e: seq<T>, f: seq<T>)
    ensures y in a + b + c + d + e + f <==> y in a || y in b || y in c || y in d || y in e || y in f
  {
  }

  lemma InWhen<T>(y: T, c: bool, x: T)
    ensures y in When(c, x) <==> c && y == x
  {
  }

  /** Each reason stands for its own fault of the loan or the grant. */
  lemma ReasonsAre(db: Db, d: Delegation, loanId: nat, y: Ineligibility)
    requires loanId in db.loans
    ensures y in Reasons(db, d, loanId) <==>
              var l := db.loans[loanId];
              match y
              case LoanNotActive => !l.active
              case BelowMinimumSize => l.owed < 1_000_000_000
              case CollateralNotEnabled => !l.mintEnabled
              case AlreadyHasActiveOrder =>
                exists k :: 0 <= k < |db.orders| && db.orders[k].loanId == loanId && db.orders[k].status == Armed
              case ExceedsPerOrderCap => l.owed > d.maxPerOrder
              case ConcurrencyCapReached => ArmedCount(db.orders, d.userId, d.agent) >= d.maxActive
  {
    ArmedOrderIs(db.orders, loanId);
    hide ArmedCount, HasArmedOrder, When;
    var l := db.loans[loanId];
    InSix(y, When(!l.active, LoanNotActive), When(l.owed < MIN_LOAN_LAMPORTS, BelowMinimumSize),
          When(!l.mintEnabled, CollateralNotEnabled), When(HasArmedOrder(db.orders, loanId), AlreadyHasActiveOrder),
          When(l.owed > d.maxPerOrder, ExceedsPerOrderCap), When(Headroom(db, d) <= 0, ConcurrencyCapReached));
    InWhen(y, !l.active, LoanNotActive);
    InWhen(y, l.owed < MIN_LOAN_LAMPORTS, BelowMinimumSize);
    InWhen(y, !l.mintEnabled, CollateralNotEnabled);
    InWhen(y, HasArmedOrder(db.orders, loanId), AlreadyHasActiveOrder);
    InWhen(y, l.owed > d.maxPerOrder, ExceedsPerOrderCap);
    InWhen(y, Headroom(db, d) <= 0, ConcurrencyCapReached);
  }

  lemma ArmedOrderIs(orders: seq<Order>, loanId: nat)
    ensures HasArmedOrder(orders, loanId) <==>
              exists k :: 0 <= k < |orders| && orders[k].loanId == loanId && orders[k].status == Armed
  {
  }

  function CountEligible(report: seq<Line>): nat {
    if report == [] then 0 else
      (if report[0].reasons == [] then 1 else 0) + CountEligible(report[1..])
  }

  lemma {:induction false} CountEligibleConcat(a: seq<Line>, b: seq<Line>)
    ensures CountEligible(a + b) == CountEligible(a) + CountEligible(b)
    decreases |a|
  {
    if a == [] {
      assert a + b == b;
    } else {
      assert (a + b)[1..] == a[1..] + b;
      CountEligibleConcat(a[1..], b);
    }
  }

  /** At most one active delegation per wallet and agent (a unique index). */
  ghost predicate OneActive(ds: seq<Delegation>) {
    forall i, j :: 0 <= i < j < |ds| && ds[i].standing == Active && ds[j].standing == Active ==>
      ds[i].wallet != ds[j].wallet || ds[i].agent != ds[j].agent
  }

  lemma FindUnique(ds: seq<Delegation>, i: nat)
    requires OneActive(ds) && i < |ds| && ds[i].standing == Active
    ensures FindDelegation(ds, ds[i].wallet, ds[i].agent) == i
  {
    var k := FindDelegation(ds, ds[i].wallet, ds[i].agent);
    assert Grants(ds[i], ds[i].wallet, ds[i].agent);
    assert forall j :: 0 <= j < |ds| && Grants(ds[j], ds[i].wallet, ds[i].agent) ==> j == i;
  }

  /** The listing and the arm endpoint agree. For a live delegation and a loan on
      its wallet: given that the loan is the delegation's user's and the wallet
      row exists, the reason list is empty exactly if the agent checks of the arm
      endpoint pass in the same state and the loan itself is open, large enough,
      of an enabled mint and without an armed order. */
  lemma EligibleIffArmable(db: Db, i: nat, loanId: nat, now: int)
    requires OneActive(db.delegations) && i < |db.delegations| && IsLive(db.delegations[i], now)
    requires loanId in db.loans && db.loans[loanId].wallet == db.delegations[i].wallet
    requires db.loans[loanId].userId == db.delegations[i].userId
    requires (db.delegations[i].userId, db.delegations[i].wallet) in db.wallets
    ensures var d, l := db.delegations[i], db.loans[loanId];
            Reasons(db, d, loanId) == [] <==>
              && AgentGate(db, d.wallet, d.agent, loanId, now).None?
              && l.active && l.owed >= MIN_LOAN_LAMPORTS && l.mintEnabled && !HasArmedOrder(db.orders, loanId)
  {
    FindUnique(db.delegations, i);
    hide ArmedCount, HasArmedOrder, FindDelegation;
  }

  /** The two ownership conditions are exactly what the listing leaves out: a
      loan reported eligible passes the arm checks if and only if they hold. */
  lemma EligibleArmableExactlyWhenOwned(db: Db, i: nat, loanId: nat, now: int)
    requires OneActive(db.delegations) && i < |db.delegations| && IsLive(db.delegations[i], now)
    requires loanId in db.loans && db.loans[loanId].wallet == db.delegations[i].wallet
    requires Reasons(db, db.delegations[i], loanId) == []
    ensures var d := db.delegations[i];
            AgentGate(db, d.wallet, d.agent, loanId, now).None? <==>
              db.loans[loanId].userId == d.userId && (d.userId, d.wallet) in db.wallets
  {
    FindUnique(db.delegations, i);
    hide ArmedCount, HasArmedOrder, FindDelegation;
  }

  /** A line of the listing has no reasons and its loan is the delegation's user's,
      with the wallet row, if and only if the agent checks of the arm endpoint pass
      and the loan is large enough, of an enabled mint and without an armed order. */
  lemma ListedLineArmableIff(db: Db, agent: Pubkey, now: int, rows: seq<nat>, e: Line)
    requires OneActive(db.delegations) && forall l :: l in rows ==> l in db.loans
    requires e in Listing(db, agent, now, rows, |db.delegations|)
    ensures e.delegation < |db.delegations| && e.loan in db.loans
    ensures var d, l := db.delegations[e.delegation], db.loans[e.loan];
            e.reasons == [] && l.userId == d.userId && (d.userId, d.wallet) in db.wallets <==>
              && AgentGate(db, d.wallet, agent, e.loan, now).None?
              && l.owed >= MIN_LOAN_LAMPORTS && l.mintEnabled && !HasArmedOrder(db.orders, e.loan)
  {
    hide Listing, Reasons, AgentGate, HasArmedOrder, GrantingUsers;
    ListingMembers(db, agent, now, rows, |db.delegations|);
    var i, d, l := e.delegation, db.delegations[e.delegation], db.loans[e.loan];
    if l.userId == d.userId && (d.userId, d.wallet) in db.wallets {
      EligibleIffArmable(db, i, e.loan, now);
    } else {
      UnownedIsRefused(db, i, e.loan, now);
    }
  }

  lemma UnownedIsRefused(db: Db, i: nat, loanId: nat, now: int)
    requires OneActive(db.delegations) && i < |db.delegations| && IsLive(db.delegations[i], now)
    requires loanId in db.loans
    requires var d := db.delegations[i]; !(db.loans[loanId].userId == d.userId && (d.userId, d.wallet) in db.wallets)
    ensures AgentGate(db, db.delegations[i].wallet, db.delegations[i].agent, loanId, now).Some?
  {
    FindUnique(db.delegations, i);
    hide FindDelegation;
  }

  /** An agent with grants from users 1 and 2 on wallets `v` and `w` is shown user
      2's loan on wallet `v` as eligible; the arm endpoint does not find it. */
  lemma ListedButRefused(v: Pubkey, w: Pubkey, agent: Pubkey, now: int)
    requires v != w
    ensures var d := Delegation(1, v, agent, 5_000_000_000, 1, 500, Active, None);
            var db := Db([d, d.(userId := 2, wallet := w)], map[7 := Loan(2, v, 2_000_000_000, true, true)],
                         {(1, v), (2, w)}, []);
            && OneActive(db.delegations)
            && Line(0, 7, []) in Listing(db, agent, now, [7], 2)
            && AgentGate(db, v, agent, 7, now) == Some(LoanNotFoundForWallet)
  {
    var d := Delegation(1, v, agent, 5_000_000_000, 1, 500, Active, None);
    var db := Db([d, d.(userId := 2, wallet := w)], map[7 := Loan(2, v, 2_000_000_000, true, true)],
                 {(1, v), (2, w)}, []);
    assert db.delegations[1] in db.delegations && IsGrantTo(db.delegations[1], agent, now);
    assert 2 in GrantingUsers(db.delegations, agent, now);
    assert Reasons(db, d, 7) == [];
    hide Reasons;
    ListingMembers(db, agent, now, [7], 2);
    hide Listing, GrantingUsers;
  }

  // ---- What arming and cancelling do to the counts ----

  lemma ArmedCountSnoc(orders: seq<Order>, o: Order, userId: nat, agent: Pubkey)
    ensures ArmedCount(orders + [o], userId, agent)
         == ArmedCount(orders, userId, agent) + if Counts(o, userId, agent) then 1 else 0
  {
    assert (orders + [o])[..|orders|] == orders;
  }

  lemma {:induction false} ArmedCountUpdate(orders: seq<Order>, k: nat, o: Order, userId: nat, agent: Pubkey)
    requires k < |orders|
    ensures ArmedCount(orders[k := o], userId, agent) + (if Counts(orders[k], userId, agent) then 1 else 0)
         == ArmedCount(orders, userId, agent) + if Counts(o, userId, agent) then 1 else 0
    decreases |orders|
  {
    var front := orders[..|orders| - 1];
    if k == |orders| - 1 {
      assert orders[k := o][..|orders| - 1] == front;
    } else {
      assert orders[k := o][..|orders| - 1] == front[k := o];
      ArmedCountUpdate(front, k, o, userId, agent);
    }
  }

  /** A successful arm was covered by a delegation in force: afterwards the agent's
      armed count for the user is within its limit, the cap passed on is within
      its slippage consent and at least the requested slippage, and only the
      ordered loan, of that user and wallet and within the notional cap, gained
      an armed order. */
  lemma ArmWithinConsent(db: Db, req: ArmRequest, now: int, coreAccepts: bool)
    requires ArmOutcome(db, req, now, coreAccepts).ArmedOrder?
    ensures var i := FindDelegation(db.delegations, req.wallet, req.agent);
            var db' := AfterArm(db, req, now, coreAccepts);
            var cap := ArmOutcome(db, req, now, coreAccepts).capBps;
            && i < |db.delegations|
            && var d := db.delegations[i];
               && !IsPast(d, now) && LoanBelongs(db, d, req.loanId) && db.loans[req.loanId].owed <= d.maxPerOrder
               && ArmedCount(db'.orders, d.userId, req.agent) <= d.maxActive
               && req.slippageBps <= cap <= d.maxSlippageBps
               && db' == db.(orders := db.orders + [Order(req.loanId, d.userId, Some(req.agent), req.above, FULL, Armed)])
  {
    var i := FindDelegation(db.delegations, req.wallet, req.agent);
    hide FindDelegation;
    if i < |db.delegations| {
      ArmedCountSnoc(db.orders, Order(req.loanId, db.delegations[i].userId, Some(req.agent), req.above, FULL, Armed),
                     db.delegations[i].userId, req.agent);
    }
  }

  /** Row `i` is the grant in force: the first active one of wallet and agent. */
  predicate InForce(ds: seq<Delegation>, wallet: Pubkey, agent: Pubkey, i: nat) {
    && i < |ds| && ds[i].standing == Active && ds[i].wallet == wallet && ds[i].agent == agent
    && forall j :: 0 <= j < i ==> !(ds[j].standing == Active && ds[j].wallet == wallet && ds[j].agent == agent)
  }

  lemma InForceIff(ds: seq<Delegation>, wallet: Pubkey, agent: Pubkey, i: nat)
    requires i < |ds|
    ensures InForce(ds, wallet, agent, i) <==> FindDelegation(ds, wallet, agent) == i
  {
    hide FindDelegation;
    var f := FindDelegation(ds, wallet, agent);
    if f < |ds| {
      assert Grants(ds[f], wallet, agent);
    }
    assert forall j :: 0 <= j < |ds| ==>
      (Grants(ds[j], wallet, agent) <==> ds[j].standing == Active && ds[j].wallet == wallet && ds[j].agent == agent);
  }

  /** The orders an agent has armed for a user. */
  ghost function ArmedFor(orders: seq<Order>, userId: nat, agent: Pubkey): set<int> {
    set k | 0 <= k < |orders| && orders[k].status == Armed && orders[k].userId == userId && orders[k].agent == Some(agent)
  }

  lemma ArmedForSnoc(front: seq<Order>, o: Order, userId: nat, agent: Pubkey)
    ensures ArmedFor(front + [o], userId, agent)
         == ArmedFor(front, userId, agent)
            + if o.status == Armed && o.userId == userId && o.agent == Some(agent) then {|front|} else {}
    ensures |front| !in ArmedFor(front, userId, agent)
  {
    assert forall k :: 0 <= k < |front| ==> (front + [o])[k] == front[k];
  }

  lemma {:induction false} ArmedCountIs(orders: seq<Order>, userId: nat, agent: Pubkey)
    ensures ArmedCount(orders, userId, agent) == |ArmedFor(orders, userId, agent)|
    decreases |orders|
  {
    if orders == [] {
      assert ArmedFor([], userId, agent) == {};
    } else {
      hide ArmedFor;
      var n := |orders| - 1;
      ArmedCountIs(orders[..n], userId, agent);
      ArmedForSnoc(orders[..n], orders[n], userId, agent);
      assert orders == orders[..n] + [orders[n]];
    }
  }

  lemma {:induction false} NoSlicesIff(orders: seq<Order>, loanId: nat, above: bool)
    ensures ArmedSlices(orders, loanId, above) == 0 <==>
              forall k :: 0 <= k < |orders| ==>
                !(orders[k].status == Armed && orders[k].loanId == loanId && orders[k].above == above)
  {
    if orders != [] {
      NoSlicesIff(orders[..|orders| - 1], loanId, above);
    }
  }

  /** The request asks for what the grant `d` and the loan allow. */
  predicate Covered(db: Db, d: Delegation, req: ArmRequest, now: int) {
    && !(d.expiresAt.Some? && d.expiresAt.value < now)
    && req.loanId in db.loans && db.loans[req.loanId].userId == d.userId && db.loans[req.loanId].wallet == req.wallet
    && (d.userId, req.wallet) in db.wallets
    && db.loans[req.loanId].owed <= d.maxPerOrder
    && req.slippageBps <= d.maxSlippageBps
    && ArmedCount(db.orders, d.userId, req.agent) < d.maxActive
  }

  /** Exactly when an arm succeeds. The cap passed on is the requested slippage, or with
      auto-escalation the most the grant allows. */
  lemma ArmSucceedsIff(db: Db, req: ArmRequest, now: int, coreAccepts: bool, i: nat)
    requires i < |db.delegations| && InForce(db.delegations, req.wallet, req.agent, i)
    ensures var r, d := ArmOutcome(db, req, now, coreAccepts), db.delegations[i];
            && (r.ArmedOrder? <==>
                  && req.shapeOk && 10 <= req.slippageBps <= 2500 && Covered(db, d, req, now)
                  && coreAccepts
                  && forall k :: 0 <= k < |db.orders| ==>
                       !(db.orders[k].status == Armed && db.orders[k].loanId == req.loanId && db.orders[k].above == req.above))
            && (r.ArmedOrder? ==>
                  && r.orderId == |db.orders|
                  && (!req.autoEscalate ==> r.capBps == req.slippageBps)
                  && (req.autoEscalate ==> r.capBps == d.maxSlippageBps))
  {
    hide FindDelegation, ArmedCount, ArmedSlices;
    InForceIff(db.delegations, req.wallet, req.agent, i);
    NoSlicesIff(db.orders, req.loanId, req.above);
  }

  /** Without a grant in force no arm succeeds. */
  lemma NoGrantNoArm(db: Db, req: ArmRequest, now: int, coreAccepts: bool)
    requires forall i :: 0 <= i < |db.delegations| ==> !InForce(db.delegations, req.wallet, req.agent, i)
    ensures var r := ArmOutcome(db, req, now, coreAccepts);
            r == Refused(if req.shapeOk && 10 <= req.slippageBps <= 2500 then NoActiveDelegation else BadRequest)
  {
    hide FindDelegation, ArmedCount, ArmedSlices;
    var i := FindDelegation(db.delegations, req.wallet, req.agent);
    if i < |db.delegations| {
      InForceIff(db.delegations, req.wallet, req.agent, i);
    }
  }

  /** Which refusal a well-formed request gets: the first of its faults in this order. */
  lemma RefusalIs(db: Db, req: ArmRequest, now: int, coreAccepts: bool, i: nat)
    requires i < |db.delegations| && InForce(db.delegations, req.wallet, req.agent, i)
    requires req.shapeOk && 10 <= req.slippageBps <= 2500
    ensures var r, d := ArmOutcome(db, req, now, coreAccepts), db.delegations[i];
            var expired := d.expiresAt.Some? && d.expiresAt.value < now;
            var owned := req.loanId in db.loans && db.loans[req.loanId].userId == d.userId
                         && db.loans[req.loanId].wallet == req.wallet && (d.userId, req.wallet) in db.wallets;
            && (r == Refused(DelegationExpired) <==> expired)
            && (r == Refused(LoanNotFoundForWallet) <==> !expired && !owned)
            && (r == Refused(OrderExceedsCap) <==> !expired && owned && db.loans[req.loanId].owed > d.maxPerOrder)
            && (r == Refused(SlippageExceedsCap) <==>
                  !expired && owned && db.loans[req.loanId].owed <= d.maxPerOrder && req.slippageBps > d.maxSlippageBps)
            && (r == Refused(AgentConcurrencyCapReached) <==>
                  !expired && owned && db.loans[req.loanId].owed <= d.maxPerOrder && req.slippageBps <= d.maxSlippageBps
                  && ArmedCount(db.orders, d.userId, req.agent) >= d.maxActive)
  {
    hide FindDelegation, ArmedCount, ArmedSlices;
    InForceIff(db.delegations, req.wallet, req.agent, i);
  }

  function ArmedBy(req: ArmRequest, d: Delegation): Order {
    Order(req.loanId, d.userId, Some(req.agent), req.above, 10_000, Armed)
  }

  /** What a request changes: an arm adds one armed full order of the grant's user, an
      expired grant is marked so, and nothing else happens. */
  lemma ArmChanges(db: Db, req: ArmRequest, now: int, coreAccepts: bool)
    ensures var r, db' := ArmOutcome(db, req, now, coreAccepts), AfterArm(db, req, now, coreAccepts);
            && (r.ArmedOrder? ==>
                  (exists i :: 0 <= i < |db.delegations| && InForce(db.delegations, req.wallet, req.agent, i)
                               && db' == db.(orders := db.orders + [ArmedBy(req, db.delegations[i])])))
            && (r == Refused(DelegationExpired) ==>
                  (exists i :: 0 <= i < |db.delegations| && InForce(db.delegations, req.wallet, req.agent, i)
                               && db' == db.(delegations := db.delegations[i := db.delegations[i].(standing := Expired)])))
            && (!r.ArmedOrder? && r != Refused(DelegationExpired) ==> db' == db)
  {
    hide FindDelegation, ArmedCount, ArmedSlices;
    var i := FindDelegation(db.delegations, req.wallet, req.agent);
    if i < |db.delegations| {
      InForceIff(db.delegations, req.wallet, req.agent, i);
    }
  }

  /** A cancel succeeds exactly for an armed order of this agent whose loan's
      wallet still grants it a live delegation; it changes that order only, and
      frees one slot of its user and agent. */
  lemma CancelFreesOneSlot(db: Db, orderId: nat, agent: Pubkey, now: int)
    ensures CancelOutcome(db, orderId, agent, now).None? <==>
              && orderId < |db.orders| && db.orders[orderId].status == Armed && db.orders[orderId].agent == Some(agent)
              && db.orders[orderId].loanId in db.loans
              && exists i :: 0 <= i < |db.delegations|
                   && db.delegations[i].standing == Active && db.delegations[i].agent == agent
                   && db.delegations[i].wallet == db.loans[db.orders[orderId].loanId].wallet
                   && (db.delegations[i].expiresAt.None? || db.delegations[i].expiresAt.value > now)
    ensures CancelOutcome(db, orderId, agent, now).None? ==>
              var db', o := AfterCancel(db, orderId, agent, now), db.orders[orderId];
              && db' == db.(orders := db'.orders) && |db'.orders| == |db.orders|
              && (forall k :: 0 <= k < |db.orders| && k != orderId ==> db'.orders[k] == db.orders[k])
              && db'.orders[orderId] == o.(status := Cancelled)
              && ArmedCount(db'.orders, o.userId, agent) == ArmedCount(db.orders, o.userId, agent) - 1
  {
    if CancelOutcome(db, orderId, agent, now).None? {
      var o := db.orders[orderId];
      ArmedCountUpdate(db.orders, orderId, o.(status := Cancelled), o.userId, agent);
    }
  }

  lemma HasArmedSnoc(orders: seq<Order>, o: Order, loanId: nat)
    ensures HasArmedOrder(orders + [o], loanId) <==>
              HasArmedOrder(orders, loanId) || (o.loanId == loanId && o.status == Armed)
  {
    var os := orders + [o];
    assert forall k :: 0 <= k < |orders| ==> os[k] == orders[k];
    assert os[|orders|] == o;
  }

  /** The listing does not see orders that are not armed. */
  lemma ClosedOrderUnlisted(db: Db, o: Order, d: Delegation, loanId: nat)
    requires o.status != Armed && loanId in db.loans
    ensures var db' := db.(orders := db.orders + [o]);
            Headroom(db', d) == Headroom(db, d) && Reasons(db', d, loanId) == Reasons(db, d, loanId)
  {
    hide ArmedCount, HasArmedOrder;
    ArmedCountSnoc(db.orders, o, d.userId, d.agent);
    HasArmedSnoc(db.orders, o, loanId);
  }

  lemma ArmedOrderListed(db: Db, o: Order, d: Delegation)
    requires o.status == Armed && o.loanId in db.loans
    ensures var db' := db.(orders := db.orders + [o]);
            && AlreadyHasActiveOrder in Reasons(db', d, o.loanId)
            && Headroom(db', d) == Headroom(db, d) - (if d.userId == o.userId && o.agent == Some(d.agent) then 1 else 0)
  {
    hide ArmedCount, HasArmedOrder;
    ArmedCountSnoc(db.orders, o, d.userId, d.agent);
    HasArmedSnoc(db.orders, o, o.loanId);
  }

  /** The listing depends on the orders only through reasons. */
  lemma {:induction false} ListingSame(db: Db, db': Db, agent: Pubkey, now: int, rows: seq<nat>, n: nat)
    requires db' == db.(orders := db'.orders)
    requires n <= |db.delegations| && forall l :: l in rows ==> l in db.loans
    requires forall d, l :: l in db.loans ==> Reasons(db', d, l) == Reasons(db, d, l)
    ensures Listing(db', agent, now, rows, n) == Listing(db, agent, now, rows, n)
    decreases n
  {
    hide Reasons;
    if n > 0 {
      ListingSame(db, db', agent, now, rows, n - 1);
      LinesSame(db, db', n - 1, GrantingUsers(db.delegations, agent, now), rows);
    }
  }

  lemma {:induction false} LinesSame(db: Db, db': Db, i: nat, users: set<nat>, rows: seq<nat>)
    requires db' == db.(orders := db'.orders)
    requires i < |db.delegations| && forall l :: l in rows ==> l in db.loans
    requires forall d, l :: l in db.loans ==> Reasons(db', d, l) == Reasons(db, d, l)
    ensures LinesOf(db', i, users, rows) == LinesOf(db, i, users, rows)
  {
    hide Reasons;
    if rows != [] {
      LinesSame(db, db', i, users, rows[..|rows| - 1]);
    }
  }

  /** Right after an arm the loan is listed as taken and one slot is gone;
      cancelling that order restores every headroom and the whole listing of every
      agent. */
  lemma CancelUndoesArm(db: Db, req: ArmRequest, now: int, coreAccepts: bool, later: int, d: Delegation,
                        agent: Pubkey, at: int, rows: seq<nat>)
    requires ArmOutcome(db, req, now, coreAccepts).ArmedOrder? && forall l :: l in rows ==> l in db.loans
    requires var armed := AfterArm(db, req, now, coreAccepts);
             CancelOutcome(armed, |db.orders|, req.agent, later).None?
    ensures var armed := AfterArm(db, req, now, coreAccepts);
            var undone := AfterCancel(armed, |db.orders|, req.agent, later);
            && req.loanId in db.loans && undone == db.(orders := undone.orders)
            && AlreadyHasActiveOrder in Reasons(armed, d, req.loanId)
            && Headroom(armed, d) == Headroom(db, d) -
                 (if d.userId == armed.orders[|db.orders|].userId && d.agent == req.agent then 1 else 0)
            && Headroom(undone, d) == Headroom(db, d)
            && Listing(undone, agent, at, rows, |undone.delegations|) == Listing(db, agent, at, rows, |db.delegations|)
  {
    hide FindDelegation, AgentGate, ArmOutcome, AfterArm, ArmedCount, Reasons, Headroom, Listing;
    ArmWithinConsent(db, req, now, coreAccepts);
    var armed := AfterArm(db, req, now, coreAccepts);
    var o := armed.orders[|db.orders|];
    var undone := AfterCancel(armed, |db.orders|, req.agent, later);
    assert undone == db.(orders := db.orders + [o.(status := Cancelled)]);
    ArmedOrderListed(db, o, d);
    ClosedOrderUnlisted(db, o.(status := Cancelled), d, req.loanId);
    forall e, l | l in db.loans ensures Reasons(undone, e, l) == Reasons(db, e, l) {
      ClosedOrderUnlisted(db, o.(status := Cancelled), e, l);
    }
    ListingSame(db, undone, agent, at, rows, |db.delegations|);
  }
}
