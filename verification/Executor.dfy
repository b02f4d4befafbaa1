/** Paying out a plan in batches with a persistent journal
    (execute-distribution-plan.js).

    The executor is a state machine over its own steps. The journal and the
    chain outlive a run; everything else is lost when a run ends. */
module Executor {
  import opened Allocation

  const MIN_PAYOUT_LAMPORTS := 1000
  const BATCH_SIZE := 10
  const GAS_RESERVE_LAMPORTS := 10_000_000

  datatype PlanHash = PlanHash(hex: string)

  /** One line of EXECUTION-LOG.jsonl. */
  datatype Record =
    | RunStarted(planHash: PlanHash)
    | TransferConfirmed(planHash: PlanHash, recipients: seq<Wallet>, amounts: seq<nat>)
    | TransferFailed(planHash: PlanHash, recipients: seq<Wallet>, amounts: seq<nat>)
    | RunCompleted(planHash: PlanHash, succeeded: nat, failed: nat)
    | MalformedLine

  /** Where the current run stands; `rest` is the work not yet attempted, with
      the batch in flight at its front. `Landed` is the gap between a confirmed send
      and the append of its journal line, sleep included. */
  datatype Phase =
    | Idle
    | Sending(rest: seq<Entry>, succeeded: nat, failed: nat)
    | Landed(rest: seq<Entry>, succeeded: nat, failed: nat)

  /** `inflight` are the batches that were sent and given up without knowing their
      fate; each may still land, during whatever run, or expire. `unjournaled` counts
      batches that landed without a confirmed line, `incidents` the crashes and unclear
      sends behind them. */
  datatype State = State(
    phase: Phase, journal: seq<Record>, chain: seq<Entry>, inflight: seq<seq<Entry>>, unjournaled: nat, incidents: nat)

  datatype Event =
    | Start(balance: nat, execute: bool)
    | SendConfirmed
    | SendFailed
    | SendUnclear
    | Append
    | Finish
    | Crash
    | CrashInFlight
    | LateLanding(index: nat)
    | Expires(index: nat)
    | ForeignLine(line: Record)

  function WalletList(es: seq<Entry>): seq<Wallet> {
    seq(|es|, i requires 0 <= i < |es| => es[i].wallet)
  }

  function AmountList(es: seq<Entry>): seq<nat> {
    seq(|es|, i requires 0 <= i < |es| => es[i].amount)
  }

  function Listed(ws: seq<Wallet>): set<Wallet> {
    set w | w in ws
  }

  /** The wallets one journal line marks as paid. */
  function PaidBy(hash: PlanHash, r: Record): set<Wallet> {
    if r.TransferConfirmed? && r.planHash == hash then Listed(r.recipients) else {}
  }

  /** Journal replay. */
  function AlreadyPaid(hash: PlanHash, journal: seq<Record>): set<Wallet> {
    if journal == [] then {} else
      AlreadyPaid(hash, journal[..|journal| - 1]) + PaidBy(hash, journal[|journal| - 1])
  }

  predicate IsDust(e: Entry) {
    e.amount < MIN_PAYOUT_LAMPORTS
  }

  /** The work list: dust and already paid rows are left out. */
  function WorkList(plan: seq<Entry>, paid: set<Wallet>): seq<Entry> {
    if plan == [] then [] else
      var e := plan[|plan| - 1];
      var front := WorkList(plan[..|plan| - 1], paid);
      if IsDust(e) || e.wallet in paid then front else front + [e]
  }

  function Min(a: nat, b: nat): nat {
    if a < b then a else b
  }

  /** `work.slice(i, i + BATCH_SIZE)`, seen from the rest of the work. */
  function Batch(rest: seq<Entry>): (b: seq<Entry>)
    ensures |b| <= BATCH_SIZE
  {
    rest[..Min(BATCH_SIZE, |rest|)]
  }

  function Later(rest: seq<Entry>): seq<Entry> {
    rest[Min(BATCH_SIZE, |rest|)..]
  }

  /** One step. An event that does not apply in the current phase changes nothing. */
  function Step(plan: seq<Entry>, hash: PlanHash, s: State, ev: Event): State {
    match ev
    case Start(balance, execute) =>
      var work := WorkList(plan, AlreadyPaid(hash, s.journal));
      if s.phase.Idle? && work != [] && SumOf(work) + GAS_RESERVE_LAMPORTS <= balance && execute
      then s.(phase := Sending(work, 0, 0), journal := s.journal + [RunStarted(hash)])
      else s
    case SendConfirmed =>
      if s.phase.Sending? && s.phase.rest != []
      then s.(phase := Landed(s.phase.rest, s.phase.succeeded, s.phase.failed),
              chain := s.chain + Batch(s.phase.rest))
      else s
    case SendFailed =>
      if s.phase.Sending? && s.phase.rest != [] then LogFailure(hash, s) else s
    case SendUnclear =>
      if s.phase.Sending? && s.phase.rest != []
      then LogFailure(hash, s).(inflight := s.inflight + [Batch(s.phase.rest)], incidents := s.incidents + 1)
      else s
    case Append =>
      if s.phase.Landed? && s.phase.rest != []
      then
        var b := Batch(s.phase.rest);
        s.(phase := Sending(Later(s.phase.rest), s.phase.succeeded + |b|, s.phase.failed),
           journal := s.journal + [TransferConfirmed(hash, WalletList(b), AmountList(b))])
      else s
    case Finish =>
      if s.phase.Sending? && s.phase.rest == []
      then s.(phase := Idle, journal := s.journal + [RunCompleted(hash, s.phase.succeeded, s.phase.failed)])
      else s
    case Crash =>
      if s.phase.Landed?
      then s.(phase := Idle, unjournaled := s.unjournaled + 1, incidents := s.incidents + 1)
      else s.(phase := Idle)
    case CrashInFlight =>
      if s.phase.Sending? && s.phase.rest != []
      then s.(phase := Idle, inflight := s.inflight + [Batch(s.phase.rest)], incidents := s.incidents + 1)
      else s
    case LateLanding(i) =>
      if i < |s.inflight|
      then s.(chain := s.chain + s.inflight[i], inflight := Without(s.inflight, i), unjournaled := s.unjournaled + 1)
      else s
    case Expires(i) =>
      if i < |s.inflight| then s.(inflight := Without(s.inflight, i)) else s
    case ForeignLine(line) =>
      if s.phase.Idle? && (line.MalformedLine? || line.planHash != hash)
      then s.(journal := s.journal + [line])
      else s
  }

  function Without<T>(s: seq<T>, i: nat): (r: seq<T>)
    requires i < |s|
    ensures |r| == |s| - 1 && forall x :: x in r ==> x in s
  {
    s[..i] + s[i + 1..]
  }

  /** Logging a failed batch and moving on. */
  function LogFailure(hash: PlanHash, s: State): State
    requires s.phase.Sending?
  {
    var b := Batch(s.phase.rest);
    s.(phase := Sending(Later(s.phase.rest), s.phase.succeeded, s.phase.failed + |b|),
       journal := s.journal + [TransferFailed(hash, WalletList(b), AmountList(b))])
  }

  function Steps(plan: seq<Entry>, hash: PlanHash, s: State, evs: seq<Event>): State {
    if evs == [] then s
    else Step(plan, hash, Steps(plan, hash, s, evs[..|evs| - 1]), evs[|evs| - 1])
  }

  /** A plan nobody has started to pay; the journal may hold other plans' lines. */
  ghost predicate Fresh(hash: PlanHash, s: State) {
    s.phase.Idle? && AlreadyPaid(hash, s.journal) == {} && s.chain == [] && s.inflight == [] && s.unjournaled == 0
  }

  // ---- Small facts ----

  lemma AlreadyPaidSnoc(hash: PlanHash, journal: seq<Record>, r: Record)
    ensures AlreadyPaid(hash, journal + [r]) == AlreadyPaid(hash, journal) + PaidBy(hash, r)
  {
    assert (journal + [r])[..|journal|] == journal;
  }

  lemma {:induction false} WorkListMembers(plan: seq<Entry>, paid: set<Wallet>)
    ensures forall e :: e in WorkList(plan, paid) <==> e in plan && !IsDust(e) && e.wallet !in paid
  {
    if plan != [] {
      var front, last := plan[..|plan| - 1], plan[|plan| - 1];
      WorkListMembers(front, paid);
      assert plan == front + [last];
    }
  }

  /** The rows below 1000 lamports among the first `n`. */
  ghost function DustBefore(plan: seq<Entry>, n: nat): set<int> {
    set k | 0 <= k < n && k < |plan| && plan[k].amount < 1_000
  }

  lemma NoWorkYet(plan: seq<Entry>, paid: set<Wallet>)
    ensures WorkList(plan[..0], paid) == [] && SumOf([]) == 0
  {
  }

  lemma WorkNext(plan: seq<Entry>, paid: set<Wallet>, i: nat)
    requires i < |plan|
    ensures var work, e := WorkList(plan[..i], paid), plan[i];
            && WorkList(plan[..i + 1], paid) == (if e.amount < MIN_PAYOUT_LAMPORTS || e.wallet in paid then work else work + [e])
            && SumOf(work + [e]) == SumOf(work) + e.amount
  {
    assert plan[..i + 1][..i] == plan[..i];
    var work := WorkList(plan[..i], paid);
    assert (work + [plan[i]])[..|work|] == work;
  }

  lemma DustEnds(plan: seq<Entry>)
    ensures DustBefore(plan, 0) == {}
    ensures DustBefore(plan, |plan|) == set k | 0 <= k < |plan| && plan[k].amount < 1_000
  {
  }

  lemma DustNext(plan: seq<Entry>, i: nat)
    requires i < |plan|
    ensures DustBefore(plan, i + 1) == DustBefore(plan, i) + if plan[i].amount < 1_000 then {i} else {}
    ensures i !in DustBefore(plan, i)
  {
  }

  /** A row is sent if and only if it is worth at least 1000 lamports and not journaled. */
  lemma {:induction false} WorkIsOwed(plan: seq<Entry>, paid: set<Wallet>)
    ensures forall e :: e in WorkList(plan, paid) <==> e in plan && e.amount >= 1_000 && e.wallet !in paid
  {
    if plan != [] {
      var front, last := plan[..|plan| - 1], plan[|plan| - 1];
      assert plan == front + [last];
      WorkIsOwed(front, paid);
    }
  }

  lemma {:induction false} WorkListDistinct(plan: seq<Entry>, paid: set<Wallet>)
    requires DistinctKeys(plan)
    ensures DistinctKeys(WorkList(plan, paid))
  {
    if plan != [] {
      var front, last := plan[..|plan| - 1], plan[|plan| - 1];
      assert plan == front + [last];
      WorkListDistinct(front, paid);
      WorkListMembers(front, paid);
      assert forall e :: e in front ==> e.wallet != last.wallet;
    }
  }

  lemma {:induction false} DistinctCount(es: seq<Entry>)
    requires DistinctKeys(es)
    ensures |Wallets(es)| == |es|
  {
    if es != [] {
      var front, last := es[..|es| - 1], es[|es| - 1];
      DistinctCount(front);
      assert es == front + [last];
      assert Wallets(es) == Wallets(front) + {last.wallet};
    }
  }

  /** At most as many recipients as transfers; equal only without repetition. */
  lemma {:induction false} RecipientsCount(es: seq<Entry>)
    ensures |Wallets(es)| <= |es|
    ensures |Wallets(es)| == |es| ==> DistinctKeys(es)
  {
    if es != [] {
      var front, last := es[..|es| - 1], es[|es| - 1];
      RecipientsCount(front);
      assert es == front + [last];
      assert Wallets(es) == Wallets(front) + {last.wallet};
      if last.wallet in Wallets(front) {
        assert Wallets(es) == Wallets(front);
      } else {
        assert forall e :: e in front ==> e.wallet != last.wallet;
      }
    }
  }

  lemma ListedWallets(es: seq<Entry>)
    ensures Listed(WalletList(es)) == Wallets(es)
  {
    forall w | w in Wallets(es) ensures w in WalletList(es) {
      var e :| e in es && e.wallet == w;
      var k :| 0 <= k < |es| && es[k] == e;
      assert WalletList(es)[k] == w;
    }
  }

  /** A confirmed line marks exactly its batch as paid. */
  lemma ConfirmedLinePays(hash: PlanHash, journal: seq<Record>, b: seq<Entry>)
    ensures AlreadyPaid(hash, journal + [TransferConfirmed(hash, WalletList(b), AmountList(b))])
         == AlreadyPaid(hash, journal) + Wallets(b)
  {
    AlreadyPaidSnoc(hash, journal, TransferConfirmed(hash, WalletList(b), AmountList(b)));
    ListedWallets(b);
  }

  lemma NoWallets()
    ensures Wallets([]) == {}
  {
  }

  lemma WalletsConcat(a: seq<Entry>, b: seq<Entry>)
    ensures Wallets(a + b) == Wallets(a) + Wallets(b)
  {
  }

  // ---- The invariant of every reachable state ----

  /** What this run has not journaled yet. */
  function Remaining(p: Phase): seq<Entry> {
    if p.Idle? then [] else p.rest
  }

  /** The batch that is on chain but not yet in the journal. */
  function Pending(p: Phase): seq<Entry> {
    if p.Landed? then Batch(p.rest) else []
  }

  ghost predicate AllPayable(plan: seq<Entry>, es: seq<Entry>) {
    forall e :: e in es ==> e in plan && !IsDust(e)
  }

  /** The wallets with a row worth paying. */
  function PayableWallets(plan: seq<Entry>): set<Wallet> {
    set e | e in plan && !IsDust(e) :: e.wallet
  }

  /** The invariant on its parts: `paid` from the journal, `rest` still to do,
      `pending` landed but not journaled. */
  ghost predicate Core(plan: seq<Entry>, paid: set<Wallet>, rest: seq<Entry>, pending: seq<Entry>,
                       chain: seq<Entry>, unjournaled: nat) {
    && DistinctKeys(rest) && AllPayable(plan, rest) && Wallets(rest) !! paid
    && AllPayable(plan, chain)
    && paid + Wallets(pending) <= Wallets(chain)
    && |chain| <= |paid| + |pending| + BATCH_SIZE * unjournaled
  }

  ghost predicate Inv(plan: seq<Entry>, hash: PlanHash, s: State) {
    var paid, rest := AlreadyPaid(hash, s.journal), Remaining(s.phase);
    && Core(plan, paid, rest, Pending(s.phase), s.chain, s.unjournaled)
    && (s.phase.Landed? ==> s.phase.rest != [])
    && (!s.phase.Idle? && s.phase.failed == 0 ==> PayableWallets(plan) <= paid + Wallets(rest))
  }

  /** What may still land is payable and at most a batch, and nothing lands late that
      was not part of an incident. */
  ghost predicate Flights(plan: seq<Entry>, s: State) {
    && (forall b :: b in s.inflight ==> b != [] && |b| <= BATCH_SIZE && AllPayable(plan, b))
    && s.unjournaled + |s.inflight| <= s.incidents
  }

  lemma AllPayableConcat(plan: seq<Entry>, a: seq<Entry>, b: seq<Entry>)
    ensures AllPayable(plan, a + b) <==> AllPayable(plan, a) && AllPayable(plan, b)
  {
    if AllPayable(plan, a + b) {
      assert forall e :: e in a ==> e in a + b;
      assert forall e :: e in b ==> e in a + b;
    }
  }

  lemma BatchPartition(rest: seq<Entry>)
    ensures rest == Batch(rest) + Later(rest)
    ensures Wallets(rest) == Wallets(Batch(rest)) + Wallets(Later(rest))
  {
    assert rest == Batch(rest) + Later(rest);
    WalletsConcat(Batch(rest), Later(rest));
  }

  lemma BatchDisjoint(rest: seq<Entry>)
    requires DistinctKeys(rest)
    ensures DistinctKeys(Batch(rest)) && DistinctKeys(Later(rest))
    ensures Wallets(Batch(rest)) !! Wallets(Later(rest))
  {
    var b, later := Batch(rest), Later(rest);
    forall i, j | 0 <= i < |b| && 0 <= j < |later| ensures b[i].wallet != later[j].wallet {
      assert rest[|b| + j] == later[j];
    }
  }

  /** A duplicate-free work list falls into its front batch and the rest. */
  lemma BatchSplits(plan: seq<Entry>, rest: seq<Entry>)
    requires DistinctKeys(rest) && AllPayable(plan, rest)
    ensures DistinctKeys(Later(rest)) && AllPayable(plan, Batch(rest)) && AllPayable(plan, Later(rest))
    ensures Wallets(rest) == Wallets(Batch(rest)) + Wallets(Later(rest))
    ensures Wallets(Batch(rest)) !! Wallets(Later(rest))
    ensures |Wallets(Batch(rest))| == |Batch(rest)|
  {
    BatchPartition(rest);
    BatchDisjoint(rest);
    DistinctCount(Batch(rest));
    AllPayableConcat(plan, Batch(rest), Later(rest));
  }

  lemma WorkListWallets(plan: seq<Entry>, paid: set<Wallet>)
    requires DistinctKeys(plan)
    ensures var work := WorkList(plan, paid);
            && DistinctKeys(work) && AllPayable(plan, work)
            && Wallets(work) == PayableWallets(plan) - paid
  {
    WorkListMembers(plan, paid);
    WorkListDistinct(plan, paid);
    hide WorkList;
  }

  /** Putting a batch on chain. */
  lemma LandingKeeps(plan: seq<Entry>, chain: seq<Entry>, b: seq<Entry>)
    requires AllPayable(plan, b) && AllPayable(plan, chain)
    ensures AllPayable(plan, chain + b)
    ensures Wallets(chain + b) == Wallets(chain) + Wallets(b)
  {
    AllPayableConcat(plan, chain, b);
    WalletsConcat(chain, b);
  }

  lemma SetStep<T>(paid: set<T>, b: set<T>, later: set<T>)
    requires paid !! b + later && b !! later
    ensures later !! paid + b
    ensures |paid + b| == |paid| + |b|
    ensures paid + b + later == paid + (b + later)
  {
    assert paid * b == {};
  }

  /** The front batch lands; its journal line is still to come. */
  lemma BatchLands(plan: seq<Entry>, paid: set<Wallet>, rest: seq<Entry>, chain: seq<Entry>, unjournaled: nat)
    requires Core(plan, paid, rest, [], chain, unjournaled)
    ensures Core(plan, paid, rest, Batch(rest), chain + Batch(rest), unjournaled)
  {
    BatchSplits(plan, rest);
    LandingKeeps(plan, chain, Batch(rest));
    hide Wallets, Batch, Later, DistinctKeys, AllPayable;
  }

  /** The front batch is given up without landing. */
  lemma BatchDropped(plan: seq<Entry>, paid: set<Wallet>, rest: seq<Entry>, chain: seq<Entry>, unjournaled: nat)
    requires Core(plan, paid, rest, [], chain, unjournaled)
    ensures Core(plan, paid, Later(rest), [], chain, unjournaled)
  {
    BatchSplits(plan, rest);
    hide Wallets, Batch, Later, DistinctKeys, AllPayable;
  }

  /** An earlier batch lands after all. */
  lemma BatchLandsLate(plan: seq<Entry>, paid: set<Wallet>, rest: seq<Entry>, pending: seq<Entry>,
                       chain: seq<Entry>, unjournaled: nat, b: seq<Entry>)
    requires Core(plan, paid, rest, pending, chain, unjournaled) && AllPayable(plan, b) && |b| <= BATCH_SIZE
    ensures Core(plan, paid, rest, pending, chain + b, unjournaled + 1)
  {
    LandingKeeps(plan, chain, b);
    hide Wallets, DistinctKeys, AllPayable;
  }

  lemma BatchJournaled(plan: seq<Entry>, paid: set<Wallet>, rest: seq<Entry>, chain: seq<Entry>, unjournaled: nat)
    requires Core(plan, paid, rest, Batch(rest), chain, unjournaled)
    ensures Core(plan, paid + Wallets(Batch(rest)), Later(rest), [], chain, unjournaled)
    ensures paid + Wallets(Batch(rest)) + Wallets(Later(rest)) == paid + Wallets(rest)
  {
    BatchSplits(plan, rest);
    NoWallets();
    hide Wallets, Batch, Later, DistinctKeys, AllPayable;
    SetStep(paid, Wallets(Batch(rest)), Wallets(Later(rest)));
  }

  /** A run ends; a batch that landed unjournaled is counted. */
  lemma RunEnds(plan: seq<Entry>, paid: set<Wallet>, rest: seq<Entry>, pending: seq<Entry>, chain: seq<Entry>, unjournaled: nat)
    requires Core(plan, paid, rest, pending, chain, unjournaled) && |pending| <= BATCH_SIZE
    ensures Core(plan, paid, [], [], chain, if pending == [] then unjournaled else unjournaled + 1)
  {
    NoWallets();
    hide Wallets;
  }

  /** A run starts exactly when there is work, the balance covers it and the reserve,
      and the run is not a dry one. */
  lemma StartsIff(plan: seq<Entry>, hash: PlanHash, s: State, balance: nat, execute: bool)
    requires s.phase.Idle?
    ensures var work := WorkList(plan, AlreadyPaid(hash, s.journal));
            var s' := Step(plan, hash, s, Start(balance, execute));
            && (s' != s <==> execute && SumOf(work) + 10_000_000 <= balance
                             && exists e :: e in plan && e.amount >= 1_000 && e.wallet !in AlreadyPaid(hash, s.journal))
            && (s' != s ==> s' == s.(phase := Sending(work, 0, 0), journal := s.journal + [RunStarted(hash)]))
  {
    hide AlreadyPaid, SumOf;
    var work := WorkList(plan, AlreadyPaid(hash, s.journal));
    WorkIsOwed(plan, AlreadyPaid(hash, s.journal));
    assert work != [] ==> work[0] in work;
    hide WorkList;
  }

  lemma StartKeepsInv(plan: seq<Entry>, hash: PlanHash, s: State, ev: Event)
    requires DistinctKeys(plan) && Inv(plan, hash, s) && ev.Start?
    ensures Inv(plan, hash, Step(plan, hash, s, ev))
  {
    AlreadyPaidSnoc(hash, s.journal, RunStarted(hash));
    WorkListWallets(plan, AlreadyPaid(hash, s.journal));
    hide WorkList, AlreadyPaid, Wallets, DistinctKeys, AllPayable, PayableWallets;
  }

  lemma SendKeepsInv(plan: seq<Entry>, hash: PlanHash, s: State, ev: Event)
    requires Inv(plan, hash, s) && (ev.SendConfirmed? || ev.SendFailed? || ev.SendUnclear?)
    ensures Inv(plan, hash, Step(plan, hash, s, ev))
  {
    hide AlreadyPaid, WorkList, Core, Wallets, PayableWallets, Later, WalletList, AmountList;
    if s.phase.Sending? && s.phase.rest != [] {
      var rest := s.phase.rest;
      var b := Batch(rest);
      var paid := AlreadyPaid(hash, s.journal);
      match ev {
        case SendConfirmed => BatchLands(plan, paid, rest, s.chain, s.unjournaled);
        case SendFailed => BatchDropped(plan, paid, rest, s.chain, s.unjournaled);
        case SendUnclear => BatchDropped(plan, paid, rest, s.chain, s.unjournaled);
      }
      var line := TransferFailed(hash, WalletList(b), AmountList(b));
      AlreadyPaidSnoc(hash, s.journal, line);
      assert AlreadyPaid(hash, s.journal + [line]) == paid;
    }
  }

  lemma AppendKeepsInv(plan: seq<Entry>, hash: PlanHash, s: State)
    requires Inv(plan, hash, s)
    ensures Inv(plan, hash, Step(plan, hash, s, Append))
  {
    if s.phase.Landed? && s.phase.rest != [] {
      hide AlreadyPaid, WorkList, Core, Wallets, PayableWallets, Later, WalletList, AmountList;
      var rest, s' := s.phase.rest, Step(plan, hash, s, Append);
      BatchJournaled(plan, AlreadyPaid(hash, s.journal), rest, s.chain, s.unjournaled);
      ConfirmedLinePays(hash, s.journal, Batch(rest));
      assert AlreadyPaid(hash, s'.journal) == AlreadyPaid(hash, s.journal) + Wallets(Batch(rest));
      assert Remaining(s'.phase) == Later(rest) && Pending(s'.phase) == [];
      assert s'.chain == s.chain && s'.unjournaled == s.unjournaled && s'.phase.failed == s.phase.failed;
    }
  }

  lemma OtherKeepsInv(plan: seq<Entry>, hash: PlanHash, s: State, ev: Event)
    requires Inv(plan, hash, s) && (ev.Finish? || ev.Crash? || ev.CrashInFlight? || ev.ForeignLine?)
    ensures Inv(plan, hash, Step(plan, hash, s, ev))
  {
    hide AlreadyPaid, WorkList, Wallets, Core, PayableWallets, Later;
    RunEnds(plan, AlreadyPaid(hash, s.journal), Remaining(s.phase), Pending(s.phase), s.chain, s.unjournaled);
    var line := if ev.ForeignLine? then ev.line
                else if s.phase.Sending? then RunCompleted(hash, s.phase.succeeded, s.phase.failed)
                else MalformedLine;
    AlreadyPaidSnoc(hash, s.journal, line);
    assert s.phase.Landed? ==> |Pending(s.phase)| > 0;
    var s' := Step(plan, hash, s, ev);
    assert s' == s || AlreadyPaid(hash, s'.journal) == AlreadyPaid(hash, s.journal);
  }

  lemma LateKeepsInv(plan: seq<Entry>, hash: PlanHash, s: State, ev: Event)
    requires Inv(plan, hash, s) && Flights(plan, s) && (ev.LateLanding? || ev.Expires?)
    ensures Inv(plan, hash, Step(plan, hash, s, ev))
  {
    hide AlreadyPaid, WorkList, Wallets, Core, PayableWallets, Later, AllPayable, Without;
    if ev.LateLanding? && ev.index < |s.inflight| {
      assert s.inflight[ev.index] in s.inflight;
      BatchLandsLate(plan, AlreadyPaid(hash, s.journal), Remaining(s.phase), Pending(s.phase), s.chain,
                     s.unjournaled, s.inflight[ev.index]);
    }
  }

  lemma FrontBatch(plan: seq<Entry>, rest: seq<Entry>)
    requires AllPayable(plan, rest) && rest != []
    ensures Batch(rest) != [] && |Batch(rest)| <= BATCH_SIZE && AllPayable(plan, Batch(rest))
  {
    assert forall e :: e in Batch(rest) ==> e in rest;
  }

  lemma StepKeepsFlights(plan: seq<Entry>, hash: PlanHash, s: State, ev: Event)
    requires Inv(plan, hash, s) && Flights(plan, s)
    ensures Flights(plan, Step(plan, hash, s, ev))
  {
    hide AlreadyPaid, WorkList, Wallets, PayableWallets, Later, AllPayable, Batch, WalletList, AmountList, Without, DistinctKeys;
    if s.phase.Sending? && s.phase.rest != [] {
      FrontBatch(plan, s.phase.rest);
    }
  }

  lemma {:induction false} StepsKeepInv(plan: seq<Entry>, hash: PlanHash, s: State, evs: seq<Event>)
    requires DistinctKeys(plan) && Inv(plan, hash, s) && Flights(plan, s)
    ensures Inv(plan, hash, Steps(plan, hash, s, evs)) && Flights(plan, Steps(plan, hash, s, evs))
    decreases |evs|
  {
    hide Inv, Step, Flights;
    if evs != [] {
      var front, ev := evs[..|evs| - 1], evs[|evs| - 1];
      StepsKeepInv(plan, hash, s, front);
      var t := Steps(plan, hash, s, front);
      StepKeepsFlights(plan, hash, t, ev);
      match ev
      case Start(_, _) => StartKeepsInv(plan, hash, t, ev);
      case SendConfirmed => SendKeepsInv(plan, hash, t, ev);
      case SendFailed => SendKeepsInv(plan, hash, t, ev);
      case SendUnclear => SendKeepsInv(plan, hash, t, ev);
      case Append => AppendKeepsInv(plan, hash, t);
      case Finish => OtherKeepsInv(plan, hash, t, ev);
      case Crash => OtherKeepsInv(plan, hash, t, ev);
      case CrashInFlight => OtherKeepsInv(plan, hash, t, ev);
      case LateLanding(_) => LateKeepsInv(plan, hash, t, ev);
      case Expires(_) => LateKeepsInv(plan, hash, t, ev);
      case ForeignLine(_) => OtherKeepsInv(plan, hash, t, ev);
    }
  }

  lemma ReachableInv(plan: seq<Entry>, hash: PlanHash, start: State, evs: seq<Event>)
    requires DistinctKeys(plan) && Fresh(hash, start)
    ensures Inv(plan, hash, Steps(plan, hash, start, evs)) && Flights(plan, Steps(plan, hash, start, evs))
  {
    StepsKeepInv(plan, hash, start, evs);
  }

  // ---- What holds over any number of runs, failures, stops and crashes ----

  /** Transfers beyond one per recipient number at most ten for each batch that
      landed without a confirmed line; there are no more of these, landed or still to
      land, than crashes and unclear sends; every transfer pays a planned amount. */
  lemma ExcessBounded(plan: seq<Entry>, hash: PlanHash, start: State, evs: seq<Event>)
    requires DistinctKeys(plan) && Fresh(hash, start)
    ensures var s := Steps(plan, hash, start, evs);
            && |s.chain| - |Wallets(s.chain)| <= BATCH_SIZE * s.unjournaled
            && s.unjournaled + |s.inflight| <= s.incidents
            && forall t :: t in s.chain ==> t in plan && t.amount >= MIN_PAYOUT_LAMPORTS
  {
    ReachableInv(plan, hash, start, evs);
    var s := Steps(plan, hash, start, evs);
    CoreExcess(plan, AlreadyPaid(hash, s.journal), Remaining(s.phase), Pending(s.phase), s.chain, s.unjournaled);
  }

  lemma CoreExcess(plan: seq<Entry>, paid: set<Wallet>, rest: seq<Entry>, pending: seq<Entry>,
                   chain: seq<Entry>, unjournaled: nat)
    requires Core(plan, paid, rest, pending, chain, unjournaled)
    requires pending == [] || pending == Batch(rest)
    ensures |paid + Wallets(pending)| == |paid| + |pending|
    ensures |chain| - |Wallets(chain)| <= BATCH_SIZE * unjournaled
  {
    BatchSplits(plan, rest);
    NoWallets();
    hide Wallets, Batch, Later;
    SetStep(paid, Wallets(pending), {});
    SubsetCount(paid + Wallets(pending), Wallets(chain));
  }

  lemma SubsetCount<T>(a: set<T>, b: set<T>)
    requires a <= b
    ensures |a| <= |b|
    ensures |a| == |b| ==> a == b
  {
    assert b == a + (b - a);
  }

  /** With no such batch, the wallets paid are exactly the journaled ones (plus
      the batch inside the gap, if the executor stands there), each paid once. */
  lemma PaidIsJournaled(plan: seq<Entry>, hash: PlanHash, start: State, evs: seq<Event>)
    requires DistinctKeys(plan) && Fresh(hash, start)
    requires Steps(plan, hash, start, evs).unjournaled == 0
    ensures var s := Steps(plan, hash, start, evs);
            && Wallets(s.chain) == AlreadyPaid(hash, s.journal) + Wallets(Pending(s.phase))
            && DistinctKeys(s.chain)
  {
    ReachableInv(plan, hash, start, evs);
    PaidOnce(plan, hash, Steps(plan, hash, start, evs));
  }

  lemma PaidOnce(plan: seq<Entry>, hash: PlanHash, s: State)
    requires Inv(plan, hash, s) && s.unjournaled == 0
    ensures Wallets(s.chain) == AlreadyPaid(hash, s.journal) + Wallets(Pending(s.phase))
    ensures DistinctKeys(s.chain)
  {
    var paid, pending := AlreadyPaid(hash, s.journal), Pending(s.phase);
    CoreExcess(plan, paid, Remaining(s.phase), pending, s.chain, s.unjournaled);
    hide Wallets;
    SubsetCount(paid + Wallets(pending), Wallets(s.chain));
    RecipientsCount(s.chain);
  }

  /** A run about to report zero failures has reached every payable row: each is
      journaled and on chain, exactly once if no batch ever went unjournaled. */
  lemma CleanRunPaysAll(plan: seq<Entry>, hash: PlanHash, start: State, evs: seq<Event>)
    requires DistinctKeys(plan) && Fresh(hash, start)
    requires var p := Steps(plan, hash, start, evs).phase; p.Sending? && p.rest == [] && p.failed == 0
    ensures var s := Steps(plan, hash, start, evs);
            && AlreadyPaid(hash, s.journal) == Wallets(s.chain) == PayableWallets(plan)
            && (s.unjournaled == 0 ==> DistinctKeys(s.chain))
  {
    ReachableInv(plan, hash, start, evs);
    var s := Steps(plan, hash, start, evs);
    ChainIsPayable(plan, s.chain);
    NoWallets();
    hide Wallets, PayableWallets;
    if s.unjournaled == 0 {
      PaidIsJournaled(plan, hash, start, evs);
    }
  }

  /** In terms of the plan's rows: each row of at least 1000 lamports is on chain with
      that amount and its wallet in the journal; no other row is on chain. */
  lemma CleanRunPaysRows(plan: seq<Entry>, hash: PlanHash, start: State, evs: seq<Event>)
    requires DistinctKeys(plan) && Fresh(hash, start)
    requires var p := Steps(plan, hash, start, evs).phase; p.Sending? && p.rest == [] && p.failed == 0
    ensures var s := Steps(plan, hash, start, evs);
            && (forall e :: e in plan && e.amount >= 1_000 ==> e in s.chain && e.wallet in AlreadyPaid(hash, s.journal))
            && (forall e :: e in s.chain ==> e in plan && e.amount >= 1_000)
  {
    CleanRunPaysAll(plan, hash, start, evs);
    ExcessBounded(plan, hash, start, evs);
    hide Steps, AlreadyPaid;
    var s := Steps(plan, hash, start, evs);
    forall e | e in plan && e.amount >= 1_000 ensures e in s.chain && e.wallet in AlreadyPaid(hash, s.journal) {
      assert e.wallet in PayableWallets(plan);
      var t :| t in s.chain && t.wallet == e.wallet;
      SameRow(plan, e, t);
    }
  }

  lemma SameRow(plan: seq<Entry>, a: Entry, b: Entry)
    requires DistinctKeys(plan) && a in plan && b in plan && a.wallet == b.wallet
    ensures a == b
  {
  }

  lemma ChainIsPayable(plan: seq<Entry>, chain: seq<Entry>)
    requires AllPayable(plan, chain)
    ensures Wallets(chain) <= PayableWallets(plan)
  {
  }

  // ---- What the journal says about the chain ----

  /** A confirmed line of this plan names transfers that are on chain; a failed one,
      rows of the plan. */
  predicate TrueLine(plan: seq<Entry>, hash: PlanHash, r: Record, chain: seq<Entry>) {
    && (r.TransferConfirmed? && r.planHash == hash ==>
          |r.recipients| == |r.amounts| && forall k :: 0 <= k < |r.recipients| ==> Entry(r.recipients[k], r.amounts[k]) in chain)
    && (r.TransferFailed? && r.planHash == hash ==>
          |r.recipients| == |r.amounts| && forall k :: 0 <= k < |r.recipients| ==> Entry(r.recipients[k], r.amounts[k]) in plan)
  }

  /** All lines from the `n`-th on are true, and a batch in the gap is on chain. */
  ghost predicate TrueSince(plan: seq<Entry>, hash: PlanHash, s: State, n: nat) {
    && n <= |s.journal|
    && (forall k :: n <= k < |s.journal| ==> TrueLine(plan, hash, s.journal[k], s.chain))
    && (forall e :: e in Pending(s.phase) ==> e in s.chain)
  }

  lemma LineOfBatch(plan: seq<Entry>, hash: PlanHash, b: seq<Entry>, chain: seq<Entry>)
    ensures (forall e :: e in b ==> e in chain) ==>
              TrueLine(plan, hash, TransferConfirmed(hash, WalletList(b), AmountList(b)), chain)
    ensures (forall e :: e in b ==> e in plan) ==>
              TrueLine(plan, hash, TransferFailed(hash, WalletList(b), AmountList(b)), chain)
  {
    assert forall k :: 0 <= k < |b| ==> Entry(WalletList(b)[k], AmountList(b)[k]) == b[k] && b[k] in b;
  }

  lemma TrueLineStays(plan: seq<Entry>, hash: PlanHash, r: Record, chain: seq<Entry>, more: seq<Entry>)
    requires TrueLine(plan, hash, r, chain)
    ensures TrueLine(plan, hash, r, chain + more)
  {
    assert forall e :: e in chain ==> e in chain + more;
  }

  lemma StepKeepsTruth(plan: seq<Entry>, hash: PlanHash, s: State, ev: Event, n: nat)
    requires Inv(plan, hash, s) && TrueSince(plan, hash, s, n)
    ensures TrueSince(plan, hash, Step(plan, hash, s, ev), n)
  {
    hide AlreadyPaid, WorkList, WalletList, AmountList, TrueLine, Core, Without;
    var s' := Step(plan, hash, s, ev);
    var b := if s.phase.Idle? then [] else Batch(s.phase.rest);
    BatchOfPlan(plan, hash, s);
    LineOfBatch(plan, hash, b, s.chain);
    OtherLines(plan, hash, s'.chain);
    assert s.chain <= s'.chain;
    var more := s'.chain[|s.chain|..];
    assert s'.chain == s.chain + more;
    forall k | n <= k < |s'.journal| ensures TrueLine(plan, hash, s'.journal[k], s'.chain) {
      if k < |s.journal| {
        assert s'.journal[k] == s.journal[k];
        TrueLineStays(plan, hash, s.journal[k], s.chain, more);
      }
    }
  }

  lemma BatchOfPlan(plan: seq<Entry>, hash: PlanHash, s: State)
    requires Inv(plan, hash, s)
    ensures !s.phase.Idle? ==> forall e :: e in Batch(s.phase.rest) ==> e in plan
  {
    if !s.phase.Idle? {
      assert forall e :: e in Batch(s.phase.rest) ==> e in s.phase.rest;
    }
  }

  lemma OtherLines(plan: seq<Entry>, hash: PlanHash, chain: seq<Entry>)
    ensures forall r: Record :: !r.TransferConfirmed? && !r.TransferFailed? ==> TrueLine(plan, hash, r, chain)
    ensures forall r: Record :: !r.MalformedLine? && r.planHash != hash ==> TrueLine(plan, hash, r, chain)
  {
  }

  /** Whatever happens, each line written for this plan is true: what a confirmed line
      names was transferred, amount by amount. */
  lemma {:induction false} JournalIsTrue(plan: seq<Entry>, hash: PlanHash, start: State, evs: seq<Event>)
    requires DistinctKeys(plan) && Fresh(hash, start)
    ensures TrueSince(plan, hash, Steps(plan, hash, start, evs), |start.journal|)
    decreases |evs|
  {
    hide Step, Inv, TrueLine, AlreadyPaid;
    if evs != [] {
      JournalIsTrue(plan, hash, start, evs[..|evs| - 1]);
      ReachableInv(plan, hash, start, evs[..|evs| - 1]);
      StepKeepsTruth(plan, hash, Steps(plan, hash, start, evs[..|evs| - 1]), evs[|evs| - 1], |start.journal|);
    }
  }

  // ---- Conservation ----

  function DustSkipped(plan: seq<Entry>): nat {
    if plan == [] then 0 else
      DustSkipped(plan[..|plan| - 1]) + if IsDust(plan[|plan| - 1]) then plan[|plan| - 1].amount else 0
  }

  /** Payable lamports of the rows whose wallet is, or is not, among `ws`. */
  function RowsSum(plan: seq<Entry>, ws: set<Wallet>, inside: bool): nat {
    if plan == [] then 0 else
      var e := plan[|plan| - 1];
      RowsSum(plan[..|plan| - 1], ws, inside) + if !IsDust(e) && (e.wallet in ws) == inside then e.amount else 0
  }

  function Outstanding(plan: seq<Entry>, paid: set<Wallet>): nat {
    RowsSum(plan, paid, false)
  }

  lemma {:induction false} PlanPartition(plan: seq<Entry>, ws: set<Wallet>)
    ensures SumOf(plan) == DustSkipped(plan) + RowsSum(plan, ws, true) + RowsSum(plan, ws, false)
  {
    if plan != [] {
      PlanPartition(plan[..|plan| - 1], ws);
    }
  }

  lemma {:induction false} RowsSumUnchanged(plan: seq<Entry>, ws: set<Wallet>, w: Wallet)
    requires forall e :: e in plan ==> e.wallet != w
    ensures RowsSum(plan, ws + {w}, true) == RowsSum(plan, ws, true)
  {
    if plan != [] {
      assert plan[|plan| - 1] in plan;
      assert forall e :: e in plan[..|plan| - 1] ==> e in plan;
      RowsSumUnchanged(plan[..|plan| - 1], ws, w);
    }
  }

  lemma {:induction false} RowsSumAdds(plan: seq<Entry>, ws: set<Wallet>, e: Entry)
    requires DistinctKeys(plan) && e in plan && !IsDust(e) && e.wallet !in ws
    ensures RowsSum(plan, ws + {e.wallet}, true) == RowsSum(plan, ws, true) + e.amount
  {
    var front, last := plan[..|plan| - 1], plan[|plan| - 1];
    assert plan == front + [last];
    assert forall d :: d in front ==> d.wallet != last.wallet;
    if e == last {
      RowsSumUnchanged(front, ws, e.wallet);
    } else {
      RowsSumAdds(front, ws, e);
      assert last.wallet != e.wallet;
    }
  }

  /** What the chain paid is what the plan owes to the wallets it paid. */
  lemma {:induction false} ChainSum(plan: seq<Entry>, chain: seq<Entry>)
    requires DistinctKeys(plan) && DistinctKeys(chain) && AllPayable(plan, chain)
    ensures SumOf(chain) == RowsSum(plan, Wallets(chain), true)
    decreases |chain|
  {
    if chain == [] {
      NothingInside(plan);
      NoWallets();
    } else {
      var front, last := chain[..|chain| - 1], chain[|chain| - 1];
      assert chain == front + [last];
      AllPayableConcat(plan, front, [last]);
      ChainSum(plan, front);
      WalletsConcat(front, [last]);
      assert Wallets([last]) == {last.wallet};
      assert forall d :: d in front ==> d.wallet != last.wallet;
      assert last in chain;
      RowsSumAdds(plan, Wallets(front), last);
    }
  }

  lemma {:induction false} NothingInside(plan: seq<Entry>)
    ensures RowsSum(plan, {}, true) == 0
  {
    if plan != [] {
      NothingInside(plan[..|plan| - 1]);
    }
  }

  /** With no unjournaled batch, every lamport of the plan is paid, dust that is
      never sent, or still outstanding, in every reachable state. */
  lemma PlanIsConserved(plan: seq<Entry>, hash: PlanHash, start: State, evs: seq<Event>)
    requires DistinctKeys(plan) && Fresh(hash, start)
    requires Steps(plan, hash, start, evs).unjournaled == 0
    ensures var s := Steps(plan, hash, start, evs);
            SumOf(plan) == SumOf(s.chain) + DustSkipped(plan) + Outstanding(plan, Wallets(s.chain))
  {
    ReachableInv(plan, hash, start, evs);
    PaidIsJournaled(plan, hash, start, evs);
    var chain := Steps(plan, hash, start, evs).chain;
    ChainSum(plan, chain);
    PlanPartition(plan, Wallets(chain));
  }

  // ---- Exactly when a rerun pays nobody twice ----

  /** Send and journal every remaining batch without incident. */
  function PayAll(plan: seq<Entry>, hash: PlanHash, s: State): State
    decreases |Remaining(s.phase)|
  {
    if s.phase.Sending? && s.phase.rest != []
    then PayAll(plan, hash, Step(plan, hash, Step(plan, hash, s, SendConfirmed), Append))
    else s
  }

  /** A whole run in which nothing goes wrong. */
  function SmoothRun(plan: seq<Entry>, hash: PlanHash, s: State, balance: nat): State {
    Step(plan, hash, PayAll(plan, hash, Step(plan, hash, s, Start(balance, true))), Finish)
  }

  /** A smooth run is one of the event sequences the theorems range over. */
  lemma {:induction false} PayAllIsSteps(plan: seq<Entry>, hash: PlanHash, s: State) returns (evs: seq<Event>)
    ensures PayAll(plan, hash, s) == Steps(plan, hash, s, evs)
    decreases |Remaining(s.phase)|
  {
    if s.phase.Sending? && s.phase.rest != [] {
      var s' := Step(plan, hash, Step(plan, hash, s, SendConfirmed), Append);
      var later := PayAllIsSteps(plan, hash, s');
      evs := [SendConfirmed, Append] + later;
      hide Step;
      StepsConcat(plan, hash, s, [SendConfirmed, Append], later);
      StepsTwo(plan, hash, s, SendConfirmed, Append);
    } else {
      evs := [];
    }
  }

  lemma StepsTwo(plan: seq<Entry>, hash: PlanHash, s: State, a: Event, b: Event)
    ensures Steps(plan, hash, s, [a, b]) == Step(plan, hash, Step(plan, hash, s, a), b)
  {
    hide Step;
    assert [a, b][..1] == [a] && [a][..0] == [];
    assert Steps(plan, hash, s, [a]) == Step(plan, hash, s, a);
  }

  lemma {:induction false} StepsConcat(plan: seq<Entry>, hash: PlanHash, s: State, a: seq<Event>, b: seq<Event>)
    ensures Steps(plan, hash, s, a + b) == Steps(plan, hash, Steps(plan, hash, s, a), b)
    decreases |b|
  {
    hide Step;
    if b == [] {
      assert a + b == a;
    } else {
      StepsConcat(plan, hash, s, a, b[..|b| - 1]);
      assert (a + b)[..|a + b| - 1] == a + b[..|b| - 1];
    }
  }

  lemma {:induction false} PayAllEffect(plan: seq<Entry>, hash: PlanHash, s: State)
    requires s.phase.Sending?
    ensures var s' := PayAll(plan, hash, s);
            && s'.chain == s.chain + s.phase.rest
            && s'.phase == Sending([], s.phase.succeeded + |s.phase.rest|, s.phase.failed)
            && AlreadyPaid(hash, s'.journal) == AlreadyPaid(hash, s.journal) + Wallets(s.phase.rest)
    decreases |s.phase.rest|
  {
    hide AlreadyPaid, Wallets, WorkList, WalletList, AmountList;
    var rest := s.phase.rest;
    if rest == [] {
      NoWallets();
      assert s.chain + rest == s.chain;
    } else {
      var s' := Step(plan, hash, Step(plan, hash, s, SendConfirmed), Append);
      ConfirmedLinePays(hash, s.journal, Batch(rest));
      BatchPartition(rest);
      PayAllEffect(plan, hash, s');
      assert s.chain + rest == s.chain + Batch(rest) + Later(rest);
    }
  }

  lemma {:induction false} DistinctConcat(a: seq<Entry>, b: seq<Entry>)
    ensures DistinctKeys(a + b) <==> DistinctKeys(a) && DistinctKeys(b) && Wallets(a) !! Wallets(b)
  {
    var c := a + b;
    if DistinctKeys(c) {
      assert forall i :: 0 <= i < |a| ==> c[i] == a[i];
      assert forall j :: 0 <= j < |b| ==> c[|a| + j] == b[j];
      forall x, y | x in a && y in b ensures x.wallet != y.wallet {
        var i :| 0 <= i < |a| && a[i] == x;
        var j :| 0 <= j < |b| && b[j] == y;
        assert c[i] == x && c[|a| + j] == y && i < |a| + j < |c|;
      }
    }
    if DistinctKeys(a) && DistinctKeys(b) && Wallets(a) !! Wallets(b) {
      forall i, j | 0 <= i < j < |c| ensures c[i].wallet != c[j].wallet {
        if j < |a| {
          assert c[i] == a[i] && c[j] == a[j];
        } else if i < |a| {
          assert c[i] == a[i] && c[j] == b[j - |a|] && a[i] in a && b[j - |a|] in b;
          assert a[i].wallet in Wallets(a) && b[j - |a|].wallet in Wallets(b);
        } else {
          assert c[i] == b[i - |a|] && c[j] == b[j - |a|];
        }
      }
    }
  }

  /** From any reachable idle state, a smooth rerun completes the plan, and it
      pays nobody twice if and only if nobody was paid twice before and every
      wallet already on chain is in the journal. */
  lemma RerunSafeIff(plan: seq<Entry>, hash: PlanHash, start: State, evs: seq<Event>, balance: nat)
    requires DistinctKeys(plan) && Fresh(hash, start)
    requires Steps(plan, hash, start, evs).phase.Idle?
    requires balance >= SumOf(WorkList(plan, AlreadyPaid(hash, Steps(plan, hash, start, evs).journal)))
                        + GAS_RESERVE_LAMPORTS
    ensures var s := Steps(plan, hash, start, evs);
            var s' := SmoothRun(plan, hash, s, balance);
            && Wallets(s'.chain) == PayableWallets(plan)
            && (DistinctKeys(s'.chain) <==> DistinctKeys(s.chain) && Wallets(s.chain) == AlreadyPaid(hash, s.journal))
  {
    hide Wallets, WorkList, PayableWallets, AlreadyPaid, DistinctKeys, SmoothRun, Steps, Inv, AllPayable, SumOf;
    ReachableInv(plan, hash, start, evs);
    var s := Steps(plan, hash, start, evs);
    var paid := AlreadyPaid(hash, s.journal);
    var work := WorkList(plan, paid);
    WorkListWallets(plan, paid);
    ChainOfInv(plan, hash, s);
    ChainIsPayable(plan, s.chain);
    SmoothRunEffect(plan, hash, s, balance);
    WalletsConcat(s.chain, work);
    DistinctConcat(s.chain, work);
  }

  lemma ChainOfInv(plan: seq<Entry>, hash: PlanHash, s: State)
    requires Inv(plan, hash, s)
    ensures AllPayable(plan, s.chain) && AlreadyPaid(hash, s.journal) <= Wallets(s.chain)
  {
    hide AllPayable, AlreadyPaid, Wallets, DistinctKeys;
  }

  lemma SmoothRunEffect(plan: seq<Entry>, hash: PlanHash, s: State, balance: nat)
    requires s.phase.Idle?
    requires balance >= SumOf(WorkList(plan, AlreadyPaid(hash, s.journal))) + GAS_RESERVE_LAMPORTS
    ensures SmoothRun(plan, hash, s, balance).chain == s.chain + WorkList(plan, AlreadyPaid(hash, s.journal))
  {
    hide PayAll, WorkList, AlreadyPaid;
    var work := WorkList(plan, AlreadyPaid(hash, s.journal));
    var s1 := Step(plan, hash, s, Start(balance, true));
    if work == [] {
      PayAllIdle(plan, hash, s);
      assert s.chain + work == s.chain;
    } else {
      PayAllEffect(plan, hash, s1);
    }
  }

  lemma PayAllIdle(plan: seq<Entry>, hash: PlanHash, s: State)
    requires s.phase.Idle?
    ensures PayAll(plan, hash, s) == s
  {
  }

  // ---- Continuing without incident ----

  lemma StepIgnoresCounters(plan: seq<Entry>, hash: PlanHash, s: State, ev: Event, k: nat, m: nat)
    ensures var t, t' := Step(plan, hash, s, ev), Step(plan, hash, s.(unjournaled := k, incidents := m), ev);
            && s.unjournaled <= t.unjournaled && s.incidents <= t.incidents
            && t' == t.(unjournaled := k + (t.unjournaled - s.unjournaled), incidents := m + (t.incidents - s.incidents))
  {
    hide WorkList, AlreadyPaid, WalletList, AmountList, Without, Batch, Later;
  }

  /** The counters only count. */
  lemma {:induction false} StepsIgnoreCounters(plan: seq<Entry>, hash: PlanHash, s: State, evs: seq<Event>, k: nat, m: nat)
    ensures var t, t' := Steps(plan, hash, s, evs), Steps(plan, hash, s.(unjournaled := k, incidents := m), evs);
            && s.unjournaled <= t.unjournaled && s.incidents <= t.incidents
            && t' == t.(unjournaled := k + (t.unjournaled - s.unjournaled), incidents := m + (t.incidents - s.incidents))
    decreases |evs|
  {
    hide Step;
    if evs != [] {
      var front, ev := evs[..|evs| - 1], evs[|evs| - 1];
      StepsIgnoreCounters(plan, hash, s, front, k, m);
      var t := Steps(plan, hash, s, front);
      StepIgnoresCounters(plan, hash, t, ev, k + (t.unjournaled - s.unjournaled), m + (t.incidents - s.incidents));
    }
  }

  lemma {:induction false} PayAllWithoutIncident(plan: seq<Entry>, hash: PlanHash, s: State)
    ensures var t := PayAll(plan, hash, s); t.incidents == s.incidents && t.inflight == s.inflight
    decreases |Remaining(s.phase)|
  {
    hide WalletList, AmountList;
    if s.phase.Sending? && s.phase.rest != [] {
      PayAllWithoutIncident(plan, hash, Step(plan, hash, Step(plan, hash, s, SendConfirmed), Append));
    }
  }

  lemma SmoothRunIsSteps(plan: seq<Entry>, hash: PlanHash, s: State, balance: nat) returns (evs: seq<Event>)
    ensures SmoothRun(plan, hash, s, balance) == Steps(plan, hash, s, evs)
    ensures Steps(plan, hash, s, evs).incidents == s.incidents && Steps(plan, hash, s, evs).inflight == s.inflight
  {
    var s1 := Step(plan, hash, s, Start(balance, true));
    var middle := PayAllIsSteps(plan, hash, s1);
    PayAllWithoutIncident(plan, hash, s1);
    hide PayAll, WorkList, AlreadyPaid;
    evs := [] + [Start(balance, true)] + middle + [Finish];
    StepsNext(plan, hash, s, [], Start(balance, true));
    StepsConcat(plan, hash, s, [] + [Start(balance, true)], middle);
    StepsNext(plan, hash, s, [] + [Start(balance, true)] + middle, Finish);
  }

  /** Nobody was paid twice, every paid wallet is journaled, and nothing can still land. */
  ghost predicate Settled(hash: PlanHash, s: State) {
    DistinctKeys(s.chain) && Wallets(s.chain) == AlreadyPaid(hash, s.journal) && s.inflight == []
  }

  /** A settled state is one the invariant would allow without any incident. */
  lemma SettledInv(plan: seq<Entry>, hash: PlanHash, s: State)
    requires Inv(plan, hash, s) && s.phase.Idle? && Settled(hash, s)
    ensures Inv(plan, hash, s.(unjournaled := 0, incidents := 0))
    ensures Flights(plan, s.(unjournaled := 0, incidents := 0))
  {
    DistinctCount(s.chain);
  }

  /** After a complete run anything that lands late pays somebody again. */
  lemma LateLandingRepeats(plan: seq<Entry>, hash: PlanHash, s: State)
    requires Flights(plan, s) && s.inflight != [] && Wallets(s.chain) == PayableWallets(plan)
    ensures !DistinctKeys(Step(plan, hash, s, LateLanding(0)).chain)
  {
    var b := s.inflight[0];
    assert b in s.inflight && b[0] in b && b[0].wallet in PayableWallets(plan);
    var i :| 0 <= i < |s.chain| && s.chain[i].wallet == b[0].wallet;
    var chain := s.chain + b;
    assert chain[i] == s.chain[i] && chain[|s.chain|] == b[0];
  }

  /** From any reachable idle state: no continuation without a further crash or unclear
      send pays anybody twice, if and only if nobody was paid twice so far, every
      wallet on chain is in the journal, and no earlier batch can still land. */
  lemma ContinuationSafeIff(plan: seq<Entry>, hash: PlanHash, start: State, evs: seq<Event>)
    requires DistinctKeys(plan) && Fresh(hash, start)
    requires Steps(plan, hash, start, evs).phase.Idle?
    ensures var s := Steps(plan, hash, start, evs);
            (forall more :: Steps(plan, hash, s, more).incidents == s.incidents ==>
                            DistinctKeys(Steps(plan, hash, s, more).chain))
            <==> Settled(hash, s)
  {
    hide Wallets, WorkList, AlreadyPaid, DistinctKeys, SmoothRun, Step, Inv, Pending;
    var s := Steps(plan, hash, start, evs);
    ReachableInv(plan, hash, start, evs);
    if Settled(hash, s) {
      hide Settled;
      forall more | Steps(plan, hash, s, more).incidents == s.incidents
        ensures DistinctKeys(Steps(plan, hash, s, more).chain)
      {
        StaysSafe(plan, hash, s, more);
      }
    } else {
      var more := UnsafeContinuation(plan, hash, start, evs);
      assert !DistinctKeys(Steps(plan, hash, s, more).chain);
    }
  }

  lemma StaysSafe(plan: seq<Entry>, hash: PlanHash, s: State, more: seq<Event>)
    requires DistinctKeys(plan) && Inv(plan, hash, s) && s.phase.Idle? && Settled(hash, s)
    requires Steps(plan, hash, s, more).incidents == s.incidents
    ensures DistinctKeys(Steps(plan, hash, s, more).chain)
  {
    hide Inv, Step, Settled, DistinctKeys, Wallets, AlreadyPaid;
    SettledInv(plan, hash, s);
    StepsKeepInv(plan, hash, s.(unjournaled := 0, incidents := 0), more);
    StepsIgnoreCounters(plan, hash, s, more, 0, 0);
    PaidOnce(plan, hash, Steps(plan, hash, s.(unjournaled := 0, incidents := 0), more));
  }

  lemma UnsafeContinuation(plan: seq<Entry>, hash: PlanHash, start: State, evs: seq<Event>) returns (more: seq<Event>)
    requires DistinctKeys(plan) && Fresh(hash, start)
    requires Steps(plan, hash, start, evs).phase.Idle? && !Settled(hash, Steps(plan, hash, start, evs))
    ensures var s := Steps(plan, hash, start, evs);
            Steps(plan, hash, s, more).incidents == s.incidents && !DistinctKeys(Steps(plan, hash, s, more).chain)
  {
    hide Wallets, WorkList, AlreadyPaid, DistinctKeys, SmoothRun, Step, Inv, Pending;
    var s := Steps(plan, hash, start, evs);
    ReachableInv(plan, hash, start, evs);
    var balance := SumOf(WorkList(plan, AlreadyPaid(hash, s.journal))) + GAS_RESERVE_LAMPORTS;
    more := SmoothRunIsSteps(plan, hash, s, balance);
    RerunSafeIff(plan, hash, start, evs, balance);
    if DistinctKeys(Steps(plan, hash, s, more).chain) {
      var done := Steps(plan, hash, s, more);
      StepsConcat(plan, hash, start, evs, more);
      ReachableInv(plan, hash, start, evs + more);
      LateLandingRepeats(plan, hash, done);
      LateLandingIsNoIncident(plan, hash, done);
      StepsNext(plan, hash, s, more, LateLanding(0));
      more := more + [LateLanding(0)];
    }
  }

  lemma LateLandingIsNoIncident(plan: seq<Entry>, hash: PlanHash, s: State)
    ensures Step(plan, hash, s, LateLanding(0)).incidents == s.incidents
  {
  }

  // ---- The bound on the excess is attained ----

  /** `n` runs that crash inside the gap of their first batch. */
  function CrashingRuns(balance: nat, n: nat): seq<Event> {
    if n == 0 then [] else CrashingRuns(balance, n - 1) + [Start(balance, true), SendConfirmed] + [Crash]
  }

  function Copies(plan: seq<Entry>, n: nat): seq<Entry> {
    if n == 0 then [] else Copies(plan, n - 1) + plan
  }

  /** One run up to the gap, for a plan of one batch of payable rows. */
  lemma UpToTheGap(plan: seq<Entry>, hash: PlanHash, s: State, balance: nat)
    requires DistinctKeys(plan) && |plan| == BATCH_SIZE && (forall e :: e in plan ==> !IsDust(e))
    requires s.phase.Idle? && AlreadyPaid(hash, s.journal) == {} && balance >= SumOf(plan) + GAS_RESERVE_LAMPORTS
    ensures Steps(plan, hash, s, [Start(balance, true), SendConfirmed])
         == s.(phase := Landed(plan, 0, 0), journal := s.journal + [RunStarted(hash)], chain := s.chain + plan)
    ensures AlreadyPaid(hash, s.journal + [RunStarted(hash)]) == {}
  {
    hide WorkList, AlreadyPaid, WalletList, AmountList, Wallets;
    WholePlan(plan);
    AlreadyPaidSnoc(hash, s.journal, RunStarted(hash));
    var s1 := Step(plan, hash, s, Start(balance, true));
    assert Batch(plan) == plan;
    var s2 := Step(plan, hash, s1, SendConfirmed);
    assert s2 == s.(phase := Landed(plan, 0, 0), journal := s.journal + [RunStarted(hash)], chain := s.chain + plan);
    hide Step;
    StepsTwo(plan, hash, s, Start(balance, true), SendConfirmed);
  }

  lemma {:induction false} AfterCrashes(plan: seq<Entry>, hash: PlanHash, start: State, balance: nat, n: nat)
    requires DistinctKeys(plan) && |plan| == BATCH_SIZE && (forall e :: e in plan ==> !IsDust(e))
    requires Fresh(hash, start) && balance >= SumOf(plan) + GAS_RESERVE_LAMPORTS
    ensures var s := Steps(plan, hash, start, CrashingRuns(balance, n));
            s.phase.Idle? && AlreadyPaid(hash, s.journal) == {} && s.chain == Copies(plan, n) && s.unjournaled == n
  {
    hide AlreadyPaid, Steps;
    if n == 0 {
      assert Steps(plan, hash, start, []) == start by { NoSteps(plan, hash, start); }
    } else {
      AfterCrashes(plan, hash, start, balance, n - 1);
      var before, go := CrashingRuns(balance, n - 1), [Start(balance, true), SendConfirmed];
      var s := Steps(plan, hash, start, before);
      UpToTheGap(plan, hash, s, balance);
      StepsConcat(plan, hash, start, before, go);
      StepsNext(plan, hash, start, before + go, Crash);
    }
  }

  lemma NoSteps(plan: seq<Entry>, hash: PlanHash, s: State)
    ensures Steps(plan, hash, s, []) == s
  {
  }

  lemma {:induction false} CopiesOf(plan: seq<Entry>, n: nat)
    ensures |Copies(plan, n)| == n * |plan|
    ensures n > 0 ==> Wallets(Copies(plan, n)) == Wallets(plan)
  {
    hide Wallets;
    if n > 0 {
      CopiesOf(plan, n - 1);
      WalletsConcat(Copies(plan, n - 1), plan);
      if n == 1 {
        assert [] + plan == plan;
      }
      OneMore(n, |plan|);
    }
  }

  lemma OneMore(n: nat, k: nat)
    requires n > 0
    ensures (n - 1) * k + k == n * k
  {
  }

  /** For every `n`: after `n` crashes inside the gap a rerun that completes has paid
      each of ten wallets `n` times too often, which is the bound. */
  lemma ExcessAttained(plan: seq<Entry>, hash: PlanHash, start: State, balance: nat, n: nat)
    requires DistinctKeys(plan) && |plan| == BATCH_SIZE && (forall e :: e in plan ==> !IsDust(e))
    requires Fresh(hash, start) && balance >= SumOf(plan) + GAS_RESERVE_LAMPORTS
    ensures var s := Steps(plan, hash, start, CrashingRuns(balance, n) + [Start(balance, true), SendConfirmed] + [Append]);
            && s.unjournaled == n && s.chain == Copies(plan, n + 1)
            && |s.chain| - |Wallets(s.chain)| == BATCH_SIZE * n
  {
    hide AlreadyPaid, Steps, WalletList, AmountList, Wallets;
    var before, go := CrashingRuns(balance, n), [Start(balance, true), SendConfirmed];
    AfterCrashes(plan, hash, start, balance, n);
    UpToTheGap(plan, hash, Steps(plan, hash, start, before), balance);
    StepsConcat(plan, hash, start, before, go);
    StepsNext(plan, hash, start, before + go, Append);
    CopiesOf(plan, n + 1);
    DistinctCount(plan);
    OneMore(n + 1, BATCH_SIZE);
  }

  lemma {:induction false} WholePlan(plan: seq<Entry>)
    requires forall e :: e in plan ==> !IsDust(e)
    ensures WorkList(plan, {}) == plan
  {
    if plan != [] {
      var front, last := plan[..|plan| - 1], plan[|plan| - 1];
      assert plan == front + [last];
      WholePlan(front);
    }
  }

  // ---- The script itself, working on a journal and a chain ----

  /** What becomes of one batch. The last three end the process: before the send,
      during it, or after it landed and before its line is written. */
  datatype Outcome = Lands | Fails | Unclear | StopsBefore | StopsInFlight | StopsAfter

  datatype Exit = EmptyPlan | NothingToDo | InsufficientBalance | DryRun | Stopped | Completed(succeeded: nat, failed: nat)

  /** The steps of a run whose batches turn out as `outcomes` says; when that
      runs out, the process is stopped. */
  function BatchEvents(rest: seq<Entry>, outcomes: seq<Outcome>): seq<Event>
    decreases |rest|
  {
    if rest == [] then [Finish]
    else if outcomes == [] then [Crash]
    else if Stops(outcomes[0]) then EventsOf(outcomes[0])
    else EventsOf(outcomes[0]) + BatchEvents(Later(rest), outcomes[1..])
  }

  /** The steps of one invocation; a refused or dry run takes none. */
  function RunEvents(plan: seq<Entry>, paid: set<Wallet>, balance: nat, execute: bool, outcomes: seq<Outcome>): seq<Event> {
    var work := WorkList(plan, paid);
    if work == [] || balance < SumOf(work) + GAS_RESERVE_LAMPORTS || !execute then []
    else [Start(balance, execute)] + BatchEvents(work, outcomes)
  }

  class Distributor {
    const plan: seq<Entry>
    const hash: PlanHash
    var journal: seq<Record>
    var chain: seq<Entry>
    /** Bookkeeping of the model only: batches of unknown fate, and the counters. */
    var inflight: seq<seq<Entry>>
    var unjournaled: nat
    var incidents: nat

    ghost function At(phase: Phase): State
      reads this
    {
      State(phase, journal, chain, inflight, unjournaled, incidents)
    }

    constructor (plan: seq<Entry>, hash: PlanHash, journal: seq<Record>)
      ensures this.plan == plan && this.hash == hash
      ensures At(Idle) == State(Idle, journal, [], [], 0, 0)
    {
      this.plan, this.hash, this.journal := plan, hash, journal;
      chain, inflight, unjournaled, incidents := [], [], 0, 0;
    }

    /** Journal replay: collect the recipients of this plan's confirmed lines. */
    method LoadJournal() returns (paid: set<Wallet>)
      ensures paid == AlreadyPaid(hash, journal)
    {
      paid := {};
      var i := 0;
      while i < |journal|
        invariant 0 <= i <= |journal|
        invariant paid == AlreadyPaid(hash, journal[..i])
      {
        var line := journal[i];
        if line.TransferConfirmed? && line.planHash == hash {
          var k := 0;
          ghost var before := paid;
          while k < |line.recipients|
            invariant 0 <= k <= |line.recipients|
            invariant paid == before + Listed(line.recipients[..k])
          {
            paid := paid + {line.recipients[k]};
            k := k + 1;
          }
          assert line.recipients[..k] == line.recipients;
        }
        assert journal[..i + 1] == journal[..i] + [line];
        AlreadyPaidSnoc(hash, journal[..i], line);
        i := i + 1;
      }
      assert journal[..i] == journal;
    }

    /** Sort the plan's rows into dust, already paid, and work. */
    method BuildWork(paid: set<Wallet>)
      returns (work: seq<Entry>, skippedDust: nat, skippedPrevPaid: nat, totalLamports: nat)
      ensures work == WorkList(plan, paid) && totalLamports == SumOf(work)
      ensures forall e :: e in work <==> e in plan && e.amount >= 1_000 && e.wallet !in paid
      ensures DistinctKeys(plan) ==> DistinctKeys(work)
      ensures |plan| == |work| + skippedDust + skippedPrevPaid
      ensures skippedDust == |set k | 0 <= k < |plan| && plan[k].amount < 1_000|
    {
      hide DustBefore, WorkList, SumOf, DistinctKeys;
      DustEnds(plan);
      work, skippedDust, skippedPrevPaid, totalLamports := [], 0, 0, 0;
      NoWorkYet(plan, paid);
      var i := 0;
      while i < |plan|
        invariant 0 <= i <= |plan|
        invariant work == WorkList(plan[..i], paid) && totalLamports == SumOf(work)
        invariant i == |work| + skippedDust + skippedPrevPaid
        invariant skippedDust == |DustBefore(plan, i)|
      {
        DustNext(plan, i);
        WorkNext(plan, paid, i);
        var a := plan[i];
        if a.amount < MIN_PAYOUT_LAMPORTS {
          skippedDust := skippedDust + 1;
        } else if a.wallet in paid {
          skippedPrevPaid := skippedPrevPaid + 1;
        } else {
          work := work + [a];
          totalLamports := totalLamports + a.amount;
        }
        i := i + 1;
      }
      assert plan[..i] == plan;
      WorkIsOwed(plan, paid);
      if DistinctKeys(plan) {
        WorkListDistinct(plan, paid);
      }
    }

    /** One run of the script: it leaves the journal and the chain exactly as
        the machine's steps for these outcomes do. */
    method Run(balance: nat, execute: bool, outcomes: seq<Outcome>) returns (exit: Exit)
      modifies this
      ensures At(Idle) == Steps(plan, hash, old(At(Idle)),
                                RunEvents(plan, AlreadyPaid(hash, old(journal)), balance, execute, outcomes))
      ensures exit.EmptyPlan? <==> plan == []
      ensures exit.NothingToDo? <==> plan != [] && WorkList(plan, AlreadyPaid(hash, old(journal))) == []
      ensures var work := WorkList(plan, AlreadyPaid(hash, old(journal)));
              && (exit.InsufficientBalance? <==> work != [] && balance < SumOf(work) + GAS_RESERVE_LAMPORTS)
              && (exit.DryRun? <==> work != [] && balance >= SumOf(work) + GAS_RESERVE_LAMPORTS && !execute)
              && (exit.Completed? <==> work != [] && balance >= SumOf(work) + GAS_RESERVE_LAMPORTS && execute
                                       && GoesOn(outcomes, Batches(|work|)))
              && (exit.Completed? ==> exit.succeeded + exit.failed == |work| && |journal| > 0
                                      && journal[|journal| - 1] == RunCompleted(hash, exit.succeeded, exit.failed))
    {
      if plan == [] {
        return EmptyPlan;
      }
      var paid := LoadJournal();
      var work, skippedDust, skippedPrevPaid, totalLamports := BuildWork(paid);
      if |work| == 0 {
        return NothingToDo;
      }
      if balance < totalLamports + GAS_RESERVE_LAMPORTS {
        return InsufficientBalance;
      }
      if !execute {
        return DryRun;
      }
      ghost var before := At(Idle);
      journal := journal + [RunStarted(hash)];
      StepsNext(plan, hash, before, [], Start(balance, execute));
      var stopped, succeeded, failed := SendBatches(work, outcomes, before, [Start(balance, execute)]);
      exit := if stopped then Stopped else Completed(succeeded, failed);
    }

    /** One batch: send, wait, journal. */
    method SendBatch(batch: seq<Entry>, outcome: Outcome, ghost rest: seq<Entry>, succeeded: nat, failed: nat)
      returns (stopped: bool, succeeded': nat, failed': nat)
      requires rest != [] && batch == Batch(rest)
      modifies this
      ensures succeeded' + failed' == succeeded + failed + if stopped then 0 else |batch|
      ensures var s := old(At(Sending(rest, succeeded, failed)));
              At(if stopped then Idle else Sending(Later(rest), succeeded', failed'))
              == AfterBatch(plan, hash, s, outcome)
      ensures stopped == Stops(outcome)
    {
      hide WalletList, AmountList, WorkList, AlreadyPaid;
      stopped, succeeded', failed' := false, succeeded, failed;
      match outcome {
        case Lands =>
          chain := chain + batch;
          succeeded' := succeeded + |batch|;
          journal := journal + [TransferConfirmed(hash, WalletList(batch), AmountList(batch))];
        case Fails =>
          failed' := failed + |batch|;
          journal := journal + [TransferFailed(hash, WalletList(batch), AmountList(batch))];
        case Unclear =>
          inflight, incidents := inflight + [batch], incidents + 1;
          failed' := failed + |batch|;
          journal := journal + [TransferFailed(hash, WalletList(batch), AmountList(batch))];
        case StopsBefore =>
          stopped := true;
        case StopsInFlight =>
          inflight, incidents := inflight + [batch], incidents + 1;
          stopped := true;
        case StopsAfter =>
          chain := chain + batch;
          unjournaled, incidents := unjournaled + 1, incidents + 1;
          stopped := true;
      }
    }

    /** The batch loop and the summary line after it. */
    method SendBatches(work: seq<Entry>, outcomes: seq<Outcome>, ghost before: State, ghost evs0: seq<Event>)
      returns (stopped: bool, succeeded: nat, failed: nat)
      requires Steps(plan, hash, before, evs0) == At(Sending(work, 0, 0))
      modifies this
      ensures At(Idle) == Steps(plan, hash, before, evs0 + BatchEvents(work, outcomes))
      ensures !stopped ==> succeeded + failed == |work| && |journal| > 0
                           && journal[|journal| - 1] == RunCompleted(hash, succeeded, failed)
      ensures !stopped <==> GoesOn(outcomes, Batches(|work|))
    {
      hide Steps, WalletList, AmountList, WorkList, AlreadyPaid, Batch, Later, RestFrom, GoesOn, Batches, BatchEvents, EventsOf;
      LoopStarts(work, outcomes);
      ghost var whole := evs0 + BatchEvents(work, outcomes);
      ghost var evs := evs0;
      succeeded, failed, stopped := 0, 0, false;
      var i := 0;
      var n := 0;
      while i < |work|
        invariant 0 <= i && 0 <= n <= |outcomes|
        invariant succeeded + failed == Min(i, |work|)
        invariant i == n * 10 && !stopped && GoesOn(outcomes, n) && n <= Batches(|work|)
        invariant Steps(plan, hash, before, evs) == At(Sending(RestFrom(work, i), succeeded, failed))
        invariant evs + BatchEvents(RestFrom(work, i), outcomes[n..]) == whole
        decreases |work| - i
      {
        hide Step, AfterBatch;
        MoreBatches(outcomes, n, |work|);
        ghost var rest := RestFrom(work, i);
        SliceIsBatch(work, i);
        var batch := work[i..Min(i + BATCH_SIZE, |work|)];
        var outcome := if n < |outcomes| then outcomes[n] else StopsBefore;
        FirstEvents(rest, outcomes[n..], outcome);
        StepsOfBatch(plan, hash, before, evs, outcome);
        stopped, succeeded, failed := SendBatch(batch, outcome, rest, succeeded, failed);
        if stopped {
          return;
        }
        assert outcomes[n..][1..] == outcomes[n + 1..];
        Associate(evs, EventsOf(outcome), BatchEvents(Later(rest), outcomes[n + 1..]));
        evs := evs + EventsOf(outcome);
        i := i + BATCH_SIZE;
        n := n + 1;
      }
      NoMoreBatches(n, |work|);
      LoopEnds(work, i, outcomes[n..]);
      StepsNext(plan, hash, before, evs, Finish);
      journal := journal + [RunCompleted(hash, succeeded, failed)];
    }
  }

  lemma LoopStarts(work: seq<Entry>, outcomes: seq<Outcome>)
    ensures RestFrom(work, 0) == work && outcomes[0..] == outcomes && GoesOn(outcomes, 0)
  {
  }

  lemma LoopEnds(work: seq<Entry>, i: nat, outcomes: seq<Outcome>)
    requires |work| <= i
    ensures RestFrom(work, i) == [] && BatchEvents([], outcomes) == [Finish]
  {
  }

  lemma Associate<T>(a: seq<T>, b: seq<T>, c: seq<T>)
    ensures a + (b + c) == a + b + c
  {
  }

  /** The steps of one batch. */
  function EventsOf(outcome: Outcome): (evs: seq<Event>)
    ensures 1 <= |evs| <= 2
  {
    match outcome
    case Lands => [SendConfirmed, Append]
    case Fails => [SendFailed]
    case Unclear => [SendUnclear]
    case StopsBefore => [Crash]
    case StopsInFlight => [CrashInFlight]
    case StopsAfter => [SendConfirmed, Crash]
  }

  /** How many batches the work makes. */
  function Batches(n: nat): nat {
    (n + 9) / 10
  }

  /** None of the first `n` batches ends the process. */
  predicate GoesOn(outcomes: seq<Outcome>, n: nat) {
    n <= |outcomes| && forall m :: 0 <= m < n ==> !Stops(outcomes[m])
  }

  lemma MoreBatches(outcomes: seq<Outcome>, n: nat, size: nat)
    requires n * 10 < size && GoesOn(outcomes, n)
    ensures n < Batches(size)
    ensures n < |outcomes| && !Stops(outcomes[n]) ==> GoesOn(outcomes, n + 1)
    ensures n >= |outcomes| || Stops(outcomes[n]) ==> !GoesOn(outcomes, Batches(size))
  {
  }

  lemma NoMoreBatches(n: nat, size: nat)
    requires size <= n * 10 && n <= Batches(size)
    ensures n == Batches(size)
  {
  }

  function AfterBatch(plan: seq<Entry>, hash: PlanHash, s: State, outcome: Outcome): State {
    match outcome
    case Lands => Step(plan, hash, Step(plan, hash, s, SendConfirmed), Append)
    case Fails => Step(plan, hash, s, SendFailed)
    case Unclear => Step(plan, hash, s, SendUnclear)
    case StopsBefore => Step(plan, hash, s, Crash)
    case StopsInFlight => Step(plan, hash, s, CrashInFlight)
    case StopsAfter => Step(plan, hash, Step(plan, hash, s, SendConfirmed), Crash)
  }

  lemma StepsOfBatch(plan: seq<Entry>, hash: PlanHash, s: State, evs: seq<Event>, outcome: Outcome)
    ensures Steps(plan, hash, s, evs + EventsOf(outcome)) == AfterBatch(plan, hash, Steps(plan, hash, s, evs), outcome)
  {
    hide Step, Steps;
    StepsOneOrTwo(plan, hash, s, evs, EventsOf(outcome));
  }

  predicate Stops(outcome: Outcome) {
    outcome.StopsBefore? || outcome.StopsInFlight? || outcome.StopsAfter?
  }

  lemma FirstEvents(rest: seq<Entry>, outcomes: seq<Outcome>, outcome: Outcome)
    requires rest != [] && outcome == if outcomes == [] then StopsBefore else outcomes[0]
    ensures BatchEvents(rest, outcomes)
         == if Stops(outcome) then EventsOf(outcome) else EventsOf(outcome) + BatchEvents(Later(rest), outcomes[1..])
  {
  }

  lemma StepsOneOrTwo(plan: seq<Entry>, hash: PlanHash, s: State, evs: seq<Event>, more: seq<Event>)
    requires 1 <= |more| <= 2
    ensures var t := Step(plan, hash, Steps(plan, hash, s, evs), more[0]);
            Steps(plan, hash, s, evs + more) == if |more| == 1 then t else Step(plan, hash, t, more[1])
  {
    hide Step, Steps;
    StepsNext(plan, hash, s, evs, more[0]);
    if |more| == 2 {
      StepsNext(plan, hash, s, evs + [more[0]], more[1]);
      assert evs + more == evs + [more[0]] + [more[1]];
    } else {
      assert evs + more == evs + [more[0]];
    }
  }

  function RestFrom(work: seq<Entry>, i: nat): seq<Entry> {
    if i < |work| then work[i..] else []
  }

  lemma SliceIsBatch(work: seq<Entry>, i: nat)
    requires i < |work|
    ensures RestFrom(work, i) != []
    ensures work[i..Min(i + BATCH_SIZE, |work|)] == Batch(RestFrom(work, i))
    ensures RestFrom(work, i + BATCH_SIZE) == Later(RestFrom(work, i))
  {
  }

  lemma StepsNext(plan: seq<Entry>, hash: PlanHash, s: State, evs: seq<Event>, ev: Event)
    ensures Steps(plan, hash, s, evs + [ev]) == Step(plan, hash, Steps(plan, hash, s, evs), ev)
  {
    assert (evs + [ev])[..|evs|] == evs;
  }
}
