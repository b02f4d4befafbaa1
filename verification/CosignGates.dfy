/** The static gate chain in front of the lender signature (cosign-borrow.js). */
module CosignGates {
  import opened Options
  import opened Positional
  import opened DrainCheck

  datatype Ix = Ix(program: Pubkey, keys: seq<Pubkey>, data: seq<Byte>)

  /** A signature slot of the transaction and whether it is filled. */
  datatype Slot = Slot(key: Pubkey, signed: bool)

  datatype Tx = Tx(ixs: seq<Ix>, slots: seq<Slot>)

  /** Deployed programs and routing switches. The V2 program id is fixed to null
      in the source, so no V2 branch can be taken and none appears here. */
  datatype Programs = Programs(
    lender: Pubkey, v1: Pubkey, v3: Option<Pubkey>, v4: Option<Pubkey>, v41: Option<Pubkey>,
    routeRwaToV3: bool, routeMemecoinsToV3: bool,
    computeBudget: Pubkey, associatedToken: Pubkey, token: Pubkey, token2022: Pubkey, lighthouse: Pubkey, system: Pubkey)

  datatype Category = Stock | Etf | Metal | Rwa | Other

  datatype MintQuery = QueryFailed | NoRow | Row(category: Category)

  /** What the handler learns from outside. `accounts` is the on-chain state of
      the token sources (None when every RPC failed), `lookups[i]` the row the
      mint query returned for instruction `i`, `mintQuery` the row of accounts[4].
      The last two stand for the checks and services not modelled here. */
  datatype World = World(
    accounts: Option<map<Pubkey, AccountInfo>>, lookups: seq<Option<Category>>, banned: bool,
    mintQuery: MintQuery, policyPasses: bool, attestationAndKeyReady: bool)

  datatype Reason =
    | ProgramNotAllowed(index: nat)
    | SystemFromLender(index: nat)
    | SourceLookupFailed
    | NotATokenAccount(index: nat)
    | LenderOwnedSource(index: nat)
    | DiscriminatorNotAllowed
    | V3IsRwaOnly
    | NoBorrow
    | SeveralBorrows
    | LenderNotSigner
    | BorrowerHasNotSigned
    | BorrowerAccountMissing
    | NotOneSigner
    | BorrowerNotSigner
    | WalletBanned
    | ChecksUnavailable
    | UnsupportedMint
    | RwaExitsUseV4
    | MalformedBorrow
    | CategoryMismatch
    | WrongProgram
    | PolicyRefused
    | NotReady

  datatype Outcome = Reject(status: nat, reason: Reason) | Sign

  // ---- What a refusal tells the caller: a fault the transaction has ----

  predicate Told(p: Programs, tx: Tx, r: Outcome) {
    && r.Reject? && r.status == 403
    && match r.reason
       case ProgramNotAllowed(i) => i < |tx.ixs| && !ProgramListed(p, tx.ixs[i].program)
       case SystemFromLender(i) =>
         i < |tx.ixs| && tx.ixs[i].program == p.system && tx.ixs[i].keys != [] && tx.ixs[i].keys[0] == p.lender
       case _ => false
  }

  predicate ToldOfSources(p: Programs, tx: Tx, accounts: Option<map<Pubkey, AccountInfo>>, r: Outcome) {
    && r.Reject?
    && match r.reason
       case SourceLookupFailed => r.status == 503 && accounts.None?
       case NotATokenAccount(i) =>
         && r.status == 403 && accounts.Some? && i < |tx.ixs| && tx.ixs[i].keys != []
         && tx.ixs[i].keys[0] in accounts.value && |accounts.value[tx.ixs[i].keys[0]].data| < 165
       case LenderOwnedSource(i) =>
         && r.status == 403 && accounts.Some? && i < |tx.ixs| && tx.ixs[i].keys != []
         && tx.ixs[i].keys[0] in accounts.value && 165 <= |accounts.value[tx.ixs[i].keys[0]].data|
         && accounts.value[tx.ixs[i].keys[0]].data[32..64] == p.lender.bytes
       case _ => false
  }

  predicate Lending(p: Programs, q: Pubkey) {
    q == p.v1 || p.v3 == Some(q) || p.v4 == Some(q) || p.v41 == Some(q)
  }

  predicate ToldOfBorrow(p: Programs, tx: Tx, r: Outcome) {
    && r.Reject?
    && match r.reason
       case DiscriminatorNotAllowed =>
         && r.status == 403
         && exists i :: 0 <= i < |tx.ixs| && Lending(p, tx.ixs[i].program)
                        && !(8 <= |tx.ixs[i].data| && tx.ixs[i].data[..8] == [21, 217, 199, 183, 6, 96, 200, 52])
       case V3IsRwaOnly => r.status == 403 && exists i :: 0 <= i < |tx.ixs| && p.v3 == Some(tx.ixs[i].program)
       case NoBorrow => r.status == 400 && forall i :: 0 <= i < |tx.ixs| ==> !Lending(p, tx.ixs[i].program)
       case SeveralBorrows =>
         r.status == 400 && exists i, j :: 0 <= i < j < |tx.ixs| && Lending(p, tx.ixs[i].program) && Lending(p, tx.ixs[j].program)
       case _ => false
  }

  predicate ToldOfSigners(p: Programs, tx: Tx, r: Outcome)
    requires FirstBorrow(p, tx.ixs) < |tx.ixs|
  {
    && r.Reject? && r.status == 400
    && match r.reason
       case LenderNotSigner => forall i :: 0 <= i < |tx.slots| ==> tx.slots[i].key != p.lender
       case BorrowerHasNotSigned => |OtherSigners(p, tx.slots)| == 0
       case BorrowerAccountMissing => |tx.ixs[FirstBorrow(p, tx.ixs)].keys| < 9
       case NotOneSigner => |OtherSigners(p, tx.slots)| >= 2
       case BorrowerNotSigner =>
         var keys := tx.ixs[FirstBorrow(p, tx.ixs)].keys;
         9 <= |keys| && forall i :: 0 <= i < |tx.slots| && tx.slots[i].key == keys[8] ==> !tx.slots[i].signed
       case _ => false
  }

  predicate ToldOfCategory(p: Programs, borrow: Ix, q: MintQuery, r: Outcome) {
    && r.Reject?
    && match r.reason
       case ChecksUnavailable => r.status == 503 && q.QueryFailed?
       case UnsupportedMint => r.status == 400 && q.NoRow?
       case RwaExitsUseV4 => r.status == 400 && q.Row? && q.category != Other && p.v41 == Some(borrow.program)
       case MalformedBorrow => r.status == 400 && |borrow.data| < 34
       case CategoryMismatch => r.status == 400 && q.Row? && 34 <= |borrow.data| && borrow.data[33] != if q.category == Other then 0 else 1
       case WrongProgram =>
         r.status == 400 && q.Row? && if q.category == Other then p.v3 == Some(borrow.program)
                                           else borrow.program == p.v1 || p.v3 != Some(borrow.program)
       case _ => false
  }

  // ---- Gate 0: outer programs ----

  function Optional(p: Option<Pubkey>): set<Pubkey> {
    if p.Some? then {p.value} else {}
  }

  function Borrowing(p: Programs): set<Pubkey> {
    {p.v1} + Optional(p.v3) + Optional(p.v4) + Optional(p.v41)
  }

  function Allowlist(p: Programs): set<Pubkey> {
    Borrowing(p) + {p.computeBudget, p.associatedToken, p.token, p.token2022, p.lighthouse}
  }

  predicate OuterAllowed(p: Programs, ix: Ix) {
    && ix.program in Allowlist(p)
    && !(ix.program == p.system && ix.keys != [] && ix.keys[0] == p.lender)
  }

  method GateOuterPrograms(p: Programs, tx: Tx) returns (r: Option<Outcome>)
    ensures r.None? <==> forall i :: 0 <= i < |tx.ixs| ==> OuterAllowed(p, tx.ixs[i])
    ensures r.None? <==> forall i :: 0 <= i < |tx.ixs| ==>
              var q, ks := tx.ixs[i].program, tx.ixs[i].keys;
              && (q == p.v1 || p.v3 == Some(q) || p.v4 == Some(q) || p.v41 == Some(q) || q == p.computeBudget
                  || q == p.associatedToken || q == p.token || q == p.token2022 || q == p.lighthouse)
              && !(q == p.system && ks != [] && ks[0] == p.lender)
    ensures r.Some? ==> r.value.Reject? && Told(p, tx, r.value)
  {
    OuterIs(p, tx);
    for i := 0 to |tx.ixs|
      invariant forall k :: 0 <= k < i ==> OuterAllowed(p, tx.ixs[k])
    {
      var ix := tx.ixs[i];
      if ix.program !in Allowlist(p) {
        assert !OuterAllowed(p, tx.ixs[i]);
        return Some(Reject(403, ProgramNotAllowed(i)));
      }
      if ix.program == p.system && |ix.keys| > 0 && ix.keys[0] == p.lender {
        assert !OuterAllowed(p, tx.ixs[i]);
        return Some(Reject(403, SystemFromLender(i)));
      }
    }
    r := None;
  }

  /** The programs a transaction may name, written out. */
  predicate ProgramListed(p: Programs, q: Pubkey) {
    || q == p.v1 || p.v3 == Some(q) || p.v4 == Some(q) || p.v41 == Some(q) || q == p.computeBudget
    || q == p.associatedToken || q == p.token || q == p.token2022 || q == p.lighthouse
  }

  lemma OuterIs(p: Programs, tx: Tx)
    ensures forall i :: 0 <= i < |tx.ixs| ==>
              (OuterAllowed(p, tx.ixs[i]) <==>
                ProgramListed(p, tx.ixs[i].program)
                && !(tx.ixs[i].program == p.system && tx.ixs[i].keys != [] && tx.ixs[i].keys[0] == p.lender))
  {
  }

  // ---- Gate 0b: token instructions that can lower account 0 ----

  const DRAIN_CAPABLE_OPS: set<Byte> := {3, 4, 5, 6, 8, 9, 12, 13, 15, 26, 27, 37}

  predicate IsTokenProgram(p: Programs, program: Pubkey) {
    program == p.token || program == p.token2022
  }

  /** The instruction may lower a balance, and then only that of `keys[0]`. */
  predicate DrainCapable(p: Programs, ix: Ix) {
    IsTokenProgram(p, ix.program) && ix.data != [] && ix.data[0] in DRAIN_CAPABLE_OPS && ix.keys != []
  }

  const TOKEN_ACCOUNT_SIZE := 165

  /** The source account is absent, or a token account the lender does not own. */
  predicate SourceHarmless(p: Programs, accounts: map<Pubkey, AccountInfo>, source: Pubkey) {
    source in accounts ==>
      TOKEN_ACCOUNT_SIZE <= |accounts[source].data| && TokenOwner(accounts[source].data) != p.lender
  }

  predicate TokenSourcesOk(p: Programs, tx: Tx, accounts: Option<map<Pubkey, AccountInfo>>) {
    forall i :: 0 <= i < |tx.ixs| && DrainCapable(p, tx.ixs[i]) ==>
      accounts.Some? && SourceHarmless(p, accounts.value, tx.ixs[i].keys[0])
  }

  /** First collect the sources, then look them up together, then judge each. */
  method GateTokenSources(p: Programs, tx: Tx, accounts: Option<map<Pubkey, AccountInfo>>) returns (r: Option<Outcome>)
    ensures r.None? <==> TokenSourcesOk(p, tx, accounts)
    ensures r.Some? ==> r.value.Reject? && ToldOfSources(p, tx, accounts, r.value)
  {
    var sources: seq<(nat, Pubkey)> := [];
    for i := 0 to |tx.ixs|
      invariant forall s :: s in sources ==> s.0 < i && DrainCapable(p, tx.ixs[s.0]) && s.1 == tx.ixs[s.0].keys[0]
      invariant forall k :: 0 <= k < i && DrainCapable(p, tx.ixs[k]) ==> (k, tx.ixs[k].keys[0]) in sources
    {
      var ix := tx.ixs[i];
      if !IsTokenProgram(p, ix.program) {
        continue;
      }
      if |ix.data| < 1 {
        continue;
      }
      if ix.data[0] !in DRAIN_CAPABLE_OPS {
        continue;
      }
      if |ix.keys| == 0 {
        continue;
      }
      sources := sources + [(i, ix.keys[0])];
    }
    if |sources| > 0 {
      assert sources[0] in sources;
      if accounts.None? {
        return Some(Reject(503, SourceLookupFailed));
      }
      for i := 0 to |sources|
        invariant forall k :: 0 <= k < i ==> SourceHarmless(p, accounts.value, sources[k].1)
      {
        var (index, source) := sources[i];
        assert sources[i] in sources;
        if source !in accounts.value {
          continue;
        }
        var info := accounts.value[source];
        if |info.data| < TOKEN_ACCOUNT_SIZE {
          return Some(Reject(403, NotATokenAccount(index)));
        }
        if TokenOwner(info.data) == p.lender {
          return Some(Reject(403, LenderOwnedSource(index)));
        }
      }
    }
    r := None;
  }

  // ---- Gate 1: the borrow instruction ----

  const ALLOWED_DISCRIMINATOR: seq<Byte> := [21, 217, 199, 183, 6, 96, 200, 52]

  predicate IsMagpieProgram(p: Programs, program: Pubkey) {
    program in Borrowing(p)
  }

  predicate InstructionAllowed(data: seq<Byte>) {
    8 <= |data| && data[..8] == ALLOWED_DISCRIMINATOR
  }

  /** How many of the first `n` instructions go to a lending program. */
  function BorrowCount(p: Programs, ixs: seq<Ix>, n: nat): (c: nat)
    requires n <= |ixs|
    ensures c <= n
  {
    if n == 0 then 0 else BorrowCount(p, ixs, n - 1) + if IsMagpieProgram(p, ixs[n - 1].program) then 1 else 0
  }

  /** `find`: index of the first lending instruction, or the length. */
  function FirstBorrow(p: Programs, ixs: seq<Ix>): (k: nat)
    ensures k <= |ixs|
    ensures k < |ixs| ==> IsMagpieProgram(p, ixs[k].program)
    ensures forall i :: 0 <= i < k ==> !IsMagpieProgram(p, ixs[i].program)
  {
    if ixs == [] || IsMagpieProgram(p, ixs[0].program) then 0 else 1 + FirstBorrow(p, ixs[1..])
  }

  /** Among the first `n` instructions only the `k`-th goes to a lending program. */
  ghost predicate OnlyLending(p: Programs, ixs: seq<Ix>, n: nat, k: nat)
    requires n <= |ixs|
  {
    k < n && IsMagpieProgram(p, ixs[k].program) && forall i :: 0 <= i < n && i != k ==> !IsMagpieProgram(p, ixs[i].program)
  }

  /** A count of one means that there is one. */
  lemma {:induction false} OneBorrow(p: Programs, ixs: seq<Ix>, n: nat)
    requires n <= |ixs|
    ensures BorrowCount(p, ixs, n) == 0 <==> forall i :: 0 <= i < n ==> !IsMagpieProgram(p, ixs[i].program)
    ensures BorrowCount(p, ixs, n) == 1 <==> exists k :: 0 <= k < n && OnlyLending(p, ixs, n, k)
  {
    hide IsMagpieProgram;
    if n > 0 {
      OneBorrow(p, ixs, n - 1);
      if BorrowCount(p, ixs, n) == 1 && IsMagpieProgram(p, ixs[n - 1].program) {
        assert OnlyLending(p, ixs, n, n - 1);
      } else if BorrowCount(p, ixs, n) == 1 {
        var k :| 0 <= k < n - 1 && OnlyLending(p, ixs, n - 1, k);
        assert OnlyLending(p, ixs, n, k);
      }
      if k :| 0 <= k < n && OnlyLending(p, ixs, n, k) {
        if k < n - 1 {
          assert OnlyLending(p, ixs, n - 1, k);
        }
      }
    }
  }

  predicate V3Category(c: Option<Category>) {
    c == Some(Stock) || c == Some(Etf) || c == Some(Metal)
  }

  predicate BorrowShapeOk(p: Programs, tx: Tx, lookups: seq<Option<Category>>)
    requires |lookups| == |tx.ixs|
  {
    && BorrowCount(p, tx.ixs, |tx.ixs|) == 1
    && var k := FirstBorrow(p, tx.ixs);
       && k < |tx.ixs| && InstructionAllowed(tx.ixs[k].data)
       && (p.v3 == Some(tx.ixs[k].program) ==> V3Category(lookups[k]))
  }

  method GateBorrowShape(p: Programs, tx: Tx, lookups: seq<Option<Category>>) returns (r: Option<Outcome>)
    requires |lookups| == |tx.ixs|
    ensures r.None? <==> BorrowShapeOk(p, tx, lookups)
    ensures r.Some? ==> r.value.Reject? && ToldOfBorrow(p, tx, r.value)
  {
    LendingEverywhere(p, tx);
    hide IsMagpieProgram, FirstBorrow, Lending;
    var count := 0;
    var chosen: Option<Pubkey> := None;
    var category: Option<Category> := None;
    var k := FirstBorrow(p, tx.ixs);
    ghost var last := 0;
    for i := 0 to |tx.ixs|
      invariant count >= 1 ==> k <= last < i && IsMagpieProgram(p, tx.ixs[last].program)
                               && chosen == Some(tx.ixs[last].program)
      invariant count >= 2 ==> k < last
      invariant count == BorrowCount(p, tx.ixs, i)
      invariant count == 0 <==> i <= k
      invariant k < i ==> InstructionAllowed(tx.ixs[k].data)
      invariant count == 0 ==> chosen == None && category == None
      invariant count == 1 ==> chosen == Some(tx.ixs[k].program) && category == lookups[k]
    {
      var ix := tx.ixs[i];
      if !IsMagpieProgram(p, ix.program) {
        continue;
      }
      count := count + 1;
      last := i;
      chosen := Some(ix.program);
      if lookups[i].Some? {
        category := lookups[i];
      }
      if !InstructionAllowed(ix.data) {
        BorrowCountGrows(p, tx.ixs, i + 1, |tx.ixs|);
        return Some(Reject(403, DiscriminatorNotAllowed));
      }
    }
    if p.v3.Some? && chosen == p.v3 && !V3Category(category) {
      return Some(Reject(403, V3IsRwaOnly));
    }
    if count == 0 {
      return Some(Reject(400, NoBorrow));
    }
    if count > 1 {
      return Some(Reject(400, SeveralBorrows));
    }
    r := None;
  }

  lemma {:induction false} BorrowCountGrows(p: Programs, ixs: seq<Ix>, m: nat, n: nat)
    requires m <= n <= |ixs|
    ensures BorrowCount(p, ixs, m) <= BorrowCount(p, ixs, n)
    decreases n - m
  {
    if m < n {
      BorrowCountGrows(p, ixs, m, n - 1);
    }
  }

  // ---- Gates 2 to 3b: signatures ----

  function OtherSigners(p: Programs, slots: seq<Slot>): seq<Slot> {
    if slots == [] then [] else
      var last := slots[|slots| - 1];
      OtherSigners(p, slots[..|slots| - 1]) + if last.key != p.lender && last.signed then [last] else []
  }

  predicate HasSlot(slots: seq<Slot>, key: Pubkey) {
    exists i :: 0 <= i < |slots| && slots[i].key == key
  }

  predicate HasSigned(slots: seq<Slot>, key: Pubkey) {
    exists i :: 0 <= i < |slots| && slots[i].key == key && slots[i].signed
  }

  lemma {:induction false} OtherSignersMembers(p: Programs, slots: seq<Slot>)
    ensures forall s :: s in OtherSigners(p, slots) <==> s in slots && s.key != p.lender && s.signed
  {
    if slots != [] {
      assert slots == slots[..|slots| - 1] + [slots[|slots| - 1]];
      OtherSignersMembers(p, slots[..|slots| - 1]);
    }
  }

  predicate SignaturesOk(p: Programs, tx: Tx)
    requires FirstBorrow(p, tx.ixs) < |tx.ixs|
  {
    var borrow := tx.ixs[FirstBorrow(p, tx.ixs)];
    && HasSlot(tx.slots, p.lender)
    && 8 < |borrow.keys|
    && |OtherSigners(p, tx.slots)| == 1
    && HasSigned(tx.slots, borrow.keys[8])
  }

  function GateSignatures(p: Programs, tx: Tx): (r: Option<Outcome>)
    requires FirstBorrow(p, tx.ixs) < |tx.ixs|
    ensures r.None? <==> SignaturesOk(p, tx)
    ensures r.Some? ==> r.value.Reject? && ToldOfSigners(p, tx, r.value)
  {
    var borrow := tx.ixs[FirstBorrow(p, tx.ixs)];
    if !HasSlot(tx.slots, p.lender) then Some(Reject(400, LenderNotSigner))
    else if OtherSigners(p, tx.slots) == [] then Some(Reject(400, BorrowerHasNotSigned))
    else if |borrow.keys| <= 8 then Some(Reject(400, BorrowerAccountMissing))
    else if |OtherSigners(p, tx.slots)| != 1 then Some(Reject(400, NotOneSigner))
    else if !HasSigned(tx.slots, borrow.keys[8]) then Some(Reject(400, BorrowerNotSigner))
    else None
  }

  // ---- Gate 5: program and category ----

  const ARGS_END := 33

  predicate IsRwaMint(c: Category) {
    c == Stock || c == Etf || c == Metal || c == Rwa
  }

  predicate IsV4Borrow(p: Programs, program: Pubkey) {
    p.v4 == Some(program) || p.v41 == Some(program)
  }

  predicate TakesCategory(p: Programs, program: Pubkey) {
    IsV4Borrow(p, program) || p.v3 == Some(program)
  }

  /** The mint of accounts[4] is looked at only when the arguments are complete. */
  predicate MintIsChecked(borrow: Ix) {
    ARGS_END <= |borrow.data| && 4 < |borrow.keys|
  }

  function GateCategory(p: Programs, borrow: Ix, q: MintQuery): (r: Option<Outcome>)
    ensures r.Some? ==> r.value.Reject? && 33 <= |borrow.data| && ToldOfCategory(p, borrow, q, r.value)
  {
    var program := borrow.program;
    if !MintIsChecked(borrow) then None
    else if q.QueryFailed? then Some(Reject(503, ChecksUnavailable))
    else if q.NoRow? then Some(Reject(400, UnsupportedMint))
    else
      var rwa := IsRwaMint(q.category);
      if p.v41 == Some(program) && rwa then Some(Reject(400, RwaExitsUseV4))
      else if TakesCategory(p, program) && |borrow.data| < ARGS_END + 1 then Some(Reject(400, MalformedBorrow))
      else if TakesCategory(p, program) && borrow.data[ARGS_END] != (if rwa then 1 else 0)
        then Some(Reject(400, CategoryMismatch))
      else if !IsV4Borrow(p, program) && rwa && program == p.v1 then Some(Reject(400, WrongProgram))
      else if !IsV4Borrow(p, program) && rwa && p.v3.Some? && p.routeRwaToV3 && p.v3 != Some(program)
        then Some(Reject(400, WrongProgram))
      else if !IsV4Borrow(p, program) && !rwa && p.v3 == Some(program) && !p.routeMemecoinsToV3
        then Some(Reject(400, WrongProgram))
      else None
  }

  // ---- The chain ----

  predicate Fits(tx: Tx, world: World) {
    |world.lookups| == |tx.ixs|
  }

  /** Everything the chain demands before the lender signs. */
  predicate Acceptable(p: Programs, tx: Tx, world: World)
    requires Fits(tx, world)
  {
    && (forall i :: 0 <= i < |tx.ixs| ==> OuterAllowed(p, tx.ixs[i]))
    && TokenSourcesOk(p, tx, world.accounts)
    && BorrowShapeOk(p, tx, world.lookups)
    && SignaturesOk(p, tx)
    && !world.banned
    && GateCategory(p, tx.ixs[FirstBorrow(p, tx.ixs)], world.mintQuery).None?
    && (MintIsChecked(tx.ixs[FirstBorrow(p, tx.ixs)]) ==> world.policyPasses)
    && world.attestationAndKeyReady
  }

  /** Every refusal names a fault that is there, with its status. */
  predicate ToldTruly(p: Programs, tx: Tx, world: World, r: Outcome)
    requires Fits(tx, world) && r.Reject?
  {
    match r.reason
    case WalletBanned => r.status == 403 && world.banned
    case PolicyRefused => r.status == 403 && !world.policyPasses
    case NotReady => r.status == 502 && !world.attestationAndKeyReady
    case _ =>
      || Told(p, tx, r) || ToldOfSources(p, tx, world.accounts, r) || ToldOfBorrow(p, tx, r)
      || (FirstBorrow(p, tx.ixs) < |tx.ixs|
          && (ToldOfSigners(p, tx, r) || ToldOfCategory(p, tx.ixs[FirstBorrow(p, tx.ixs)], world.mintQuery, r)))
  }

  method CosignGates(p: Programs, tx: Tx, world: World) returns (r: Outcome)
    requires Fits(tx, world)
    ensures r == Sign <==> Acceptable(p, tx, world)
    ensures r.Reject? ==> ToldTruly(p, tx, world, r)
  {
    var bad := GateOuterPrograms(p, tx);
    if bad.Some? {
      return bad.value;
    }
    bad := GateTokenSources(p, tx, world.accounts);
    if bad.Some? {
      return bad.value;
    }
    bad := GateBorrowShape(p, tx, world.lookups);
    if bad.Some? {
      return bad.value;
    }
    bad := GateSignatures(p, tx);
    if bad.Some? {
      return bad.value;
    }
    if world.banned {
      return Reject(403, WalletBanned);
    }
    var borrow := tx.ixs[FirstBorrow(p, tx.ixs)];
    bad := GateCategory(p, borrow, world.mintQuery);
    if bad.Some? {
      return bad.value;
    }
    if MintIsChecked(borrow) && !world.policyPasses {
      return Reject(403, PolicyRefused);
    }
    if !world.attestationAndKeyReady {
      return Reject(502, NotReady);
    }
    r := Sign;
  }

  // ---- What a signed transaction looks like ----

  /** The five program ids in use are different. */
  predicate DistinctPrograms(p: Programs) {
    && p.v3 != Some(p.v1) && p.v4 != Some(p.v1) && p.v41 != Some(p.v1)
    && (p.v3.Some? ==> p.v3 != p.v4 && p.v3 != p.v41)
    && (p.v4.Some? ==> p.v4 != p.v41)
  }

  /** Exactly one instruction goes to a lending program, and it carries the
      borrow discriminator. */
  lemma SignedHasOneBorrow(p: Programs, tx: Tx, world: World)
    requires Fits(tx, world) && Acceptable(p, tx, world)
    ensures exists k :: 0 <= k < |tx.ixs|
              && OnlyLending(p, tx.ixs, |tx.ixs|, k) && InstructionAllowed(tx.ixs[k].data)
  {
    hide OuterAllowed, TokenSourcesOk, SignaturesOk, GateCategory, IsMagpieProgram, InstructionAllowed;
    OneBorrow(p, tx.ixs, |tx.ixs|);
    assert OnlyLending(p, tx.ixs, |tx.ixs|, FirstBorrow(p, tx.ixs));
  }

  /** Accounts[8] of the borrow is the one filled slot besides the lender's. */
  predicate BorrowerIsSoleSigner(p: Programs, tx: Tx)
    requires FirstBorrow(p, tx.ixs) < |tx.ixs|
  {
    var borrow := tx.ixs[FirstBorrow(p, tx.ixs)];
    && 8 < |borrow.keys| && borrow.keys[8] != p.lender
    && forall s :: s in tx.slots && s.signed && s.key != p.lender ==> s.key == borrow.keys[8]
  }

  /** The borrower of a signed transaction is its sole other signer if and only
      if accounts[8] is not the lender, and an empty lender slot rules that out. */
  lemma SignedBySoleBorrower(p: Programs, tx: Tx, world: World)
    requires Fits(tx, world) && Acceptable(p, tx, world)
    ensures BorrowerIsSoleSigner(p, tx) <==> tx.ixs[FirstBorrow(p, tx.ixs)].keys[8] != p.lender
    ensures !HasSigned(tx.slots, p.lender) ==> BorrowerIsSoleSigner(p, tx)
  {
    hide OuterAllowed, TokenSourcesOk, GateCategory, InstructionAllowed, BorrowCount;
    OtherSignersMembers(p, tx.slots);
    var others := OtherSigners(p, tx.slots);
    var borrower := tx.ixs[FirstBorrow(p, tx.ixs)].keys[8];
    var i :| 0 <= i < |tx.slots| && tx.slots[i].key == borrower && tx.slots[i].signed;
    assert tx.slots[i] in tx.slots;
    if borrower != p.lender {
      assert tx.slots[i] in others;
      forall s | s in tx.slots && s.signed && s.key != p.lender ensures s.key == borrower {
        assert s in others;
        assert others == [others[0]];
      }
    }
  }

  /** Program, mint category and category byte agree. */
  predicate CategoryAgrees(p: Programs, borrow: Ix, c: Category) {
    && (borrow.program == p.v1 || p.v41 == Some(borrow.program) ==> !IsRwaMint(c))
    && (TakesCategory(p, borrow.program) ==>
          ARGS_END < |borrow.data| && (borrow.data[ARGS_END] == 1 <==> IsRwaMint(c))
          && (borrow.data[ARGS_END] == 0 <==> !IsRwaMint(c)))
  }

  /** Whenever the borrow's arguments are complete, signing implies agreement. */
  lemma SignedCategoryAgrees(p: Programs, tx: Tx, world: World)
    requires Fits(tx, world) && Acceptable(p, tx, world) && DistinctPrograms(p)
    requires ARGS_END <= |tx.ixs[FirstBorrow(p, tx.ixs)].data|
    ensures world.mintQuery.Row?
    ensures CategoryAgrees(p, tx.ixs[FirstBorrow(p, tx.ixs)], world.mintQuery.category)
  {
    hide OuterAllowed, TokenSourcesOk, InstructionAllowed, BorrowCount;
  }

  /** Exactly the incomplete argument lists escape: on those the decision does
      not look at the mint at all. Whether the lending program would decode such
      an instruction is not part of this model. */
  lemma MintIgnoredIffArgumentsIncomplete(p: Programs, tx: Tx, world: World)
    requires Fits(tx, world) && Acceptable(p, tx, world)
    ensures |tx.ixs[FirstBorrow(p, tx.ixs)].data| < ARGS_END <==>
              forall q :: Acceptable(p, tx, world.(mintQuery := q))
  {
    hide OuterAllowed, TokenSourcesOk, InstructionAllowed, BorrowCount;
    var borrow := tx.ixs[FirstBorrow(p, tx.ixs)];
    if ARGS_END <= |borrow.data| {
      assert !Acceptable(p, tx, world.(mintQuery := NoRow));
    }
  }

  // ---- Signing, written out ----

  /** The one lending instruction. */
  predicate SoleLending(p: Programs, tx: Tx, k: nat)
    requires k < |tx.ixs|
  {
    forall i :: 0 <= i < |tx.ixs| ==>
      (i == k <==> (tx.ixs[i].program == p.v1 || p.v3 == Some(tx.ixs[i].program)
                    || p.v4 == Some(tx.ixs[i].program) || p.v41 == Some(tx.ixs[i].program)))
  }

  /** Exactly one slot besides the lender's is filled. */
  predicate OneOtherSigned(p: Programs, slots: seq<Slot>, j: nat)
    requires j < |slots|
  {
    forall i :: 0 <= i < |slots| ==> (i == j <==> (slots[i].signed && slots[i].key != p.lender))
  }

  /** What program, arguments and the mint's category must satisfy. */
  predicate CategoryRule(p: Programs, borrow: Ix, q: MintQuery) {
    33 <= |borrow.data| ==>
      && q.Row?
      && var rwa := q.category == Stock || q.category == Etf || q.category == Metal || q.category == Rwa;
         var v3, v4 := p.v3 == Some(borrow.program), p.v4 == Some(borrow.program) || p.v41 == Some(borrow.program);
         && (p.v41 == Some(borrow.program) ==> !rwa)
         && (v3 || v4 ==> 34 <= |borrow.data| && borrow.data[33] == if rwa then 1 else 0)
         && (rwa && !v4 ==> borrow.program != p.v1 && (p.v3.Some? && p.routeRwaToV3 ==> v3))
         && (!rwa && v3 && !v4 ==> p.routeMemecoinsToV3)
  }

  lemma LendingEverywhere(p: Programs, tx: Tx)
    ensures forall i :: 0 <= i < |tx.ixs| ==> (IsMagpieProgram(p, tx.ixs[i].program) <==> Lending(p, tx.ixs[i].program))
  {
  }

  lemma LendingIs(p: Programs, q: Pubkey)
    ensures IsMagpieProgram(p, q) <==> q == p.v1 || p.v3 == Some(q) || p.v4 == Some(q) || p.v41 == Some(q)
  {
  }

  lemma OneBorrowIff(p: Programs, tx: Tx, k: nat)
    requires k < |tx.ixs|
    ensures SoleLending(p, tx, k) <==> BorrowCount(p, tx.ixs, |tx.ixs|) == 1 && FirstBorrow(p, tx.ixs) == k
  {
    hide BorrowCount, FirstBorrow, IsMagpieProgram;
    OneBorrow(p, tx.ixs, |tx.ixs|);
    forall i | 0 <= i < |tx.ixs|
      ensures IsMagpieProgram(p, tx.ixs[i].program) <==>
                (tx.ixs[i].program == p.v1 || p.v3 == Some(tx.ixs[i].program)
                 || p.v4 == Some(tx.ixs[i].program) || p.v41 == Some(tx.ixs[i].program))
    {
      LendingIs(p, tx.ixs[i].program);
    }
    assert SoleLending(p, tx, k) <==> OnlyLending(p, tx.ixs, |tx.ixs|, k);
    if OnlyLending(p, tx.ixs, |tx.ixs|, k) {
      assert FirstBorrow(p, tx.ixs) == k;
    } else if BorrowCount(p, tx.ixs, |tx.ixs|) == 1 {
      var j :| 0 <= j < |tx.ixs| && OnlyLending(p, tx.ixs, |tx.ixs|, j);
      assert FirstBorrow(p, tx.ixs) == j;
    }
  }

  lemma {:induction false} OthersCount(p: Programs, slots: seq<Slot>)
    ensures |OtherSigners(p, slots)| == 0 <==> forall i :: 0 <= i < |slots| ==> !(slots[i].signed && slots[i].key != p.lender)
    ensures |OtherSigners(p, slots)| == 1 <==> exists j :: 0 <= j < |slots| && OneOtherSigned(p, slots, j)
  {
    if slots != [] {
      var n := |slots| - 1;
      var front := slots[..n];
      OthersCount(p, front);
      if slots[n].signed && slots[n].key != p.lender {
        if |OtherSigners(p, front)| == 0 {
          assert OneOtherSigned(p, slots, n);
        }
      } else if |OtherSigners(p, front)| == 1 {
        var j :| 0 <= j < |front| && OneOtherSigned(p, front, j);
        assert OneOtherSigned(p, slots, j);
      }
      if j :| 0 <= j < |slots| && OneOtherSigned(p, slots, j) {
        if j < n {
          assert OneOtherSigned(p, front, j);
        }
      }
    }
  }

  /** The lender has a slot and accounts[8] has signed, as one of no more than one
      other signer. */
  predicate SignersRule(p: Programs, tx: Tx, borrow: Ix) {
    && (exists i :: 0 <= i < |tx.slots| && tx.slots[i].key == p.lender)
    && (exists j :: 0 <= j < |tx.slots| && OneOtherSigned(p, tx.slots, j))
    && 9 <= |borrow.keys| && exists i :: 0 <= i < |tx.slots| && tx.slots[i].key == borrow.keys[8] && tx.slots[i].signed
  }

  /** The account does not exist, or is a token account of somebody else. */
  predicate NotLenders(p: Programs, accounts: map<Pubkey, AccountInfo>, a: Pubkey) {
    a in accounts ==> 165 <= |accounts[a].data| && accounts[a].data[32..64] != p.lender.bytes
  }

  /** No listed token instruction names a lender account, or one that cannot be read
      as a token account, first; and if there is any, the accounts could be read. */
  ghost predicate SourcesRule(p: Programs, tx: Tx, accounts: Option<map<Pubkey, AccountInfo>>) {
    forall i :: 0 <= i < |tx.ixs| && tx.ixs[i].keys != [] && MayLower(p, tx.ixs[i], tx.ixs[i].keys[0]) ==>
      accounts.Some? && NotLenders(p, accounts.value, tx.ixs[i].keys[0])
  }

  lemma HarmlessIs(p: Programs, accounts: map<Pubkey, AccountInfo>, a: Pubkey)
    ensures SourceHarmless(p, accounts, a) <==> NotLenders(p, accounts, a)
  {
    if a in accounts && 165 <= |accounts[a].data| {
      var owner := TokenOwner(accounts[a].data);
      assert owner.bytes == accounts[a].data[32..64];
      assert owner == p.lender <==> owner.bytes == p.lender.bytes;
    }
  }

  lemma SourcesIff(p: Programs, tx: Tx, accounts: Option<map<Pubkey, AccountInfo>>)
    ensures TokenSourcesOk(p, tx, accounts) <==> SourcesRule(p, tx, accounts)
  {
    hide SourceHarmless, NotLenders, ListedOp;
    forall i | 0 <= i < |tx.ixs|
      ensures DrainCapable(p, tx.ixs[i]) <==> tx.ixs[i].keys != [] && MayLower(p, tx.ixs[i], tx.ixs[i].keys[0])
    {
      DrainCapableIs(p, tx.ixs[i]);
    }
    if accounts.Some? {
      forall i | 0 <= i < |tx.ixs| && tx.ixs[i].keys != []
        ensures SourceHarmless(p, accounts.value, tx.ixs[i].keys[0]) <==> NotLenders(p, accounts.value, tx.ixs[i].keys[0])
      {
        HarmlessIs(p, accounts.value, tx.ixs[i].keys[0]);
      }
    }
  }

  lemma CategoryIff(p: Programs, borrow: Ix, q: MintQuery)
    requires 9 <= |borrow.keys|
    ensures GateCategory(p, borrow, q).None? <==> CategoryRule(p, borrow, q)
  {
  }

  /** The `k`-th instruction is the borrow the rules speak of. */
  ghost predicate BorrowRule(p: Programs, tx: Tx, world: World, k: nat)
    requires Fits(tx, world) && k < |tx.ixs|
  {
    var borrow := tx.ixs[k];
    && SoleLending(p, tx, k)
    && 8 <= |borrow.data| && borrow.data[..8] == [21, 217, 199, 183, 6, 96, 200, 52]
    && (p.v3 == Some(borrow.program) ==>
          world.lookups[k] == Some(Stock) || world.lookups[k] == Some(Etf) || world.lookups[k] == Some(Metal))
    && SignersRule(p, tx, borrow)
    && CategoryRule(p, borrow, world.mintQuery)
    && (33 <= |borrow.data| ==> world.policyPasses)
  }

  /** Exactly which transactions are signed. */
  lemma SignedIff(p: Programs, tx: Tx, world: World)
    requires Fits(tx, world)
    ensures Acceptable(p, tx, world) <==>
              && (forall i :: 0 <= i < |tx.ixs| ==>
                    && ProgramListed(p, tx.ixs[i].program)
                    && !(tx.ixs[i].program == p.system && tx.ixs[i].keys != [] && tx.ixs[i].keys[0] == p.lender))
              && SourcesRule(p, tx, world.accounts)
              && (exists k :: 0 <= k < |tx.ixs| && BorrowRule(p, tx, world, k))
              && !world.banned && world.attestationAndKeyReady
  {
    hide OuterAllowed, TokenSourcesOk, SourcesRule, ProgramListed, SignaturesOk, SignersRule, GateCategory, CategoryRule,
         BorrowCount, SoleLending, InstructionAllowed;
    OuterIs(p, tx);
    SourcesIff(p, tx, world.accounts);
    forall k | 0 <= k < |tx.ixs|
      ensures BorrowRule(p, tx, world, k) <==>
                && k == FirstBorrow(p, tx.ixs) && BorrowShapeOk(p, tx, world.lookups) && SignaturesOk(p, tx)
                && GateCategory(p, tx.ixs[k], world.mintQuery).None?
                && (MintIsChecked(tx.ixs[k]) ==> world.policyPasses)
    {
      BorrowRuleIff(p, tx, world, k);
    }
    hide BorrowRule;
  }

  lemma BorrowRuleIff(p: Programs, tx: Tx, world: World, k: nat)
    requires Fits(tx, world) && k < |tx.ixs|
    ensures BorrowRule(p, tx, world, k) <==>
              && k == FirstBorrow(p, tx.ixs) && BorrowShapeOk(p, tx, world.lookups) && SignaturesOk(p, tx)
              && GateCategory(p, tx.ixs[k], world.mintQuery).None?
              && (MintIsChecked(tx.ixs[k]) ==> world.policyPasses)
  {
    hide GateCategory, CategoryRule, BorrowCount, SoleLending, OtherSigners, OneOtherSigned, FirstBorrow;
    OneBorrowIff(p, tx, k);
    OthersCount(p, tx.slots);
    if 9 <= |tx.ixs[k].keys| {
      CategoryIff(p, tx.ixs[k], world.mintQuery);
    }
  }

  function ShortBorrow(p: Programs, borrower: Pubkey): Ix {
    Ix(p.v1, [borrower, borrower, borrower, borrower, borrower, borrower, borrower, borrower, borrower], ALLOWED_DISCRIMINATOR)
  }

  /** A V1 borrow of eight bytes is signed for an RWA mint as for any other, which
      the V1 program must not lend against. */
  lemma ShortBorrowSigned(p: Programs, borrower: Pubkey, c: Category)
    requires DistinctPrograms(p) && borrower != p.lender
    ensures var tx := Tx([ShortBorrow(p, borrower)], [Slot(p.lender, false), Slot(borrower, true)]);
            && FirstBorrow(p, tx.ixs) == 0
            && Acceptable(p, tx, World(Some(map[]), [None], false, Row(c), true, true))
            && (IsRwaMint(c) ==> !CategoryAgrees(p, tx.ixs[0], c))
  {
    var slots := [Slot(p.lender, false), Slot(borrower, true)];
    var one := [Slot(p.lender, false)];
    assert one[..0] == [] && slots[..1] == one;
    assert OtherSigners(p, []) == [];
    assert OtherSigners(p, one) == [];
    assert OtherSigners(p, slots) == [Slot(borrower, true)];
    assert slots[0].key == p.lender && slots[1].key == borrower;
    assert BorrowCount(p, [ShortBorrow(p, borrower)], 0) == 0;
  }

  // ---- Gate 0b against a token ledger ----

  type Balances = map<Pubkey, nat>

  /** The op codes that touch the balance or the authority of account 0. */
  predicate ListedOp(op: Byte) {
    || op == 3 || op == 4 || op == 5 || op == 6 || op == 8 || op == 9
    || op == 12 || op == 13 || op == 15 || op == 26 || op == 27 || op == 37
  }

  /** A token instruction of either program with such a code names this account first. */
  predicate MayLower(p: Programs, ix: Ix, a: Pubkey) {
    && (ix.program == p.token || ix.program == p.token2022)
    && ix.data != [] && ListedOp(ix.data[0]) && ix.keys != [] && ix.keys[0] == a
  }

  /** The ledger rule assumed of the outer instructions: a balance falls only in such
      an instruction. Accounts do not disappear from the ledger. */
  ghost predicate LedgerStep(p: Programs, ix: Ix, before: Balances, after: Balances) {
    forall a :: a in before ==> a in after && (after[a] < before[a] ==> MayLower(p, ix, a))
  }

  lemma DrainCapableIs(p: Programs, ix: Ix)
    ensures DrainCapable(p, ix) <==> ix.keys != [] && MayLower(p, ix, ix.keys[0])
  {
  }

  ghost predicate Execution(p: Programs, ixs: seq<Ix>, states: seq<Balances>) {
    && |states| == |ixs| + 1
    && forall i :: 0 <= i < |ixs| ==> LedgerStep(p, ixs[i], states[i], states[i + 1])
  }

  /** Owned by the lender when the gate looked. */
  predicate LenderOwned(p: Programs, accounts: map<Pubkey, AccountInfo>, a: Pubkey) {
    a in accounts && 64 <= |accounts[a].data| && accounts[a].data[32..64] == p.lender.bytes
  }

  lemma {:induction false} BalanceKept(p: Programs, ixs: seq<Ix>, states: seq<Balances>, a: Pubkey, n: nat)
    requires Execution(p, ixs, states) && n <= |ixs| && a in states[0]
    requires forall i :: 0 <= i < |ixs| ==> !MayLower(p, ixs[i], a)
    ensures a in states[n] && states[0][a] <= states[n][a]
  {
    hide MayLower;
    if n > 0 {
      BalanceKept(p, ixs, states, a, n - 1);
      assert LedgerStep(p, ixs[n - 1], states[n - 1], states[n]);
    }
  }

  /** Executing the instructions of a transaction that passed the gate leaves
      every account the lender owned at check time with at least its balance,
      after every instruction. */
  lemma TokenGateIsSound(p: Programs, tx: Tx, accounts: Option<map<Pubkey, AccountInfo>>,
                         states: seq<Balances>, a: Pubkey, n: nat)
    requires TokenSourcesOk(p, tx, accounts) && accounts.Some? && LenderOwned(p, accounts.value, a)
    requires Execution(p, tx.ixs, states) && n <= |tx.ixs| && a in states[0]
    ensures a in states[n] && states[0][a] <= states[n][a]
  {
    forall i | 0 <= i < |tx.ixs| ensures !MayLower(p, tx.ixs[i], a) {
      DrainCapableIs(p, tx.ixs[i]);
    }
    BalanceKept(p, tx.ixs, states, a, n);
  }

  /** If some drain-capable instruction names an account first, the ledger rule
      allows an execution that empties it. */
  lemma DrainPossible(p: Programs, tx: Tx, a: Pubkey, balance: nat) returns (states: seq<Balances>)
    requires exists i :: 0 <= i < |tx.ixs| && MayLower(p, tx.ixs[i], a)
    ensures Execution(p, tx.ixs, states)
    ensures states[0] == map[a := balance] && states[|tx.ixs|] == map[a := 0]
  {
    var i :| 0 <= i < |tx.ixs| && MayLower(p, tx.ixs[i], a);
    states := seq(|tx.ixs| + 1, k => if k <= i then map[a := balance] else map[a := 0]);
  }

  /** No execution the ledger rule allows lowers a lender account. */
  ghost predicate LenderKeepsAll(p: Programs, tx: Tx, accounts: map<Pubkey, AccountInfo>) {
    forall a, states ::
      LenderOwned(p, accounts, a) && Execution(p, tx.ixs, states) && a in states[0] ==>
        a in states[|tx.ixs|] && states[0][a] <= states[|tx.ixs|][a]
  }

  /** When the sources were read and are token accounts, the gate accepts exactly
      the transactions none of whose executions lowers a lender account. */
  lemma TokenGateIsExact(p: Programs, tx: Tx, accounts: map<Pubkey, AccountInfo>)
    requires forall i, a :: 0 <= i < |tx.ixs| && MayLower(p, tx.ixs[i], a) && a in accounts ==> 165 <= |accounts[a].data|
    ensures TokenSourcesOk(p, tx, Some(accounts)) <==> LenderKeepsAll(p, tx, accounts)
  {
    if TokenSourcesOk(p, tx, Some(accounts)) {
      forall a, states | LenderOwned(p, accounts, a) && Execution(p, tx.ixs, states) && a in states[0]
        ensures a in states[|tx.ixs|] && states[0][a] <= states[|tx.ixs|][a]
      {
        TokenGateIsSound(p, tx, Some(accounts), states, a, |tx.ixs|);
      }
    } else {
      var i :| 0 <= i < |tx.ixs| && DrainCapable(p, tx.ixs[i])
               && !SourceHarmless(p, accounts, tx.ixs[i].keys[0]);
      var a := tx.ixs[i].keys[0];
      DrainCapableIs(p, tx.ixs[i]);
      assert MayLower(p, tx.ixs[i], a);
      var states := DrainPossible(p, tx, a, 1);
      assert LenderOwned(p, accounts, a) && states[0][a] > states[|tx.ixs|][a];
    }
  }
}
