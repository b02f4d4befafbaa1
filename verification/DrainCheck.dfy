/** The pre-flight balance check on lender-owned accounts
    (`detectLenderBalanceDrain`, cosign-borrow.js). */
module DrainCheck {
  import opened Options
  import opened Positional

  datatype Pubkey = Pubkey(bytes: seq<Byte>)

  /** The addresses the check compares with, and the dust tolerance (by default
      20,000 lamports). */
  datatype Config = Config(lender: Pubkey, tokenProgram: Pubkey, token2022: Pubkey, dustLamports: nat)

  const MAX_ATTEMPTS := 4

  datatype AccountInfo = AccountInfo(lamports: nat, owner: Pubkey, data: seq<Byte>)

  /** An account as the simulator returns it. */
  datatype PostAccount = PostAccount(lamports: nat, data: seq<Byte>)

  /** A thrown RPC error, by the patterns its message matches. */
  datatype RpcError = RpcError(staleBlockhash: bool, transient: bool)

  /** A simulation result. A failing one carries what its detail text matches. */
  datatype SimResult = SimResult(failed: bool, twap: bool, notInitialized: bool, accounts: seq<Option<PostAccount>>)

  datatype Attempt = Threw(error: RpcError) | Returned(sim: SimResult)

  /** Everything one check learns from outside: the pre-state (None when every
      RPC failed) and what each simulation attempt would do. */
  datatype Env = Env(pre: Option<seq<Option<AccountInfo>>>, attempts: seq<Attempt>)

  datatype ErrorClass = StaleBlockhash | Unclassified | RpcExhausted

  datatype Verdict =
    | Ok
    | SimFailed(twap: bool, notInitialized: bool)
    | SolDrain(delta: nat)
    | TokenClosed
    | TokenDrain(delta: nat)
    | Error(kind: ErrorClass)

  function TokenAmount(data: seq<Byte>): nat
    requires 72 <= |data|
  {
    LittleEndian(data[64..72])
  }

  function TokenOwner(data: seq<Byte>): Pubkey
    requires 64 <= |data|
  {
    Pubkey(data[32..64])
  }

  /** A lender account in the transaction: its wallet, or a token account it owns. */
  datatype Touched =
    | Wallet(index: nat, lamports: nat)
    | Token(index: nat, amount: nat)

  /** What one account of the transaction is to the lender. */
  function Classify(cfg: Config, index: nat, key: Pubkey, info: Option<AccountInfo>): Option<Touched> {
    if info.None? then None
    else if key == cfg.lender then Some(Wallet(index, info.value.lamports))
    else if info.value.owner != cfg.tokenProgram && info.value.owner != cfg.token2022 then None
    else if |info.value.data| < 72 then None
    else if TokenOwner(info.value.data) != cfg.lender then None
    else Some(Token(index, TokenAmount(info.value.data)))
  }

  function TouchedUpTo(cfg: Config, keys: seq<Pubkey>, infos: seq<Option<AccountInfo>>, n: nat): seq<Touched>
    requires n <= |keys| == |infos|
  {
    if n == 0 then [] else
      var front := TouchedUpTo(cfg, keys, infos, n - 1);
      var t := Classify(cfg, n - 1, keys[n - 1], infos[n - 1]);
      if t.Some? then front + [t.value] else front
  }

  method LenderTouched(cfg: Config, keys: seq<Pubkey>, infos: seq<Option<AccountInfo>>) returns (touched: seq<Touched>)
    requires |keys| == |infos|
    ensures touched == TouchedUpTo(cfg, keys, infos, |keys|)
  {
    touched := [];
    for i := 0 to |keys|
      invariant touched == TouchedUpTo(cfg, keys, infos, i)
    {
      if infos[i].None? {
        continue;
      }
      var info := infos[i].value;
      if keys[i] == cfg.lender {
        touched := touched + [Wallet(i, info.lamports)];
        continue;
      }
      if info.owner != cfg.tokenProgram && info.owner != cfg.token2022 {
        continue;
      }
      if |info.data| < 72 {
        continue;
      }
      if TokenOwner(info.data) != cfg.lender {
        continue;
      }
      touched := touched + [Token(i, TokenAmount(info.data))];
    }
  }

  // ---- Simulation with retries ----

  /** What the retry loop ends with, looking at attempts `n`, `n + 1`, ... */
  function Simulated(attempts: seq<Attempt>, n: nat): (r: Attempt)
    requires |attempts| == MAX_ATTEMPTS && n < MAX_ATTEMPTS
    decreases MAX_ATTEMPTS - n
  {
    match attempts[n]
    case Returned(sim) => attempts[n]
    case Threw(e) =>
      if e.staleBlockhash || !e.transient || n + 1 == MAX_ATTEMPTS then attempts[n]
      else Simulated(attempts, n + 1)
  }

  function ClassOf(e: RpcError): ErrorClass {
    if e.staleBlockhash then StaleBlockhash
    else if !e.transient then Unclassified
    else RpcExhausted
  }

  method Simulate(attempts: seq<Attempt>) returns (r: Attempt, used: nat)
    requires |attempts| == MAX_ATTEMPTS
    ensures r == Simulated(attempts, 0)
    ensures 1 <= used <= MAX_ATTEMPTS && r == attempts[used - 1]
    ensures forall i :: 0 <= i < used - 1 ==>
              attempts[i].Threw? && attempts[i].error.transient && !attempts[i].error.staleBlockhash
    ensures r.Returned? || r.error.staleBlockhash || !r.error.transient || used == 4
  {
    used := 0;
    r := attempts[0];
    while used < MAX_ATTEMPTS
      invariant 0 <= used <= MAX_ATTEMPTS
      invariant used < MAX_ATTEMPTS ==> Simulated(attempts, used) == Simulated(attempts, 0)
      invariant used > 0 ==> r == attempts[used - 1]
      invariant forall i :: 0 <= i < used ==>
                  attempts[i].Threw? && attempts[i].error.transient && !attempts[i].error.staleBlockhash
      invariant used == MAX_ATTEMPTS ==> r == Simulated(attempts, 0)
    {
      r := attempts[used];
      used := used + 1;
      if r.Returned? {
        return;
      }
      if r.error.staleBlockhash || !r.error.transient {
        return;
      }
    }
  }

  /** The retries end with the first attempt that returned, was stale or not
      transient, or else with the fourth. */
  lemma SimulatedIs(attempts: seq<Attempt>)
    requires |attempts| == 4
    ensures exists n :: 0 <= n < 4 && Simulated(attempts, 0) == attempts[n]
              && (forall i :: 0 <= i < n ==>
                    attempts[i].Threw? && attempts[i].error.transient && !attempts[i].error.staleBlockhash)
              && (n < 3 ==> attempts[n].Returned? || attempts[n].error.staleBlockhash || !attempts[n].error.transient)
  {
    var n := SimulatedFrom(attempts, 0);
  }

  lemma {:induction false} SimulatedFrom(attempts: seq<Attempt>, i: nat) returns (n: nat)
    requires |attempts| == 4 && i < 4
    ensures i <= n < 4 && Simulated(attempts, i) == attempts[n]
    ensures forall j :: i <= j < n ==>
              attempts[j].Threw? && attempts[j].error.transient && !attempts[j].error.staleBlockhash
    ensures n < 3 ==> attempts[n].Returned? || attempts[n].error.staleBlockhash || !attempts[n].error.transient
    decreases 4 - i
  {
    n := i;
    if i < 3 && attempts[i].Threw? && attempts[i].error.transient && !attempts[i].error.staleBlockhash {
      n := SimulatedFrom(attempts, i + 1);
    }
  }

  // ---- Comparing balances ----

  /** The simulator's state of the `i`-th touched account, if it returned one. */
  function PostOf(sim: SimResult, i: nat): Option<PostAccount> {
    if i < |sim.accounts| then sim.accounts[i] else None
  }

  /** What the comparison says about one account; None when it passes. */
  function Complaint(cfg: Config, t: Touched, post: Option<PostAccount>): Option<Verdict> {
    if post.None? then None
    else
      match t
      case Wallet(_, lamports) =>
        if post.value.lamports < lamports && lamports - post.value.lamports > cfg.dustLamports
        then Some(SolDrain(lamports - post.value.lamports)) else None
      case Token(_, amount) =>
        if |post.value.data| < 72 then Some(TokenClosed)
        else if TokenAmount(post.value.data) < amount then Some(TokenDrain(amount - TokenAmount(post.value.data)))
        else None
  }

  /** The account keeps its balance, up to dust for the wallet. */
  predicate Keeps(cfg: Config, t: Touched, post: PostAccount) {
    match t
    case Wallet(_, lamports) => lamports <= post.lamports + cfg.dustLamports
    case Token(_, amount) => 72 <= |post.data| && amount <= TokenAmount(post.data)
  }

  /** Every touched account that came back keeps its balance. */
  predicate AllKeep(cfg: Config, touched: seq<Touched>, sim: SimResult) {
    forall i :: 0 <= i < |touched| && PostOf(sim, i).Some? ==> Keeps(cfg, touched[i], PostOf(sim, i).value)
  }

  /** The first complaint from account `i` on. */
  function Compared(cfg: Config, touched: seq<Touched>, sim: SimResult, i: nat): Verdict
    requires i <= |touched|
    decreases |touched| - i
  {
    if i == |touched| then Ok
    else
      var c := Complaint(cfg, touched[i], PostOf(sim, i));
      if c.Some? then c.value else Compared(cfg, touched, sim, i + 1)
  }

  method Compare(cfg: Config, touched: seq<Touched>, sim: SimResult) returns (v: Verdict)
    ensures v == Compared(cfg, touched, sim, 0)
    ensures v == Ok <==> AllKeep(cfg, touched, sim)
  {
    var i := 0;
    while i < |touched|
      invariant 0 <= i <= |touched|
      invariant Compared(cfg, touched, sim, i) == Compared(cfg, touched, sim, 0)
      invariant forall k :: 0 <= k < i && PostOf(sim, k).Some? ==> Keeps(cfg, touched[k], PostOf(sim, k).value)
    {
      var c := Complaint(cfg, touched[i], PostOf(sim, i));
      if c.Some? {
        assert !Keeps(cfg, touched[i], PostOf(sim, i).value);
        return c.value;
      }
      i := i + 1;
    }
    v := Ok;
  }

  lemma {:induction false} ComparedOkIff(cfg: Config, touched: seq<Touched>, sim: SimResult, i: nat)
    requires i <= |touched|
    ensures Compared(cfg, touched, sim, i) == Ok <==>
              forall k :: i <= k < |touched| && PostOf(sim, k).Some? ==> Keeps(cfg, touched[k], PostOf(sim, k).value)
    decreases |touched| - i
  {
    if i < |touched| {
      ComparedOkIff(cfg, touched, sim, i + 1);
      assert Complaint(cfg, touched[i], PostOf(sim, i)).None? <==>
               (PostOf(sim, i).Some? ==> Keeps(cfg, touched[i], PostOf(sim, i).value));
    }
  }

  // ---- The whole check ----

  predicate EnvFits(keys: seq<Pubkey>, env: Env) {
    (env.pre.Some? ==> |env.pre.value| == |keys|) && |env.attempts| == MAX_ATTEMPTS
  }

  function VerdictOf(cfg: Config, keys: seq<Pubkey>, env: Env): Verdict
    requires EnvFits(keys, env)
  {
    if keys == [] then Ok
    else if env.pre.None? then Error(Unclassified)
    else
      var touched := TouchedUpTo(cfg, keys, env.pre.value, |keys|);
      if touched == [] then Ok
      else
        match Simulated(env.attempts, 0)
        case Threw(e) => Error(ClassOf(e))
        case Returned(sim) =>
          if sim.failed then SimFailed(sim.twap, sim.notInitialized) else Compared(cfg, touched, sim, 0)
  }

  method DetectLenderBalanceDrain(cfg: Config, keys: seq<Pubkey>, env: Env) returns (v: Verdict, used: nat)
    requires EnvFits(keys, env)
    ensures v == VerdictOf(cfg, keys, env)
    ensures used <= MAX_ATTEMPTS
  {
    used := 0;
    if |keys| == 0 {
      return Ok, used;
    }
    if env.pre.None? {
      return Error(Unclassified), used;
    }
    var touched := LenderTouched(cfg, keys, env.pre.value);
    if |touched| == 0 {
      return Ok, used;
    }
    var r;
    r, used := Simulate(env.attempts);
    if r.Threw? {
      return Error(ClassOf(r.error)), used;
    }
    if r.sim.failed {
      return SimFailed(r.sim.twap, r.sim.notInitialized), used;
    }
    v := Compare(cfg, touched, r.sim);
  }

  // ---- The same in terms of the accounts ----

  /** The lender's wallet, or a token account of either program that it owns. */
  predicate IsLenders(cfg: Config, key: Pubkey, info: Option<AccountInfo>) {
    && info.Some?
    && (key == cfg.lender
        || ((info.value.owner == cfg.tokenProgram || info.value.owner == cfg.token2022)
            && 72 <= |info.value.data| && info.value.data[32..64] == cfg.lender.bytes))
  }

  /** How many of the first `i` accounts are the lender's: the simulator returns the
      states of exactly these, in this order. */
  function Rank(cfg: Config, keys: seq<Pubkey>, infos: seq<Option<AccountInfo>>, i: nat): nat
    requires i <= |keys| == |infos|
  {
    if i == 0 then 0 else Rank(cfg, keys, infos, i - 1) + if IsLenders(cfg, keys[i - 1], infos[i - 1]) then 1 else 0
  }

  /** The wallet loses at most dust; a token account is still there and loses nothing. */
  predicate Kept(cfg: Config, key: Pubkey, pre: AccountInfo, post: PostAccount) {
    if key == cfg.lender then pre.lamports <= post.lamports + cfg.dustLamports
    else 72 <= |pre.data| && 72 <= |post.data| && LittleEndian(pre.data[64..72]) <= LittleEndian(post.data[64..72])
  }

  /** The lender's balances survive the simulated transaction: it ran, and every
      lender account whose state came back keeps its balance. */
  predicate Safe(cfg: Config, keys: seq<Pubkey>, infos: seq<Option<AccountInfo>>, sim: SimResult)
    requires |keys| == |infos|
  {
    && !sim.failed
    && forall i :: 0 <= i < |keys| && IsLenders(cfg, keys[i], infos[i]) ==>
         var n := Rank(cfg, keys, infos, i);
         n < |sim.accounts| && sim.accounts[n].Some? ==> Kept(cfg, keys[i], infos[i].value, sim.accounts[n].value)
  }

  /** No account of the transaction belongs to the lender. */
  predicate LenderAbsent(cfg: Config, keys: seq<Pubkey>, infos: seq<Option<AccountInfo>>)
    requires |keys| == |infos|
  {
    forall i :: 0 <= i < |keys| ==> !IsLenders(cfg, keys[i], infos[i])
  }

  /** What stands for account `i` among those compared. */
  predicate StandsFor(cfg: Config, keys: seq<Pubkey>, infos: seq<Option<AccountInfo>>, t: Touched, i: nat)
    requires i < |keys| == |infos|
  {
    && infos[i].Some?
    && if keys[i] == cfg.lender then t == Wallet(i, infos[i].value.lamports)
       else 72 <= |infos[i].value.data| && t == Token(i, LittleEndian(infos[i].value.data[64..72]))
  }

  /** Exactly the lender's accounts are compared, each at its rank. */
  lemma {:induction false} TouchedComplete(cfg: Config, keys: seq<Pubkey>, infos: seq<Option<AccountInfo>>, n: nat)
    requires n <= |keys| == |infos|
    ensures |TouchedUpTo(cfg, keys, infos, n)| == Rank(cfg, keys, infos, n)
    ensures forall i :: 0 <= i < n && IsLenders(cfg, keys[i], infos[i]) ==>
              var r := Rank(cfg, keys, infos, i);
              r < |TouchedUpTo(cfg, keys, infos, n)| && StandsFor(cfg, keys, infos, TouchedUpTo(cfg, keys, infos, n)[r], i)
  {
    if n > 0 {
      TouchedComplete(cfg, keys, infos, n - 1);
      ClassifyIs(cfg, n - 1, keys[n - 1], infos[n - 1]);
    }
  }

  lemma {:induction false} RankOnto(cfg: Config, keys: seq<Pubkey>, infos: seq<Option<AccountInfo>>, n: nat, r: nat)
    returns (i: nat)
    requires n <= |keys| == |infos| && r < Rank(cfg, keys, infos, n)
    ensures i < n && IsLenders(cfg, keys[i], infos[i]) && Rank(cfg, keys, infos, i) == r
  {
    if IsLenders(cfg, keys[n - 1], infos[n - 1]) && r == Rank(cfg, keys, infos, n - 1) {
      i := n - 1;
    } else {
      i := RankOnto(cfg, keys, infos, n - 1, r);
    }
  }

  lemma ClassifyIs(cfg: Config, i: nat, key: Pubkey, info: Option<AccountInfo>)
    ensures var t := Classify(cfg, i, key, info);
            && (t.Some? <==> IsLenders(cfg, key, info))
            && (t.Some? ==> t.value == if key == cfg.lender then Wallet(i, info.value.lamports)
                                       else Token(i, LittleEndian(info.value.data[64..72])))
  {
  }

  lemma {:induction false} RankZeroIff(cfg: Config, keys: seq<Pubkey>, infos: seq<Option<AccountInfo>>, n: nat)
    requires n <= |keys| == |infos|
    ensures Rank(cfg, keys, infos, n) == 0 <==> forall i :: 0 <= i < n ==> !IsLenders(cfg, keys[i], infos[i])
  {
    if n > 0 {
      RankZeroIff(cfg, keys, infos, n - 1);
    }
  }

  lemma SafeIffAllKeep(cfg: Config, keys: seq<Pubkey>, infos: seq<Option<AccountInfo>>, sim: SimResult)
    requires |keys| == |infos|
    ensures Safe(cfg, keys, infos, sim) <==> !sim.failed && AllKeep(cfg, TouchedUpTo(cfg, keys, infos, |keys|), sim)
  {
    hide TouchedUpTo, Rank, IsLenders;
    var touched := TouchedUpTo(cfg, keys, infos, |keys|);
    TouchedComplete(cfg, keys, infos, |keys|);
    forall i | 0 <= i < |keys| && IsLenders(cfg, keys[i], infos[i])
      ensures var n := Rank(cfg, keys, infos, i);
              n < |touched| && (PostOf(sim, n).Some? ==>
                (Keeps(cfg, touched[n], PostOf(sim, n).value) <==> Kept(cfg, keys[i], infos[i].value, PostOf(sim, n).value)))
    {
      assert StandsFor(cfg, keys, infos, touched[Rank(cfg, keys, infos, i)], i);
    }
    if Safe(cfg, keys, infos, sim) {
      forall n | 0 <= n < |touched| && PostOf(sim, n).Some? ensures Keeps(cfg, touched[n], PostOf(sim, n).value) {
        var i := RankOnto(cfg, keys, infos, |keys|, n);
      }
    }
  }

  /** Exactly when the check says ok. */
  lemma OkIff(cfg: Config, keys: seq<Pubkey>, env: Env)
    requires EnvFits(keys, env)
    ensures VerdictOf(cfg, keys, env) == Ok <==>
              || keys == []
              || (env.pre.Some?
                  && (LenderAbsent(cfg, keys, env.pre.value)
                      || (Simulated(env.attempts, 0).Returned?
                          && Safe(cfg, keys, env.pre.value, Simulated(env.attempts, 0).sim))))
  {
    hide TouchedUpTo, Rank, IsLenders, Simulated, Safe, AllKeep;
    if env.pre.Some? {
      var touched := TouchedUpTo(cfg, keys, env.pre.value, |keys|);
      TouchedComplete(cfg, keys, env.pre.value, |keys|);
      RankZeroIff(cfg, keys, env.pre.value, |keys|);
      if Simulated(env.attempts, 0).Returned? {
        var sim := Simulated(env.attempts, 0).sim;
        SafeIffAllKeep(cfg, keys, env.pre.value, sim);
        AllKeepIsOk(cfg, touched, sim);
        if LenderAbsent(cfg, keys, env.pre.value) {
          assert touched == [];
        }
      }
    }
  }

  lemma AllKeepIsOk(cfg: Config, touched: seq<Touched>, sim: SimResult)
    ensures Compared(cfg, touched, sim, 0) == Ok <==> AllKeep(cfg, touched, sim)
  {
    ComparedOkIff(cfg, touched, sim, 0);
  }

  /** Exactly when the check could not be made: nothing could be read, or an account
      of the lender is in the transaction and the simulation threw in the end. */
  lemma ErrorIff(cfg: Config, keys: seq<Pubkey>, env: Env)
    requires EnvFits(keys, env)
    ensures var v, last := VerdictOf(cfg, keys, env), Simulated(env.attempts, 0);
            && (v.Error? <==>
                  keys != [] && (env.pre.None? || (!LenderAbsent(cfg, keys, env.pre.value) && last.Threw?)))
            && (v == Error(StaleBlockhash) <==>
                  && keys != [] && env.pre.Some? && !LenderAbsent(cfg, keys, env.pre.value)
                  && last.Threw? && last.error.staleBlockhash)
            && (v == Error(RpcExhausted) <==>
                  && keys != [] && env.pre.Some? && !LenderAbsent(cfg, keys, env.pre.value)
                  && last.Threw? && !last.error.staleBlockhash && last.error.transient)
  {
    hide TouchedUpTo, Rank, IsLenders, Simulated;
    if env.pre.Some? {
      TouchedComplete(cfg, keys, env.pre.value, |keys|);
      RankZeroIff(cfg, keys, env.pre.value, |keys|);
    }
    if env.pre.Some? && Simulated(env.attempts, 0).Returned? {
      ComparedNoError(cfg, TouchedUpTo(cfg, keys, env.pre.value, |keys|), Simulated(env.attempts, 0).sim, 0);
    }
  }

  lemma {:induction false} ComparedNoError(cfg: Config, touched: seq<Touched>, sim: SimResult, i: nat)
    requires i <= |touched|
    ensures !Compared(cfg, touched, sim, i).Error?
    decreases |touched| - i
  {
    if i < |touched| {
      ComparedNoError(cfg, touched, sim, i + 1);
    }
  }
}
