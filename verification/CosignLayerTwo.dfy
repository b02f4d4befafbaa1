/** The last stage before broadcast: drain checks with bounded re-tries, then the
    fail-open decision (cosign-borrow.js). */
module CosignLayerTwo {
  import opened SlidingWindow
  import opened DrainCheck
  import opened FailOpenBreaker

  const MAX_TWAP_RETRIES := 3
  const MAX_INIT_HEALS := 2
  const MAX_CHECKS := 6

  // ---- The two retry loops ----

  /** Where the re-warm loop stops, standing at verdict `i` after `retries`. */
  function TwapLoop(vs: seq<Verdict>, i: nat, retries: nat): (j: nat)
    requires |vs| == MAX_CHECKS && retries <= MAX_TWAP_RETRIES && i <= retries
    ensures i <= j <= MAX_TWAP_RETRIES
    decreases MAX_TWAP_RETRIES - retries
  {
    if vs[i].SimFailed? && vs[i].twap && retries < MAX_TWAP_RETRIES then TwapLoop(vs, i + 1, retries + 1) else i
  }

  /** Where the account-initialising loop stops. */
  function InitLoop(vs: seq<Verdict>, i: nat, heals: nat): (j: nat)
    requires |vs| == MAX_CHECKS && heals <= MAX_INIT_HEALS && i <= MAX_TWAP_RETRIES + heals
    ensures i <= j < MAX_CHECKS
    decreases MAX_INIT_HEALS - heals
  {
    if vs[i].SimFailed? && vs[i].notInitialized && heals < MAX_INIT_HEALS then InitLoop(vs, i + 1, heals + 1) else i
  }

  /** Index of the last check made when the checks would turn out as `vs`. */
  function LastCheck(vs: seq<Verdict>): (j: nat)
    requires |vs| == MAX_CHECKS
    ensures j < MAX_CHECKS
  {
    InitLoop(vs, TwapLoop(vs, 0, 0), 0)
  }

  ghost function AllVerdicts(cfg: Config, keys: seq<Pubkey>, envs: seq<Env>): (vs: seq<Verdict>)
    requires forall i :: 0 <= i < |envs| ==> EnvFits(keys, envs[i])
    ensures |vs| == |envs| && forall i :: 0 <= i < |envs| ==> vs[i] == VerdictOf(cfg, keys, envs[i])
  {
    seq(|envs|, i requires 0 <= i < |envs| => VerdictOf(cfg, keys, envs[i]))
  }

  /** Check, re-warm and check again up to three times, then initialise missing
      accounts and check again up to twice. A thrown error ends both loops. */
  method RunChecks(cfg: Config, keys: seq<Pubkey>, envs: seq<Env>) returns (v: Verdict, checks: nat, maxAttempts: nat)
    requires |envs| == MAX_CHECKS && forall i :: 0 <= i < |envs| ==> EnvFits(keys, envs[i])
    ensures 1 <= checks <= MAX_CHECKS && checks - 1 == LastCheck(AllVerdicts(cfg, keys, envs))
    ensures v == VerdictOf(cfg, keys, envs[checks - 1])
    ensures maxAttempts <= MAX_ATTEMPTS
  {
    ghost var vs := AllVerdicts(cfg, keys, envs);
    v, maxAttempts := DetectLenderBalanceDrain(cfg, keys, envs[0]);
    checks := 1;
    var twapRetries := 0;
    while v.SimFailed? && v.twap && twapRetries < MAX_TWAP_RETRIES
      invariant 0 <= twapRetries <= MAX_TWAP_RETRIES && checks == twapRetries + 1
      invariant v == vs[checks - 1] && maxAttempts <= MAX_ATTEMPTS
      invariant TwapLoop(vs, checks - 1, twapRetries) == TwapLoop(vs, 0, 0)
    {
      twapRetries := twapRetries + 1;
      var used;
      v, used := DetectLenderBalanceDrain(cfg, keys, envs[checks]);
      maxAttempts := if used > maxAttempts then used else maxAttempts;
      checks := checks + 1;
    }
    var initHealRetries := 0;
    while v.SimFailed? && v.notInitialized && initHealRetries < MAX_INIT_HEALS
      invariant 0 <= initHealRetries <= MAX_INIT_HEALS && checks <= MAX_TWAP_RETRIES + 1 + initHealRetries
      invariant v == vs[checks - 1] && maxAttempts <= MAX_ATTEMPTS
      invariant InitLoop(vs, checks - 1, initHealRetries) == LastCheck(vs)
    {
      initHealRetries := initHealRetries + 1;
      var used;
      v, used := DetectLenderBalanceDrain(cfg, keys, envs[checks]);
      maxAttempts := if used > maxAttempts then used else maxAttempts;
      checks := checks + 1;
    }
  }

  /** Every check but the last failed in a way a retry may cure. */
  lemma EarlierChecksRetryable(vs: seq<Verdict>)
    requires |vs| == MAX_CHECKS
    ensures forall i :: 0 <= i < LastCheck(vs) ==> vs[i].SimFailed? && (vs[i].twap || vs[i].notInitialized)
  {
    var k := TwapLoop(vs, 0, 0);
    TwapPrefix(vs, 0, 0);
    InitPrefix(vs, k, 0);
  }

  lemma {:induction false} TwapPrefix(vs: seq<Verdict>, i: nat, retries: nat)
    requires |vs| == MAX_CHECKS && retries <= MAX_TWAP_RETRIES && i <= retries
    ensures forall k :: i <= k < TwapLoop(vs, i, retries) ==> vs[k].SimFailed? && vs[k].twap
    decreases MAX_TWAP_RETRIES - retries
  {
    if vs[i].SimFailed? && vs[i].twap && retries < MAX_TWAP_RETRIES {
      TwapPrefix(vs, i + 1, retries + 1);
    }
  }

  lemma {:induction false} InitPrefix(vs: seq<Verdict>, i: nat, heals: nat)
    requires |vs| == MAX_CHECKS && heals <= MAX_INIT_HEALS && i <= MAX_TWAP_RETRIES + heals
    ensures forall k :: i <= k < InitLoop(vs, i, heals) ==> vs[k].SimFailed? && vs[k].notInitialized
    decreases MAX_INIT_HEALS - heals
  {
    if vs[i].SimFailed? && vs[i].notInitialized && heals < MAX_INIT_HEALS {
      InitPrefix(vs, i + 1, heals + 1);
    }
  }

  predicate Cures(v: Verdict, twap: bool) {
    v.SimFailed? && if twap then v.twap else v.notInitialized
  }

  /** The re-warm loop goes on while the simulation lacks history, at most three
      times; then the other while accounts are missing, at most twice. */
  lemma LastCheckIs(vs: seq<Verdict>)
    requires |vs| == 6
    ensures exists i :: 0 <= i <= 3 && LoopsEnd(vs, i, LastCheck(vs))
  {
    var i := TwapLoop(vs, 0, 0);
    TwapPrefix(vs, 0, 0);
    TwapStops(vs, 0, 0);
    InitPrefix(vs, i, 0);
    InitStops(vs, i, 0);
    assert LoopsEnd(vs, i, LastCheck(vs));
  }

  ghost predicate LoopsEnd(vs: seq<Verdict>, i: nat, n: nat)
    requires |vs| == 6
  {
    && i <= 3 && i <= n <= i + 2
    && (forall k :: 0 <= k < i ==> Cures(vs[k], true)) && (i < 3 ==> !Cures(vs[i], true))
    && (forall k :: i <= k < n ==> Cures(vs[k], false)) && (n < i + 2 ==> !Cures(vs[n], false))
  }

  lemma {:induction false} TwapStops(vs: seq<Verdict>, i: nat, retries: nat)
    requires |vs| == MAX_CHECKS && retries <= MAX_TWAP_RETRIES && i == retries
    ensures var j := TwapLoop(vs, i, retries); j < 3 ==> !Cures(vs[j], true)
    decreases MAX_TWAP_RETRIES - retries
  {
    if Cures(vs[i], true) && retries < MAX_TWAP_RETRIES {
      TwapStops(vs, i + 1, retries + 1);
    }
  }

  lemma {:induction false} InitStops(vs: seq<Verdict>, i: nat, heals: nat)
    requires |vs| == MAX_CHECKS && heals <= MAX_INIT_HEALS && i <= MAX_TWAP_RETRIES + heals
    ensures var j := InitLoop(vs, i, heals); j <= i + 2 - heals && (j < i + 2 - heals ==> !Cures(vs[j], false))
    decreases MAX_INIT_HEALS - heals
  {
    if Cures(vs[i], false) && heals < MAX_INIT_HEALS {
      InitStops(vs, i + 1, heals + 1);
    }
  }

  // ---- The decision ----

  datatype Decision = Refused | Broadcast(failOpen: bool)

  /** One request as the decision sees it: its last verdict, when the breaker was
      queried and the fail-open recorded, and the forced fail-closed switch. */
  datatype Request = Request(last: Verdict, queryAt: int, recordAt: int, forcedClosed: bool)

  function Decide(b: Breaker, r: Request, w: nat, threshold: nat): (Breaker, Decision) {
    match r.last
    case Ok => (b, Broadcast(false))
    case Error(kind) =>
      if kind == StaleBlockhash then (b, Refused)
      else
        var q := Queried(b, r.queryAt, w);
        if r.forcedClosed || q.tripped then (q, Refused)
        else (Recorded(q, r.recordAt, w, threshold), Broadcast(true))
    case _ => (b, Refused)
  }

  class LayerTwo {
    const cfg: Config
    const guard: FailOpenGuard

    constructor (cfg: Config, windowMs: nat, threshold: nat)
      ensures this.cfg == cfg && fresh(guard) && guard.windowMs == windowMs && guard.threshold == threshold
      ensures guard.Abstract() == Breaker([], false)
    {
      this.cfg := cfg;
      guard := new FailOpenGuard(windowMs, threshold);
    }

    /** From the signed transaction to broadcast or refusal. */
    method Handle(keys: seq<Pubkey>, envs: seq<Env>, queryAt: int, recordAt: int, forcedClosed: bool)
      returns (d: Decision, checks: nat, maxAttempts: nat)
      requires |envs| == MAX_CHECKS && forall i :: 0 <= i < |envs| ==> EnvFits(keys, envs[i])
      modifies guard
      ensures 1 <= checks <= MAX_CHECKS && maxAttempts <= MAX_ATTEMPTS
      ensures checks - 1 == LastCheck(AllVerdicts(cfg, keys, envs))
      ensures var r := Request(VerdictOf(cfg, keys, envs[checks - 1]), queryAt, recordAt, forcedClosed);
              (guard.Abstract(), d) == Decide(old(guard.Abstract()), r, guard.windowMs, guard.threshold)
    {
      var v;
      v, checks, maxAttempts := RunChecks(cfg, keys, envs);
      if v == Ok {
        return Broadcast(false), checks, maxAttempts;
      }
      if !v.Error? || v.kind == StaleBlockhash {
        return Refused, checks, maxAttempts;
      }
      var breakerTripped := guard.IsFailOpenBreakerTripped(queryAt);
      if forcedClosed || breakerTripped {
        return Refused, checks, maxAttempts;
      }
      var justTripped := guard.RecordFailOpenAndShouldTrip(recordAt);
      d := Broadcast(true);
    }
  }

  /** What a broadcast tells: the last check was safe for the lender, or it could
      not be made, and then nothing forbade failing open. And conversely. */
  lemma BroadcastIff(cfg: Config, keys: seq<Pubkey>, env: Env, b: Breaker,
                     queryAt: int, recordAt: int, forcedClosed: bool, w: nat, threshold: nat)
    requires EnvFits(keys, env)
    ensures var r := Request(VerdictOf(cfg, keys, env), queryAt, recordAt, forcedClosed);
            var d := Decide(b, r, w, threshold).1;
            && (d == Broadcast(false) <==>
                  || keys == []
                  || (env.pre.Some?
                      && (LenderAbsent(cfg, keys, env.pre.value)
                          || (Simulated(env.attempts, 0).Returned?
                              && Safe(cfg, keys, env.pre.value, Simulated(env.attempts, 0).sim)))))
            && (d == Broadcast(true) <==>
                  && keys != []
                  && (env.pre.None?
                      || (!LenderAbsent(cfg, keys, env.pre.value) && Simulated(env.attempts, 0).Threw?
                          && !Simulated(env.attempts, 0).error.staleBlockhash))
                  && !forcedClosed && !Queried(b, queryAt, w).tripped)
  {
    hide VerdictOf, LenderAbsent, Safe, Simulated, Queried, Recorded;
    OkIff(cfg, keys, env);
    ErrorIff(cfg, keys, env);
  }

  // ---- All request histories ----

  /** The breaker and the times of all fail-open broadcasts after `reqs`. */
  function Run(reqs: seq<Request>, w: nat, threshold: nat): (Breaker, seq<int>) {
    if reqs == [] then (Breaker([], false), []) else
      var (b, log) := Run(reqs[..|reqs| - 1], w, threshold);
      var r := reqs[|reqs| - 1];
      var (b', d) := Decide(b, r, w, threshold);
      (b', if d == Broadcast(true) then log + [r.recordAt] else log)
  }

  /** The clock never goes back, within a request or between requests. */
  predicate InOrder(reqs: seq<Request>) {
    && (forall i :: 0 <= i < |reqs| ==> reqs[i].queryAt <= reqs[i].recordAt)
    && (forall i, j :: 0 <= i < j < |reqs| ==> reqs[i].recordAt <= reqs[j].queryAt)
  }

  lemma InvLater(b: Breaker, log: seq<int>, clock: int, later: int, w: nat, threshold: nat)
    requires Inv(b, log, clock, w, threshold) && clock <= later
    ensures Inv(b, log, later, w, threshold)
  {
    hide CountIn;
  }

  lemma DecideKeepsInv(b: Breaker, log: seq<int>, clock: int, r: Request, w: nat, threshold: nat)
    requires Inv(b, log, clock, w, threshold) && clock <= r.queryAt <= r.recordAt && 1 <= threshold
    ensures var (b', d) := Decide(b, r, w, threshold);
            Inv(b', if d == Broadcast(true) then log + [r.recordAt] else log, r.recordAt, w, threshold)
  {
    hide Inv, Recorded;
    if r.last.Error? && r.last.kind != StaleBlockhash {
      QueryKeepsInv(b, log, clock, r.queryAt, w, threshold);
      var q := Queried(b, r.queryAt, w);
      if r.forcedClosed || q.tripped {
        InvLater(q, log, r.queryAt, r.recordAt, w, threshold);
      } else {
        RecordKeepsInv(q, log, r.queryAt, r.recordAt, w, threshold);
      }
    } else {
      InvLater(b, log, clock, r.recordAt, w, threshold);
    }
  }

  lemma {:induction false} HistoryInv(reqs: seq<Request>, w: nat, threshold: nat)
    requires InOrder(reqs) && 1 <= threshold
    ensures forall clock :: (reqs != [] ==> reqs[|reqs| - 1].recordAt <= clock) ==>
              Inv(Run(reqs, w, threshold).0, Run(reqs, w, threshold).1, clock, w, threshold)
    decreases |reqs|
  {
    hide Inv, Decide;
    if reqs == [] {
      forall clock ensures Inv(Breaker([], false), [], clock, w, threshold) {
        InitialInv(clock, w, threshold);
      }
    } else {
      var front, r := reqs[..|reqs| - 1], reqs[|reqs| - 1];
      HistoryInv(front, w, threshold);
      var (b0, log0) := Run(front, w, threshold);
      assert front != [] ==> front[|front| - 1].recordAt <= r.queryAt;
      assert Inv(b0, log0, r.queryAt, w, threshold);
      DecideKeepsInv(b0, log0, r.queryAt, r, w, threshold);
      var (b, log) := Run(reqs, w, threshold);
      forall clock | r.recordAt <= clock ensures Inv(b, log, clock, w, threshold) {
        InvLater(b, log, r.recordAt, clock, w, threshold);
      }
    }
  }

  /** Over all request histories, any closed window of the breaker's length holds
      at most `threshold` fail-open broadcasts. */
  lemma FailOpensBounded(reqs: seq<Request>, w: nat, threshold: nat, lo: int)
    requires InOrder(reqs) && 1 <= threshold
    ensures InClosed(Run(reqs, w, threshold).1, lo, w) <= threshold
  {
    HistoryInv(reqs, w, threshold);
    var (b, log) := Run(reqs, w, threshold);
    var clock := if reqs == [] then 0 else reqs[|reqs| - 1].recordAt;
    assert Inv(b, log, clock, w, threshold);
  }

  /** At its values: five fail-opens in five minutes. */
  lemma DeployedFailOpens(reqs: seq<Request>, lo: int)
    requires InOrder(reqs)
    ensures InClosed(Run(reqs, FAILOPEN_BREAKER_WINDOW_MS, FAILOPEN_BREAKER_THRESHOLD).1, lo, FAILOPEN_BREAKER_WINDOW_MS)
         <= FAILOPEN_BREAKER_THRESHOLD
  {
    FailOpensBounded(reqs, FAILOPEN_BREAKER_WINDOW_MS, FAILOPEN_BREAKER_THRESHOLD, lo);
  }

  /** After any history a tripped breaker has reason to be: some window is full.
      It answers "tripped" to a query exactly while at most a window has passed
      since the last fail-open. */
  lemma TrippedExactly(reqs: seq<Request>, w: nat, threshold: nat, now: int)
    requires InOrder(reqs) && 1 <= threshold && (reqs != [] ==> reqs[|reqs| - 1].recordAt <= now)
    requires Run(reqs, w, threshold).0.tripped
    ensures var (b, log) := Run(reqs, w, threshold);
            && (exists lo :: InClosed(log, lo, w) == threshold)
            && log != []
            && (Queried(b, now, w).tripped <==> now - log[|log| - 1] <= w)
  {
    HistoryInv(reqs, w, threshold);
    var (b, log) := Run(reqs, w, threshold);
    assert Inv(b, log, now, w, threshold);
    LatchesForOneWindow(b, log, now, now, w, threshold);
  }

  /** A full closed window ending now or later means the breaker is tripped. */
  lemma FullWindowTrips(reqs: seq<Request>, w: nat, threshold: nat, now: int, lo: int)
    requires InOrder(reqs) && 1 <= threshold && (reqs != [] ==> reqs[|reqs| - 1].recordAt <= now)
    requires now <= lo + w && InClosed(Run(reqs, w, threshold).1, lo, w) == threshold
    ensures Queried(Run(reqs, w, threshold).0, now, w).tripped
  {
    HistoryInv(reqs, w, threshold);
    var (b, log) := Run(reqs, w, threshold);
    assert Inv(b, log, now, w, threshold);
    QueryKeepsInv(b, log, now, now, w, threshold);
  }
}
