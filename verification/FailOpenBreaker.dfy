/** The fail-open circuit breaker of the co-sign endpoint (cosign-borrow.js).
    Times are milliseconds; a window of `w` ms is the closed interval [t, t + w]. */
module FailOpenBreaker {
  import opened SlidingWindow

  const FAILOPEN_BREAKER_WINDOW_MS := 5 * 60_000
  const FAILOPEN_BREAKER_THRESHOLD := 5

  datatype Breaker = Breaker(stamps: seq<int>, tripped: bool)

  /** State after `isFailOpenBreakerTripped`; its answer is the new `tripped`. */
  function Queried(b: Breaker, now: int, w: nat): Breaker {
    var stamps := DropBefore(b.stamps, now - w);
    Breaker(stamps, b.tripped && stamps != [])
  }

  /** State after `recordFailOpenAndShouldTrip`. */
  function Recorded(b: Breaker, now: int, w: nat, threshold: nat): Breaker {
    var stamps := DropBefore(b.stamps, now - w) + [now];
    Breaker(stamps, b.tripped || |stamps| >= threshold)
  }

  class FailOpenGuard {
    const windowMs: nat
    const threshold: nat
    var stamps: seq<int>
    var tripped: bool

    ghost function Abstract(): Breaker
      reads this
    {
      Breaker(stamps, tripped)
    }

    constructor (windowMs: nat, threshold: nat)
      ensures this.windowMs == windowMs && this.threshold == threshold
      ensures Abstract() == Breaker([], false)
    {
      this.windowMs, this.threshold, stamps, tripped := windowMs, threshold, [], false;
    }

    /** The pruning loop both entry points start with. */
    method Prune(now: int)
      modifies this`stamps
      ensures stamps == DropBefore(old(stamps), now - windowMs)
    {
      var cutoff := now - windowMs;
      while |stamps| > 0 && stamps[0] < cutoff
        invariant DropBefore(stamps, cutoff) == DropBefore(old(stamps), cutoff)
        decreases |stamps|
      {
        stamps := stamps[1..];
      }
    }

    method RecordFailOpenAndShouldTrip(now: int) returns (trip: bool)
      modifies this
      ensures Abstract() == Recorded(old(Abstract()), now, windowMs, threshold)
      ensures trip ==> tripped
      ensures trip == (|stamps| >= threshold)
    {
      Prune(now);
      stamps := stamps + [now];
      if |stamps| >= threshold {
        tripped := true;
        return true;
      }
      trip := false;
    }

    method IsFailOpenBreakerTripped(now: int) returns (yes: bool)
      modifies this
      ensures Abstract() == Queried(old(Abstract()), now, windowMs) && yes == tripped
    {
      Prune(now);
      if |stamps| == 0 && tripped {
        tripped := false;
      }
      yes := tripped;
    }
  }

  /** How many entries lie in the closed interval `[lo, lo + w]`. */
  function InClosed(s: seq<int>, lo: int, w: nat): nat {
    CountIn(s, lo, lo + w + 1)
  }

  // ---- The breaker against the full list of fail-open times ----

  /** What ties the breaker to `log`, the times of all fail-opens so far. */
  ghost predicate Inv(b: Breaker, log: seq<int>, clock: int, w: nat, threshold: nat) {
    && Ascending(log) && AllAtMost(log, clock)
    && |b.stamps| <= |log| && b.stamps == log[|log| - |b.stamps|..]
    && (b.tripped ==> b.stamps != [])
    && (forall lo, hi :: clock - w <= lo ==> CountIn(b.stamps, lo, hi) == CountIn(log, lo, hi))
    && (forall lo :: clock <= lo + w && InClosed(log, lo, w) >= threshold ==> b.tripped)
    && (forall lo :: InClosed(log, lo, w) <= threshold)
    && (b.tripped ==> exists lo :: InClosed(log, lo, w) == threshold)
  }

  lemma InitialInv(clock: int, w: nat, threshold: nat)
    requires 1 <= threshold
    ensures Inv(Breaker([], false), [], clock, w, threshold)
  {
  }

  lemma SuffixAscending(log: seq<int>, k: nat)
    requires Ascending(log) && k <= |log|
    ensures Ascending(log[k..])
  {
  }

  lemma {:induction false} CountPositive(s: seq<int>, lo: int, hi: int)
    ensures CountIn(s, lo, hi) <= |s|
  {
    if s != [] {
      CountPositive(s[..|s| - 1], lo, hi);
    }
  }

  lemma {:induction false} CountAll(s: seq<int>, lo: int, hi: int)
    requires forall i :: 0 <= i < |s| ==> lo <= s[i] < hi
    ensures CountIn(s, lo, hi) == |s|
  {
    if s != [] {
      CountAll(s[..|s| - 1], lo, hi);
    }
  }

  /** Dropping from a suffix leaves a suffix. */
  lemma DropOfSuffix(log: seq<int>, s: seq<int>, cutoff: int)
    requires Ascending(log) && |s| <= |log| && s == log[|log| - |s|..]
    ensures var r := DropBefore(s, cutoff);
            |r| <= |log| && r == log[|log| - |r|..] && Ascending(r)
  {
    SuffixAscending(log, |log| - |s|);
    DropBeforeExact(s, cutoff);
    var r := DropBefore(s, cutoff);
    assert s[|s| - |r|..] == log[|log| - |r|..];
  }

  lemma QueryKeepsInv(b: Breaker, log: seq<int>, clock: int, now: int, w: nat, threshold: nat)
    requires Inv(b, log, clock, w, threshold) && clock <= now && 1 <= threshold
    ensures Inv(Queried(b, now, w), log, now, w, threshold)
  {
    hide CountIn, DropBefore;
    var b' := Queried(b, now, w);
    DropOfSuffix(log, b.stamps, now - w);
    forall lo, hi | now - w <= lo ensures CountIn(b'.stamps, lo, hi) == CountIn(log, lo, hi) {
      DropBeforeKeeps(b.stamps, now - w, lo, hi);
    }
    forall lo | now <= lo + w && InClosed(log, lo, w) >= threshold ensures b'.tripped {
      assert InClosed(b'.stamps, lo, w) >= threshold;
      CountPositive(b'.stamps, lo, lo + w + 1);
    }
  }

  lemma RecordKeepsInv(b: Breaker, log: seq<int>, clock: int, now: int, w: nat, threshold: nat)
    requires Inv(b, log, clock, w, threshold) && clock <= now && !b.tripped
    ensures Inv(Recorded(b, now, w, threshold), log + [now], now, w, threshold)
  {
    hide CountIn, DropBefore;
    var b', log' := Recorded(b, now, w, threshold), log + [now];
    var kept := DropBefore(b.stamps, now - w);
    DropOfSuffix(log, b.stamps, now - w);
    assert b'.stamps == log'[|log'| - |b'.stamps|..];
    forall lo, hi | now - w <= lo ensures CountIn(b'.stamps, lo, hi) == CountIn(log', lo, hi) {
      DropBeforeKeeps(b.stamps, now - w, lo, hi);
      CountSnoc(kept, now, lo, hi);
      CountSnoc(log, now, lo, hi);
    }
    forall lo ensures InClosed(log', lo, w) <= threshold
      ensures now <= lo + w && InClosed(log', lo, w) >= threshold ==> b'.tripped
    {
      CountSnoc(log, now, lo, lo + w + 1);
      assert InClosed(log, lo, w) <= threshold;
      if now <= lo + w && InClosed(log', lo, w) >= threshold {
        CountPositive(b'.stamps, lo, lo + w + 1);
        assert InClosed(log, lo, w) < threshold;
      }
    }
    if b'.tripped {
      SuffixAscending(log, |log| - |b.stamps|);
      DropBeforeExact(b.stamps, now - w);
      CountAll(b'.stamps, now - w, now + 1);
      assert InClosed(log', now - w, w) == |b'.stamps|;
    }
  }

  /** A tripped breaker answers "tripped" exactly while at most a full window has
      passed since the last fail-open; the first later query clears it. */
  lemma LatchesForOneWindow(b: Breaker, log: seq<int>, clock: int, now: int, w: nat, threshold: nat)
    requires Inv(b, log, clock, w, threshold) && b.tripped && clock <= now
    ensures log != []
    ensures Queried(b, now, w).tripped <==> now - log[|log| - 1] <= w
  {
    hide CountIn;
    SuffixAscending(log, |log| - |b.stamps|);
    DropBeforeExact(b.stamps, now - w);
    var r := DropBefore(b.stamps, now - w);
    assert b.stamps[|b.stamps| - 1] == log[|log| - 1];
    if r != [] {
      assert r[|r| - 1] == b.stamps[|b.stamps| - 1];
    }
  }
}
