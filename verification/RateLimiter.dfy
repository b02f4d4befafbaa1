/** Per-IP call limiter with randomly timed eviction (`checkIpRate`, in
    account-link.js with a maximum of 60 and in backfill-wallet-loans.js with 20). */
module RateLimiter {
  import opened SlidingWindow

  const PER_IP_WINDOW_MS := 60_000
  const LINK_STATUS_MAX := 60
  const BACKFILL_MAX := 20
  const EVICTION_SIZE := 1000

  datatype Ip = Ip(address: string)

  type Buckets = map<Ip, seq<int>>

  function Get(b: Buckets, ip: Ip): seq<int> {
    if ip in b then b[ip] else []
  }

  predicate IsStale(v: seq<int>, now: int, w: nat) {
    v == [] || now - v[|v| - 1] > w
  }

  /** The bucket map without the buckets whose newest entry is out of date. */
  function Evict(b: Buckets, now: int, w: nat): Buckets {
    map k | k in b && !IsStale(b[k], now, w) :: b[k]
  }

  /** A call: who, when, and how the coin (`Math.random() < 0.004`) falls. */
  datatype Call = Call(ip: Ip, now: int, coin: bool)

  function Allowed(b: Buckets, c: Call, w: nat, max: nat): bool {
    |Fresh(Get(b, c.ip), c.now, w)| < max
  }

  /** The bucket map after a call. A refused call stores nothing. */
  function After(b: Buckets, c: Call, w: nat, max: nat): Buckets {
    if !Allowed(b, c, w, max) then b else
      var b' := b[c.ip := Fresh(Get(b, c.ip), c.now, w) + [c.now]];
      if |b'| > EVICTION_SIZE && c.coin then Evict(b', c.now, w) else b'
  }

  class IpLimiter {
    const windowMs: nat
    const max: nat
    var buckets: Buckets

    constructor (windowMs: nat, max: nat)
      ensures this.windowMs == windowMs && this.max == max && buckets == map[]
    {
      this.windowMs, this.max, buckets := windowMs, max, map[];
    }

    method Check(ip: Ip, now: int, coin: bool) returns (ok: bool)
      modifies this
      ensures ok == Allowed(old(buckets), Call(ip, now, coin), windowMs, max)
      ensures buckets == After(old(buckets), Call(ip, now, coin), windowMs, max)
    {
      var recent := Fresh(Get(buckets, ip), now, windowMs);
      if |recent| >= max {
        return false;
      }
      buckets := buckets[ip := recent + [now]];
      if |buckets| > EVICTION_SIZE && coin {
        buckets := EvictStale(buckets, now, windowMs);
      }
      ok := true;
    }
  }

  /** The clean-up loop over all entries. */
  method EvictStale(before: Buckets, now: int, w: nat) returns (buckets: Buckets)
    ensures buckets == Evict(before, now, w)
  {
    buckets := before;
    var todo := before.Keys;
    while todo != {}
      invariant todo <= before.Keys
      invariant forall k :: k in buckets <==> k in before && (k in todo || !IsStale(before[k], now, w))
      invariant forall k :: k in buckets ==> buckets[k] == before[k]
      decreases |todo|
    {
      var k :| k in todo;
      if IsStale(buckets[k], now, w) {
        buckets := buckets - {k};
      }
      todo := todo - {k};
    }
  }

  // ---- The reference: a log that is never pruned ----

  datatype Entry = Entry(ip: Ip, at: int)

  /** The times logged for one address. */
  function Times(log: seq<Entry>, ip: Ip): seq<int> {
    if log == [] then [] else
      Times(log[..|log| - 1], ip) + if log[|log| - 1].ip == ip then [log[|log| - 1].at] else []
  }

  lemma TimesSnoc(log: seq<Entry>, e: Entry, ip: Ip)
    ensures Times(log + [e], ip) == if e.ip == ip then Times(log, ip) + [e.at] else Times(log, ip)
  {
    assert (log + [e])[..|log|] == log;
  }

  function LogAllows(log: seq<Entry>, c: Call, w: nat, max: nat): bool {
    |Fresh(Times(log, c.ip), c.now, w)| < max
  }

  function LogAfter(log: seq<Entry>, c: Call, w: nat, max: nat): seq<Entry> {
    if LogAllows(log, c, w, max) then log + [Entry(c.ip, c.now)] else log
  }

  /** Times never go back. */
  predicate ClockOk(calls: seq<Call>) {
    forall i, j :: 0 <= i < j < |calls| ==> calls[i].now <= calls[j].now
  }

  function RunBuckets(calls: seq<Call>, w: nat, max: nat): Buckets {
    if calls == [] then map[] else After(RunBuckets(calls[..|calls| - 1], w, max), calls[|calls| - 1], w, max)
  }

  function RunLog(calls: seq<Call>, w: nat, max: nat): seq<Entry> {
    if calls == [] then [] else LogAfter(RunLog(calls[..|calls| - 1], w, max), calls[|calls| - 1], w, max)
  }

  /** From `clock` on, the pruned buckets show what the log shows. */
  ghost predicate Agree(b: Buckets, log: seq<Entry>, clock: int, w: nat) {
    forall ip ::
      && Ascending(Get(b, ip)) && AllAtMost(Get(b, ip), clock)
      && Ascending(Times(log, ip)) && AllAtMost(Times(log, ip), clock)
      && forall now :: clock <= now ==> Fresh(Get(b, ip), now, w) == Fresh(Times(log, ip), now, w)
  }

  ghost predicate AgreeOn(v: seq<int>, ts: seq<int>, clock: int, w: nat) {
    && Ascending(v) && AllAtMost(v, clock) && Ascending(ts) && AllAtMost(ts, clock)
    && forall now :: clock <= now ==> Fresh(v, now, w) == Fresh(ts, now, w)
  }

  lemma AgreeIsPointwise(b: Buckets, log: seq<Entry>, clock: int, w: nat)
    ensures Agree(b, log, clock, w) <==> forall ip :: AgreeOn(Get(b, ip), Times(log, ip), clock, w)
  {
  }

  lemma AscendingSnoc(s: seq<int>, top: int, t: int)
    requires Ascending(s) && AllAtMost(s, top) && top <= t
    ensures Ascending(s + [t]) && AllAtMost(s + [t], t)
  {
  }

  /** Storing an accepted call keeps the two in step. */
  lemma PushAgrees(v: seq<int>, ts: seq<int>, clock: int, now: int, w: nat)
    requires AgreeOn(v, ts, clock, w) && clock <= now
    ensures AgreeOn(Fresh(v, now, w) + [now], ts + [now], now, w)
  {
    hide Fresh;
    FreshAscending(v, now, w, clock);
    AscendingSnoc(Fresh(v, now, w), clock, now);
    AscendingSnoc(ts, clock, now);
    hide Ascending, AllAtMost;
    forall later | now <= later
      ensures Fresh(Fresh(v, now, w) + [now], later, w) == Fresh(ts + [now], later, w)
    {
      FreshSnoc(Fresh(v, now, w), now, later, w);
      FreshSnoc(ts, now, later, w);
      FreshOfFresh(v, now, later, w);
    }
  }

  lemma WaitAgrees(v: seq<int>, ts: seq<int>, clock: int, now: int, w: nat)
    requires AgreeOn(v, ts, clock, w) && clock <= now
    ensures AgreeOn(v, ts, now, w)
  {
  }

  /** Evicting a stale bucket is invisible. */
  lemma EvictAgrees(v: seq<int>, ts: seq<int>, now: int, w: nat)
    requires AgreeOn(v, ts, now, w) && IsStale(v, now, w)
    ensures AgreeOn([], ts, now, w)
  {
    forall later | now <= later ensures Fresh(ts, later, w) == [] {
      AllStale(v, later, w);
    }
  }

  /** The two views of one address stay in step over an accepted call. */
  lemma AcceptAgrees(b: Buckets, log: seq<Entry>, clock: int, c: Call, w: nat, ip: Ip)
    requires AgreeOn(Get(b, ip), Times(log, ip), clock, w) && clock <= c.now
    ensures var b' := b[c.ip := Fresh(Get(b, c.ip), c.now, w) + [c.now]];
            AgreeOn(Get(b', ip), Times(log + [Entry(c.ip, c.now)], ip), c.now, w)
  {
    hide Fresh, Times, AgreeOn;
    TimesSnoc(log, Entry(c.ip, c.now), ip);
    if ip == c.ip {
      PushAgrees(Get(b, ip), Times(log, ip), clock, c.now, w);
    } else {
      WaitAgrees(Get(b, ip), Times(log, ip), clock, c.now, w);
    }
  }

  lemma EvictionAgrees(b: Buckets, log: seq<Entry>, now: int, w: nat, ip: Ip)
    requires AgreeOn(Get(b, ip), Times(log, ip), now, w)
    ensures AgreeOn(Get(Evict(b, now, w), ip), Times(log, ip), now, w)
  {
    hide Fresh, Times, AgreeOn;
    if ip in b && IsStale(b[ip], now, w) {
      EvictAgrees(b[ip], Times(log, ip), now, w);
    }
  }

  lemma StepAgrees(b: Buckets, log: seq<Entry>, clock: int, c: Call, w: nat, max: nat)
    requires Agree(b, log, clock, w) && clock <= c.now
    ensures Allowed(b, c, w, max) == LogAllows(log, c, w, max)
    ensures Agree(After(b, c, w, max), LogAfter(log, c, w, max), c.now, w)
  {
    AgreeIsPointwise(b, log, clock, w);
    assert AgreeOn(Get(b, c.ip), Times(log, c.ip), clock, w);
    var b', log' := After(b, c, w, max), LogAfter(log, c, w, max);
    hide Fresh, Times, AgreeOn, Evict;
    forall ip ensures AgreeOn(Get(b', ip), Times(log', ip), c.now, w) {
      assert AgreeOn(Get(b, ip), Times(log, ip), clock, w);
      if Allowed(b, c, w, max) {
        AcceptAgrees(b, log, clock, c, w, ip);
        EvictionAgrees(b[c.ip := Fresh(Get(b, c.ip), c.now, w) + [c.now]], log', c.now, w, ip);
      } else {
        WaitAgrees(Get(b, ip), Times(log, ip), clock, c.now, w);
      }
    }
    AgreeIsPointwise(b', log', c.now, w);
  }

  lemma {:induction false} RunsAgree(calls: seq<Call>, w: nat, max: nat)
    requires ClockOk(calls)
    ensures forall clock :: (calls != [] ==> calls[|calls| - 1].now <= clock) ==>
              Agree(RunBuckets(calls, w, max), RunLog(calls, w, max), clock, w)
    decreases |calls|
  {
    hide Agree, After, LogAfter;
    if calls == [] {
      forall clock ensures Agree(map[], [], clock, w) {
        NothingAgrees(clock, w);
      }
    } else {
      var front, c := calls[..|calls| - 1], calls[|calls| - 1];
      RunsAgree(front, w, max);
      StepAgrees(RunBuckets(front, w, max), RunLog(front, w, max), c.now, c, w, max);
      forall clock | c.now <= clock
        ensures Agree(RunBuckets(calls, w, max), RunLog(calls, w, max), clock, w)
      {
        AgreeLater(RunBuckets(calls, w, max), RunLog(calls, w, max), c.now, clock, w);
      }
    }
  }

  lemma NothingAgrees(clock: int, w: nat)
    ensures Agree(map[], [], clock, w)
  {
  }

  lemma AgreeLater(b: Buckets, log: seq<Entry>, clock: int, later: int, w: nat)
    requires Agree(b, log, clock, w) && clock <= later
    ensures Agree(b, log, later, w)
  {
  }

  /** Random eviction is unobservable: after any calls, with any coin flips, the
      next call is answered as an unpruned log would answer it. */
  lemma EvictionUnobservable(calls: seq<Call>, next: Call, w: nat, max: nat)
    requires ClockOk(calls + [next])
    ensures Allowed(RunBuckets(calls, w, max), next, w, max) == LogAllows(RunLog(calls, w, max), next, w, max)
  {
    var all := calls + [next];
    assert forall i :: 0 <= i < |calls| ==> all[i] == calls[i];
    assert all[|calls|] == next;
    RunsAgree(calls, w, max);
    StepAgrees(RunBuckets(calls, w, max), RunLog(calls, w, max), next.now, next, w, max);
  }

  /** The calls that the limiter itself accepts. */
  function Accepted(calls: seq<Call>, w: nat, max: nat): seq<Entry> {
    if calls == [] then [] else
      var front, c := calls[..|calls| - 1], calls[|calls| - 1];
      Accepted(front, w, max) + if Allowed(RunBuckets(front, w, max), c, w, max) then [Entry(c.ip, c.now)] else []
  }

  lemma {:induction false} AcceptedIsLog(calls: seq<Call>, w: nat, max: nat)
    requires ClockOk(calls)
    ensures Accepted(calls, w, max) == RunLog(calls, w, max)
  {
    hide RunBuckets, Allowed, LogAllows;
    if calls != [] {
      var front, c := calls[..|calls| - 1], calls[|calls| - 1];
      AcceptedIsLog(front, w, max);
      assert calls == front + [c];
      EvictionUnobservable(front, c, w, max);
    }
  }

  lemma {:induction false} LoggedPerWindow(calls: seq<Call>, w: nat, max: nat, ip: Ip, lo: int)
    requires ClockOk(calls)
    ensures CountIn(Times(RunLog(calls, w, max), ip), lo, lo + w) <= max
    decreases |calls|
  {
    if calls != [] {
      var front, c := calls[..|calls| - 1], calls[|calls| - 1];
      LoggedPerWindow(front, w, max, ip, lo);
      var log := RunLog(front, w, max);
      assert RunLog(calls, w, max) == LogAfter(log, c, w, max);
      if LogAllows(log, c, w, max) {
        TimesSnoc(log, Entry(c.ip, c.now), ip);
        if c.ip == ip {
          CountSnoc(Times(log, ip), c.now, lo, lo + w);
          if lo <= c.now < lo + w {
            RunsAgree(front, w, max);
            assert Agree(RunBuckets(front, w, max), log, c.now, w);
            WindowIsFresh(Times(log, ip), lo, c.now, w);
          }
        }
      }
    }
  }

  /** The limiter accepts at most `max` calls of an address in any stretch shorter
      than the window, whatever it evicts. */
  lemma AcceptedPerWindow(calls: seq<Call>, w: nat, max: nat, ip: Ip, lo: int)
    requires ClockOk(calls)
    ensures CountIn(Times(Accepted(calls, w, max), ip), lo, lo + w) <= max
  {
    AcceptedIsLog(calls, w, max);
    LoggedPerWindow(calls, w, max, ip, lo);
  }

  /** Both limiters at their values: 60 and 20 calls a minute. */
  lemma DeployedLimits(calls: seq<Call>, ip: Ip, lo: int)
    requires ClockOk(calls)
    ensures CountIn(Times(Accepted(calls, PER_IP_WINDOW_MS, LINK_STATUS_MAX), ip), lo, lo + PER_IP_WINDOW_MS) <= LINK_STATUS_MAX
    ensures CountIn(Times(Accepted(calls, PER_IP_WINDOW_MS, BACKFILL_MAX), ip), lo, lo + PER_IP_WINDOW_MS) <= BACKFILL_MAX
  {
    AcceptedPerWindow(calls, PER_IP_WINDOW_MS, LINK_STATUS_MAX, ip, lo);
    AcceptedPerWindow(calls, PER_IP_WINDOW_MS, BACKFILL_MAX, ip, lo);
  }
}
