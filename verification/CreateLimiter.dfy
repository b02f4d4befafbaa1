/** The daily cap on accounts created per IP (account-link.js). The check and
    the record are separate: other requests run between them. */
module CreateLimiter {
  import opened SlidingWindow
  import opened RateLimiter

  const PER_IP_CREATE_WINDOW_MS := 24 * 60 * 60 * 1000
  const PER_IP_CREATE_MAX := 8
  const CREATE_EVICTION_SIZE := 5000

  /** `canIpCreateAccount`: prune the bucket, keep it, compare. */
  function Pruned(b: Buckets, ip: Ip, now: int, w: nat): Buckets {
    b[ip := Fresh(Get(b, ip), now, w)]
  }

  /** `recordIpCreate`: push, then perhaps evict. */
  function Pushed(b: Buckets, ip: Ip, now: int, coin: bool, w: nat): Buckets {
    var b' := b[ip := Get(b, ip) + [now]];
    if |b'| > CREATE_EVICTION_SIZE && coin then Evict(b', now, w) else b'
  }

  class CreateGuard {
    const windowMs: nat
    const max: nat
    var buckets: Buckets

    constructor (windowMs: nat, max: nat)
      ensures this.windowMs == windowMs && this.max == max && buckets == map[]
    {
      this.windowMs, this.max, buckets := windowMs, max, map[];
    }

    method CanIpCreateAccount(ip: Ip, now: int) returns (ok: bool)
      modifies this
      ensures ok == (|Fresh(Get(old(buckets), ip), now, windowMs)| < max)
      ensures buckets == Pruned(old(buckets), ip, now, windowMs)
    {
      var recent := Fresh(Get(buckets, ip), now, windowMs);
      buckets := buckets[ip := recent];
      ok := |recent| < max;
    }

    method RecordIpCreate(ip: Ip, now: int, coin: bool)
      modifies this
      ensures buckets == Pushed(old(buckets), ip, now, coin, windowMs)
    {
      buckets := buckets[ip := Get(buckets, ip) + [now]];
      if |buckets| > CREATE_EVICTION_SIZE && coin {
        buckets := EvictStale(buckets, now, windowMs);
      }
    }
  }

  // ---- Requests interleave between check and record ----

  /** A request passes the check, and later either records a created account or
      fails to create one. */
  datatype Event =
    | Check(ip: Ip, now: int)
    | Record(ip: Ip, now: int, coin: bool)
    | CreationFailed(ip: Ip, now: int)

  /** `inFlight` counts the requests between check and record; `log` is the
      unpruned record of created accounts. */
  datatype State = State(buckets: Buckets, inFlight: map<Ip, nat>, log: seq<Entry>)

  const Initial := State(map[], map[], [])

  function InFlight(s: State, ip: Ip): nat {
    if ip in s.inFlight then s.inFlight[ip] else 0
  }

  function Step(s: State, ev: Event, w: nat, max: nat): State {
    match ev
    case Check(ip, now) =>
      var s' := s.(buckets := Pruned(s.buckets, ip, now, w));
      if |Fresh(Get(s.buckets, ip), now, w)| < max
      then s'.(inFlight := s.inFlight[ip := InFlight(s, ip) + 1])
      else s'
    case Record(ip, now, coin) =>
      if InFlight(s, ip) == 0 then s else
        State(Pushed(s.buckets, ip, now, coin, w), s.inFlight[ip := InFlight(s, ip) - 1], s.log + [Entry(ip, now)])
    case CreationFailed(ip, _) =>
      if InFlight(s, ip) == 0 then s else s.(inFlight := s.inFlight[ip := InFlight(s, ip) - 1])
  }

  function Run(evs: seq<Event>, w: nat, max: nat): State {
    if evs == [] then Initial else Step(Run(evs[..|evs| - 1], w, max), evs[|evs| - 1], w, max)
  }

  function Larger(a: nat, b: nat): nat {
    if a < b then b else a
  }

  /** The most requests between check and record at once, before or after an event
      of the window `[lo, lo + w)`. */
  function Peak(evs: seq<Event>, ip: Ip, lo: int, w: nat, max: nat): nat {
    if evs == [] then 0 else
      var front, ev := evs[..|evs| - 1], evs[|evs| - 1];
      var soFar := Peak(front, ip, lo, w, max);
      if lo <= ev.now < lo + w
      then Larger(soFar, Larger(InFlight(Run(front, w, max), ip), InFlight(Run(evs, w, max), ip)))
      else soFar
  }

  predicate EventsInOrder(evs: seq<Event>) {
    forall i, j :: 0 <= i < j < |evs| ==> evs[i].now <= evs[j].now
  }

  ghost predicate AllAgree(s: State, clock: int, w: nat) {
    forall ip :: AgreeOn(Get(s.buckets, ip), Times(s.log, ip), clock, w)
  }

  lemma PruneAgrees(v: seq<int>, ts: seq<int>, clock: int, now: int, w: nat)
    requires AgreeOn(v, ts, clock, w) && clock <= now
    ensures AgreeOn(Fresh(v, now, w), ts, now, w)
  {
    FreshAscending(v, now, w, clock);
    forall later | now <= later ensures Fresh(Fresh(v, now, w), later, w) == Fresh(ts, later, w) {
      FreshOfFresh(v, now, later, w);
    }
  }

  lemma AppendAgrees(v: seq<int>, ts: seq<int>, clock: int, now: int, w: nat)
    requires AgreeOn(v, ts, clock, w) && clock <= now
    ensures AgreeOn(v + [now], ts + [now], now, w)
  {
    hide Fresh;
    AscendingSnoc(v, clock, now);
    AscendingSnoc(ts, clock, now);
    hide Ascending, AllAtMost;
    forall later | now <= later ensures Fresh(v + [now], later, w) == Fresh(ts + [now], later, w) {
      FreshSnoc(v, now, later, w);
      FreshSnoc(ts, now, later, w);
    }
  }

  lemma RecordAgrees(s: State, ev: Event, clock: int, w: nat, ip: Ip)
    requires ev.Record? && AgreeOn(Get(s.buckets, ip), Times(s.log, ip), clock, w) && clock <= ev.now
    ensures AgreeOn(Get(Pushed(s.buckets, ev.ip, ev.now, ev.coin, w), ip),
                    Times(s.log + [Entry(ev.ip, ev.now)], ip), ev.now, w)
  {
    hide Fresh, Times, AgreeOn, Evict;
    var log' := s.log + [Entry(ev.ip, ev.now)];
    TimesSnoc(s.log, Entry(ev.ip, ev.now), ip);
    if ip == ev.ip {
      AppendAgrees(Get(s.buckets, ip), Times(s.log, ip), clock, ev.now, w);
    } else {
      WaitAgrees(Get(s.buckets, ip), Times(s.log, ip), clock, ev.now, w);
    }
    EvictionAgrees(s.buckets[ev.ip := Get(s.buckets, ev.ip) + [ev.now]], log', ev.now, w, ip);
  }

  lemma StepKeepsAgreement(s: State, ev: Event, clock: int, w: nat, max: nat)
    requires AllAgree(s, clock, w) && clock <= ev.now
    ensures AllAgree(Step(s, ev, w, max), ev.now, w)
  {
    hide Fresh, Times, AgreeOn, Evict, Pushed;
    var s' := Step(s, ev, w, max);
    forall ip ensures AgreeOn(Get(s'.buckets, ip), Times(s'.log, ip), ev.now, w) {
      assert AgreeOn(Get(s.buckets, ip), Times(s.log, ip), clock, w);
      if ev.Record? && s' != s {
        RecordAgrees(s, ev, clock, w, ip);
      } else if ev.Check? && ip == ev.ip {
        PruneAgrees(Get(s.buckets, ip), Times(s.log, ip), clock, ev.now, w);
      } else {
        WaitAgrees(Get(s.buckets, ip), Times(s.log, ip), clock, ev.now, w);
      }
    }
  }

  lemma {:induction false} RunAgrees(evs: seq<Event>, w: nat, max: nat)
    requires EventsInOrder(evs) && evs != []
    ensures AllAgree(Run(evs, w, max), evs[|evs| - 1].now, w)
    decreases |evs|
  {
    hide AllAgree, Step;
    var front, ev := evs[..|evs| - 1], evs[|evs| - 1];
    if front == [] {
      InitialAgrees(ev.now, w);
      StepKeepsAgreement(Initial, ev, ev.now, w, max);
    } else {
      RunAgrees(front, w, max);
      StepKeepsAgreement(Run(front, w, max), ev, front[|front| - 1].now, w, max);
    }
  }

  lemma InitialAgrees(clock: int, w: nat)
    ensures AllAgree(Initial, clock, w)
  {
  }

  /** Accounts of `ip` created in `[lo, lo + w)`. */
  function Created(s: State, ip: Ip, lo: int, w: nat): nat {
    CountIn(Times(s.log, ip), lo, lo + w)
  }

  /** While the window is open, requests in flight may still land in it; before it
      opens nothing has. */
  ghost predicate Bounded(s: State, ip: Ip, lo: int, clock: int, w: nat, bound: nat) {
    && (clock < lo ==> Created(s, ip, lo, w) == 0)
    && (lo <= clock < lo + w ==> Created(s, ip, lo, w) + InFlight(s, ip) <= bound)
    && Created(s, ip, lo, w) <= bound
  }

  lemma CheckKeepsBound(s: State, ev: Event, clock: int, w: nat, max: nat, ip: Ip, lo: int, before: nat, peak: nat)
    requires ev.Check? && clock <= ev.now && AllAgree(s, clock, w) && 1 <= max && before <= peak
    requires Bounded(s, ip, lo, clock, w, max - 1 + before)
    requires lo <= ev.now < lo + w ==> InFlight(s, ip) <= peak && InFlight(Step(s, ev, w, max), ip) <= peak
    ensures Bounded(Step(s, ev, w, max), ip, lo, ev.now, w, max - 1 + peak)
  {
    hide Fresh, CountIn, Times;
    if ev.ip == ip && lo <= ev.now < lo + w {
      assert AgreeOn(Get(s.buckets, ip), Times(s.log, ip), clock, w);
      WindowIsFresh(Times(s.log, ip), lo, ev.now, w);
    }
  }

  lemma RecordKeepsBound(s: State, ev: Event, clock: int, w: nat, max: nat, ip: Ip, lo: int, before: nat, peak: nat)
    requires !ev.Check? && clock <= ev.now && 1 <= max && before <= peak
    requires Bounded(s, ip, lo, clock, w, max - 1 + before)
    requires lo <= ev.now < lo + w ==> InFlight(s, ip) <= peak
    ensures Bounded(Step(s, ev, w, max), ip, lo, ev.now, w, max - 1 + peak)
  {
    hide CountIn, Times, Fresh, Pushed;
    if ev.Record? {
      TimesSnoc(s.log, Entry(ev.ip, ev.now), ip);
      CountSnoc(Times(s.log, ip), ev.now, lo, lo + w);
    }
  }

  /** However requests interleave, one address creates at most `max - 1 + k`
      accounts in any window, where `k` is the most requests between check and
      record at once during that window. With one request at a time this is `max`. */
  lemma {:induction false} CreationsBounded(evs: seq<Event>, w: nat, max: nat, ip: Ip, lo: int)
    requires EventsInOrder(evs) && 1 <= max
    ensures Created(Run(evs, w, max), ip, lo, w) <= max - 1 + Peak(evs, ip, lo, w, max)
    ensures evs != [] ==>
              Bounded(Run(evs, w, max), ip, lo, evs[|evs| - 1].now, w, max - 1 + Peak(evs, ip, lo, w, max))
    decreases |evs|
  {
    hide Step, Created, AllAgree;
    if evs == [] {
      NothingCreated(ip, lo, w);
    } else {
      var front, ev := evs[..|evs| - 1], evs[|evs| - 1];
      var s, before, peak := Run(front, w, max), Peak(front, ip, lo, w, max), Peak(evs, ip, lo, w, max);
      CreationsBounded(front, w, max, ip, lo);
      var clock := if front == [] then ev.now else front[|front| - 1].now;
      if front == [] {
        NothingCreated(ip, lo, w);
        InitialAgrees(clock, w);
      } else {
        RunAgrees(front, w, max);
      }
      assert Bounded(s, ip, lo, clock, w, max - 1 + before);
      if ev.Check? {
        CheckKeepsBound(s, ev, clock, w, max, ip, lo, before, peak);
      } else {
        RecordKeepsBound(s, ev, clock, w, max, ip, lo, before, peak);
      }
    }
  }

  lemma NothingCreated(ip: Ip, lo: int, w: nat)
    ensures Created(Initial, ip, lo, w) == 0 && InFlight(Initial, ip) == 0
  {
  }

  /** One request at a time: the cap holds as documented. */
  lemma SequentialCap(evs: seq<Event>, w: nat, max: nat, ip: Ip, lo: int)
    requires EventsInOrder(evs) && 1 <= max && Peak(evs, ip, lo, w, max) <= 1
    ensures Created(Run(evs, w, max), ip, lo, w) <= max
  {
    CreationsBounded(evs, w, max, ip, lo);
  }

  /** At its values: eight accounts a day, plus one for each further request in
      flight. */
  lemma DeployedCap(evs: seq<Event>, ip: Ip, lo: int)
    requires EventsInOrder(evs)
    ensures Created(Run(evs, PER_IP_CREATE_WINDOW_MS, PER_IP_CREATE_MAX), ip, lo, PER_IP_CREATE_WINDOW_MS)
         <= PER_IP_CREATE_MAX - 1 + Peak(evs, ip, lo, PER_IP_CREATE_WINDOW_MS, PER_IP_CREATE_MAX)
  {
    CreationsBounded(evs, PER_IP_CREATE_WINDOW_MS, PER_IP_CREATE_MAX, ip, lo);
  }

  // ---- The bound is attained ----

  function Copies(t: int, n: nat): seq<int> {
    seq(n, _ => t)
  }

  function Repeated(ev: Event, n: nat): seq<Event> {
    seq(n, _ => ev)
  }

  function Alternating(ip: Ip, t: int, n: nat): seq<Event> {
    if n == 0 then [] else Alternating(ip, t, n - 1) + [Check(ip, t), Record(ip, t, false)]
  }

  /** `max - 1` requests one after another, then `k` requests that all check
      before any of them records. */
  function Burst(ip: Ip, t: int, k: nat, max: nat): seq<Event>
    requires 1 <= max
  {
    Alternating(ip, t, max - 1) + Repeated(Check(ip, t), k) + Repeated(Record(ip, t, false), k)
  }

  ghost predicate Holds(s: State, ip: Ip, t: int, n: nat, f: nat) {
    Get(s.buckets, ip) == Copies(t, n) && Times(s.log, ip) == Copies(t, n) && InFlight(s, ip) == f
  }

  lemma {:induction false} FreshCopies(t: int, n: nat, w: nat)
    requires 0 < w
    ensures Fresh(Copies(t, n), t, w) == Copies(t, n)
    ensures CountIn(Copies(t, n), t, t + w) == n
  {
    if n > 0 {
      FreshCopies(t, n - 1, w);
      assert Copies(t, n) == Copies(t, n - 1) + [t];
      FreshSnoc(Copies(t, n - 1), t, t, w);
      CountSnoc(Copies(t, n - 1), t, t, t + w);
    }
  }

  lemma CheckHolds(s: State, ip: Ip, t: int, n: nat, f: nat, w: nat, max: nat)
    requires Holds(s, ip, t, n, f) && n < max && 0 < w
    ensures Holds(Step(s, Check(ip, t), w, max), ip, t, n, f + 1)
  {
    FreshCopies(t, n, w);
    hide Fresh, Times;
  }

  lemma RecordHolds(s: State, ip: Ip, t: int, n: nat, f: nat, w: nat, max: nat)
    requires Holds(s, ip, t, n, f) && 0 < f && 0 < w
    ensures Holds(Step(s, Record(ip, t, false), w, max), ip, t, n + 1, f - 1)
  {
    TimesSnoc(s.log, Entry(ip, t), ip);
    assert Copies(t, n + 1) == Copies(t, n) + [t];
    hide Fresh, Times;
  }

  /** Running one more event. */
  lemma RunSnoc(evs: seq<Event>, ev: Event, ip: Ip, t: int, w: nat, max: nat)
    requires ev.now == t && 0 < w
    ensures Run(evs + [ev], w, max) == Step(Run(evs, w, max), ev, w, max)
    ensures Peak(evs + [ev], ip, t, w, max)
         == Larger(Peak(evs, ip, t, w, max), Larger(InFlight(Run(evs, w, max), ip), InFlight(Run(evs + [ev], w, max), ip)))
  {
    assert (evs + [ev])[..|evs|] == evs;
  }

  lemma {:induction false} AlternatingHolds(ip: Ip, t: int, n: nat, w: nat, max: nat)
    requires n < max && 0 < w
    ensures Holds(Run(Alternating(ip, t, n), w, max), ip, t, n, 0)
    ensures Peak(Alternating(ip, t, n), ip, t, w, max) <= 1
  {
    hide Step, Run, Peak, Times;
    if n == 0 {
      assert Run([], w, max) == Initial && Peak([], ip, t, w, max) == 0 by { EmptyRun(ip, t, w, max); }
      assert Holds(Initial, ip, t, 0, 0) by { EmptyHolds(ip, t); }
    } else {
      var front := Alternating(ip, t, n - 1);
      AlternatingHolds(ip, t, n - 1, w, max);
      RunSnoc(front, Check(ip, t), ip, t, w, max);
      CheckHolds(Run(front, w, max), ip, t, n - 1, 0, w, max);
      RunSnoc(front + [Check(ip, t)], Record(ip, t, false), ip, t, w, max);
      RecordHolds(Run(front + [Check(ip, t)], w, max), ip, t, n - 1, 1, w, max);
      assert Alternating(ip, t, n) == front + [Check(ip, t)] + [Record(ip, t, false)];
    }
  }

  lemma EmptyRun(ip: Ip, t: int, w: nat, max: nat)
    ensures Run([], w, max) == Initial && Peak([], ip, t, w, max) == 0
  {
  }

  lemma EmptyHolds(ip: Ip, t: int)
    ensures Holds(Initial, ip, t, 0, 0)
  {
  }

  lemma {:induction false} ChecksHold(evs: seq<Event>, ip: Ip, t: int, n: nat, k: nat, w: nat, max: nat)
    requires Holds(Run(evs, w, max), ip, t, n, 0) && n < max && 0 < w
    ensures var evs' := evs + Repeated(Check(ip, t), k);
            && Holds(Run(evs', w, max), ip, t, n, k)
            && Peak(evs', ip, t, w, max) == if Peak(evs, ip, t, w, max) < k then k else Peak(evs, ip, t, w, max)
    decreases k
  {
    hide Step, Run, Peak, Times;
    if k == 0 {
      assert evs + Repeated(Check(ip, t), 0) == evs;
    } else {
      ChecksHold(evs, ip, t, n, k - 1, w, max);
      var evs' := evs + Repeated(Check(ip, t), k - 1);
      RunSnoc(evs', Check(ip, t), ip, t, w, max);
      CheckHolds(Run(evs', w, max), ip, t, n, k - 1, w, max);
      assert evs + Repeated(Check(ip, t), k) == evs' + [Check(ip, t)];
    }
  }

  lemma {:induction false} RecordsHold(evs: seq<Event>, ip: Ip, t: int, n: nat, f: nat, k: nat, w: nat, max: nat)
    requires Holds(Run(evs, w, max), ip, t, n, f) && k <= f <= Peak(evs, ip, t, w, max) && 0 < w
    ensures var evs' := evs + Repeated(Record(ip, t, false), k);
            && Holds(Run(evs', w, max), ip, t, n + k, f - k)
            && Peak(evs', ip, t, w, max) == Peak(evs, ip, t, w, max)
    decreases k
  {
    hide Step, Run, Peak, Times;
    if k == 0 {
      assert evs + Repeated(Record(ip, t, false), 0) == evs;
    } else {
      RecordsHold(evs, ip, t, n, f, k - 1, w, max);
      var evs' := evs + Repeated(Record(ip, t, false), k - 1);
      RunSnoc(evs', Record(ip, t, false), ip, t, w, max);
      RecordHolds(Run(evs', w, max), ip, t, n + k - 1, f - (k - 1), w, max);
      assert evs + Repeated(Record(ip, t, false), k) == evs' + [Record(ip, t, false)];
    }
  }

  /** Requests peak at `k` in flight and create as many accounts as that allows. */
  ghost predicate Attains(evs: seq<Event>, ip: Ip, t: int, k: nat, w: nat, max: nat) {
    && EventsInOrder(evs)
    && Peak(evs, ip, t, w, max) == k
    && Created(Run(evs, w, max), ip, t, w) == max - 1 + k
  }

  /** For every `k` there are runs with peak `k` that create `max - 1 + k`. */
  lemma BoundAttained(ip: Ip, t: int, k: nat, w: nat, max: nat)
    requires 1 <= k && 1 <= max && 0 < w
    ensures exists evs :: Attains(evs, ip, t, k, w, max)
  {
    BurstAttains(ip, t, k, w, max);
    hide Attains;
    assert Attains(Burst(ip, t, k, max), ip, t, k, w, max);
  }

  lemma BurstAttains(ip: Ip, t: int, k: nat, w: nat, max: nat)
    requires 1 <= k && 1 <= max && 0 < w
    ensures Attains(Burst(ip, t, k, max), ip, t, k, w, max)
  {
    hide Step, Run, Peak, Times, CountIn;
    AlternatingHolds(ip, t, max - 1, w, max);
    ChecksHold(Alternating(ip, t, max - 1), ip, t, max - 1, k, w, max);
    RecordsHold(Alternating(ip, t, max - 1) + Repeated(Check(ip, t), k), ip, t, max - 1, k, k, w, max);
    FreshCopies(t, max - 1 + k, w);
    AlternatingAt(ip, t, max - 1);
  }

  lemma {:induction false} AlternatingAt(ip: Ip, t: int, n: nat)
    ensures forall ev :: ev in Alternating(ip, t, n) ==> ev.now == t
  {
    if n > 0 {
      AlternatingAt(ip, t, n - 1);
    }
  }
}
