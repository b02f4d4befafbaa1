/** Timestamp lists pruned to a sliding window. */
module SlidingWindow {

  /** `bucket.filter((t) => now - t < w)` */
  function Fresh(s: seq<int>, now: int, w: nat): seq<int> {
    if s == [] then [] else
      var last := s[|s| - 1];
      Fresh(s[..|s| - 1], now, w) + if now - last < w then [last] else []
  }

  /** `while (s.length > 0 && s[0] < cutoff) s.shift()` */
  function DropBefore(s: seq<int>, cutoff: int): seq<int> {
    if s != [] && s[0] < cutoff then DropBefore(s[1..], cutoff) else s
  }

  /** How many entries lie in `[lo, hi)`. */
  function CountIn(s: seq<int>, lo: int, hi: int): nat {
    if s == [] then 0 else
      CountIn(s[..|s| - 1], lo, hi) + if lo <= s[|s| - 1] < hi then 1 else 0
  }

  predicate Ascending(s: seq<int>) {
    forall i, j :: 0 <= i < j < |s| ==> s[i] <= s[j]
  }

  predicate AllAtMost(s: seq<int>, t: int) {
    forall i :: 0 <= i < |s| ==> s[i] <= t
  }

  lemma FreshSnoc(s: seq<int>, t: int, now: int, w: nat)
    ensures Fresh(s + [t], now, w) == Fresh(s, now, w) + if now - t < w then [t] else []
  {
    assert (s + [t])[..|s|] == s;
  }

  lemma CountSnoc(s: seq<int>, t: int, lo: int, hi: int)
    ensures CountIn(s + [t], lo, hi) == CountIn(s, lo, hi) + if lo <= t < hi then 1 else 0
  {
    assert (s + [t])[..|s|] == s;
  }

  /** Pruning early loses nothing that a later look would still see. */
  lemma {:induction false} FreshOfFresh(s: seq<int>, early: int, now: int, w: nat)
    requires early <= now
    ensures Fresh(Fresh(s, early, w), now, w) == Fresh(s, now, w)
  {
    if s != [] {
      var front, last := s[..|s| - 1], s[|s| - 1];
      FreshOfFresh(front, early, now, w);
      if early - last < w {
        FreshSnoc(Fresh(front, early, w), last, now, w);
      } else {
        assert Fresh(s, early, w) == Fresh(front, early, w);
      }
    }
  }

  lemma {:induction false} FreshAscending(s: seq<int>, now: int, w: nat, top: int)
    requires Ascending(s) && AllAtMost(s, top)
    ensures Ascending(Fresh(s, now, w)) && AllAtMost(Fresh(s, now, w), top)
    decreases |s|
  {
    if s != [] {
      var front, last := s[..|s| - 1], s[|s| - 1];
      FreshAscending(front, now, w, last);
    }
  }

  /** If the newest entry is stale, so is every entry, and stays so. */
  lemma {:induction false} AllStale(s: seq<int>, now: int, w: nat)
    requires forall i :: 0 <= i < |s| ==> now - s[i] >= w
    ensures Fresh(s, now, w) == []
  {
    if s != [] {
      AllStale(s[..|s| - 1], now, w);
    }
  }

  /** Entries of a window that ends no later than `now + 1` and reaches back
      less than `w` are all fresh at `now`. */
  lemma {:induction false} WindowIsFresh(s: seq<int>, lo: int, now: int, w: nat)
    requires AllAtMost(s, now) && now - lo < w
    ensures CountIn(s, lo, lo + w) <= |Fresh(s, now, w)|
  {
    if s != [] {
      WindowIsFresh(s[..|s| - 1], lo, now, w);
    }
  }

  lemma {:induction false} CountNone(s: seq<int>, lo: int, hi: int)
    requires forall i :: 0 <= i < |s| ==> s[i] < lo || hi <= s[i]
    ensures CountIn(s, lo, hi) == 0
  {
    if s != [] {
      CountNone(s[..|s| - 1], lo, hi);
    }
  }

  lemma {:induction false} DropBeforeKeeps(s: seq<int>, cutoff: int, lo: int, hi: int)
    requires cutoff <= lo
    ensures CountIn(DropBefore(s, cutoff), lo, hi) == CountIn(s, lo, hi)
    decreases |s|
  {
    if s != [] && s[0] < cutoff {
      DropBeforeKeeps(s[1..], cutoff, lo, hi);
      CountCons(s, lo, hi);
    }
  }

  lemma {:induction false} CountCons(s: seq<int>, lo: int, hi: int)
    requires s != []
    ensures CountIn(s, lo, hi) == CountIn(s[1..], lo, hi) + if lo <= s[0] < hi then 1 else 0
    decreases |s|
  {
    if |s| == 1 {
      assert s[1..] == [] && s[..0] == [];
    } else {
      var front := s[..|s| - 1];
      CountCons(front, lo, hi);
      assert front[1..] == s[1..][..|s| - 2];
      assert s[1..][|s| - 2] == s[|s| - 1];
    }
  }

  /** On an ascending list the entries dropped are exactly those before the cutoff. */
  lemma {:induction false} DropBeforeExact(s: seq<int>, cutoff: int)
    requires Ascending(s)
    ensures var r := DropBefore(s, cutoff);
            && Ascending(r) && (forall i :: 0 <= i < |r| ==> cutoff <= r[i])
            && |r| <= |s| && r == s[|s| - |r|..]
            && forall i :: 0 <= i < |s| - |r| ==> s[i] < cutoff
  {
    if s != [] && s[0] < cutoff {
      DropBeforeExact(s[1..], cutoff);
      var r := DropBefore(s[1..], cutoff);
      assert s[1..][|s| - 1 - |r|..] == s[|s| - |r|..];
      forall i | 0 <= i < |s| - |r| ensures s[i] < cutoff {
        if i > 0 {
          assert s[i] == s[1..][i - 1];
        }
      }
    }
  }
}
