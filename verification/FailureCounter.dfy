/** The rolling counter of borrow failures by class (cosign-borrow.js). */
module FailureCounter {
  import opened SlidingWindow

  const FAILURE_RETENTION_MS := 60 * 60 * 1000

  datatype Class = Class(name: string)

  /** One recorded failure. */
  datatype Failure = Failure(klass: Class, at: int)

  type Counts = map<Class, seq<int>>

  function Bucket(c: Counts, k: Class): seq<int> {
    if k in c then c[k] else []
  }

  /** After `recordBorrowFailure`: append, then drop what is too old. */
  function Recorded(c: Counts, f: Failure): Counts {
    c[f.klass := DropBefore(Bucket(c, f.klass) + [f.at], f.at - FAILURE_RETENTION_MS)]
  }

  /** `arr.filter((ts) => ts >= cutoff).length` */
  function AtLeast(s: seq<int>, cutoff: int): nat {
    if s == [] then 0 else AtLeast(s[..|s| - 1], cutoff) + if s[|s| - 1] >= cutoff then 1 else 0
  }

  class FailureLog {
    var counts: Counts

    constructor ()
      ensures counts == map[]
    {
      counts := map[];
    }

    method RecordBorrowFailure(f: Failure)
      modifies this
      ensures counts == Recorded(old(counts), f)
    {
      var arr := Bucket(counts, f.klass) + [f.at];
      ghost var all := arr;
      var cutoff := f.at - FAILURE_RETENTION_MS;
      while |arr| > 0 && arr[0] < cutoff
        invariant DropBefore(arr, cutoff) == DropBefore(all, cutoff)
        decreases |arr|
      {
        arr := arr[1..];
      }
      counts := counts[f.klass := arr];
    }

    method CountRecent(s: seq<int>, cutoff: int) returns (n: nat)
      ensures n == AtLeast(s, cutoff)
    {
      n := 0;
      for i := 0 to |s|
        invariant n == AtLeast(s[..i], cutoff)
      {
        assert s[..i + 1][..i] == s[..i];
        if s[i] >= cutoff {
          n := n + 1;
        }
      }
      assert s[..|s|] == s;
    }

    method GetRecentBorrowFailures(now: int) returns (out: map<Class, nat>)
      ensures forall k :: k in out <==> AtLeast(Bucket(counts, k), now - FAILURE_RETENTION_MS) > 0
      ensures forall k :: k in out ==> out[k] == AtLeast(Bucket(counts, k), now - FAILURE_RETENTION_MS)
    {
      out := map[];
      var todo := counts.Keys;
      while todo != {}
        invariant todo <= counts.Keys
        invariant forall k :: k in out <==> k !in todo && AtLeast(Bucket(counts, k), now - FAILURE_RETENTION_MS) > 0
        invariant forall k :: k in out ==> out[k] == AtLeast(Bucket(counts, k), now - FAILURE_RETENTION_MS)
      {
        var k :| k in todo;
        var recent := CountRecent(counts[k], now - FAILURE_RETENTION_MS);
        if recent > 0 {
          out := out[k := recent];
        }
        todo := todo - {k};
      }
    }
  }

  // ---- Against the full history ----

  function Run(history: seq<Failure>): Counts {
    if history == [] then map[] else Recorded(Run(history[..|history| - 1]), history[|history| - 1])
  }

  /** The failures of a class no older than the cutoff, in the whole history. */
  function Since(history: seq<Failure>, k: Class, cutoff: int): nat {
    if history == [] then 0 else
      var f := history[|history| - 1];
      Since(history[..|history| - 1], k, cutoff) + if f.klass == k && f.at >= cutoff then 1 else 0
  }

  ghost predicate InOrder(history: seq<Failure>) {
    forall i, j :: 0 <= i < j < |history| ==> history[i].at <= history[j].at
  }

  lemma {:induction false} AtLeastCons(s: seq<int>, cutoff: int)
    requires s != []
    ensures AtLeast(s, cutoff) == AtLeast(s[1..], cutoff) + if s[0] >= cutoff then 1 else 0
    decreases |s|
  {
    if |s| == 1 {
      assert s[..0] == [] && s[1..] == [];
    } else {
      AtLeastCons(s[..|s| - 1], cutoff);
      assert s[..|s| - 1][1..] == s[1..][..|s| - 2];
    }
  }

  lemma {:induction false} DropKeepsRecent(s: seq<int>, early: int, cutoff: int)
    requires early <= cutoff
    ensures AtLeast(DropBefore(s, early), cutoff) == AtLeast(s, cutoff)
    decreases |s|
  {
    if s != [] && s[0] < early {
      DropKeepsRecent(s[1..], early, cutoff);
      AtLeastCons(s, cutoff);
    }
  }

  /** Dropping old stamps is never seen: after any history in time order, the
      snapshot at any later moment counts, class by class, exactly the failures
      of the whole history within the retention window. */
  lemma {:induction false} SnapshotIsExact(history: seq<Failure>, now: int, k: Class)
    requires InOrder(history) && forall i :: 0 <= i < |history| ==> history[i].at <= now
    ensures AtLeast(Bucket(Run(history), k), now - FAILURE_RETENTION_MS) == Since(history, k, now - FAILURE_RETENTION_MS)
  {
    if history != [] {
      var n := |history| - 1;
      var front, f := history[..n], history[n];
      SnapshotIsExact(front, now, k);
      if f.klass == k {
        var grown := Bucket(Run(front), k) + [f.at];
        DropKeepsRecent(grown, f.at - FAILURE_RETENTION_MS, now - FAILURE_RETENTION_MS);
        assert grown[..|grown| - 1] == Bucket(Run(front), k);
      }
    }
  }
}
