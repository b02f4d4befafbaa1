/** Lexicographic order on strings, and sorting by a total order. */
module Ordering {

  predicate Less(a: string, b: string) {
    && b != ""
    && (a == "" || a[0] < b[0] || (a[0] == b[0] && Less(a[1..], b[1..])))
  }

  lemma {:induction false} LessTrichotomy(a: string, b: string)
    ensures a == b || Less(a, b) || Less(b, a)
    ensures Less(a, b) ==> !Less(b, a) && a != b
    decreases |a|
  {
    if a != "" && b != "" && a[0] == b[0] {
      LessTrichotomy(a[1..], b[1..]);
      assert a == [a[0]] + a[1..] && b == [b[0]] + b[1..];
    }
  }

  lemma {:induction false} LessTransitive(a: string, b: string, c: string)
    requires Less(a, b) && Less(b, c)
    ensures Less(a, c)
    decreases |a|
  {
    if a != "" && a[0] == b[0] == c[0] {
      LessTransitive(a[1..], b[1..], c[1..]);
    }
  }

  /** At the first difference the left string has the smaller character, or it ends. */
  predicate SmallerFrom(a: string, b: string, k: nat) {
    k <= |a| && k < |b| && a[..k] == b[..k] && (k == |a| || a[k] < b[k])
  }

  lemma {:induction false} LessIs(a: string, b: string)
    ensures Less(a, b) <==> exists k: nat :: SmallerFrom(a, b, k)
    decreases |a|
  {
    if a == "" || b == "" || a[0] != b[0] {
      if Less(a, b) {
        assert SmallerFrom(a, b, 0);
      }
      forall k: nat | 0 < k <= |a| && k <= |b| ensures a[..k] != b[..k] {
        assert a[..k][0] == a[0] && b[..k][0] == b[0];
      }
    } else {
      LessIs(a[1..], b[1..]);
      forall k: nat ensures SmallerFrom(a, b, k + 1) <==> SmallerFrom(a[1..], b[1..], k) {
        if k + 1 <= |a| && k + 1 <= |b| {
          assert a[..k + 1] == [a[0]] + a[1..][..k] && b[..k + 1] == [b[0]] + b[1..][..k];
          assert a[1..][..k] == a[..k + 1][1..] && b[1..][..k] == b[..k + 1][1..];
        }
      }
      if k: nat :| SmallerFrom(a[1..], b[1..], k) {
        assert SmallerFrom(a, b, k + 1);
      }
      if k: nat :| SmallerFrom(a, b, k) {
        assert SmallerFrom(a[1..], b[1..], k - 1);
      }
    }
  }

  // ---- Insertion sort: what Array.prototype.sort returns for a total order ----

  ghost predicate StrictTotalOn<T(!new)>(before: (T, T) -> bool, s: set<T>) {
    && (forall x, y :: x in s && y in s && x != y ==> before(x, y) || before(y, x))
    && (forall x, y :: x in s && y in s && before(x, y) ==> !before(y, x))
    && (forall x, y, z :: x in s && y in s && z in s && before(x, y) && before(y, z) ==> before(x, z))
  }

  ghost predicate Sorted<T(!new)>(before: (T, T) -> bool, s: seq<T>) {
    forall i, j :: 0 <= i < j < |s| ==> before(s[i], s[j])
  }

  ghost predicate Distinct<T>(s: seq<T>) {
    forall i, j :: 0 <= i < j < |s| ==> s[i] != s[j]
  }

  ghost function Elements<T>(s: seq<T>): set<T> {
    set x | x in s
  }

  function Insert<T>(before: (T, T) -> bool, x: T, s: seq<T>): seq<T> {
    if s == [] || before(x, s[0]) then [x] + s else [s[0]] + Insert(before, x, s[1..])
  }

  function Sort<T>(before: (T, T) -> bool, s: seq<T>): seq<T> {
    if s == [] then [] else Insert(before, s[0], Sort(before, s[1..]))
  }

  lemma {:induction false} InsertSorted<T(!new)>(before: (T, T) -> bool, x: T, s: seq<T>)
    requires Sorted(before, s) && x !in s
    requires StrictTotalOn(before, Elements(s) + {x})
    ensures Sorted(before, Insert(before, x, s))
    ensures Elements(Insert(before, x, s)) == Elements(s) + {x}
    ensures |Insert(before, x, s)| == |s| + 1
  {
    if s == [] {
    } else if before(x, s[0]) {
      assert forall j :: 0 <= j < |s| ==> s[j] in Elements(s);
    } else {
      assert s == [s[0]] + s[1..];
      assert Elements(s) == {s[0]} + Elements(s[1..]);
      InsertSorted(before, x, s[1..]);
      var rest := Insert(before, x, s[1..]);
      assert s[0] in Elements(s);
      assert before(s[0], x);
      forall j | 0 <= j < |rest| ensures before(s[0], rest[j]) {
        assert rest[j] in Elements(rest);
      }
    }
  }

  /** Sorting distinct elements by a total order lists exactly those elements,
      each once, in order. */
  lemma {:induction false} SortSorts<T(!new)>(before: (T, T) -> bool, s: seq<T>)
    requires Distinct(s) && StrictTotalOn(before, Elements(s))
    ensures Sorted(before, Sort(before, s))
    ensures Elements(Sort(before, s)) == Elements(s)
    ensures |Sort(before, s)| == |s|
    ensures Distinct(Sort(before, s))
  {
    if s != [] {
      assert s == [s[0]] + s[1..];
      assert Elements(s) == {s[0]} + Elements(s[1..]);
      SortSorts(before, s[1..]);
      assert s[0] !in s[1..];
      assert s[0] !in Elements(Sort(before, s[1..]));
      InsertSorted(before, s[0], Sort(before, s[1..]));
    }
    SortedDistinct(before, Sort(before, s));
  }

  lemma SortedDistinct<T(!new)>(before: (T, T) -> bool, s: seq<T>)
    requires Sorted(before, s) && StrictTotalOn(before, Elements(s))
    ensures Distinct(s)
  {
    forall i, j | 0 <= i < j < |s| ensures s[i] != s[j] {
      assert s[i] in Elements(s) && s[j] in Elements(s);
      assert before(s[i], s[j]);
    }
  }

  lemma HeadIsFirst<T(!new)>(before: (T, T) -> bool, s: seq<T>, x: T)
    requires Sorted(before, s) && x in s
    ensures x == s[0] || before(s[0], x)
  {
  }

  /** A set of elements has one sorted listing. */
  lemma {:induction false} SortedUnique<T(!new)>(before: (T, T) -> bool, s: seq<T>, t: seq<T>)
    requires Sorted(before, s) && Sorted(before, t)
    requires Elements(s) == Elements(t) && StrictTotalOn(before, Elements(s))
    ensures s == t
  {
    assert forall x :: x in s <==> x in Elements(s);
    assert forall x :: x in t <==> x in Elements(s);
    assert |t| > 0 ==> t[0] in t;
    assert |s| > 0 ==> s[0] in s;
    if s != [] {
      HeadIsFirst(before, s, t[0]);
      HeadIsFirst(before, t, s[0]);
      SortedTail(before, s);
      SortedTail(before, t);
      SortedUnique(before, s[1..], t[1..]);
    }
  }

  lemma SortedTail<T(!new)>(before: (T, T) -> bool, s: seq<T>)
    requires s != [] && Sorted(before, s) && StrictTotalOn(before, Elements(s))
    ensures Sorted(before, s[1..])
    ensures Elements(s[1..]) == Elements(s) - {s[0]}
  {
    SortedDistinct(before, s);
    assert s == [s[0]] + s[1..];
    forall x | x in s[1..] ensures x != s[0] {
      var k :| 0 <= k < |s[1..]| && s[1..][k] == x;
      assert s[k + 1] == x;
    }
  }
}
