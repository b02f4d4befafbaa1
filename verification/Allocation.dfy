/** Pro-rata allocation of a lamport pool (compute-distribution-plan.js). */
module Allocation {
  import opened Sums
  import opened Ordering

  /** A wallet, named by its base-58 address. */
  datatype Wallet = Wallet(address: string)

  /** A wallet with an amount: a snapshot row, an entry of a JavaScript Map, or
      a row of the plan. A Map is a sequence of entries in insertion order with
      distinct wallets. */
  datatype Entry = Entry(wallet: Wallet, amount: nat)

  ghost predicate DistinctKeys(es: seq<Entry>) {
    forall i, j :: 0 <= i < j < |es| ==> es[i].wallet != es[j].wallet
  }

  function Position(es: seq<Entry>, w: Wallet): (p: nat)
    ensures p <= |es|
    ensures p < |es| ==> es[p].wallet == w
    ensures forall i :: 0 <= i < p ==> es[i].wallet != w
  {
    if es == [] || es[0].wallet == w then 0 else 1 + Position(es[1..], w)
  }

  function GetOrZero(es: seq<Entry>, w: Wallet): nat {
    var p := Position(es, w);
    if p < |es| then es[p].amount else 0
  }

  /** `map.set`: an existing key keeps its place, a new key goes to the end. */
  function Put(es: seq<Entry>, w: Wallet, v: nat): seq<Entry> {
    var p := Position(es, w);
    if p < |es| then es[p := Entry(w, v)] else es + [Entry(w, v)]
  }

  /** The wallets that have an entry. */
  function Wallets(es: seq<Entry>): set<Wallet> {
    set e | e in es :: e.wallet
  }

  /** The entries as a mathematical map, without their order. */
  function AsMap(es: seq<Entry>): map<Wallet, nat> {
    map w | w in Wallets(es) :: GetOrZero(es, w)
  }

  lemma GetIsAt(es: seq<Entry>, w: Wallet)
    ensures GetOrZero(es, w) == At(AsMap(es), w)
  {
    var p := Position(es, w);
    if p < |es| {
      assert es[p] in es;
    }
  }

  lemma AsMapHolds(es: seq<Entry>, e: Entry)
    requires DistinctKeys(es) && e in es
    ensures e.wallet in AsMap(es) && AsMap(es)[e.wallet] == e.amount
  {
    var k :| 0 <= k < |es| && es[k] == e;
    assert Position(es, e.wallet) == k;
  }

  lemma PutGets(es: seq<Entry>, w: Wallet, v: nat, x: Wallet)
    ensures GetOrZero(Put(es, w, v), x) == if x == w then v else GetOrZero(es, x)
  {
    var es', p := Put(es, w, v), Position(es, x);
    assert forall i :: 0 <= i < |es| ==> es'[i].wallet == es[i].wallet;
    assert es'[Position(es, w)] == Entry(w, v);
    if x == w || p < |es| {
      assert Position(es', x) == p;
    } else {
      assert Position(es', x) == |es'|;
    }
  }

  lemma PutUpdates(es: seq<Entry>, w: Wallet, v: nat)
    requires DistinctKeys(es)
    ensures DistinctKeys(Put(es, w, v))
    ensures forall x :: At(AsMap(Put(es, w, v)), x) == if x == w then v else At(AsMap(es), x)
  {
    hide AsMap, GetOrZero;
    forall x ensures At(AsMap(Put(es, w, v)), x) == if x == w then v else At(AsMap(es), x) {
      PutGets(es, w, v, x);
      GetIsAt(Put(es, w, v), x);
      GetIsAt(es, x);
    }
  }

  // ---- Folding snapshot rows into weights ----

  /** Everything the rows credit to one wallet. */
  function SumFor(rows: seq<Entry>, w: Wallet): nat {
    if rows == [] then 0 else
      SumFor(rows[..|rows| - 1], w)
      + if rows[|rows| - 1].wallet == w then rows[|rows| - 1].amount else 0
  }

  lemma {:induction false} SumForConcat(a: seq<Entry>, b: seq<Entry>, w: Wallet)
    ensures SumFor(a + b, w) == SumFor(a, w) + SumFor(b, w)
    decreases |b|
  {
    if b == [] {
      assert a + b == a;
    } else {
      assert (a + b)[..|a + b| - 1] == a + b[..|b| - 1];
      SumForConcat(a, b[..|b| - 1], w);
    }
  }

  lemma FoldStep(start: seq<Entry>, es: seq<Entry>, rows: seq<Entry>, i: nat)
    requires i < |rows| && DistinctKeys(es)
    requires forall w :: At(AsMap(es), w) == At(AsMap(start), w) + SumFor(rows[..i], w)
    ensures var es' := Put(es, rows[i].wallet, GetOrZero(es, rows[i].wallet) + rows[i].amount);
            && DistinctKeys(es')
            && forall w :: At(AsMap(es'), w) == At(AsMap(start), w) + SumFor(rows[..i + 1], w)
  {
    var r := rows[i];
    GetIsAt(es, r.wallet);
    PutUpdates(es, r.wallet, GetOrZero(es, r.wallet) + r.amount);
    hide AsMap, Put, SumFor, GetOrZero;
    forall w ensures SumFor(rows[..i + 1], w) == SumFor(rows[..i], w) + if r.wallet == w then r.amount else 0 {
      SumForNext(rows, i, w);
    }
  }

  lemma SumForNext(rows: seq<Entry>, i: nat, w: Wallet)
    requires i < |rows|
    ensures SumFor(rows[..i + 1], w) == SumFor(rows[..i], w) + if rows[i].wallet == w then rows[i].amount else 0
  {
    assert rows[..i + 1][..i] == rows[..i];
  }

  /** One bucket fold: add each row to its wallet's running weight. */
  method FoldRows(start: seq<Entry>, rows: seq<Entry>) returns (es: seq<Entry>)
    requires DistinctKeys(start)
    ensures DistinctKeys(es)
    ensures forall w :: At(AsMap(es), w) == At(AsMap(start), w) + SumFor(rows, w)
  {
    hide AsMap, Put;
    es := start;
    var i := 0;
    while i < |rows|
      invariant 0 <= i <= |rows|
      invariant DistinctKeys(es)
      invariant forall w :: At(AsMap(es), w) == At(AsMap(start), w) + SumFor(rows[..i], w)
    {
      FoldStep(start, es, rows, i);
      var cur := GetOrZero(es, rows[i].wallet);
      es := Put(es, rows[i].wallet, cur + rows[i].amount);
      i := i + 1;
    }
    assert rows[..i] == rows;
  }

  /** Holder weight: directly held plus collateralized. */
  method HolderWeights(holders: seq<Entry>, collateralized: seq<Entry>) returns (es: seq<Entry>)
    ensures DistinctKeys(es)
    ensures forall w :: At(AsMap(es), w) == SumFor(holders + collateralized, w)
  {
    es := FoldRows([], holders);
    es := FoldRows(es, collateralized);
    forall w ensures At(AsMap(es), w) == SumFor(holders + collateralized, w) {
      SumForConcat(holders, collateralized, w);
    }
  }

  /** `values().reduce((acc, v) => acc + v, 0n)` */
  function SumOf(es: seq<Entry>): nat {
    if es == [] then 0 else SumOf(es[..|es| - 1]) + es[|es| - 1].amount
  }

  lemma {:induction false} SumIsTotal(es: seq<Entry>)
    requires DistinctKeys(es)
    ensures SumOf(es) == Total(AsMap(es))
  {
    hide Total;
    TotalEmpty<Wallet>();
    if es == [] {
      assert AsMap(es) == map[];
    } else {
      var front, last := es[..|es| - 1], es[|es| - 1];
      SumIsTotal(front);
      AsMapSnoc(front, last);
      assert es == front + [last];
      TotalPut(AsMap(front), last.wallet, last.amount);
    }
  }

  lemma AsMapSnoc(front: seq<Entry>, last: Entry)
    requires DistinctKeys(front + [last])
    ensures last.wallet !in AsMap(front)
    ensures AsMap(front + [last]) == AsMap(front)[last.wallet := last.amount]
  {
    var es := front + [last];
    assert forall i :: 0 <= i < |front| ==> es[i] == front[i] && es[i].wallet != es[|front|].wallet;
    assert Wallets(es) == Wallets(front) + {last.wallet};
    AsMapHolds(es, last);
    forall w | w in AsMap(front) ensures AsMap(es)[w] == AsMap(front)[w] {
      assert Position(es, w) == Position(front, w);
    }
  }

  // ---- The promised allocation, stated on the weights alone ----

  /** The sort order of `allocate`: heavier first, equal weights by address. */
  predicate Ahead(a: Entry, b: Entry) {
    b.amount < a.amount || (a.amount == b.amount && Less(a.wallet.address, b.wallet.address))
  }

  ghost predicate IsTop(m: map<Wallet, nat>, w: Wallet) {
    w in m && forall v :: v in m && v != w ==> Ahead(Entry(w, m[w]), Entry(v, m[v]))
  }

  lemma TopUnique(m: map<Wallet, nat>, v: Wallet, w: Wallet)
    requires IsTop(m, v) && IsTop(m, w)
    ensures v == w
  {
    LessTrichotomy(v.address, w.address);
  }

  /** One wallet's rounded-down share. */
  function Share(pool: nat, weight: nat, total: nat): nat
    requires total > 0
  {
    pool * weight / total
  }

  /** Every wallet's rounded-down share. */
  ghost function Shares(m: map<Wallet, nat>, total: nat, pool: nat): map<Wallet, nat>
    requires total > 0
  {
    map w | w in m :: Share(pool, m[w], total)
  }

  /** What rounding down leaves over; `SharesWithinPool` shows it is not negative. */
  ghost function Remainder(m: map<Wallet, nat>, pool: nat): int
    requires Total(m) > 0
  {
    pool - Total(Shares(m, Total(m), pool))
  }

  /** What `w` is owed: its rounded-down share, and for the top wallet the remainder. */
  ghost function Owed(m: map<Wallet, nat>, pool: nat, w: Wallet): int
    requires Total(m) > 0
  {
    (if w in m then Share(pool, m[w], Total(m)) else 0)
    + if IsTop(m, w) then Remainder(m, pool) else 0
  }

  /** `result` gives each wallet what it is owed, and has no zero entries. */
  ghost predicate IsAllocation(m: map<Wallet, nat>, pool: nat, result: map<Wallet, nat>) {
    if Total(m) == 0 || pool == 0 then result == map[]
    else && (forall w :: At(result, w) == Owed(m, pool, w))
         && (forall w :: w in result ==> result[w] > 0)
  }

  lemma AllocationUnique(m: map<Wallet, nat>, pool: nat, r: map<Wallet, nat>, r': map<Wallet, nat>)
    requires IsAllocation(m, pool, r) && IsAllocation(m, pool, r')
    ensures r == r'
  {
    if Total(m) != 0 && pool != 0 {
      forall w ensures w in r <==> w in r' {
        assert At(r, w) == Owed(m, pool, w) == At(r', w);
      }
      forall w | w in r ensures r[w] == r'[w] {
        assert At(r, w) == Owed(m, pool, w) == At(r', w);
      }
    }
  }

  lemma ShareBounds(p: nat, w: nat, t: nat)
    requires t > 0
    ensures t * Share(p, w, t) <= p * w <= t * Share(p, w, t) + (t - 1)
  {
    var n := p * w;
    assert n == t * (n / t) + n % t;
  }

  lemma ShareOfNothing(p: nat, t: nat)
    requires t > 0
    ensures Share(p, 0, t) == 0
  {
    assert p * 0 == 0;
  }

  lemma ShareMonotone(p: nat, v: nat, w: nat, t: nat)
    requires t > 0 && v <= w
    ensures Share(p, v, t) <= Share(p, w, t)
  {
    assert p * v <= p * w;
    QuotientMonotone(p * v, p * w, t);
  }

  lemma QuotientMonotone(a: nat, b: nat, t: nat)
    requires t > 0 && a <= b
    ensures a / t <= b / t
  {
    var qa, qb := a / t, b / t;
    assert a == t * qa + a % t && b == t * qb + b % t;
    assert qb < qa ==> t * (qb + 1) <= t * qa;
  }

  /** Rounded-down shares lose less than one lamport per wallet. */
  lemma {:induction false} SharesBounds(m: map<Wallet, nat>, t: nat, p: nat)
    requires t > 0
    ensures t * Total(Shares(m, t, p)) <= p * Total(m)
    ensures p * Total(m) <= t * Total(Shares(m, t, p)) + |m| * (t - 1)
    decreases |m|
  {
    hide Total, Share;
    TotalEmpty<Wallet>();
    if m == map[] {
      assert Shares(m, t, p) == map[];
    } else {
      var k :| k in m;
      var rest := m - {k};
      SharesBounds(rest, t, p);
      TotalRemove(m, k);
      TotalRemove(Shares(m, t, p), k);
      assert Shares(m, t, p) - {k} == Shares(rest, t, p);
      ShareBounds(p, m[k], t);
      assert m.Keys == rest.Keys + {k};
      SumBounds(t, p, m[k], Total(rest), Share(p, m[k], t), Total(Shares(rest, t, p)), |rest|,
                Total(m), Total(Shares(m, t, p)), |m|);
    }
  }

  lemma SumBounds(t: nat, p: nat, w: nat, ws: nat, s: nat, ss: nat, n: nat, w': nat, s': nat, n': nat)
    requires t > 0 && w' == w + ws && s' == s + ss && n' == n + 1
    requires t * s <= p * w <= t * s + (t - 1)
    requires t * ss <= p * ws <= t * ss + n * (t - 1)
    ensures t * s' <= p * w' <= t * s' + n' * (t - 1)
  {
    assert t * s' == t * s + t * ss;
    assert p * w' == p * w + p * ws;
    assert n' * (t - 1) == n * (t - 1) + (t - 1);
  }

  /** The wallets with a positive weight. */
  ghost function Weighted(m: map<Wallet, nat>): map<Wallet, nat> {
    map w | w in m && m[w] > 0 :: m[w]
  }

  lemma ScaleLess(t: nat, n: nat, r: int)
    requires t > 0 && n > 0 && t * r <= n * (t - 1)
    ensures r < n
  {
    assert n * (t - 1) == t * n - n;
    assert r >= n ==> t * r >= t * n;
  }

  lemma ScaleNonNegative(t: nat, r: int)
    requires t > 0 && 0 <= t * r
    ensures 0 <= r
  {
  }

  /** The remainder is not negative and smaller than the number of weighted wallets. */
  lemma RemainderBounds(m: map<Wallet, nat>, pool: nat)
    requires Total(m) > 0
    ensures 0 <= Remainder(m, pool) < |Weighted(m)|
  {
    hide Total, Shares, Share;
    var t, m' := Total(m), Weighted(m);
    TotalSameUpToZeros(m, m');
    SharesIgnoreZeros(m, t, pool);
    SharesBounds(m', t, pool);
    TotalEmpty<Wallet>();
    assert m' != map[];
    var f := Total(Shares(m', t, pool));
    assert t * (pool - f) == t * pool - t * f;
    ScaleLess(t, |m'|, pool - f);
    ScaleNonNegative(t, pool - f);
  }

  lemma SharesIgnoreZeros(m: map<Wallet, nat>, t: nat, pool: nat)
    requires t > 0
    ensures Total(Shares(m, t, pool)) == Total(Shares(Weighted(m), t, pool))
  {
    hide Total, Share;
    ShareOfNothing(pool, t);
    assert forall w :: At(Shares(m, t, pool), w) == At(Shares(Weighted(m), t, pool), w);
    TotalSameUpToZeros(Shares(m, t, pool), Shares(Weighted(m), t, pool));
  }

  lemma ConservesWithTop(m: map<Wallet, nat>, pool: nat, result: map<Wallet, nat>, top: Wallet)
    requires Total(m) > 0 && IsTop(m, top) && IsAllocation(m, pool, result)
    ensures Total(result) == pool
  {
    hide Total, Share;
    if pool == 0 {
      TotalEmpty<Wallet>();
    } else {
      RemainderBounds(m, pool);
      var shares := Shares(m, Total(m), pool);
      var full: map<Wallet, nat> := shares[top := shares[top] + Remainder(m, pool)];
      TotalUpdate(shares, top, shares[top] + Remainder(m, pool));
      forall w ensures At(result, w) == At(full, w) {
        assert At(result, w) == Owed(m, pool, w);
        if IsTop(m, w) {
          TopUnique(m, top, w);
        }
      }
      TotalSameUpToZeros(result, full);
    }
  }

  lemma AheadTransitive(x: Entry, y: Entry, z: Entry)
    requires Ahead(x, y) && Ahead(y, z)
    ensures Ahead(x, z)
  {
    hide Less;
    if x.amount == z.amount {
      LessTransitive(x.wallet.address, y.wallet.address, z.wallet.address);
    }
  }

  /** There is a top wallet as soon as there is any wallet. */
  lemma {:induction false} TopExists(m: map<Wallet, nat>) returns (top: Wallet)
    requires m != map[]
    ensures IsTop(m, top)
    decreases |m|
  {
    var k :| k in m;
    var rest := m - {k};
    top := k;
    assert forall v :: v in m ==> v == k || (v in rest && rest[v] == m[v]);
    if rest != map[] {
      var t := TopExists(rest);
      var et, ek := Entry(t, m[t]), Entry(k, m[k]);
      LessTrichotomy(t.address, k.address);
      if Ahead(et, ek) {
        top := t;
      } else {
        assert Ahead(ek, et);
        forall v | v in rest ensures Ahead(ek, Entry(v, m[v])) {
          assert v == t || Ahead(et, Entry(v, rest[v]));
          if v != t {
            AheadTransitive(ek, et, Entry(v, m[v]));
          }
        }
      }
    }
  }

  /** The pool is handed out exactly whenever there is any weight. */
  lemma AllocationTotal(m: map<Wallet, nat>, pool: nat, result: map<Wallet, nat>)
    requires Total(m) > 0 && IsAllocation(m, pool, result)
    ensures Total(result) == pool
  {
    TotalEmpty<Wallet>();
    hide Total, Owed, IsTop;
    var top := TopExists(m);
    ConservesWithTop(m, pool, result, top);
  }

  /** `top` is the heaviest wallet, the first by address among equals. */
  ghost predicate Heaviest(m: map<Wallet, nat>, top: Wallet) {
    && top in m
    && forall v :: v in m && v != top ==> m[v] < m[top] || (m[v] == m[top] && Less(top.address, v.address))
  }

  /** Each wallet gets its rounded-down share, the heaviest one also what that leaves
      over, and nobody is listed with nothing. */
  lemma AllocationIs(m: map<Wallet, nat>, pool: nat, result: map<Wallet, nat>, w: Wallet)
    requires IsAllocation(m, pool, result) && Total(m) > 0 && pool > 0
    ensures exists top :: Heaviest(m, top)
              && At(result, w) == Share(pool, At(m, w), Total(m)) + if w == top then Remainder(m, pool) else 0
    ensures w in result <==> At(result, w) > 0
  {
    TotalEmpty<Wallet>();
    hide Total, Share, Shares, Remainder;
    var top := TopExists(m);
    assert Heaviest(m, top);
    if IsTop(m, w) {
      TopUnique(m, top, w);
    }
    assert At(result, w) == Owed(m, pool, w);
    ShareOfNothing(pool, Total(m));
  }

  /** A strictly larger weight never gets fewer lamports. */
  lemma AllocationMonotone(m: map<Wallet, nat>, pool: nat, result: map<Wallet, nat>, a: Wallet, b: Wallet)
    requires IsAllocation(m, pool, result)
    requires At(m, b) < At(m, a)
    ensures At(result, b) <= At(result, a)
  {
    if Total(m) != 0 && pool != 0 {
      hide Total, Share;
      RemainderBounds(m, pool);
      assert !IsTop(m, b);
      ShareMonotone(pool, At(m, b), At(m, a), Total(m));
      assert At(result, a) == Owed(m, pool, a) && At(result, b) == Owed(m, pool, b);
    }
  }

  /** The allocation is determined by each wallet's summed weight alone. */
  lemma AllocationDependsOnSums(m: map<Wallet, nat>, m': map<Wallet, nat>, pool: nat,
                                r: map<Wallet, nat>, r': map<Wallet, nat>)
    requires forall w :: At(m, w) == At(m', w)
    requires IsAllocation(m, pool, r) && IsAllocation(m', pool, r')
    ensures r == r'
  {
    TotalSameUpToZeros(m, m');
    if Total(m) != 0 && pool != 0 {
      hide Total, Share, Less, IsTop;
      var t := Total(m);
      ShareOfNothing(pool, t);
      SharesIgnoreZeros(m, t, pool);
      SharesIgnoreZeros(m', t, pool);
      forall w ensures w in Weighted(m) <==> w in Weighted(m') {
        assert At(m, w) == At(m', w);
      }
      forall w | w in Weighted(m) ensures m[w] == m'[w] {
        assert At(m, w) == At(m', w);
      }
      assert Weighted(m) == Weighted(m');
      forall w ensures Owed(m, pool, w) == Owed(m', pool, w) {
        assert At(m, w) == At(m', w);
        TopIgnoresZeros(m, m', w);
      }
      assert IsAllocation(m, pool, r');
      AllocationUnique(m, pool, r, r');
    }
  }

  lemma TopIsWeighted(m: map<Wallet, nat>, w: Wallet)
    requires Total(m) > 0 && IsTop(m, w)
    ensures m[w] > 0
  {
    hide Total, Less;
    if m[w] == 0 {
      assert forall v :: v in m ==> m[v] == 0;
      TotalOfZeros(m);
    }
  }

  lemma TopIgnoresZeros(m: map<Wallet, nat>, m': map<Wallet, nat>, w: Wallet)
    requires Total(m) > 0 && Total(m') > 0
    requires forall v :: At(m, v) == At(m', v)
    ensures IsTop(m, w) <==> IsTop(m', w)
  {
    hide Total, Less;
    if IsTop(m, w) {
      TopIsWeighted(m, w);
      assert At(m, w) == At(m', w);
      forall v | v in m' && v != w ensures Ahead(Entry(w, m'[w]), Entry(v, m'[v])) {
        assert At(m, v) == At(m', v);
      }
    }
    if IsTop(m', w) {
      TopIsWeighted(m', w);
      assert At(m, w) == At(m', w);
      forall v | v in m && v != w ensures Ahead(Entry(w, m[w]), Entry(v, m[v])) {
        assert At(m, v) == At(m', v);
      }
    }
  }

  // ---- Snapshot rows may be reordered and split ----

  lemma {:induction false} SumForSplit(rows: seq<Entry>, k: nat, w: Wallet)
    requires k < |rows|
    ensures SumFor(rows, w)
         == SumFor(rows[..k] + rows[k + 1..], w) + if rows[k].wallet == w then rows[k].amount else 0
  {
    var one := [rows[k]];
    assert rows == rows[..k] + (one + rows[k + 1..]);
    SumForConcat(rows[..k], one + rows[k + 1..], w);
    SumForConcat(one, rows[k + 1..], w);
    SumForConcat(rows[..k], rows[k + 1..], w);
    assert one[..0] == [];
  }

  lemma WithoutOne(rows: seq<Entry>, k: nat)
    requires k < |rows|
    ensures multiset(rows[..k] + rows[k + 1..]) == multiset(rows) - multiset{rows[k]}
  {
    assert rows == rows[..k] + [rows[k]] + rows[k + 1..];
  }

  /** Any permutation of the rows credits every wallet the same. */
  lemma {:induction false} SumForPermutation(rows: seq<Entry>, rows': seq<Entry>, w: Wallet)
    requires multiset(rows) == multiset(rows')
    ensures SumFor(rows, w) == SumFor(rows', w)
    decreases |rows|
  {
    if rows == [] {
      assert |multiset(rows')| == 0;
    } else {
      hide SumFor;
      var k := |rows| - 1;
      assert rows[k] in multiset(rows');
      var k' :| 0 <= k' < |rows'| && rows'[k'] == rows[k];
      WithoutOne(rows, k);
      WithoutOne(rows', k');
      SumForPermutation(rows[..k] + rows[k + 1..], rows'[..k'] + rows'[k' + 1..], w);
      SumForSplit(rows, k, w);
      SumForSplit(rows', k', w);
    }
  }

  /** Reordering the rows, or splitting one wallet's amount over two rows,
      leaves the allocation unchanged. */
  lemma AllocationIgnoresRowOrderAndSplits(
      rows: seq<Entry>, rows': seq<Entry>, a: seq<Entry>, w: Wallet, x: nat, y: nat, b: seq<Entry>,
      m: map<Wallet, nat>, m': map<Wallet, nat>, pool: nat, r: map<Wallet, nat>, r': map<Wallet, nat>)
    requires rows == a + [Entry(w, x + y)] + b
    requires multiset(rows') == multiset(a + [Entry(w, x), Entry(w, y)] + b)
    requires forall v :: At(m, v) == SumFor(rows, v) && At(m', v) == SumFor(rows', v)
    requires IsAllocation(m, pool, r) && IsAllocation(m', pool, r')
    ensures r == r'
  {
    forall v ensures At(m, v) == At(m', v) {
      SumForPermutation(rows', a + [Entry(w, x), Entry(w, y)] + b, v);
      SumForConcat(a + [Entry(w, x + y)], b, v);
      SumForConcat(a, [Entry(w, x + y)], v);
      SumForConcat(a + [Entry(w, x), Entry(w, y)], b, v);
      SumForConcat(a, [Entry(w, x), Entry(w, y)], v);
      assert [Entry(w, x), Entry(w, y)] == [Entry(w, x)] + [Entry(w, y)];
      SumForConcat([Entry(w, x)], [Entry(w, y)], v);
    }
    AllocationDependsOnSums(m, m', pool, r, r');
  }

  // ---- The allocation loop ----

  lemma SortedEntries(es: seq<Entry>)
    requires DistinctKeys(es)
    ensures var s := Sort(Ahead, es);
            && DistinctKeys(s) && |s| == |es|
            && AsMap(s) == AsMap(es)
            && (s != [] ==> IsTop(AsMap(es), s[0].wallet))
  {
    var s := Sort(Ahead, es);
    AheadIsTotal(es);
    assert Distinct(es);
    SortSorts(Ahead, es);
    forall e ensures e in s <==> e in es {
      assert e in Elements(s) <==> e in Elements(es);
    }
    forall i, j | 0 <= i < j < |s| ensures s[i].wallet != s[j].wallet {
      assert s[i] in es && s[j] in es && s[i] != s[j];
    }
    SameEntriesSameMap(es, s);
    if s != [] {
      AsMapHolds(s, s[0]);
      forall v | v in AsMap(s) && v != s[0].wallet ensures Ahead(s[0], Entry(v, AsMap(s)[v])) {
        var e :| e in s && e.wallet == v;
        AsMapHolds(s, e);
        var k :| 0 <= k < |s| && s[k] == e;
        assert Ahead(s[0], s[k]);
      }
    }
  }

  lemma SameEntriesSameMap(es: seq<Entry>, s: seq<Entry>)
    requires DistinctKeys(es) && DistinctKeys(s)
    requires forall e :: e in s <==> e in es
    ensures AsMap(s) == AsMap(es)
  {
    assert Wallets(s) == Wallets(es);
    forall w | w in Wallets(s) ensures AsMap(s)[w] == AsMap(es)[w] {
      var e :| e in s && e.wallet == w;
      AsMapHolds(s, e);
      AsMapHolds(es, e);
    }
  }

  lemma AheadIsTotal(es: seq<Entry>)
    requires DistinctKeys(es)
    ensures StrictTotalOn(Ahead, Elements(es))
  {
    forall x, y | x in es && y in es ensures x == y || (Ahead(x, y) <==> !Ahead(y, x)) {
      LessTrichotomy(x.wallet.address, y.wallet.address);
    }
    forall x ensures !Ahead(x, x) {
      LessTrichotomy(x.wallet.address, x.wallet.address);
    }
    forall x, y, z | Ahead(x, y) && Ahead(y, z) ensures Ahead(x, z) {
      AheadTransitive(x, y, z);
    }
  }

  lemma SharesSnoc(front: seq<Entry>, last: Entry, total: nat, pool: nat)
    requires total > 0 && DistinctKeys(front + [last])
    ensures var before, after := Shares(AsMap(front), total, pool), Shares(AsMap(front + [last]), total, pool);
            && last.wallet !in before
            && after == before[last.wallet := Share(pool, last.amount, total)]
            && Total(after) == Total(before) + Share(pool, last.amount, total)
  {
    hide Total, Share, AsMap;
    AsMapSnoc(front, last);
    TotalPut(Shares(AsMap(front), total, pool), last.wallet, Share(pool, last.amount, total));
  }

  /** What the loop has listed after the first `i` entries. */
  ghost predicate ListedUpTo(es: seq<Entry>, i: nat, total: nat, pool: nat, result: map<Wallet, nat>, handedOut: nat)
    requires i <= |es| && total > 0
  {
    && result == Weighted(Shares(AsMap(es[..i]), total, pool))
    && handedOut == Total(Shares(AsMap(es[..i]), total, pool))
  }

  /** Listing one more share, if positive, keeps exactly the positive ones. */
  lemma ListShare(es: seq<Entry>, i: nat, total: nat, pool: nat, result: map<Wallet, nat>, handedOut: nat)
    requires i < |es| && DistinctKeys(es) && total > 0
    requires ListedUpTo(es, i, total, pool, result, handedOut)
    ensures var share := Share(pool, es[i].amount, total);
            ListedUpTo(es, i + 1, total, pool,
                       if share > 0 then result[es[i].wallet := share] else result, handedOut + share)
  {
    hide Total, Share, AsMap, Shares;
    assert es[..i + 1] == es[..i] + [es[i]];
    SharesSnoc(es[..i], es[i], total, pool);
  }

  /** The loop of `allocate`: a wallet is listed only if its share is positive. */
  method HandOutShares(entries: seq<Entry>, total: nat, pool: nat)
    returns (result: map<Wallet, nat>, handedOut: nat)
    requires DistinctKeys(entries) && total > 0
    ensures result == Weighted(Shares(AsMap(entries), total, pool))
    ensures handedOut == Total(Shares(AsMap(entries), total, pool))
  {
    NoShares(total, pool);
    result, handedOut := map[], 0;
    var i := 0;
    assert ListedUpTo(entries, 0, total, pool, result, handedOut) by {
      assert entries[..0] == [];
    }
    assert entries[..|entries|] == entries;
    hide ListedUpTo, Share;
    while i < |entries|
      invariant 0 <= i <= |entries|
      invariant ListedUpTo(entries, i, total, pool, result, handedOut)
    {
      ListShare(entries, i, total, pool, result, handedOut);
      var share := Share(pool, entries[i].amount, total);
      if share > 0 {
        result := result[entries[i].wallet := share];
        handedOut := handedOut + share;
      }
      i := i + 1;
    }
    AllListed(entries, total, pool, result, handedOut);
  }

  lemma AllListed(es: seq<Entry>, total: nat, pool: nat, result: map<Wallet, nat>, handedOut: nat)
    requires total > 0 && ListedUpTo(es, |es|, total, pool, result, handedOut)
    ensures result == Weighted(Shares(AsMap(es), total, pool))
    ensures handedOut == Total(Shares(AsMap(es), total, pool))
  {
    assert es[..|es|] == es;
  }

  /** `allocate`: sort, hand out rounded-down shares, give the rest to the first. */
  method Allocate(weights: seq<Entry>, totalWeight: nat, pool: nat) returns (result: map<Wallet, nat>)
    requires DistinctKeys(weights) && totalWeight == SumOf(weights)
    ensures IsAllocation(AsMap(weights), pool, result)
    ensures totalWeight > 0 ==> Total(result) == pool
  {
    hide Total, Share, AsMap, IsTop, Ahead, Sort, Shares, IsAllocation, Weighted, Remainder;
    SumIsTotal(weights);
    NothingAllocated(AsMap(weights), pool);
    if totalWeight == 0 || pool == 0 {
      return map[];
    }
    var entries := Sort(Ahead, weights);
    SortedEntries(weights);
    assert entries != [];
    var handedOut;
    result, handedOut := HandOutShares(entries, totalWeight, pool);
    ghost var listed := result;
    var remainder := pool - handedOut;
    if remainder > 0 && |entries| > 0 {
      var topWallet := entries[0].wallet;
      result := result[topWallet := At(result, topWallet) + remainder];
    }
    RemainderToFirst(AsMap(weights), pool, entries, listed, handedOut, result);
  }

  lemma NothingAllocated(m: map<Wallet, nat>, pool: nat)
    ensures Total(m) == 0 || pool == 0 ==> IsAllocation(m, pool, map[])
    ensures var none: map<Wallet, nat> := map[]; Total(none) == 0
  {
    TotalEmpty<Wallet>();
  }

  /** Adding what is left over to the first entry completes the allocation. */
  lemma RemainderToFirst(m: map<Wallet, nat>, pool: nat, entries: seq<Entry>, listed: map<Wallet, nat>, handedOut: nat,
                         result: map<Wallet, nat>)
    requires Total(m) > 0 && pool > 0 && entries != [] && IsTop(m, entries[0].wallet)
    requires listed == Weighted(Shares(m, Total(m), pool)) && handedOut == Total(Shares(m, Total(m), pool))
    requires var top, rest := entries[0].wallet, pool - handedOut;
             result == if rest > 0 then listed[top := At(listed, top) + rest] else listed
    ensures IsAllocation(m, pool, result) && Total(result) == pool
  {
    RemainderBounds(m, pool);
    hide Total, Share, IsTop, Shares, IsAllocation;
    assert pool - handedOut == Remainder(m, pool);
    TopIsFirst(m, pool, entries, result);
  }

  lemma NoShares(total: nat, pool: nat)
    requires total > 0
    ensures Shares(AsMap([]), total, pool) == map[]
    ensures Total(Shares(AsMap([]), total, pool)) == 0
    ensures Weighted(Shares(AsMap([]), total, pool)) == map[]
  {
    assert AsMap([]) == map[];
    assert Shares(AsMap([]), total, pool) == map[];
  }

  lemma TopIsFirst(m: map<Wallet, nat>, pool: nat, entries: seq<Entry>, result: map<Wallet, nat>)
    requires Total(m) > 0 && pool > 0
    requires entries != [] && IsTop(m, entries[0].wallet)
    requires forall w :: w in result ==> result[w] > 0
    requires forall w :: At(result, w) == At(Shares(m, Total(m), pool), w)
               + if w == entries[0].wallet then Remainder(m, pool) else 0
    ensures IsAllocation(m, pool, result)
    ensures Total(result) == pool
  {
    hide Total, Share, Less;
    var top := entries[0].wallet;
    forall w ensures At(result, w) == Owed(m, pool, w) {
      if IsTop(m, w) {
        TopUnique(m, top, w);
      }
    }
    ConservesWithTop(m, pool, result, top);
  }
}
