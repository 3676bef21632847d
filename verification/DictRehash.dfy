/** What one call of dictRehash moves, that a rehash comes to an end, and when a table grows or shrinks. */
module DictRehash {
  import opened Words
  import opened DictModel
  import opened DictMap

  /** The number of buckets that are not empty. */
  function NonEmpty<K, V>(b: seq<Chain<K, V>>): (n: nat)
    ensures n <= |b|
  {
    if b == [] then 0 else (if |b[0]| == 0 then 0 else 1) + NonEmpty(b[1..])
  }

  /** A call that starts at bucket i and may move n buckets and pass so many empty ones stops at bucket
      x: it has moved or passed them, or no entry is left from there on. */
  ghost predicate Stops<K, V>(b: seq<Chain<K, V>>, i: nat, x: int, n: nat, visits: int)
    requires i <= x <= |b|
  {
    NonEmpty(b[i..x]) == n || x - i - NonEmpty(b[i..x]) == visits || Count(b[x..]) == 0
  }

  /** The first bucket at which the call stops. */
  ghost predicate FirstStop<K, V>(b: seq<Chain<K, V>>, i: nat, e: int, n: nat, visits: int) {
    i <= e <= |b| && Stops(b, i, e, n, visits) && forall x :: i <= x < e ==> !Stops(b, i, x, n, visits)
  }

  /** The old table with the buckets below e moved away. */
  ghost predicate MovedBelow<K, V>(t: Table<K, V>, t': Table<K, V>, e: int) {
    && |t'.buckets| == |t.buckets| && t'.mask == t.mask && 0 <= e <= |t.buckets|
    && (forall j :: 0 <= j < e ==> t'.buckets[j] == [])
    && (forall j :: e <= j < |t.buckets| ==> t'.buckets[j] == t.buckets[j])
    && t'.used == Count(t.buckets[e..])
  }

  /** The outcome of a call that stops at bucket e: the entries below e are in the new table; if none
      is left, the new table has taken the place of the old one. */
  ghost predicate MovedUpTo<K, V>(d: Dict<K, V>, r: (Dict<K, V>, bool), e: int) {
    && 0 <= e <= |d.ht0.buckets| && (r.1 <==> Count(d.ht0.buckets[e..]) > 0) && r.0.iterators == d.iterators
    && (r.1 ==>
      && r.0.rehashidx == e && MovedBelow(d.ht0, r.0.ht0, e) && |r.0.ht1.buckets| == |d.ht1.buckets|
      && r.0.ht1.used == d.ht1.used + d.ht0.used - r.0.ht0.used)
    && (!r.1 ==>
      && r.0.rehashidx == -1 && r.0.ht1 == NullTable() && |r.0.ht0.buckets| == |d.ht1.buckets|
      && r.0.ht0.used == d.ht0.used + d.ht1.used)
  }

  // ---- one bucket ----

  lemma {:induction false} CountSplit<K, V>(b: seq<Chain<K, V>>, i: nat)
    requires i <= |b|
    ensures Count(b) == Count(b[..i]) + Count(b[i..])
  {
    if i > 0 {
      CountSplit(b[1..], i - 1);
      assert b[..i][1..] == b[1..][..i - 1] && b[1..][i - 1..] == b[i..];
    } else {
      assert b[..0] == [] && b[0..] == b;
    }
  }

  lemma CountAhead<K, V>(d: Dict<K, V>, hash: K -> Word)
    requires Valid(d, hash) && d.Rehashing()
    ensures 0 <= d.rehashidx <= |d.ht0.buckets| && d.ht0.used == Count(d.ht0.buckets[d.rehashidx..])
  {
    CountSplit(d.ht0.buckets, d.rehashidx);
    CountZero(d.ht0.buckets[..d.rehashidx]);
  }

  lemma RangeStep<K, V>(b: seq<Chain<K, V>>, i: nat, x: int)
    requires i < x <= |b|
    ensures NonEmpty(b[i..x]) == (if |b[i]| == 0 then 0 else 1) + NonEmpty(b[i + 1..x])
  {
    assert b[i..x][1..] == b[i + 1..x];
  }

  /** The stop of the rest of the call is the stop of the call. */
  lemma StopStep<K, V>(b: seq<Chain<K, V>>, b': seq<Chain<K, V>>, i: nat, e: int, n: nat, visits: int)
    requires i < |b| && n > 0 && visits > 0 && Count(b[i..]) > 0
    requires |b'| == |b| && forall j :: i < j < |b| ==> b'[j] == b[j]
    requires var (n', v') := if |b[i]| == 0 then (n, visits - 1) else (n - 1, visits); FirstStop(b', i + 1, e, n', v')
    ensures FirstStop(b, i, e, n, visits)
  {
    var (n', v') := if |b[i]| == 0 then (n, visits - 1) else (n - 1, visits);
    forall x | i + 1 <= x <= |b|
      ensures Stops(b, i, x, n, visits) <==> Stops(b', i + 1, x, n', v')
    {
      RangeStep(b, i, x);
      assert b'[i + 1..x] == b[i + 1..x] && b'[x..] == b[x..];
    }
    assert b[i..i] == [];
    assert !Stops(b, i, i, n, visits);
    hide Stops;
  }

  lemma MovedAfter<K, V>(d: Dict<K, V>, d1: Dict<K, V>, r: (Dict<K, V>, bool), i: nat, e: int)
    requires i < e && MovedUpTo(d1, r, e) && d1.iterators == d.iterators
    requires |d1.ht0.buckets| == |d.ht0.buckets| && |d1.ht1.buckets| == |d.ht1.buckets|
    requires forall j :: i < j < |d.ht0.buckets| ==> d1.ht0.buckets[j] == d.ht0.buckets[j]
    requires d1.ht0.used + d1.ht1.used == d.ht0.used + d.ht1.used && d1.ht0.mask == d.ht0.mask
    ensures MovedUpTo(d, r, e)
  {
    assert d1.ht0.buckets[e..] == d.ht0.buckets[e..];
  }

  lemma StopsHere<K, V>(d: Dict<K, V>, hash: K -> Word, n: nat, visits: int)
    requires Valid(d, hash) && d.Rehashing() && (n == 0 || d.ht0.used == 0 || d.rehashidx == |d.ht0.buckets|)
    ensures FirstStop(d.ht0.buckets, d.rehashidx, d.rehashidx, n, visits)
    ensures MovedUpTo(d, FinishRehash(d), d.rehashidx)
  {
    CountAhead(d, hash);
    var b, i := d.ht0.buckets, d.rehashidx;
    assert b[i..i] == [];
    assert i == |b| ==> b[i..] == [];
  }

  lemma MoveBucketCounts<K, V>(d: Dict<K, V>, hash: K -> Word)
    requires Valid(d, hash) && d.Rehashing() && d.rehashidx < |d.ht0.buckets|
    ensures var d1 := MoveBucket(d, hash);
      && d1.iterators == d.iterators && d1.ht0.mask == d.ht0.mask
      && |d1.ht0.buckets| == |d.ht0.buckets| && |d1.ht1.buckets| == |d.ht1.buckets|
      && (forall j :: d.rehashidx < j < |d.ht0.buckets| ==> d1.ht0.buckets[j] == d.ht0.buckets[j])
      && d1.ht0.used + d1.ht1.used == d.ht0.used + d.ht1.used
  {
    var c := d.ht0.buckets[d.rehashidx];
    CountUpdate(d.ht0.buckets, d.rehashidx, []);
    MoveChainUsed(c, d.ht1, hash);
    MoveChainSize(c, d.ht1, hash);
  }

  lemma {:induction false} MoveChainSize<K, V>(c: Chain<K, V>, t: Table<K, V>, hash: K -> Word)
    ensures |MoveChain(c, t, hash).buckets| == |t.buckets|
    decreases c
  {
    if c != [] { MoveChainSize(c[1..], Push(t, hash, c[0]), hash); }
  }

  // ---- the call ----

  lemma {:induction false} RehashLoopMoves<K(!new), V>(d: Dict<K, V>, hash: K -> Word, n: nat, visits: int)
    returns (e: int)
    requires Valid(d, hash) && d.Rehashing() && (n > 0 ==> visits > 0)
    ensures d.rehashidx >= 0 && FirstStop(d.ht0.buckets, d.rehashidx, e, n, visits)
    ensures MovedUpTo(d, RehashLoop(d, hash, n, visits), e)
    decreases |d.ht0.buckets| - d.rehashidx
  {
    hide Valid, MoveBucket, FinishRehash, FirstStop, MovedUpTo;
    CountAhead(d, hash);
    var b, i := d.ht0.buckets, d.rehashidx;
    if n == 0 || d.ht0.used == 0 || i == |b| {
      StopsHere(d, hash, n, visits);
      e := i;
    } else if b[i] == [] {
      SkipKeeps(d, hash);
      var d1 := d.(rehashidx := i + 1);
      if visits == 1 {
        e := i + 1;
        PassedLast(d, d1, hash, n);
      } else {
        e := RehashLoopMoves(d1, hash, n, visits - 1);
        StopStep(b, b, i, e, n, visits);
        StopAhead(b, i + 1, e, n, visits - 1);
        MovedAfter(d, d1, RehashLoop(d1, hash, n, visits - 1), i, e);
      }
    } else {
      MoveBucketKeeps(d, hash);
      MoveBucketCounts(d, hash);
      var d1 := MoveBucket(d, hash);
      e := RehashLoopMoves(d1, hash, n - 1, visits);
      StopStep(b, d1.ht0.buckets, i, e, n, visits);
      StopAhead(d1.ht0.buckets, i + 1, e, n - 1, visits);
      MovedAfter(d, d1, RehashLoop(d1, hash, n - 1, visits), i, e);
    }
  }

  lemma StopAhead<K, V>(b: seq<Chain<K, V>>, i: nat, e: int, n: nat, visits: int)
    requires FirstStop(b, i, e, n, visits)
    ensures i <= e
  {
  }

  /** The last empty bucket that a call may pass. */
  lemma PassedLast<K(!new), V>(d: Dict<K, V>, d1: Dict<K, V>, hash: K -> Word, n: nat)
    requires Valid(d, hash) && d.Rehashing() && d.rehashidx < |d.ht0.buckets| && d.ht0.buckets[d.rehashidx] == []
    requires n > 0 && d.ht0.used != 0 && d1 == d.(rehashidx := d.rehashidx + 1)
    ensures FirstStop(d.ht0.buckets, d.rehashidx, d.rehashidx + 1, n, 1)
    ensures MovedUpTo(d, (d1, true), d.rehashidx + 1)
  {
    var b, i := d.ht0.buckets, d.rehashidx;
    CountAhead(d, hash);
    assert b[i..][1..] == b[i + 1..];
    assert b[i..i] == [] && b[i..i + 1][1..] == [];
    hide Sized, Placed, Apart;
    assert MovedBelow(d.ht0, d1.ht0, i + 1);
  }

  /** dictRehash moves every bucket from the rehash index up to the first one at which it has moved n
      buckets, passed 10 * n empty ones, or moved all entries; and it reports whether entries are left. */
  lemma RehashMoves<K(!new), V>(d: Dict<K, V>, hash: K -> Word, n: nat) returns (e: int)
    requires Valid(d, hash) && d.Rehashing()
    ensures d.rehashidx >= 0 && FirstStop(d.ht0.buckets, d.rehashidx, e, n, n * 10)
    ensures MovedUpTo(d, Rehash(d, hash, n), e)
  {
    hide Valid, RehashLoop;
    e := RehashLoopMoves(d, hash, n, n * 10);
  }

  /** A call that may move a bucket gets ahead, or ends the rehash. */
  lemma RehashAdvances<K(!new), V>(d: Dict<K, V>, hash: K -> Word, n: nat)
    requires Valid(d, hash) && d.Rehashing() && n > 0
    ensures var (d', more) := Rehash(d, hash, n);
      && more == d'.Rehashing() && (more ==> d'.rehashidx > d.rehashidx && |d'.ht0.buckets| == |d.ht0.buckets|)
  {
    hide Valid, Rehash;
    var e := RehashMoves(d, hash, n);
    var b, i := d.ht0.buckets, d.rehashidx;
    assert b[i..i] == [];
    if e == i { assert Stops(b, i, i, n, n * 10); }
  }

  // ---- the whole rehash ----

  /** So many rehash steps. */
  function StepsOf<K, V>(d: Dict<K, V>, hash: K -> Word, k: nat): Dict<K, V>
    decreases k
  {
    if k == 0 then d else StepsOf(RehashStep(d, hash), hash, k - 1)
  }

  lemma {:induction false} NoMoreSteps<K, V>(d: Dict<K, V>, hash: K -> Word, k: nat)
    requires !d.Rehashing()
    ensures StepsOf(d, hash, k) == d
  {
    if k > 0 { NoMoreSteps(d, hash, k - 1); }
  }

  /** Without iterators a rehash ends, after as many steps as there are buckets ahead and one more. */
  lemma {:induction false} RehashEnds<K(!new), V>(d: Dict<K, V>, hash: K -> Word, k: nat)
    requires Valid(d, hash) && d.Rehashing() && d.iterators == 0 && k >= |d.ht0.buckets| - d.rehashidx + 1
    ensures !StepsOf(d, hash, k).Rehashing()
    decreases k
  {
    hide Valid, Rehash;
    CountAhead(d, hash);
    var e := RehashMoves(d, hash, 1);
    RehashAdvances(d, hash, 1);
    RehashKeeps(d, hash, 1);
    var d1 := RehashStep(d, hash);
    if d1.Rehashing() {
      CountAhead(d1, hash);
      RehashEnds(d1, hash, k - 1);
    } else {
      NoMoreSteps(d1, hash, k - 1);
    }
  }

  /** The rehash of d got ahead by a bucket, or the new table took the place of the old one. */
  ghost predicate Advanced<K, V>(d: Dict<K, V>, d': Dict<K, V>) {
    || |d'.ht0.buckets| == |d.ht1.buckets|
    || (|d'.ht0.buckets| == |d.ht0.buckets| && d'.rehashidx > d.rehashidx)
  }

  lemma StepAdvances<K(!new), V>(d: Dict<K, V>, hash: K -> Word)
    requires Valid(d, hash) && d.Rehashing() && d.iterators == 0
    ensures var d1 := RehashStep(d, hash);
      && Valid(d1, hash) && Advanced(d, d1) && d1.ht0.buckets != []
      && (|d1.ht0.buckets| != |d.ht1.buckets| ==> d1.Rehashing())
  {
    assert d.ht0.buckets != [] && d.ht1.buckets != [];
    hide Valid, Rehash;
    RehashAdvances(d, hash, 1);
    RehashKeeps(d, hash, 1);
    var e := RehashMoves(d, hash, 1);
  }

  /** Every find and deletion in a dict that is not empty, and every addition and replacement, moves a
      rehash ahead. */
  lemma OperationsAdvance<K(!new), V>(d: Dict<K, V>, hash: K -> Word, canResize: bool, k: K, v: V)
    requires Valid(d, hash) && d.Rehashing() && d.iterators == 0
    ensures d.ht0.used + d.ht1.used > 0 ==> Advanced(d, Find(d, hash, k).0) && Advanced(d, Delete(d, hash, k).0)
    ensures Advanced(d, Add(d, hash, canResize, k, v).0) && Advanced(d, Replace(d, hash, canResize, k, v).0)
  {
    hide Valid, RehashStep, Locate, Rehash, ExpandIfNeeded;
    StepAdvances(d, hash);
    var d1 := RehashStep(d, hash);
    NewTableOnly(d1, hash, canResize);
    var d2 := ExpandIfNeeded(d1, canResize).0;
    assert |Push(d2.ht0, hash, Entry(k, v)).buckets| == |d2.ht0.buckets|;
    LocateSound(d2, hash, k);
  }

  lemma NewTableOnly<K(!new), V>(d: Dict<K, V>, hash: K -> Word, canResize: bool)
    requires Valid(d, hash)
    ensures var d' := ExpandIfNeeded(d, canResize).0;
      && (d.Rehashing() ==> d' == d) && (d.ht0.buckets != [] ==> d'.ht0 == d.ht0)
  {
    GrowsExactly(d, hash, canResize);
  }

  // ---- growth ----

  /** The table grows exactly when it is full and growth is allowed, or it holds six entries to a
      bucket; then the new table has room for twice the entries. */
  predicate MustGrow<K, V>(d: Dict<K, V>, canResize: bool) {
    !d.Rehashing() && d.ht0.used >= |d.ht0.buckets| && (canResize || d.ht0.used >= 6 * |d.ht0.buckets|)
  }

  lemma SixToOne(used: nat, size: nat)
    requires size > 0
    ensures used / size > FORCE_RESIZE_RATIO <==> used >= 6 * size
  {
    var q, r := used / size, used % size;
    assert used == q * size + r && 0 <= r < size;
    if q >= 6 { assert q * size >= 6 * size; } else { assert q * size <= 5 * size; }
  }

  lemma GrowsExactly<K(!new), V>(d: Dict<K, V>, hash: K -> Word, canResize: bool)
    requires Valid(d, hash)
    ensures var (d', ok) := ExpandIfNeeded(d, canResize);
      && (d.ht0.buckets == [] ==> |d'.ht0.buckets| == INITIAL_SIZE && !d'.Rehashing())
      && (d.ht0.buckets != [] && !MustGrow(d, canResize) ==> d' == d)
      && (d.ht0.buckets != [] && MustGrow(d, canResize) && ok ==>
        && d'.rehashidx == 0 && d'.ht0 == d.ht0 && |d'.ht1.buckets| == NextPower(2 * d.ht0.used)
        && d'.ht1.used == 0)
  {
    var u, size := d.ht0.used, |d.ht0.buckets|;
    if size > 0 { SixToOne(u, size); }
    if d.ht0.buckets == [] {
      assert d.ht0 == NullTable();
      assert NextPower(INITIAL_SIZE) == INITIAL_SIZE;
    }
  }

  /** A resize that is allowed gives the least table, of four buckets at least, that holds the entries;
      a table of 2^31 entries, which the cast to int misreads, is never resized. */
  lemma ShrinksToFit<K(!new), V>(d: Dict<K, V>, hash: K -> Word, canResize: bool)
    requires Valid(d, hash)
    ensures var (d', ok) := Resize(d, canResize);
      var fit := NextPower(if d.ht0.used < INITIAL_SIZE then INITIAL_SIZE else d.ht0.used);
      && (ok <==> canResize && !d.Rehashing() && fit != |d.ht0.buckets| && d.ht0.used < 0x8000_0000)
      && (!ok ==> d' == d)
      && (ok ==> |(if d'.Rehashing() then d'.ht1 else d'.ht0).buckets| == fit)
  {
    var minimal := ToInt32(d.ht0.used);
    assert if d.ht0.used < 0x8000_0000 then minimal == d.ht0.used else minimal < 0x8000_0000;
    ExpandKeeps(d, hash, if minimal < INITIAL_SIZE then INITIAL_SIZE else minimal);
  }
}
