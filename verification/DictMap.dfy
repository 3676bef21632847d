/** The two tables of a dict, whatever the rehash in progress, are one finite map. */
module DictMap {
  import opened Wrappers
  import opened Words
  import opened DictModel

  // ---- chains ----

  ghost predicate NoDup<K, V>(c: Chain<K, V>) {
    forall i, j :: 0 <= i < j < |c| ==> c[i].key != c[j].key
  }

  function ValIn<K(==), V>(c: Chain<K, V>, k: K): Option<V> {
    if c == [] then None else if c[0].key == k then Some(c[0].val) else ValIn(c[1..], k)
  }

  ghost function Count<K, V>(b: seq<Chain<K, V>>): nat {
    if b == [] then 0 else |b[0]| + Count(b[1..])
  }

  lemma {:induction false} ValInMember<K, V>(c: Chain<K, V>, k: K)
    ensures ValIn(c, k).Some? <==> exists i :: 0 <= i < |c| && c[i].key == k
    ensures ValIn(c, k).Some? <==> FindIn(c, k).Some?
    ensures FindIn(c, k).Some? ==> FindIn(c, k).value < |c| && c[FindIn(c, k).value] == Entry(k, ValIn(c, k).value)
  {
    if c != [] {
      ValInMember(c[1..], k);
      assert forall j :: 1 <= j < |c| ==> c[j] == c[1..][j - 1];
      if ValIn(c[1..], k).Some? {
        var i :| 0 <= i < |c[1..]| && c[1..][i].key == k;
        assert c[i + 1].key == k;
      }
    }
  }

  lemma {:induction false} ValInAt<K, V>(c: Chain<K, V>, i: nat)
    requires NoDup(c) && i < |c|
    ensures ValIn(c, c[i].key) == Some(c[i].val)
  {
    if i > 0 { ValInAt(c[1..], i - 1); }
  }

  lemma ValInPush<K, V>(e: Entry<K, V>, c: Chain<K, V>, q: K)
    ensures ValIn([e] + c, q) == if q == e.key then Some(e.val) else ValIn(c, q)
  {
    assert ([e] + c)[1..] == c;
  }

  lemma {:induction false} ValInRemove<K, V>(c: Chain<K, V>, i: nat, q: K)
    requires NoDup(c) && i < |c|
    ensures NoDup(RemoveAt(c, i))
    ensures ValIn(RemoveAt(c, i), q) == if q == c[i].key then None else ValIn(c, q)
  {
    var r := RemoveAt(c, i);
    if i == 0 {
      assert r == c[1..];
      ValInMember(c[1..], q);
    } else {
      ValInRemove(c[1..], i - 1, q);
      assert r[1..] == RemoveAt(c[1..], i - 1);
    }
  }

  lemma {:induction false} ValInUpdate<K, V>(c: Chain<K, V>, i: nat, v: V, q: K)
    requires NoDup(c) && i < |c|
    ensures var c' := c[i := Entry(c[i].key, v)];
      NoDup(c') && ValIn(c', q) == if q == c[i].key then Some(v) else ValIn(c, q)
  {
    var c' := c[i := Entry(c[i].key, v)];
    if i == 0 {
      assert c'[1..] == c[1..];
    } else {
      ValInUpdate(c[1..], i - 1, v, q);
      assert c'[1..] == c[1..][i - 1 := Entry(c[i].key, v)];
    }
  }

  lemma {:induction false} CountUpdate<K, V>(b: seq<Chain<K, V>>, i: nat, c: Chain<K, V>)
    requires i < |b|
    ensures Count(b[i := c]) == Count(b) - |b[i]| + |c| && |b[i]| <= Count(b)
  {
    if i == 0 {
      assert b[0 := c][1..] == b[1..];
    } else {
      CountUpdate(b[1..], i - 1, c);
      assert b[i := c][1..] == b[1..][i - 1 := c];
    }
  }

  lemma {:induction false} CountZero<K, V>(b: seq<Chain<K, V>>)
    ensures Count(b) == 0 <==> forall i :: 0 <= i < |b| ==> b[i] == []
  {
    if b != [] {
      CountZero(b[1..]);
      assert forall i :: 1 <= i < |b| ==> b[i] == b[1..][i - 1];
    }
  }

  // ---- well-formedness ----

  function Log2(n: nat): (k: nat)
    requires n > 0
  {
    if n == 1 then 0 else 1 + Log2(n / 2)
  }

  /** A power-of-two number of buckets and the mask that goes with it. */
  ghost predicate Sized<K, V>(t: Table<K, V>) {
    |t.buckets| > 0 && var k := Log2(|t.buckets|); 2 <= k <= 63 && |t.buckets| == Pow2(k) && t.mask == Mask(k)
  }

  /** Every entry sits in bucket `hash & sizemask`, once. */
  ghost predicate Placed<K, V>(t: Table<K, V>, hash: K -> Word) {
    && (forall i, j :: 0 <= i < |t.buckets| && 0 <= j < |t.buckets[i]| ==> Index(t, hash(t.buckets[i][j].key)) == i)
    && (forall i :: 0 <= i < |t.buckets| ==> NoDup(t.buckets[i]))
  }

  ghost predicate ValidTable<K, V>(t: Table<K, V>, hash: K -> Word) {
    && (t == NullTable() || Sized(t))
    && Placed(t, hash)
    && t.used == Count(t.buckets)
  }

  /** The value that one table gives to a key. */
  function Get<K(==), V>(t: Table<K, V>, hash: K -> Word, k: K): Option<V> {
    ValIn(ChainAt(t, Index(t, hash(k))), k)
  }

  /** No key of the first table is in the second one. */
  ghost predicate Apart<K, V>(t: Table<K, V>, u: Table<K, V>, hash: K -> Word) {
    forall i, j :: 0 <= i < |t.buckets| && 0 <= j < |t.buckets[i]| ==> Get(u, hash, t.buckets[i][j].key) == None
  }

  ghost predicate RehashShape<K, V>(d: Dict<K, V>) {
    if d.Rehashing() then
      && Sized(d.ht0) && Sized(d.ht1) && |d.ht0.buckets| != |d.ht1.buckets|
      && 0 <= d.rehashidx <= |d.ht0.buckets|
      && (forall i :: 0 <= i < d.rehashidx ==> d.ht0.buckets[i] == [])
    else d.ht1 == NullTable()
  }

  ghost predicate Valid<K, V>(d: Dict<K, V>, hash: K -> Word) {
    ValidTable(d.ht0, hash) && ValidTable(d.ht1, hash) && Apart(d.ht0, d.ht1, hash) && RehashShape(d)
  }

  /** The value that the dict gives to a key: the old table first, then the new one. */
  function Lookup<K(==), V>(d: Dict<K, V>, hash: K -> Word, k: K): Option<V> {
    var v := Get(d.ht0, hash, k);
    if v.Some? then v else Get(d.ht1, hash, k)
  }

  lemma IndexInRange<K, V>(t: Table<K, V>, h: Word)
    requires Sized(t)
    ensures Index(t, h) < |t.buckets|
  {
    AndMask(h, Log2(|t.buckets|));
  }

  // ---- one table ----

  /** Replacing one chain by another of the same bucket. */
  lemma WithChainKeeps<K, V>(t: Table<K, V>, hash: K -> Word, i: nat, c: Chain<K, V>, used: nat)
    requires ValidTable(t, hash) && Sized(t) && i < |t.buckets| && NoDup(c)
    requires forall j :: 0 <= j < |c| ==> Index(t, hash(c[j].key)) == i
    requires used == t.used - |t.buckets[i]| + |c|
    ensures var t' := WithChain(t, i, c, used);
      && ValidTable(t', hash) && Sized(t') && |t'.buckets| == |t.buckets| && t'.mask == t.mask
      && t'.buckets == t.buckets[i := c]
  {
    CountUpdate(t.buckets, i, c);
  }

  lemma PushKeeps<K, V>(t: Table<K, V>, hash: K -> Word, e: Entry<K, V>)
    requires ValidTable(t, hash) && Sized(t) && Get(t, hash, e.key) == None
    ensures var t' := Push(t, hash, e);
      && ValidTable(t', hash) && Sized(t') && |t'.buckets| == |t.buckets| && t'.used == t.used + 1
      && forall q :: Get(t', hash, q) == if q == e.key then Some(e.val) else Get(t, hash, q)
  {
    var i := Index(t, hash(e.key));
    IndexInRange(t, hash(e.key));
    var c := t.buckets[i];
    ValInMember(c, e.key);
    WithChainKeeps(t, hash, i, [e] + c, t.used + 1);
    var t' := Push(t, hash, e);
    forall q
      ensures Get(t', hash, q) == if q == e.key then Some(e.val) else Get(t, hash, q)
    {
      ValInPush(e, c, q);
    }
  }

  lemma UpdateKeeps<K, V>(t: Table<K, V>, hash: K -> Word, b: nat, p: nat, v: V)
    requires ValidTable(t, hash) && Sized(t) && b < |t.buckets| && p < |t.buckets[b]|
    ensures var e := t.buckets[b][p];
      var t' := t.(buckets := t.buckets[b := t.buckets[b][p := Entry(e.key, v)]]);
      && ValidTable(t', hash) && Sized(t') && |t'.buckets| == |t.buckets|
      && forall q :: Get(t', hash, q) == if q == e.key then Some(v) else Get(t, hash, q)
  {
    var c := t.buckets[b];
    var e := c[p];
    var c' := c[p := Entry(e.key, v)];
    ValInUpdate(c, p, v, e.key);
    WithChainKeeps(t, hash, b, c', t.used);
    var t' := t.(buckets := t.buckets[b := c']);
    assert t' == WithChain(t, b, c', t.used);
    forall q
      ensures Get(t', hash, q) == if q == e.key then Some(v) else Get(t, hash, q)
    {
      ValInUpdate(c, p, v, q);
    }
  }

  lemma RemoveKeeps<K, V>(t: Table<K, V>, hash: K -> Word, b: nat, p: nat)
    requires ValidTable(t, hash) && Sized(t) && b < |t.buckets| && p < |t.buckets[b]|
    ensures t.used > 0
    ensures var e := t.buckets[b][p];
      var t' := WithChain(t, b, RemoveAt(t.buckets[b], p), t.used - 1);
      && ValidTable(t', hash) && Sized(t') && |t'.buckets| == |t.buckets|
      && forall q :: Get(t', hash, q) == if q == e.key then None else Get(t, hash, q)
  {
    var c := t.buckets[b];
    var e := c[p];
    CountUpdate(t.buckets, b, []);
    ValInRemove(c, p, e.key);
    WithChainKeeps(t, hash, b, RemoveAt(c, p), t.used - 1);
    var t' := WithChain(t, b, RemoveAt(c, p), t.used - 1);
    forall q
      ensures Get(t', hash, q) == if q == e.key then None else Get(t, hash, q)
    {
      ValInRemove(c, p, q);
    }
  }

  /** Emptying one bucket forgets exactly the keys chained in it. */
  lemma ClearKeeps<K, V>(t: Table<K, V>, hash: K -> Word, i: nat)
    requires ValidTable(t, hash) && Sized(t) && i < |t.buckets|
    ensures t.used >= |t.buckets[i]|
    ensures var t' := WithChain(t, i, [], t.used - |t.buckets[i]|);
      && ValidTable(t', hash) && Sized(t') && |t'.buckets| == |t.buckets| && t'.buckets == t.buckets[i := []]
      && forall q :: Get(t', hash, q) == if ValIn(t.buckets[i], q).Some? then None else Get(t, hash, q)
  {
    CountUpdate(t.buckets, i, []);
    WithChainKeeps(t, hash, i, [], t.used - |t.buckets[i]|);
    var t' := WithChain(t, i, [], t.used - |t.buckets[i]|);
    forall q
      ensures Get(t', hash, q) == if ValIn(t.buckets[i], q).Some? then None else Get(t, hash, q)
    {
      ValInMember(t.buckets[i], q);
    }
  }

  lemma {:induction false} MoveChainKeeps<K, V>(c: Chain<K, V>, t: Table<K, V>, hash: K -> Word)
    requires ValidTable(t, hash) && Sized(t) && NoDup(c)
    requires forall j :: 0 <= j < |c| ==> Get(t, hash, c[j].key) == None
    ensures var t' := MoveChain(c, t, hash);
      && ValidTable(t', hash) && Sized(t') && |t'.buckets| == |t.buckets|
      && forall q :: Get(t', hash, q) == if ValIn(c, q).Some? then ValIn(c, q) else Get(t, hash, q)
    decreases c
  {
    if c != [] {
      var e, r := c[0], c[1..];
      PushKeeps(t, hash, e);
      var u := Push(t, hash, e);
      assert forall j :: 0 <= j < |r| ==> r[j] == c[j + 1];
      MoveChainKeeps(r, u, hash);
      ValInMember(r, e.key);
    }
  }

  lemma EmptyTableValid<K, V>(j: nat, hash: K -> Word)
    requires 2 <= j <= 63
    ensures var t: Table<K, V> := EmptyTable(Pow2(j));
      ValidTable(t, hash) && Sized(t) && |t.buckets| == Pow2(j) && forall q :: Get(t, hash, q) == None
  {
    Log2Pow2(j);
    FromNatMask(j, WIDTH);
    var t: Table<K, V> := EmptyTable(Pow2(j));
    CountZero(t.buckets);
  }

  // ---- sizes ----

  lemma {:induction false} Log2Pow2(k: nat)
    ensures Log2(Pow2(k)) == k
  {
    if k > 0 { Log2Pow2(k - 1); }
  }

  lemma Pow2Of63()
    ensures Pow2(63) == LONG_MAX + 1 && Pow2(2) == 4
  {
    assert Pow2(8) == 256;
    Pow2Add(8, 8);
    Pow2Add(16, 16);
    assert Pow2(32) == 0x1_0000_0000;
    Pow2Add(16, 8);
    Pow2Add(24, 7);
    assert Pow2(31) == 0x8000_0000;
    Pow2Add(32, 31);
  }

  lemma {:induction false} NextPowerFromIsPower(k: nat, size: nat) returns (j: nat)
    requires k <= 63 && size < LONG_MAX
    ensures k <= j <= 63 && NextPowerFrom(Pow2(k), size) == Pow2(j)
    ensures Pow2(j) >= size && (j > k ==> Pow2(j - 1) < size)
    decreases 63 - k
  {
    Pow2Of63();
    if Pow2(k) >= size {
      j := k;
    } else {
      j := NextPowerFromIsPower(k + 1, size);
    }
  }

  /** _dictNextPower gives the least power of two, from 4 up, that holds `size` entries;
      the largest size is 2^63. */
  lemma NextPowerIsLeast(size: nat) returns (j: nat)
    ensures 2 <= j <= 63 && NextPower(size) == Pow2(j)
    ensures size < LONG_MAX ==> Pow2(j) >= size && (j > 2 ==> Pow2(j - 1) < size)
    ensures size >= LONG_MAX ==> j == 63
  {
    Pow2Of63();
    if size >= LONG_MAX {
      j := 63;
    } else {
      j := NextPowerFromIsPower(2, size);
    }
  }

  // ---- expansion ----

  /** Same map, same iterators. */
  ghost predicate Same<K(!new), V>(d: Dict<K, V>, d': Dict<K, V>, hash: K -> Word) {
    && d'.iterators == d.iterators && d'.ht0.used + d'.ht1.used == d.ht0.used + d.ht1.used
    && forall q :: Lookup(d', hash, q) == Lookup(d, hash, q)
  }

  lemma ReplaceByEmpty<K(!new), V>(d: Dict<K, V>, hash: K -> Word, j: nat)
    requires Valid(d, hash) && !d.Rehashing() && 2 <= j <= 63 && |d.ht0.buckets| != Pow2(j)
    ensures d.ht0.buckets == [] ==>
      var d' := d.(ht0 := EmptyTable(Pow2(j))); Valid(d', hash) && Same(d, d', hash) && Sized(d'.ht0)
    ensures d.ht0.buckets != [] ==>
      var d' := d.(ht1 := EmptyTable(Pow2(j)), rehashidx := 0); Valid(d', hash) && Same(d, d', hash) && Sized(d'.ht0)
    ensures var e: Table<K, V> := EmptyTable(Pow2(j)); |e.buckets| == Pow2(j)
  {
    if d.ht0.buckets == [] { FirstTable(d, hash, j); } else { SecondTable(d, hash, j); }
    EmptyTableValid<K, V>(j, hash);
  }

  lemma FirstTable<K(!new), V>(d: Dict<K, V>, hash: K -> Word, j: nat)
    requires Valid(d, hash) && !d.Rehashing() && 2 <= j <= 63 && d.ht0.buckets == []
    ensures var d' := d.(ht0 := EmptyTable(Pow2(j))); Valid(d', hash) && Same(d, d', hash) && Sized(d'.ht0)
  {
    hide EmptyTable, Count, Index, Log2;
    var e: Table<K, V> := EmptyTable(Pow2(j));
    EmptyTableValid<K, V>(j, hash);
    EmptyTableUnused<K, V>(j);
    NullGet<K, V>(hash);
    EmptyApart(e, d.ht1, hash);
  }

  lemma SecondTable<K(!new), V>(d: Dict<K, V>, hash: K -> Word, j: nat)
    requires Valid(d, hash) && !d.Rehashing() && 2 <= j <= 63 && d.ht0.buckets != [] && |d.ht0.buckets| != Pow2(j)
    ensures var d' := d.(ht1 := EmptyTable(Pow2(j)), rehashidx := 0);
      Valid(d', hash) && Same(d, d', hash) && Sized(d'.ht0)
  {
    hide EmptyTable, Count, Index, Log2;
    EmptyTableValid<K, V>(j, hash);
    EmptyTableUnused<K, V>(j);
    NullGet<K, V>(hash);
  }

  lemma EmptyTableUnused<K, V>(j: nat)
    ensures var e: Table<K, V> := EmptyTable(Pow2(j));
      e.used == 0 && forall i :: 0 <= i < |e.buckets| ==> e.buckets[i] == []
  {
  }

  lemma NullGet<K(!new), V>(hash: K -> Word)
    ensures forall q: K :: Get<K, V>(NullTable(), hash, q) == None
  {
  }

  lemma EmptyApart<K, V>(t: Table<K, V>, u: Table<K, V>, hash: K -> Word)
    requires forall i :: 0 <= i < |t.buckets| ==> t.buckets[i] == []
    ensures Apart(t, u, hash)
  {
  }

  /** dictExpand keeps the map; it succeeds exactly outside a rehash, for a size that holds the
      entries and changes the number of buckets. */
  lemma ExpandKeeps<K(!new), V>(d: Dict<K, V>, hash: K -> Word, size: nat)
    requires Valid(d, hash)
    ensures var (d', ok) := Expand(d, size);
      && Valid(d', hash) && Same(d, d', hash)
      && (ok <==> !d.Rehashing() && d.ht0.used <= size && NextPower(size) != |d.ht0.buckets|)
      && (ok ==> Sized(d'.ht0) && |(if d'.Rehashing() then d'.ht1 else d'.ht0).buckets| == NextPower(size))
  {
    var j := NextPowerIsLeast(size);
    if !d.Rehashing() && d.ht0.used <= size && NextPower(size) != |d.ht0.buckets| {
      ReplaceByEmpty(d, hash, j);
    }
  }

  /** Growth fails only when the table already has the largest size, 2^63 buckets. */
  lemma ExpandIfNeededKeeps<K(!new), V>(d: Dict<K, V>, hash: K -> Word, canResize: bool)
    requires Valid(d, hash)
    ensures var (d', ok) := ExpandIfNeeded(d, canResize);
      && Valid(d', hash) && Same(d, d', hash)
      && (ok ==> Sized(d'.ht0))
      && (!ok ==> d' == d && !d.Rehashing() && |d.ht0.buckets| == Pow2(63))
  {
    var u := d.ht0.used;
    if !d.Rehashing() && d.ht0.buckets == [] {
      ExpandKeeps(d, hash, INITIAL_SIZE);
      var j := NextPowerIsLeast(INITIAL_SIZE);
      assert d.ht0 == NullTable();
    } else if !d.Rehashing() && u >= |d.ht0.buckets| {
      ExpandKeeps(d, hash, u * 2);
      var j := NextPowerIsLeast(u * 2);
      Log2Pow2(j);
    }
  }

  lemma ResizeKeeps<K(!new), V>(d: Dict<K, V>, hash: K -> Word, canResize: bool)
    requires Valid(d, hash)
    ensures var (d', ok) := Resize(d, canResize);
      Valid(d', hash) && Same(d, d', hash)
  {
    var minimal := ToInt32(d.ht0.used);
    ExpandKeeps(d, hash, if minimal < INITIAL_SIZE then INITIAL_SIZE else minimal);
  }

  // ---- incremental rehash ----

  lemma {:induction false} MoveChainUsed<K, V>(c: Chain<K, V>, t: Table<K, V>, hash: K -> Word)
    requires Sized(t)
    ensures MoveChain(c, t, hash).used == t.used + |c|
    decreases c
  {
    if c != [] {
      IndexInRange(t, hash(c[0].key));
      MoveChainUsed(c[1..], Push(t, hash, c[0]), hash);
    }
  }

  lemma GetInApart<K, V>(t: Table<K, V>, u: Table<K, V>, hash: K -> Word, q: K)
    requires Apart(t, u, hash) && Get(t, hash, q).Some?
    ensures Get(u, hash, q) == None
  {
    var i := Index(t, hash(q));
    ValInMember(ChainAt(t, i), q);
    var j :| 0 <= j < |t.buckets[i]| && t.buckets[i][j].key == q;
  }

  lemma MoveBucketKeeps<K(!new), V>(d: Dict<K, V>, hash: K -> Word)
    requires Valid(d, hash) && d.Rehashing() && d.rehashidx < |d.ht0.buckets|
    ensures var d' := MoveBucket(d, hash);
      && Valid(d', hash) && Same(d, d', hash) && d'.Rehashing() && |d'.ht0.buckets| == |d.ht0.buckets|
      && d'.rehashidx == d.rehashidx + 1
  {
    var i := d.rehashidx;
    var c := d.ht0.buckets[i];
    var d' := MoveBucket(d, hash);
    ClearKeeps(d.ht0, hash, i);
    MoveChainKeeps(c, d.ht1, hash);
    MoveChainUsed(c, d.ht1, hash);
    assert Apart(d'.ht0, d'.ht1, hash) by {
      forall a, b | 0 <= a < |d'.ht0.buckets| && 0 <= b < |d'.ht0.buckets[a]|
        ensures Get(d'.ht1, hash, d'.ht0.buckets[a][b].key) == None
      {
        assert a != i && d'.ht0.buckets[a] == d.ht0.buckets[a];
        ValInMember(c, d.ht0.buckets[a][b].key);
      }
    }
    forall q
      ensures Lookup(d', hash, q) == Lookup(d, hash, q)
    {
      LookupMoved(d, hash, q);
    }
  }

  lemma LookupMoved<K, V>(d: Dict<K, V>, hash: K -> Word, q: K)
    requires Valid(d, hash) && d.Rehashing() && d.rehashidx < |d.ht0.buckets|
    ensures Lookup(MoveBucket(d, hash), hash, q) == Lookup(d, hash, q)
  {
    var c := d.ht0.buckets[d.rehashidx];
    ClearKeeps(d.ht0, hash, d.rehashidx);
    MoveChainKeeps(c, d.ht1, hash);
    ValInMember(c, q);
    if ValIn(c, q).Some? {
      var j :| 0 <= j < |c| && c[j].key == q;
    } else if Get(d.ht0, hash, q).Some? {
      GetInApart(d.ht0, d.ht1, hash, q);
    }
  }

  /** The assertion of dictRehash: entries left in the old table lie at or after rehashidx. */
  lemma RehashIndexInRange<K, V>(d: Dict<K, V>, hash: K -> Word)
    requires Valid(d, hash) && d.Rehashing()
    ensures d.ht0.used != 0 <==> exists i :: d.rehashidx <= i < |d.ht0.buckets| && d.ht0.buckets[i] != []
  {
    CountZero(d.ht0.buckets);
  }

  lemma FinishRehashKeeps<K(!new), V>(d: Dict<K, V>, hash: K -> Word)
    requires Valid(d, hash) && d.Rehashing()
    ensures var (d', more) := FinishRehash(d);
      Valid(d', hash) && Same(d, d', hash) && more == d'.Rehashing()
  {
    CountZero(d.ht0.buckets);
    if d.ht0.used == 0 {
      forall q
        ensures Lookup(FinishRehash(d).0, hash, q) == Lookup(d, hash, q)
      {
        assert Get(d.ht0, hash, q) == None;
      }
    }
  }

  lemma SkipKeeps<K(!new), V>(d: Dict<K, V>, hash: K -> Word)
    requires Valid(d, hash) && d.Rehashing() && d.rehashidx < |d.ht0.buckets| && d.ht0.buckets[d.rehashidx] == []
    ensures var d' := d.(rehashidx := d.rehashidx + 1);
      Valid(d', hash) && Same(d, d', hash) && d'.Rehashing()
  {
  }

  lemma ValidRehashIndex<K, V>(d: Dict<K, V>, hash: K -> Word)
    requires Valid(d, hash) && d.Rehashing()
    ensures 0 <= d.rehashidx <= |d.ht0.buckets|
  {
  }

  ghost predicate Rehashed<K(!new), V>(d: Dict<K, V>, r: (Dict<K, V>, bool), hash: K -> Word) {
    Valid(r.0, hash) && Same(d, r.0, hash) && r.1 == r.0.Rehashing()
  }

  lemma RehashedAfter<K(!new), V>(d: Dict<K, V>, d': Dict<K, V>, r: (Dict<K, V>, bool), hash: K -> Word)
    requires Same(d, d', hash) && Rehashed(d', r, hash)
    ensures Rehashed(d, r, hash)
  {
  }

  lemma {:induction false} RehashLoopKeeps<K(!new), V>(d: Dict<K, V>, hash: K -> Word, n: nat, visits: int)
    requires Valid(d, hash) && d.Rehashing()
    ensures Rehashed(d, RehashLoop(d, hash, n, visits), hash)
    decreases |d.ht0.buckets| - d.rehashidx
  {
    hide Valid, Same, MoveBucket, FinishRehash;
    assert 0 <= d.rehashidx by { ValidRehashIndex(d, hash); }
    if n == 0 || d.ht0.used == 0 || !(0 <= d.rehashidx < |d.ht0.buckets|) {
      FinishRehashKeeps(d, hash);
    } else if d.ht0.buckets[d.rehashidx] == [] {
      SkipKeeps(d, hash);
      var d' := d.(rehashidx := d.rehashidx + 1);
      if visits != 1 {
        RehashLoopKeeps(d', hash, n, visits - 1);
        RehashedAfter(d, d', RehashLoop(d', hash, n, visits - 1), hash);
      }
    } else {
      MoveBucketKeeps(d, hash);
      var d' := MoveBucket(d, hash);
      RehashLoopKeeps(d', hash, n - 1, visits);
      RehashedAfter(d, d', RehashLoop(d', hash, n - 1, visits), hash);
    }
  }

  /** Rehash steps never change the map; the flag tells whether the rehash is still going on. */
  lemma RehashKeeps<K(!new), V>(d: Dict<K, V>, hash: K -> Word, n: nat)
    requires Valid(d, hash)
    ensures var (d', more) := Rehash(d, hash, n);
      Valid(d', hash) && Same(d, d', hash) && more == d'.Rehashing()
  {
    if d.Rehashing() { RehashLoopKeeps(d, hash, n, n * 10); }
  }

  lemma RehashStepKeeps<K(!new), V>(d: Dict<K, V>, hash: K -> Word)
    requires Valid(d, hash)
    ensures var d' := RehashStep(d, hash);
      Valid(d', hash) && Same(d, d', hash) && (d.iterators > 0 ==> d' == d)
  {
    RehashKeeps(d, hash, 1);
  }

  // ---- lookup ----

  /** The two-table search finds a key exactly when the dict gives it a value. */
  lemma LocateComplete<K, V>(d: Dict<K, V>, hash: K -> Word, k: K)
    requires Valid(d, hash)
    ensures Locate(d, hash, k).Some? <==> Lookup(d, hash, k).Some?
    ensures Locate(d, hash, k).Some? ==>
      var l := Locate(d, hash, k).value;
      && l.bucket < |TableOf(d, l).buckets| && l.place < |TableOf(d, l).buckets[l.bucket]|
      && EntryAt(d, l) == Entry(k, Lookup(d, hash, k).value)
      && (l.table == 1 ==> d.Rehashing()) && l.bucket == Index(TableOf(d, l), hash(k))
  {
    ValInMember(ChainAt(d.ht0, Index(d.ht0, hash(k))), k);
    ValInMember(ChainAt(d.ht1, Index(d.ht1, hash(k))), k);
  }

  lemma EmptyLookup<K, V>(d: Dict<K, V>, hash: K -> Word, k: K)
    requires Valid(d, hash) && d.ht0.used + d.ht1.used == 0
    ensures Lookup(d, hash, k) == None
  {
    CountZero(d.ht0.buckets);
    CountZero(d.ht1.buckets);
  }

  /** dictFind returns the entry that carries the key's value in the map. */
  lemma FindCorrect<K(!new), V>(d: Dict<K, V>, hash: K -> Word, k: K)
    requires Valid(d, hash)
    ensures var (d', at) := Find(d, hash, k);
      && Valid(d', hash) && Same(d, d', hash)
      && (at.Some? <==> Lookup(d, hash, k).Some?)
      && (at.Some? ==>
           var l := at.value;
           && l.bucket < |TableOf(d', l).buckets| && l.place < |TableOf(d', l).buckets[l.bucket]|
           && EntryAt(d', l) == Entry(k, Lookup(d, hash, k).value))
  {
    RehashStepKeeps(d, hash);
    LocateComplete(RehashStep(d, hash), hash, k);
    if d.ht0.used + d.ht1.used == 0 { EmptyLookup(d, hash, k); }
  }

  // ---- insertion, replacement, deletion ----

  ghost predicate Sets<K(!new), V>(d: Dict<K, V>, d': Dict<K, V>, hash: K -> Word, k: K, v: Option<V>) {
    && d'.iterators == d.iterators
    && forall q :: Lookup(d', hash, q) == if q == k then v else Lookup(d, hash, q)
  }

  lemma InsertKeeps<K(!new), V>(d: Dict<K, V>, hash: K -> Word, e: Entry<K, V>)
    requires Valid(d, hash) && Sized(d.ht0) && Lookup(d, hash, e.key) == None
    ensures d.Rehashing() ==>
      var d' := d.(ht1 := Push(d.ht1, hash, e)); Valid(d', hash) && Sets(d, d', hash, e.key, Some(e.val))
    ensures !d.Rehashing() ==>
      var d' := d.(ht0 := Push(d.ht0, hash, e)); Valid(d', hash) && Sets(d, d', hash, e.key, Some(e.val))
  {
    hide Sized, Index, Push;
    if d.Rehashing() {
      PushKeeps(d.ht1, hash, e);
      var d' := d.(ht1 := Push(d.ht1, hash, e));
      forall a, b | 0 <= a < |d.ht0.buckets| && 0 <= b < |d.ht0.buckets[a]|
        ensures Get(d'.ht1, hash, d.ht0.buckets[a][b].key) == None
      {
        ValInMember(d.ht0.buckets[a], d.ht0.buckets[a][b].key);
      }
    } else {
      PushKeeps(d.ht0, hash, e);
    }
  }

  /** dictAdd adds an absent key, leaves a present one alone, and can only lack room in a table
      of 2^63 buckets. */
  lemma AddCorrect<K(!new), V>(d: Dict<K, V>, hash: K -> Word, canResize: bool, k: K, v: V)
    requires Valid(d, hash)
    ensures var (d', r) := Add(d, hash, canResize, k, v);
      var was := Lookup(d, hash, k);
      && Valid(d', hash)
      && (r.Added? ==> was == None && Sets(d, d', hash, k, Some(v)))
      && (r.Exists? ==> was.Some? && Same(d, d', hash) && Locate(d', hash, k) == Some(r.at))
      && (r.NoRoom? ==> Same(d, d', hash) && !d'.Rehashing() && |d'.ht0.buckets| == Pow2(63))
  {
    hide Valid, Lookup, Locate, RehashStep, ExpandIfNeeded, Push;
    RehashStepKeeps(d, hash);
    var d1 := RehashStep(d, hash);
    ExpandIfNeededKeeps(d1, hash, canResize);
    var (d2, ok) := ExpandIfNeeded(d1, canResize);
    if ok {
      LocateComplete(d2, hash, k);
      if Locate(d2, hash, k).None? {
        InsertKeeps(d2, hash, Entry(k, v));
      }
    }
  }

  lemma ApartSameKeys<K, V>(t: Table<K, V>, u: Table<K, V>, t': Table<K, V>, u': Table<K, V>, hash: K -> Word)
    requires Placed(t, hash) && Placed(t', hash) && Apart(t, u, hash)
    requires forall a, b :: 0 <= a < |t'.buckets| && 0 <= b < |t'.buckets[a]| ==>
      Get(t, hash, t'.buckets[a][b].key).Some?
    requires forall q :: Get(u, hash, q) == None ==> Get(u', hash, q) == None
    ensures Apart(t', u', hash)
  {
    forall a, b | 0 <= a < |t'.buckets| && 0 <= b < |t'.buckets[a]|
      ensures Get(u', hash, t'.buckets[a][b].key) == None
    {
      GetInApart(t, u, hash, t'.buckets[a][b].key);
    }
  }

  lemma GetPlaced<K, V>(t: Table<K, V>, hash: K -> Word, a: nat, b: nat)
    requires Placed(t, hash) && a < |t.buckets| && b < |t.buckets[a]|
    ensures Get(t, hash, t.buckets[a][b].key) == Some(t.buckets[a][b].val)
  {
    assert Index(t, hash(t.buckets[a][b].key)) == a;
    ValInAt(t.buckets[a], b);
  }

  lemma SetAtKeeps<K(!new), V>(d: Dict<K, V>, hash: K -> Word, l: Location, v: V)
    requires Valid(d, hash) && l.table <= 1 && (l.table == 1 ==> d.Rehashing())
    requires l.bucket < |TableOf(d, l).buckets| && l.place < |TableOf(d, l).buckets[l.bucket]|
    ensures var d' := SetAt(d, l, Entry(EntryAt(d, l).key, v));
      Valid(d', hash) && Sets(d, d', hash, EntryAt(d, l).key, Some(v))
  {
    if l.table == 0 { SetAt0Keeps(d, hash, l, v); } else { SetAt1Keeps(d, hash, l, v); }
  }

  lemma SetAt0Keeps<K(!new), V>(d: Dict<K, V>, hash: K -> Word, l: Location, v: V)
    requires Valid(d, hash) && l.table == 0
    requires l.bucket < |d.ht0.buckets| && l.place < |d.ht0.buckets[l.bucket]|
    ensures var d' := SetAt(d, l, Entry(EntryAt(d, l).key, v));
      Valid(d', hash) && Sets(d, d', hash, EntryAt(d, l).key, Some(v))
  {
    hide Index, Count, Sized;
    UpdateKeeps(d.ht0, hash, l.bucket, l.place, v);
    GetPlaced(d.ht0, hash, l.bucket, l.place);
    var d' := SetAt(d, l, Entry(EntryAt(d, l).key, v));
    forall a, b | 0 <= a < |d'.ht0.buckets| && 0 <= b < |d'.ht0.buckets[a]|
      ensures Get(d.ht0, hash, d'.ht0.buckets[a][b].key).Some?
    {
      GetPlaced(d'.ht0, hash, a, b);
    }
    ApartSameKeys(d.ht0, d.ht1, d'.ht0, d.ht1, hash);
  }

  lemma SetAt1Keeps<K(!new), V>(d: Dict<K, V>, hash: K -> Word, l: Location, v: V)
    requires Valid(d, hash) && l.table == 1 && d.Rehashing()
    requires l.bucket < |d.ht1.buckets| && l.place < |d.ht1.buckets[l.bucket]|
    ensures var d' := SetAt(d, l, Entry(EntryAt(d, l).key, v));
      Valid(d', hash) && Sets(d, d', hash, EntryAt(d, l).key, Some(v))
  {
    var k := EntryAt(d, l).key;
    UpdateKeeps(d.ht1, hash, l.bucket, l.place, v);
    GetPlaced(d.ht1, hash, l.bucket, l.place);
    if Get(d.ht0, hash, k).Some? { GetInApart(d.ht0, d.ht1, hash, k); }
    var d' := SetAt(d, l, Entry(k, v));
    forall a, b | 0 <= a < |d.ht0.buckets| && 0 <= b < |d.ht0.buckets[a]|
      ensures Get(d.ht0, hash, d.ht0.buckets[a][b].key).Some?
    {
      GetPlaced(d.ht0, hash, a, b);
    }
    ApartSameKeys(d.ht0, d.ht1, d.ht0, d'.ht1, hash);
  }

  /** dictReplace makes the map send the key to the value, and tells whether the key is new. */
  lemma ReplaceCorrect<K(!new), V>(d: Dict<K, V>, hash: K -> Word, canResize: bool, k: K, v: V)
    requires Valid(d, hash)
    ensures var (d', r) := Replace(d, hash, canResize, k, v);
      && Valid(d', hash)
      && (r.Some? ==> Sets(d, d', hash, k, Some(v)) && r.value == Lookup(d, hash, k).None?)
      && (r.None? ==> Same(d, d', hash) && !d'.Rehashing() && |d'.ht0.buckets| == Pow2(63))
  {
    hide Valid, Lookup, Locate, Add;
    AddCorrect(d, hash, canResize, k, v);
    var (d1, r) := Add(d, hash, canResize, k, v);
    if r.Exists? {
      LocateSound(d1, hash, k);
      SetAtKeeps(d1, hash, r.at, v);
    }
  }

  lemma RemoveEntryKeeps<K(!new), V>(d: Dict<K, V>, hash: K -> Word, l: Location)
    requires Valid(d, hash) && l.table <= 1 && (l.table == 1 ==> d.Rehashing())
    requires l.bucket < |TableOf(d, l).buckets| && l.place < |TableOf(d, l).buckets[l.bucket]|
    ensures var d' := RemoveEntry(d, l);
      && Valid(d', hash) && Sets(d, d', hash, EntryAt(d, l).key, None)
      && d'.ht0.used + d'.ht1.used == d.ht0.used + d.ht1.used - 1
  {
    if l.table == 0 { Remove0Keeps(d, hash, l); } else { Remove1Keeps(d, hash, l); }
  }

  lemma Remove0Keeps<K(!new), V>(d: Dict<K, V>, hash: K -> Word, l: Location)
    requires Valid(d, hash) && l.table == 0 && l.bucket < |d.ht0.buckets| && l.place < |d.ht0.buckets[l.bucket]|
    ensures var d' := RemoveEntry(d, l);
      && Valid(d', hash) && Sets(d, d', hash, EntryAt(d, l).key, None)
      && d'.ht0.used + d'.ht1.used == d.ht0.used + d.ht1.used - 1
  {
    RemoveKeeps(d.ht0, hash, l.bucket, l.place);
    GetPlaced(d.ht0, hash, l.bucket, l.place);
    GetInApart(d.ht0, d.ht1, hash, EntryAt(d, l).key);
    hide Index, Count, Sized;
    var d' := RemoveEntry(d, l);
    forall a, b | 0 <= a < |d'.ht0.buckets| && 0 <= b < |d'.ht0.buckets[a]|
      ensures Get(d.ht0, hash, d'.ht0.buckets[a][b].key).Some?
    {
      GetPlaced(d'.ht0, hash, a, b);
    }
    ApartSameKeys(d.ht0, d.ht1, d'.ht0, d.ht1, hash);
  }

  lemma Remove1Keeps<K(!new), V>(d: Dict<K, V>, hash: K -> Word, l: Location)
    requires Valid(d, hash) && l.table == 1 && d.Rehashing()
    requires l.bucket < |d.ht1.buckets| && l.place < |d.ht1.buckets[l.bucket]|
    ensures var d' := RemoveEntry(d, l);
      && Valid(d', hash) && Sets(d, d', hash, EntryAt(d, l).key, None)
      && d'.ht0.used + d'.ht1.used == d.ht0.used + d.ht1.used - 1
  {
    var k := EntryAt(d, l).key;
    RemoveKeeps(d.ht1, hash, l.bucket, l.place);
    GetPlaced(d.ht1, hash, l.bucket, l.place);
    if Get(d.ht0, hash, k).Some? { GetInApart(d.ht0, d.ht1, hash, k); }
  }

  /** dictDelete and dictUnlink take the key out of the map and hand back its entry. */
  lemma DeleteCorrect<K(!new), V>(d: Dict<K, V>, hash: K -> Word, k: K)
    requires Valid(d, hash)
    ensures var (d', r) := Delete(d, hash, k);
      var was := Lookup(d, hash, k);
      && Valid(d', hash) && Sets(d, d', hash, k, None)
      && r == (if was.Some? then Some(Entry(k, was.value)) else None)
      && d'.ht0.used + d'.ht1.used == d.ht0.used + d.ht1.used - (if was.Some? then 1 else 0)
  {
    hide Valid, Lookup, Locate, RehashStep, RemoveEntry;
    RehashStepKeeps(d, hash);
    var d1 := RehashStep(d, hash);
    LocateComplete(d1, hash, k);
    LocateSound(d1, hash, k);
    if d.ht0.used + d.ht1.used == 0 {
      EmptyLookup(d, hash, k);
    } else if Locate(d1, hash, k).Some? {
      RemoveEntryKeeps(d1, hash, Locate(d1, hash, k).value);
    }
  }

  // ---- whole runs ----

  datatype Op<K, V> =
    | OpAdd(canResize: bool, k: K, v: V)
    | OpReplace(canResize: bool, k: K, v: V)
    | OpFind(k: K)
    | OpDelete(k: K)
    | OpExpand(size: nat)
    | OpResize(canResize: bool)
    | OpRehash(n: nat)
    | OpEmpty

  function Apply<K(==), V>(d: Dict<K, V>, hash: K -> Word, op: Op<K, V>): Dict<K, V> {
    match op
    case OpAdd(c, k, v) => Add(d, hash, c, k, v).0
    case OpReplace(c, k, v) => Replace(d, hash, c, k, v).0
    case OpFind(k) => Find(d, hash, k).0
    case OpDelete(k) => Delete(d, hash, k).0
    case OpExpand(size) => Expand(d, size).0
    case OpResize(c) => Resize(d, c).0
    case OpRehash(n) => Rehash(d, hash, n).0
    case OpEmpty => Empty(d)
  }

  /** The same operation on a plain map. */
  function ApplyMap<K(==), V>(m: map<K, V>, op: Op<K, V>): map<K, V> {
    match op
    case OpAdd(_, k, v) => if k in m then m else m[k := v]
    case OpReplace(_, k, v) => m[k := v]
    case OpDelete(k) => m - {k}
    case OpEmpty => map[]
    case _ => m
  }

  function Run<K(==), V>(d: Dict<K, V>, hash: K -> Word, ops: seq<Op<K, V>>): Dict<K, V>
    decreases |ops|
  {
    if ops == [] then d else Run(Apply(d, hash, ops[0]), hash, ops[1..])
  }

  function RunMap<K(==), V>(m: map<K, V>, ops: seq<Op<K, V>>): map<K, V>
    decreases |ops|
  {
    if ops == [] then m else RunMap(ApplyMap(m, ops[0]), ops[1..])
  }

  /** The dict stands for this finite map. */
  ghost predicate Represents<K(!new), V>(d: Dict<K, V>, hash: K -> Word, m: map<K, V>) {
    forall k :: Lookup(d, hash, k) == if k in m then Some(m[k]) else None
  }

  /** No state of the run has a table of 2^63 buckets. */
  ghost predicate BelowCap<K, V>(d: Dict<K, V>, hash: K -> Word, ops: seq<Op<K, V>>)
    decreases |ops|
  {
    |d.ht0.buckets| < Pow2(63) && (ops != [] ==> BelowCap(Apply(d, hash, ops[0]), hash, ops[1..]))
  }

  lemma ApplyKeepsValid<K(!new), V>(d: Dict<K, V>, hash: K -> Word, op: Op<K, V>)
    requires Valid(d, hash)
    ensures Valid(Apply(d, hash, op), hash)
  {
    hide Lookup, Add, Replace, Delete, Find, Expand, Resize, Rehash;
    match op
    case OpAdd(c, k, v) => AddCorrect(d, hash, c, k, v);
    case OpReplace(c, k, v) => ReplaceCorrect(d, hash, c, k, v);
    case OpFind(k) => FindCorrect(d, hash, k);
    case OpDelete(k) => DeleteCorrect(d, hash, k);
    case OpExpand(size) => ExpandKeeps(d, hash, size);
    case OpResize(c) => ResizeKeeps(d, hash, c);
    case OpRehash(n) => RehashKeeps(d, hash, n);
    case OpEmpty =>
  }

  lemma SetsRepresents<K(!new), V>(d: Dict<K, V>, d': Dict<K, V>, hash: K -> Word, k: K, v: Option<V>, m: map<K, V>)
    requires Represents(d, hash, m) && Sets(d, d', hash, k, v)
    ensures Represents(d', hash, if v.Some? then m[k := v.value] else m - {k})
  {
  }

  lemma AddRefines<K(!new), V>(d: Dict<K, V>, hash: K -> Word, canResize: bool, k: K, v: V, m: map<K, V>)
    requires Valid(d, hash) && Represents(d, hash, m)
    requires |Add(d, hash, canResize, k, v).0.ht0.buckets| < Pow2(63)
    ensures Represents(Add(d, hash, canResize, k, v).0, hash, if k in m then m else m[k := v])
  {
    hide Valid, Lookup, Locate, Add;
    AddCorrect(d, hash, canResize, k, v);
    var (d', r) := Add(d, hash, canResize, k, v);
    if r.Added? { SetsRepresents(d, d', hash, k, Some(v), m); }
  }

  lemma ReplaceRefines<K(!new), V>(d: Dict<K, V>, hash: K -> Word, canResize: bool, k: K, v: V, m: map<K, V>)
    requires Valid(d, hash) && Represents(d, hash, m)
    requires |Replace(d, hash, canResize, k, v).0.ht0.buckets| < Pow2(63)
    ensures Represents(Replace(d, hash, canResize, k, v).0, hash, m[k := v])
  {
    hide Valid, Lookup, Replace;
    ReplaceCorrect(d, hash, canResize, k, v);
    SetsRepresents(d, Replace(d, hash, canResize, k, v).0, hash, k, Some(v), m);
  }

  lemma DeleteRefines<K(!new), V>(d: Dict<K, V>, hash: K -> Word, k: K, m: map<K, V>)
    requires Valid(d, hash) && Represents(d, hash, m)
    ensures Represents(Delete(d, hash, k).0, hash, m - {k})
  {
    hide Valid, Lookup, Delete;
    DeleteCorrect(d, hash, k);
    SetsRepresents(d, Delete(d, hash, k).0, hash, k, None, m);
  }

  lemma ApplyRefines<K(!new), V>(d: Dict<K, V>, hash: K -> Word, op: Op<K, V>, m: map<K, V>)
    requires Valid(d, hash) && Represents(d, hash, m)
    requires |Apply(d, hash, op).ht0.buckets| < Pow2(63)
    ensures Represents(Apply(d, hash, op), hash, ApplyMap(m, op))
  {
    hide Valid, Lookup, Add, Replace, Delete, Find, Expand, Resize, Rehash;
    match op
    case OpAdd(c, k, v) => AddRefines(d, hash, c, k, v, m);
    case OpReplace(c, k, v) => ReplaceRefines(d, hash, c, k, v, m);
    case OpDelete(k) => DeleteRefines(d, hash, k, m);
    case OpEmpty => CreateRepresentsEmpty<K, V>(hash);
    case OpFind(k) => FindCorrect(d, hash, k);
    case OpExpand(size) => ExpandKeeps(d, hash, size);
    case OpResize(c) => ResizeKeeps(d, hash, c);
    case OpRehash(n) => RehashKeeps(d, hash, n);
  }

  /** Over every run, with any rehash in progress, the dict is well formed and stands for the
      plain map after the same operations. */
  lemma {:induction false} RunRefinesMap<K(!new), V>(d: Dict<K, V>, hash: K -> Word, ops: seq<Op<K, V>>, m: map<K, V>)
    requires Valid(d, hash) && Represents(d, hash, m) && BelowCap(d, hash, ops)
    ensures Valid(Run(d, hash, ops), hash)
    ensures Represents(Run(d, hash, ops), hash, RunMap(m, ops))
    decreases |ops|
  {
    if ops != [] {
      ApplyKeepsValid(d, hash, ops[0]);
      ApplyRefines(d, hash, ops[0], m);
      RunRefinesMap(Apply(d, hash, ops[0]), hash, ops[1..], ApplyMap(m, ops[0]));
    }
  }

  /** The fresh dict stands for the empty map. */
  lemma CreateRepresentsEmpty<K(!new), V>(hash: K -> Word)
    ensures Valid<K, V>(Create(), hash) && Represents<K, V>(Create(), hash, map[])
  {
    var d: Dict<K, V> := Create();
    forall q
      ensures Lookup(d, hash, q) == None
    {
      assert ChainAt(d.ht0, Index(d.ht0, hash(q))) == [];
    }
  }
}
