/** Safe iterators: while one is in use no rehash step moves entries, and every element that
    stays in the dict is returned exactly once, across both tables. */
module DictIterator {
  import opened Wrappers
  import opened Words
  import opened DictModel
  import opened DictMap

  /** dictIterator; `entry` is the entry returned last, `next` the saved successor. */
  datatype Iter<K> = Iter(table: nat, index: int, entry: Option<K>, next: Option<K>)

  function NewIter<K>(): Iter<K> { Iter(0, -1, None, None) }

  function TableNo<K, V>(d: Dict<K, V>, n: nat): Table<K, V> { if n == 0 then d.ht0 else d.ht1 }

  function HeadKey<K, V>(c: Chain<K, V>): Option<K> { if c == [] then None else Some(c[0].key) }

  /** Key chained after `k`. */
  function Successor<K(==), V>(c: Chain<K, V>, k: K): Option<K> {
    match FindIn(c, k)
    case None => None
    case Some(p) => if p + 1 < |c| then Some(c[p + 1].key) else None
  }

  /** Moves to the next bucket, or to the second table; false at the end. */
  function NextBucket<K, V>(d: Dict<K, V>, it: Iter<K>): (Iter<K>, bool) {
    var i := it.index + 1;
    if i < |TableNo(d, it.table).buckets| then
      (it.(index := i, entry := HeadKey(ChainAt(TableNo(d, it.table), i))), true)
    else if d.Rehashing() && it.table == 0 then
      (it.(table := 1, index := 0, entry := HeadKey(ChainAt(d.ht1, 0))), true)
    else (it.(index := i), false)
  }

  /** Loop of dictNext; the key of the entry returned. */
  function NextLoop<K(==), V>(d: Dict<K, V>, it: Iter<K>): (Iter<K>, Option<K>)
    decreases if it.table == 0 then 1 else 0, |TableNo(d, it.table).buckets| - it.index, if it.entry.Some? then 1 else 0
  {
    var (it', more) := if it.entry.Some? then (it.(entry := it.next), true) else NextBucket(d, it);
    if !more then (it', None)
    else if it'.entry.Some? then
      (it'.(next := Successor(ChainAt(TableNo(d, it'.table), it'.index), it'.entry.value)), it'.entry)
    else NextLoop(d, it')
  }

  lemma RegisterValid<K, V>(d: Dict<K, V>, hash: K -> Word)
    requires Valid(d, hash)
    ensures Valid(d.(iterators := d.iterators + 1), hash)
  {
  }

  /** dictNext of a safe iterator: the first call registers it. */
  function Next<K(==), V>(d: Dict<K, V>, it: Iter<K>): (Dict<K, V>, Iter<K>, Option<K>) {
    var d' := if it.entry.None? && it.index == -1 && it.table == 0 then d.(iterators := d.iterators + 1) else d;
    var (it', r) := NextLoop(d', it);
    (d', it', r)
  }

  /** dictReleaseIterator of a safe iterator. */
  function Release<K, V>(d: Dict<K, V>, it: Iter<K>): Dict<K, V> {
    if Unused(it) || d.iterators == 0 then d else d.(iterators := d.iterators - 1)
  }

  // ---- what is still to come ----

  /** The key lies after the point (table, index, rest of the chain from `from`). */
  predicate Ahead<K(==), V>(d: Dict<K, V>, l: Location, table: nat, index: int, from: Option<K>) {
    || (l.table == 1 && table == 0)
    || (l.table == table && l.bucket > index)
    || (l.table == table && l.bucket == index && from.Some? &&
        match FindIn(ChainAt(TableNo(d, table), index), from.value)
        case None => false
        case Some(p) => l.place >= p)
  }

  function RestFrom<K>(it: Iter<K>): Option<K> { if it.entry.Some? then it.next else None }

  /** The key has still to be returned. */
  predicate Pending<K(==), V>(d: Dict<K, V>, hash: K -> Word, it: Iter<K>, k: K) {
    match Locate(d, hash, k)
    case None => false
    case Some(l) => Ahead(d, l, it.table, it.index, RestFrom(it))
  }

  ghost predicate IterOk<K, V>(d: Dict<K, V>, it: Iter<K>) {
    && it.table <= 1 && it.index >= -1
    && (it.table == 1 ==> d.Rehashing() && it.index >= 0)
    && (it.entry.Some? ==> 0 <= it.index < |TableNo(d, it.table).buckets|)
    && (it.entry.Some? && it.next.Some? ==>
         && FindIn(ChainAt(TableNo(d, it.table), it.index), it.next.value).Some?
         && it.next != it.entry)
  }

  lemma LocatePlace<K, V>(d: Dict<K, V>, hash: K -> Word, k: K)
    requires Valid(d, hash) && Locate(d, hash, k).Some?
    ensures var l := Locate(d, hash, k).value;
      && l.table <= 1 && l.bucket < |TableNo(d, l.table).buckets|
      && FindIn(TableNo(d, l.table).buckets[l.bucket], k) == Some(l.place)
      && l.place < |TableNo(d, l.table).buckets[l.bucket]|
      && TableNo(d, l.table).buckets[l.bucket][l.place].key == k
      && (l.table == 1 ==> d.Rehashing())
  {
    LocateSound(d, hash, k);
  }

  lemma {:induction false} FindInPlace<K, V>(c: Chain<K, V>, p: nat)
    requires NoDup(c) && p < |c|
    ensures FindIn(c, c[p].key) == Some(p)
  {
    if p > 0 { FindInPlace(c[1..], p - 1); }
  }

  lemma NoDupOf<K, V>(d: Dict<K, V>, hash: K -> Word, table: nat, i: int)
    requires Valid(d, hash)
    ensures NoDup(ChainAt(TableNo(d, table), i))
  {
  }

  /** Entering a bucket: its whole chain is ahead. */
  lemma EnterBucket<K, V>(d: Dict<K, V>, hash: K -> Word, it: Iter<K>, k: K)
    requires Valid(d, hash) && IterOk(d, it) && it.entry.None? && Locate(d, hash, k).Some?
    ensures var (it', more) := NextBucket(d, it);
      var l := Locate(d, hash, k).value;
      && (more ==> (Ahead(d, l, it.table, it.index, None) <==> Ahead(d, l, it'.table, it'.index, it'.entry)))
      && (!more ==> !Ahead(d, l, it.table, it.index, None))
  {
    LocatePlace(d, hash, k);
    var it' := NextBucket(d, it).0;
    NoDupOf(d, hash, it'.table, it'.index);
    EnterBucketAt(d, it, Locate(d, hash, k).value);
  }

  lemma EnterBucketAt<K, V>(d: Dict<K, V>, it: Iter<K>, l: Location)
    requires it.table <= 1 && it.index >= -1 && (it.table == 1 ==> it.index >= 0)
    requires l.table <= 1 && l.bucket < |TableNo(d, l.table).buckets|
    requires l.place < |TableNo(d, l.table).buckets[l.bucket]|
    requires l.table == 1 ==> d.Rehashing()
    requires var it' := NextBucket(d, it).0; NoDup(ChainAt(TableNo(d, it'.table), it'.index))
    ensures var (it', more) := NextBucket(d, it);
      && (more ==> (Ahead(d, l, it.table, it.index, None) <==> Ahead(d, l, it'.table, it'.index, it'.entry)))
      && (!more ==> !Ahead(d, l, it.table, it.index, None))
  {
    var (it', more) := NextBucket(d, it);
    var c := ChainAt(TableNo(d, it'.table), it'.index);
    if more && c != [] { FindInPlace(c, 0); }
  }

  lemma NextBucketOk<K, V>(d: Dict<K, V>, hash: K -> Word, it: Iter<K>)
    requires Valid(d, hash) && IterOk(d, it) && it.entry.None?
    ensures var (it', more) := NextBucket(d, it);
      more ==>
        && it'.table <= 1 && 0 <= it'.index < |TableNo(d, it'.table).buckets| && (it'.table == 1 ==> d.Rehashing())
        && it'.entry == HeadKey(ChainAt(TableNo(d, it'.table), it'.index))
  {
    NewTableThere(d, hash);
    hide Valid;
  }

  /** During a rehash the new table has buckets. */
  lemma NewTableThere<K, V>(d: Dict<K, V>, hash: K -> Word)
    requires Valid(d, hash)
    ensures d.Rehashing() ==> |d.ht1.buckets| > 0
  {
  }

  /** Returning an entry removes exactly its key from what is ahead. */
  lemma DeliverOne<K, V>(d: Dict<K, V>, hash: K -> Word, table: nat, index: int, n: K, k: K)
    requires Valid(d, hash) && table <= 1 && 0 <= index < |TableNo(d, table).buckets|
    requires FindIn(ChainAt(TableNo(d, table), index), n).Some? && Locate(d, hash, k).Some?
    requires table == 1 ==> d.Rehashing()
    ensures var l := Locate(d, hash, k).value;
      var s := Successor(ChainAt(TableNo(d, table), index), n);
      && (Ahead(d, l, table, index, Some(n)) <==> k == n || Ahead(d, l, table, index, s))
      && !(k == n && Ahead(d, l, table, index, s))
      && (s.Some? ==> FindIn(ChainAt(TableNo(d, table), index), s.value).Some? && s != Some(n))
  {
    hide Valid, Locate;
    LocatePlace(d, hash, k);
    var c := ChainAt(TableNo(d, table), index);
    NoDupOf(d, hash, table, index);
    FindInSound(c, n);
    var p := FindIn(c, n).value;
    if p + 1 < |c| { FindInPlace(c, p + 1); }
    if k == n { LocateWhere(d, hash, table, index, p); }
  }

  /** Where a stored key is located. */
  lemma LocateWhere<K, V>(d: Dict<K, V>, hash: K -> Word, table: nat, b: nat, p: nat)
    requires Valid(d, hash) && table <= 1 && (table == 1 ==> d.Rehashing())
    requires b < |TableNo(d, table).buckets| && p < |TableNo(d, table).buckets[b]|
    ensures Locate(d, hash, TableNo(d, table).buckets[b][p].key) == Some(Location(table, b, p))
  {
    var t := TableNo(d, table);
    var k := t.buckets[b][p].key;
    FindInPlace(t.buckets[b], p);
    GetPlaced(t, hash, b, p);
    assert Index(t, hash(k)) == b;
    if table == 1 {
      ValInMember(ChainAt(d.ht0, Index(d.ht0, hash(k))), k);
      if Get(d.ht0, hash, k).Some? { GetInApart(d.ht0, d.ht1, hash, k); }
    }
  }

  /** One dictNext: what is ahead loses exactly the key returned; at the end nothing is ahead. */
  lemma {:induction false} NextLoopDelivers<K, V>(d: Dict<K, V>, hash: K -> Word, it: Iter<K>, k: K)
    requires Valid(d, hash) && IterOk(d, it) && Locate(d, hash, k).Some?
    ensures var (it', r) := NextLoop(d, it);
      && (Pending(d, hash, it, k) <==> r == Some(k) || (r.Some? && Pending(d, hash, it', k)))
      && !(r == Some(k) && Pending(d, hash, it', k))
    decreases if it.table == 0 then 1 else 0, |TableNo(d, it.table).buckets| - it.index, if it.entry.Some? then 1 else 0
  {
    if it.entry.Some? {
      if it.next.Some? {
        DeliverOne(d, hash, it.table, it.index, it.next.value, k);
      } else {
        NextLoopDelivers(d, hash, it.(entry := None), k);
      }
    } else {
      EnterBucket(d, hash, it, k);
      NextBucketOk(d, hash, it);
      var (it1, more) := NextBucket(d, it);
      if more && it1.entry.Some? {
        NoDupOf(d, hash, it1.table, it1.index);
        FindInPlace(ChainAt(TableNo(d, it1.table), it1.index), 0);
        DeliverOne(d, hash, it1.table, it1.index, it1.entry.value, k);
      } else if more {
        NextLoopDelivers(d, hash, it1, k);
      }
    }
  }

  /** The iterator stays consistent, and what it returns is in the dict. */
  lemma {:induction false} NextLoopOk<K, V>(d: Dict<K, V>, hash: K -> Word, it: Iter<K>)
    requires Valid(d, hash) && IterOk(d, it)
    ensures var (it', r) := NextLoop(d, it);
      r.Some? ==> IterOk(d, it') && it'.entry == r && it'.index >= 0 && Lookup(d, hash, r.value).Some?
    decreases if it.table == 0 then 1 else 0, |TableNo(d, it.table).buckets| - it.index, if it.entry.Some? then 1 else 0
  {
    if it.entry.Some? && it.next.Some? {
      DeliveredOk(d, hash, it.table, it.index, it.next.value);
    } else if it.entry.Some? {
      NextLoopOk(d, hash, it.(entry := None));
    } else {
      NextBucketOk(d, hash, it);
      var (it1, more) := NextBucket(d, it);
      if more && it1.entry.Some? {
        NoDupOf(d, hash, it1.table, it1.index);
        FindInPlace(ChainAt(TableNo(d, it1.table), it1.index), 0);
        DeliveredOk(d, hash, it1.table, it1.index, it1.entry.value);
      } else if more {
        NextLoopOk(d, hash, it1);
      }
    }
  }

  lemma DeliveredOk<K, V>(d: Dict<K, V>, hash: K -> Word, table: nat, index: int, n: K)
    requires Valid(d, hash) && table <= 1 && 0 <= index < |TableNo(d, table).buckets|
    requires FindIn(ChainAt(TableNo(d, table), index), n).Some? && (table == 1 ==> d.Rehashing())
    ensures Lookup(d, hash, n).Some? && Locate(d, hash, n).Some?
    ensures var s := Successor(ChainAt(TableNo(d, table), index), n);
      s.Some? ==> FindIn(ChainAt(TableNo(d, table), index), s.value).Some? && s != Some(n)
  {
    var c := ChainAt(TableNo(d, table), index);
    FindInSound(c, n);
    var p := FindIn(c, n).value;
    LocateWhere(d, hash, table, index, p);
    LocateComplete(d, hash, n);
    NoDupOf(d, hash, table, index);
    if p + 1 < |c| { FindInPlace(c, p + 1); }
  }

  // ---- operations during an iteration ----

  /** Apart from key `x`, the chain holds the same keys in the same order. */
  ghost predicate SameOrder<K(!new), V>(c: Chain<K, V>, c': Chain<K, V>, x: Option<K>) {
    && (forall a :: Some(a) != x ==> (FindIn(c, a).Some? <==> FindIn(c', a).Some?))
    && (forall a, b :: Some(a) != x && Some(b) != x && FindIn(c, a).Some? && FindIn(c, b).Some? ==>
         (FindIn(c, a).value >= FindIn(c, b).value <==> FindIn(c', a).value >= FindIn(c', b).value))
  }

  lemma SameOrderPush<K(!new), V>(c: Chain<K, V>, e: Entry<K, V>)
    ensures SameOrder(c, [e] + c, Some(e.key))
  {
    assert ([e] + c)[1..] == c;
  }

  lemma {:induction false} FindInRemove<K, V>(c: Chain<K, V>, i: nat, q: K)
    requires i < |c| && q != c[i].key
    ensures FindIn(RemoveAt(c, i), q) ==
      match FindIn(c, q) case None => None case Some(p) => Some(if p > i then p - 1 else p)
  {
    var r := RemoveAt(c, i);
    if i == 0 {
      assert r == c[1..];
    } else {
      assert r[1..] == RemoveAt(c[1..], i - 1);
      FindInRemove(c[1..], i - 1, q);
    }
  }

  lemma SameOrderRemove<K(!new), V>(c: Chain<K, V>, i: nat)
    requires i < |c|
    ensures SameOrder(c, RemoveAt(c, i), Some(c[i].key))
  {
    var r := RemoveAt(c, i);
    forall a | a != c[i].key
      ensures FindIn(r, a) == match FindIn(c, a) case None => None case Some(p) => Some(if p > i then p - 1 else p)
      ensures FindIn(c, a) != Some(i)
    {
      FindInRemove(c, i, a);
      FindInSound(c, a);
    }
  }

  lemma {:induction false} FindInSameKeys<K, V>(c: Chain<K, V>, c': Chain<K, V>, q: K)
    requires |c| == |c'| && forall i :: 0 <= i < |c| ==> c[i].key == c'[i].key
    ensures FindIn(c', q) == FindIn(c, q)
  {
    if c != [] { FindInSameKeys(c[1..], c'[1..], q); }
  }

  /** A change of the dict that moves no key other than `x`. */
  ghost predicate Undisturbed<K(!new), V>(d: Dict<K, V>, d': Dict<K, V>, x: Option<K>) {
    && d'.ht0.mask == d.ht0.mask && |d'.ht0.buckets| == |d.ht0.buckets|
    && (d.Rehashing() ==> d'.Rehashing() && d'.ht1.mask == d.ht1.mask && |d'.ht1.buckets| == |d.ht1.buckets|)
    && (forall i :: SameOrder(ChainAt(d.ht0, i), ChainAt(d'.ht0, i), x))
    && (d.Rehashing() ==> forall i :: SameOrder(ChainAt(d.ht1, i), ChainAt(d'.ht1, i), x))
  }

  lemma SameOrderAt<K(!new), V>(c: Chain<K, V>, c': Chain<K, V>, x: Option<K>, a: K, b: K)
    requires SameOrder(c, c', x) && Some(a) != x && Some(b) != x
    ensures FindIn(c, a).Some? <==> FindIn(c', a).Some?
    ensures FindIn(c, a).Some? && FindIn(c, b).Some? ==>
      && FindIn(c', a).Some? && FindIn(c', b).Some?
      && (FindIn(c, a).value >= FindIn(c, b).value <==> FindIn(c', a).value >= FindIn(c', b).value)
  {
  }

  lemma LocateChain<K, V>(d: Dict<K, V>, hash: K -> Word, k: K)
    requires Locate(d, hash, k).Some?
    ensures var l := Locate(d, hash, k).value;
      && l.table <= 1 && (l.table == 1 ==> d.Rehashing())
      && FindIn(ChainAt(TableNo(d, l.table), l.bucket), k) == Some(l.place)
  {
  }

  lemma UndisturbedLocate<K(!new), V>(d: Dict<K, V>, d': Dict<K, V>, hash: K -> Word, x: Option<K>, k: K)
    requires Undisturbed(d, d', x) && Some(k) != x && Locate(d, hash, k).Some?
    ensures Locate(d', hash, k).Some?
    ensures var l, l' := Locate(d, hash, k).value, Locate(d', hash, k).value;
      && l'.table == l.table && l'.bucket == l.bucket
  {
    var i0 := Index(d.ht0, hash(k));
    assert Index(d'.ht0, hash(k)) == i0;
    SameOrderAt(ChainAt(d.ht0, i0), ChainAt(d'.ht0, i0), x, k, k);
    if FindIn(ChainAt(d.ht0, i0), k).None? {
      var i1 := Index(d.ht1, hash(k));
      assert Index(d'.ht1, hash(k)) == i1;
      SameOrderAt(ChainAt(d.ht1, i1), ChainAt(d'.ht1, i1), x, k, k);
    }
  }

  /** Keys other than `x` stay ahead, or behind. */
  lemma UndisturbedPending<K(!new), V>(d: Dict<K, V>, d': Dict<K, V>, hash: K -> Word, x: Option<K>, it: Iter<K>, k: K)
    requires Undisturbed(d, d', x) && Some(k) != x && Locate(d, hash, k).Some?
    requires IterOk(d, it) && it.entry.Some? && (it.next.Some? ==> it.next != x)
    ensures Pending(d', hash, it, k) <==> Pending(d, hash, it, k)
  {
    hide Locate, FindIn, SameOrder;
    UndisturbedLocate(d, d', hash, x, k);
    LocateChain(d, hash, k);
    LocateChain(d', hash, k);
    var l := Locate(d, hash, k).value;
    if l.table == it.table && l.bucket == it.index && it.next.Some? {
      SameOrderAt(ChainAt(TableNo(d, it.table), it.index), ChainAt(TableNo(d', it.table), it.index), x, k,
        it.next.value);
    }
  }

  lemma UndisturbedIter<K(!new), V>(d: Dict<K, V>, d': Dict<K, V>, x: Option<K>, it: Iter<K>)
    requires Undisturbed(d, d', x) && IterOk(d, it) && it.entry.Some? && (it.next.Some? ==> it.next != x)
    ensures IterOk(d', it)
  {
    if it.next.Some? {
      var n := it.next.value;
      SameOrderAt(ChainAt(TableNo(d, it.table), it.index), ChainAt(TableNo(d', it.table), it.index), x, n, n);
    }
  }

  lemma ExpandUndisturbed<K(!new), V>(d: Dict<K, V>, hash: K -> Word, size: nat, x: Option<K>)
    requires Valid(d, hash) && d.ht0.buckets != []
    ensures Undisturbed(d, Expand(d, size).0, x)
  {
  }

  lemma PushUndisturbed<K(!new), V>(d: Dict<K, V>, hash: K -> Word, e: Entry<K, V>)
    requires Valid(d, hash) && Sized(d.ht0)
    ensures d.Rehashing() ==> Undisturbed(d, d.(ht1 := Push(d.ht1, hash, e)), Some(e.key))
    ensures !d.Rehashing() ==> Undisturbed(d, d.(ht0 := Push(d.ht0, hash, e)), Some(e.key))
  {
    PushSameOrder(if d.Rehashing() then d.ht1 else d.ht0, hash, e);
  }

  lemma PushSameOrder<K(!new), V>(t: Table<K, V>, hash: K -> Word, e: Entry<K, V>)
    requires Sized(t)
    ensures forall i :: SameOrder(ChainAt(t, i), ChainAt(Push(t, hash, e), i), Some(e.key))
  {
    var b := Index(t, hash(e.key));
    IndexInRange(t, hash(e.key));
    SameOrderPush(t.buckets[b], e);
    forall i
      ensures SameOrder(ChainAt(t, i), ChainAt(Push(t, hash, e), i), Some(e.key))
    {
      if i != b { assert ChainAt(Push(t, hash, e), i) == ChainAt(t, i); }
    }
  }

  lemma RemoveUndisturbed<K(!new), V>(d: Dict<K, V>, l: Location)
    requires l.table <= 1 && (l.table == 1 ==> d.Rehashing())
    requires l.bucket < |TableOf(d, l).buckets| && l.place < |TableOf(d, l).buckets[l.bucket]|
    ensures Undisturbed(d, RemoveEntry(d, l), Some(EntryAt(d, l).key))
  {
    SameOrderRemove(TableOf(d, l).buckets[l.bucket], l.place);
  }

  lemma SetAtUndisturbed<K(!new), V>(d: Dict<K, V>, l: Location, v: V, x: Option<K>)
    requires l.table <= 1 && (l.table == 1 ==> d.Rehashing())
    requires l.bucket < |TableOf(d, l).buckets| && l.place < |TableOf(d, l).buckets[l.bucket]|
    ensures Undisturbed(d, SetAt(d, l, Entry(EntryAt(d, l).key, v)), x)
  {
    var c := TableOf(d, l).buckets[l.bucket];
    var c' := c[l.place := Entry(c[l.place].key, v)];
    forall a ensures FindIn(c', a) == FindIn(c, a) { FindInSameKeys(c, c', a); }
  }

  datatype IterOp<K, V> =
    | IFind(k: K)
    | IAdd(canResize: bool, k: K, v: V)
    | IReplace(canResize: bool, k: K, v: V)
    | IDeleteReturned
    | IExpand(size: nat)
    | IResize(canResize: bool)
    | INext

  /** An operation other than dictNext; only the entry returned last may be deleted. */
  function Disturb<K(==), V>(d: Dict<K, V>, hash: K -> Word, it: Iter<K>, op: IterOp<K, V>): Dict<K, V> {
    match op
    case IFind(k) => Find(d, hash, k).0
    case IAdd(c, k, v) => Add(d, hash, c, k, v).0
    case IReplace(c, k, v) => Replace(d, hash, c, k, v).0
    case IDeleteReturned => if it.entry.Some? then Delete(d, hash, it.entry.value).0 else d
    case IExpand(size) => Expand(d, size).0
    case IResize(c) => Resize(d, c).0
    case INext => d
  }

  lemma DisturbKeepsValid<K(!new), V>(d: Dict<K, V>, hash: K -> Word, it: Iter<K>, op: IterOp<K, V>)
    requires Valid(d, hash)
    ensures Valid(Disturb(d, hash, it, op), hash)
  {
    match op
    case IFind(k) => FindCorrect(d, hash, k);
    case IAdd(c, k, v) => AddCorrect(d, hash, c, k, v);
    case IReplace(c, k, v) => ReplaceCorrect(d, hash, c, k, v);
    case IDeleteReturned => if it.entry.Some? { DeleteCorrect(d, hash, it.entry.value); }
    case IExpand(size) => ExpandKeeps(d, hash, size);
    case IResize(c) => ResizeKeeps(d, hash, c);
    case INext =>
  }

  /** The iterator has returned an entry and is registered. */
  ghost predicate InUse<K, V>(d: Dict<K, V>, it: Iter<K>) {
    IterOk(d, it) && it.entry.Some? && d.iterators > 0
  }

  lemma NextIsStored<K, V>(d: Dict<K, V>, hash: K -> Word, it: Iter<K>)
    requires Valid(d, hash) && IterOk(d, it) && it.entry.Some? && it.next.Some?
    ensures Lookup(d, hash, it.next.value).Some?
  {
    DeliveredOk(d, hash, it.table, it.index, it.next.value);
  }

  /** The key's place relative to the iterator is the same in both dicts. */
  ghost predicate SamePlace<K, V>(d: Dict<K, V>, d': Dict<K, V>, hash: K -> Word, it: Iter<K>, k: K) {
    InUse(d', it) && (Pending(d', hash, it, k) <==> Pending(d, hash, it, k))
  }

  lemma ExpandSamePlace<K(!new), V>(d: Dict<K, V>, hash: K -> Word, size: nat, it: Iter<K>, k: K)
    requires Valid(d, hash) && InUse(d, it) && Locate(d, hash, k).Some?
    ensures SamePlace(d, Expand(d, size).0, hash, it, k)
  {
    ExpandKeeps(d, hash, size);
    if it.table == 0 { assert d.ht0.buckets != []; }
    ExpandUndisturbed(d, hash, size, None);
    UndisturbedPending(d, Expand(d, size).0, hash, None, it, k);
    UndisturbedIter(d, Expand(d, size).0, None, it);
  }

  lemma ExpandIfNeededSamePlace<K(!new), V>(d: Dict<K, V>, hash: K -> Word, canResize: bool, it: Iter<K>, k: K)
    requires Valid(d, hash) && InUse(d, it) && Locate(d, hash, k).Some?
    ensures SamePlace(d, ExpandIfNeeded(d, canResize).0, hash, it, k)
  {
    ExpandSamePlace(d, hash, INITIAL_SIZE, it, k);
    ExpandSamePlace(d, hash, d.ht0.used * 2, it, k);
  }

  lemma AddSamePlace<K(!new), V>(d: Dict<K, V>, hash: K -> Word, canResize: bool, a: K, v: V, it: Iter<K>, k: K)
    requires Valid(d, hash) && InUse(d, it) && Locate(d, hash, k).Some?
    ensures SamePlace(d, Add(d, hash, canResize, a, v).0, hash, it, k)
  {
    hide Valid, ExpandIfNeeded, Locate, Push, Pending, Undisturbed;
    RehashStepKeeps(d, hash);
    ExpandIfNeededKeeps(d, hash, canResize);
    ExpandIfNeededSamePlace(d, hash, canResize, it, k);
    var (d2, ok) := ExpandIfNeeded(d, canResize);
    LocateComplete(d2, hash, a);
    if ok && Locate(d2, hash, a).None? {
      LocateComplete(d, hash, k);
      LocateComplete(d2, hash, k);
      if it.next.Some? { NextIsStored(d2, hash, it); }
      var e := Entry(a, v);
      PushUndisturbed(d2, hash, e);
      InsertKeeps(d2, hash, e);
      var d' := Add(d, hash, canResize, a, v).0;
      UndisturbedPending(d2, d', hash, Some(a), it, k);
      UndisturbedIter(d2, d', Some(a), it);
    }
  }

  lemma AddKeepsLocated<K(!new), V>(d: Dict<K, V>, hash: K -> Word, canResize: bool, a: K, v: V, k: K)
    requires Valid(d, hash) && Locate(d, hash, k).Some?
    ensures Locate(Add(d, hash, canResize, a, v).0, hash, k).Some?
  {
    AddCorrect(d, hash, canResize, a, v);
    LocateComplete(d, hash, k);
    LocateComplete(Add(d, hash, canResize, a, v).0, hash, k);
  }

  lemma ReplaceSamePlace<K(!new), V>(d: Dict<K, V>, hash: K -> Word, canResize: bool, a: K, v: V, it: Iter<K>, k: K)
    requires Valid(d, hash) && InUse(d, it) && Locate(d, hash, k).Some?
    ensures SamePlace(d, Replace(d, hash, canResize, a, v).0, hash, it, k)
  {
    AddSamePlace(d, hash, canResize, a, v, it, k);
    var (d1, r) := Add(d, hash, canResize, a, v);
    if r.Exists? {
      AddKeepsLocated(d, hash, canResize, a, v, k);
      LocateSound(d1, hash, a);
      SetAtSamePlace(d1, hash, r.at, v, it, k);
    }
  }

  lemma SetAtSamePlace<K(!new), V>(d: Dict<K, V>, hash: K -> Word, l: Location, v: V, it: Iter<K>, k: K)
    requires InUse(d, it) && Locate(d, hash, k).Some? && l.table <= 1 && (l.table == 1 ==> d.Rehashing())
    requires l.bucket < |TableOf(d, l).buckets| && l.place < |TableOf(d, l).buckets[l.bucket]|
    ensures SamePlace(d, SetAt(d, l, Entry(EntryAt(d, l).key, v)), hash, it, k)
  {
    var d' := SetAt(d, l, Entry(EntryAt(d, l).key, v));
    SetAtUndisturbed(d, l, v, None);
    UndisturbedPending(d, d', hash, None, it, k);
    UndisturbedIter(d, d', None, it);
  }

  lemma DeleteSamePlace<K(!new), V>(d: Dict<K, V>, hash: K -> Word, it: Iter<K>, k: K)
    requires Valid(d, hash) && InUse(d, it) && Locate(d, hash, k).Some?
    requires Lookup(Delete(d, hash, it.entry.value).0, hash, k).Some?
    ensures SamePlace(d, Delete(d, hash, it.entry.value).0, hash, it, k)
  {
    var a := it.entry.value;
    var d' := Delete(d, hash, a).0;
    DeleteCorrect(d, hash, a);
    RehashStepKeeps(d, hash);
    if !(d.ht0.used == 0 && d.ht1.used == 0) && Locate(d, hash, a).Some? {
      LocateSound(d, hash, a);
      RemoveUndisturbed(d, Locate(d, hash, a).value);
      UndisturbedPending(d, d', hash, Some(a), it, k);
      UndisturbedIter(d, d', Some(a), it);
    }
  }

  /** No allowed operation moves a key that stays from ahead of the iterator to behind it, or back. */
  lemma DisturbSamePlace<K(!new), V>(d: Dict<K, V>, hash: K -> Word, it: Iter<K>, op: IterOp<K, V>, k: K)
    requires Valid(d, hash) && InUse(d, it)
    requires Lookup(d, hash, k).Some? && Lookup(Disturb(d, hash, it, op), hash, k).Some?
    ensures SamePlace(d, Disturb(d, hash, it, op), hash, it, k)
  {
    if op.IAdd? || op.IReplace? || op.IDeleteReturned? {
      UpdateSamePlace(d, hash, it, op, k);
    } else {
      QuerySamePlace(d, hash, it, op, k);
    }
  }

  lemma UpdateSamePlace<K(!new), V>(d: Dict<K, V>, hash: K -> Word, it: Iter<K>, op: IterOp<K, V>, k: K)
    requires Valid(d, hash) && InUse(d, it) && (op.IAdd? || op.IReplace? || op.IDeleteReturned?)
    requires Lookup(d, hash, k).Some? && Lookup(Disturb(d, hash, it, op), hash, k).Some?
    ensures SamePlace(d, Disturb(d, hash, it, op), hash, it, k)
  {
    assert Locate(d, hash, k).Some? by { LocateComplete(d, hash, k); }
    var d' := Disturb(d, hash, it, op);
    if op.IAdd? {
      assert d' == Add(d, hash, op.canResize, op.k, op.v).0;
      AddSamePlace(d, hash, op.canResize, op.k, op.v, it, k);
    } else if op.IReplace? {
      assert d' == Replace(d, hash, op.canResize, op.k, op.v).0;
      ReplaceSamePlace(d, hash, op.canResize, op.k, op.v, it, k);
    } else {
      assert d' == Delete(d, hash, it.entry.value).0;
      DeleteSamePlace(d, hash, it, k);
    }
  }

  lemma QuerySamePlace<K(!new), V>(d: Dict<K, V>, hash: K -> Word, it: Iter<K>, op: IterOp<K, V>, k: K)
    requires Valid(d, hash) && InUse(d, it) && !op.IAdd? && !op.IReplace? && !op.IDeleteReturned?
    requires Lookup(d, hash, k).Some?
    ensures SamePlace(d, Disturb(d, hash, it, op), hash, it, k)
  {
    assert Locate(d, hash, k).Some? by { LocateComplete(d, hash, k); }
    var d' := Disturb(d, hash, it, op);
    if op.IFind? {
      FindUnmoved(d, hash, op.k);
    } else if op.IExpand? {
      assert d' == Expand(d, op.size).0;
      ExpandSamePlace(d, hash, op.size, it, k);
    } else if op.IResize? {
      assert d' == Resize(d, op.canResize).0;
      ResizeSamePlace(d, hash, op.canResize, it, k);
    }
  }

  lemma FindUnmoved<K, V>(d: Dict<K, V>, hash: K -> Word, q: K)
    requires d.iterators > 0
    ensures Find(d, hash, q).0 == d
  {
  }

  lemma ResizeSamePlace<K(!new), V>(d: Dict<K, V>, hash: K -> Word, canResize: bool, it: Iter<K>, k: K)
    requires Valid(d, hash) && InUse(d, it) && Locate(d, hash, k).Some?
    ensures SamePlace(d, Resize(d, canResize).0, hash, it, k)
  {
    var minimal := ToInt32(d.ht0.used);
    ExpandSamePlace(d, hash, if minimal < INITIAL_SIZE then INITIAL_SIZE else minimal, it, k);
  }

  // ---- whole iterations ----

  /** Keys returned by an iteration, up to the call that returns NULL. */
  function IterRun<K(==), V>(d: Dict<K, V>, hash: K -> Word, it: Iter<K>, ops: seq<IterOp<K, V>>): seq<K>
    decreases |ops|
  {
    if ops == [] then []
    else if ops[0].INext? then
      var (d', it', r) := Next(d, it);
      if r.None? then [] else [r.value] + IterRun(d', hash, it', ops[1..])
    else IterRun(Disturb(d, hash, it, ops[0]), hash, it, ops[1..])
  }

  /** Some dictNext of the run returns NULL. */
  predicate Ends<K(==), V>(d: Dict<K, V>, hash: K -> Word, it: Iter<K>, ops: seq<IterOp<K, V>>)
    decreases |ops|
  {
    ops != [] &&
    if ops[0].INext? then
      var (d', it', r) := Next(d, it);
      r.None? || Ends(d', hash, it', ops[1..])
    else Ends(Disturb(d, hash, it, ops[0]), hash, it, ops[1..])
  }

  /** The key is in the dict in every state up to the end of the iteration. */
  predicate Stays<K(==), V>(d: Dict<K, V>, hash: K -> Word, it: Iter<K>, ops: seq<IterOp<K, V>>, k: K)
    decreases |ops|
  {
    && Lookup(d, hash, k).Some?
    && (ops != [] ==>
         if ops[0].INext? then
           var (d', it', r) := Next(d, it);
           r.None? || Stays(d', hash, it', ops[1..], k)
         else Stays(Disturb(d, hash, it, ops[0]), hash, it, ops[1..], k))
  }

  lemma StaysNow<K, V>(d: Dict<K, V>, hash: K -> Word, it: Iter<K>, ops: seq<IterOp<K, V>>, k: K)
    requires Stays(d, hash, it, ops, k)
    ensures Lookup(d, hash, k).Some?
  {
  }

  lemma RegisterKeeps<K, V>(d: Dict<K, V>, hash: K -> Word, it: Iter<K>, k: K)
    requires Valid(d, hash)
    ensures var d' := d.(iterators := d.iterators + 1);
      && Valid(d', hash) && Locate(d', hash, k) == Locate(d, hash, k) && Lookup(d', hash, k) == Lookup(d, hash, k)
      && (Pending(d', hash, it, k) <==> Pending(d, hash, it, k))
  {
    var d' := d.(iterators := d.iterators + 1);
    assert Locate(d', hash, k) == Locate(d, hash, k);
  }

  /** One dictNext, from a fresh or used iterator. */
  lemma NextDelivers<K, V>(d: Dict<K, V>, hash: K -> Word, it: Iter<K>, k: K)
    requires Valid(d, hash) && (it == NewIter() || InUse(d, it)) && Lookup(d, hash, k).Some?
    ensures var (d', it', r) := Next(d, it);
      && Valid(d', hash) && Lookup(d', hash, k).Some?
      && (Pending(d, hash, it, k) <==> r == Some(k) || (r.Some? && Pending(d', hash, it', k)))
      && !(r == Some(k) && Pending(d', hash, it', k))
      && (r.Some? ==> InUse(d', it'))
  {
    hide Valid, NextLoop, Locate, Ahead;
    RegisterKeeps(d, hash, it, k);
    var d' := Next(d, it).0;
    LocateComplete(d', hash, k);
    NextLoopDelivers(d', hash, it, k);
    NextLoopOk(d', hash, it);
  }

  lemma FreshPending<K, V>(d: Dict<K, V>, hash: K -> Word, k: K)
    requires Valid(d, hash) && Lookup(d, hash, k).Some?
    ensures Pending(d, hash, NewIter(), k)
  {
    LocateComplete(d, hash, k);
    LocatePlace(d, hash, k);
  }

  lemma {:induction false} IterRunCounts<K(!new), V>(
      d: Dict<K, V>, hash: K -> Word, it: Iter<K>, ops: seq<IterOp<K, V>>, k: K)
    requires Valid(d, hash) && (it == NewIter() || InUse(d, it))
    requires Ends(d, hash, it, ops) && Stays(d, hash, it, ops, k)
    ensures multiset(IterRun(d, hash, it, ops))[k] == if Pending(d, hash, it, k) then 1 else 0
    decreases |ops|
  {
    if ops[0].INext? {
      var (d', it', r) := Next(d, it);
      NextDelivers(d, hash, it, k);
      if r.Some? { IterRunCounts(d', hash, it', ops[1..], k); }
    } else {
      var d' := Disturb(d, hash, it, ops[0]);
      DisturbKeepsValid(d, hash, it, ops[0]);
      StaysNow(d', hash, it, ops[1..], k);
      if it == NewIter() {
        FreshPending(d, hash, k);
        FreshPending(d', hash, k);
      } else {
        DisturbSamePlace(d, hash, it, ops[0], k);
      }
      IterRunCounts(d', hash, it, ops[1..], k);
    }
  }

  /** A complete safe iteration, with finds, additions that may start a rehash, replacements and
      deletions of the entry returned last, returns each key that stays in the dict exactly once. */
  lemma SafeIteration<K(!new), V>(d: Dict<K, V>, hash: K -> Word, ops: seq<IterOp<K, V>>, k: K)
    requires Valid(d, hash) && Ends(d, hash, NewIter(), ops) && Stays(d, hash, NewIter(), ops, k)
    ensures multiset(IterRun(d, hash, NewIter(), ops))[k] == 1
  {
    FreshPending(d, hash, k);
    IterRunCounts(d, hash, NewIter(), ops, k);
  }

  // ---- release ----

  /** Dict and iterator after the operations, whether or not the iteration has ended. */
  function IterState<K(==), V>(
      d: Dict<K, V>, hash: K -> Word, it: Iter<K>, ops: seq<IterOp<K, V>>): (Dict<K, V>, Iter<K>)
    decreases |ops|
  {
    if ops == [] then (d, it)
    else if ops[0].INext? then
      var (d', it', r) := Next(d, it);
      IterState(d', hash, it', ops[1..])
    else IterState(Disturb(d, hash, it, ops[0]), hash, it, ops[1..])
  }

  /** dictNext has not been called on the iterator. */
  predicate Unused<K>(it: Iter<K>) {
    it.index == -1 && it.table == 0
  }

  /** Only an iterator that has been used stands at an entry. */
  predicate Sane<K>(it: Iter<K>) {
    it.index >= -1 && (Unused(it) ==> it.entry.None?)
  }

  lemma {:induction false} RehashLoopIterators<K, V>(d: Dict<K, V>, hash: K -> Word, n: nat, visits: int)
    ensures RehashLoop(d, hash, n, visits).0.iterators == d.iterators
    decreases |d.ht0.buckets| - d.rehashidx
  {
    if n == 0 || d.ht0.used == 0 || !(0 <= d.rehashidx < |d.ht0.buckets|) {
    } else if d.ht0.buckets[d.rehashidx] == [] {
      if visits != 1 { RehashLoopIterators(d.(rehashidx := d.rehashidx + 1), hash, n, visits - 1); }
    } else {
      RehashLoopIterators(MoveBucket(d, hash), hash, n - 1, visits);
    }
  }

  lemma StepIterators<K, V>(d: Dict<K, V>, hash: K -> Word)
    ensures RehashStep(d, hash).iterators == d.iterators
  {
    hide RehashLoop;
    RehashLoopIterators(d, hash, 1, 10);
  }

  lemma AddIterators<K, V>(d: Dict<K, V>, hash: K -> Word, canResize: bool, k: K, v: V)
    ensures Add(d, hash, canResize, k, v).0.iterators == d.iterators
  {
    hide RehashStep, Locate, Push;
    StepIterators(d, hash);
  }

  /** No operation on the dict touches the count of safe iterators. */
  lemma DisturbIterators<K, V>(d: Dict<K, V>, hash: K -> Word, it: Iter<K>, op: IterOp<K, V>)
    ensures Disturb(d, hash, it, op).iterators == d.iterators
  {
    hide RehashStep, Locate, Add;
    StepIterators(d, hash);
    if op.IAdd? || op.IReplace? { AddIterators(d, hash, op.canResize, op.k, op.v); }
  }

  lemma {:induction false} NextLoopUses<K, V>(d: Dict<K, V>, it: Iter<K>)
    requires Sane(it)
    ensures var it' := NextLoop(d, it).0; Sane(it') && !Unused(it')
    decreases if it.table == 0 then 1 else 0, |TableNo(d, it.table).buckets| - it.index, if it.entry.Some? then 1 else 0
  {
    hide Successor;
    var (it', more) := if it.entry.Some? then (it.(entry := it.next), true) else NextBucket(d, it);
    if more && it'.entry.None? { NextLoopUses(d, it'); }
  }

  lemma {:induction false} IterStateCounts<K, V>(d: Dict<K, V>, hash: K -> Word, it: Iter<K>, ops: seq<IterOp<K, V>>)
    requires Sane(it)
    ensures var (d', it') := IterState(d, hash, it, ops);
      && Sane(it')
      && d'.iterators == d.iterators + (if Unused(it) && !Unused(it') then 1 else 0)
      && (!Unused(it) ==> !Unused(it'))
    decreases |ops|
  {
    hide NextLoop, Disturb;
    if ops != [] {
      if ops[0].INext? {
        var (d', it', r) := Next(d, it);
        NextLoopUses(d', it);
        IterStateCounts(d', hash, it', ops[1..]);
      } else {
        DisturbIterators(d, hash, it, ops[0]);
        IterStateCounts(Disturb(d, hash, it, ops[0]), hash, it, ops[1..]);
      }
    }
  }

  /** Releasing the iterator, used or not and wherever the iteration stopped, restores the count of
      safe iterators, so rehash steps go on exactly if they did before. */
  lemma ReleaseRestores<K, V>(d: Dict<K, V>, hash: K -> Word, ops: seq<IterOp<K, V>>)
    ensures var (d', it) := IterState(d, hash, NewIter(), ops);
      Release(d', it).iterators == d.iterators && (!Unused(it) ==> d'.iterators > 0 && RehashStep(d', hash) == d')
  {
    hide IterState;
    IterStateCounts(d, hash, NewIter(), ops);
  }
}
