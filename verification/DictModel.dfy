/** The incremental hash table of dict.c as a value: two chained tables, the rehash index and
    the number of safe iterators, and what each operation does to them. */
module DictModel {
  import opened Wrappers
  import opened Words

  const INITIAL_SIZE: nat := 4
  const FORCE_RESIZE_RATIO: nat := 5
  /** LONG_MAX on a 64-bit target. */
  const LONG_MAX: nat := 0x7FFF_FFFF_FFFF_FFFF

  datatype Entry<K, V> = Entry(key: K, val: V)

  type Chain<K, V> = seq<Entry<K, V>>

  /** dictht; the unallocated table has no buckets. */
  datatype Table<K, V> = Table(buckets: seq<Chain<K, V>>, mask: Word, used: nat)

  /** dict */
  datatype Dict<K, V> = Dict(ht0: Table<K, V>, ht1: Table<K, V>, rehashidx: int, iterators: nat)
  {
    predicate Rehashing() { rehashidx != -1 }
  }

  function NullTable<K, V>(): Table<K, V> { Table([], ZERO, 0) }

  /** dictCreate */
  function Create<K, V>(): Dict<K, V> { Dict(NullTable(), NullTable(), -1, 0) }

  // ---- tables ----

  function Index<K, V>(t: Table<K, V>, h: Word): nat { Value(And(h, t.mask)) }

  function ChainAt<K, V>(t: Table<K, V>, i: int): Chain<K, V> {
    if 0 <= i < |t.buckets| then t.buckets[i] else []
  }

  function WithChain<K, V>(t: Table<K, V>, i: int, c: Chain<K, V>, used: nat): Table<K, V> {
    if 0 <= i < |t.buckets| then t.(buckets := t.buckets[i := c], used := used) else t
  }

  /** Insert at the head of the chain. */
  function Push<K, V>(t: Table<K, V>, hash: K -> Word, e: Entry<K, V>): Table<K, V> {
    var i := Index(t, hash(e.key));
    WithChain(t, i, [e] + ChainAt(t, i), t.used + 1)
  }

  function FindIn<K(==), V>(c: Chain<K, V>, k: K): Option<nat> {
    if c == [] then None
    else if c[0].key == k then Some(0)
    else match FindIn(c[1..], k) case None => None case Some(i) => Some(i + 1)
  }

  function RemoveAt<K, V>(c: Chain<K, V>, i: nat): Chain<K, V>
    requires i < |c|
  {
    c[..i] + c[i + 1..]
  }

  // ---- expansion ----

  /** _dictNextPower from a candidate size `i`. */
  function NextPowerFrom(i: nat, size: nat): nat
    requires i > 0
    decreases size - i
  {
    if i >= size then i else NextPowerFrom(i * 2, size)
  }

  function NextPower(size: nat): nat {
    if size >= LONG_MAX then LONG_MAX + 1 else NextPowerFrom(INITIAL_SIZE, size)
  }

  /** A table of `size` empty buckets; sizemask is size - 1. */
  function EmptyTable<K, V>(size: nat): Table<K, V>
    requires 0 < size
  {
    Table(seq(size, i => []), FromNat(size - 1, WIDTH), 0)
  }

  /** dictExpand; the flag is DICT_OK. */
  function Expand<K, V>(d: Dict<K, V>, size: nat): (Dict<K, V>, bool) {
    if d.Rehashing() || d.ht0.used > size || NextPower(size) == |d.ht0.buckets| || NextPower(size) == 0 then (d, false)
    else if d.ht0.buckets == [] then (d.(ht0 := EmptyTable(NextPower(size))), true)
    else (d.(ht1 := EmptyTable(NextPower(size)), rehashidx := 0), true)
  }

  /** The cast `int minimal = d->ht[0].used` of dictResize. */
  function ToInt32(n: nat): int {
    var m := n % 0x1_0000_0000;
    if m >= 0x8000_0000 then m - 0x1_0000_0000 else m
  }

  /** dictResize */
  function Resize<K, V>(d: Dict<K, V>, canResize: bool): (Dict<K, V>, bool) {
    if !canResize || d.Rehashing() then (d, false)
    else
      var minimal := ToInt32(d.ht0.used);
      Expand(d, if minimal < INITIAL_SIZE then INITIAL_SIZE else minimal)
  }

  /** _dictExpandIfNeeded */
  function ExpandIfNeeded<K, V>(d: Dict<K, V>, canResize: bool): (Dict<K, V>, bool) {
    if d.Rehashing() then (d, true)
    else if |d.ht0.buckets| == 0 then Expand(d, INITIAL_SIZE)
    else if d.ht0.used >= |d.ht0.buckets| && (canResize || d.ht0.used / |d.ht0.buckets| > FORCE_RESIZE_RATIO) then
      Expand(d, d.ht0.used * 2)
    else (d, true)
  }

  // ---- incremental rehash ----

  function MoveChain<K, V>(c: Chain<K, V>, t: Table<K, V>, hash: K -> Word): Table<K, V> {
    if c == [] then t else MoveChain(c[1..], Push(t, hash, c[0]), hash)
  }

  /** Moves the bucket at rehashidx from the old table to the new one. */
  function MoveBucket<K, V>(d: Dict<K, V>, hash: K -> Word): Dict<K, V> {
    var c := ChainAt(d.ht0, d.rehashidx);
    d.(ht0 := WithChain(d.ht0, d.rehashidx, [], if d.ht0.used >= |c| then d.ht0.used - |c| else 0),
       ht1 := MoveChain(c, d.ht1, hash),
       rehashidx := d.rehashidx + 1)
  }

  /** End of dictRehash: once the old table is empty the new one takes its place. */
  function FinishRehash<K, V>(d: Dict<K, V>): (Dict<K, V>, bool) {
    if d.ht0.used == 0 then (d.(ht0 := d.ht1, ht1 := NullTable(), rehashidx := -1), false) else (d, true)
  }

  /** Main loop of dictRehash: `n` buckets still to move, `visits` empty buckets still allowed. */
  function RehashLoop<K, V>(d: Dict<K, V>, hash: K -> Word, n: nat, visits: int): (Dict<K, V>, bool)
    decreases |d.ht0.buckets| - d.rehashidx
  {
    if n == 0 || d.ht0.used == 0 || !(0 <= d.rehashidx < |d.ht0.buckets|) then FinishRehash(d)
    else if d.ht0.buckets[d.rehashidx] == [] then
      var d' := d.(rehashidx := d.rehashidx + 1);
      if visits == 1 then (d', true) else RehashLoop(d', hash, n, visits - 1)
    else RehashLoop(MoveBucket(d, hash), hash, n - 1, visits)
  }

  /** dictRehash; the flag says that there are still keys to move. */
  function Rehash<K, V>(d: Dict<K, V>, hash: K -> Word, n: nat): (Dict<K, V>, bool) {
    if !d.Rehashing() then (d, false) else RehashLoop(d, hash, n, n * 10)
  }

  /** `if (dictIsRehashing(d)) _dictRehashStep(d)` */
  function RehashStep<K, V>(d: Dict<K, V>, hash: K -> Word): Dict<K, V> {
    if d.Rehashing() && d.iterators == 0 then Rehash(d, hash, 1).0 else d
  }

  // ---- lookup, insertion, deletion ----

  /** Where a key is stored: table, bucket and place in the chain. */
  datatype Location = Location(table: nat, bucket: nat, place: nat)

  function Locate<K(==), V>(d: Dict<K, V>, hash: K -> Word, k: K): Option<Location> {
    var i0 := Index(d.ht0, hash(k));
    match FindIn(ChainAt(d.ht0, i0), k)
    case Some(p) => Some(Location(0, i0, p))
    case None =>
      if !d.Rehashing() then None
      else
        var i1 := Index(d.ht1, hash(k));
        match FindIn(ChainAt(d.ht1, i1), k)
        case Some(p) => Some(Location(1, i1, p))
        case None => None
  }

  function TableOf<K, V>(d: Dict<K, V>, l: Location): Table<K, V> { if l.table == 0 then d.ht0 else d.ht1 }

  function EntryAt<K, V>(d: Dict<K, V>, l: Location): Entry<K, V>
    requires l.bucket < |TableOf(d, l).buckets| && l.place < |TableOf(d, l).buckets[l.bucket]|
  {
    TableOf(d, l).buckets[l.bucket][l.place]
  }

  /** dictFind: the rehash step it performs and the entry it returns. */
  function Find<K(==), V>(d: Dict<K, V>, hash: K -> Word, k: K): (Dict<K, V>, Option<Location>) {
    if d.ht0.used + d.ht1.used == 0 then (d, None)
    else
      var d' := RehashStep(d, hash);
      (d', Locate(d', hash, k))
  }

  /** What dictAddRaw reports: a fresh entry, the existing one, or no table to put it in. */
  datatype AddOutcome = Added | Exists(at: Location) | NoRoom

  /** dictAdd */
  function Add<K(==), V>(d: Dict<K, V>, hash: K -> Word, canResize: bool, k: K, v: V): (Dict<K, V>, AddOutcome) {
    var (d', ok) := ExpandIfNeeded(RehashStep(d, hash), canResize);
    if !ok then (d', NoRoom)
    else match Locate(d', hash, k)
      case Some(l) => (d', Exists(l))
      case None =>
        if d'.Rehashing() then (d'.(ht1 := Push(d'.ht1, hash, Entry(k, v))), Added)
        else (d'.(ht0 := Push(d'.ht0, hash, Entry(k, v))), Added)
  }

  function SetAt<K, V>(d: Dict<K, V>, l: Location, e: Entry<K, V>): Dict<K, V>
    requires l.bucket < |TableOf(d, l).buckets| && l.place < |TableOf(d, l).buckets[l.bucket]|
  {
    var t := TableOf(d, l);
    var t' := t.(buckets := t.buckets[l.bucket := t.buckets[l.bucket][l.place := e]]);
    if l.table == 0 then d.(ht0 := t') else d.(ht1 := t')
  }

  function RemoveEntry<K, V>(d: Dict<K, V>, l: Location): Dict<K, V>
    requires l.bucket < |TableOf(d, l).buckets| && l.place < |TableOf(d, l).buckets[l.bucket]|
  {
    var t := TableOf(d, l);
    var t' := WithChain(t, l.bucket, RemoveAt(t.buckets[l.bucket], l.place), if t.used > 0 then t.used - 1 else 0);
    if l.table == 0 then d.(ht0 := t') else d.(ht1 := t')
  }

  lemma {:induction false} FindInSound<K, V>(c: Chain<K, V>, k: K)
    ensures FindIn(c, k).Some? ==>
      var i := FindIn(c, k).value; i < |c| && c[i].key == k && forall j :: 0 <= j < i ==> c[j].key != k
    ensures FindIn(c, k).None? ==> forall j :: 0 <= j < |c| ==> c[j].key != k
  {
    if c != [] {
      FindInSound(c[1..], k);
      assert forall j :: 1 <= j < |c| ==> c[j] == c[1..][j - 1];
    }
  }

  /** A located key is really there. */
  lemma LocateSound<K, V>(d: Dict<K, V>, hash: K -> Word, k: K)
    ensures Locate(d, hash, k).Some? ==>
      var l := Locate(d, hash, k).value;
      && l.table <= 1 && (l.table == 1 ==> d.Rehashing())
      && l.bucket == Index(TableOf(d, l), hash(k)) < |TableOf(d, l).buckets|
      && l.place < |TableOf(d, l).buckets[l.bucket]|
      && EntryAt(d, l).key == k
  {
    FindInSound(ChainAt(d.ht0, Index(d.ht0, hash(k))), k);
    FindInSound(ChainAt(d.ht1, Index(d.ht1, hash(k))), k);
  }

  /** dictReplace; None is the dereference of a null `existing`. */
  function Replace<K(==), V>(d: Dict<K, V>, hash: K -> Word, canResize: bool, k: K, v: V): (Dict<K, V>, Option<bool>) {
    match Add(d, hash, canResize, k, v)
    case (d', Added) => (d', Some(true))
    case (d', NoRoom) => (d', None)
    case (d', Exists(l)) =>
      LocateSound(ExpandIfNeeded(RehashStep(d, hash), canResize).0, hash, k);
      (SetAt(d', l, Entry(EntryAt(d', l).key, v)), Some(false))
  }

  /** dictGenericDelete; the entry unlinked, if any. */
  function Delete<K(==), V>(d: Dict<K, V>, hash: K -> Word, k: K): (Dict<K, V>, Option<Entry<K, V>>) {
    if d.ht0.used == 0 && d.ht1.used == 0 then (d, None)
    else
      var d' := RehashStep(d, hash);
      LocateSound(d', hash, k);
      match Locate(d', hash, k)
      case None => (d', None)
      case Some(l) => (RemoveEntry(d', l), Some(EntryAt(d', l)))
  }

  /** dictEmpty */
  function Empty<K, V>(d: Dict<K, V>): Dict<K, V> { Create() }
}
