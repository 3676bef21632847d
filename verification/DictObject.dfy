/** dict.c as it works: bucket arrays, counters and the rehash index changed in place by loops.
    Every method is proved to make the step that the value model describes. */
module DictObject {
  import opened Wrappers
  import opened Words
  import opened DictModel
  import opened DictMap
  import Scans = DictScan
  import Iterators = DictIterator

  /** _dictNextPower */
  method ComputeNextPower(size: nat) returns (i: nat)
    ensures i == NextPower(size)
  {
    if size >= LONG_MAX { return LONG_MAX + 1; }
    i := INITIAL_SIZE;
    while i < size
      invariant i > 0 && NextPowerFrom(i, size) == NextPowerFrom(INITIAL_SIZE, size)
      decreases size - i
    {
      i := i * 2;
    }
  }

  lemma ExpandIs<K, V>(d: Dict<K, V>, size: nat)
    requires !d.Rehashing() && d.ht0.used <= size && NextPower(size) != |d.ht0.buckets| && NextPower(size) != 0
    ensures var e := EmptyTable<K, V>(NextPower(size));
      Expand(d, size) == (if d.ht0.buckets == [] then d.(ht0 := e) else d.(ht1 := e, rehashidx := 0), true)
  {
  }

  class HashDict<K(==, !new), V> {
    const hash: K -> Word
    var table0: array<Chain<K, V>>
    var mask0: Word
    var used0: nat
    var table1: array<Chain<K, V>>
    var mask1: Word
    var used1: nat
    var rehashidx: int
    var iterators: nat

    ghost function State(): Dict<K, V>
      reads this, table0, table1
    {
      Dict(Table(table0[..], mask0, used0), Table(table1[..], mask1, used1), rehashidx, iterators)
    }

    ghost predicate Ok()
      reads this, table0, table1
    {
      table0 != table1 && Valid(State(), hash)
    }

    /** dictCreate */
    constructor (hash: K -> Word)
      ensures Ok() && fresh(table0) && fresh(table1) && this.hash == hash
      ensures State() == Create()
    {
      this.hash := hash;
      table0, mask0, used0 := new Chain<K, V>[0](i => []), ZERO, 0;
      table1, mask1, used1 := new Chain<K, V>[0](i => []), ZERO, 0;
      rehashidx, iterators := -1, 0;
      new;
      CreateRepresentsEmpty<K, V>(hash);
      assert table0[..] == [] && table1[..] == [];
    }

    /** dictExpand */
    method ExpandTo(size: nat) returns (ok: bool)
      requires Ok()
      modifies this
      ensures Ok() && (table0 == old(table0) || fresh(table0)) && (table1 == old(table1) || fresh(table1))
      ensures (State(), ok) == Expand(old(State()), size)
    {
      ExpandKeeps(State(), hash, size);
      hide Valid, Same, FromNat, NextPower;
      ghost var d := State();
      if rehashidx != -1 || used0 > size { return false; }
      var realsize := ComputeNextPower(size);
      if realsize == table0.Length || realsize == 0 { return false; }
      var t := new Chain<K, V>[realsize](i => []);
      ghost var e := EmptyTable<K, V>(realsize);
      assert t[..] == e.buckets;
      hide Expand;
      assert e == Table(t[..], FromNat(t.Length - 1, WIDTH), 0);
      ExpandIs(d, size);
      Install(t);
      return true;
    }

    /** The new table becomes the first one, or the target of a rehash. */
    method Install(t: array<Chain<K, V>>)
      requires t != table0 && t != table1 && table0 != table1 && t.Length > 0
      modifies this
      ensures table0 == if old(table0).Length == 0 then t else old(table0)
      ensures table1 == if old(table0).Length == 0 then old(table1) else t
      ensures var n := Table(t[..], FromNat(t.Length - 1, WIDTH), 0);
        State() == if old(table0).Length == 0 then old(State()).(ht0 := n) else old(State()).(ht1 := n, rehashidx := 0)
    {
      hide FromNat;
      if table0.Length == 0 {
        table0, mask0, used0 := t, FromNat(t.Length - 1, WIDTH), 0;
      } else {
        table1, mask1, used1 := t, FromNat(t.Length - 1, WIDTH), 0;
        rehashidx := 0;
      }
    }

    /** The `while(de)` loop of dictRehash: relinks one chain into the new table. */
    method RelinkChain(c: Chain<K, V>)
      requires Sized(Table(table1[..], mask1, used1)) && used0 >= |c|
      modifies this`used0, this`used1, table1
      ensures Table(table1[..], mask1, used1) == MoveChain(c, old(Table(table1[..], mask1, used1)), hash)
      ensures used0 == old(used0) - |c|
    {
      ghost var t0 := Table(table1[..], mask1, used1);
      var de := c;
      while de != []
        invariant used0 == old(used0) - |c| + |de| && |de| <= |c|
        invariant MoveChain(de, Table(table1[..], mask1, used1), hash) == MoveChain(c, t0, hash)
        decreases |de|
      {
        ghost var t := Table(table1[..], mask1, used1);
        assert Index(t, hash(de[0].key)) < |t.buckets| by {
          IndexInRange(t0, hash(de[0].key));
        }
        var h := Value(And(hash(de[0].key), mask1));
        table1[h] := [de[0]] + table1[h];
        used0, used1 := used0 - 1, used1 + 1;
        assert table1[..] == t.buckets[h := [de[0]] + t.buckets[h]];
        assert Table(table1[..], mask1, used1) == Push(t, hash, de[0]);
        de := de[1..];
      }
    }

    method MoveOneBucket()
      requires Ok() && rehashidx != -1 && rehashidx < table0.Length
      modifies this`used0, this`used1, this`rehashidx, table0, table1
      ensures Ok() && State() == MoveBucket(old(State()), hash)
    {
      ghost var d := State();
      MoveBucketKeeps(d, hash);
      ClearKeeps(d.ht0, hash, rehashidx);
      RelinkChain(table0[rehashidx]);
      table0[rehashidx] := [];
      assert table0[..] == d.ht0.buckets[rehashidx := []];
      rehashidx := rehashidx + 1;
      assert State() == MoveBucket(d, hash);
    }

    /** The loop of dictRehash over empty buckets; `over` when no visit is left. */
    method SkipEmptyBuckets(visits: nat, ghost left: nat) returns (rest: nat, over: bool)
      requires Ok() && rehashidx != -1 && used0 != 0 && visits > 0 && left > 0
      modifies this`rehashidx
      ensures Ok() && rehashidx != -1 && rehashidx >= old(rehashidx)
      ensures !over ==>
        && rehashidx < table0.Length && table0[rehashidx] != [] && rest > 0
        && RehashLoop(State(), hash, left, rest) == RehashLoop(old(State()), hash, left, visits)
      ensures over ==> (State(), true) == RehashLoop(old(State()), hash, left, visits)
    {
      hide MoveBucket, FinishRehash, Sized, Placed, Count;
      ghost var start := State();
      rest := visits;
      RehashIndexInRange(State(), hash);
      while table0[rehashidx] == []
        invariant Ok() && old(rehashidx) <= rehashidx && 0 <= rehashidx < table0.Length && rest > 0
        invariant RehashLoop(State(), hash, left, rest) == RehashLoop(start, hash, left, visits)
        decreases table0.Length - rehashidx
      {
        ghost var s := State();
        SkipKeeps(s, hash);
        rehashidx := rehashidx + 1;
        assert State() == s.(rehashidx := s.rehashidx + 1);
        rest := rest - 1;
        if rest == 0 { return rest, true; }
        RehashIndexInRange(State(), hash);
      }
      over := false;
    }

    /** End of dictRehash: the new table takes over once the old one is empty. */
    method SwitchTables() returns (more: bool)
      requires Ok() && rehashidx != -1
      modifies this
      ensures Ok() && table0 in {old(table0), old(table1)} && (table1 == old(table1) || fresh(table1))
      ensures (State(), more) == FinishRehash(old(State()))
    {
      ghost var s := State();
      FinishRehashKeeps(s, hash);
      if used0 != 0 { return true; }
      table0, mask0, used0 := table1, mask1, used1;
      table1, mask1, used1 := new Chain<K, V>[0](i => []), ZERO, 0;
      rehashidx := -1;
      assert table1[..] == [];
      assert State() == FinishRehash(s).0;
      return false;
    }

    /** dictRehash */
    method RehashBuckets(n: nat) returns (more: bool)
      requires Ok()
      modifies this, table0, table1
      ensures Ok() && table0 in {old(table0), old(table1)} && (table1 == old(table1) || fresh(table1))
      ensures (State(), more) == Rehash(old(State()), hash, n)
    {
      ghost var start := State();
      var visits := n * 10;
      if rehashidx == -1 { return false; }
      var left := n;
      while left != 0 && used0 != 0
        invariant Ok() && rehashidx != -1 && table0 == old(table0) && table1 == old(table1)
        invariant left != 0 ==> visits > 0
        invariant RehashLoop(State(), hash, left, visits) == RehashLoop(start, hash, n, n * 10)
        decreases table0.Length - rehashidx
      {
        var over;
        visits, over := SkipEmptyBuckets(visits, left);
        if over { return true; }
        MoveOneBucket();
        left := left - 1;
      }
      more := SwitchTables();
    }

    /** `if (dictIsRehashing(d)) _dictRehashStep(d)` */
    method StepRehash()
      requires Ok()
      modifies this, table0, table1
      ensures Ok() && table0 in {old(table0), old(table1)} && (table1 == old(table1) || fresh(table1))
      ensures State() == RehashStep(old(State()), hash)
    {
      if rehashidx != -1 && iterators == 0 {
        var more := RehashBuckets(1);
      }
    }

    /** Walks one chain comparing keys. */
    static method SearchChain(c: Chain<K, V>, k: K) returns (p: Option<nat>)
      ensures p == FindIn(c, k)
    {
      var i := 0;
      while i < |c|
        invariant 0 <= i <= |c|
        invariant FindIn(c, k) == match FindIn(c[i..], k) case None => None case Some(j) => Some(j + i)
      {
        if c[i].key == k {
          return Some(i);
        }
        assert c[i..][1..] == c[i + 1..];
        i := i + 1;
      }
      return None;
    }

    /** The search over both tables shared by dictFind, dictGenericDelete and _dictKeyIndex. */
    method LocateKey(k: K) returns (at: Option<Location>)
      requires Ok() && Sized(State().ht0)
      ensures at == Locate(State(), hash, k)
    {
      var h := hash(k);
      var table := 0;
      while table <= 1
        invariant 0 <= table <= 2 && (table == 1 ==> rehashidx != -1)
        invariant table >= 1 ==> FindIn(ChainAt(State().ht0, Index(State().ht0, h)), k) == None
        invariant table == 2 ==> Locate(State(), hash, k) == None
      {
        if table == 0 { IndexInRange(State().ht0, h); } else { IndexInRange(State().ht1, h); }
        var idx := Value(And(h, if table == 0 then mask0 else mask1));
        var p := SearchChain(if table == 0 then table0[idx] else table1[idx], k);
        if p.Some? { return Some(Location(table, idx, p.value)); }
        if rehashidx == -1 { return None; }
        table := table + 1;
      }
      return None;
    }

    /** dictFind */
    method FindEntry(k: K) returns (at: Option<Location>)
      requires Ok()
      modifies this, table0, table1
      ensures Ok() && table0 in {old(table0), old(table1)} && (table1 == old(table1) || fresh(table1))
      ensures (State(), at) == Find(old(State()), hash, k)
    {
      if used0 + used1 == 0 { return None; }
      RehashStepKeeps(State(), hash);
      StepRehash();
      at := LocateKey(k);
    }

    /** dictFetchValue */
    method FetchValue(k: K) returns (v: Option<V>)
      requires Ok()
      modifies this, table0, table1
      ensures Ok() && table0 in {old(table0), old(table1)} && (table1 == old(table1) || fresh(table1))
      ensures v == Lookup(old(State()), hash, k) && Same(old(State()), State(), hash)
    {
      FindCorrect(State(), hash, k);
      var at := FindEntry(k);
      if at.None? { return None; }
      var l := at.value;
      v := Some((if l.table == 0 then table0[l.bucket][l.place] else table1[l.bucket][l.place]).val);
    }

    /** _dictExpandIfNeeded */
    method GrowIfNeeded(canResize: bool) returns (ok: bool)
      requires Ok()
      modifies this
      ensures Ok() && (table0 == old(table0) || fresh(table0)) && (table1 == old(table1) || fresh(table1))
      ensures (State(), ok) == ExpandIfNeeded(old(State()), canResize)
    {
      if rehashidx != -1 { return true; }
      if table0.Length == 0 {
        ok := ExpandTo(INITIAL_SIZE);
      } else if used0 >= table0.Length && (canResize || used0 / table0.Length > FORCE_RESIZE_RATIO) {
        ok := ExpandTo(used0 * 2);
      } else {
        ok := true;
      }
    }

    /** Head insertion of dictAddRaw. */
    method InsertAtHead(e: Entry<K, V>)
      requires Ok() && Sized(State().ht0) && Lookup(State(), hash, e.key) == None
      modifies this`used0, this`used1, table0, table1
      ensures Ok()
      ensures State() == (if old(State()).Rehashing() then old(State()).(ht1 := Push(old(State()).ht1, hash, e))
                          else old(State()).(ht0 := Push(old(State()).ht0, hash, e)))
    {
      ghost var d := State();
      InsertKeeps(d, hash, e);
      if rehashidx != -1 {
        IndexInRange(d.ht1, hash(e.key));
        var i := Value(And(hash(e.key), mask1));
        table1[i] := [e] + table1[i];
        used1 := used1 + 1;
        assert table1[..] == d.ht1.buckets[i := [e] + d.ht1.buckets[i]];
        assert State() == d.(ht1 := Push(d.ht1, hash, e));
      } else {
        IndexInRange(d.ht0, hash(e.key));
        var i := Value(And(hash(e.key), mask0));
        table0[i] := [e] + table0[i];
        used0 := used0 + 1;
        assert table0[..] == d.ht0.buckets[i := [e] + d.ht0.buckets[i]];
        assert State() == d.(ht0 := Push(d.ht0, hash, e));
      }
    }

    /** _dictKeyIndex: grows the table if needed and looks for an existing entry. */
    method KeyIndex(canResize: bool, k: K) returns (ok: bool, at: Option<Location>)
      requires Ok()
      modifies this
      ensures Ok() && (table0 == old(table0) || fresh(table0)) && (table1 == old(table1) || fresh(table1))
      ensures (State(), ok) == ExpandIfNeeded(old(State()), canResize)
      ensures ok ==> Sized(State().ht0) && at == Locate(State(), hash, k)
      ensures ok && at.None? ==> Lookup(State(), hash, k) == None
    {
      ExpandIfNeededKeeps(State(), hash, canResize);
      ok := GrowIfNeeded(canResize);
      if !ok { return ok, None; }
      at := LocateKey(k);
      LocateComplete(State(), hash, k);
    }

    /** dictAdd over dictAddRaw */
    method AddEntry(canResize: bool, k: K, v: V) returns (r: AddOutcome)
      requires Ok()
      modifies this, table0, table1
      ensures Ok() && (table0 in {old(table0), old(table1)} || fresh(table0))
      ensures (table1 == old(table1) || fresh(table1))
      ensures (State(), r) == Add(old(State()), hash, canResize, k, v)
    {
      hide Valid, ExpandIfNeeded, RehashStep, Locate, Push, Lookup;
      StepRehash();
      var ok, at := KeyIndex(canResize, k);
      if !ok { return NoRoom; }
      if at.Some? { return Exists(at.value); }
      InsertAtHead(Entry(k, v));
      return Added;
    }

    /** dictReplace; None is the dereference of a null `existing`. */
    method ReplaceEntry(canResize: bool, k: K, v: V) returns (r: Option<bool>)
      requires Ok()
      modifies this, table0, table1
      ensures Ok() && (table0 in {old(table0), old(table1)} || fresh(table0))
      ensures (table1 == old(table1) || fresh(table1))
      ensures (State(), r) == Replace(old(State()), hash, canResize, k, v)
    {
      hide Valid, ExpandIfNeeded, RehashStep;
      ghost var d := State();
      var outcome := AddEntry(canResize, k, v);
      match outcome
      case Added => return Some(true);
      case NoRoom => return None;
      case Exists(l) =>
        LocateSound(State(), hash, k);
        OverwriteAt(l, v);
        r := Some(false);
    }

    /** dictSetVal on an existing entry. */
    method OverwriteAt(l: Location, v: V)
      requires Ok() && l.table <= 1 && (l.table == 1 ==> rehashidx != -1)
      requires l.bucket < |TableOf(State(), l).buckets| && l.place < |TableOf(State(), l).buckets[l.bucket]|
      modifies table0, table1
      ensures Ok() && State() == SetAt(old(State()), l, Entry(EntryAt(old(State()), l).key, v))
    {
      ghost var d := State();
      SetAtKeeps(d, hash, l, v);
      if l.table == 0 {
        var c := table0[l.bucket];
        table0[l.bucket] := c[l.place := Entry(c[l.place].key, v)];
        assert table0[..] == d.ht0.buckets[l.bucket := c[l.place := Entry(c[l.place].key, v)]];
      } else {
        var c := table1[l.bucket];
        table1[l.bucket] := c[l.place := Entry(c[l.place].key, v)];
        assert table1[..] == d.ht1.buckets[l.bucket := c[l.place := Entry(c[l.place].key, v)]];
      }
      assert State() == SetAt(d, l, Entry(EntryAt(d, l).key, v));
    }

    /** Unlinking of dictGenericDelete. */
    method UnlinkAt(l: Location)
      requires Ok() && l.table <= 1 && (l.table == 1 ==> rehashidx != -1)
      requires l.bucket < |TableOf(State(), l).buckets| && l.place < |TableOf(State(), l).buckets[l.bucket]|
      modifies this`used0, this`used1, table0, table1
      ensures Ok() && State() == RemoveEntry(old(State()), l)
    {
      ghost var d := State();
      RemoveEntryKeeps(d, hash, l);
      RemoveKeeps(TableOf(d, l), hash, l.bucket, l.place);
      if l.table == 0 {
        table0[l.bucket] := RemoveAt(table0[l.bucket], l.place);
        used0 := used0 - 1;
        assert table0[..] == d.ht0.buckets[l.bucket := RemoveAt(d.ht0.buckets[l.bucket], l.place)];
      } else {
        table1[l.bucket] := RemoveAt(table1[l.bucket], l.place);
        used1 := used1 - 1;
        assert table1[..] == d.ht1.buckets[l.bucket := RemoveAt(d.ht1.buckets[l.bucket], l.place)];
      }
      assert State() == RemoveEntry(d, l);
    }

    /** dictGenericDelete, for dictDelete and dictUnlink */
    method DeleteEntry(k: K) returns (r: Option<Entry<K, V>>)
      requires Ok()
      modifies this, table0, table1
      ensures Ok() && table0 in {old(table0), old(table1)} && (table1 == old(table1) || fresh(table1))
      ensures (State(), r) == Delete(old(State()), hash, k)
    {
      hide RehashStep, Locate, RemoveEntry;
      if used0 == 0 && used1 == 0 { return None; }
      RehashStepKeeps(State(), hash);
      StepRehash();
      r := UnlinkKey(k);
    }

    method UnlinkKey(k: K) returns (r: Option<Entry<K, V>>)
      requires Ok() && Sized(State().ht0)
      modifies this`used0, this`used1, table0, table1
      ensures Ok()
      ensures var d := old(State());
        match Locate(d, hash, k)
        case None => State() == d && r == None
        case Some(l) =>
          && l.bucket < |TableOf(d, l).buckets| && l.place < |TableOf(d, l).buckets[l.bucket]|
          && State() == RemoveEntry(d, l) && r == Some(EntryAt(d, l))
    {
      var at := LocateKey(k);
      LocateSound(State(), hash, k);
      if at.None? { return None; }
      var l := at.value;
      r := Some(if l.table == 0 then table0[l.bucket][l.place] else table1[l.bucket][l.place]);
      UnlinkAt(l);
    }

    /** `v |= ~mask; v = rev(v); v++; v = rev(v)` */
    static method AdvanceCursor(v: Word, mask: Word) returns (w: Word)
      ensures w == NextCursor(v, mask)
    {
      w := Rev(Or(v, Not(mask)));
      w := Increment(w);
      w := Rev(w);
    }

    /** The do-while of dictScan over the expansions of the cursor in the larger table. */
    static method ScanExpansions(
        t: array<Chain<K, V>>, m0: Word, m1: Word, v0: Word, ghost k0: nat, ghost k1: nat, ghost used: nat)
      returns (out: seq<Entry<K, V>>, v: Word)
      requires k0 <= k1 <= WIDTH && m0 == Mask(k0) && m1 == Mask(k1) && t.Length == Pow2(k1)
      ensures (out, v) == Scans.ScanLoop(Table(t[..], m1, used), v0, k0, k1)
    {
      ghost var tab := Table(t[..], m1, used);
      out, v := [], v0;
      assert [] + Scans.ScanLoop(tab, v0, k0, k1).0 == Scans.ScanLoop(tab, v0, k0, k1).0;
      var go := true;
      while go
        invariant go ==> var r := Scans.ScanLoop(tab, v, k0, k1); Scans.ScanLoop(tab, v0, k0, k1) == (out + r.0, r.1)
        invariant !go ==> Scans.ScanLoop(tab, v0, k0, k1) == (out, v)
        decreases go, Pow2(WIDTH) - Pos(v)
      {
        AndMask(v, k1);
        Scans.ScanLoopStep(tab, v, k0, k1, out);
        out := out + t[Value(And(v, m1))];
        ghost var was := v;
        v := AdvanceCursor(v, m1);
        go := And(v, Xor(m0, m1)) != ZERO;
        Scans.CursorAdvances(was, k1);
        if go { Scans.LoopDecreases(was, v, k0, k1); }
      }
    }

    /** dictScan: the entries passed to the callback and the cursor to continue from. */
    method ScanFrom(v: Word) returns (out: seq<Entry<K, V>>, w: Word)
      requires Ok()
      ensures Scans.Bits(State().ht0) <= WIDTH && Scans.Bits(State().ht1) <= WIDTH
      ensures (out, w) == Scans.Scan(State(), v)
    {
      Scans.ValidBits(State(), hash);
      Scans.ScannedTables(State(), hash);
      hide Valid, And, Value, Mask, Pow2, NextCursor;
      ghost var b0, b1 := Scans.Bits(State().ht0), Scans.Bits(State().ht1);
      if used0 + used1 == 0 { return [], ZERO; }
      AndMask(v, b0);
      if rehashidx == -1 {
        out := table0[Value(And(v, mask0))];
        w := AdvanceCursor(v, mask0);
      } else {
        AndMask(v, b1);
        if table0.Length > table1.Length {
          Scans.SmallerTable(State().ht1, State().ht0);
          out, w := ScanExpansions(table0, mask1, mask0, v, b1, b0, used0);
          out := table1[Value(And(v, mask1))] + out;
        } else {
          Scans.SmallerTable(State().ht0, State().ht1);
          out, w := ScanExpansions(table1, mask0, mask1, v, b0, b1, used1);
          out := table0[Value(And(v, mask0))] + out;
        }
      }
    }
  }

  /** A safe iterator over a dict. */
  class SafeIterator<K(==, !new), V> {
    const dict: HashDict<K, V>
    var table: nat
    var index: int
    var entry: Option<K>
    var next: Option<K>

    ghost function Position(): Iterators.Iter<K>
      reads this
    {
      Iterators.Iter(table, index, entry, next)
    }

    /** dictGetSafeIterator */
    constructor (dict: HashDict<K, V>)
      ensures this.dict == dict && Position() == Iterators.NewIter()
    {
      this.dict := dict;
      table, index, entry, next := 0, -1, None, None;
    }

    /** Moves to the next bucket, or to the second table during a rehash; false at the end. */
    method EnterNextBucket() returns (more: bool)
      requires dict.Ok() && Iterators.IterOk(dict.State(), Position()) && entry.None?
      modifies this
      ensures (Position(), more) == Iterators.NextBucket(dict.State(), old(Position()))
    {
      Iterators.NewTableThere(dict.State(), dict.hash);
      hide Valid;
      index := index + 1;
      if index >= (if table == 0 then dict.table0.Length else dict.table1.Length) {
        if dict.rehashidx == -1 || table != 0 { return false; }
        table, index := 1, 0;
      }
      var c := if table == 0 then dict.table0[index] else dict.table1[index];
      entry := if c == [] then None else Some(c[0].key);
      more := true;
    }

    /** Saves the entry chained after the one about to be returned. */
    method SaveNext()
      requires entry.Some? && table <= 1
      requires 0 <= index < (if table == 0 then dict.table0.Length else dict.table1.Length)
      modifies this`next
      ensures next == Iterators.Successor(ChainAt(Iterators.TableNo(dict.State(), table), index), entry.value)
    {
      var c := if table == 0 then dict.table0[index] else dict.table1[index];
      var p := HashDict<K, V>.SearchChain(c, entry.value);
      next := if p.Some? && p.value + 1 < |c| then Some(c[p.value + 1].key) else None;
    }

    /** dictNext */
    method NextEntry() returns (r: Option<K>)
      requires dict.Ok() && Iterators.IterOk(dict.State(), Position())
      modifies this, dict`iterators
      ensures dict.Ok() && (dict.State(), Position(), r) == Iterators.Next(old(dict.State()), old(Position()))
    {
      hide Valid, Iterators.NextLoop;
      if entry.None? && index == -1 && table == 0 {
        ghost var d := dict.State();
        Iterators.RegisterValid(d, dict.hash);
        dict.iterators := dict.iterators + 1;
        assert dict.State() == d.(iterators := d.iterators + 1);
      }
      r := AdvanceToEntry();
    }

    /** The `while (1)` of dictNext. */
    method AdvanceToEntry() returns (r: Option<K>)
      requires dict.Ok() && Iterators.IterOk(dict.State(), Position())
      modifies this
      ensures (Position(), r) == Iterators.NextLoop(dict.State(), old(Position()))
    {
      hide Valid;
      ghost var it := Position();
      ghost var d := dict.State();
      var done := false;
      r := None;
      while !done
        invariant Iterators.IterOk(d, Position()) || done
        invariant if done then r.None? && Iterators.NextLoop(d, it) == (Position(), None)
                  else Iterators.NextLoop(d, Position()) == Iterators.NextLoop(d, it)
        decreases !done, if table == 0 then 1 else 0,
                  |Iterators.TableNo(d, table).buckets| - index, if entry.Some? then 1 else 0
      {
        var more := true;
        ghost var was := Position();
        if entry.None? {
          Iterators.NextBucketOk(d, dict.hash, was);
          more := EnterNextBucket();
        } else {
          entry := next;
        }
        if more && entry.Some? {
          SaveNext();
          return entry;
        }
        done := !more;
      }
    }
  }
}
