/** The keyspace in cluster mode as it is updated in place, and the enumeration of a slot's keys. */
module SlotIndexObject {

  import opened Wrappers
  import opened SlotIndex

  /** e is the least string of the tree at or after x, and not x itself if `after`. */
  ghost predicate IsNext(index: set<Str>, x: Str, after: bool, e: Str) {
    && e in index && Le(x, e) && (after ==> e != x)
    && forall y :: y in index && Le(x, y) && (after ==> y != x) ==> Le(e, y)
  }

  /** raxSeek and raxNext: the next string of the tree in order. */
  method Seek(index: set<Str>, x: Str, after: bool) returns (r: Option<Str>)
    ensures r.Some? ==> IsNext(index, x, after, r.value)
    ensures r.None? ==> forall y :: y in index && Le(x, y) ==> after && y == x
  {
    r := None;
    var rest := index;
    while rest != {}
      invariant rest <= index
      invariant r.Some? ==> r.value in index && Le(x, r.value) && (after ==> r.value != x)
      invariant r.Some? ==> forall y :: y in index && y !in rest && Le(x, y) && (after ==> y != x) ==> Le(r.value, y)
      invariant r.None? ==> forall y :: y in index && y !in rest && Le(x, y) ==> after && y == x
    {
      var y :| y in rest;
      if Le(x, y) && !(after && y == x) {
        if r.None? || !Le(r.value, y) {
          LeTotal(y, y);
          if r.Some? { BetterIsLeast(index, rest, x, after, r.value, y); }
          r := Some(y);
        }
      }
      rest := rest - {y};
    }
  }

  lemma BetterIsLeast(index: set<Str>, rest: set<Str>, x: Str, after: bool, e: Str, y: Str)
    requires !Le(e, y) && forall z :: z in index && z !in rest && Le(x, z) && (after ==> z != x) ==> Le(e, z)
    ensures forall z :: z in index && z !in rest && Le(x, z) && (after ==> z != x) ==> Le(y, z)
  {
    LeTotal(e, y);
    forall z | z in index && z !in rest && Le(x, z) && (after ==> z != x)
      ensures Le(y, z)
    {
      LeTrans(y, e, z);
    }
  }

  class Keyspace {

    const slotOf: SlotOf
    var dbs: seq<map<Str, Val>>
    var index: set<Str>
    const counts: array<nat>

    function S(): State
      reads this, counts
    {
      State(dbs, index, counts[..])
    }

    ghost predicate Valid()
      reads this, counts
    {
      Hashes(slotOf) && counts.Length == SLOTS && dbs != [] && IndexOk(slotOf, S())
    }

    constructor (hash: SlotOf, dbnum: nat)
      requires Hashes(hash) && dbnum > 0
      ensures Valid() && slotOf == hash && fresh(counts) && dbs == seq(dbnum, _ => map[])
    {
      slotOf := hash;
      dbs := seq(dbnum, _ => map[]);
      index := {};
      counts := new nat[SLOTS](_ => 0);
      new;
      forall j | 0 <= j < SLOTS
        ensures counts[j] == |KeysOf(slotOf, dbs[0], j)|
      {
        assert KeysOf(slotOf, dbs[0], j) == {};
      }
    }

    /** slotToKeyUpdateKey */
    method UpdateKey(k: Str, add: bool)
      requires Hashes(slotOf) && counts.Length == SLOTS && (add || counts[slotOf(k)] > 0)
      modifies this`index, counts
      ensures index == if add then old(index) + {Indexed(slotOf, k)} else old(index) - {Indexed(slotOf, k)}
      ensures counts[..] == old(counts[..])[slotOf(k) := if add then old(counts[slotOf(k)]) + 1
        else old(counts[slotOf(k)]) - 1]
    {
      assert slotOf(k) < SLOTS;
      var j := slotOf(k);
      counts[j] := if add then counts[j] + 1 else counts[j] - 1;
      index := if add then index + {Indexed(slotOf, k)} else index - {Indexed(slotOf, k)};
    }

    /** dbAdd on database 0; the source aborts if the key exists. */
    method AddKey(k: Str, v: Val)
      requires Valid() && k !in dbs[0]
      modifies this, counts
      ensures Valid() && slotOf(k) < SLOTS && S() == Add(slotOf, old(S()), k, v)
    {
      hide IndexOk;
      AddKeeps(slotOf, S(), k, v);
      dbs := dbs[0 := dbs[0][k := v]];
      UpdateKey(k, true);
    }

    /** dbSyncDelete on database 0. */
    method DeleteKey(k: Str) returns (removed: bool)
      requires Valid()
      modifies this, counts
      ensures Valid() && slotOf(k) < SLOTS && S() == Delete(slotOf, old(S()), k) && removed == (k in old(dbs[0]))
    {
      hide IndexOk;
      DeleteKeeps(slotOf, S(), k);
      removed := k in dbs[0];
      if removed {
        dbs := dbs[0 := dbs[0] - {k}];
        UpdateKey(k, false);
      }
    }

    /** countKeysInSlot */
    method CountKeysInSlot(slot: nat) returns (n: nat)
      requires Valid() && slot < SLOTS
      ensures n == |KeysOf(slotOf, dbs[0], slot)|
    {
      n := counts[slot];
    }

    /** emptyDb and slotToKeyFlush; -1 for a database that does not exist. */
    method EmptyDb(d: int) returns (removed: int)
      requires Valid()
      modifies this, counts
      ensures S() == Empty(old(S()), d)
      ensures d < -1 || d >= |old(dbs)| ==> removed == -1
      ensures -1 <= d < |old(dbs)| ==>
        removed == Sizes(old(dbs), if d == -1 then 0 else d, if d == -1 then |old(dbs)| else d + 1)
      ensures d <= 0 || d >= |old(dbs)| || old(dbs[0]) == map[] ==> Valid()
    {
      EmptyKeeps(slotOf, S(), d);
      hide IndexOk;
      if d < -1 || d >= |dbs| {
        return -1;
      }
      removed := EmptyRange(if d == -1 then 0 else d, if d == -1 then |dbs| else d + 1);
      index := {};
      forall i | 0 <= i < SLOTS { counts[i] := 0; }
      assert dbs == Empty(old(S()), d).dbs;
      assert counts[..] == Empty(old(S()), d).counts;
    }

    /** The loop of emptyDb. */
    method EmptyRange(start: nat, end: nat) returns (removed: nat)
      requires start <= end <= |dbs|
      modifies this`dbs
      ensures |dbs| == |old(dbs)| && removed == Sizes(old(dbs), start, end)
      ensures forall i :: 0 <= i < |dbs| ==> dbs[i] == if start <= i < end then map[] else old(dbs)[i]
    {
      removed := 0;
      var j := start;
      while j < end
        invariant start <= j <= end && |dbs| == |old(dbs)| && removed == Sizes(old(dbs), start, j)
        invariant forall i :: 0 <= i < |dbs| ==> dbs[i] == if start <= i < j then map[] else old(dbs)[i]
      {
        removed := removed + |dbs[j]|;
        dbs := dbs[j := map[]];
        j := j + 1;
      }
    }

    /** getKeysInSlot: as many keys of the slot as asked for, or all of them; no key twice. */
    method GetKeysInSlot(slot: nat, count: nat) returns (keys: seq<Str>)
      requires Valid() && slot < SLOTS
      ensures |keys| == if count < counts[slot] then count else counts[slot]
      ensures forall k :: k in keys ==> k in dbs[0] && slotOf(k) == slot
      ensures forall i, j :: 0 <= i < j < |keys| ==> keys[i] != keys[j]
    {
      hide IndexOk;
      keys := [];
      var last, after := Prefix(slot), false;
      LeTotal(last, last);
      while |keys| < count
        invariant Listed(S(), slotOf, slot, keys, last, after)
        invariant |keys| <= count
        decreases count - |keys|
      {
        var e := Seek(index, last, after);
        if e.Some? { EntryLong(S(), slotOf, e.value); }
        if e.None? || e.value[..2] != Prefix(slot) {
          ListedAll(S(), slotOf, slot, keys, last, after, e);
          return;
        }
        ListOne(S(), slotOf, slot, keys, last, after, e.value);
        keys := keys + [e.value[2..]];
        last, after := e.value, true;
      }
      ListedSome(S(), slotOf, slot, keys, last, after);
    }

    /** delKeysInSlot: ends, having removed exactly the slot's keys. */
    method DelKeysInSlot(slot: nat) returns (deleted: nat)
      requires Valid() && slot < SLOTS
      modifies this, counts
      ensures Valid() && deleted == |KeysOf(slotOf, old(dbs[0]), slot)|
      ensures dbs == old(dbs)[0 := old(dbs[0]) - KeysOf(slotOf, old(dbs[0]), slot)]
    {
      hide IndexOk;
      deleted := 0;
      ghost var gone: set<Str> := {};
      SlotCount(S(), slotOf, slot);
      assert old(dbs[0]) - gone == old(dbs[0]);
      while counts[slot] > 0
        invariant Valid() && |dbs| == |old(dbs)| && dbs == old(dbs)[0 := old(dbs[0]) - gone]
        invariant gone <= KeysOf(slotOf, old(dbs[0]), slot) && deleted == |gone|
        invariant counts[slot] == |KeysOf(slotOf, dbs[0], slot)|
        decreases counts[slot]
      {
        var e := Seek(index, Prefix(slot), false);
        FirstIsOfSlot(S(), slotOf, slot, e);
        var k := e.value[2..];
        KeysOfDelete(slotOf, dbs[0], k, slot);
        var removed := DeleteKey(k);
        SlotCount(S(), slotOf, slot);
        assert old(dbs[0]) - gone - {k} == old(dbs[0]) - (gone + {k});
        gone := gone + {k};
        deleted := deleted + 1;
      }
      assert KeysOf(slotOf, dbs[0], slot) == {};
      AllGone(slotOf, old(dbs[0]), dbs[0], gone, slot);
    }
  }

  // ---- facts the loops use ----

  function Sizes(dbs: seq<map<Str, Val>>, lo: nat, hi: nat): nat
    requires lo <= hi <= |dbs|
  {
    if lo == hi then 0 else Sizes(dbs, lo, hi - 1) + |dbs[hi - 1]|
  }

  lemma SlotCount(s: State, slotOf: SlotOf, slot: nat)
    requires Hashes(slotOf) && IndexOk(slotOf, s) && slot < SLOTS
    ensures |s.counts| == SLOTS && s.dbs != [] && s.counts[slot] == |KeysOf(slotOf, s.dbs[0], slot)|
  {
  }

  lemma EntryLong(s: State, slotOf: SlotOf, e: Str)
    requires Hashes(slotOf) && IndexOk(slotOf, s) && e in s.index
    ensures |e| >= 2
  {
  }

  /** The strings of the tree with a slot's prefix are the slot's keys. */
  lemma EntryIsKey(s: State, slotOf: SlotOf, slot: nat, e: Str)
    requires Hashes(slotOf) && IndexOk(slotOf, s) && slot < SLOTS && e in s.index && HasPrefix(e, slot)
    ensures s.dbs != [] && e[2..] in KeysOf(slotOf, s.dbs[0], slot) && e == Indexed(slotOf, e[2..])
  {
    var k :| k in s.dbs[0] && Indexed(slotOf, k) == e;
    IndexedFacts(slotOf, k, slot);
  }

  lemma KeyIsEntry(s: State, slotOf: SlotOf, slot: nat, k: Str)
    requires Hashes(slotOf) && IndexOk(slotOf, s) && slot < SLOTS && k in KeysOf(slotOf, s.dbs[0], slot)
    ensures Indexed(slotOf, k) in s.index && HasPrefix(Indexed(slotOf, k), slot)
    ensures Le(Prefix(slot), Indexed(slotOf, k)) && Indexed(slotOf, k)[2..] == k
  {
    IndexedFacts(slotOf, k, slot);
  }

  /** `keys` are the keys of the slot up to `last`, each once. */
  ghost predicate Listed(s: State, slotOf: SlotOf, slot: nat, keys: seq<Str>, last: Str, after: bool)
    requires Hashes(slotOf) && s.dbs != [] && slot < SLOTS
  {
    && (forall i, j :: 0 <= i < j < |keys| ==> keys[i] != keys[j])
    && Le(Prefix(slot), last) && (after ==> HasPrefix(last, slot)) && (!after ==> keys == [] && last == Prefix(slot))
    && forall k :: k in keys <==> after && k in KeysOf(slotOf, s.dbs[0], slot) && Le(Indexed(slotOf, k), last)
  }

  lemma FirstIsOfSlot(s: State, slotOf: SlotOf, slot: nat, e: Option<Str>)
    requires Hashes(slotOf) && IndexOk(slotOf, s) && slot < SLOTS && s.dbs != [] && KeysOf(slotOf, s.dbs[0], slot) != {}
    requires e.Some? ==> IsNext(s.index, Prefix(slot), false, e.value)
    requires e.None? ==> forall y :: y in s.index ==> !Le(Prefix(slot), y)
    ensures e.Some? && |e.value| >= 2 && e.value[2..] in KeysOf(slotOf, s.dbs[0], slot)
  {
    hide IndexOk, HasPrefix;
    var k :| k in KeysOf(slotOf, s.dbs[0], slot);
    KeyIsEntry(s, slotOf, slot, k);
    Squeeze(slot, e.value, Indexed(slotOf, k));
    EntryIsKey(s, slotOf, slot, e.value);
  }

  lemma ListOne(s: State, slotOf: SlotOf, slot: nat, keys: seq<Str>, last: Str, after: bool, e: Str)
    requires Hashes(slotOf) && IndexOk(slotOf, s) && s.dbs != [] && slot < SLOTS
    requires Listed(s, slotOf, slot, keys, last, after)
    requires IsNext(s.index, last, after, e) && |e| >= 2 && e[..2] == Prefix(slot)
    ensures Listed(s, slotOf, slot, keys + [e[2..]], e, true)
  {
    hide IndexOk;
    EntryIsKey(s, slotOf, slot, e);
    LeTrans(Prefix(slot), last, e);
    NewKey(s, slotOf, slot, keys, last, after, e);
    forall k | k in KeysOf(slotOf, s.dbs[0], slot)
      ensures k in keys + [e[2..]] <==> Le(Indexed(slotOf, k), e)
    {
      ListOneKey(s, slotOf, slot, keys, last, after, e, k);
    }
  }

  lemma NewKey(s: State, slotOf: SlotOf, slot: nat, keys: seq<Str>, last: Str, after: bool, e: Str)
    requires Hashes(slotOf) && s.dbs != [] && slot < SLOTS && Listed(s, slotOf, slot, keys, last, after)
    requires IsNext(s.index, last, after, e) && |e| >= 2 && e == Indexed(slotOf, e[2..])
    ensures e[2..] !in keys
  {
    LeTotal(last, e);
  }

  lemma ListOneKey(s: State, slotOf: SlotOf, slot: nat, keys: seq<Str>, last: Str, after: bool, e: Str, k: Str)
    requires Hashes(slotOf) && IndexOk(slotOf, s) && s.dbs != [] && slot < SLOTS
    requires Listed(s, slotOf, slot, keys, last, after)
    requires IsNext(s.index, last, after, e) && |e| >= 2 && e == Indexed(slotOf, e[2..])
    requires k in KeysOf(slotOf, s.dbs[0], slot)
    ensures k in keys + [e[2..]] <==> Le(Indexed(slotOf, k), e)
  {
    hide IndexOk;
    KeyIsEntry(s, slotOf, slot, k);
    var x := Indexed(slotOf, k);
    LeTotal(x, last);
    LeTotal(x, e);
    LeTotal(e, e);
    if Le(x, last) { LeTrans(x, last, e); }
  }

  lemma ListedAll(s: State, slotOf: SlotOf, slot: nat, keys: seq<Str>, last: Str, after: bool, e: Option<Str>)
    requires Hashes(slotOf) && IndexOk(slotOf, s) && s.dbs != [] && |s.counts| == SLOTS && slot < SLOTS
    requires Listed(s, slotOf, slot, keys, last, after)
    requires e.Some? ==> IsNext(s.index, last, after, e.value) && (|e.value| >= 2 ==> e.value[..2] != Prefix(slot))
    requires e.None? ==> forall y :: y in s.index && Le(last, y) ==> after && y == last
    ensures |keys| == s.counts[slot] && forall k :: k in keys ==> k in s.dbs[0] && slotOf(k) == slot
  {
    hide IndexOk;
    forall k | k in KeysOf(slotOf, s.dbs[0], slot)
      ensures k in keys
    {
      NoneLeft(s, slotOf, slot, keys, last, after, e, k);
    }
    SlotCount(s, slotOf, slot);
    DistinctCount(keys, KeysOf(slotOf, s.dbs[0], slot));
  }

  lemma NoneLeft(s: State, slotOf: SlotOf, slot: nat, keys: seq<Str>, last: Str, after: bool, e: Option<Str>, k: Str)
    requires Hashes(slotOf) && IndexOk(slotOf, s) && s.dbs != [] && slot < SLOTS
    requires Listed(s, slotOf, slot, keys, last, after) && k in KeysOf(slotOf, s.dbs[0], slot)
    requires e.Some? ==> IsNext(s.index, last, after, e.value) && (|e.value| >= 2 ==> e.value[..2] != Prefix(slot))
    requires e.None? ==> forall y :: y in s.index && Le(last, y) ==> after && y == last
    ensures k in keys
  {
    hide IndexOk;
    KeyIsEntry(s, slotOf, slot, k);
    var x := Indexed(slotOf, k);
    LeTotal(x, last);
    if e.Some? {
      LeTrans(Prefix(slot), last, e.value);
      if Le(e.value, x) { Squeeze(slot, e.value, x); }
    }
  }

  lemma ListedSome(s: State, slotOf: SlotOf, slot: nat, keys: seq<Str>, last: Str, after: bool)
    requires Hashes(slotOf) && IndexOk(slotOf, s) && s.dbs != [] && |s.counts| == SLOTS && slot < SLOTS
    requires Listed(s, slotOf, slot, keys, last, after)
    ensures |keys| <= s.counts[slot] && forall k :: k in keys ==> k in s.dbs[0] && slotOf(k) == slot
  {
    SlotCount(s, slotOf, slot);
    hide IndexOk;
    var found := set k | k in keys;
    DistinctCount(keys, found);
    SubsetCount(found, KeysOf(slotOf, s.dbs[0], slot));
  }

  lemma SubsetCount(a: set<Str>, b: set<Str>)
    requires a <= b
    ensures |a| <= |b|
  {
    assert b == a + (b - a);
  }

  lemma {:induction false} DistinctCount(keys: seq<Str>, all: set<Str>)
    requires forall i, j :: 0 <= i < j < |keys| ==> keys[i] != keys[j]
    requires forall k :: k in keys <==> k in all
    ensures |keys| == |all|
  {
    if keys == [] {
      assert all == {};
    } else {
      var k, rest := keys[|keys| - 1], keys[..|keys| - 1];
      assert keys == rest + [k];
      assert k !in rest;
      DistinctCount(rest, all - {k});
    }
  }

  lemma AllGone(slotOf: SlotOf, db: map<Str, Val>, db': map<Str, Val>, gone: set<Str>, slot: nat)
    requires db' == db - gone && gone <= KeysOf(slotOf, db, slot) && KeysOf(slotOf, db', slot) == {}
    ensures gone == KeysOf(slotOf, db, slot)
  {
    forall k | k in KeysOf(slotOf, db, slot)
      ensures k in gone
    {
      assert k !in gone ==> k in KeysOf(slotOf, db', slot);
    }
  }
}
