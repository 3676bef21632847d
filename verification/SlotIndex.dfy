/** The keyspace in cluster mode: database 0, the radix tree of slot-prefixed keys and the count of
    keys in each slot. */
module SlotIndex {

  const SLOTS: nat := 16384

  type Byte = x: nat | x < 256
  type Str = seq<Byte>
  /** A stored object. */
  datatype Val = Val(id: nat)

  /** The hash slot of a key. */
  type SlotOf = Str -> nat

  // ---- the order of the radix tree ----

  predicate Le(a: Str, b: Str) {
    a == [] || (b != [] && (a[0] < b[0] || (a[0] == b[0] && Le(a[1..], b[1..]))))
  }

  lemma {:induction false} LeTotal(a: Str, b: Str)
    ensures Le(a, b) || Le(b, a)
    ensures Le(a, b) && Le(b, a) ==> a == b
  {
    if a != [] && b != [] {
      LeTotal(a[1..], b[1..]);
      assert a == [a[0]] + a[1..] && b == [b[0]] + b[1..];
    }
  }

  lemma {:induction false} LeTrans(a: Str, b: Str, c: Str)
    requires Le(a, b) && Le(b, c)
    ensures Le(a, c)
  {
    if a != [] && a[0] == b[0] == c[0] { LeTrans(a[1..], b[1..], c[1..]); }
  }

  // ---- slot-prefixed keys ----

  function Prefix(slot: nat): Str
    requires slot < SLOTS
  {
    [(slot / 256) as Byte, (slot % 256) as Byte]
  }

  function Indexed(slotOf: SlotOf, k: Str): Str
    requires slotOf(k) < SLOTS
  {
    Prefix(slotOf(k)) + k
  }

  predicate HasPrefix(x: Str, slot: nat)
    requires slot < SLOTS
  {
    |x| >= 2 && x[..2] == Prefix(slot)
  }

  lemma PrefixUnique(a: nat, b: nat)
    requires a < SLOTS && b < SLOTS && Prefix(a) == Prefix(b)
    ensures a == b
  {
    assert Prefix(a)[0] == Prefix(b)[0] && Prefix(a)[1] == Prefix(b)[1];
  }

  lemma IndexedFacts(slotOf: SlotOf, k: Str, slot: nat)
    requires slotOf(k) < SLOTS && slot < SLOTS
    ensures HasPrefix(Indexed(slotOf, k), slot) <==> slotOf(k) == slot
    ensures Indexed(slotOf, k)[2..] == k && Le(Prefix(slotOf(k)), Indexed(slotOf, k))
  {
    assert Indexed(slotOf, k)[..2] == Prefix(slotOf(k));
    if Prefix(slotOf(k)) == Prefix(slot) { PrefixUnique(slotOf(k), slot); }
    PrefixLe(Prefix(slotOf(k)), k);
  }

  lemma {:induction false} PrefixLe(p: Str, k: Str)
    ensures Le(p, p + k)
  {
    if p != [] {
      PrefixLe(p[1..], k);
      assert (p + k)[1..] == p[1..] + k;
    }
  }

  /** Between a prefix and a string that has it there are only strings that have it. */
  lemma Squeeze(slot: nat, x: Str, y: Str)
    requires slot < SLOTS && HasPrefix(y, slot) && Le(Prefix(slot), x) && Le(x, y)
    ensures HasPrefix(x, slot)
  {
    var p := Prefix(slot);
    assert y[0] == y[..2][0] == p[0] && y[1] == y[..2][1] == p[1];
    assert x != [] && x[0] == p[0];
    assert Le(p[1..], x[1..]) && Le(x[1..], y[1..]);
    assert x[1..] != [] && x[1..][0] == p[1];
    assert x[..2] == [x[0], x[1]];
  }

  // ---- the keyspace ----

  /** `db0` and the other databases; `index` is slots_to_keys, `counts` slots_keys_count. */
  datatype State = State(dbs: seq<map<Str, Val>>, index: set<Str>, counts: seq<nat>)

  ghost predicate Hashes(slotOf: SlotOf) {
    forall k :: slotOf(k) < SLOTS
  }

  function KeysOf(slotOf: SlotOf, db: map<Str, Val>, slot: nat): set<Str> {
    set k | k in db && slotOf(k) == slot
  }

  /** The slot-prefixed keys of a database. */
  ghost function Entries(slotOf: SlotOf, db: map<Str, Val>): set<Str>
    requires Hashes(slotOf)
  {
    set k | k in db :: Indexed(slotOf, k)
  }

  /** The index holds exactly the slot-prefixed keys of database 0, and each counter is exact. */
  ghost predicate IndexOk(slotOf: SlotOf, s: State)
    requires Hashes(slotOf)
  {
    && s.dbs != [] && |s.counts| == SLOTS
    && s.index == Entries(slotOf, s.dbs[0])
    && forall j :: 0 <= j < SLOTS ==> s.counts[j] == |KeysOf(slotOf, s.dbs[0], j)|
  }

  /** dbAdd on database 0, with slotToKeyAdd. */
  function Add(slotOf: SlotOf, s: State, k: Str, v: Val): State
    requires slotOf(k) < |s.counts| <= SLOTS && s.dbs != []
  {
    State(s.dbs[0 := s.dbs[0][k := v]], s.index + {Indexed(slotOf, k)},
          s.counts[slotOf(k) := s.counts[slotOf(k)] + 1])
  }

  /** dbSyncDelete on database 0, with slotToKeyDel. */
  function Delete(slotOf: SlotOf, s: State, k: Str): State
    requires slotOf(k) < |s.counts| <= SLOTS && s.dbs != []
  {
    if k !in s.dbs[0] then s
    else State(s.dbs[0 := s.dbs[0] - {k}], s.index - {Indexed(slotOf, k)},
               s.counts[slotOf(k) := if s.counts[slotOf(k)] > 0 then s.counts[slotOf(k)] - 1 else 0])
  }

  /** emptyDb: one database, or all for -1; the whole index is flushed either way. */
  function Empty(s: State, d: int): State {
    if d < -1 || d >= |s.dbs| then s
    else State(seq(|s.dbs|, j requires 0 <= j < |s.dbs| => if d == -1 || j == d then map[] else s.dbs[j]), {},
      seq(|s.counts|, _ => 0))
  }

  // ---- exactness ----

  lemma KeysOfAdd(slotOf: SlotOf, db: map<Str, Val>, k: Str, v: Val, j: nat)
    requires k !in db
    ensures |KeysOf(slotOf, db[k := v], j)| == |KeysOf(slotOf, db, j)| + if slotOf(k) == j then 1 else 0
  {
    if slotOf(k) == j {
      assert KeysOf(slotOf, db[k := v], j) == KeysOf(slotOf, db, j) + {k};
    } else {
      assert KeysOf(slotOf, db[k := v], j) == KeysOf(slotOf, db, j);
    }
  }

  lemma KeysOfDelete(slotOf: SlotOf, db: map<Str, Val>, k: Str, j: nat)
    requires k in db
    ensures |KeysOf(slotOf, db - {k}, j)| == |KeysOf(slotOf, db, j)| - if slotOf(k) == j then 1 else 0
  {
    assert (db - {k})[k := db[k]] == db;
    KeysOfAdd(slotOf, db - {k}, k, db[k], j);
  }

  lemma IndexedInjective(slotOf: SlotOf, a: Str, b: Str)
    requires Hashes(slotOf) && Indexed(slotOf, a) == Indexed(slotOf, b)
    ensures a == b
  {
    IndexedFacts(slotOf, a, 0);
    IndexedFacts(slotOf, b, 0);
  }

  /** Adding a key that is not there. */
  lemma AddKeeps(slotOf: SlotOf, s: State, k: Str, v: Val)
    requires Hashes(slotOf) && IndexOk(slotOf, s) && k !in s.dbs[0]
    ensures slotOf(k) < SLOTS
    ensures var s' := Add(slotOf, s, k, v);
      IndexOk(slotOf, s') && s'.dbs[0] == s.dbs[0][k := v] && s'.dbs[1..] == s.dbs[1..]
  {
    assert slotOf(k) < SLOTS;
    var s' := Add(slotOf, s, k, v);
    forall j | 0 <= j < SLOTS
      ensures s'.counts[j] == |KeysOf(slotOf, s'.dbs[0], j)|
    {
      KeysOfAdd(slotOf, s.dbs[0], k, v, j);
    }
    IndexAdd(slotOf, s, k, v);
  }

  lemma IndexAdd(slotOf: SlotOf, s: State, k: Str, v: Val)
    requires Hashes(slotOf) && s.dbs != [] && s.index == Entries(slotOf, s.dbs[0])
    ensures s.index + {Indexed(slotOf, k)} == Entries(slotOf, s.dbs[0][k := v])
  {
  }

  lemma IndexDelete(slotOf: SlotOf, s: State, k: Str)
    requires Hashes(slotOf) && s.dbs != [] && s.index == Entries(slotOf, s.dbs[0])
    ensures s.index - {Indexed(slotOf, k)} == Entries(slotOf, s.dbs[0] - {k})
  {
    forall x | x in s.dbs[0] && x != k
      ensures Indexed(slotOf, x) != Indexed(slotOf, k)
    {
      if Indexed(slotOf, x) == Indexed(slotOf, k) { IndexedInjective(slotOf, x, k); }
    }
  }

  lemma DeleteKeeps(slotOf: SlotOf, s: State, k: Str)
    requires Hashes(slotOf) && IndexOk(slotOf, s)
    ensures slotOf(k) < SLOTS
    ensures var s' := Delete(slotOf, s, k);
      IndexOk(slotOf, s') && s'.dbs[0] == s.dbs[0] - {k} && s'.dbs[1..] == s.dbs[1..]
    ensures k in s.dbs[0] ==> s.counts[slotOf(k)] > 0
  {
    assert slotOf(k) < SLOTS;
    var s' := Delete(slotOf, s, k);
    if k in s.dbs[0] {
      KeysOfDelete(slotOf, s.dbs[0], k, slotOf(k));
      forall j | 0 <= j < SLOTS
        ensures s'.counts[j] == |KeysOf(slotOf, s'.dbs[0], j)|
      {
        KeysOfDelete(slotOf, s.dbs[0], k, j);
      }
      IndexDelete(slotOf, s, k);
    }
  }

  /** Flushing keeps the index exact if and only if database 0 is flushed or was empty, or the
      database number is out of range. */
  lemma EmptyKeeps(slotOf: SlotOf, s: State, d: int)
    requires Hashes(slotOf) && IndexOk(slotOf, s)
    ensures IndexOk(slotOf, Empty(s, d)) <==> d <= 0 || d >= |s.dbs| || s.dbs[0] == map[]
    ensures |Empty(s, d).dbs| == |s.dbs| && forall j :: 0 <= j < |s.dbs| ==>
      Empty(s, d).dbs[j] == if d == -1 || j == d then map[] else s.dbs[j]
  {
    var s' := Empty(s, d);
    if -1 <= d < |s.dbs| {
      if d <= 0 || s.dbs[0] == map[] {
        assert s'.dbs[0] == map[];
        forall j | 0 <= j < SLOTS
          ensures s'.counts[j] == |KeysOf(slotOf, s'.dbs[0], j)|
        {
          assert KeysOf(slotOf, map[], j) == {};
        }
      } else {
        assert s'.dbs[0] == s.dbs[0];
        var k :| k in s.dbs[0];
        assert k in s'.dbs[0] && Indexed(slotOf, k) in Entries(slotOf, s'.dbs[0]);
      }
    }
  }

  /** A fresh keyspace of n databases. */
  function Fresh(n: nat): State {
    State(seq(n, _ => map[]), {}, seq(SLOTS, _ => 0))
  }

  lemma FreshOk(slotOf: SlotOf, n: nat)
    requires Hashes(slotOf) && n > 0
    ensures IndexOk(slotOf, Fresh(n))
  {
    var s := Fresh(n);
    forall j | 0 <= j < SLOTS
      ensures s.counts[j] == |KeysOf(slotOf, s.dbs[0], j)|
    {
      assert KeysOf(slotOf, s.dbs[0], j) == {};
    }
  }

  /** A flush that breaks the index: one key in database 0, then the flush of database 1. */
  lemma FlushOtherExample(slotOf: SlotOf, k: Str, v: Val)
    requires Hashes(slotOf)
    ensures slotOf(k) < SLOTS
    ensures var s := Add(slotOf, Fresh(2), k, v);
      IndexOk(slotOf, s) && k in Empty(s, 1).dbs[0] && Empty(s, 1).index == {} && !IndexOk(slotOf, Empty(s, 1))
  {
    hide IndexOk;
    FreshOk(slotOf, 2);
    AddKeeps(slotOf, Fresh(2), k, v);
    EmptyKeeps(slotOf, Add(slotOf, Fresh(2), k, v), 1);
  }

  // ---- whole runs ----

  datatype Op = AddKey(key: Str, val: Val) | DeleteKey(key: Str) | EmptyDb(d: int)

  /** dbAdd is called for a key that is absent; a flush meets the condition of EmptyKeeps. */
  predicate Allowed(s: State, op: Op) {
    match op
    case AddKey(k, _) => s.dbs != [] && k !in s.dbs[0]
    case DeleteKey(_) => true
    case EmptyDb(d) => d <= 0 || d >= |s.dbs| || s.dbs[0] == map[]
  }

  function Apply(slotOf: SlotOf, s: State, op: Op): State
    requires s.dbs != [] && |s.counts| == SLOTS && slotOf(if op.EmptyDb? then [] else op.key) < SLOTS
  {
    match op
    case AddKey(k, v) => Add(slotOf, s, k, v)
    case DeleteKey(k) => Delete(slotOf, s, k)
    case EmptyDb(d) => Empty(s, d)
  }

  ghost predicate IsRun(slotOf: SlotOf, ss: seq<State>, ops: seq<Op>)
    requires Hashes(slotOf)
  {
    && |ss| == |ops| + 1
    && forall i :: 0 <= i < |ops| ==>
         && ss[i].dbs != [] && |ss[i].counts| == SLOTS
         && Allowed(ss[i], ops[i]) && ss[i + 1] == Apply(slotOf, ss[i], ops[i])
  }

  /** Database 0 as a plain map after the first n operations. */
  function PlainAfter(db: map<Str, Val>, ops: seq<Op>, n: nat): map<Str, Val>
    requires n <= |ops|
  {
    if n == 0 then db
    else
      var p := PlainAfter(db, ops, n - 1);
      match ops[n - 1]
      case AddKey(k, v) => p[k := v]
      case DeleteKey(k) => p - {k}
      case EmptyDb(d) => if -1 <= d <= 0 then map[] else p
  }

  /** After any sequence of adds, deletes and flushes the index and all counters are exact, and database 0
      is the plain map after the same operations. */
  lemma {:induction false} RunKeepsIndex(slotOf: SlotOf, ss: seq<State>, ops: seq<Op>, k: nat)
    requires Hashes(slotOf) && IsRun(slotOf, ss, ops) && IndexOk(slotOf, ss[0]) && k < |ss|
    ensures IndexOk(slotOf, ss[k]) && ss[k].dbs[0] == PlainAfter(ss[0].dbs[0], ops, k)
  {
    if k > 0 {
      RunKeepsIndex(slotOf, ss, ops, k - 1);
      hide IndexOk;
      var s, op := ss[k - 1], ops[k - 1];
      match op
      case AddKey(key, v) => AddKeeps(slotOf, s, key, v);
      case DeleteKey(key) => DeleteKeeps(slotOf, s, key);
      case EmptyDb(d) => EmptyKeeps(slotOf, s, d);
    }
  }
}
