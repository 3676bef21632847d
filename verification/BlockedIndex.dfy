/** The two-way index of clients and keys, the counters and the queues stay consistent. */
module BlockedIndex {

  import opened Wrappers
  import opened BlockedModel

  ghost predicate NoDup<T>(q: seq<T>) {
    forall i, j :: 0 <= i < j < |q| ==> q[i] != q[j]
  }

  predicate Waits(clients: map<Id, Client>, c: Id, k: Key) {
    c in clients && k in clients[c].keys
  }

  /** The line of a key holds each client that waits for it exactly once, and is not empty. */
  ghost predicate KeyOk(clients: map<Id, Client>, w: map<Key, seq<Id>>, k: Key) {
    && NoDup(Line(w, k)) && (k in w ==> w[k] != [])
    && forall c :: c in Line(w, k) <==> Waits(clients, c, k)
  }

  ghost predicate IndexOk(s: State) {
    forall k :: KeyOk(s.clients, s.waiting, k)
  }

  function BlockedSet(clients: map<Id, Client>): set<Id> {
    set c | c in clients && clients[c].blocked
  }

  function BlockedOf(clients: map<Id, Client>, t: Kind): set<Id> {
    set c | c in clients && clients[c].blocked && clients[c].kind == t
  }

  /** The counters are the numbers of blocked clients, in all and of each kind. */
  ghost predicate CountOk(s: State) {
    s.total == |BlockedSet(s.clients)| && forall t :: Count(s, t) == |BlockedOf(s.clients, t)|
  }

  /** The queue of unblocked clients holds each flagged client exactly once. */
  ghost predicate QueueOk(s: State) {
    NoDup(s.unblocked) && forall c :: c in s.unblocked <==> c in s.clients && s.clients[c].requeued
  }

  /** A client has keys exactly while it is blocked for data. */
  ghost predicate KeysOk(s: State) {
    forall c :: c in s.clients ==>
      (s.clients[c].keys != {} <==> s.clients[c].blocked && WaitsForData(s.clients[c].kind))
  }

  ghost predicate Core(s: State) {
    IndexOk(s) && CountOk(s) && QueueOk(s) && KeysOk(s)
  }

  /** Each ready key is queued once: in `rest`, the list being run, or in the list of new ones. */
  ghost predicate ReadyOk(s: State, rest: seq<Key>) {
    NoDup(rest + s.ready) && forall k :: k in s.readySet <==> k in rest || k in s.ready
  }

  function Elems(keys: seq<Key>): set<Key> {
    set k | k in keys
  }

  lemma ElemsStep(keys: seq<Key>)
    requires keys != []
    ensures Elems(keys) == {keys[0]} + Elems(keys[1..]) && Elems(keys) != {}
  {
    assert keys == [keys[0]] + keys[1..];
    assert keys[0] in Elems(keys);
  }

  // ---- lines ----

  lemma PrependNoDup(x: Id, q: seq<Id>)
    requires NoDup(q) && x !in q
    ensures NoDup([x] + q)
  {
  }

  lemma TailNoDup(q: seq<Id>)
    requires NoDup(q) && q != []
    ensures NoDup(q[1..]) && q[0] !in q[1..] && forall x :: x in q <==> x == q[0] || x in q[1..]
  {
    assert q == [q[0]] + q[1..];
  }

  lemma {:induction false} WithoutFacts(q: seq<Id>, c: Id)
    requires NoDup(q)
    ensures NoDup(Without(q, c)) && forall x :: x in Without(q, c) <==> x in q && x != c
  {
    if q != [] {
      TailNoDup(q);
      hide NoDup;
      if q[0] != c {
        WithoutFacts(q[1..], c);
        PrependNoDup(q[0], Without(q[1..], c));
      }
    }
  }

  lemma AppendNoDup<T>(q: seq<T>, x: T)
    requires NoDup(q) && x !in q
    ensures NoDup(q + [x])
  {
  }

  lemma JoinKeeps(clients: map<Id, Client>, w: map<Key, seq<Id>>, c: Id, k: Key, k': Key)
    requires KeyOk(clients, w, k') && c in clients && k !in clients[c].keys
    ensures KeyOk(clients[c := clients[c].(keys := clients[c].keys + {k})], Join(w, k, c), k')
  {
    if k == k' { AppendNoDup(Line(w, k), c); }
  }

  /** One round of the loop of blockForKeys. */
  function AddKey(s: State, c: Id, k: Key): State
    requires c in s.clients
  {
    var i := s.clients[c];
    if k in i.keys then s else s.(clients := s.clients[c := i.(keys := i.keys + {k})], waiting := Join(s.waiting, k, c))
  }

  lemma AddKeyKeeps(s: State, c: Id, k: Key)
    requires c in s.clients && IndexOk(s)
    ensures var r := AddKey(s, c, k);
      && IndexOk(r)
      && r == s.(clients := s.clients[c := s.clients[c].(keys := s.clients[c].keys + {k})], waiting := r.waiting)
  {
    var r := AddKey(s, c, k);
    if k in s.clients[c].keys {
      assert s.clients[c].keys + {k} == s.clients[c].keys;
      assert s.clients[c := s.clients[c]] == s.clients;
    } else {
      hide KeyOk;
      forall k'
        ensures KeyOk(r.clients, r.waiting, k')
      {
        assert KeyOk(s.clients, s.waiting, k');
        JoinKeeps(s.clients, s.waiting, c, k, k');
      }
    }
  }

  lemma {:induction false} AddKeysKeeps(s: State, c: Id, keys: seq<Key>)
    requires c in s.clients && IndexOk(s)
    ensures var r := AddKeys(s, c, keys);
      && IndexOk(r)
      && r == s.(clients := s.clients[c := s.clients[c].(keys := s.clients[c].keys + Elems(keys))],
        waiting := r.waiting)
    decreases |keys|
  {
    hide IndexOk;
    if keys == [] {
      assert s.clients[c].keys + Elems(keys) == s.clients[c].keys;
      assert s.clients[c := s.clients[c]] == s.clients;
    } else {
      var k, i := keys[0], s.clients[c];
      var s1 := AddKey(s, c, k);
      AddKeyKeeps(s, c, k);
      AddKeysKeeps(s1, c, keys[1..]);
      ElemsStep(keys);
      assert i.keys + Elems(keys) == s1.clients[c].keys + Elems(keys[1..]);
    }
  }

  lemma LeaveAllKeeps(clients: map<Id, Client>, w: map<Key, seq<Id>>, c: Id, k: Key, clients': map<Id, Client>)
    requires KeyOk(clients, w, k) && c in clients && clients'.Keys == clients.Keys
    requires clients'[c].keys == {} && forall x :: x in clients && x != c ==> clients'[x].keys == clients[x].keys
    ensures KeyOk(clients', LeaveAll(w, clients[c].keys, c), k)
  {
    WithoutFacts(Line(w, k), c);
    hide NoDup;
    var w' := LeaveAll(w, clients[c].keys, c);
    assert Line(w', k) == if k in clients[c].keys then Without(Line(w, k), c) else Line(w, k);
  }

  // ---- counters ----

  lemma BlockedChange(clients: map<Id, Client>, c: Id, i: Client)
    requires c in clients
    ensures var b, b' := BlockedSet(clients), BlockedSet(clients[c := i]);
      && (i.blocked && !clients[c].blocked ==> b' == b + {c} && |b'| == |b| + 1)
      && (!i.blocked && clients[c].blocked ==> b' == b - {c} && |b'| == |b| - 1)
      && (i.blocked == clients[c].blocked ==> b' == b)
  {
    var b, b' := BlockedSet(clients), BlockedSet(clients[c := i]);
    if i.blocked && !clients[c].blocked { assert b' == b + {c}; }
    else if !i.blocked && clients[c].blocked { assert b' == b - {c}; }
    else { assert b' == b; }
  }

  lemma OneMore(b: set<Id>, b': set<Id>, c: Id)
    requires c !in b && b' == b + {c}
    ensures |b'| == |b| + 1
  {
  }

  lemma BlockedOfChange(clients: map<Id, Client>, c: Id, i: Client, t: Kind)
    requires c in clients
    ensures var b, b' := BlockedOf(clients, t), BlockedOf(clients[c := i], t);
      var was, now := clients[c].blocked && clients[c].kind == t, i.blocked && i.kind == t;
      && (now && !was ==> |b'| == |b| + 1)
      && (!now && was ==> |b'| == |b| - 1)
      && (now == was ==> b' == b)
  {
    var b, b' := BlockedOf(clients, t), BlockedOf(clients[c := i], t);
    var was, now := clients[c].blocked && clients[c].kind == t, i.blocked && i.kind == t;
    assert forall x :: x != c ==> (x in b' <==> x in b);
    assert c in b <==> was;
    assert c in b' <==> now;
    hide BlockedOf;
    if now && !was { OneMore(b, b', c); } else if !now && was { OneMore(b', b, c); } else { assert b' == b; }
  }

  /** Changing a client without blocking or unblocking it keeps the counters right. */
  lemma SameCounters(s: State, s': State, c: Id)
    requires CountOk(s) && c in s.clients && c in s'.clients && s'.clients == s.clients[c := s'.clients[c]]
    requires s'.clients[c].blocked == s.clients[c].blocked && s'.clients[c].kind == s.clients[c].kind
    requires s'.total == s.total && s'.byKind == s.byKind
    ensures CountOk(s')
  {
    BlockedChange(s.clients, c, s'.clients[c]);
    forall t
      ensures Count(s', t) == |BlockedOf(s'.clients, t)|
    {
      BlockedOfChange(s.clients, c, s'.clients[c], t);
    }
  }

  lemma BlockCounts(s: State, c: Id, t: Kind)
    requires CountOk(s) && c in s.clients && !s.clients[c].blocked
    ensures CountOk(Block(s, c, t))
  {
    var s' := Block(s, c, t);
    BlockedChange(s.clients, c, s'.clients[c]);
    forall u
      ensures Count(s', u) == |BlockedOf(s'.clients, u)|
    {
      BlockedOfChange(s.clients, c, s'.clients[c], u);
    }
  }

  // ---- operations ----

  /** blockForKeys, called for a client that is not blocked, with at least one key. */
  lemma BlockForKeysKeeps(
      s: State, c: Id, t: Kind, keys: seq<Key>, target: Option<Key>, head: bool, after: map<Key, nat>)
    requires Core(s) && c in s.clients && !s.clients[c].blocked && keys != [] && WaitsForData(t)
    ensures var s' := BlockForKeys(s, c, t, keys, target, head, after);
      && Core(s') && s'.clients.Keys == s.clients.Keys
      && s'.clients[c].keys == Elems(keys) && s'.clients[c].blocked && s'.clients[c].kind == t
      && s'.ready == s.ready && s'.readySet == s.readySet
  {
    hide Core, IndexOk, CountOk, AddKeys;
    CoreParts(s);
    var p := s.(clients := s.clients[c := s.clients[c].(target := target, head := head, after := after)]);
    SameKeysIndex(s, p, c);
    SameCounters(s, p, c);
    AddKeysKeeps(p, c, keys);
    var a := AddKeys(p, c, keys);
    SameCounters(p, a, c);
    var s' := BlockForKeys(s, c, t, keys, target, head, after);
    BlockCounts(a, c, t);
    SameKeysIndex(a, s', c);
    ElemsStep(keys);
    BlockedQueues(s, s', c, Elems(keys));
    CoreJoin(s');
  }

  lemma BlockedQueues(s: State, s': State, c: Id, keys: set<Key>)
    requires QueueOk(s) && KeysOk(s) && c in s.clients && !s.clients[c].blocked && keys != {}
    requires c in s'.clients && s'.clients == s.clients[c := s'.clients[c]] && s'.unblocked == s.unblocked
    requires s'.clients[c].requeued == s.clients[c].requeued && s'.clients[c].keys == s.clients[c].keys + keys
    requires s'.clients[c].blocked && WaitsForData(s'.clients[c].kind)
    ensures QueueOk(s') && KeysOk(s') && s'.clients[c].keys == keys
  {
  }

  lemma CoreParts(s: State)
    requires Core(s)
    ensures IndexOk(s) && CountOk(s) && QueueOk(s) && KeysOk(s)
  {
  }

  lemma CoreJoin(s: State)
    requires IndexOk(s) && CountOk(s) && QueueOk(s) && KeysOk(s)
    ensures Core(s)
  {
  }

  /** A client whose keys do not change leaves the index right. */
  lemma SameKeysIndex(s: State, s': State, c: Id)
    requires IndexOk(s) && c in s.clients && c in s'.clients && s'.clients == s.clients[c := s'.clients[c]]
    requires s'.clients[c].keys == s.clients[c].keys && s'.waiting == s.waiting
    ensures IndexOk(s')
  {
    forall k
      ensures KeyOk(s'.clients, s'.waiting, k)
    {
      assert KeyOk(s.clients, s.waiting, k);
    }
  }

  /** blockClient for a kind that waits for no key. */
  lemma BlockKeeps(s: State, c: Id, t: Kind)
    requires Core(s) && c in s.clients && !s.clients[c].blocked && !WaitsForData(t)
    ensures Core(Block(s, c, t))
  {
    hide IndexOk, CountOk;
    SameKeysIndex(s, Block(s, c, t), c);
    BlockCounts(s, c, t);
  }

  lemma RequeueKeeps(s: State, c: Id)
    requires Core(s) && c in s.clients
    ensures Core(Requeue(s, c))
  {
    hide IndexOk, CountOk;
    SameKeysIndex(s, Requeue(s, c), c);
    SameCounters(s, Requeue(s, c), c);
    if !s.clients[c].requeued { AppendNoDup(s.unblocked, c); }
  }

  /** The state of unblockClient before the client is queued. */
  function Freed(s: State, c: Id): State
    requires c in s.clients
  {
    var i := s.clients[c];
    var data := WaitsForData(i.kind);
    var i' := if data then i.(blocked := false, keys := {}, target := None, after := map[]) else i.(blocked := false);
    s.(clients := s.clients[c := i'],
       waiting := if data then LeaveAll(s.waiting, i.keys, c) else s.waiting,
       total := if s.total > 0 then s.total - 1 else 0,
       byKind := s.byKind[i.kind := if Count(s, i.kind) > 0 then Count(s, i.kind) - 1 else 0])
  }

  lemma FreedCounts(s: State, c: Id)
    requires CountOk(s) && c in s.clients && s.clients[c].blocked
    ensures CountOk(Freed(s, c)) && Freed(s, c).total == s.total - 1
  {
    var s' := Freed(s, c);
    BlockedChange(s.clients, c, s'.clients[c]);
    forall u
      ensures Count(s', u) == |BlockedOf(s'.clients, u)|
    {
      BlockedOfChange(s.clients, c, s'.clients[c], u);
    }
  }

  lemma FreedIndex(s: State, c: Id)
    requires IndexOk(s) && KeysOk(s) && c in s.clients && s.clients[c].blocked
    ensures IndexOk(Freed(s, c))
  {
    var s' := Freed(s, c);
    if WaitsForData(s.clients[c].kind) {
      forall k
        ensures KeyOk(s'.clients, s'.waiting, k)
      {
        assert KeyOk(s.clients, s.waiting, k);
        LeaveAllKeeps(s.clients, s.waiting, c, k, s'.clients);
      }
    } else {
      SameKeysIndex(s, s', c);
    }
  }

  /** unblockClient, called for a blocked client: one client fewer is blocked. */
  lemma UnblockKeeps(s: State, c: Id)
    requires Core(s) && c in s.clients && s.clients[c].blocked
    ensures var s' := Unblock(s, c);
      && Core(s') && s'.total == s.total - 1 && !s'.clients[c].blocked && s'.clients[c].requeued
      && s'.unblocked == s.unblocked + (if s.clients[c].requeued then [] else [c])
      && s'.ready == s.ready && s'.readySet == s.readySet && s'.data == s.data && s'.replies == s.replies
  {
    hide IndexOk, CountOk, LeaveAll;
    FreedCounts(s, c);
    FreedIndex(s, c);
    RequeueKeeps(Freed(s, c), c);
    assert s.unblocked + [] == s.unblocked;
  }

  /** processUnblockedClients takes the first client from the queue. */
  lemma ReprocessKeeps(s: State)
    requires Core(s)
    ensures var s' := Reprocess(s);
      && Core(s')
      && (s.unblocked != [] ==>
        var c := s.unblocked[0];
        && s'.unblocked == s.unblocked[1..] && s'.clients.Keys == s.clients.Keys && !s'.clients[c].requeued
        && forall x :: x in s.clients && x != c ==> s'.clients[x] == s.clients[x])
  {
    hide IndexOk, CountOk;
    if s.unblocked != [] {
      var c := s.unblocked[0];
      assert s.unblocked == [c] + s.unblocked[1..];
      SameKeysIndex(s, Reprocess(s), c);
      SameCounters(s, Reprocess(s), c);
    }
  }

  /** signalKeyAsReady queues a key once. */
  lemma SignalKeeps(s: State, k: Key, rest: seq<Key>)
    requires Core(s) && ReadyOk(s, rest)
    ensures var s' := Signal(s, k);
      && Core(s') && ReadyOk(s', rest) && s' == s.(ready := s'.ready, readySet := s'.readySet)
      && s'.ready == s.ready + (if k in s.waiting && k !in s.readySet then [k] else [])
  {
    var s' := Signal(s, k);
    hide Core, KeyOk;
    CoreParts(s);
    SameIndex(s, s');
    CoreJoin(s');
    assert s.ready + [] == s.ready;
    if s' != s {
      AppendNoDup(rest + s.ready, k);
      assert rest + s.ready + [k] == rest + s'.ready;
    }
  }

  lemma SameIndex(s: State, s': State)
    requires IndexOk(s) && s'.clients == s.clients && s'.waiting == s.waiting
    ensures IndexOk(s')
  {
    forall k
      ensures KeyOk(s'.clients, s'.waiting, k)
    {
      assert KeyOk(s.clients, s.waiting, k);
    }
  }
}
