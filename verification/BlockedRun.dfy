/** Every run of blocking, unblocking, signalling and serving keeps the index consistent. */
module BlockedRun {

  import opened Wrappers
  import opened BlockedModel
  import opened BlockedIndex
  import opened BlockedServe

  datatype Op =
    | Connect(c: Id)
    | BlockOnKeys(c: Id, kind: Kind, keys: seq<Key>, target: Option<Key>, head: bool, after: map<Key, nat>)
    | BlockOther(c: Id, kind: Kind)
    | UnblockClient(c: Id)
    | ReprocessFirst
    | Write(key: Key, value: Option<Value>)
    | SignalReady(key: Key)
    | HandleReady
    | Disconnect(c: Id)

  /** A command blocks its own client, which is not blocked, on at least one key; only a blocked
      client is unblocked. */
  predicate Enabled(s: State, op: Op) {
    match op
    case Connect(c) => c !in s.clients
    case BlockOnKeys(c, kind, keys, _, _, _) =>
      c in s.clients && !s.clients[c].blocked && keys != [] && WaitsForData(kind)
    case BlockOther(c, kind) => c in s.clients && !s.clients[c].blocked && !WaitsForData(kind)
    case UnblockClient(c) => c in s.clients && s.clients[c].blocked
    case Disconnect(c) => c in s.clients
    case _ => true
  }

  /** The client leaves the queue of unblocked clients and is freed. */
  function Drop(s: State, c: Id): State {
    s.(clients := s.clients - {c}, unblocked := Without(s.unblocked, c))
  }

  /** A key is written or deleted: dbAdd signals a new list or sorted set, and XADD a stream; a value that
      replaces another in place, as by dbOverwrite, is not signalled. */
  function Put(s: State, k: Key, v: Option<Value>): State {
    var p := s.(data := if v.Some? then s.data[k := v.value] else s.data - {k});
    if v.Some? && (v.value.StreamValue? || (k !in s.data && (v.value.ListValue? || v.value.ZSetValue?)))
    then Signal(p, k) else p
  }

  function Next(s: State, op: Op): State
    requires Good(s, []) && Enabled(s, op)
  {
    match op
    case Connect(c) => s.(clients := s.clients[c := Client(false, OnList, {}, None, false, map[], false)])
    case BlockOnKeys(c, kind, keys, target, head, after) => BlockForKeys(s, c, kind, keys, target, head, after)
    case BlockOther(c, kind) => Block(s, c, kind)
    case UnblockClient(c) => Unblock(s, c)
    case ReprocessFirst => Reprocess(s)
    case Write(k, v) => Put(s, k, v)
    case SignalReady(k) => Signal(s, k)
    case HandleReady => HandleAll(s)
    case Disconnect(c) => Drop(if s.clients[c].blocked then Unblock(s, c) else s, c)
  }

  lemma ConnectKeeps(s: State, c: Id)
    requires Good(s, []) && c !in s.clients
    ensures Good(s.(clients := s.clients[c := Client(false, OnList, {}, None, false, map[], false)]), [])
  {
    var s' := s.(clients := s.clients[c := Client(false, OnList, {}, None, false, map[], false)]);
    assert BlockedSet(s'.clients) == BlockedSet(s.clients);
    assert forall t :: BlockedOf(s'.clients, t) == BlockedOf(s.clients, t);
    forall k
      ensures KeyOk(s'.clients, s'.waiting, k)
    {
      assert KeyOk(s.clients, s.waiting, k);
    }
  }

  lemma DropKeeps(s: State, c: Id)
    requires Good(s, []) && c in s.clients && !s.clients[c].blocked
    ensures var s' := Drop(s, c);
      && Good(s', []) && s'.clients.Keys == s.clients.Keys - {c} && s'.waiting == s.waiting
      && forall x :: x in s'.clients ==> s'.clients[x] == s.clients[x]
  {
    var s' := Drop(s, c);
    WithoutFacts(s.unblocked, c);
    assert BlockedSet(s'.clients) == BlockedSet(s.clients);
    assert forall t :: BlockedOf(s'.clients, t) == BlockedOf(s.clients, t);
    hide NoDup;
    forall k
      ensures KeyOk(s'.clients, s'.waiting, k)
    {
      assert KeyOk(s.clients, s.waiting, k);
    }
  }

  lemma PutKeeps(s: State, k: Key, v: Option<Value>)
    requires Good(s, [])
    ensures Good(Put(s, k, v), []) && Put(s, k, v).waiting == s.waiting && Put(s, k, v).clients == s.clients
    ensures Put(s, k, v).data == if v.Some? then s.data[k := v.value] else s.data - {k}
  {
    hide Core, NoDup;
    var data := if v.Some? then s.data[k := v.value] else s.data - {k};
    DataKeeps(s, data, s.replies, []);
    SignalKeeps(s.(data := data), k, []);
  }

  lemma SignalMarks(s: State, k: Key)
    ensures k in s.waiting ==> k in Signal(s, k).readySet
  {
  }

  /** The operation took place. */
  ghost predicate Happened(op: Op, s: State, s': State) {
    match op
    case Connect(c) => c in s'.clients && !s'.clients[c].blocked
    case BlockOnKeys(c, kind, keys, _, _, _) =>
      c in s'.clients && s'.clients[c].blocked && s'.clients[c].kind == kind && s'.clients[c].keys == Elems(keys)
    case BlockOther(c, kind) => c in s'.clients && s'.clients[c].blocked && s'.clients[c].kind == kind
    case UnblockClient(c) => c in s'.clients && !s'.clients[c].blocked
    case ReprocessFirst => s.unblocked != [] ==> s'.unblocked == s.unblocked[1..]
    case Write(k, v) => if v.Some? then k in s'.data && s'.data[k] == v.value else k !in s'.data
    case SignalReady(k) => k in s.waiting ==> k in s'.readySet
    case HandleReady => s'.ready == []
    case Disconnect(c) => c !in s'.clients && s'.clients.Keys == s.clients.Keys - {c}
  }

  lemma NextKeeps(s: State, op: Op)
    requires Good(s, []) && Enabled(s, op)
    ensures Good(Next(s, op), []) && Happened(op, s, Next(s, op))
  {
    hide Core, NoDup, Unblock, BlockForKeys, Signal, HandleAll, Put;
    match op
    case Connect(c) => ConnectKeeps(s, c);
    case BlockOnKeys(c, kind, keys, target, head, after) => BlockForKeysKeeps(s, c, kind, keys, target, head, after);
    case BlockOther(c, kind) => BlockKeeps(s, c, kind);
    case UnblockClient(c) => UnblockKeeps(s, c); UnblockClients(s, c);
    case ReprocessFirst => ReprocessKeeps(s);
    case Write(k, v) => PutKeeps(s, k, v);
    case SignalReady(k) => SignalKeeps(s, k, []); SignalMarks(s, k);
    case HandleReady =>
    case Disconnect(c) =>
      if s.clients[c].blocked {
        UnblockKeeps(s, c);
        UnblockClients(s, c);
        DropKeeps(Unblock(s, c), c);
      } else {
        DropKeeps(s, c);
      }
  }

  /** One step; Next is defined on consistent states, and every step leads to one. */
  ghost predicate Steps(s: State, op: Op, s': State) {
    Good(s, []) ==> Enabled(s, op) && s' == Next(s, op)
  }

  ghost predicate Runs(ss: seq<State>, ops: seq<Op>) {
    |ss| == |ops| + 1 && forall i :: 0 <= i < |ops| ==> Steps(ss[i], ops[i], ss[i + 1])
  }

  lemma {:induction false} RunKeeps(ss: seq<State>, ops: seq<Op>, k: nat)
    requires Runs(ss, ops) && Good(ss[0], []) && k < |ss|
    ensures Good(ss[k], [])
  {
    hide Good, Next, Enabled;
    if k > 0 {
      RunKeeps(ss, ops, k - 1);
      assert Steps(ss[k - 1], ops[k - 1], ss[k - 1 + 1]);
      NextKeeps(ss[k - 1], ops[k - 1]);
    }
  }

  lemma EmptyIsGood()
    ensures Good(State(map[], map[], 0, map[], [], [], {}, map[], []), [])
  {
    var s := State(map[], map[], 0, map[], [], [], {}, map[], []);
    assert BlockedSet(s.clients) == {};
    assert forall t :: BlockedOf(s.clients, t) == {};
  }

  /** In every state of every run from an empty server: a client is in the line of a key exactly once
      if and only if the key is in its own set, no line is empty, the counters are the numbers of
      blocked clients, and the queue of unblocked clients holds each flagged client exactly once. */
  lemma IndexConsistent(ss: seq<State>, ops: seq<Op>, n: nat)
    requires Runs(ss, ops) && n < |ss| && ss[0] == State(map[], map[], 0, map[], [], [], {}, map[], [])
    ensures var s := ss[n];
      && (forall k :: k in s.waiting ==> s.waiting[k] != [])
      && (forall k, c :: Waits(s.clients, c, k) <==> c in Line(s.waiting, k))
      && (forall k :: NoDup(Line(s.waiting, k)))
      && s.total == |BlockedSet(s.clients)| && (forall t :: Count(s, t) == |BlockedOf(s.clients, t)|)
      && NoDup(s.unblocked) && (forall c :: c in s.unblocked <==> c in s.clients && s.clients[c].requeued)
  {
    hide Next, Enabled, Runs, NoDup;
    EmptyIsGood();
    RunKeeps(ss, ops, n);
    var s := ss[n];
    forall k
      ensures k in s.waiting ==> s.waiting[k] != []
      ensures NoDup(Line(s.waiting, k))
    {
      assert KeyOk(s.clients, s.waiting, k);
    }
    forall k, c
      ensures Waits(s.clients, c, k) <==> c in Line(s.waiting, k)
    {
      assert KeyOk(s.clients, s.waiting, k);
    }
  }
}
