/** Clients blocked on keys: who waits where, which keys are ready, and how waiters are served. */
module BlockedModel {

  import opened Wrappers

  type Id = nat
  /** A key together with its database. */
  type Key = nat
  type Element = nat

  datatype Kind = OnList | OnZSet | OnStream | OnReplicas | OnModule

  /** The kinds that wait for data in keys. */
  predicate WaitsForData(t: Kind) {
    t.OnList? || t.OnZSet? || t.OnStream?
  }

  /** `keys` is bpop.keys and `after` the stream IDs kept there, in their order; `target` is the
      destination of a BRPOPLPUSH, `head` whether the client pops the head of the list or the minimum of
      the sorted set; `requeued` is the flag CLIENT_UNBLOCKED. */
  datatype Client = Client(blocked: bool, kind: Kind, keys: set<Key>, target: Option<Key>, head: bool,
                           after: map<Key, nat>, requeued: bool)

  datatype Value = ListValue(items: seq<Element>) | ZSetValue(card: nat) | StreamValue(last: nat) | OtherValue

  /** An element handed to a client, with the key it was popped from; the minimum or maximum of a sorted
      set; or the entries of a stream after an ID. */
  datatype Reply =
    | Reply(client: Id, key: Key, element: Element)
    | Scored(client: Id, key: Key, min: bool)
    | Entries(client: Id, key: Key, after: nat)

  /** `waiting` is blocking_keys; `ready` and `readySet` are the list and the dictionary of ready keys. */
  datatype State = State(clients: map<Id, Client>, waiting: map<Key, seq<Id>>, total: nat, byKind: map<Kind, nat>,
                         unblocked: seq<Id>, ready: seq<Key>, readySet: set<Key>,
                         data: map<Key, Value>, replies: seq<Reply>)

  // ---- waiting lists ----

  function Line(w: map<Key, seq<Id>>, k: Key): seq<Id> {
    if k in w then w[k] else []
  }

  /** The list without the first occurrence of c. */
  function Without(q: seq<Id>, c: Id): seq<Id> {
    if q == [] then [] else if q[0] == c then q[1..] else [q[0]] + Without(q[1..], c)
  }

  function Join(w: map<Key, seq<Id>>, k: Key, c: Id): map<Key, seq<Id>> {
    w[k := Line(w, k) + [c]]
  }

  /** The client leaves the lines of all its keys. */
  function LeaveAll(w: map<Key, seq<Id>>, keys: set<Key>, c: Id): map<Key, seq<Id>> {
    map k | k in w && (k !in keys || Without(w[k], c) != []) :: if k in keys then Without(w[k], c) else w[k]
  }

  // ---- blocking and unblocking ----

  function Count(s: State, t: Kind): nat {
    if t in s.byKind then s.byKind[t] else 0
  }

  /** blockClient */
  function Block(s: State, c: Id, t: Kind): State
    requires c in s.clients
  {
    s.(clients := s.clients[c := s.clients[c].(blocked := true, kind := t)],
       total := s.total + 1, byKind := s.byKind[t := Count(s, t) + 1])
  }

  /** The loop of blockForKeys: a key already in the client's set is skipped. */
  function AddKeys(s: State, c: Id, keys: seq<Key>): (r: State)
    requires c in s.clients
    ensures r.clients.Keys == s.clients.Keys
    decreases |keys|
  {
    if keys == [] then s
    else
      var k := keys[0];
      var i := s.clients[c];
      var s' := if k in i.keys then s
                else s.(clients := s.clients[c := i.(keys := i.keys + {k})], waiting := Join(s.waiting, k, c));
      AddKeys(s', c, keys[1..])
  }

  /** blockForKeys */
  function BlockForKeys(
      s: State, c: Id, t: Kind, keys: seq<Key>, target: Option<Key>, head: bool, after: map<Key, nat>): State
    requires c in s.clients
  {
    var p := s.(clients := s.clients[c := s.clients[c].(target := target, head := head, after := after)]);
    Block(AddKeys(p, c, keys), c, t)
  }

  /** queueClientForReprocessing */
  function Requeue(s: State, c: Id): State
    requires c in s.clients
  {
    if s.clients[c].requeued then s
    else s.(clients := s.clients[c := s.clients[c].(requeued := true)], unblocked := s.unblocked + [c])
  }

  /** unblockClient: leaves the lines, the counters fall, the client is queued for reprocessing. */
  function Unblock(s: State, c: Id): State
    requires c in s.clients
  {
    var i := s.clients[c];
    var data := WaitsForData(i.kind);
    var i' := if data then i.(blocked := false, keys := {}, target := None, after := map[]) else i.(blocked := false);
    Requeue(s.(clients := s.clients[c := i'],
               waiting := if data then LeaveAll(s.waiting, i.keys, c) else s.waiting,
               total := if s.total > 0 then s.total - 1 else 0,
               byKind := s.byKind[i.kind := if Count(s, i.kind) > 0 then Count(s, i.kind) - 1 else 0]), c)
  }

  /** One round of processUnblockedClients. */
  function Reprocess(s: State): State {
    if s.unblocked == [] then s
    else
      var c := s.unblocked[0];
      s.(unblocked := s.unblocked[1..],
         clients := if c in s.clients then s.clients[c := s.clients[c].(requeued := false)] else s.clients)
  }

  /** signalKeyAsReady */
  function Signal(s: State, k: Key): State {
    if k !in s.waiting || k in s.readySet then s
    else s.(ready := s.ready + [k], readySet := s.readySet + {k})
  }
}
