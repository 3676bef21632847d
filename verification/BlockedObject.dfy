/** The blocking state of the server as it is updated in place. */
module BlockedObject {

  import opened Wrappers
  import opened BlockedModel
  import opened BlockedIndex
  import opened BlockedServe

  /** A client that waits for no key. */
  function Waitless(i: Client): Client {
    i.(keys := {}, target := None, after := map[])
  }

  /** listSearchKey and listDelNode: the line without the client. */
  method RemoveClient(q: seq<Id>, c: Id) returns (r: seq<Id>)
    ensures r == Without(q, c)
  {
    var i := 0;
    while i < |q| && q[i] != c
      invariant 0 <= i <= |q| && Without(q, c) == q[..i] + Without(q[i..], c)
    {
      WithoutSkips(q, c, i);
      i := i + 1;
    }
    if i == |q| {
      assert q[i..] == [] && q[..i] + [] == q;
      return q;
    }
    assert q[i..][1..] == q[i + 1..];
    r := q[..i] + q[i + 1..];
  }

  lemma WithoutSkips(q: seq<Id>, c: Id, i: nat)
    requires i < |q| && q[i] != c
    ensures q[..i] + Without(q[i..], c) == q[..i + 1] + Without(q[i + 1..], c)
  {
    assert q[i..][1..] == q[i + 1..];
    assert q[..i] + ([q[i]] + Without(q[i + 1..], c)) == q[..i + 1] + Without(q[i + 1..], c);
  }

  class BlockedServer {

    var clients: map<Id, Client>
    var waiting: map<Key, seq<Id>>
    var total: nat
    var byKind: map<Kind, nat>
    var unblocked: seq<Id>
    var ready: seq<Key>
    var readySet: set<Key>
    var data: map<Key, Value>
    var replies: seq<Reply>

    function S(): State
      reads this
    {
      State(clients, waiting, total, byKind, unblocked, ready, readySet, data, replies)
    }

    constructor ()
      ensures S() == State(map[], map[], 0, map[], [], [], {}, map[], [])
    {
      clients, waiting, total, byKind := map[], map[], 0, map[];
      unblocked, ready, readySet, data, replies := [], [], {}, map[], [];
    }

    /** blockClient */
    method MarkBlocked(c: Id, t: Kind)
      requires c in clients
      modifies this
      ensures S() == Block(old(S()), c, t)
    {
      clients := clients[c := clients[c].(blocked := true, kind := t)];
      total := total + 1;
      byKind := byKind[t := (if t in byKind then byKind[t] else 0) + 1];
    }

    /** blockForKeys */
    method BlockOnKeys(c: Id, t: Kind, keys: seq<Key>, target: Option<Key>, head: bool, after: map<Key, nat>)
      requires c in clients
      modifies this
      ensures S() == BlockForKeys(old(S()), c, t, keys, target, head, after)
    {
      hide AddKeys;
      clients := clients[c := clients[c].(target := target, head := head, after := after)];
      ghost var p := S();
      var j := 0;
      while j < |keys|
        invariant 0 <= j <= |keys| && c in clients && AddKeys(S(), c, keys[j..]) == AddKeys(p, c, keys)
      {
        AddKeysStep(S(), c, keys[j..]);
        var k := keys[j];
        if k !in clients[c].keys {
          clients := clients[c := clients[c].(keys := clients[c].keys + {k})];
          waiting := waiting[k := (if k in waiting then waiting[k] else []) + [c]];
        }
        assert keys[j..][1..] == keys[j + 1..];
        j := j + 1;
      }
      AddNoKeys(S(), c, keys[j..]);
      MarkBlocked(c, t);
    }

    /** unblockClientWaitingData, with its assertions. */
    method StopWaiting(c: Id)
      requires c in clients && IndexOk(S()) && clients[c].keys != {}
      modifies this
      ensures S() == old(S()).(waiting := LeaveAll(old(waiting), old(clients[c].keys), c),
                               clients := old(clients)[c := Waitless(old(clients[c]))])
    {
      var rest := clients[c].keys;
      ghost var done: set<Key> := {};
      LeaveNone(waiting, c, S());
      while rest != {}
        invariant rest !! done && rest + done == old(clients[c].keys)
        invariant waiting == LeaveAll(old(waiting), done, c) && S() == old(S()).(waiting := waiting)
      {
        var k :| k in rest;
        WaiterListed(old(S()), c, k);
        LeaveOne(old(waiting), done, k, c);
        assert k in waiting && c in waiting[k];
        var l := RemoveClient(waiting[k], c);
        if l == [] {
          waiting := waiting - {k};
        } else {
          waiting := waiting[k := l];
        }
        rest, done := rest - {k}, done + {k};
      }
      clients := clients[c := Waitless(clients[c])];
    }

    /** queueClientForReprocessing */
    method QueueForReprocessing(c: Id)
      requires c in clients
      modifies this
      ensures S() == Requeue(old(S()), c)
    {
      if !clients[c].requeued {
        clients := clients[c := clients[c].(requeued := true)];
        unblocked := unblocked + [c];
      }
    }

    /** unblockClient, of a blocked client. */
    method UnblockClient(c: Id)
      requires c in clients && Core(S()) && clients[c].blocked
      modifies this
      ensures S() == Unblock(old(S()), c) && Core(S())
    {
      hide IndexOk, CountOk, QueueOk, LeaveAll, Unblock, Requeue;
      UnblockKeeps(S(), c);
      UnblockIsFreed(S(), c);
      CountersPositive(S(), c);
      if WaitsForData(clients[c].kind) {
        StopWaiting(c);
      }
      CountOut(c);
      assert S() == Freed(old(S()), c);
      QueueForReprocessing(c);
    }

    /** The client is no longer blocked, and the counters say so. */
    method CountOut(c: Id)
      requires c in clients && total > 0 && clients[c].kind in byKind && byKind[clients[c].kind] > 0
      modifies this`total, this`byKind, this`clients
      ensures total == old(total) - 1 && byKind == old(byKind)[old(clients[c].kind) := old(byKind[clients[c].kind]) - 1]
      ensures clients == old(clients)[c := old(clients[c]).(blocked := false)]
    {
      var t := clients[c].kind;
      total := total - 1;
      byKind := byKind[t := byKind[t] - 1];
      clients := clients[c := clients[c].(blocked := false)];
    }

    /** processUnblockedClients, without the commands it processes: each client leaves the queue. */
    method ProcessUnblocked()
      requires Core(S())
      modifies this
      ensures Core(S()) && unblocked == [] && S() == old(S()).(unblocked := [], clients := clients)
      ensures forall c :: c in old(clients) ==> c in clients && clients[c] == old(clients[c]).(requeued := false)
    {
      while unblocked != []
        invariant Core(S()) && S() == old(S()).(unblocked := unblocked, clients := clients)
        invariant forall c :: c in old(clients) ==>
          c in clients && clients[c] == old(clients[c]).(requeued := clients[c].requeued)
        decreases |unblocked|
      {
        ReprocessKeeps(S());
        var c := unblocked[0];
        unblocked := unblocked[1..];
        if c in clients {
          clients := clients[c := clients[c].(requeued := false)];
        }
      }
      forall c | c in old(clients)
        ensures !clients[c].requeued
      {
        assert c !in unblocked;
      }
    }

    /** signalKeyAsReady */
    method SignalKey(k: Key)
      modifies this
      ensures S() == Signal(old(S()), k)
    {
      if k !in waiting || k in readySet {
        return;
      }
      ready := ready + [k];
      readySet := readySet + {k};
    }

    // ---- serving ----

    /** serveClientBlockedOnList, and the undo of the pop by its caller. */
    method ServeClient(k: Key, c: Id, target: Option<Key>, e: Element, head: bool)
      requires IsList(S(), k)
      modifies this
      ensures S() == Serve(old(S()), k, c, target, e, head)
    {
      match target {
        case None =>
          replies := replies + [Reply(c, k, e)];
        case Some(d) =>
          if d in data && !data[d].ListValue? {
            data := data[k := ListValue(Push(data[k].items, e, head))];
          } else {
            replies := replies + [Reply(c, k, e)];
            if d in data {
              data := data[d := ListValue([e] + data[d].items)];
            } else {
              data := data[d := ListValue([e])];
              SignalKey(d);
            }
          }
      }
    }

    /** One waiter of a list key; `more` is false when the list is empty. */
    method ServeListWaiter(k: Key, ghost rest: seq<Key>) returns (more: bool)
      requires Good(S(), rest) && k in waiting && IsList(S(), k)
      modifies this
      ensures HasWaiter(old(S()), k) && S() == ServeOne(old(S()), k)
      ensures more == !(old(clients[waiting[k][0]].kind.OnList? && data[k].items == []))
      ensures Good(S(), rest) && IsList(S(), k) && |Line(waiting, k)| >= |Line(old(waiting), k)| - 1
    {
      hide Core, ReadyOk, Unblock, Serve;
      WaiterBlocked(S(), k);
      ServeOneKeeps(S(), k, rest);
      var c := waiting[k][0];
      var i := clients[c];
      if !i.kind.OnList? {
        waiting := waiting[k := waiting[k][1..] + [c]];
        return true;
      }
      if data[k].items == [] {
        return false;
      }
      var (e, items) := Pop(data[k].items, i.head);
      DataKeeps(S(), data[k := ListValue(items)], replies, rest);
      data := data[k := ListValue(items)];
      ghost var u := Unblock(S(), c);
      UnblockKeeps(S(), c);
      UnblockClient(c);
      ServeClient(k, c, i.target, e, i.head);
      return true;
    }

    /** The waiters of a list key, from the first blocked to the last. */
    method ServeListKey(k: Key, ghost rest: seq<Key>)
      requires Good(S(), rest) && IsList(S(), k)
      modifies this
      ensures S() == HandleList(old(S()), k)
    {
      hide Good, ServeOne;
      var n: nat := if k in waiting then |waiting[k]| else 0;
      var more := true;
      ghost var s0 := S();
      while n > 0 && more
        invariant Good(S(), rest) && IsList(S(), k) && n <= |Line(waiting, k)|
        invariant ServeList(s0, k, |Line(s0.waiting, k)|) == if more then ServeList(S(), k, n) else S()
        decreases n
      {
        ghost var s := S();
        more := ServeListWaiter(k, rest);
        n := n - 1;
        if !more { ServeOneStops(s, k); }
      }
      if data[k].items == [] {
        data := data - {k};
      }
    }

    /** The waiters of a sorted set. */
    method ServeZSetKey(k: Key, card: nat, ghost rest: seq<Key>)
      requires Good(S(), rest)
      modifies this
      ensures S() == ServeZSet(old(S()), k, |Line(old(waiting), k)|, card)
    {
      hide Core, ReadyOk, Unblock;
      var n: nat := if k in waiting then |waiting[k]| else 0;
      var left: nat := card;
      ghost var s0 := S();
      while n > 0 && left > 0
        invariant Good(S(), rest) && n <= |Line(waiting, k)|
        invariant ServeZSet(s0, k, |Line(s0.waiting, k)|, card) == ServeZSet(S(), k, n, left)
        decreases n
      {
        WaiterBlocked(S(), k);
        ServeZOneKeeps(S(), k, left, rest);
        ghost var s := S();
        var c := waiting[k][0];
        if !clients[c].kind.OnZSet? {
          waiting := waiting[k := waiting[k][1..] + [c]];
        } else {
          UnblockKeeps(S(), c);
          var min := clients[c].head;
          UnblockClient(c);
          replies := replies + [Scored(c, k, min)];
          data := if left == 1 then data - {k} else data[k := ZSetValue(left - 1)];
          left := left - 1;
        }
        n := n - 1;
        assert S() == ServeZOne(s, k, if s.clients[c].kind.OnZSet? then left + 1 else left);
      }
    }

    /** The waiters of a stream, in order; the client served leaves the line while it is walked. */
    method ServeStreamKey(k: Key, last: nat, ghost rest: seq<Key>)
      requires Good(S(), rest)
      modifies this
      ensures S() == ServeStream(old(S()), k, last, Line(old(waiting), k))
    {
      hide Core, ReadyOk, Unblock;
      var line := if k in waiting then waiting[k] else [];
      ghost var s0 := S();
      assert StillWaiting(S(), k, line) by { LineWaits(S(), k); }
      var i := 0;
      while i < |line|
        invariant 0 <= i <= |line| && Good(S(), rest) && StillWaiting(S(), k, line[i..])
        invariant ServeStream(s0, k, last, line) == ServeStream(S(), k, last, line[i..])
      {
        var c := line[i];
        assert line[i..][0] == c && line[i..][1..] == line[i + 1..];
        assert Waits(clients, c, k);
        if Due(clients, k, last, c) {
          UnblockDue(S(), k, c, line[i..], replies + [Entries(c, k, clients[c].after[k])], rest);
          DataKeeps(S(), data, replies + [Entries(c, k, clients[c].after[k])], rest);
          replies := replies + [Entries(c, k, clients[c].after[k])];
          WaitingIsBlocked(S(), c, k);
          UnblockClient(c);
        } else {
          TailWaits(S(), k, line[i..]);
        }
        i := i + 1;
      }
    }

    /** Serves one key of the list being run. */
    method HandleReadyKey(k: Key, ghost rest: seq<Key>)
      requires Good(S(), [k] + rest)
      modifies this
      ensures S() == HandleKey(old(S()), k) && Good(S(), rest)
    {
      hide Good, HandleList, ServeZSet, ServeStream;
      HandleKeyKeeps(S(), k, rest);
      TakeReady(S(), k, rest);
      readySet := readySet - {k};
      if k in data {
        match data[k] {
          case ListValue(_) => ServeListKey(k, rest);
          case ZSetValue(card) => ServeZSetKey(k, card, rest);
          case StreamValue(last) => ServeStreamKey(k, last, rest);
          case OtherValue =>
        }
      }
    }

    /** handleClientsBlockedOnKeys: runs the ready keys, then those that became ready meanwhile. */
    method HandleClientsBlockedOnKeys()
      requires Good(S(), [])
      modifies this
      ensures S() == HandleAll(old(S())) && ready == [] && Good(S(), [])
    {
      hide Good, HandleKey;
      while ready != []
        invariant Good(S(), []) && HandleAll(S()) == HandleAll(old(S()))
        decreases total, |ready|
      {
        ghost var s := S();
        StartRound(s);
        HandleKeysKeeps(s.(ready := []), s.ready);
        var l := ready;
        ready := [];
        while l != []
          invariant Good(S(), l) && HandleKeys(S(), l) == HandleKeys(s.(ready := []), s.ready)
          decreases |l|
        {
          assert l == [l[0]] + l[1..];
          HandleReadyKey(l[0], l[1..]);
          l := l[1..];
        }
      }
    }
  }

  // ---- facts the loops use ----

  lemma AddKeysStep(s: State, c: Id, keys: seq<Key>)
    requires c in s.clients && keys != []
    ensures AddKeys(s, c, keys) == AddKeys(AddKey(s, c, keys[0]), c, keys[1..])
  {
  }

  lemma AddNoKeys(s: State, c: Id, keys: seq<Key>)
    requires c in s.clients && keys == []
    ensures AddKeys(s, c, keys) == s
  {
  }

  lemma LeaveNone(w: map<Key, seq<Id>>, c: Id, s: State)
    ensures LeaveAll(w, {}, c) == w
  {
  }

  lemma LeaveOne(w: map<Key, seq<Id>>, done: set<Key>, k: Key, c: Id)
    requires k in w && k !in done
    ensures k in LeaveAll(w, done, c) && LeaveAll(w, done, c)[k] == w[k]
    ensures LeaveAll(w, done + {k}, c)
         == if Without(w[k], c) == [] then LeaveAll(w, done, c) - {k} else LeaveAll(w, done, c)[k := Without(w[k], c)]
  {
  }

  lemma WaiterListed(s: State, c: Id, k: Key)
    requires IndexOk(s) && c in s.clients && k in s.clients[c].keys
    ensures k in s.waiting && c in s.waiting[k]
  {
    assert KeyOk(s.clients, s.waiting, k);
    assert Waits(s.clients, c, k);
  }

  lemma CountersPositive(s: State, c: Id)
    requires Core(s) && c in s.clients && s.clients[c].blocked
    ensures s.total > 0 && s.clients[c].kind in s.byKind && s.byKind[s.clients[c].kind] > 0
  {
    hide IndexOk, QueueOk;
    var t := s.clients[c].kind;
    assert c in BlockedSet(s.clients) && c in BlockedOf(s.clients, t);
    assert Count(s, t) == |BlockedOf(s.clients, t)|;
  }

  lemma UnblockIsFreed(s: State, c: Id)
    requires c in s.clients
    ensures Unblock(s, c) == Requeue(Freed(s, c), c)
  {
  }

  lemma ServeOneStops(s: State, k: Key)
    requires HasWaiter(s, k) && IsList(s, k) && s.clients[s.waiting[k][0]].kind.OnList? && s.data[k].items == []
    ensures ServeOne(s, k) == s && forall n: nat :: ServeList(s, k, n) == s
  {
  }

  lemma WaitingIsBlocked(s: State, c: Id, k: Key)
    requires Core(s) && Waits(s.clients, c, k)
    ensures s.clients[c].blocked
  {
    hide IndexOk, CountOk, QueueOk;
  }
}
