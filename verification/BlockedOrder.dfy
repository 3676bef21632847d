/** First come, first in line: clients join lines at the end and keep their order while they wait. */
module BlockedOrder {

  import opened Wrappers
  import opened BlockedModel
  import opened BlockedIndex
  import opened BlockedServe
  import opened BlockedRun

  // ---- lines ----

  /** a stands before b in the line. */
  ghost predicate Before(q: seq<Id>, a: Id, b: Id) {
    exists i, j :: 0 <= i < j < |q| && q[i] == a && q[j] == b
  }

  /** Everyone in q' was in q, and in the same order. */
  ghost predicate Kept(q: seq<Id>, q': seq<Id>) {
    (forall a :: a in q' ==> a in q) && forall a, b :: Before(q', a, b) ==> Before(q, a, b)
  }

  lemma BeforeCons(x: Id, r: seq<Id>, a: Id, b: Id)
    ensures Before([x] + r, a, b) <==> (a == x && b in r) || Before(r, a, b)
  {
    var q := [x] + r;
    if Before(q, a, b) {
      var i, j :| 0 <= i < j < |q| && q[i] == a && q[j] == b;
      assert r[j - 1] == b;
      if i > 0 { assert r[i - 1] == a; }
    }
    if a == x && b in r {
      var j :| 0 <= j < |r| && r[j] == b;
      assert q[0] == a && q[j + 1] == b;
    }
    if Before(r, a, b) {
      var i, j :| 0 <= i < j < |r| && r[i] == a && r[j] == b;
      assert q[i + 1] == a && q[j + 1] == b;
    }
  }

  lemma BeforeSnoc(r: seq<Id>, x: Id, a: Id, b: Id)
    ensures Before(r + [x], a, b) <==> (b == x && a in r) || Before(r, a, b)
  {
    var q := r + [x];
    if Before(q, a, b) {
      var i, j :| 0 <= i < j < |q| && q[i] == a && q[j] == b;
      assert r[i] == a;
      if j < |r| { assert r[j] == b; }
    }
    if b == x && a in r {
      var i :| 0 <= i < |r| && r[i] == a;
      assert q[i] == a && q[|r|] == b;
    }
    if Before(r, a, b) {
      var i, j :| 0 <= i < j < |r| && r[i] == a && r[j] == b;
      assert q[i] == a && q[j] == b;
    }
  }

  lemma KeptRefl(q: seq<Id>)
    ensures Kept(q, q)
  {
  }

  lemma KeptTrans(p: seq<Id>, q: seq<Id>, r: seq<Id>)
    requires Kept(p, q) && Kept(q, r)
    ensures Kept(p, r)
  {
    hide Before;
  }

  lemma {:induction false} WithoutMembers(q: seq<Id>, c: Id, x: Id)
    ensures x in Without(q, c) ==> x in q
    ensures x != c && x in q ==> x in Without(q, c)
  {
    if q != [] {
      assert q == [q[0]] + q[1..];
      if q[0] != c { WithoutMembers(q[1..], c, x); }
    }
  }

  /** A client that leaves the line does not change the order of the others. */
  lemma {:induction false} WithoutKeepsOrder(q: seq<Id>, c: Id, a: Id, b: Id)
    ensures Before(Without(q, c), a, b) ==> Before(q, a, b)
    ensures a != c && b != c && Before(q, a, b) ==> Before(Without(q, c), a, b)
  {
    if q != [] {
      var x, r := q[0], q[1..];
      assert q == [x] + r;
      BeforeCons(x, r, a, b);
      if x != c {
        WithoutKeepsOrder(r, c, a, b);
        WithoutMembers(r, c, b);
        BeforeCons(x, Without(r, c), a, b);
      }
    }
  }

  lemma KeptWithout(q: seq<Id>, c: Id)
    ensures Kept(q, Without(q, c))
  {
    forall a
      ensures a in Without(q, c) ==> a in q
    {
      WithoutMembers(q, c, a);
    }
    forall a, b
      ensures Before(Without(q, c), a, b) ==> Before(q, a, b)
    {
      WithoutKeepsOrder(q, c, a, b);
    }
  }

  // ---- blocking and unblocking ----

  lemma {:induction false} AddKeysLines(s: State, c: Id, keys: seq<Key>, k: Key)
    requires c in s.clients
    ensures Line(AddKeys(s, c, keys).waiting, k)
         == Line(s.waiting, k) + (if k in keys && k !in s.clients[c].keys then [c] else [])
    decreases |keys|
  {
    if keys == [] {
      assert Line(s.waiting, k) + [] == Line(s.waiting, k);
    } else {
      assert keys == [keys[0]] + keys[1..];
      var s' := AddKey(s, c, keys[0]);
      AddKeysLines(s', c, keys[1..], k);
      assert Line(s.waiting, k) + [c] + [] == Line(s.waiting, k) + [c];
    }
  }

  /** A client that blocks goes to the end of the line of each of its keys, once, and to no other line. */
  lemma BlockForKeysLines(
      s: State, c: Id, t: Kind, keys: seq<Key>, target: Option<Key>, head: bool, after: map<Key, nat>, k: Key)
    requires Core(s) && c in s.clients && !s.clients[c].blocked
    ensures var s' := BlockForKeys(s, c, t, keys, target, head, after);
      && Line(s'.waiting, k) == Line(s.waiting, k) + (if k in keys then [c] else [])
      && c in s'.clients && s'.clients[c].target == target && s'.clients[c].head == head && s'.clients[c].after == after
      && s'.data == s.data && s'.replies == s.replies && s'.unblocked == s.unblocked
  {
    hide IndexOk, CountOk, QueueOk, AddKeys;
    var p := s.(clients := s.clients[c := s.clients[c].(target := target, head := head, after := after)]);
    AddKeysLines(p, c, keys, k);
    assert IndexOk(p) by { SameKeysIndex(s, p, c); }
    AddKeysKeeps(p, c, keys);
  }

  /** A client that is unblocked leaves the lines of its keys, and no other line changes. */
  lemma UnblockLines(s: State, c: Id, k: Key)
    requires Core(s) && c in s.clients
    ensures Line(Unblock(s, c).waiting, k)
         == if k in s.clients[c].keys then Without(Line(s.waiting, k), c) else Line(s.waiting, k)
  {
    hide IndexOk, CountOk, QueueOk;
  }

  lemma UnblockKept(s: State, c: Id, k: Key)
    requires Core(s) && c in s.clients
    ensures Kept(Line(s.waiting, k), Line(Unblock(s, c).waiting, k)) && SameKinds(s, Unblock(s, c))
  {
    hide Core, Kept;
    UnblockLines(s, c, k);
    KeptWithout(Line(s.waiting, k), c);
    KeptRefl(Line(s.waiting, k));
    UnblockKinds(s, c);
  }

  ghost predicate SameKinds(s: State, s': State) {
    s'.clients.Keys == s.clients.Keys && forall c :: c in s.clients ==> s'.clients[c].kind == s.clients[c].kind
  }

  lemma UnblockKinds(s: State, c: Id)
    requires c in s.clients
    ensures SameKinds(s, Unblock(s, c))
  {
    hide LeaveAll;
  }

  // ---- serving ----

  /** All clients in the line wait for the same kind of value. */
  ghost predicate Unmixed(s: State, k: Key) {
    forall a, b :: a in Line(s.waiting, k) && b in Line(s.waiting, k) && a in s.clients && b in s.clients ==>
      s.clients[a].kind == s.clients[b].kind
  }

  /** From s to s' the line of k kept its order, and no client changed its kind. */
  ghost predicate Orderly(s: State, s': State, k: Key) {
    Kept(Line(s.waiting, k), Line(s'.waiting, k)) && SameKinds(s, s')
  }

  lemma OrderlyTrans(s: State, s1: State, s2: State, k: Key)
    requires Orderly(s, s1, k) && Orderly(s1, s2, k)
    ensures Orderly(s, s2, k)
  {
    hide Kept;
    KeptTrans(Line(s.waiting, k), Line(s1.waiting, k), Line(s2.waiting, k));
  }

  lemma OrderlySame(s: State, s': State, k: Key)
    requires s'.waiting == s.waiting && s'.clients == s.clients
    ensures Orderly(s, s', k)
  {
    KeptRefl(Line(s.waiting, k));
  }

  lemma OrderlyUnmixed(s: State, s': State, k: Key)
    requires Orderly(s, s', k) && Unmixed(s, k)
    ensures Unmixed(s', k)
  {
  }

  lemma ServeOneOrderly(s: State, K: Key, rest: seq<Key>, k: Key)
    requires Good(s, rest) && K in s.waiting && IsList(s, K)
    requires HasWaiter(s, K) && (k != K || s.clients[s.waiting[K][0]].kind.OnList?)
    ensures Orderly(s, ServeOne(s, K), k)
  {
    hide Core, ReadyOk, Unblock, Serve, Orderly;
    var c := s.waiting[K][0];
    if !s.clients[c].kind.OnList? {
      RotateElsewhere(s, K, k);
    } else if s.data[K].items == [] {
      OrderlySame(s, s, k);
    } else {
      var (e, items) := Pop(s.data[K].items, s.clients[c].head);
      var p := s.(data := s.data[K := ListValue(items)]);
      DataKeeps(s, p.data, s.replies, rest);
      UnblockOrderly(s, p, c, k);
      UnblockFirst(p, K, rest);
      ServeKeeps(Unblock(p, c), K, c, s.clients[c].target, e, s.clients[c].head, rest);
      OrderlySame(Unblock(p, c), ServeOne(s, K), k);
      OrderlyTrans(s, Unblock(p, c), ServeOne(s, K), k);
    }
  }

  lemma UnblockOrderly(s: State, p: State, c: Id, k: Key)
    requires Core(p) && c in p.clients && p.waiting == s.waiting && p.clients == s.clients
    ensures Orderly(s, Unblock(p, c), k)
  {
    hide Core, Kept;
    UnblockKept(p, c, k);
  }

  lemma RotateElsewhere(s: State, K: Key, k: Key)
    requires k != K && K in s.waiting && s.waiting[K] != []
    ensures Orderly(s, Rotate(s, K), k)
  {
    KeptRefl(Line(s.waiting, k));
  }

  /** Serving K: the line of another key, or a line of K that waits for lists only, keeps its order. */
  lemma {:induction false} ServeListOrderly(s: State, K: Key, n: nat, rest: seq<Key>, k: Key)
    requires Good(s, rest) && IsList(s, K) && n <= |Line(s.waiting, K)|
    requires k == K ==> forall c :: c in Line(s.waiting, K) ==> c in s.clients && s.clients[c].kind.OnList?
    ensures Orderly(s, ServeList(s, K, n), k)
    decreases n
  {
    hide Good, ServeOne, Orderly;
    OrderlySame(s, s, k);
    if n > 0 {
      ServeOneKeeps(s, K, rest);
      var s1 := ServeOne(s, K);
      assert s.waiting[K][0] in Line(s.waiting, K);
      ServeOneOrderly(s, K, rest, k);
      if k == K { StillLists(s, s1, K); }
      ServeListOrderly(s1, K, n - 1, rest, k);
      OrderlyTrans(s, s1, ServeList(s1, K, n - 1), k);
    }
  }

  lemma StillLists(s: State, s1: State, K: Key)
    requires Orderly(s, s1, K)
    requires forall c :: c in Line(s.waiting, K) ==> c in s.clients && s.clients[c].kind.OnList?
    ensures forall c :: c in Line(s1.waiting, K) ==> c in s1.clients && s1.clients[c].kind.OnList?
  {
    hide Before;
  }

  lemma RotateStep(q: seq<Id>, n: nat)
    requires 0 < n <= |q|
    ensures var r := q[1..] + [q[0]]; r[n - 1..] + r[..n - 1] == q[n..] + q[..n]
  {
    var r := q[1..] + [q[0]];
    assert r[n - 1..] == q[n..] + [q[0]] && r[..n - 1] == q[1..n];
    assert q[..n] == [q[0]] + q[1..n];
  }

  /** A line nobody of which waits for a list goes round once. */
  lemma {:induction false} ServeListNone(s: State, k: Key, n: nat)
    requires IsList(s, k) && n <= |Line(s.waiting, k)|
    requires forall c :: c in Line(s.waiting, k) ==> c in s.clients && !s.clients[c].kind.OnList?
    ensures var q, s' := Line(s.waiting, k), ServeList(s, k, n);
      Line(s'.waiting, k) == q[n..] + q[..n] && s'.clients == s.clients
    decreases n
  {
    var q := Line(s.waiting, k);
    if n == 0 {
      assert q[0..] + q[..0] == q;
    } else {
      var s1 := Rotate(s, k);
      assert q[0] in q;
      assert ServeOne(s, k) == s1;
      assert forall c :: c in Line(s1.waiting, k) ==> c in q;
      ServeListNone(s1, k, n - 1);
      RotateStep(q, n);
    }
  }

  lemma HandleListOrderly(s: State, K: Key, rest: seq<Key>, k: Key)
    requires Good(s, rest) && IsList(s, K) && Unmixed(s, k)
    ensures Orderly(s, HandleList(s, K), k)
  {
    hide Good, ServeList, Orderly;
    var q := Line(s.waiting, K);
    var r := ServeList(s, K, |q|);
    if k == K && exists c :: c in q && c in s.clients && !s.clients[c].kind.OnList? {
      LineMembers(s, K, rest);
      ServeListNone(s, K, |q|);
      assert q[|q|..] + q[..|q|] == q;
      OrderlyLine(s, r, k);
    } else {
      if k == K { LineMembers(s, K, rest); }
      ServeListOrderly(s, K, |q|, rest, k);
    }
    OrderlySame(r, HandleList(s, K), k);
    OrderlyTrans(s, r, HandleList(s, K), k);
  }

  lemma OrderlyLine(s: State, s': State, k: Key)
    requires Line(s'.waiting, k) == Line(s.waiting, k) && s'.clients == s.clients
    ensures Orderly(s, s', k)
  {
    KeptRefl(Line(s.waiting, k));
  }

  lemma LineMembers(s: State, k: Key, rest: seq<Key>)
    requires Good(s, rest)
    ensures forall c :: c in Line(s.waiting, k) ==> c in s.clients
  {
    CoreParts(s);
    assert KeyOk(s.clients, s.waiting, k);
  }

  lemma ServeZOneOrderly(s: State, K: Key, card: nat, rest: seq<Key>, k: Key)
    requires Good(s, rest) && K in s.waiting && card > 0
    requires HasWaiter(s, K) && (k != K || s.clients[s.waiting[K][0]].kind.OnZSet?)
    ensures Orderly(s, ServeZOne(s, K, card), k)
  {
    hide Core, ReadyOk, Unblock, Orderly;
    var c := s.waiting[K][0];
    if !s.clients[c].kind.OnZSet? {
      RotateElsewhere(s, K, k);
    } else {
      UnblockOrderly(s, s, c, k);
      OrderlySame(Unblock(s, c), ServeZOne(s, K, card), k);
      OrderlyTrans(s, Unblock(s, c), ServeZOne(s, K, card), k);
    }
  }

  lemma StillZSets(s: State, s1: State, K: Key)
    requires Orderly(s, s1, K)
    requires forall c :: c in Line(s.waiting, K) ==> c in s.clients && s.clients[c].kind.OnZSet?
    ensures forall c :: c in Line(s1.waiting, K) ==> c in s1.clients && s1.clients[c].kind.OnZSet?
  {
    hide Before;
  }

  lemma {:induction false} ServeZSetOrderly(s: State, K: Key, n: nat, card: nat, rest: seq<Key>, k: Key)
    requires Good(s, rest) && n <= |Line(s.waiting, K)|
    requires k == K ==> forall c :: c in Line(s.waiting, K) ==> c in s.clients && s.clients[c].kind.OnZSet?
    ensures Orderly(s, ServeZSet(s, K, n, card), k)
    decreases n
  {
    hide Good, ServeZOne, Orderly;
    OrderlySame(s, s, k);
    if n > 0 && card > 0 {
      ServeZOneKeeps(s, K, card, rest);
      var s1 := ServeZOne(s, K, card);
      assert s.waiting[K][0] in Line(s.waiting, K);
      ServeZOneOrderly(s, K, card, rest, k);
      if k == K { StillZSets(s, s1, K); }
      var left := if s.clients[s.waiting[K][0]].kind.OnZSet? then card - 1 else card;
      ServeZSetOrderly(s1, K, n - 1, left, rest, k);
      OrderlyTrans(s, s1, ServeZSet(s1, K, n - 1, left), k);
    }
  }

  lemma {:induction false} ServeZSetNone(s: State, k: Key, n: nat, card: nat)
    requires n <= |Line(s.waiting, k)| && card > 0
    requires forall c :: c in Line(s.waiting, k) ==> c in s.clients && !s.clients[c].kind.OnZSet?
    ensures var q, s' := Line(s.waiting, k), ServeZSet(s, k, n, card);
      Line(s'.waiting, k) == q[n..] + q[..n] && s'.clients == s.clients
    decreases n
  {
    var q := Line(s.waiting, k);
    if n == 0 {
      assert q[0..] + q[..0] == q;
    } else {
      var s1 := Rotate(s, k);
      assert q[0] in q;
      assert ServeZOne(s, k, card) == s1;
      assert forall c :: c in Line(s1.waiting, k) ==> c in q;
      ServeZSetNone(s1, k, n - 1, card);
      RotateStep(q, n);
    }
  }

  lemma HandleZSetOrderly(s: State, K: Key, card: nat, rest: seq<Key>, k: Key)
    requires Good(s, rest) && Unmixed(s, k)
    ensures Orderly(s, ServeZSet(s, K, |Line(s.waiting, K)|, card), k)
  {
    hide Good, ServeZSet, Orderly;
    var q := Line(s.waiting, K);
    if k == K && card > 0 && exists c :: c in q && c in s.clients && !s.clients[c].kind.OnZSet? {
      LineMembers(s, K, rest);
      ServeZSetNone(s, K, |q|, card);
      assert q[|q|..] + q[..|q|] == q;
      OrderlyLine(s, ServeZSet(s, K, |q|, card), k);
    } else if card == 0 {
      NoneToServe(s, K, |q|);
      OrderlySame(s, s, k);
    } else {
      if k == K { LineMembers(s, K, rest); }
      ServeZSetOrderly(s, K, |q|, card, rest, k);
    }
  }

  lemma NoneToServe(s: State, K: Key, n: nat)
    ensures ServeZSet(s, K, n, 0) == s
  {
  }

  lemma {:induction false} ServeStreamOrderly(s: State, K: Key, last: nat, line: seq<Id>, rest: seq<Key>, k: Key)
    requires Good(s, rest) && StillWaiting(s, K, line)
    ensures Orderly(s, ServeStream(s, K, last, line), k)
    decreases |line|
  {
    hide Good, Unblock, Orderly;
    OrderlySame(s, s, k);
    if line != [] {
      var c := line[0];
      if Due(s.clients, K, last, c) {
        var p := s.(replies := s.replies + [Entries(c, K, s.clients[c].after[K])]);
        UnblockDue(s, K, c, line, p.replies, rest);
        assert Core(p) by { DataKeeps(s, s.data, p.replies, rest); GoodCore(p, rest); }
        UnblockOrderly(s, p, c, k);
        ServeStreamOrderly(Unblock(p, c), K, last, line[1..], rest, k);
        OrderlyTrans(s, Unblock(p, c), ServeStream(Unblock(p, c), K, last, line[1..]), k);
      } else {
        TailWaits(s, K, line);
        ServeStreamOrderly(s, K, last, line[1..], rest, k);
      }
    }
  }

  lemma GoodCore(s: State, rest: seq<Key>)
    requires Good(s, rest)
    ensures Core(s)
  {
  }

  lemma HandleKeyOrderly(s: State, K: Key, rest: seq<Key>, k: Key)
    requires Good(s, [K] + rest) && Unmixed(s, k)
    ensures Orderly(s, HandleKey(s, K), k)
  {
    hide Good, HandleList, ServeZSet, ServeStream, Orderly;
    TakeReady(s, K, rest);
    var p := s.(readySet := s.readySet - {K});
    OrderlySame(s, p, k);
    assert Unmixed(p, k) by { OrderlyUnmixed(s, p, k); }
    if K in p.data {
      match p.data[K]
      case ListValue(_) => HandleListOrderly(p, K, rest, k);
      case ZSetValue(card) => HandleZSetOrderly(p, K, card, rest, k);
      case StreamValue(last) =>
        assert StillWaiting(p, K, Line(p.waiting, K)) by { GoodCore(p, rest); LineWaits(p, K); }
        ServeStreamOrderly(p, K, last, Line(p.waiting, K), rest, k);
      case OtherValue => OrderlySame(p, p, k);
    } else {
      OrderlySame(p, p, k);
    }
    OrderlyTrans(s, p, HandleKey(s, K), k);
  }

  lemma {:induction false} HandleKeysOrderly(s: State, l: seq<Key>, k: Key)
    requires Good(s, l) && Unmixed(s, k)
    ensures Orderly(s, HandleKeys(s, l), k)
    decreases |l|
  {
    hide Good, HandleKey, Orderly;
    if l == [] {
      OrderlySame(s, s, k);
    } else {
      assert l == [l[0]] + l[1..];
      HandleKeyKeeps(s, l[0], l[1..]);
      HandleKeyOrderly(s, l[0], l[1..], k);
      var s1 := HandleKey(s, l[0]);
      OrderlyUnmixed(s, s1, k);
      HandleKeysOrderly(s1, l[1..], k);
      OrderlyTrans(s, s1, HandleKeys(s1, l[1..]), k);
    }
  }

  /** Serving all ready keys keeps the order of every line that waits for one kind of value. */
  lemma {:induction false} HandleAllOrderly(s: State, k: Key)
    requires Good(s, []) && Unmixed(s, k)
    ensures Orderly(s, HandleAll(s), k)
    decreases s.total, |s.ready|
  {
    hide Good, HandleKeys, Orderly;
    OrderlySame(s, s, k);
    if s.ready != [] {
      var p := s.(ready := []);
      StartRound(s);
      HandleKeysKeeps(p, s.ready);
      OrderlySame(s, p, k);
      OrderlyUnmixed(s, p, k);
      HandleKeysOrderly(p, s.ready, k);
      var r := HandleKeys(p, s.ready);
      OrderlyTrans(s, p, r, k);
      OrderlyUnmixed(s, r, k);
      HandleAllOrderly(r, k);
      OrderlyTrans(s, r, HandleAll(r), k);
    }
  }

  // ---- whole runs ----

  /** When a client blocked last, among the first n operations. */
  function Arrived(ops: seq<Op>, n: nat, c: Id): int
    requires n <= |ops|
  {
    if n == 0 then -1
    else if ops[n - 1].BlockOnKeys? && ops[n - 1].c == c then n - 1
    else Arrived(ops, n - 1, c)
  }

  lemma {:induction false} ArrivedBefore(ops: seq<Op>, n: nat, c: Id)
    requires n <= |ops|
    ensures Arrived(ops, n, c) < n
  {
    if n > 0 { ArrivedBefore(ops, n - 1, c); }
  }

  /** Of two clients in the line, the one that blocked first stands first. */
  ghost predicate InArrivalOrder(s: State, k: Key, ops: seq<Op>, n: nat)
    requires n <= |ops|
  {
    forall a, b :: Before(Line(s.waiting, k), a, b) ==> Arrived(ops, n, a) < Arrived(ops, n, b)
  }

  lemma NextKept(s: State, op: Op, k: Key)
    requires Good(s, []) && Enabled(s, op) && Unmixed(s, k) && !op.BlockOnKeys?
    ensures Kept(Line(s.waiting, k), Line(Next(s, op).waiting, k))
  {
    hide Core, Unblock, HandleAll, Signal, Kept, Put;
    KeptRefl(Line(s.waiting, k));
    match op
    case UnblockClient(c) => UnblockKept(s, c, k);
    case Disconnect(c) => if s.clients[c].blocked { UnblockKept(s, c, k); }
    case HandleReady => HandleAllOrderly(s, k);
    case SignalReady(x) => SignalKeeps(s, x, []);
    case Write(x, v) => PutKeeps(s, x, v);
    case _ =>
  }

  lemma BlockInOrder(s: State, ops: seq<Op>, n: nat, k: Key)
    requires n < |ops| && ops[n].BlockOnKeys? && Good(s, []) && Enabled(s, ops[n]) && InArrivalOrder(s, k, ops, n)
    ensures InArrivalOrder(Next(s, ops[n]), k, ops, n + 1)
  {
    hide Core, BlockForKeys, Before;
    match ops[n]
    case BlockOnKeys(c, kind, keys, target, head, after) =>
      BlockForKeysLines(s, c, kind, keys, target, head, after, k);
      var q, q' := Line(s.waiting, k), Line(Next(s, ops[n]).waiting, k);
      NotInLine(s, c, k);
      assert q + [] == q;
      forall a, b | Before(q', a, b)
        ensures Arrived(ops, n + 1, a) < Arrived(ops, n + 1, b)
      {
        BeforeSnoc(q, c, a, b);
        ArrivedBefore(ops, n, a);
        if Before(q, a, b) { BeforeMembers(q, a, b); }
      }
  }

  lemma BeforeMembers(q: seq<Id>, a: Id, b: Id)
    requires Before(q, a, b)
    ensures a in q && b in q
  {
  }

  lemma NotInLine(s: State, c: Id, k: Key)
    requires Core(s) && c in s.clients && !s.clients[c].blocked
    ensures c !in Line(s.waiting, k)
  {
    assert KeyOk(s.clients, s.waiting, k);
  }

  /** In every run from an empty server, the line of a key that only ever one kind of clients waits for at
      a time is in the order in which the clients blocked. */
  lemma {:induction false} FirstComeFirst(ss: seq<State>, ops: seq<Op>, n: nat, k: Key)
    requires Runs(ss, ops) && n < |ss| && ss[0] == State(map[], map[], 0, map[], [], [], {}, map[], [])
    requires forall i :: 0 <= i < |ss| ==> Unmixed(ss[i], k)
    ensures InArrivalOrder(ss[n], k, ops, n)
  {
    hide Good, Next, Enabled, Unmixed, Before, Kept;
    EmptyIsGood();
    if n == 0 {
      NobodyBefore(ss[0], k);
    } else {
      FirstComeFirst(ss, ops, n - 1, k);
      RunKeeps(ss, ops, n - 1);
      var s, op := ss[n - 1], ops[n - 1];
      assert Steps(s, op, ss[n - 1 + 1]);
      if op.BlockOnKeys? {
        BlockInOrder(s, ops, n - 1, k);
      } else {
        NextKept(s, op, k);
        StillInOrder(s, ss[n], k, ops, n - 1);
      }
    }
  }

  lemma NobodyBefore(s: State, k: Key)
    requires s.waiting == map[]
    ensures forall a, b :: !Before(Line(s.waiting, k), a, b)
  {
  }

  lemma StillInOrder(s: State, s': State, k: Key, ops: seq<Op>, n: nat)
    requires n < |ops| && InArrivalOrder(s, k, ops, n) && Kept(Line(s.waiting, k), Line(s'.waiting, k))
    requires !ops[n].BlockOnKeys?
    ensures InArrivalOrder(s', k, ops, n + 1)
  {
    hide Before;
  }
}
