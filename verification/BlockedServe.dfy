/** handleClientsBlockedOnKeys: serves waiters in order and comes to an end, even though serving a
    BRPOPLPUSH can make other keys ready. */
module BlockedServe {

  import opened Wrappers
  import opened BlockedModel
  import opened BlockedIndex

  // ---- serving ----

  /** The element popped from one end, and what remains. */
  function Pop(items: seq<Element>, head: bool): (Element, seq<Element>)
    requires items != []
  {
    if head then (items[0], items[1..]) else (items[|items| - 1], items[..|items| - 1])
  }

  function Push(items: seq<Element>, e: Element, head: bool): seq<Element> {
    if head then [e] + items else items + [e]
  }

  predicate IsList(s: State, k: Key) {
    k in s.data && s.data[k].ListValue?
  }

  /** serveClientBlockedOnList: hands the element to the client, and pushes it to the target if there
      is one; a target of another type undoes the pop. A list created at the target makes it ready. */
  function Serve(s: State, k: Key, c: Id, target: Option<Key>, e: Element, head: bool): State
    requires IsList(s, k)
  {
    var given := s.(replies := s.replies + [Reply(c, k, e)]);
    match target
    case None => given
    case Some(d) =>
      if d !in s.data then Signal(given.(data := s.data[d := ListValue([e])]), d)
      else if s.data[d].ListValue? then given.(data := s.data[d := ListValue([e] + s.data[d].items)])
      else s.(data := s.data[k := ListValue(Push(s.data[k].items, e, head))])
  }

  /** A waiter of another kind goes to the end of the line. */
  function Rotate(s: State, k: Key): State
    requires k in s.waiting && s.waiting[k] != []
  {
    s.(waiting := s.waiting[k := s.waiting[k][1..] + [s.waiting[k][0]]])
  }

  predicate HasWaiter(s: State, k: Key) {
    k in s.waiting && s.waiting[k] != [] && s.waiting[k][0] in s.clients
  }

  /** One round of the loop over the waiters of a list key. */
  function ServeOne(s: State, k: Key): State
    requires HasWaiter(s, k) && IsList(s, k)
  {
    var c := s.waiting[k][0];
    var i := s.clients[c];
    var items := s.data[k].items;
    if !i.kind.OnList? then Rotate(s, k)
    else if items == [] then s
    else
      var (e, rest) := Pop(items, i.head);
      Serve(Unblock(s.(data := s.data[k := ListValue(rest)]), c), k, c, i.target, e, i.head)
  }

  /** The loop over n waiters; it breaks when the list is empty. */
  function ServeList(s: State, k: Key, n: nat): State
    decreases n
  {
    if n == 0 || !HasWaiter(s, k) || !IsList(s, k)
      || (s.clients[s.waiting[k][0]].kind.OnList? && s.data[k].items == []) then s
    else ServeList(ServeOne(s, k), k, n - 1)
  }

  /** One round of the loop over the waiters of a sorted set. */
  function ServeZOne(s: State, k: Key, card: nat): State
    requires HasWaiter(s, k) && card > 0
  {
    var c := s.waiting[k][0];
    if !s.clients[c].kind.OnZSet? then Rotate(s, k)
    else
      var u := Unblock(s, c);
      u.(data := if card == 1 then u.data - {k} else u.data[k := ZSetValue(card - 1)],
         replies := u.replies + [Scored(c, k, s.clients[c].head)])
  }

  function ServeZSet(s: State, k: Key, n: nat, card: nat): State
    decreases n
  {
    if n == 0 || card == 0 || !HasWaiter(s, k) then s
    else ServeZSet(ServeZOne(s, k, card), k, n - 1, if s.clients[s.waiting[k][0]].kind.OnZSet? then card - 1 else card)
  }

  /** The stream has entries after the ID the client waits for. */
  predicate Due(clients: map<Id, Client>, k: Key, last: nat, c: Id) {
    c in clients && clients[c].kind.OnStream? && k in clients[c].after && clients[c].after[k] < last
  }

  /** The loop over the waiters of a stream: it visits the line as it was, and unblocks those due. */
  function ServeStream(s: State, k: Key, last: nat, line: seq<Id>): State
    decreases |line|
  {
    if line == [] then s
    else
      var c := line[0];
      ServeStream(
        if Due(s.clients, k, last, c)
        then Unblock(s.(replies := s.replies + [Entries(c, k, s.clients[c].after[k])]), c) else s, k, last, line[1..])
  }

  function HandleList(s: State, k: Key): State {
    var r := ServeList(s, k, |Line(s.waiting, k)|);
    if IsList(r, k) && r.data[k].items == [] then r.(data := r.data - {k}) else r
  }

  /** Serves one ready key. */
  function HandleKey(s: State, k: Key): State {
    var p := s.(readySet := s.readySet - {k});
    if k !in p.data then p
    else
      match p.data[k]
      case ListValue(_) => HandleList(p, k)
      case ZSetValue(card) => ServeZSet(p, k, |Line(p.waiting, k)|, card)
      case StreamValue(last) => ServeStream(p, k, last, Line(p.waiting, k))
      case OtherValue => p
  }

  function HandleKeys(s: State, l: seq<Key>): State
    decreases |l|
  {
    if l == [] then s else HandleKeys(HandleKey(s, l[0]), l[1..])
  }

  // ---- what serving keeps ----

  /** New ready keys cost a blocked client. */
  ghost predicate Progress(s: State, s': State) {
    s'.total <= s.total && (s'.ready == s.ready || s'.total < s.total)
  }

  ghost predicate Good(s: State, rest: seq<Key>) {
    Core(s) && ReadyOk(s, rest)
  }

  lemma DataKeeps(s: State, data: map<Key, Value>, replies: seq<Reply>, rest: seq<Key>)
    requires Good(s, rest)
    ensures Good(s.(data := data, replies := replies), rest)
  {
    hide NoDup, KeyOk;
    SameIndex(s, s.(data := data, replies := replies));
  }

  /** A client at the head of a line is blocked for data. */
  lemma WaiterBlocked(s: State, k: Key)
    requires Core(s) && k in s.waiting
    ensures HasWaiter(s, k)
    ensures var c := s.waiting[k][0]; s.clients[c].blocked && k in s.clients[c].keys && WaitsForData(s.clients[c].kind)
  {
    hide NoDup;
    assert KeyOk(s.clients, s.waiting, k);
    assert s.waiting[k][0] in Line(s.waiting, k);
  }

  lemma RotateNoDup(q: seq<Id>)
    requires NoDup(q) && q != []
    ensures NoDup(q[1..] + [q[0]]) && forall x :: x in q[1..] + [q[0]] <==> x in q
  {
    TailNoDup(q);
    AppendNoDup(q[1..], q[0]);
  }

  lemma RotateKeeps(s: State, k: Key, rest: seq<Key>)
    requires Good(s, rest) && k in s.waiting && s.waiting[k] != []
    ensures Good(Rotate(s, k), rest) && |Line(Rotate(s, k).waiting, k)| == |Line(s.waiting, k)|
  {
    hide NoDup;
    var s' := Rotate(s, k);
    assert KeyOk(s.clients, s.waiting, k);
    RotateNoDup(s.waiting[k]);
    forall k'
      ensures KeyOk(s'.clients, s'.waiting, k')
    {
      assert KeyOk(s.clients, s.waiting, k');
    }
  }

  /** Unblocking the first waiter of a key moves its line up by one. */
  lemma UnblockFirst(s: State, k: Key, rest: seq<Key>)
    requires Good(s, rest) && k in s.waiting
    ensures HasWaiter(s, k)
    ensures var s' := Unblock(s, s.waiting[k][0]);
      && Good(s', rest) && Line(s'.waiting, k) == s.waiting[k][1..]
      && s'.total < s.total && s'.ready == s.ready && s'.data == s.data && s'.replies == s.replies
  {
    hide NoDup, IndexOk, CountOk, QueueOk, KeysOk;
    WaiterBlocked(s, k);
    UnblockKeeps(s, s.waiting[k][0]);
  }

  lemma ServeKeeps(s: State, k: Key, c: Id, target: Option<Key>, e: Element, head: bool, rest: seq<Key>)
    requires Good(s, rest) && IsList(s, k)
    ensures var s' := Serve(s, k, c, target, e, head);
      && Good(s', rest) && IsList(s', k) && s'.total == s.total && s'.waiting == s.waiting && s'.clients == s.clients
      && (target.None? ==> s' == s.(replies := s.replies + [Reply(c, k, e)]))
  {
    hide Core, ReadyOk;
    var data := if target.None? then s.data
      else if target.value !in s.data then s.data[target.value := ListValue([e])]
      else if s.data[target.value].ListValue? then s.data[target.value := ListValue([e] + s.data[target.value].items)]
      else s.data[k := ListValue(Push(s.data[k].items, e, head))];
    DataKeeps(s, data, s.replies + [Reply(c, k, e)], rest);
    DataKeeps(s, data, s.replies, rest);
    if target.Some? {
      SignalKeeps(s.(data := data, replies := s.replies + [Reply(c, k, e)]), target.value, rest);
    }
  }

  lemma ServeOneKeeps(s: State, k: Key, rest: seq<Key>)
    requires Good(s, rest) && k in s.waiting && IsList(s, k)
    ensures HasWaiter(s, k)
    ensures var s' := ServeOne(s, k);
      Good(s', rest) && IsList(s', k) && Progress(s, s') && |Line(s'.waiting, k)| >= |Line(s.waiting, k)| - 1
  {
    hide Core, ReadyOk, Unblock, Serve;
    WaiterBlocked(s, k);
    var c := s.waiting[k][0];
    RotateKeeps(s, k, rest);
    if s.clients[c].kind.OnList? && s.data[k].items != [] {
      var (e, items) := Pop(s.data[k].items, s.clients[c].head);
      DataKeeps(s, s.data[k := ListValue(items)], s.replies, rest);
      var p := s.(data := s.data[k := ListValue(items)]);
      UnblockFirst(p, k, rest);
      ServeKeeps(Unblock(p, c), k, c, s.clients[c].target, e, s.clients[c].head, rest);
    }
  }

  lemma {:induction false} ServeListKeeps(s: State, k: Key, n: nat, rest: seq<Key>)
    requires Good(s, rest) && IsList(s, k) && n <= |Line(s.waiting, k)|
    ensures var s' := ServeList(s, k, n); Good(s', rest) && IsList(s', k) && Progress(s, s')
    decreases n
  {
    hide Good, ServeOne;
    if n > 0 {
      ServeOneKeeps(s, k, rest);
      ServeListKeeps(ServeOne(s, k), k, n - 1, rest);
    }
  }

  lemma ServeZOneKeeps(s: State, k: Key, card: nat, rest: seq<Key>)
    requires Good(s, rest) && k in s.waiting && card > 0
    ensures HasWaiter(s, k)
    ensures var s' := ServeZOne(s, k, card);
      Good(s', rest) && Progress(s, s') && |Line(s'.waiting, k)| >= |Line(s.waiting, k)| - 1
  {
    hide Core, ReadyOk, Unblock;
    WaiterBlocked(s, k);
    RotateKeeps(s, k, rest);
    UnblockFirst(s, k, rest);
    var c := s.waiting[k][0];
    var u := Unblock(s, c);
    DataKeeps(u, if card == 1 then u.data - {k} else u.data[k := ZSetValue(card - 1)],
      u.replies + [Scored(c, k, s.clients[c].head)], rest);
  }

  lemma {:induction false} ServeZSetKeeps(s: State, k: Key, n: nat, card: nat, rest: seq<Key>)
    requires Good(s, rest) && n <= |Line(s.waiting, k)|
    ensures var s' := ServeZSet(s, k, n, card); Good(s', rest) && Progress(s, s')
    decreases n
  {
    hide Good, ServeZOne;
    if n > 0 && card > 0 {
      ServeZOneKeeps(s, k, card, rest);
      var left := if s.clients[s.waiting[k][0]].kind.OnZSet? then card - 1 else card;
      ServeZSetKeeps(ServeZOne(s, k, card), k, n - 1, left, rest);
    }
  }

  /** The clients still to be visited wait for the key, each once. */
  ghost predicate StillWaiting(s: State, k: Key, line: seq<Id>) {
    NoDup(line) && forall c :: c in line ==> Waits(s.clients, c, k)
  }

  lemma LineWaits(s: State, k: Key)
    requires Core(s)
    ensures StillWaiting(s, k, Line(s.waiting, k))
  {
    assert KeyOk(s.clients, s.waiting, k);
  }

  /** Unblocking one visited client. */
  lemma UnblockDue(s: State, k: Key, c: Id, line: seq<Id>, replies: seq<Reply>, rest: seq<Key>)
    requires Good(s, rest) && StillWaiting(s, k, line) && line != [] && c == line[0]
    ensures c in s.clients
    ensures var s' := Unblock(s.(replies := replies), c);
      && Good(s', rest) && StillWaiting(s', k, line[1..]) && s'.total < s.total && s'.ready == s.ready
      && s'.replies == replies && s'.data == s.data && Line(s'.waiting, k) == Without(Line(s.waiting, k), c)
      && s'.clients.Keys == s.clients.Keys && forall x :: x in s.clients && x != c ==> s'.clients[x] == s.clients[x]
  {
    hide IndexOk, CountOk, QueueOk, LeaveAll, ReadyOk, Unblock;
    assert Waits(s.clients, c, k);
    TailNoDup(line);
    var p := s.(replies := replies);
    DataKeeps(s, s.data, replies, rest);
    UnblockKeeps(p, c);
    UnblockClients(p, c);
    forall x | x in s.clients && x != c
      ensures Unblock(p, c).clients[x] == s.clients[x]
    {
      UnblockOthers(p, c, x);
    }
    UnblockLine(p, c, k);
    ReadySame(s, Unblock(p, c), rest);
  }

  lemma ReadySame(s: State, s': State, rest: seq<Key>)
    requires ReadyOk(s, rest) && s'.ready == s.ready && s'.readySet == s.readySet
    ensures ReadyOk(s', rest)
  {
  }

  lemma UnblockLine(s: State, c: Id, k: Key)
    requires Core(s) && Waits(s.clients, c, k)
    ensures Line(Unblock(s, c).waiting, k) == Without(Line(s.waiting, k), c)
  {
    hide NoDup, IndexOk, CountOk, QueueOk;
  }

  lemma {:induction false} ServeStreamKeeps(s: State, k: Key, last: nat, line: seq<Id>, rest: seq<Key>)
    requires Good(s, rest) && StillWaiting(s, k, line)
    ensures var s' := ServeStream(s, k, last, line); Good(s', rest) && Progress(s, s')
    decreases |line|
  {
    hide Good, Unblock;
    if line != [] {
      var c := line[0];
      if Due(s.clients, k, last, c) {
        var replies := s.replies + [Entries(c, k, s.clients[c].after[k])];
        UnblockDue(s, k, c, line, replies, rest);
        ServeStreamKeeps(Unblock(s.(replies := replies), c), k, last, line[1..], rest);
      } else {
        TailWaits(s, k, line);
        ServeStreamKeeps(s, k, last, line[1..], rest);
      }
    }
  }

  lemma TailWaits(s: State, k: Key, line: seq<Id>)
    requires StillWaiting(s, k, line) && line != []
    ensures StillWaiting(s, k, line[1..])
  {
    TailNoDup(line);
  }

  lemma TakeReady(s: State, k: Key, rest: seq<Key>)
    requires Good(s, [k] + rest)
    ensures Good(s.(readySet := s.readySet - {k}), rest)
  {
    hide KeyOk;
    var p := s.(readySet := s.readySet - {k});
    SameIndex(s, p);
    var q := [k] + rest + s.ready;
    assert q == [k] + (rest + s.ready) == [k] + rest + s.ready;
    TailNoDup(q);
    assert q[1..] == rest + s.ready;
  }

  lemma HandleKeyKeeps(s: State, k: Key, rest: seq<Key>)
    requires Good(s, [k] + rest)
    ensures Good(HandleKey(s, k), rest) && Progress(s, HandleKey(s, k))
  {
    hide Core, ReadyOk, ServeList, ServeZSet, ServeStream;
    TakeReady(s, k, rest);
    var p := s.(readySet := s.readySet - {k});
    if k in p.data {
      match p.data[k]
      case ListValue(_) =>
        ServeListKeeps(p, k, |Line(p.waiting, k)|, rest);
        var r := ServeList(p, k, |Line(p.waiting, k)|);
        DataKeeps(r, r.data - {k}, r.replies, rest);
      case ZSetValue(card) => ServeZSetKeeps(p, k, |Line(p.waiting, k)|, card, rest);
      case StreamValue(last) =>
        assert StillWaiting(p, k, Line(p.waiting, k)) by { LineWaits(p, k); }
        ServeStreamKeeps(p, k, last, Line(p.waiting, k), rest);
      case OtherValue =>
    }
  }

  lemma {:induction false} HandleKeysKeeps(s: State, l: seq<Key>)
    requires Good(s, l)
    ensures Good(HandleKeys(s, l), []) && Progress(s, HandleKeys(s, l))
    decreases |l|
  {
    hide Good, HandleKey;
    if l == [] {
      assert l == [];
    } else {
      assert l == [l[0]] + l[1..];
      HandleKeyKeeps(s, l[0], l[1..]);
      HandleKeysKeeps(HandleKey(s, l[0]), l[1..]);
    }
  }

  lemma StartRound(s: State)
    requires Good(s, [])
    ensures Good(s.(ready := []), s.ready)
  {
    hide KeyOk;
    SameIndex(s, s.(ready := []));
    assert [] + s.ready == s.ready + [];
  }

  /** handleClientsBlockedOnKeys. It ends: a round either queues no new key or unblocks a client. */
  function HandleAll(s: State): (r: State)
    requires Good(s, [])
    ensures Good(r, []) && r.ready == [] && r.total <= s.total
    decreases s.total, |s.ready|
  {
    if s.ready == [] then s
    else
      StartRound(s);
      HandleKeysKeeps(s.(ready := []), s.ready);
      HandleAll(HandleKeys(s.(ready := []), s.ready))
  }

  // ---- order ----

  /** The waiters of k all wait for lists, without a target. */
  ghost predicate PlainLine(s: State, k: Key) {
    forall c :: c in Line(s.waiting, k) ==> c in s.clients && s.clients[c].kind.OnList? && s.clients[c].target.None?
  }

  /** What clients in a line get when they pop one element each, first come first served. */
  function Shares(clients: map<Id, Client>, k: Key, q: seq<Id>, items: seq<Element>): (seq<Reply>, seq<Element>)
    requires forall c :: c in q ==> c in clients
  {
    if q == [] || items == [] then ([], items)
    else
      var (e, rest) := Pop(items, clients[q[0]].head);
      var (rs, left) := Shares(clients, k, q[1..], rest);
      ([Reply(q[0], k, e)] + rs, left)
  }

  function Min(a: nat, b: nat): nat {
    if a < b then a else b
  }

  /** One element for each of the first clients in the line, as many as there are elements. */
  lemma {:induction false} SharesServeFirst(clients: map<Id, Client>, k: Key, q: seq<Id>, items: seq<Element>)
    requires forall c :: c in q ==> c in clients
    ensures var (rs, left) := Shares(clients, k, q, items);
      && |rs| == Min(|q|, |items|) && |left| == |items| - |rs|
      && forall i :: 0 <= i < |rs| ==> rs[i].client == q[i] && rs[i].key == k
  {
    if q != [] && items != [] {
      var (e, rest) := Pop(items, clients[q[0]].head);
      SharesServeFirst(clients, k, q[1..], rest);
    }
  }

  /** Only the clients themselves matter for their shares. */
  lemma {:induction false} SharesSame(
      clients: map<Id, Client>, clients': map<Id, Client>, k: Key, q: seq<Id>, items: seq<Element>)
    requires forall c :: c in q ==> c in clients && c in clients' && clients'[c].head == clients[c].head
    ensures Shares(clients, k, q, items) == Shares(clients', k, q, items)
  {
    if q != [] && items != [] {
      SharesSame(clients, clients', k, q[1..], Pop(items, clients[q[0]].head).1);
    }
  }

  /** Unblocking one client changes no other. */
  lemma UnblockOthers(s: State, c: Id, x: Id)
    requires c in s.clients && x in s.clients && x != c
    ensures var s' := Unblock(s, c); x in s'.clients && s'.clients[x] == s.clients[x]
  {
    hide LeaveAll;
  }

  /** One round for a plain line: the first client gets its element and leaves. */
  lemma ServePlain(s: State, k: Key, rest: seq<Key>)
    requires Good(s, rest) && k in s.waiting && IsList(s, k) && PlainLine(s, k) && s.data[k].items != []
    ensures HasWaiter(s, k)
    ensures var s' := ServeOne(s, k);
      var c := s.waiting[k][0];
      var (e, items) := Pop(s.data[k].items, s.clients[c].head);
      && Line(s'.waiting, k) == s.waiting[k][1..] && PlainLine(s', k) && s'.data == s.data[k := ListValue(items)]
      && s'.replies == s.replies + [Reply(c, k, e)] && c in s'.clients && !s'.clients[c].blocked
      && s'.clients.Keys == s.clients.Keys && forall x :: x in s.clients && x != c ==> s'.clients[x] == s.clients[x]
  {
    hide Core, ReadyOk, Unblock, LeaveAll;
    WaiterBlocked(s, k);
    var c := s.waiting[k][0];
    assert KeyOk(s.clients, s.waiting, k) by { CoreParts(s); }
    TailNoDup(s.waiting[k]);
    var (e, items) := Pop(s.data[k].items, s.clients[c].head);
    DataKeeps(s, s.data[k := ListValue(items)], s.replies, rest);
    var p := s.(data := s.data[k := ListValue(items)]);
    UnblockFirst(p, k, rest);
    UnblockClients(p, c);
    forall x | x in s.clients && x != c
      ensures Unblock(p, c).clients[x] == s.clients[x]
    {
      UnblockOthers(p, c, x);
    }
    UnblockKeeps(p, c);
  }

  lemma UnblockClients(s: State, c: Id)
    requires c in s.clients
    ensures Unblock(s, c).clients.Keys == s.clients.Keys
  {
    hide LeaveAll;
  }

  /** From s to s', the first |rs| clients of the line q got the replies rs, and nobody else changed. */
  ghost predicate InOrder(s: State, s': State, k: Key, q: seq<Id>, rs: seq<Reply>, left: seq<Element>) {
    && |rs| <= |q| && s'.replies == s.replies + rs && s'.data == s.data[k := ListValue(left)]
    && Line(s'.waiting, k) == q[|rs|..] && s'.clients.Keys == s.clients.Keys
    && (forall x :: x in s.clients && x !in q[..|rs|] ==> s'.clients[x] == s.clients[x])
    && (forall i :: 0 <= i < |rs| ==> q[i] in s'.clients && !s'.clients[q[i]].blocked)
  }

  lemma InOrderStep(
      s: State, s1: State, s': State, k: Key, q: seq<Id>, r: Reply, rs: seq<Reply>,
      items: seq<Element>, left: seq<Element>)
    requires q != [] && q[0] !in q[1..] && q[0] in s.clients
    requires s1.replies == s.replies + [r] && s1.data == s.data[k := ListValue(items)]
    requires s1.clients.Keys == s.clients.Keys
    requires !s1.clients[q[0]].blocked && forall x :: x in s.clients && x != q[0] ==> s1.clients[x] == s.clients[x]
    requires InOrder(s1, s', k, q[1..], rs, left)
    ensures InOrder(s, s', k, q, [r] + rs, left)
  {
    assert s.replies + [r] + rs == s.replies + ([r] + rs);
    FirstAndRest(q, |rs|);
    forall x | x in s.clients && x !in q[..|rs| + 1]
      ensures s'.clients[x] == s.clients[x]
    {
      assert x != q[0] && x !in q[1..][..|rs|] by { assert q[0] in q[..|rs| + 1]; InFront(q, |rs|, x); }
    }
    forall i | 0 <= i < |[r] + rs|
      ensures q[i] in s'.clients && !s'.clients[q[i]].blocked
    {
      if i > 0 { assert q[i] == q[1..][i - 1]; }
    }
  }

  lemma FirstAndRest(q: seq<Id>, n: nat)
    requires q != [] && q[0] !in q[1..] && n <= |q| - 1
    ensures q[1..][n..] == q[n + 1..] && q[..n + 1] == [q[0]] + q[1..][..n] && q[0] !in q[1..][..n]
  {
  }

  lemma NothingServed(s: State, k: Key, n: nat)
    requires IsList(s, k) && PlainLine(s, k) && n == |Line(s.waiting, k)| && (n == 0 || s.data[k].items == [])
    ensures ServeList(s, k, n) == s && InOrder(s, s, k, Line(s.waiting, k), [], s.data[k].items)
  {
    assert s.replies + [] == s.replies && s.data[k := ListValue(s.data[k].items)] == s.data;
  }

  /** The loop serves the first clients in order, and nobody else. */
  lemma {:induction false} ServeListInOrder(s: State, k: Key, n: nat, rest: seq<Key>)
    requires Good(s, rest) && IsList(s, k) && PlainLine(s, k) && n == |Line(s.waiting, k)|
    ensures var (rs, left) := Shares(s.clients, k, Line(s.waiting, k), s.data[k].items);
      InOrder(s, ServeList(s, k, n), k, Line(s.waiting, k), rs, left)
    decreases n
  {
    hide Good, ServeOne, InOrder;
    var q, items := Line(s.waiting, k), s.data[k].items;
    if n == 0 || items == [] {
      NothingServed(s, k, n);
    } else {
      ServePlain(s, k, rest);
      ServeOneKeeps(s, k, rest);
      LineFacts(s, k, rest);
      var s1 := ServeOne(s, k);
      var (e, items1) := Pop(items, s.clients[q[0]].head);
      ServeListInOrder(s1, k, n - 1, rest);
      SharesSame(s.clients, s1.clients, k, q[1..], items1);
      var (rs1, left) := Shares(s1.clients, k, q[1..], items1);
      InOrderStep(s, s1, ServeList(s1, k, n - 1), k, q, Reply(q[0], k, e), rs1, items1, left);
    }
  }

  lemma LineFacts(s: State, k: Key, rest: seq<Key>)
    requires Good(s, rest) && k in s.waiting
    ensures var q := s.waiting[k]; q != [] && q[0] !in q[1..]
  {
    CoreParts(s);
    assert KeyOk(s.clients, s.waiting, k);
    TailNoDup(s.waiting[k]);
  }

  /** The first |rs| clients of the line q were served with the replies rs; nobody else changed. */
  ghost predicate ServedFirst(s: State, s': State, k: Key, q: seq<Id>, rs: seq<Reply>) {
    && |rs| <= |q| && s'.replies == s.replies + rs && Line(s'.waiting, k) == q[|rs|..]
    && (forall i :: 0 <= i < |rs| ==> rs[i].client == q[i] && rs[i].key == k)
    && (forall i :: 0 <= i < |rs| ==> q[i] in s'.clients && !s'.clients[q[i]].blocked)
    && (forall x :: x in s.clients && x !in q[..|rs|] ==> x in s'.clients && s'.clients[x] == s.clients[x])
  }

  lemma InOrderServed(s: State, p: State, r: State, s': State, k: Key, q: seq<Id>, rs: seq<Reply>, left: seq<Element>)
    requires InOrder(p, r, k, q, rs, left) && forall i :: 0 <= i < |rs| ==> rs[i].client == q[i] && rs[i].key == k
    requires p.replies == s.replies && p.clients == s.clients
    requires s'.replies == r.replies && s'.clients == r.clients && s'.waiting == r.waiting
    ensures ServedFirst(s, s', k, q, rs)
  {
  }

  /** A ready list key whose waiters all wait for lists without a target: exactly the first
      min(elements, waiters) clients are served, in blocking order, one element each. */
  lemma HandleListInOrder(s: State, k: Key, rest: seq<Key>)
    requires Good(s, [k] + rest) && IsList(s, k) && PlainLine(s, k)
    ensures var q := Line(s.waiting, k);
      var rs := Shares(s.clients, k, q, s.data[k].items).0;
      && |rs| == Min(|s.data[k].items|, |q|) && ServedFirst(s, HandleKey(s, k), k, q, rs)
      && (k in HandleKey(s, k).data <==> |s.data[k].items| > |q|)
  {
    hide Good, ServeList, Shares, PlainLine, HandleKey, ServedFirst, InOrder;
    TakeReady(s, k, rest);
    var p := s.(readySet := s.readySet - {k});
    var q := Line(s.waiting, k);
    PlainSame(s, p, k);
    ServeListInOrder(p, k, |q|, rest);
    SharesServeFirst(s.clients, k, q, s.data[k].items);
    HandleListKey(s, k);
    var (rs, left) := Shares(s.clients, k, q, s.data[k].items);
    InOrderData(p, ServeList(p, k, |q|), k, q, rs, left);
    InOrderServed(s, p, ServeList(p, k, |q|), HandleKey(s, k), k, q, rs, left);
  }

  lemma InOrderData(p: State, r: State, k: Key, q: seq<Id>, rs: seq<Reply>, left: seq<Element>)
    requires InOrder(p, r, k, q, rs, left)
    ensures k in r.data && r.data[k] == ListValue(left)
  {
  }

  lemma PlainSame(s: State, p: State, k: Key)
    requires PlainLine(s, k) && p.waiting == s.waiting && p.clients == s.clients
    ensures PlainLine(p, k)
  {
  }

  /** What handling a list key adds to the loop over its waiters: an empty list is deleted. */
  lemma HandleListKey(s: State, k: Key)
    requires IsList(s, k)
    ensures var p := s.(readySet := s.readySet - {k});
      var r := ServeList(p, k, |Line(p.waiting, k)|);
      HandleKey(s, k) == if IsList(r, k) && r.data[k].items == [] then r.(data := r.data - {k}) else r
  {
    hide ServeList;
  }

  // ---- targets ----

  /** A client with a target: its element goes to the head of the target list, which is created and
      signalled if it is absent; a target of another type leaves all data as they were. */
  lemma ServeTarget(s: State, k: Key, rest: seq<Key>, d: Key)
    requires Good(s, rest) && k in s.waiting && IsList(s, k) && s.data[k].items != []
    requires HasWaiter(s, k) && s.clients[s.waiting[k][0]].kind.OnList? && s.clients[s.waiting[k][0]].target == Some(d)
    ensures var s' := ServeOne(s, k);
      var (e, items) := Pop(s.data[k].items, s.clients[s.waiting[k][0]].head);
      && (d in s.data && !s.data[d].ListValue? ==> s'.data == s.data && s'.replies == s.replies && s'.ready == s.ready)
      && (d == k ==> s'.data == s.data[k := ListValue([e] + items)] && s'.ready == s.ready)
      && (d != k && IsList(s, d) ==>
        s'.data == s.data[k := ListValue(items)][d := ListValue([e] + s.data[d].items)] && s'.ready == s.ready)
      && (d !in s.data ==> s'.data == s.data[k := ListValue(items)][d := ListValue([e])])
      && (d !in s.data && d in s'.waiting ==> d in s'.readySet)
      && (!(d in s.data && !s.data[d].ListValue?) ==> s'.replies == s.replies + [Reply(s.waiting[k][0], k, e)])
  {
    hide Core, ReadyOk, Unblock;
    var c := s.waiting[k][0];
    var (e, items) := Pop(s.data[k].items, s.clients[c].head);
    DataKeeps(s, s.data[k := ListValue(items)], s.replies, rest);
    var p := s.(data := s.data[k := ListValue(items)]);
    UnblockFirst(p, k, rest);
    PopPush(s.data[k].items, s.clients[c].head);
    assert s.data[k := ListValue(items)][k := s.data[k]] == s.data;
  }

  /** A pop takes the first element at the head and the last one at the tail, and leaves the others. */
  lemma PopTakesEnd(items: seq<Element>, head: bool)
    requires items != []
    ensures var (e, rest) := Pop(items, head); items == if head then [e] + rest else rest + [e]
  {
  }

  /** The undo of a pop restores the list. */
  lemma PopPush(items: seq<Element>, head: bool)
    requires items != []
    ensures var (e, rest) := Pop(items, head); Push(rest, e, head) == items
  {
  }

  // ---- sorted sets ----

  /** The waiters of k all wait for sorted sets. */
  ghost predicate ZSetLine(s: State, k: Key) {
    forall c :: c in Line(s.waiting, k) ==> c in s.clients && s.clients[c].kind.OnZSet?
  }

  /** The replies to the clients of a line that pop a sorted set. */
  function ZReplies(clients: map<Id, Client>, k: Key, q: seq<Id>): seq<Reply>
    requires forall c :: c in q ==> c in clients
  {
    if q == [] then [] else [Scored(q[0], k, clients[q[0]].head)] + ZReplies(clients, k, q[1..])
  }

  lemma {:induction false} ZRepliesSame(clients: map<Id, Client>, clients': map<Id, Client>, k: Key, q: seq<Id>)
    requires forall c :: c in q ==> c in clients && c in clients' && clients'[c].head == clients[c].head
    ensures ZReplies(clients', k, q) == ZReplies(clients, k, q)
  {
    if q != [] { ZRepliesSame(clients, clients', k, q[1..]); }
  }

  /** The first r clients of the line q were served, from a sorted set of so many elements; nobody else
      changed. */
  ghost predicate ZServed(s: State, s': State, k: Key, q: seq<Id>, r: nat, card: nat) {
    && r <= card && FirstUnblocked(s, s', q, r)
    && s'.replies == s.replies + ZReplies(s.clients, k, q[..r]) && Line(s'.waiting, k) == q[r..]
    && s'.data == ZLeft(s.data, k, card, r)
  }

  /** The data after r elements of a sorted set were popped. */
  function ZLeft(data: map<Key, Value>, k: Key, card: nat, r: nat): map<Key, Value>
    requires r <= card
  {
    if r == card then data - {k} else data[k := ZSetValue(card - r)]
  }

  /** The first r clients of the line q were unblocked; nobody else changed. */
  ghost predicate FirstUnblocked(s: State, s': State, q: seq<Id>, r: nat) {
    && r <= |q| && (forall c :: c in q ==> c in s.clients) && s'.clients.Keys == s.clients.Keys
    && (forall i :: 0 <= i < r ==> !s'.clients[q[i]].blocked)
    && (forall x :: x in s.clients && x !in q[..r] ==> s'.clients[x] == s.clients[x])
  }

  lemma FirstUnblockedStep(s: State, s1: State, s': State, q: seq<Id>, r: nat)
    requires q != [] && q[0] !in q[1..] && q[0] in s.clients && s1.clients.Keys == s.clients.Keys
    requires !s1.clients[q[0]].blocked && forall x :: x in s.clients && x != q[0] ==> s1.clients[x] == s.clients[x]
    requires FirstUnblocked(s1, s', q[1..], r)
    ensures FirstUnblocked(s, s', q, r + 1)
  {
    FirstAndRest(q, r);
    assert forall c :: c in q ==> c == q[0] || c in q[1..] by { assert q == [q[0]] + q[1..]; }
    forall x | x in s.clients && x !in q[..r + 1]
      ensures s'.clients[x] == s.clients[x]
    {
      assert x != q[0] && x !in q[1..][..r] by { assert q[0] in q[..r + 1]; InFront(q, r, x); }
    }
    forall i | 0 <= i < r + 1
      ensures !s'.clients[q[i]].blocked
    {
      if i > 0 { assert q[i] == q[1..][i - 1]; } else { assert q[0] !in q[1..][..r]; }
    }
  }

  lemma InFront(q: seq<Id>, r: nat, x: Id)
    requires q != [] && r < |q| && x !in q[..r + 1]
    ensures x !in q[1..][..r]
  {
    assert q[..r + 1] == [q[0]] + q[1..][..r];
  }

  lemma ServeZPlain(s: State, k: Key, card: nat, rest: seq<Key>)
    requires Good(s, rest) && k in s.waiting && ZSetLine(s, k) && card > 0
    ensures HasWaiter(s, k)
    ensures var s' := ServeZOne(s, k, card);
      var c := s.waiting[k][0];
      && Line(s'.waiting, k) == s.waiting[k][1..] && ZSetLine(s', k)
      && s'.data == (if card == 1 then s.data - {k} else s.data[k := ZSetValue(card - 1)])
      && s'.replies == s.replies + [Scored(c, k, s.clients[c].head)] && c in s'.clients && !s'.clients[c].blocked
      && s'.clients.Keys == s.clients.Keys && forall x :: x in s.clients && x != c ==> s'.clients[x] == s.clients[x]
  {
    hide Core, ReadyOk, Unblock, LeaveAll;
    WaiterBlocked(s, k);
    var c := s.waiting[k][0];
    LineFacts(s, k, rest);
    UnblockFirst(s, k, rest);
    UnblockClients(s, c);
    forall x | x in s.clients && x != c
      ensures Unblock(s, c).clients[x] == s.clients[x]
    {
      UnblockOthers(s, c, x);
    }
    UnblockKeeps(s, c);
  }

  lemma ZServedStep(s: State, s1: State, s': State, k: Key, q: seq<Id>, r: nat, card: nat)
    requires q != [] && q[0] !in q[1..] && q[0] in s.clients && card > 1 && s1.clients.Keys == s.clients.Keys
    requires s1.replies == s.replies + [Scored(q[0], k, s.clients[q[0]].head)]
    requires s1.data == s.data[k := ZSetValue(card - 1)] && !s1.clients[q[0]].blocked
    requires forall x :: x in s.clients && x != q[0] ==> s1.clients[x] == s.clients[x]
    requires ZServed(s1, s', k, q[1..], r, card - 1)
    ensures ZServed(s, s', k, q, r + 1, card)
  {
    FirstUnblockedStep(s, s1, s', q, r);
    hide FirstUnblocked, ZReplies, ZLeft, Line;
    assert ZLeft(s1.data, k, card - 1, r) == ZLeft(s.data, k, card, r + 1) by { ZLeftStep(s.data, k, card, r); }
    ZRepliesStep(s.clients, s1.clients, k, q, r) by { FirstInLine(s1, s', q, r); }
    var a, b := [Scored(q[0], k, s.clients[q[0]].head)], ZReplies(s1.clients, k, q[1..][..r]);
    assert s.replies + a + b == s.replies + (a + b);
    assert q[1..][r..] == q[r + 1..];
  }

  lemma FirstInLine(s1: State, s': State, q: seq<Id>, r: nat)
    requires q != [] && FirstUnblocked(s1, s', q[1..], r)
    ensures r < |q| && forall c :: c in q[1..] ==> c in s1.clients
  {
  }

  lemma ZLeftStep(data: map<Key, Value>, k: Key, card: nat, r: nat)
    requires r < card
    ensures ZLeft(data[k := ZSetValue(card - 1)], k, card - 1, r) == ZLeft(data, k, card, r + 1)
  {
    assert data[k := ZSetValue(card - 1)] - {k} == data - {k};
  }

  lemma ZRepliesStep(clients: map<Id, Client>, clients': map<Id, Client>, k: Key, q: seq<Id>, r: nat)
    requires q != [] && q[0] !in q[1..] && r < |q| && clients'.Keys == clients.Keys
    requires forall c :: c in q[1..] ==> c in clients
    requires q[0] in clients && forall x :: x in clients && x != q[0] ==> clients'[x] == clients[x]
    ensures forall c :: c in q ==> c in clients
    ensures ZReplies(clients, k, q[..r + 1])
         == [Scored(q[0], k, clients[q[0]].head)] + ZReplies(clients', k, q[1..][..r])
  {
    assert q == [q[0]] + q[1..];
    assert q[..r + 1][1..] == q[1..][..r];
    ZRepliesSame(clients, clients', k, q[1..][..r]);
  }

  lemma {:induction false} ServeZSetInOrder(s: State, k: Key, n: nat, card: nat, rest: seq<Key>)
    requires Good(s, rest) && ZSetLine(s, k) && n == |Line(s.waiting, k)| && card > 0
    requires k in s.data && s.data[k] == ZSetValue(card)
    ensures ZServed(s, ServeZSet(s, k, n, card), k, Line(s.waiting, k), Min(card, n), card)
    decreases n
  {
    hide Good, ServeZOne, ZServed;
    var q := Line(s.waiting, k);
    if n == 0 {
      ZNobody(s, k, card);
    } else {
      ServeZPlain(s, k, card, rest);
      ServeZOneKeeps(s, k, card, rest);
      LineFacts(s, k, rest);
      var s1 := ServeZOne(s, k, card);
      if card == 1 {
        ZLast(s, s1, k, q);
        assert ServeZSet(s1, k, n - 1, 0) == s1;
      } else {
        ServeZSetInOrder(s1, k, n - 1, card - 1, rest);
        ZServedStep(s, s1, ServeZSet(s1, k, n - 1, card - 1), k, q, Min(card - 1, n - 1), card);
      }
    }
  }

  lemma ZNobody(s: State, k: Key, card: nat)
    requires ZSetLine(s, k) && Line(s.waiting, k) == [] && card > 0 && k in s.data && s.data[k] == ZSetValue(card)
    ensures ZServed(s, s, k, [], 0, card)
  {
    assert s.replies + [] == s.replies && s.data[k := ZSetValue(card)] == s.data;
  }

  lemma ZLast(s: State, s1: State, k: Key, q: seq<Id>)
    requires q != [] && (forall c :: c in q ==> c in s.clients) && Line(s1.waiting, k) == q[1..]
    requires s1.replies == s.replies + [Scored(q[0], k, s.clients[q[0]].head)] && s1.data == s.data - {k}
    requires s1.clients.Keys == s.clients.Keys && !s1.clients[q[0]].blocked
    requires forall x :: x in s.clients && x != q[0] ==> s1.clients[x] == s.clients[x]
    ensures ZServed(s, s1, k, q, 1, 1)
  {
    assert q[..1] == [q[0]] && q[..1][1..] == [];
    assert ZReplies(s.clients, k, q[..1]) == [Scored(q[0], k, s.clients[q[0]].head)];
  }

  /** A ready sorted set whose waiters all wait for sorted sets: exactly the first min(elements, waiters)
      clients are served, in the order of the line, one element each. */
  lemma HandleZSetInOrder(s: State, k: Key, rest: seq<Key>)
    requires Good(s, [k] + rest) && ZSetLine(s, k) && k in s.data && s.data[k].ZSetValue? && s.data[k].card > 0
    ensures var q, card := Line(s.waiting, k), s.data[k].card;
      ZServed(s, HandleKey(s, k), k, q, Min(card, |q|), card)
  {
    hide Good, ServeZSet;
    TakeReady(s, k, rest);
    var p := s.(readySet := s.readySet - {k});
    ServeZSetInOrder(p, k, |Line(p.waiting, k)|, s.data[k].card, rest);
  }

  // ---- streams ----

  /** The waiters of a line that are not due. */
  function Rest(clients: map<Id, Client>, k: Key, last: nat, line: seq<Id>): seq<Id> {
    if line == [] then []
    else (if Due(clients, k, last, line[0]) then [] else [line[0]]) + Rest(clients, k, last, line[1..])
  }

  /** The replies to the waiters of a line that are due, in order. */
  function DueReplies(clients: map<Id, Client>, k: Key, last: nat, line: seq<Id>): seq<Reply> {
    if line == [] then []
    else
      (if Due(clients, k, last, line[0]) then [Entries(line[0], k, clients[line[0]].after[k])] else [])
      + DueReplies(clients, k, last, line[1..])
  }

  lemma {:induction false} RestSame(
      clients: map<Id, Client>, clients': map<Id, Client>, k: Key, last: nat, line: seq<Id>)
    requires forall c :: c in line ==> c in clients && c in clients' && clients'[c] == clients[c]
    ensures Rest(clients', k, last, line) == Rest(clients, k, last, line)
    ensures DueReplies(clients', k, last, line) == DueReplies(clients, k, last, line)
  {
    if line != [] { RestSame(clients, clients', k, last, line[1..]); }
  }

  lemma {:induction false} WithoutAfter(front: seq<Id>, c: Id, back: seq<Id>)
    requires c !in front
    ensures Without(front + [c] + back, c) == front + back
    decreases |front|
  {
    var q := front + [c] + back;
    if front == [] {
      assert q[1..] == back;
    } else {
      WithoutAfter(front[1..], c, back);
      assert q[1..] == front[1..] + [c] + back;
    }
  }

  /** The clients of `line` that are due are unblocked and have left the waiting line; the others keep
      their order after `front`, and no other client has changed. */
  ghost predicate StreamServed(s: State, s': State, k: Key, last: nat, front: seq<Id>, line: seq<Id>) {
    && Line(s'.waiting, k) == front + Rest(s.clients, k, last, line)
    && s'.data == s.data && s'.replies == s.replies + DueReplies(s.clients, k, last, line)
    && DueUnblocked(s, s', k, last, line)
  }

  ghost predicate DueUnblocked(s: State, s': State, k: Key, last: nat, line: seq<Id>) {
    && s'.clients.Keys == s.clients.Keys
    && (forall c :: c in line && Due(s.clients, k, last, c) ==> c in s'.clients && !s'.clients[c].blocked)
    && (forall c :: c in s.clients && !(c in line && Due(s.clients, k, last, c)) ==> s'.clients[c] == s.clients[c])
  }

  lemma DueUnblockedStep(s: State, s1: State, s': State, k: Key, last: nat, c: Id, back: seq<Id>)
    requires c !in back && c in s1.clients && !s1.clients[c].blocked && Due(s.clients, k, last, c)
    requires s1.clients.Keys == s.clients.Keys && DueUnblocked(s1, s', k, last, back)
    requires forall x :: x in s.clients && x != c ==> s1.clients[x] == s.clients[x]
    ensures DueUnblocked(s, s', k, last, [c] + back)
  {
    var line := [c] + back;
    forall x | x in line && Due(s.clients, k, last, x)
      ensures x in s'.clients && !s'.clients[x].blocked
    {
      if x != c { assert x in back && Due(s1.clients, k, last, x); }
    }
    forall x | x in s.clients && !(x in line && Due(s.clients, k, last, x))
      ensures s'.clients[x] == s.clients[x]
    {
      assert c in line && x != c;
      if x in back { assert x in line && !Due(s1.clients, k, last, x); }
    }
  }

  lemma DueStep(s: State, s1: State, s': State, k: Key, last: nat, front: seq<Id>, c: Id, back: seq<Id>)
    requires Due(s.clients, k, last, c) && c !in back && c in s1.clients && !s1.clients[c].blocked
    requires s1.clients.Keys == s.clients.Keys && s1.data == s.data
    requires s1.replies == s.replies + [Entries(c, k, s.clients[c].after[k])]
    requires forall x :: x in s.clients && x != c ==> s1.clients[x] == s.clients[x]
    requires StreamServed(s1, s', k, last, front, back)
    requires Rest(s1.clients, k, last, back) == Rest(s.clients, k, last, back)
    requires DueReplies(s1.clients, k, last, back) == DueReplies(s.clients, k, last, back)
    ensures StreamServed(s, s', k, last, front, [c] + back)
  {
    hide Rest, Line, DueReplies, DueUnblocked;
    RestDue(s.clients, k, last, c, back);
    DueUnblockedStep(s, s1, s', k, last, c, back);
    var e, es := [Entries(c, k, s.clients[c].after[k])], DueReplies(s.clients, k, last, back);
    assert s.replies + e + es == s.replies + (e + es);
  }

  lemma RestDue(clients: map<Id, Client>, k: Key, last: nat, c: Id, back: seq<Id>)
    requires Due(clients, k, last, c)
    ensures Rest(clients, k, last, [c] + back) == Rest(clients, k, last, back)
    ensures DueReplies(clients, k, last, [c] + back)
         == [Entries(c, k, clients[c].after[k])] + DueReplies(clients, k, last, back)
  {
    assert ([c] + back)[1..] == back;
    assert [] + Rest(clients, k, last, back) == Rest(clients, k, last, back);
  }

  lemma NotDueStep(s: State, s': State, k: Key, last: nat, front: seq<Id>, c: Id, back: seq<Id>)
    requires !Due(s.clients, k, last, c) && StreamServed(s, s', k, last, front + [c], back)
    ensures StreamServed(s, s', k, last, front, [c] + back)
  {
    assert ([c] + back)[1..] == back;
    assert [] + DueReplies(s.clients, k, last, back) == DueReplies(s.clients, k, last, back);
    assert front + [c] + Rest(s.clients, k, last, back) == front + ([c] + Rest(s.clients, k, last, back));
    assert forall x :: x in [c] + back <==> x == c || x in back;
  }

  lemma {:induction false} ServeStreamLeaves(
      s: State, k: Key, last: nat, front: seq<Id>, line: seq<Id>, rest: seq<Key>)
    requires Good(s, rest) && StillWaiting(s, k, line) && Line(s.waiting, k) == front + line
    requires forall c :: c in line ==> c !in front
    ensures StreamServed(s, ServeStream(s, k, last, line), k, last, front, line)
    decreases |line|
  {
    hide Good, Unblock, Rest, StreamServed, DueReplies;
    if line == [] {
      NobodyServed(s, k, last, front);
    } else {
      var c, back := line[0], line[1..];
      assert line == [c] + back && c !in back && forall x :: x in back ==> x in line by { TailNoDup(line); }
      if Due(s.clients, k, last, c) {
        var replies := s.replies + [Entries(c, k, s.clients[c].after[k])];
        UnblockDue(s, k, c, line, replies, rest);
        var s1 := Unblock(s.(replies := replies), c);
        assert front + line == front + [c] + back;
        WithoutAfter(front, c, back);
        ServeStreamLeaves(s1, k, last, front, back, rest);
        assert forall x :: x in back ==> x in s.clients by { assert forall x :: x in back ==> Waits(s.clients, x, k); }
        RestSame(s.clients, s1.clients, k, last, back);
        UnblockedNow(s.(replies := replies), c);
        DueStep(s, s1, ServeStream(s1, k, last, back), k, last, front, c, back);
      } else {
        TailWaits(s, k, line);
        assert front + line == (front + [c]) + back;
        ServeStreamLeaves(s, k, last, front + [c], back, rest);
        NotDueStep(s, ServeStream(s, k, last, back), k, last, front, c, back);
      }
    }
  }

  lemma NobodyServed(s: State, k: Key, last: nat, front: seq<Id>)
    requires Line(s.waiting, k) == front + []
    ensures StreamServed(s, s, k, last, front, [])
  {
    assert s.replies + [] == s.replies;
  }

  lemma UnblockedNow(s: State, c: Id)
    requires c in s.clients
    ensures c in Unblock(s, c).clients && !Unblock(s, c).clients[c].blocked
  {
    hide LeaveAll;
  }

  /** A ready stream key: exactly the stream waiters with an ID below its last one are unblocked, with the
      entries after that ID, in order; the others keep their places and their order. */
  lemma HandleStream(s: State, k: Key, rest: seq<Key>)
    requires Good(s, [k] + rest) && k in s.data && s.data[k].StreamValue?
    ensures var q := Line(s.waiting, k);
      var last := s.data[k].last;
      var s' := HandleKey(s, k);
      && Line(s'.waiting, k) == Rest(s.clients, k, last, q) && s'.data == s.data
      && s'.replies == s.replies + DueReplies(s.clients, k, last, q)
      && (forall c :: c in q && Due(s.clients, k, last, c) ==> c in s'.clients && !s'.clients[c].blocked)
      && (forall c :: c in s.clients && !(c in q && Due(s.clients, k, last, c)) ==>
           c in s'.clients && s'.clients[c] == s.clients[c])
  {
    hide Core, ReadyOk, ServeStream;
    TakeReady(s, k, rest);
    var p := s.(readySet := s.readySet - {k});
    assert StillWaiting(p, k, Line(p.waiting, k)) by { LineWaits(p, k); }
    ServeStreamLeaves(p, k, s.data[k].last, [], Line(p.waiting, k), rest);
  }
}
