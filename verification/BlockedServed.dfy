/** Nobody is left waiting: once the ready keys have been handled, no client waits for a key whose value
    it could be given. */
module BlockedServed {

  import opened Wrappers
  import opened BlockedModel
  import opened BlockedIndex
  import opened BlockedServe
  import opened BlockedOrder
  import opened BlockedRun

  /** The value has something for a client of this kind, which waits for entries after `after` if the value
      is a stream. */
  predicate Fits(v: Value, k: Key, i: Client) {
    match v
    case ListValue(items) => items != [] && i.kind.OnList?
    case ZSetValue(card) => card > 0 && i.kind.OnZSet?
    case StreamValue(last) => i.kind.OnStream? && k in i.after && i.after[k] < last
    case OtherValue => false
  }

  /** The client waits for a key whose value it could be given. */
  predicate Servable(s: State, k: Key, c: Id) {
    Waits(s.clients, c, k) && k in s.data && Fits(s.data[k], k, s.clients[c])
  }

  /** Every key that could serve a waiting client, other than those of `but`, is marked as ready. */
  ghost predicate AlertBut(s: State, but: set<Key>) {
    forall k, c :: k !in but && Servable(s, k, c) ==> k in s.readySet
  }

  ghost predicate Alert(s: State) {
    AlertBut(s, {})
  }

  /** No key but those of `but` holds an empty list or sorted set. */
  ghost predicate FullBut(s: State, but: set<Key>) {
    forall k :: k in s.data && k !in but ==>
      (s.data[k].ListValue? ==> s.data[k].items != []) && (s.data[k].ZSetValue? ==> s.data[k].card > 0)
  }

  // ---- steps that make nobody servable ----

  /** Whoever waits in s' waited in s, for the same. */
  ghost predicate FewerWaiters(s: State, s': State) {
    forall k, c :: Waits(s'.clients, c, k) ==>
      Waits(s.clients, c, k) && s'.clients[c].kind == s.clients[c].kind && s'.clients[c].after == s.clients[c].after
  }

  lemma StaysAlert(s: State, s': State, but: set<Key>)
    requires AlertBut(s, but) && FewerWaiters(s, s') && s.readySet <= s'.readySet
    requires forall k :: k in s'.data && k !in but ==> k in s.data && s'.data[k] == s.data[k]
    ensures AlertBut(s', but)
  {
    forall k, c | k !in but && Servable(s', k, c)
      ensures k in s'.readySet
    {
      assert Waits(s'.clients, c, k);
      SameFit(s.data[k], k, s.clients[c], s'.clients[c]);
      assert Servable(s, k, c);
    }
  }

  lemma FewerRefl(s: State, s': State)
    requires s'.clients == s.clients
    ensures FewerWaiters(s, s')
  {
  }

  lemma UnblockFewer(s: State, c: Id)
    requires c in s.clients && WaitsForData(s.clients[c].kind)
    ensures FewerWaiters(s, Unblock(s, c)) && Unblock(s, c).readySet == s.readySet && Unblock(s, c).data == s.data
  {
    hide LeaveAll;
  }

  // ---- lists ----

  /** Nobody from place n of the line on waits for a list. */
  ghost predicate NoListFrom(s: State, k: Key, n: nat) {
    forall i :: n <= i < |Line(s.waiting, k)| ==>
      Line(s.waiting, k)[i] in s.clients && !s.clients[Line(s.waiting, k)[i]].kind.OnList?
  }

  /** Handing an element to a client: only a new target list can serve somebody, and it is signalled. */
  lemma ServeStaysAlert(s: State, K: Key, c: Id, target: Option<Key>, e: Element, head: bool)
    requires Core(s) && IsList(s, K) && AlertBut(s, {K}) && FullBut(s, {K})
    ensures var s' := Serve(s, K, c, target, e, head);
      AlertBut(s', {K}) && FullBut(s', {K}) && s'.clients == s.clients && s'.waiting == s.waiting
  {
    var s' := Serve(s, K, c, target, e, head);
    if target.Some? && target.value !in s.data {
      var d := target.value;
      assert KeyOk(s.clients, s.waiting, d);
      assert d in s'.readySet || d !in s.waiting;
    }
    forall k, x | k != K && Servable(s', k, x)
      ensures k in s'.readySet
    {
      if k in s.data {
        assert Servable(s, k, x);
      } else {
        assert x in Line(s.waiting, k) by { assert KeyOk(s.clients, s.waiting, k); }
      }
    }
  }

  lemma ServeOneStaysAlert(s: State, K: Key, rest: seq<Key>)
    requires Good(s, rest) && K in s.waiting && IsList(s, K) && AlertBut(s, {K}) && FullBut(s, {K})
    ensures HasWaiter(s, K) && AlertBut(ServeOne(s, K), {K}) && FullBut(ServeOne(s, K), {K})
  {
    hide Core, ReadyOk, Unblock, Serve, AlertBut, FullBut;
    WaiterBlocked(s, K);
    var c := s.waiting[K][0];
    if !s.clients[c].kind.OnList? {
      FewerRefl(s, Rotate(s, K));
      StaysAlert(s, Rotate(s, K), {K});
      FullSame(s, Rotate(s, K), {K});
    } else if s.data[K].items != [] {
      var (e, items) := Pop(s.data[K].items, s.clients[c].head);
      var p := s.(data := s.data[K := ListValue(items)]);
      DataKeeps(s, p.data, s.replies, rest);
      UnblockFewer(p, c);
      UnblockFirst(p, K, rest);
      assert FewerWaiters(s, Unblock(p, c)) by { assert p.clients == s.clients; }
      StaysAlert(s, Unblock(p, c), {K});
      FullSame(s, Unblock(p, c), {K});
      ServeStaysAlert(Unblock(p, c), K, c, s.clients[c].target, e, s.clients[c].head);
    }
  }

  lemma FullSame(s: State, s': State, but: set<Key>)
    requires FullBut(s, but) && forall k :: k in s'.data && k !in but ==> k in s.data && s'.data[k] == s.data[k]
    ensures FullBut(s', but)
  {
  }

  /** One round moves the first waiter away or to the end. */
  lemma ServeOneVisits(s: State, K: Key, n: nat, rest: seq<Key>)
    requires Good(s, rest) && K in s.waiting && IsList(s, K) && 0 < n <= |Line(s.waiting, K)| && NoListFrom(s, K, n)
    requires HasWaiter(s, K) && !(s.clients[s.waiting[K][0]].kind.OnList? && s.data[K].items == [])
    ensures var s' := ServeOne(s, K); NoListFrom(s', K, n - 1) && n - 1 <= |Line(s'.waiting, K)|
  {
    hide Core, ReadyOk, Unblock, Serve;
    var q, s' := s.waiting[K], ServeOne(s, K);
    var c := q[0];
    if !s.clients[c].kind.OnList? {
      assert Line(s'.waiting, K) == q[1..] + [c];
    } else {
      var (e, items) := Pop(s.data[K].items, s.clients[c].head);
      var p := s.(data := s.data[K := ListValue(items)]);
      DataKeeps(s, p.data, s.replies, rest);
      UnblockFirst(p, K, rest);
      UnblockKinds(p, c);
      ServeKeeps(Unblock(p, c), K, c, s.clients[c].target, e, s.clients[c].head, rest);
      assert Line(s'.waiting, K) == q[1..];
    }
  }

  /** After the loop the list is used up, or nobody in the line waits for a list. */
  lemma {:induction false} ServeListServes(s: State, K: Key, n: nat, rest: seq<Key>)
    requires Good(s, rest) && IsList(s, K) && n <= |Line(s.waiting, K)| && NoListFrom(s, K, n)
    requires AlertBut(s, {K}) && FullBut(s, {K})
    ensures var s' := ServeList(s, K, n);
      && AlertBut(s', {K}) && FullBut(s', {K}) && Good(s', rest) && IsList(s', K)
      && (s'.data[K].items == [] || NoListFrom(s', K, 0))
    decreases n
  {
    hide Good, ServeOne, AlertBut, FullBut, NoListFrom;
    if n > 0 {
      ServeOneKeeps(s, K, rest);
      if !(s.clients[s.waiting[K][0]].kind.OnList? && s.data[K].items == []) {
        ServeOneStaysAlert(s, K, rest);
        ServeOneVisits(s, K, n, rest);
        ServeListServes(ServeOne(s, K), K, n - 1, rest);
      }
    }
  }

  lemma WholeLine(s: State, K: Key)
    ensures NoListFrom(s, K, |Line(s.waiting, K)|) && NoZSetFrom(s, K, |Line(s.waiting, K)|)
  {
  }

  lemma HandleListServes(s: State, K: Key, rest: seq<Key>)
    requires Good(s, rest) && IsList(s, K) && AlertBut(s, {K}) && FullBut(s, {K})
    ensures Alert(HandleList(s, K)) && FullBut(HandleList(s, K), {})
  {
    hide Good, ServeList;
    var n := |Line(s.waiting, K)|;
    WholeLine(s, K);
    ServeListServes(s, K, n, rest);
    var r, s' := ServeList(s, K, n), HandleList(s, K);
    forall k, c | Servable(s', k, c)
      ensures k in s'.readySet
    {
      if k == K {
        InLine(r, c, K, rest);
        assert false;
      } else {
        assert Servable(r, k, c);
      }
    }
  }

  /** A client that waits for a key stands in its line. */
  lemma InLine(s: State, c: Id, k: Key, rest: seq<Key>)
    requires Good(s, rest) && Waits(s.clients, c, k)
    ensures exists i :: 0 <= i < |Line(s.waiting, k)| && Line(s.waiting, k)[i] == c
  {
    CoreParts(s);
    assert KeyOk(s.clients, s.waiting, k);
    assert c in Line(s.waiting, k);
  }

  // ---- sorted sets ----

  ghost predicate NoZSetFrom(s: State, k: Key, n: nat) {
    forall i :: n <= i < |Line(s.waiting, k)| ==>
      Line(s.waiting, k)[i] in s.clients && !s.clients[Line(s.waiting, k)[i]].kind.OnZSet?
  }

  ghost predicate HasCard(s: State, K: Key, card: nat) {
    if card == 0 then K !in s.data else K in s.data && s.data[K] == ZSetValue(card)
  }

  lemma ServeZOneVisits(s: State, K: Key, n: nat, card: nat, rest: seq<Key>)
    requires Good(s, rest) && K in s.waiting && 0 < n <= |Line(s.waiting, K)| && NoZSetFrom(s, K, n)
    requires card > 0 && HasCard(s, K, card) && AlertBut(s, {K}) && FullBut(s, {K})
    ensures HasWaiter(s, K)
    ensures var s' := ServeZOne(s, K, card);
      && NoZSetFrom(s', K, n - 1) && n - 1 <= |Line(s'.waiting, K)| && AlertBut(s', {K}) && FullBut(s', {K})
      && HasCard(s', K, if s.clients[s.waiting[K][0]].kind.OnZSet? then card - 1 else card)
  {
    hide Core, ReadyOk, Unblock, AlertBut, FullBut;
    WaiterBlocked(s, K);
    var q, s' := s.waiting[K], ServeZOne(s, K, card);
    var c := q[0];
    if !s.clients[c].kind.OnZSet? {
      assert Line(s'.waiting, K) == q[1..] + [c];
      FewerRefl(s, s');
    } else {
      UnblockFewer(s, c);
      UnblockFirst(s, K, rest);
      UnblockKinds(s, c);
      assert Line(s'.waiting, K) == q[1..];
      assert FewerWaiters(s, s') by { assert s'.clients == Unblock(s, c).clients; }
    }
    StaysAlert(s, s', {K});
    FullSame(s, s', {K});
  }

  lemma {:induction false} ServeZSetServes(s: State, K: Key, n: nat, card: nat, rest: seq<Key>)
    requires Good(s, rest) && n <= |Line(s.waiting, K)| && NoZSetFrom(s, K, n) && HasCard(s, K, card)
    requires AlertBut(s, {K}) && FullBut(s, {K})
    ensures var s' := ServeZSet(s, K, n, card);
      && AlertBut(s', {K}) && FullBut(s', {}) && Good(s', rest)
      && (K !in s'.data || (s'.data[K].ZSetValue? && NoZSetFrom(s', K, 0)))
    decreases n
  {
    hide Good, ServeZOne, AlertBut, NoZSetFrom;
    if n > 0 && card > 0 {
      ServeZOneKeeps(s, K, card, rest);
      ServeZOneVisits(s, K, n, card, rest);
      var left := if s.clients[s.waiting[K][0]].kind.OnZSet? then card - 1 else card;
      ServeZSetServes(ServeZOne(s, K, card), K, n - 1, left, rest);
    }
  }

  lemma HandleZSetServes(s: State, K: Key, card: nat, rest: seq<Key>)
    requires Good(s, rest) && card > 0 && HasCard(s, K, card) && AlertBut(s, {K}) && FullBut(s, {K})
    ensures var s' := ServeZSet(s, K, |Line(s.waiting, K)|, card); Alert(s') && FullBut(s', {})
  {
    hide Good, ServeZSet;
    WholeLine(s, K);
    ServeZSetServes(s, K, |Line(s.waiting, K)|, card, rest);
    var s' := ServeZSet(s, K, |Line(s.waiting, K)|, card);
    forall k, c | Servable(s', k, c)
      ensures k in s'.readySet
    {
      if k == K {
        InLine(s', c, K, rest);
        assert false;
      }
    }
  }

  // ---- streams ----

  lemma {:induction false} NoneDue(clients: map<Id, Client>, k: Key, last: nat, line: seq<Id>, c: Id)
    requires c in Rest(clients, k, last, line)
    ensures !Due(clients, k, last, c) && c in line
  {
    if line != [] {
      assert line == [line[0]] + line[1..];
      if c in Rest(clients, k, last, line[1..]) { NoneDue(clients, k, last, line[1..], c); }
    }
  }

  lemma {:induction false} ServeStreamFewer(s: State, K: Key, last: nat, line: seq<Id>, rest: seq<Key>)
    requires Good(s, rest) && StillWaiting(s, K, line)
    ensures var s' := ServeStream(s, K, last, line);
      FewerWaiters(s, s') && s'.readySet == s.readySet && s'.data == s.data
    decreases |line|
  {
    hide Good, Unblock, FewerWaiters;
    FewerRefl(s, s);
    if line != [] {
      var c := line[0];
      if Due(s.clients, K, last, c) {
        var p := s.(replies := s.replies + [Entries(c, K, s.clients[c].after[K])]);
        UnblockDue(s, K, c, line, p.replies, rest);
        UnblockFewer(p, c);
        ServeStreamFewer(Unblock(p, c), K, last, line[1..], rest);
        FewerTrans(s, p, Unblock(p, c), ServeStream(Unblock(p, c), K, last, line[1..]));
      } else {
        TailWaits(s, K, line);
        ServeStreamFewer(s, K, last, line[1..], rest);
      }
    }
  }

  lemma FewerTrans(s: State, p: State, u: State, r: State)
    requires p.clients == s.clients && FewerWaiters(p, u) && FewerWaiters(u, r)
    ensures FewerWaiters(s, r)
  {
  }

  lemma HandleStreamServes(s: State, K: Key, last: nat, rest: seq<Key>)
    requires Good(s, rest) && K in s.data && s.data[K] == StreamValue(last) && AlertBut(s, {K}) && FullBut(s, {K})
    ensures var s' := ServeStream(s, K, last, Line(s.waiting, K)); Alert(s') && FullBut(s', {})
  {
    hide Good, ServeStream, Rest, DueReplies;
    var q := Line(s.waiting, K);
    assert StillWaiting(s, K, q) by { GoodCore(s, rest); LineWaits(s, K); }
    ServeStreamFewer(s, K, last, q, rest);
    ServeStreamLeaves(s, K, last, [], q, rest);
    ServeStreamKeeps(s, K, last, q, rest);
    var s' := ServeStream(s, K, last, q);
    StaysAlert(s, s', {K});
    FullSame(s, s', {K});
    forall k, c | Servable(s', k, c)
      ensures k in s'.readySet
    {
      if k == K {
        InLine(s', c, K, rest);
        assert Waits(s'.clients, c, K) && c in Rest(s.clients, K, last, q);
        NoneDue(s.clients, K, last, q, c);
        assert false;
      }
    }
  }

  // ---- all keys ----

  lemma HandleKeyServes(s: State, K: Key, rest: seq<Key>)
    requires Good(s, [K] + rest) && Alert(s) && FullBut(s, {})
    ensures Alert(HandleKey(s, K)) && FullBut(HandleKey(s, K), {})
  {
    hide Good, HandleList, ServeZSet, ServeStream;
    TakeReady(s, K, rest);
    var p := s.(readySet := s.readySet - {K});
    assert AlertBut(p, {K}) by {
      forall k, c | k != K && Servable(p, k, c)
        ensures k in p.readySet
      {
        assert Servable(s, k, c);
      }
    }
    if K in p.data {
      match p.data[K]
      case ListValue(_) => HandleListServes(p, K, rest);
      case ZSetValue(card) => HandleZSetServes(p, K, card, rest);
      case StreamValue(last) => HandleStreamServes(p, K, last, rest);
      case OtherValue =>
    }
  }

  lemma {:induction false} HandleKeysServe(s: State, l: seq<Key>)
    requires Good(s, l) && Alert(s) && FullBut(s, {})
    ensures Alert(HandleKeys(s, l)) && FullBut(HandleKeys(s, l), {})
    decreases |l|
  {
    hide Good, HandleKey, AlertBut, FullBut;
    if l != [] {
      assert l == [l[0]] + l[1..];
      HandleKeyKeeps(s, l[0], l[1..]);
      HandleKeyServes(s, l[0], l[1..]);
      HandleKeysServe(HandleKey(s, l[0]), l[1..]);
    }
  }

  /** After handleClientsBlockedOnKeys nobody waits for a key whose value it could be given. */
  lemma {:induction false} NobodyLeftWaiting(s: State)
    requires Good(s, []) && Alert(s) && FullBut(s, {})
    ensures var r := HandleAll(s);
      && Alert(r) && FullBut(r, {}) && forall k, c :: !Servable(r, k, c)
    decreases s.total, |s.ready|
  {
    hide Core, HandleKeys, Fits;
    if s.ready == [] {
      forall k, c
        ensures !Servable(s, k, c)
      {
        assert k !in s.readySet;
      }
    } else {
      var p := s.(ready := []);
      StartRound(s);
      HandleKeysKeeps(p, s.ready);
      assert Alert(p) by { SameAlert(s, p); }
      HandleKeysServe(p, s.ready);
      NobodyLeftWaiting(HandleKeys(p, s.ready));
    }
  }

  lemma SameAlert(s: State, p: State)
    requires Alert(s) && p.clients == s.clients && p.data == s.data && p.readySet == s.readySet
    ensures Alert(p)
  {
    forall k, c | Servable(p, k, c)
      ensures k in p.readySet
    {
      assert Servable(s, k, c);
    }
  }

  // ---- whole runs ----

  predicate NotEmpty(v: Value) {
    (v.ListValue? ==> v.items != []) && (v.ZSetValue? ==> v.card > 0)
  }

  /** A value that replaces another in place, unsignalled, could serve a client that waits for the key. */
  ghost predicate Overlooked(s: State, k: Key, v: Value) {
    && k in s.data && !v.StreamValue? && k !in s.readySet
    && exists c :: Waits(s.clients, c, k) && Fits(v, k, s.clients[c])
  }

  /** A key written keeps every key that could serve somebody marked as ready, unless it is overlooked. */
  lemma WriteStaysAlert(s: State, k: Key, v: Value)
    requires Good(s, []) && Alert(s)
    ensures Alert(Put(s, k, Some(v))) <==> !Overlooked(s, k, v)
  {
    var s' := Put(s, k, Some(v));
    if Overlooked(s, k, v) {
      var c :| Waits(s.clients, c, k) && Fits(v, k, s.clients[c]);
      assert Servable(s', k, c);
    } else {
      forall x, c | Servable(s', x, c)
        ensures x in s'.readySet
      {
        if x == k {
          InLine(s, c, k, []);
        } else {
          assert Servable(s, x, c);
        }
      }
    }
  }

  /** A client waits for a list at a key that is absent; a value of another kind is stored there, and then
      a list in its place: the client is not served. */
  lemma OverwriteExample(s: State, c: Id, k: Key, e: Element)
    requires Good(s, []) && s.ready == [] && k !in s.data && Waits(s.clients, c, k) && s.clients[c].kind.OnList?
    ensures var s' := Put(Put(s, k, Some(OtherValue)), k, Some(ListValue([e])));
      Good(s', []) && HandleAll(s') == s' && Servable(s', k, c)
  {
    hide Core;
    PutKeeps(s, k, Some(OtherValue));
    PutKeeps(Put(s, k, Some(OtherValue)), k, Some(ListValue([e])));
  }

  /** A command blocks its client only if no key can serve it, no empty list or sorted set is stored, and no
      value is overlooked. */
  ghost predicate Proper(s: State, op: Op) {
    match op
    case BlockOnKeys(c, kind, keys, target, head, after) =>
      c in s.clients && forall k :: k in keys && k in s.data ==>
        !Fits(s.data[k], k, s.clients[c].(kind := kind, after := after))
    case Write(k, v) => v.Some? ==> NotEmpty(v.value) && !Overlooked(s, k, v.value)
    case _ => true
  }

  lemma BlockStaysAlert(
      s: State, c: Id, t: Kind, keys: seq<Key>, target: Option<Key>, head: bool, after: map<Key, nat>)
    requires Good(s, []) && Alert(s) && c in s.clients && !s.clients[c].blocked && keys != [] && WaitsForData(t)
    requires forall k :: k in keys && k in s.data ==> !Fits(s.data[k], k, s.clients[c].(kind := t, after := after))
    ensures Alert(BlockForKeys(s, c, t, keys, target, head, after))
  {
    hide Core, ReadyOk, BlockForKeys, Fits;
    var s' := BlockForKeys(s, c, t, keys, target, head, after);
    BlockForKeysKeeps(s, c, t, keys, target, head, after);
    BlockForKeysLines(s, c, t, keys, target, head, after, keys[0]);
    BlockOthers(s, c, t, keys, target, head, after);
    forall k, x | Servable(s', k, x)
      ensures k in s'.readySet
    {
      if x == c {
        SameFit(s.data[k], k, s.clients[c].(kind := t, after := after), s'.clients[c]);
      } else {
        assert Servable(s, k, x);
      }
    }
  }

  lemma SameFit(v: Value, k: Key, i: Client, j: Client)
    requires i.kind == j.kind && i.after == j.after
    ensures Fits(v, k, i) == Fits(v, k, j)
  {
  }

  lemma BlockOthers(
      s: State, c: Id, t: Kind, keys: seq<Key>, target: Option<Key>, head: bool, after: map<Key, nat>)
    requires Core(s) && c in s.clients
    ensures var s' := BlockForKeys(s, c, t, keys, target, head, after);
      s'.clients.Keys == s.clients.Keys && forall x :: x in s.clients && x != c ==> s'.clients[x] == s.clients[x]
  {
    hide IndexOk, CountOk, QueueOk, KeysOk, AddKeys;
    var p := s.(clients := s.clients[c := s.clients[c].(target := target, head := head, after := after)]);
    assert IndexOk(p) by { SameKeysIndex(s, p, c); }
    AddKeysKeeps(p, c, keys);
  }

  lemma NextFewer(s: State, op: Op)
    requires Good(s, []) && Enabled(s, op) && !op.BlockOnKeys? && !op.Write? && !op.HandleReady?
    ensures var s' := Next(s, op); FewerWaiters(s, s') && s.readySet <= s'.readySet && s'.data == s.data
  {
    hide IndexOk, CountOk, QueueOk, ReadyOk, LeaveAll;
    match op
    case UnblockClient(c) => UnblockedFewer(s, c);
    case Disconnect(c) => if s.clients[c].blocked { UnblockedFewer(s, c); }
    case _ =>
  }

  lemma UnblockedFewer(s: State, c: Id)
    requires Core(s) && c in s.clients && s.clients[c].blocked
    ensures FewerWaiters(s, Unblock(s, c)) && Unblock(s, c).readySet == s.readySet && Unblock(s, c).data == s.data
  {
    hide IndexOk, CountOk, QueueOk, LeaveAll;
  }

  lemma NextStaysAlert(s: State, op: Op)
    requires Good(s, []) && Enabled(s, op) && Proper(s, op) && Alert(s) && FullBut(s, {})
    ensures Alert(Next(s, op)) && FullBut(Next(s, op), {})
  {
    hide Good, HandleAll, Alert, BlockForKeys, Fits;
    match op
    case BlockOnKeys(c, kind, keys, target, head, after) =>
      BlockStaysAlert(s, c, kind, keys, target, head, after);
      assert Core(s) by { GoodCore(s, []); }
      BlockForKeysLines(s, c, kind, keys, target, head, after, keys[0]);
    case Write(k, v) =>
      if v.Some? {
        WriteStaysAlert(s, k, v.value);
      } else {
        var s' := Put(s, k, v);
        FewerRefl(s, s');
        assert Alert(s') by { assert AlertBut(s, {}) by { AlertAll(s); } StaysAlert(s, s', {}); AlertAll(s'); }
      }
    case HandleReady => NobodyLeftWaiting(s);
    case _ =>
      NextFewer(s, op);
      assert Alert(Next(s, op)) by { AlertAll(s); StaysAlert(s, Next(s, op), {}); AlertAll(Next(s, op)); }
  }

  lemma AlertAll(s: State)
    ensures Alert(s) <==> AlertBut(s, {})
  {
  }

  lemma {:induction false} RunStaysAlert(ss: seq<State>, ops: seq<Op>, n: nat)
    requires Runs(ss, ops) && n < |ss| && ss[0] == State(map[], map[], 0, map[], [], [], {}, map[], [])
    requires forall i :: 0 <= i < |ops| ==> Proper(ss[i], ops[i])
    ensures Good(ss[n], []) && Alert(ss[n]) && FullBut(ss[n], {})
  {
    hide Good, Next, Enabled, Proper, Fits;
    EmptyIsGood();
    RunKeeps(ss, ops, n);
    if n > 0 {
      RunStaysAlert(ss, ops, n - 1);
      assert Steps(ss[n - 1], ops[n - 1], ss[n - 1 + 1]);
      hide Alert, FullBut;
      NextStaysAlert(ss[n - 1], ops[n - 1]);
    }
  }

  /** In every run from an empty server in which no value is overlooked, once the ready keys are handled no
      client waits for a key whose value it could be given. */
  lemma NobodyStarves(ss: seq<State>, ops: seq<Op>, n: nat)
    requires Runs(ss, ops) && n < |ops| && ss[0] == State(map[], map[], 0, map[], [], [], {}, map[], [])
    requires (forall i :: 0 <= i < |ops| ==> Proper(ss[i], ops[i])) && ops[n].HandleReady?
    ensures var s' := ss[n + 1]; forall k, c :: !Servable(s', k, c)
  {
    hide Good, HandleAll, Proper, Alert, FullBut, Servable;
    RunStaysAlert(ss, ops, n);
    assert Steps(ss[n], ops[n], ss[n + 1]);
    NobodyLeftWaiting(ss[n]);
  }
}
