/** The state of a cluster node as it is updated in place, with the loops over all slots. */
module ClusterObject {

  import opened Wrappers
  import opened ClusterSlots
  import opened ClusterNode
  import opened ClusterInvariants

  class ClusterState {

    const me: Id
    var nodes: map<Id, Info>
    const owner: array<Option<Id>>
    var importing: map<nat, Id>
    var currentEpoch: nat
    var lastVoteEpoch: nat
    var authCount: nat
    var authSent: bool
    var authEpoch: nat

    function T(): Table
      reads this, owner
    {
      Table(nodes, owner[..], importing)
    }

    /** The node as a value. */
    function N(): Node
      reads this, owner
    {
      Node(me, currentEpoch, lastVoteEpoch, T(), authCount, authSent, authEpoch)
    }

    ghost predicate Valid()
      reads this, owner
    {
      owner.Length == SLOTS && me in nodes && SlotsOk(T())
    }

    /** A node that knows only itself. */
    constructor (id: Id)
      ensures Valid() && me == id && fresh(owner)
      ensures N() == Node(id, 0, 0,
        Table(map[id := Info(0, true, None, false, {}, 0)], seq(SLOTS, i => None), map[]), 0, false, 0)
    {
      me := id;
      nodes := map[id := Info(0, true, None, false, {}, 0)];
      owner := new Option<Id>[SLOTS](i => None);
      importing := map[];
      currentEpoch, lastVoteEpoch, authCount, authSent, authEpoch := 0, 0, 0, false, 0;
      new;
      assert owner[..] == seq(SLOTS, i => None);
    }

    // ---- single slots ----

    /** clusterAddSlot */
    method AddSlotTo(id: Id, j: nat) returns (ok: bool)
      requires Valid() && j < SLOTS && id in nodes
      modifies this, owner
      ensures Valid() && (T(), ok) == AddSlot(old(T()), id, j) && N() == old(N()).(table := T())
    {
      hide SlotsOk;
      if owner[j].Some? {
        return false;
      }
      AddSlotKeeps(T(), id, j);
      nodes := nodes[id := SetBit(nodes[id], j)];
      owner[j] := Some(id);
      ok := true;
      assert owner[..] == old(owner[..])[j := Some(id)];
    }

    /** clusterDelSlot, with its assertion. */
    method RemoveSlot(j: nat) returns (ok: bool)
      requires Valid() && j < SLOTS
      modifies this, owner
      ensures Valid() && (T(), ok) == DelSlot(old(T()), j) && N() == old(N()).(table := T())
      ensures forall x :: x in old(nodes) && old(owner[j]) != Some(x) ==> x in nodes && nodes[x] == old(nodes[x])
    {
      hide SlotsOk;
      if owner[j].None? {
        return false;
      }
      BitOfOwner(T(), j);
      DelSlotKeeps(T(), j);
      var id := owner[j].value;
      assert id in nodes && j in nodes[id].slots;
      nodes := nodes[id := ClearBit(nodes[id], j)];
      owner[j] := None;
      ok := true;
      assert owner[..] == old(owner[..])[j := None];
    }

    // ---- loops over all slots ----

    /** clusterDelNodeSlots */
    method RemoveNodeSlots(id: Id) returns (deleted: nat)
      requires Valid() && id in nodes
      modifies this, owner
      ensures Valid() && T() == ReleaseFrom(old(T()), id, 0) && N() == old(N()).(table := T())
      ensures deleted == old(nodes[id].numslots)
      ensures forall x :: x in old(nodes) && x != id ==> x in nodes && nodes[x] == old(nodes[x])
    {
      hide SlotsOk, ReleaseFrom, DelSlot;
      deleted := 0;
      var j := 0;
      while j < SLOTS
        invariant 0 <= j <= SLOTS && Valid() && N() == old(N()).(table := T())
        invariant id in nodes
        invariant ReleaseFrom(T(), id, j) == ReleaseFrom(old(T()), id, 0)
        invariant deleted + nodes[id].numslots == old(nodes[id].numslots)
        invariant forall x :: x in old(nodes) && x != id ==> x in nodes && nodes[x] == old(nodes[x])
      {
        ghost var t := T();
        BitIsOwner(t, id, j);
        ReleaseUnfold(t, id, j);
        if j in nodes[id].slots {
          var ok := RemoveSlot(j);
          DelSlotCounts(t, id, j);
          deleted := deleted + 1;
        }
        j := j + 1;
      }
      ReleaseDone(T(), id);
      ReleasedHasNone(old(T()), id);
    }

    /** The loop of clusterUpdateSlotsConfigWith; tells whether `cur` lost a slot to id. */
    method ApplyClaims(id: Id, epoch: nat, claims: set<nat>, cur: Option<Id>) returns (lost: bool)
      requires Valid() && id in nodes
      modifies this, owner
      ensures Valid() && T() == RebindFrom(old(T()), id, epoch, claims, 0) && N() == old(N()).(table := T())
      ensures lost == Loses(old(T()), cur, id, epoch, claims)
    {
      hide SlotsOk, RebindFrom, DelSlot, AddSlot;
      lost := false;
      var j := 0;
      ghost var t0 := T();
      while j < SLOTS
        invariant 0 <= j <= SLOTS && Valid() && N() == old(N()).(table := T())
        invariant id in nodes && SameFrom(t0, T(), j)
        invariant RebindFrom(T(), id, epoch, claims, j) == RebindFrom(t0, id, epoch, claims, 0)
        invariant lost == exists k :: 0 <= k < j && Rebinds(t0, id, epoch, claims, k) && t0.owner[k] == cur
      {
        ghost var t := T();
        RebindUnfold(t, id, epoch, claims, j);
        SameFromRebinds(t0, t, id, epoch, claims, j);
        if j in claims && owner[j] != Some(id) && j !in importing
           && (owner[j].None? || (owner[j].value in nodes && nodes[owner[j].value].configEpoch < epoch)) {
          if owner[j] == cur {
            lost := true;
          }
          var ok := RemoveSlot(j);
          ok := AddSlotTo(id, j);
          RebindIsBoth(t, id, j);
          RebindKeeps(t, id, j);
          SameFromStep(t0, t, T(), j);
        }
        j := j + 1;
      }
      RebindDone(T(), id, epoch, claims);
    }
  
    /** The loop of clusterFailoverReplaceYourMaster. */
    method TakeOver(prev: Id)
      requires Valid() && prev in nodes && prev != me
      modifies this, owner
      ensures Valid() && T() == TakeOverFrom(old(T()), me, prev, 0) && N() == old(N()).(table := T())
    {
      hide SlotsOk, TakeOverFrom, DelSlot, AddSlot;
      var j := 0;
      while j < SLOTS
        invariant 0 <= j <= SLOTS && Valid() && N() == old(N()).(table := T())
        invariant prev in nodes
        invariant TakeOverFrom(T(), me, prev, j) == TakeOverFrom(old(T()), me, prev, 0)
      {
        ghost var t := T();
        BitIsOwner(t, prev, j);
        TakeOverUnfold(t, me, prev, j);
        if j in nodes[prev].slots {
          var ok := RemoveSlot(j);
          ok := AddSlotTo(me, j);
          RebindIsBoth(t, me, j);
        }
        j := j + 1;
      }
      TakeOverDone(T(), me, prev);
    }

    /** The first loop of clusterDelNode, which also ends imports from the node, then freeClusterNode. */
    method ForgetNode(id: Id)
      requires Valid() && id in nodes && id != me
      modifies this, owner
      ensures Valid() && T() == DelNode(old(T()), id) && N() == old(N()).(table := T())
    {
      hide SlotsOk, ReleaseFrom, DelSlot;
      var j := 0;
      while j < SLOTS
        invariant 0 <= j <= SLOTS && Valid() && N() == old(N()).(table := T()) && importing == old(importing)
        invariant ReleaseFrom(T(), id, j) == ReleaseFrom(old(T()), id, 0)
      {
        ReleaseUnfold(T(), id, j);
        if owner[j] == Some(id) {
          ghost var t := T();
          var ok := RemoveSlot(j);
          DelSlotImporting(t, j);
        }
        j := j + 1;
      }
      ReleaseDone(T(), id);
      DelNodeKeeps(old(T()), id);
      importing := map k | k in importing && importing[k] != id :: importing[k];
      nodes := Unlink(nodes, id);
    }

    /** clusterUpdateSlotsConfigWith; `ok` is false when the assertion of clusterSetMaster fails, which
        ends the server. */
    method UpdateSlotsConfig(id: Id, epoch: nat, claims: set<nat>) returns (ok: bool)
      requires Valid() && id in nodes
      modifies this, owner
      ensures Valid() && ok == !UpdateAborts(old(N()), id, epoch, claims)
      ensures ok ==> N() == UpdateSlots(old(N()), id, epoch, claims)
    {
      hide SlotsOk, RebindFrom, Loses;
      if id == me {
        return true;
      }
      var cur := if nodes[me].master then Some(me) else nodes[me].slaveof;
      var lost := ApplyClaims(id, epoch, claims, cur);
      if lost && cur.Some? && cur.value in nodes && nodes[cur.value].numslots == 0 {
        if nodes[me].numslots != 0 {
          return false;
        }
        BecomeReplica(id);
      }
      ok := true;
    }

    /** clusterSetMaster */
    method BecomeReplica(id: Id)
      requires Valid() && id != me && nodes[me].numslots == 0
      modifies this
      ensures Valid() && N() == SetMaster(old(N()), id)
    {
      hide SlotsOk;
      ghost var t := T();
      if nodes[me].master {
        importing := map[];
      }
      nodes := nodes[me := nodes[me].(master := false, slaveof := Some(id))];
      InfoKeepsSlots(t, T(), me);
    }

    /** The search for the first claimed slot that a node with a greater epoch owns. */
    method FindOutdated(m: Msg) returns (o: Option<Id>)
      requires Valid()
      ensures o == OutdatedFrom(T(), m, 0)
    {
      hide SlotsOk;
      var j := 0;
      while j < SLOTS
        invariant 0 <= j <= SLOTS && OutdatedFrom(T(), m, 0) == OutdatedFrom(T(), m, j)
      {
        if j in m.slots && owner[j].Some? && owner[j] != Some(m.from) && owner[j].value in nodes
           && nodes[owner[j].value].configEpoch > m.configEpoch {
          return owner[j];
        }
        j := j + 1;
      }
      return None;
    }

    // ---- epochs ----

    /** clusterGetMaxEpoch */
    method MaxEpoch() returns (e: nat)
      ensures e >= currentEpoch && (forall id :: id in nodes ==> nodes[id].configEpoch <= e)
      ensures e == currentEpoch || exists id :: id in nodes && nodes[id].configEpoch == e
    {
      e := 0;
      var rest := nodes.Keys;
      while rest != {}
        invariant rest <= nodes.Keys
        invariant forall id :: id in nodes && id !in rest ==> nodes[id].configEpoch <= e
        invariant e == 0 || exists id :: id in nodes && nodes[id].configEpoch == e
      {
        var id :| id in rest;
        if nodes[id].configEpoch > e {
          e := nodes[id].configEpoch;
        }
        rest := rest - {id};
      }
      if e < currentEpoch {
        e := currentEpoch;
      }
    }

    method RaiseEpoch()
      requires Valid()
      modifies this
      ensures Valid() && N() == NewEpoch(old(N()))
    {
      hide SlotsOk;
      ghost var t := T();
      currentEpoch := currentEpoch + 1;
      nodes := nodes[me := nodes[me].(configEpoch := currentEpoch)];
      InfoKeepsSlots(t, T(), me);
    }

    /** clusterBumpConfigEpochWithoutConsensus */
    method BumpConfigEpoch() returns (ok: bool)
      requires Valid()
      modifies this
      ensures Valid() && N() == Bump(old(N())) && ok == !HasGreatestEpoch(old(N()))
    {
      hide SlotsOk, NewEpoch;
      var max := MaxEpoch();
      ok := nodes[me].configEpoch == 0 || nodes[me].configEpoch != max;
      if ok {
        RaiseEpoch();
      }
    }

    /** clusterHandleConfigEpochCollision, with the guard of its caller. */
    method ResolveCollision(from: Id, epoch: nat)
      requires Valid() && from in nodes
      modifies this
      ensures Valid() && N() == Collide(old(N()), from, epoch)
    {
      hide SlotsOk, NewEpoch;
      if nodes[me].master && nodes[from].master && epoch == nodes[me].configEpoch {
        if nodes[from].configEpoch != nodes[me].configEpoch || from <= me {
          return;
        }
        RaiseEpoch();
      }
    }

    // ---- packets ----

    /** The role switch of clusterProcessPacket. */
    method UpdateRole(from: Id, slaveof: Option<Id>)
      requires Valid() && from in nodes
      modifies this, owner
      ensures Valid() && N() == SwitchRole(old(N()), from, slaveof)
    {
      hide SlotsOk, ReleaseFrom;
      if slaveof.None? {
        SetInfo(from, AsMaster(nodes[from]));
      } else {
        if nodes[from].master {
          var deleted := RemoveNodeSlots(from);
          SetInfo(from, nodes[from].(master := false));
        }
        if slaveof.value in nodes {
          SetInfo(from, nodes[from].(slaveof := slaveof));
        }
      }
    }

    /** Changes what is known of a node, except its slots. */
    method SetInfo(id: Id, info: Info)
      requires Valid() && id in nodes && info.slots == nodes[id].slots && info.numslots == nodes[id].numslots
      modifies this
      ensures Valid() && N() == WithInfo(old(N()), id, info)
    {
      hide SlotsOk;
      ghost var t := T();
      nodes := nodes[id := info];
      InfoKeepsSlots(t, T(), id);
    }

    /** The configuration part of PING, PONG and MEET. */
    method ProcessPing(m: Msg) returns (ok: bool, out: set<Msg>)
      requires Valid() && m.from in nodes
      modifies this, owner
      ensures Valid() && ok == !PingAborts(old(N()), m) && (ok ==> (N(), out) == HandlePing(old(N()), m))
    {
      hide SlotsOk, SwitchRole, UpdateSlots, UpdateAborts, OutdatedFrom, Compose, Collide;
      out := {};
      UpdateRole(m.from, m.slaveof);
      var master := if nodes[m.from].master then Some(m.from) else nodes[m.from].slaveof;
      var dirty := master.Some? && master.value in nodes && nodes[master.value].slots != m.slots;
      ok := true;
      if nodes[m.from].master && dirty {
        ok := UpdateSlotsConfig(m.from, m.configEpoch, m.slots);
        if !ok {
          return;
        }
      }
      if dirty {
        var o := FindOutdated(m);
        if o.Some? {
          out := {Compose(N(), m.from, Update(o.value, nodes[o.value].configEpoch, nodes[o.value].slots))};
        }
      }
      ResolveCollision(m.from, m.configEpoch);
    }

    /** clusterSendFailoverAuthIfNeeded */
    method ProcessRequest(m: Msg, force: bool, tooSoon: bool) returns (out: set<Msg>)
      requires Valid() && m.from in nodes
      modifies this
      ensures Valid() && (N(), out) == Vote(old(N()), m, force, tooSoon)
    {
      hide SlotsOk, Compose;
      out := {};
      if !nodes[me].master || nodes[me].numslots == 0 || m.currentEpoch < currentEpoch
         || lastVoteEpoch == currentEpoch {
        return;
      }
      var master := nodes[m.from].slaveof;
      if nodes[m.from].master || master.None? || master.value !in nodes || (!nodes[master.value].failed && !force)
         || tooSoon {
        return;
      }
      var j := 0;
      while j < SLOTS
        invariant 0 <= j <= SLOTS
        invariant forall k :: 0 <= k < j && k in m.slots ==> !OwnedAbove(T(), k, m.configEpoch)
      {
        if j in m.slots && owner[j].Some? && owner[j].value in nodes
           && nodes[owner[j].value].configEpoch > m.configEpoch {
          return;
        }
        j := j + 1;
      }
      lastVoteEpoch := currentEpoch;
      out := {Compose(N(), m.from, Ack)};
    }

    /** The UPDATE part of clusterProcessPacket. */
    method ProcessUpdate(id: Id, epoch: nat, claims: set<nat>) returns (ok: bool)
      requires Valid()
      modifies this, owner
      ensures Valid() && ok == !HandleUpdateAborts(old(N()), id, epoch, claims)
      ensures ok ==> N() == HandleUpdate(old(N()), id, epoch, claims)
    {
      hide SlotsOk, UpdateSlots, UpdateAborts;
      if id !in nodes || nodes[id].configEpoch >= epoch {
        return true;
      }
      SetInfo(id, AsMaster(nodes[id]).(configEpoch := epoch));
      ok := UpdateSlotsConfig(id, epoch, claims);
    }

    /** clusterProcessPacket; `ok` is false when an assertion fails. */
    method ProcessPacket(m: Msg, tooSoon: bool) returns (ok: bool, out: set<Msg>)
      requires Valid()
      modifies this, owner
      ensures Valid() && ok == !Aborts(old(N()), m) && (ok ==> (N(), out) == Receive(old(N()), m, tooSoon))
    {
      hide SlotsOk, HandlePing, Vote, HandleUpdate, PingAborts, HandleUpdateAborts;
      ok, out := true, {};
      if m.from !in nodes {
        return;
      }
      if m.currentEpoch > currentEpoch {
        currentEpoch := m.currentEpoch;
      }
      SetInfo(m.from, nodes[m.from].(configEpoch := Max(nodes[m.from].configEpoch, m.configEpoch)));
      match m.body {
        case Ping =>
          ok, out := ProcessPing(m);
        case Fail(about) =>
          if about in nodes && about != me {
            SetInfo(about, nodes[about].(failed := true));
          }
        case Request(force) =>
          out := ProcessRequest(m, force, tooSoon);
        case Ack =>
          if nodes[m.from].master && nodes[m.from].numslots > 0 && m.currentEpoch >= authEpoch {
            authCount := authCount + 1;
          }
        case Update(id, epoch, claims) =>
          ok := ProcessUpdate(id, epoch, claims);
      }
    }

    // ---- failover ----

    /** clusterFailoverReplaceYourMaster */
    method ReplaceYourMaster()
      requires Valid() && nodes[me].slaveof != Some(me)
      modifies this, owner
      ensures Valid() && N() == ReplaceMaster(old(N()))
    {
      hide SlotsOk, TakeOverFrom;
      var prev := nodes[me].slaveof;
      if nodes[me].master || prev.None? {
        return;
      }
      SetInfo(me, AsMaster(nodes[me]));
      if prev.value in nodes {
        TakeOver(prev.value);
      } else {
        TakeOverNothing(T(), me, prev.value, 0);
      }
    }

    /** clusterHandleSlaveFailover */
    method HandleSlaveFailover(manual: bool, force: bool, clock: Clock, size: nat) returns (out: set<Msg>)
      requires Valid() && nodes[me].slaveof != Some(me)
      modifies this, owner
      ensures Valid() && (N(), out) == HandleFailover(old(N()), manual, force, clock, size)
    {
      hide SlotsOk, Broadcast, ReplaceMaster;
      out := {};
      var master := nodes[me].slaveof;
      if nodes[me].master || master.None? || master.value !in nodes || (!nodes[master.value].failed && !manual)
         || nodes[master.value].numslots == 0 {
        return;
      }
      if clock.Retry? {
        authCount, authSent := 0, false;
        return;
      }
      if clock.Hold? {
        return;
      }
      if !authSent {
        currentEpoch := currentEpoch + 1;
        authEpoch := currentEpoch;
        authSent := true;
        out := Broadcast(N(), Request(force));
        return;
      }
      if authCount >= size / 2 + 1 {
        SetInfo(me, nodes[me].(configEpoch := Max(nodes[me].configEpoch, authEpoch)));
        ReplaceYourMaster();
      }
    }
  }

  // ---- facts the loops use ----

  lemma BitOfOwner(t: Table, j: nat)
    requires SlotsOk(t) && j < SLOTS
    ensures t.owner[j].Some? ==> t.owner[j].value in t.nodes && j in t.nodes[t.owner[j].value].slots
  {
  }

  lemma BitIsOwner(t: Table, id: Id, j: nat)
    requires SlotsOk(t) && id in t.nodes && j < SLOTS
    ensures j in t.nodes[id].slots <==> |t.owner| == SLOTS && t.owner[j] == Some(id)
  {
    assert BitsOk(t, id);
  }

  lemma ReleaseUnfold(t: Table, id: Id, j: nat)
    requires j < |t.owner|
    ensures ReleaseFrom(t, id, j) == ReleaseFrom(if t.owner[j] == Some(id) then DelSlot(t, j).0 else t, id, j + 1)
  {
  }

  lemma ReleaseDone(t: Table, id: Id)
    ensures ReleaseFrom(t, id, |t.owner|) == t
  {
  }

  lemma RebindUnfold(t: Table, id: Id, epoch: nat, claims: set<nat>, j: nat)
    requires j < |t.owner| && id in t.nodes
    ensures RebindFrom(t, id, epoch, claims, j)
         == RebindFrom(if Rebinds(t, id, epoch, claims, j) then Rebind(t, id, j) else t, id, epoch, claims, j + 1)
  {
  }

  lemma RebindDone(t: Table, id: Id, epoch: nat, claims: set<nat>)
    requires id in t.nodes
    ensures RebindFrom(t, id, epoch, claims, |t.owner|) == t
  {
  }

  lemma RebindIsBoth(t: Table, id: Id, j: nat)
    requires j < |t.owner| && id in t.nodes
    ensures Rebind(t, id, j) == AddSlot(DelSlot(t, j).0, id, j).0
  {
  }

  /** From slot j on, t says what t0 says about who owns what at which epoch. */
  ghost predicate SameFrom(t0: Table, t: Table, j: nat) {
    && SameNodes(t0, t) && forall k :: j <= k < |t0.owner| ==> t.owner[k] == t0.owner[k]
  }

  lemma SameFromRebinds(t0: Table, t: Table, id: Id, epoch: nat, claims: set<nat>, j: nat)
    requires SameFrom(t0, t, j) && j < |t0.owner|
    ensures Rebinds(t, id, epoch, claims, j) == Rebinds(t0, id, epoch, claims, j) && t.owner[j] == t0.owner[j]
  {
  }

  lemma SameFromStep(t0: Table, t: Table, t': Table, j: nat)
    requires SameFrom(t0, t, j) && SameNodes(t, t') && forall k :: j < k < |t.owner| ==> t'.owner[k] == t.owner[k]
    ensures SameFrom(t0, t', j + 1)
  {
  }

  lemma TakeOverUnfold(t: Table, me: Id, prev: Id, j: nat)
    requires j < |t.owner| && me in t.nodes
    ensures var u := if t.owner[j] == Some(prev) then Rebind(t, me, j) else t;
      TakeOverFrom(t, me, prev, j) == TakeOverFrom(u, me, prev, j + 1)
  {
  }

  lemma TakeOverDone(t: Table, me: Id, prev: Id)
    requires me in t.nodes
    ensures TakeOverFrom(t, me, prev, |t.owner|) == t
  {
  }

  lemma DelSlotCounts(t: Table, id: Id, j: nat)
    requires SlotsOk(t) && id in t.nodes && j in t.nodes[id].slots && j < SLOTS
    ensures id in DelSlot(t, j).0.nodes && DelSlot(t, j).0.nodes[id].numslots + 1 == t.nodes[id].numslots
  {
    assert BitsOk(t, id);
    RemoveOne(t.nodes[id].slots, j);
  }

  lemma DelSlotImporting(t: Table, j: nat)
    requires j < |t.owner|
    ensures DelSlot(t, j).0.importing == t.importing
  {
  }

  lemma ReleasedHasNone(t: Table, id: Id)
    requires SlotsOk(t) && id in t.nodes
    ensures ReleaseFrom(t, id, 0).nodes[id].numslots == 0
  {
    hide ReleaseFrom;
    ReleaseFromKeeps(t, id, 0);
    SlotsOf(ReleaseFrom(t, id, 0), id);
  }

  lemma {:induction false} TakeOverNothing(t: Table, me: Id, prev: Id, j: nat)
    requires SlotsOk(t) && j <= |t.owner| && me in t.nodes && prev !in t.nodes
    ensures TakeOverFrom(t, me, prev, j) == t
    decreases |t.owner| - j
  {
    if j < |t.owner| { TakeOverNothing(t, me, prev, j + 1); }
  }
}
