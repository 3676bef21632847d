/** What every step of a cluster node keeps: slots and bitmaps agree, no config epoch exceeds the
    current epoch, and a replica knows its master. */
module ClusterInvariants {

  import opened Wrappers
  import opened ClusterSlots
  import opened ClusterNode

  ghost predicate Bounded(nodes: map<Id, Info>, e: nat) {
    forall id :: id in nodes ==> nodes[id].configEpoch <= e
  }

  ghost predicate Closed(nodes: map<Id, Info>) {
    forall id :: id in nodes && nodes[id].slaveof.Some? ==> nodes[id].slaveof.value in nodes
  }

  /** Masters are known by name only if they are in the table, and a replica knows its own. */
  ghost predicate RolesOk(n: Node) {
    n.me in n.table.nodes && Closed(n.table.nodes) && (n.table.nodes[n.me].master || n.table.nodes[n.me].slaveof.Some?)
    && n.table.nodes[n.me].slaveof != Some(n.me)
  }

  ghost predicate EpochsOk(n: Node) {
    Bounded(n.table.nodes, n.currentEpoch) && n.lastVoteEpoch <= n.currentEpoch && n.authEpoch <= n.currentEpoch
  }

  /** A replica serves no slot itself. */
  ghost predicate ReplicaEmpty(n: Node) {
    n.me in n.table.nodes && (n.table.nodes[n.me].master || n.table.nodes[n.me].numslots == 0)
  }

  /** With `strict`, the node serves no slot while it is a replica. */
  ghost predicate NodeOk(n: Node, strict: bool) {
    SlotsOk(n.table) && RolesOk(n) && EpochsOk(n) && (strict ==> ReplicaEmpty(n))
  }

  /** No config epoch a message carries exceeds the current epoch it carries. */
  ghost predicate MsgOk(m: Msg) {
    m.configEpoch <= m.currentEpoch && (m.body.Update? ==> m.body.epoch <= m.currentEpoch)
  }

  /** n' follows n, and everything it sends is in order. */
  ghost predicate Follows(n: Node, n': Node, out: set<Msg>, strict: bool) {
    && NodeOk(n', strict) && n'.me == n.me && n'.currentEpoch >= n.currentEpoch
    && forall m :: m in out ==> MsgOk(m) && m.from == n.me && m.currentEpoch <= n'.currentEpoch
  }

  /** The election fields are the same. */
  predicate SameElection(n: Node, n': Node) {
    n'.lastVoteEpoch == n.lastVoteEpoch && n'.authCount == n.authCount && n'.authSent == n.authSent
      && n'.authEpoch == n.authEpoch
  }

  lemma NodeOkWf(n: Node, strict: bool)
    requires NodeOk(n, strict)
    ensures Wf(n)
  {
  }

  // ---- pieces ----

  /** Changing what is not about slots keeps the slots in order. */
  lemma InfoKeepsSlots(t: Table, t': Table, id: Id)
    requires SlotsOk(t) && id in t.nodes && id in t'.nodes && t'.owner == t.owner
    requires t'.nodes == t.nodes[id := t'.nodes[id]]
    requires t'.nodes[id].slots == t.nodes[id].slots && t'.nodes[id].numslots == t.nodes[id].numslots
    ensures SlotsOk(t')
  {
    forall a | a in t'.nodes
      ensures BitsOk(t', a) && t'.nodes[a].numslots == |t'.nodes[a].slots|
    {
      assert BitsOk(t, a);
    }
  }

  lemma OwnerKeepsSlots(t: Table, t': Table)
    requires SlotsOk(t) && t'.owner == t.owner && t'.nodes == t.nodes
    ensures SlotsOk(t')
  {
    forall a | a in t'.nodes
      ensures BitsOk(t', a)
    {
      assert BitsOk(t, a);
    }
  }

  ghost predicate NoGain(t: Table, t': Table, me: Id) {
    |t.owner| == |t'.owner| == SLOTS && forall k :: 0 <= k < SLOTS && t'.owner[k] == Some(me) ==> t.owner[k] == Some(me)
  }

  lemma NoGainNoSlots(t: Table, t': Table, me: Id)
    requires SlotsOk(t) && SlotsOk(t') && me in t.nodes && me in t'.nodes && t.nodes[me].numslots == 0
    requires NoGain(t, t', me)
    ensures t'.nodes[me].numslots == 0
  {
    SlotsOf(t, me);
    SlotsOf(t', me);
    assert t'.nodes[me].slots <= t.nodes[me].slots;
  }

  /** Moving slots between nodes changes neither epochs nor roles. */
  lemma SlotMoveKeeps(n: Node, t: Table, strict: bool)
    requires NodeOk(n, strict) && SlotsOk(t) && SameNodes(n.table, t)
    requires !strict || n.table.nodes[n.me].master || NoGain(n.table, t, n.me)
    ensures NodeOk(n.(table := t), strict)
  {
    if strict && !n.table.nodes[n.me].master { NoGainNoSlots(n.table, t, n.me); }
    hide SlotsOk;
  }

  lemma ComposeOk(n: Node, to: Id, body: Body, strict: bool)
    requires NodeOk(n, strict)
    requires body.Update? ==> body.epoch <= n.currentEpoch
    ensures Wf(n) && MsgOk(Compose(n, to, body))
  {
  }

  lemma LearnEpochsKeeps(n: Node, m: Msg, strict: bool)
    requires NodeOk(n, strict) && MsgOk(m) && m.from in n.table.nodes
    ensures var n' := LearnEpochs(n, m);
      Follows(n, n', {}, strict) && SameElection(n, n') && n'.currentEpoch >= m.currentEpoch
  {
    hide SlotsOk;
    InfoKeepsSlots(n.table, LearnEpochs(n, m).table, m.from);
  }

  /** A new epoch is strictly above every epoch the node knows. */
  lemma NewEpochKeeps(n: Node, strict: bool)
    requires NodeOk(n, strict)
    ensures Wf(n)
    ensures var n' := NewEpoch(n);
      && Follows(n, n', {}, strict) && SameElection(n, n')
        && n'.currentEpoch == n'.table.nodes[n.me].configEpoch == n.currentEpoch + 1
      && forall id :: id in n.table.nodes ==> n'.table.nodes[n.me].configEpoch > n.table.nodes[id].configEpoch
  {
    hide SlotsOk;
    NodeOkWf(n, strict);
    InfoKeepsSlots(n.table, NewEpoch(n).table, n.me);
  }

  lemma AsMasterKeeps(n: Node, id: Id, strict: bool)
    requires NodeOk(n, strict) && id in n.table.nodes
    ensures Follows(n, WithInfo(n, id, AsMaster(n.table.nodes[id])), {}, strict)
  {
    hide SlotsOk;
    InfoKeepsSlots(n.table, WithInfo(n, id, AsMaster(n.table.nodes[id])).table, id);
  }

  lemma SetMasterKeeps(n: Node, id: Id, strict: bool)
    requires NodeOk(n, strict) && id in n.table.nodes && id != n.me
    requires strict ==> n.table.nodes[n.me].numslots == 0
    ensures Wf(n) && Follows(n, SetMaster(n, id), {}, strict) && SameElection(n, SetMaster(n, id))
  {
    hide SlotsOk;
    NodeOkWf(n, strict);
    InfoKeepsSlots(n.table, SetMaster(n, id).table, n.me);
  }

  lemma ReplicaFlagKeeps(n: Node, id: Id, strict: bool)
    requires NodeOk(n, strict) && id in n.table.nodes && id != n.me
    ensures var n' := WithInfo(n, id, n.table.nodes[id].(master := false));
      Follows(n, n', {}, strict) && SameElection(n, n')
  {
    hide SlotsOk;
    InfoKeepsSlots(n.table, WithInfo(n, id, n.table.nodes[id].(master := false)).table, id);
  }

  lemma DemoteKeeps(n: Node, id: Id, strict: bool)
    requires NodeOk(n, strict) && id in n.table.nodes && id != n.me
    ensures Wf(n) && Follows(n, Demote(n, id), {}, strict) && SameElection(n, Demote(n, id))
  {
    hide NodeOk, ReleaseFrom, SlotsOk;
    NodeOkWf(n, strict);
    NodeOkParts(n, strict);
    ReleaseFromKeeps(n.table, id, 0);
    var u := n.(table := ReleaseFrom(n.table, id, 0));
    SlotMoveKeeps(n, u.table, strict);
    ReplicaFlagKeeps(u, id, strict);
  }

  lemma SlaveofKeeps(n: Node, id: Id, master: Id, strict: bool)
    requires NodeOk(n, strict) && id in n.table.nodes && id != n.me && master in n.table.nodes
    ensures var n' := WithInfo(n, id, n.table.nodes[id].(slaveof := Some(master)));
      Follows(n, n', {}, strict) && SameElection(n, n')
  {
    hide SlotsOk;
    InfoKeepsSlots(n.table, WithInfo(n, id, n.table.nodes[id].(slaveof := Some(master))).table, id);
  }

  lemma SwitchRoleKeeps(n: Node, from: Id, slaveof: Option<Id>, strict: bool)
    requires NodeOk(n, strict) && from in n.table.nodes && from != n.me
    ensures Wf(n) && Follows(n, SwitchRole(n, from, slaveof), {}, strict)
    ensures SameElection(n, SwitchRole(n, from, slaveof))
  {
    hide NodeOk, Demote;
    NodeOkWf(n, strict);
    AsMasterKeeps(n, from, strict);
    DemoteKeeps(n, from, strict);
    var u := if n.table.nodes[from].master then Demote(n, from) else n;
    if slaveof.Some? && slaveof.value in u.table.nodes {
      SlaveofKeeps(u, from, slaveof.value, strict);
    }
  }

  lemma UpdateSlotsKeeps(n: Node, id: Id, epoch: nat, claims: set<nat>, strict: bool)
    requires NodeOk(n, strict) && id in n.table.nodes
    ensures Wf(n)
    ensures var n' := UpdateSlots(n, id, epoch, claims);
      Follows(n, n', {}, strict) && SameElection(n, n') && n'.currentEpoch == n.currentEpoch
  {
    hide SlotsOk, RebindFrom, Demotes, SetMaster, NodeOk;
    NodeOkWf(n, strict);
    if id != n.me {
      NodeOkParts(n, strict);
      RebindFromKeeps(n.table, id, epoch, claims, 0);
      var u := n.(table := RebindFrom(n.table, id, epoch, claims, 0));
      SlotMoveKeeps(n, u.table, strict);
      if Demotes(n, id, epoch, claims) {
        SetMasterAssertion(n, id, epoch, claims);
        if Stranded(n, id, epoch, claims) { StrandedServes(n, id, epoch, claims); }
        SetMasterKeeps(u, id, strict);
        SetMasterEpoch(u, id);
      }
    }
  }

  lemma ServesSlots(t: Table, id: Id)
    requires SlotsOk(t) && id in t.nodes
    ensures |t.owner| == SLOTS
    ensures t.nodes[id].numslots != 0 <==> exists j :: 0 <= j < SLOTS && t.owner[j] == Some(id)
  {
    SlotsOf(t, id);
    assert t.nodes[id].numslots == |t.nodes[id].slots|;
    if t.nodes[id].slots != {} {
      var j :| j in t.nodes[id].slots;
      assert t.owner[j] == Some(id);
    }
  }

  /** The assertion of clusterSetMaster fails, when a configuration is received, if and only if it
      leaves this node stranded, as the table before tells. */
  lemma SetMasterAssertion(n: Node, id: Id, epoch: nat, claims: set<nat>)
    requires SlotsOk(n.table) && RolesOk(n) && id in n.table.nodes
    ensures Wf(n)
    ensures UpdateAborts(n, id, epoch, claims) <==> Stranded(n, id, epoch, claims)
  {
    hide SlotsOk, RebindFrom;
    OwnerLength(n.table);
    var t, mine := n.table, n.table.nodes[n.me];
    if id != n.me && !mine.master {
      RebindFromKeeps(t, id, epoch, claims, 0);
      var t' := RebindFrom(t, id, epoch, claims, 0);
      ServesSlots(t', n.me);
      ServesSlots(t', mine.slaveof.value);
      hide Rebinds;
      if UpdateAborts(n, id, epoch, claims) {
        var k :| 0 <= k < SLOTS && t'.owner[k] == Some(n.me);
        assert t.owner[k] == Some(n.me) && !Rebinds(t, id, epoch, claims, k);
        forall j | 0 <= j < SLOTS && t.owner[j] == mine.slaveof
          ensures Rebinds(t, id, epoch, claims, j)
        {
          assert t'.owner[j] != mine.slaveof;
        }
      }
      if Stranded(n, id, epoch, claims) {
        StrandedAborts(n, t', id, epoch, claims);
      }
    }
  }

  lemma StrandedAborts(n: Node, t': Table, id: Id, epoch: nat, claims: set<nat>)
    requires Wf(n) && id in n.table.nodes && Stranded(n, id, epoch, claims)
    requires t' == RebindFrom(n.table, id, epoch, claims, 0)
    requires forall k :: 0 <= k < SLOTS ==>
      t'.owner[k] == if Rebinds(n.table, id, epoch, claims, k) then Some(id) else n.table.owner[k]
    requires n.table.nodes[n.me].slaveof.value in t'.nodes
    requires t'.nodes[n.me].numslots != 0 <==> exists j :: 0 <= j < SLOTS && t'.owner[j] == Some(n.me)
    requires var m := n.table.nodes[n.me].slaveof;
      t'.nodes[m.value].numslots != 0 <==> exists j :: 0 <= j < SLOTS && t'.owner[j] == Some(m.value)
    ensures UpdateAborts(n, id, epoch, claims)
  {
    hide RebindFrom;
    var t, master := n.table, n.table.nodes[n.me].slaveof;
    var i :| 0 <= i < SLOTS && t.owner[i] == master;
    assert Rebinds(t, id, epoch, claims, i);
    var k :| 0 <= k < SLOTS && t.owner[k] == Some(n.me) && !Rebinds(t, id, epoch, claims, k);
    assert t'.owner[k] == Some(n.me);
    forall j | 0 <= j < SLOTS
      ensures t'.owner[j] != master
    {
      assert Some(id) != master;
    }
  }

  lemma NotStrict(n: Node, strict: bool)
    requires NodeOk(n, strict)
    ensures NodeOk(n, false)
  {
  }

  lemma NodeOkParts(n: Node, strict: bool)
    requires NodeOk(n, strict)
    ensures SlotsOk(n.table) && RolesOk(n) && EpochsOk(n) && (strict ==> ReplicaEmpty(n))
  {
  }

  lemma SetMasterEpoch(n: Node, id: Id)
    requires Wf(n)
    ensures SetMaster(n, id).currentEpoch == n.currentEpoch
  {
  }

  lemma CollideKeeps(n: Node, from: Id, epoch: nat, strict: bool)
    requires NodeOk(n, strict) && from in n.table.nodes
    ensures Wf(n) && Follows(n, Collide(n, from, epoch), {}, strict) && SameElection(n, Collide(n, from, epoch))
  {
    hide NodeOk, NewEpoch;
    NodeOkWf(n, strict);
    NewEpochKeeps(n, strict);
  }

  // ---- packets ----

  lemma OutdatedOk(n: Node, m: Msg, o: Id, strict: bool)
    requires NodeOk(n, strict) && o in n.table.nodes
    ensures Wf(n)
    ensures var r := Compose(n, m.from, Update(o, n.table.nodes[o].configEpoch, n.table.nodes[o].slots));
      MsgOk(r) && r.from == n.me && r.currentEpoch == n.currentEpoch
  {
    hide SlotsOk;
    NodeOkWf(n, strict);
    ComposeOk(n, m.from, Update(o, n.table.nodes[o].configEpoch, n.table.nodes[o].slots), strict);
  }

  lemma HandlePingKeeps(n: Node, m: Msg, strict: bool)
    requires NodeOk(n, strict) && m.from in n.table.nodes && m.from != n.me
    ensures Wf(n)
    ensures var (n', out) := HandlePing(n, m);
      Follows(n, n', out, strict) && SameElection(n, n') && forall r :: r in out ==> r.body.Update?
  {
    hide NodeOk, SwitchRole, UpdateSlots, Dirty, OutdatedFrom, Collide, Compose;
    NodeOkWf(n, strict);
    SwitchRoleKeeps(n, m.from, m.slaveof, strict);
    var a := SwitchRole(n, m.from, m.slaveof);
    UpdateSlotsKeeps(a, m.from, m.configEpoch, m.slots, strict);
    var b := if a.table.nodes[m.from].master && Dirty(a, m) then UpdateSlots(a, m.from, m.configEpoch, m.slots) else a;
    var o := if Dirty(a, m) then OutdatedFrom(b.table, m, 0) else None;
    if o.Some? {
      OutdatedOk(b, m, o.value, strict);
      ComposeBody(b, m.from, Update(o.value, b.table.nodes[o.value].configEpoch, b.table.nodes[o.value].slots));
    }
    CollideKeeps(b, m.from, m.configEpoch, strict);
  }

  lemma ComposeBody(n: Node, to: Id, body: Body)
    requires Wf(n)
    ensures var m := Compose(n, to, body);
      m.body == body && m.to == to && m.from == n.me && m.currentEpoch == n.currentEpoch
  {
  }

  lemma VoteKeeps(n: Node, m: Msg, force: bool, tooSoon: bool, strict: bool)
    requires NodeOk(n, strict) && m.from in n.table.nodes
    ensures Wf(n)
    ensures var (n', out) := Vote(n, m, force, tooSoon);
      Follows(n, n', out, strict)
  {
    hide Grants, SlotsOk;
    NodeOkWf(n, strict);
    ComposeOk(n.(lastVoteEpoch := n.currentEpoch), m.from, Ack, strict);
  }

  lemma HandleUpdateKeeps(n: Node, id: Id, epoch: nat, claims: set<nat>, strict: bool)
    requires NodeOk(n, strict) && epoch <= n.currentEpoch
    ensures Wf(n)
    ensures var n' := HandleUpdate(n, id, epoch, claims);
      Follows(n, n', {}, strict) && SameElection(n, n')
  {
    hide NodeOk, UpdateSlots, WithInfo;
    NodeOkWf(n, strict);
    if id in n.table.nodes {
      PromoteKeeps(n, id, epoch, strict);
      UpdateSlotsKeeps(WithInfo(n, id, AsMaster(n.table.nodes[id]).(configEpoch := epoch)), id, epoch, claims, strict);
    }
  }

  lemma PromoteKeeps(n: Node, id: Id, epoch: nat, strict: bool)
    requires NodeOk(n, strict) && id in n.table.nodes && epoch <= n.currentEpoch
    ensures var n' := WithInfo(n, id, AsMaster(n.table.nodes[id]).(configEpoch := epoch));
      id in n'.table.nodes && Follows(n, n', {}, strict) && SameElection(n, n')
  {
    hide SlotsOk;
    InfoKeepsSlots(n.table, WithInfo(n, id, AsMaster(n.table.nodes[id]).(configEpoch := epoch)).table, id);
  }

  lemma MarkFailedKeeps(n: Node, id: Id, strict: bool)
    requires NodeOk(n, strict)
    ensures Follows(n, MarkFailed(n, id), {}, strict) && SameElection(n, MarkFailed(n, id))
  {
    hide SlotsOk;
    if id in n.table.nodes {
      InfoKeepsSlots(n.table, WithInfo(n, id, n.table.nodes[id].(failed := true)).table, id);
    }
  }

  lemma CountKeeps(n: Node, strict: bool)
    requires NodeOk(n, strict)
    ensures NodeOk(n.(authCount := n.authCount + 1), strict)
  {
  }

  /** Handling a packet from another node keeps the node in order. */
  lemma ReceiveKeeps(n: Node, m: Msg, tooSoon: bool, strict: bool)
    requires NodeOk(n, strict) && MsgOk(m) && m.from != n.me
    ensures Wf(n)
    ensures var (n', out) := Receive(n, m, tooSoon); Follows(n, n', out, strict)
  {
    hide NodeOk, LearnEpochs, HandlePing, Vote, HandleUpdate, MarkFailed;
    NodeOkWf(n, strict);
    if m.from in n.table.nodes {
      LearnEpochsKeeps(n, m, strict);
      var l := LearnEpochs(n, m);
      NodeOkWf(l, strict);
      LearnEpochsNodes(n, m);
      match m.body
      case Ping => HandlePingKeeps(l, m, strict);
      case Fail(about) => MarkFailedKeeps(l, about, strict);
      case Request(force) => VoteKeeps(l, m, force, tooSoon, strict);
      case Ack => CountKeeps(l, strict);
      case Update(id, epoch, claims) => HandleUpdateKeeps(l, id, epoch, claims, strict);
    }
  }

  lemma LearnEpochsNodes(n: Node, m: Msg)
    requires m.from in n.table.nodes
    ensures LearnEpochs(n, m).table.nodes.Keys == n.table.nodes.Keys && LearnEpochs(n, m).me == n.me
  {
  }

  // ---- failover ----

  lemma ReplaceMasterKeeps(n: Node, strict: bool)
    requires NodeOk(n, strict)
    ensures Wf(n)
    ensures var n' := ReplaceMaster(n);
      Follows(n, n', {}, strict) && SameElection(n, n') && n'.currentEpoch == n.currentEpoch
  {
    hide NodeOk, SlotsOk, TakeOverFrom;
    NodeOkWf(n, strict);
    var i := n.table.nodes[n.me];
    if !i.master && i.slaveof.Some? {
      NodeOkParts(n, strict);
      AsMasterKeeps(n, n.me, strict);
      var p := WithInfo(n, n.me, AsMaster(i));
      NodeOkParts(p, strict);
      OwnerLength(p.table);
      TakeOverFromKeeps(p.table, n.me, i.slaveof.value, 0);
      SlotMoveKeeps(p, TakeOverFrom(p.table, n.me, i.slaveof.value, 0), strict);
    }
  }

  lemma WinKeeps(n: Node, strict: bool)
    requires NodeOk(n, strict)
    ensures Wf(n)
    ensures var n' := Win(n);
      Follows(n, n', {}, strict) && SameElection(n, n') && n'.currentEpoch == n.currentEpoch
  {
    hide NodeOk, SlotsOk, ReplaceMaster, TakeOverFrom;
    NodeOkWf(n, strict);
    var p := WithInfo(n, n.me, n.table.nodes[n.me].(configEpoch := Max(n.table.nodes[n.me].configEpoch, n.authEpoch)));
    ElectedEpochKeeps(n, strict);
    ReplaceMasterKeeps(p, strict);
  }

  lemma ElectedEpochKeeps(n: Node, strict: bool)
    requires NodeOk(n, strict)
    ensures NodeOk(WithInfo(n, n.me,
      n.table.nodes[n.me].(configEpoch := Max(n.table.nodes[n.me].configEpoch, n.authEpoch))), strict)
  {
    hide SlotsOk;
    InfoKeepsSlots(n.table, WithInfo(n, n.me,
      n.table.nodes[n.me].(configEpoch := Max(n.table.nodes[n.me].configEpoch, n.authEpoch))).table, n.me);
  }

  lemma StartKeeps(n: Node, strict: bool)
    requires NodeOk(n, strict)
    ensures NodeOk(Start(n), strict)
  {
    hide SlotsOk;
  }

  lemma BroadcastOk(n: Node, body: Body, strict: bool)
    requires NodeOk(n, strict) && !body.Update?
    ensures Wf(n)
    ensures forall m :: m in Broadcast(n, body) ==>
      MsgOk(m) && m.from == n.me && m.currentEpoch == n.currentEpoch && m.body == body
  {
    hide NodeOk, Compose, MsgOk;
    NodeOkWf(n, strict);
    forall x | x in n.table.nodes
      ensures var m := Compose(n, x, body);
        MsgOk(m) && m.from == n.me && m.currentEpoch == n.currentEpoch && m.body == body
    {
      ComposeOk(n, x, body, strict);
      ComposeBody(n, x, body);
    }
  }

  lemma HandleFailoverKeeps(n: Node, manual: bool, force: bool, clock: Clock, size: nat, strict: bool)
    requires NodeOk(n, strict)
    ensures Wf(n)
    ensures var (n', out) := HandleFailover(n, manual, force, clock, size); Follows(n, n', out, strict)
  {
    hide NodeOk, MayFailOver, Win, Broadcast;
    NodeOkWf(n, strict);
    ResetKeeps(n, strict);
    StartKeeps(n, strict);
    BroadcastOk(Start(n), Request(force), strict);
    WinKeeps(n, strict);
  }

  lemma ResetKeeps(n: Node, strict: bool)
    requires NodeOk(n, strict)
    ensures NodeOk(n.(authCount := 0, authSent := false), strict)
  {
  }

  // ---- commands ----

  lemma ImportKeeps(n: Node, importing: map<nat, Id>, strict: bool)
    requires NodeOk(n, strict)
    ensures NodeOk(n.(table := n.table.(importing := importing)), strict)
  {
    OwnerKeepsSlots(n.table, n.table.(importing := importing));
    hide SlotsOk;
  }

  lemma BumpKeeps(n: Node, strict: bool)
    requires NodeOk(n, strict)
    ensures Wf(n) && Follows(n, Bump(n), {}, strict) && SameElection(n, Bump(n))
  {
    hide NodeOk, NewEpoch, HasGreatestEpoch;
    NodeOkWf(n, strict);
    NewEpochKeeps(n, strict);
  }

  lemma AssignKeeps(n: Node, id: Id, j: nat, strict: bool)
    requires NodeOk(n, strict) && j < SLOTS && id in n.table.nodes && n.table.nodes[n.me].master
    ensures Wf(n) && NodeOk(n.(table := Rebind(n.table, id, j)), strict)
  {
    hide NodeOk, SlotsOk, Rebind;
    NodeOkWf(n, strict);
    NodeOkParts(n, strict);
    RebindKeeps(n.table, id, j);
    SlotMoveKeeps(n, Rebind(n.table, id, j), strict);
  }

  lemma AssignSlotKeeps(n: Node, j: nat, id: Id, strict: bool)
    requires NodeOk(n, strict) && j < SLOTS && id in n.table.nodes && n.table.nodes[n.me].master
    ensures Wf(n) && Follows(n, AssignSlot(n, j, id), {}, strict) && SameElection(n, AssignSlot(n, j, id))
  {
    hide NodeOk, Rebind, HasGreatestEpoch;
    NodeOkWf(n, strict);
    BumpKeeps(n, strict);
    ImportKeeps(Bump(n), Bump(n).table.importing - {j}, strict);
    var a := if id == n.me && j in n.table.importing then Bump(n).(table := NoImport(Bump(n).table, j)) else n;
    AssignKeeps(a, id, j, strict);
  }

  lemma GiveKeeps(n: Node, j: nat, strict: bool)
    requires NodeOk(n, strict) && j < SLOTS && Wf(n) && n.table.owner[j].None?
    requires strict ==> n.table.nodes[n.me].master
    ensures NodeOk(n.(table := AddSlot(n.table, n.me, j).0), strict)
  {
    hide NodeOk, SlotsOk;
    NodeOkParts(n, strict);
    AddSlotKeeps(n.table, n.me, j);
    SlotMoveKeeps(n, AddSlot(n.table, n.me, j).0, strict);
  }

  lemma TakeKeeps(n: Node, j: nat, strict: bool)
    requires NodeOk(n, strict) && j < SLOTS && Wf(n)
    ensures NodeOk(n.(table := DelSlot(n.table, j).0), strict)
  {
    hide NodeOk, SlotsOk;
    NodeOkParts(n, strict);
    DelSlotKeeps(n.table, j);
    SlotMoveKeeps(n, DelSlot(n.table, j).0, strict);
  }

  lemma FlushKeeps(n: Node, strict: bool)
    requires NodeOk(n, strict)
    ensures Wf(n) && NodeOk(n.(table := ReleaseFrom(n.table, n.me, 0)), strict)
  {
    hide NodeOk, SlotsOk, ReleaseFrom;
    NodeOkWf(n, strict);
    NodeOkParts(n, strict);
    ReleaseFromKeeps(n.table, n.me, 0);
    SlotMoveKeeps(n, ReleaseFrom(n.table, n.me, 0), strict);
  }

  lemma ForgetKeeps(n: Node, id: Id, strict: bool)
    requires NodeOk(n, strict) && id != n.me && (n.table.nodes[n.me].master || n.table.nodes[n.me].slaveof != Some(id))
    ensures Wf(n) && NodeOk(n.(table := DelNode(n.table, id)), strict)
  {
    hide NodeOk, SlotsOk, ReleaseFrom;
    NodeOkWf(n, strict);
    NodeOkParts(n, strict);
    ReleaseFromKeeps(n.table, id, 0);
    DelNodeKeeps(n.table, id);
    var u := n.(table := ReleaseFrom(n.table, id, 0));
    SlotMoveKeeps(n, u.table, strict);
    UnlinkRoles(u, n.(table := DelNode(n.table, id)), id, strict);
  }

  lemma UnlinkRoles(u: Node, n': Node, id: Id, strict: bool)
    requires NodeOk(u, strict) && id != u.me && (u.table.nodes[u.me].master || u.table.nodes[u.me].slaveof != Some(id))
    requires n' == u.(table := n'.table) && n'.table.nodes == Unlink(u.table.nodes, id) && SlotsOk(n'.table)
    ensures NodeOk(n', strict)
  {
    hide SlotsOk;
  }

  lemma NewNodeKeepsSlots(t: Table, t': Table, id: Id, info: Info)
    requires SlotsOk(t) && id !in t.nodes && t'.owner == t.owner && t'.nodes == t.nodes[id := info]
    requires info.slots == {} && info.numslots == 0
    ensures SlotsOk(t')
  {
    forall a | a in t'.nodes
      ensures BitsOk(t', a) && t'.nodes[a].numslots == |t'.nodes[a].slots|
    {
      if a in t.nodes { assert BitsOk(t, a); }
    }
  }

  lemma IntroduceKeeps(n: Node, id: Id, master: bool, strict: bool)
    requires NodeOk(n, strict) && id !in n.table.nodes
    ensures NodeOk(WithInfo(n, id, Info(0, master, None, false, {}, 0)), strict)
  {
    hide SlotsOk;
    var info := Info(0, master, None, false, {}, 0);
    NewNodeKeepsSlots(n.table, WithInfo(n, id, info).table, id, info);
  }

  lemma SetEpochKeeps(n: Node, e: nat, strict: bool)
    requires NodeOk(n, strict)
    ensures NodeOk(WithInfo(n, n.me,
      n.table.nodes[n.me].(configEpoch := e)).(currentEpoch := Max(n.currentEpoch, e)), strict)
  {
    hide SlotsOk;
    InfoKeepsSlots(n.table, WithInfo(n, n.me, n.table.nodes[n.me].(configEpoch := e)).table, n.me);
  }

  /** Every command keeps the node in order; adding slots to a replica makes it a replica with slots. */
  lemma ExecuteKeeps(n: Node, c: Command, strict: bool)
    requires NodeOk(n, strict) && (strict && c.AddSlots? ==> n.table.nodes[n.me].master)
    ensures Wf(n) && Follows(n, Execute(n, c), {}, strict) && SameElection(n, Execute(n, c))
  {
    hide NodeOk, AssignSlot, Bump, SetMaster, AddSlot, DelSlot, ReleaseFrom, DelNode, WithInfo;
    NodeOkWf(n, strict);
    match c
    case AddSlots(j) =>
      ImportKeeps(n, n.table.importing - {j}, strict);
      if j < SLOTS && n.table.owner[j].None? { GiveKeeps(n.(table := NoImport(n.table, j)), j, strict); }
    case DelSlots(j) =>
      ImportKeeps(n, n.table.importing - {j}, strict);
      if j < SLOTS { TakeKeeps(n.(table := NoImport(n.table, j)), j, strict); }
    case FlushSlots => FlushKeeps(n, strict);
    case Importing(j, id) => ImportKeeps(n, n.table.importing[j := id], strict);
    case Stable(j) => ImportKeeps(n, n.table.importing - {j}, strict);
    case SetSlotNode(j, id) =>
      if j < SLOTS && n.table.nodes[n.me].master && id in n.table.nodes { AssignSlotKeeps(n, j, id, strict); }
    case BumpEpoch => BumpKeeps(n, strict);
    case SetConfigEpoch(e) => ExecuteSetEpoch(n, e, strict);
    case Forget(id) =>
      if id in n.table.nodes && id != n.me && (n.table.nodes[n.me].master || n.table.nodes[n.me].slaveof != Some(id)) {
        ForgetKeeps(n, id, strict);
      }
    case Replicate(id) => ExecuteReplicate(n, id, strict);
    case Introduce(id, master) => ExecuteIntroduce(n, id, master, strict);
    case ClearFailure(id) => ExecuteClearFailure(n, id, strict);
  }

  lemma ExecuteClearFailure(n: Node, id: Id, strict: bool)
    requires NodeOk(n, strict)
    ensures Wf(n) && Follows(n, Execute(n, ClearFailure(id)), {}, strict)
    ensures SameElection(n, Execute(n, ClearFailure(id)))
  {
    hide SlotsOk;
    NodeOkWf(n, strict);
    if id in n.table.nodes {
      InfoKeepsSlots(n.table, WithInfo(n, id, n.table.nodes[id].(failed := false)).table, id);
    }
  }

  lemma ExecuteSetEpoch(n: Node, e: nat, strict: bool)
    requires NodeOk(n, strict)
    ensures Wf(n) && Follows(n, Execute(n, SetConfigEpoch(e)), {}, strict)
    ensures SameElection(n, Execute(n, SetConfigEpoch(e)))
  {
    hide NodeOk;
    NodeOkWf(n, strict);
    SetEpochKeeps(n, e, strict);
  }

  lemma ExecuteReplicate(n: Node, id: Id, strict: bool)
    requires NodeOk(n, strict)
    ensures Wf(n) && Follows(n, Execute(n, Replicate(id)), {}, strict) && SameElection(n, Execute(n, Replicate(id)))
  {
    hide NodeOk, SetMaster, SlotsOk, RolesOk, EpochsOk;
    NodeOkWf(n, strict);
    NodeOkParts(n, strict);
    if id in n.table.nodes && id != n.me && (!n.table.nodes[n.me].master || n.table.nodes[n.me].numslots == 0) {
      SetMasterKeeps(n, id, strict);
    }
  }

  lemma ExecuteIntroduce(n: Node, id: Id, master: bool, strict: bool)
    requires NodeOk(n, strict)
    ensures Wf(n) && Follows(n, Execute(n, Introduce(id, master)), {}, strict)
    ensures SameElection(n, Execute(n, Introduce(id, master)))
  {
    hide NodeOk;
    NodeOkWf(n, strict);
    if id !in n.table.nodes { IntroduceKeeps(n, id, master, strict); }
  }

  /** A command leaves a replica that serves slots exactly when it adds a free slot to a replica. */
  lemma ReplicaStaysEmpty(n: Node, c: Command)
    requires NodeOk(n, true)
    ensures Wf(n)
    ensures ReplicaEmpty(Execute(n, c))
      <==> !(c.AddSlots? && c.slot < SLOTS && n.table.owner[c.slot].None? && !n.table.nodes[n.me].master)
  {
    NodeOkWf(n, true);
    if c.AddSlots? && !n.table.nodes[n.me].master {
      hide NodeOk, SlotsOk;
      NodeOkParts(n, true);
    } else {
      hide NodeOk, Execute;
      ExecuteKeeps(n, c, true);
      NodeOkParts(Execute(n, c), true);
    }
  }

  // ---- epochs are strictly greater after a bump or a collision ----

  /** A bump gives the node an epoch above all it knows, or it already had the greatest. */
  lemma BumpRaises(n: Node, strict: bool)
    requires NodeOk(n, strict)
    ensures Wf(n)
    ensures var e := Bump(n).table.nodes[n.me].configEpoch;
      && e == Bump(n).currentEpoch > 0
      && (if HasGreatestEpoch(n) then Bump(n) == n
          else e > n.currentEpoch && forall id :: id in n.table.nodes ==> e > n.table.nodes[id].configEpoch)
  {
    hide SlotsOk;
    NodeOkWf(n, strict);
    NewEpochKeeps(n, strict);
  }

  /** After a collision is handled on both sides, the node with the smaller name has an epoch above
      all it knew and the other one has not moved. */
  lemma CollisionResolved(a: Node, b: Node, strict: bool)
    requires NodeOk(a, strict) && NodeOk(b, strict) && a.me < b.me && b.me in a.table.nodes && a.me in b.table.nodes
    requires a.table.nodes[a.me].master && a.table.nodes[b.me].master && b.table.nodes[b.me].master
    requires b.table.nodes[a.me].master
    requires a.table.nodes[a.me].configEpoch == a.table.nodes[b.me].configEpoch == b.table.nodes[b.me].configEpoch
      == b.table.nodes[a.me].configEpoch
    ensures Wf(a) && Wf(b)
    ensures var e := a.table.nodes[a.me].configEpoch;
      && Collide(b, a.me, e) == b
      && forall id :: id in a.table.nodes ==>
        Collide(a, b.me, e).table.nodes[a.me].configEpoch > a.table.nodes[id].configEpoch
  {
    hide NodeOk, NewEpoch;
    NodeOkWf(a, strict);
    NodeOkWf(b, strict);
    NewEpochKeeps(a, strict);
  }

  // ---- slots change hands upwards ----

  /** Slot j has no new owner, or one whose epoch exceeds the epoch known of the old owner. */
  ghost predicate MovesUp(n: Node, n': Node, j: nat) {
    && j < |n.table.owner| && j < |n'.table.owner|
    && (n.table.owner[j].Some? && n'.table.owner[j].Some? && n.table.owner[j] != n'.table.owner[j] ==>
         && n.table.owner[j].value in n.table.nodes && n'.table.owner[j].value in n'.table.nodes
         && n'.table.nodes[n'.table.owner[j].value].configEpoch > n.table.nodes[n.table.owner[j].value].configEpoch)
  }

  /** Config epochs known of nodes do not fall. */
  ghost predicate EpochsGrow(n: Node, n': Node) {
    forall id :: id in n.table.nodes ==>
      id in n'.table.nodes && n'.table.nodes[id].configEpoch >= n.table.nodes[id].configEpoch
  }

  /** A received configuration takes a slot only from a node with a smaller epoch, never while the
      slot is being imported, and takes every such slot it claims. */
  lemma ClaimTakesExactly(n: Node, id: Id, epoch: nat, claims: set<nat>, j: nat)
    requires NodeOk(n, false) && id in n.table.nodes && id != n.me && j < SLOTS
    ensures Wf(n)
    ensures var o, o' := n.table.owner[j], UpdateSlots(n, id, epoch, claims).table.owner[j];
      if j in claims && j !in n.table.importing && (o.None? || n.table.nodes[o.value].configEpoch < epoch)
      then o' == Some(id) else o' == o
  {
    hide RebindFrom, Loses;
    NodeOkWf(n, false);
    RebindFromKeeps(n.table, id, epoch, claims, 0);
  }

  /** A received configuration changes no config epoch. */
  lemma ClaimKeepsEpochs(n: Node, id: Id, epoch: nat, claims: set<nat>, x: Id)
    requires NodeOk(n, false) && id in n.table.nodes && x in n.table.nodes
    ensures Wf(n) && UpdateSlots(n, id, epoch, claims).table.nodes[x].configEpoch == n.table.nodes[x].configEpoch
  {
    hide RebindFrom, Loses, SlotsOk;
    NodeOkWf(n, false);
    if id != n.me {
      RebindFromKeeps(n.table, id, epoch, claims, 0);
    }
  }

  lemma ClaimMovesUp(n: Node, id: Id, epoch: nat, claims: set<nat>, j: nat)
    requires NodeOk(n, false) && id in n.table.nodes && n.table.nodes[id].configEpoch >= epoch && j < SLOTS
    ensures Wf(n) && MovesUp(n, UpdateSlots(n, id, epoch, claims), j)
    ensures EpochsGrow(n, UpdateSlots(n, id, epoch, claims))
  {
    hide NodeOk, UpdateSlots;
    NodeOkWf(n, false);
    OwnerKnown(n, j);
    forall x | x in n.table.nodes
      ensures UpdateSlots(n, id, epoch, claims).table.nodes[x].configEpoch == n.table.nodes[x].configEpoch
    {
      ClaimKeepsEpochs(n, id, epoch, claims, x);
    }
    if id != n.me {
      ClaimTakesExactly(n, id, epoch, claims, j);
    } else {
      ClaimAboutMe(n, epoch, claims);
    }
  }

  lemma ClaimAboutMe(n: Node, epoch: nat, claims: set<nat>)
    requires Wf(n)
    ensures UpdateSlots(n, n.me, epoch, claims) == n
  {
  }

  lemma SwitchMovesUp(n: Node, from: Id, slaveof: Option<Id>, j: nat)
    requires NodeOk(n, false) && from in n.table.nodes && j < SLOTS
    ensures Wf(n)
    ensures var a := SwitchRole(n, from, slaveof);
      && EpochsGrow(n, a) && (a.table.owner[j] == n.table.owner[j] || a.table.owner[j].None?)
      && (a.table.nodes[from].master ==> a.table.owner == n.table.owner)
  {
    hide ReleaseFrom, SlotsOk, Closed, Bounded;
    NodeOkWf(n, false);
    ReleaseFromKeeps(n.table, from, 0);
  }

  /** PING and PONG: a slot passes from one node to another only at a greater config epoch. */
  lemma PingMovesUp(n: Node, m: Msg, j: nat)
    requires NodeOk(n, false) && m.from in n.table.nodes && m.from != n.me
    requires n.table.nodes[m.from].configEpoch >= m.configEpoch && j < SLOTS
    ensures Wf(n) && MovesUp(n, HandlePing(n, m).0, j)
  {
    hide SlotsOk, SwitchRole, UpdateSlots, OutdatedFrom, Dirty, RolesOk;
    NodeOkWf(n, false);
    SwitchMovesUp(n, m.from, m.slaveof, j);
    SwitchRoleKeeps(n, m.from, m.slaveof, false);
    var a := SwitchRole(n, m.from, m.slaveof);
    ClaimMovesUp(a, m.from, m.configEpoch, m.slots, j);
    var b := if a.table.nodes[m.from].master && Dirty(a, m) then UpdateSlots(a, m.from, m.configEpoch, m.slots) else a;
    UpdateSlotsKeeps(a, m.from, m.configEpoch, m.slots, false);
    OwnerKnown(n, j);
    OwnerKnown(b, j);
  }

  lemma OwnerKnown(n: Node, j: nat)
    requires NodeOk(n, false) && j < SLOTS
    ensures |n.table.owner| == SLOTS && (n.table.owner[j].Some? ==> n.table.owner[j].value in n.table.nodes)
  {
  }

  lemma UpdateMovesUp(n: Node, id: Id, epoch: nat, claims: set<nat>, j: nat)
    requires NodeOk(n, false) && epoch <= n.currentEpoch && j < SLOTS
    ensures Wf(n) && MovesUp(n, HandleUpdate(n, id, epoch, claims), j)
  {
    hide SlotsOk, UpdateSlots, RolesOk;
    NodeOkWf(n, false);
    OwnerKnown(n, j);
    if id in n.table.nodes {
      PromoteKeeps(n, id, epoch, false);
      var p := WithInfo(n, id, AsMaster(n.table.nodes[id]).(configEpoch := epoch));
      ClaimMovesUp(p, id, epoch, claims, j);
    }
  }

  /** Whatever packet arrives, a slot passes from one node to another only at a greater config epoch. */
  lemma ReceiveMovesUp(n: Node, m: Msg, tooSoon: bool, j: nat)
    requires NodeOk(n, false) && MsgOk(m) && m.from != n.me && j < SLOTS
    ensures Wf(n) && MovesUp(n, Receive(n, m, tooSoon).0, j)
  {
    hide NodeOk, SlotsOk, HandlePing, HandleUpdate, Grants;
    NodeOkWf(n, false);
    OwnerKnown(n, j);
    if m.from in n.table.nodes {
      LearnEpochsKeeps(n, m, false);
      var l := LearnEpochs(n, m);
      NodeOkWf(l, false);
      match m.body
      case Ping => PingMovesUp(l, m, j);
      case Update(id, epoch, claims) => UpdateMovesUp(l, id, epoch, claims, j);
      case Fail(about) =>
      case Request(force) =>
      case Ack =>
    }
  }

  // ---- assertions ----

  /** What is known of a node matters to no slot that goes to it. */
  lemma SameStranded(n: Node, id: Id, i: Info, epoch: nat, claims: set<nat>)
    requires Wf(n) && id in n.table.nodes && id != n.me
    ensures Stranded(WithInfo(n, id, i), id, epoch, claims) <==> Stranded(n, id, epoch, claims)
  {
    var u := WithInfo(n, id, i);
    forall j | 0 <= j < SLOTS
      ensures Rebinds(u.table, id, epoch, claims, j) == Rebinds(n.table, id, epoch, claims, j)
    {
    }
    hide Rebinds;
  }

  lemma LearnEpochsInOrder(n: Node, m: Msg)
    requires SlotsOk(n.table) && RolesOk(n) && m.from in n.table.nodes
    ensures var l := LearnEpochs(n, m);
      && l.me == n.me && l.table.nodes.Keys == n.table.nodes.Keys
      && SlotsOk(l.table) && RolesOk(l) && (ReplicaEmpty(l) <==> ReplicaEmpty(n))
  {
    hide SlotsOk;
    InfoKeepsSlots(n.table, LearnEpochs(n, m).table, m.from);
  }

  /** A configuration that moves a slot to its sender differs from what was known of the sender. */
  lemma StrandedIsDirty(n: Node, m: Msg)
    requires SlotsOk(n.table) && Wf(n) && m.from in n.table.nodes && n.table.nodes[m.from].master
    requires Stranded(n, m.from, m.configEpoch, m.slots)
    ensures Dirty(n, m)
  {
    var j :| 0 <= j < SLOTS && n.table.owner[j] == n.table.nodes[n.me].slaveof;
    assert Rebinds(n.table, m.from, m.configEpoch, m.slots, j);
    assert BitsOk(n.table, m.from);
  }

  lemma PingAbortsExactly(n: Node, m: Msg)
    requires SlotsOk(n.table) && RolesOk(n) && m.from in n.table.nodes
    ensures Wf(n) && (PingAborts(n, m) <==> m.slaveof.None? && Stranded(n, m.from, m.configEpoch, m.slots))
  {
    hide SlotsOk, Stranded, UpdateAborts, Dirty;
    OwnerLength(n.table);
    if m.from == n.me {
      NotByItself(n, m);
    } else if m.slaveof.None? {
      var i := AsMaster(n.table.nodes[m.from]);
      var a := WithInfo(n, m.from, i);
      InfoKeepsSlots(n.table, a.table, m.from);
      SetMasterAssertion(a, m.from, m.configEpoch, m.slots);
      SameStranded(n, m.from, i, m.configEpoch, m.slots);
      if Stranded(a, m.from, m.configEpoch, m.slots) { StrandedIsDirty(a, m); }
    }
  }

  lemma NotByItself(n: Node, m: Msg)
    requires Wf(n) && m.from == n.me
    ensures !PingAborts(n, m) && !Stranded(n, m.from, m.configEpoch, m.slots)
  {
  }

  lemma UpdateAbortsExactly(n: Node, id: Id, epoch: nat, claims: set<nat>)
    requires SlotsOk(n.table) && RolesOk(n)
    ensures Wf(n)
    ensures HandleUpdateAborts(n, id, epoch, claims) <==>
      id in n.table.nodes && n.table.nodes[id].configEpoch < epoch && Stranded(n, id, epoch, claims)
  {
    hide SlotsOk, Stranded, Rebinds;
    OwnerLength(n.table);
    if id in n.table.nodes && id != n.me {
      hide UpdateAborts;
      var i := AsMaster(n.table.nodes[id]).(configEpoch := epoch);
      var p := WithInfo(n, id, i);
      InfoKeepsSlots(n.table, p.table, id);
      SetMasterAssertion(p, id, epoch, claims);
      SameStranded(n, id, i, epoch, claims);
    } else if id == n.me {
      assert !Stranded(n, id, epoch, claims) by { NeverOneself(n, epoch, claims); }
    }
  }

  lemma StrandedServes(n: Node, id: Id, epoch: nat, claims: set<nat>)
    requires SlotsOk(n.table) && Wf(n) && Stranded(n, id, epoch, claims)
    ensures !ReplicaEmpty(n)
  {
    ServesSlots(n.table, n.me);
  }

  lemma NeverOneself(n: Node, epoch: nat, claims: set<nat>)
    requires Wf(n)
    ensures !Stranded(n, n.me, epoch, claims)
  {
  }

  /** Handling a packet ends in the failed assertion of clusterSetMaster if and only if the packet
      leaves this node stranded. */
  lemma AbortsExactly(n: Node, m: Msg)
    requires NodeOk(n, false)
    ensures Wf(n) && (Aborts(n, m) <==> StrandedBy(n, m))
    ensures Aborts(n, m) ==> !ReplicaEmpty(n)
  {
    hide NodeOk, SlotsOk, Stranded, PingAborts, HandleUpdateAborts, LearnEpochs;
    NodeOkWf(n, false);
    NodeOkParts(n, false);
    if m.from in n.table.nodes {
      LearnEpochsInOrder(n, m);
      var l := LearnEpochs(n, m);
      match m.body
      case Ping =>
        PingAbortsExactly(l, m);
        if Aborts(n, m) { StrandedServes(l, m.from, m.configEpoch, m.slots); }
      case Update(id, epoch, claims) =>
        UpdateAbortsExactly(l, id, epoch, claims);
        if Aborts(n, m) { StrandedServes(l, id, epoch, claims); }
      case _ =>
    }
  }
}
