/** What failovers, packets and commands bring about: roles, owners of slots, and replies. */
module ClusterOutcomes {

  import opened Wrappers
  import opened ClusterSlots
  import opened ClusterNode
  import opened ClusterInvariants
  import opened ClusterRun

  // ---- failover ----

  /** A replica took over from its master `prev`: it is a master with the epoch of its election, owns
      its slots and those of the old master, which has none left, and nothing else changed hands. */
  ghost predicate TookOver(n: Node, n': Node, prev: Id) {
    && Wf(n) && Wf(n') && n'.me == n.me && prev in n'.table.nodes
    && n'.table.nodes[n.me].master && n'.table.nodes[n.me].slaveof.None?
    && n'.table.nodes[n.me].configEpoch == Max(n.table.nodes[n.me].configEpoch, n.authEpoch)
    && (forall j :: 0 <= j < SLOTS ==>
      n'.table.owner[j] == if n.table.owner[j] == Some(prev) then Some(n.me) else n.table.owner[j])
    && n'.table.nodes[prev].numslots == 0
  }

  /** A replica that wins its election fails over. */
  lemma WinTakesOver(n: Node, manual: bool, force: bool, clock: Clock, size: nat)
    requires NodeOk(n, false) && Wf(n) && Wins(n, manual, clock, size)
    ensures TookOver(n, HandleFailover(n, manual, force, clock, size).0, n.table.nodes[n.me].slaveof.value)
  {
    hide NodeOk, SlotsOk, TakeOverFrom;
    NodeOkParts(n, false);
    var i := n.table.nodes[n.me];
    var e := i.(configEpoch := Max(i.configEpoch, n.authEpoch));
    var p := WithInfo(n, n.me, e);
    InfoKeepsSlots(n.table, p.table, n.me);
    var q := WithInfo(p, n.me, AsMaster(e));
    InfoKeepsSlots(p.table, q.table, n.me);
    TakeOverFromKeeps(q.table, n.me, i.slaveof.value, 0);
    var t := TakeOverFrom(q.table, n.me, i.slaveof.value, 0);
    assert HandleFailover(n, manual, force, clock, size).0 == q.(table := t);
    ServesSlots(t, i.slaveof.value);
  }

  /** In every run, the winner of an election has failed over in the next state. */
  lemma WinnerIsMaster(ss: seq<State>, steps: seq<Step>, k: nat)
    requires IsRun(ss, steps) && Initial(ss[0], false) && k < |steps| && IsWin(ss[k].nodes[At(steps[k])], steps[k])
    ensures var c := At(steps[k]);
      var n := ss[k].nodes[c];
      c in ss[k + 1].nodes && TookOver(n, ss[k + 1].nodes[c], n.table.nodes[n.me].slaveof.value)
  {
    hide NodeOk, HandleFailover, TookOver, Wins;
    RunKeepsInv(ss, steps, false, k, k);
    var c := At(steps[k]);
    match steps[k]
    case Failover(_, manual, force, clock, size) => WinTakesOver(ss[k].nodes[c], manual, force, clock, size);
  }

  /** A replica that starts an election asks every other node it knows, once, for a vote in a new epoch. */
  lemma StartAsksAll(n: Node, manual: bool, force: bool, clock: Clock, size: nat)
    requires NodeOk(n, false) && Wf(n) && Starts(n, manual, clock)
    ensures var (n', out) := HandleFailover(n, manual, force, clock, size);
      && n' == n.(currentEpoch := n.currentEpoch + 1, authEpoch := n.currentEpoch + 1, authSent := true)
      && (forall m :: m in out ==>
        && m.from == n.me && m.to in n.table.nodes && m.to != n.me
        && m.body == Request(force) && m.currentEpoch == n.currentEpoch + 1)
      && (forall x :: x in n.table.nodes && x != n.me ==> exists m :: m in out && m.to == x)
  {
    hide NodeOk, Compose, MayFailOver;
    var s := Start(n);
    forall x | x in n.table.nodes
      ensures Compose(s, x, Request(force)).to == x && Compose(s, x, Request(force)).from == n.me
      ensures Compose(s, x, Request(force)).currentEpoch == n.currentEpoch + 1
      ensures Compose(s, x, Request(force)).body == Request(force)
    {
      ComposeBody(s, x, Request(force));
    }
    forall x | x in n.table.nodes && x != n.me
      ensures exists m :: m in Broadcast(s, Request(force)) && m.to == x
    {
      assert Compose(s, x, Request(force)) in Broadcast(s, Request(force));
    }
  }

  /** A failover is out of the question: this node is no replica, its master is unknown, works and nobody
      asked for a failover, or serves no slots. */
  predicate Hindered(n: Node, manual: bool)
    requires Wf(n)
  {
    var i := n.table.nodes[n.me];
    i.master || i.slaveof.None? || i.slaveof.value !in n.table.nodes ||
    var m := n.table.nodes[i.slaveof.value]; (!m.failed && !manual) || m.numslots == 0
  }

  /** Otherwise a failover goes through its stages: once its time has passed the count starts again, while
      it is not due nothing happens, then votes are asked for, and a majority of all masters with slots
      wins. */
  lemma FailoverStages(n: Node, manual: bool, force: bool, clock: Clock, size: nat)
    requires Wf(n)
    ensures var r := HandleFailover(n, manual, force, clock, size);
      && (Hindered(n, manual) || clock.Hold? ==> r == (n, {}))
      && (!Hindered(n, manual) && clock.Retry? ==> r == (n.(authCount := 0, authSent := false), {}))
      && (!Hindered(n, manual) && clock.Due? && !n.authSent ==> Starts(n, manual, clock))
      && (!Hindered(n, manual) && clock.Due? && n.authSent && 2 * n.authCount <= size ==> r == (n, {}))
      && (!Hindered(n, manual) && clock.Due? && n.authSent && 2 * n.authCount > size ==> Wins(n, manual, clock, size))
  {
  }

  // ---- a received configuration ----

  /** The sender gets all slots of this node, or of its master if it is a replica, and there are some. */
  ghost predicate LosesAll(n: Node, id: Id, epoch: nat, claims: set<nat>)
    requires Wf(n)
  {
    var t, cur := n.table, CurMaster(n);
    && id != n.me && cur.Some? && (exists j :: 0 <= j < SLOTS && t.owner[j] == cur)
    && (forall j :: 0 <= j < SLOTS && t.owner[j] == cur ==> Rebinds(t, id, epoch, claims, j))
  }

  /** This node becomes a replica of the sender exactly if it, or its master, loses all its slots to the
      sender; else its role stays. */
  lemma BecomesReplica(n: Node, id: Id, epoch: nat, claims: set<nat>)
    requires SlotsOk(n.table) && RolesOk(n) && Wf(n) && id in n.table.nodes
    ensures var i, i' := n.table.nodes[n.me], UpdateSlots(n, id, epoch, claims).table.nodes[n.me];
      if LosesAll(n, id, epoch, claims) then !i'.master && i'.slaveof == Some(id)
      else i'.master == i.master && i'.slaveof == i.slaveof
  {
    hide SlotsOk, RebindFrom, Rebinds;
    if id != n.me {
      var t, cur := n.table, CurMaster(n);
      RebindFromKeeps(t, id, epoch, claims, 0);
      var t' := RebindFrom(t, id, epoch, claims, 0);
      ServesSlots(t', cur.value);
      DemotesIff(n, t', id, epoch, claims);
    }
  }

  lemma DemotesIff(n: Node, t': Table, id: Id, epoch: nat, claims: set<nat>)
    requires Wf(n) && id in n.table.nodes && id != n.me && CurMaster(n).Some?
    requires t' == RebindFrom(n.table, id, epoch, claims, 0) && CurMaster(n).value in t'.nodes
    requires forall k :: 0 <= k < SLOTS ==>
      t'.owner[k] == if Rebinds(n.table, id, epoch, claims, k) then Some(id) else n.table.owner[k]
    requires t'.nodes[CurMaster(n).value].numslots != 0 <==>
      exists j :: 0 <= j < SLOTS && t'.owner[j] == Some(CurMaster(n).value)
    ensures Demotes(n, id, epoch, claims) <==> LosesAll(n, id, epoch, claims)
  {
    hide RebindFrom, CurMaster;
    var t, cur := n.table, CurMaster(n);
    if Demotes(n, id, epoch, claims) {
      forall j | 0 <= j < SLOTS && t.owner[j] == cur
        ensures Rebinds(t, id, epoch, claims, j)
      {
        assert t'.owner[j] != cur;
      }
    }
    if LosesAll(n, id, epoch, claims) {
      var i :| 0 <= i < SLOTS && t.owner[i] == cur;
      assert Rebinds(t, id, epoch, claims, i);
      assert cur != Some(id);
      assert forall j :: 0 <= j < SLOTS ==> t'.owner[j] != cur;
    }
  }

  /** Who owns slot j after a PING: a master gets what it claims and may have; a node that turned into a
      replica loses what it had. */
  function OwnerAfterPing(n: Node, m: Msg, j: nat): Option<Id>
    requires Wf(n) && m.from in n.table.nodes && j < SLOTS
  {
    var o := n.table.owner[j];
    if m.slaveof.None? then (if Rebinds(n.table, m.from, m.configEpoch, m.slots, j) then Some(m.from) else o)
    else if n.table.nodes[m.from].master && o == Some(m.from) then None
    else o
  }

  /** The role that the sender of a PING has afterwards. */
  ghost predicate RoleAfterPing(n: Node, n': Node, m: Msg)
    requires m.from in n.table.nodes && m.from in n'.table.nodes
  {
    var i := n'.table.nodes[m.from];
    && (m.slaveof.None? ==> i.master)
    && (m.slaveof.Some? ==> !i.master)
    && (m.slaveof.Some? && m.slaveof.value in n.table.nodes ==> i.slaveof == m.slaveof)
  }

  lemma SameRebinds(n: Node, u: Node, id: Id, epoch: nat, claims: set<nat>)
    requires Wf(n) && id in n.table.nodes && u.table.owner == n.table.owner && u.table.importing == n.table.importing
    requires id in u.table.nodes && u.table.nodes == n.table.nodes[id := u.table.nodes[id]]
    ensures forall j :: 0 <= j < SLOTS ==>
      (Rebinds(u.table, id, epoch, claims, j) <==> Rebinds(n.table, id, epoch, claims, j))
  {
  }

  lemma CleanClaimsNothing(n: Node, m: Msg)
    requires SlotsOk(n.table) && m.from in n.table.nodes && n.table.nodes[m.from].master && !Dirty(n, m)
    ensures |n.table.owner| == SLOTS
    ensures forall j :: 0 <= j < SLOTS ==> !Rebinds(n.table, m.from, m.configEpoch, m.slots, j)
  {
    assert BitsOk(n.table, m.from);
  }

  lemma UpdateOwners(n: Node, id: Id, epoch: nat, claims: set<nat>)
    requires SlotsOk(n.table) && Wf(n) && id in n.table.nodes && id != n.me
    ensures var n' := UpdateSlots(n, id, epoch, claims);
      && (forall j :: 0 <= j < SLOTS ==>
        n'.table.owner[j] == if Rebinds(n.table, id, epoch, claims, j) then Some(id) else n.table.owner[j])
      && (forall x :: x in n.table.nodes && x != n.me ==>
        x in n'.table.nodes && n'.table.nodes[x].master == n.table.nodes[x].master
        && n'.table.nodes[x].slaveof == n.table.nodes[x].slaveof
        && n'.table.nodes[x].configEpoch == n.table.nodes[x].configEpoch)
  {
    hide SlotsOk, RebindFrom, Demotes, Rebinds;
    RebindFromKeeps(n.table, id, epoch, claims, 0);
  }

  lemma CollideLeaves(n: Node, from: Id, epoch: nat)
    requires Wf(n) && from in n.table.nodes && from != n.me
    ensures var n' := Collide(n, from, epoch);
      && n'.me == n.me && n'.table.owner == n.table.owner && n'.table.nodes.Keys == n.table.nodes.Keys
      && n'.table.nodes[from] == n.table.nodes[from]
  {
  }

  /** The role switch: who owns what, and what the sender is. */
  lemma SwitchOwners(n: Node, m: Msg)
    requires SlotsOk(n.table) && RolesOk(n) && Wf(n) && m.from in n.table.nodes && m.from != n.me
    ensures var a := SwitchRole(n, m.from, m.slaveof);
      && RoleAfterPing(n, a, m) && SlotsOk(a.table) && Wf(a)
      && (m.slaveof.None? ==> a == WithInfo(n, m.from, AsMaster(n.table.nodes[m.from])))
      && (m.slaveof.Some? ==> forall j :: 0 <= j < SLOTS ==> a.table.owner[j] == OwnerAfterPing(n, m, j))
  {
    hide SlotsOk, ReleaseFrom;
    OwnerLength(n.table);
    ReleaseFromKeeps(n.table, m.from, 0);
    if m.slaveof.None? {
      InfoKeepsSlots(n.table, WithInfo(n, m.from, AsMaster(n.table.nodes[m.from])).table, m.from);
    } else {
      var r := n.(table := ReleaseFrom(n.table, m.from, 0));
      var u := if n.table.nodes[m.from].master then Demote(n, m.from) else n;
      if n.table.nodes[m.from].master { InfoKeepsSlots(r.table, u.table, m.from); }
      var a := SwitchRole(n, m.from, m.slaveof);
      InfoKeepsSlots(u.table, a.table, m.from);
    }
  }

  lemma HandlePingOwners(n: Node, m: Msg)
    requires SlotsOk(n.table) && RolesOk(n) && Wf(n) && m.from in n.table.nodes && m.from != n.me
    ensures var n' := HandlePing(n, m).0;
      && Wf(n') && m.from in n'.table.nodes && RoleAfterPing(n, n', m)
      && (forall j :: 0 <= j < SLOTS ==> n'.table.owner[j] == OwnerAfterPing(n, m, j))
  {
    hide SlotsOk, SwitchRole, UpdateSlots, Dirty, OutdatedFrom, Compose, Rebinds, Collide;
    SwitchOwners(n, m);
    var a := SwitchRole(n, m.from, m.slaveof);
    UpdateOwners(a, m.from, m.configEpoch, m.slots);
    var dirty := a.table.nodes[m.from].master && Dirty(a, m);
    var b := if dirty then UpdateSlots(a, m.from, m.configEpoch, m.slots) else a;
    CollideLeaves(b, m.from, m.configEpoch);
    if m.slaveof.None? {
      SameRebinds(n, a, m.from, m.configEpoch, m.slots);
      if !dirty { CleanClaimsNothing(a, m); }
    }
  }

  /** What a PING of a known node brings about, on the table as it was before: the sender's role is the one
      it states, and exactly the slots it may have change hands. */
  lemma PingOutcome(n: Node, m: Msg, tooSoon: bool)
    requires NodeOk(n, false) && Wf(n) && m.from in n.table.nodes && m.from != n.me && m.body.Ping?
    ensures var n' := Receive(n, m, tooSoon).0;
      && Wf(n') && m.from in n'.table.nodes && RoleAfterPing(n, n', m)
      && (forall j :: 0 <= j < SLOTS ==> n'.table.owner[j] == OwnerAfterPing(n, m, j))
  {
    hide NodeOk, SlotsOk, HandlePing, Rebinds;
    NodeOkParts(n, false);
    LearnEpochsInOrder(n, m);
    var l := LearnEpochs(n, m);
    HandlePingOwners(l, m);
    SameRebinds(n, l, m.from, m.configEpoch, m.slots);
  }

  /** The sender is a master with the same config epoch and a greater name. */
  predicate Collides(n: Node, m: Msg)
    requires Wf(n) && m.from in n.table.nodes
  {
    var e := n.table.nodes[n.me].configEpoch;
    m.slaveof.None? && m.configEpoch == e && n.table.nodes[m.from].configEpoch == e && m.from > n.me
  }

  lemma HandlePingEpoch(n: Node, m: Msg)
    requires NodeOk(n, false) && Wf(n) && m.from in n.table.nodes && m.from != n.me
    ensures var n' := HandlePing(n, m).0;
      && Wf(n') && n'.me == n.me
      && (n'.table.nodes[n.me].master && Collides(n, m) ==>
        n'.table.nodes[n.me].configEpoch == n'.currentEpoch == n.currentEpoch + 1)
      && (!(n'.table.nodes[n.me].master && Collides(n, m)) ==>
        n'.table.nodes[n.me].configEpoch == n.table.nodes[n.me].configEpoch && n'.currentEpoch == n.currentEpoch)
  {
    hide NodeOk, SlotsOk, SwitchRole, UpdateSlots, Dirty, Rebinds, OutdatedFrom, Compose;
    NodeOkParts(n, false);
    SwitchOwners(n, m);
    SwitchRoleKeeps(n, m.from, m.slaveof, false);
    var a := SwitchRole(n, m.from, m.slaveof);
    UpdateSlotsKeeps(a, m.from, m.configEpoch, m.slots, false);
    UpdateOwners(a, m.from, m.configEpoch, m.slots);
    SwitchKeepsEpochs(n, m, n.me);
    SwitchKeepsEpochs(n, m, m.from);
    ClaimKeepsEpochs(a, m.from, m.configEpoch, m.slots, n.me);
    ClaimKeepsEpochs(a, m.from, m.configEpoch, m.slots, m.from);
  }

  /** A master that hears a colliding config epoch of a master with a greater name, and stays a master, takes
      a new epoch; otherwise a PING leaves its config epoch alone. */
  lemma PingEpoch(n: Node, m: Msg, tooSoon: bool)
    requires NodeOk(n, false) && Wf(n) && MsgOk(m) && m.from in n.table.nodes && m.from != n.me && m.body.Ping?
    ensures var (l, n') := (LearnEpochs(n, m), Receive(n, m, tooSoon).0);
      && Wf(l) && Wf(n')
      && (n'.table.nodes[n.me].master && Collides(l, m) ==>
        n'.table.nodes[n.me].configEpoch == n'.currentEpoch == l.currentEpoch + 1)
      && (!(n'.table.nodes[n.me].master && Collides(l, m)) ==>
        n'.table.nodes[n.me].configEpoch == n.table.nodes[n.me].configEpoch && n'.currentEpoch == l.currentEpoch)
  {
    hide NodeOk, HandlePing;
    LearnEpochsKeeps(n, m, false);
    NodeOkWf(LearnEpochs(n, m), false);
    HandlePingEpoch(LearnEpochs(n, m), m);
  }

  /** News of node `id`: it is a master with the epoch given, and gets the slots it may have, unless it is
      the receiver itself. */
  ghost predicate Updated(n: Node, n': Node, id: Id, epoch: nat, claims: set<nat>) {
    && Wf(n) && Wf(n') && id in n'.table.nodes
    && n'.table.nodes[id].master && n'.table.nodes[id].configEpoch == epoch
    && forall j :: 0 <= j < SLOTS ==>
         n'.table.owner[j]
           == if id != n.me && Rebinds(n.table, id, epoch, claims, j) then Some(id) else n.table.owner[j]
  }

  lemma HandleUpdateOwners(n: Node, id: Id, epoch: nat, claims: set<nat>)
    requires SlotsOk(n.table) && Wf(n) && id in n.table.nodes && n.table.nodes[id].configEpoch < epoch
    ensures Updated(n, HandleUpdate(n, id, epoch, claims), id, epoch, claims)
  {
    hide SlotsOk, Rebinds, Demotes, RebindFrom;
    var p := WithInfo(n, id, AsMaster(n.table.nodes[id]).(configEpoch := epoch));
    if id != n.me {
      InfoKeepsSlots(n.table, p.table, id);
      SameRebinds(n, p, id, epoch, claims);
      hide UpdateSlots;
      UpdateOwners(p, id, epoch, claims);
    }
  }

  /** What an UPDATE brings about: news of a known node is applied; else nothing changes. */
  lemma UpdateOutcome(n: Node, m: Msg, tooSoon: bool)
    requires NodeOk(n, false) && Wf(n) && m.from in n.table.nodes && m.body.Update?
    ensures var (l, n') := (LearnEpochs(n, m), Receive(n, m, tooSoon).0);
      var Update(id, epoch, claims) := m.body;
      if id in n.table.nodes && l.table.nodes[id].configEpoch < epoch then Updated(l, n', id, epoch, claims)
      else n' == l
  {
    hide NodeOk, SlotsOk, UpdateSlots, Updated;
    NodeOkParts(n, false);
    LearnEpochsInOrder(n, m);
    var l := LearnEpochs(n, m);
    var Update(id, epoch, claims) := m.body;
    if id in n.table.nodes && l.table.nodes[id].configEpoch < epoch { HandleUpdateOwners(l, id, epoch, claims); }
  }

  /** A FAIL of a known node flags the node it is about, unless it is unknown or the receiver itself. */
  lemma FailOutcome(n: Node, m: Msg, tooSoon: bool, x: Id)
    requires Wf(n) && m.from in n.table.nodes && m.body.Fail? && x in n.table.nodes
    ensures var n' := Receive(n, m, tooSoon).0;
      && n'.table.owner == n.table.owner && x in n'.table.nodes
      && (n'.table.nodes[x].failed <==> n.table.nodes[x].failed || (x == m.body.about && x != n.me))
  {
  }

  /** A node that finds another one failed flags it, and tells every other node it knows. */
  lemma DeclareFailTells(n: Node, at: Id, about: Id)
    requires Wf(n) && about in n.table.nodes && about != n.me
    ensures var (n', out) := Act(n, DeclareFail(at, about));
      && about in n'.table.nodes && n'.table.nodes[about].failed
      && (forall x :: x in n.table.nodes && x != n.me ==> exists m :: m in out && m.to == x && m.body == Fail(about))
  {
    hide Compose;
    forall x | x in n.table.nodes && x != n.me
      ensures exists m :: m in Broadcast(n, Fail(about)) && m.to == x && m.body == Fail(about)
    {
      ComposeBody(n, x, Fail(about));
      assert Compose(n, x, Fail(about)) in Broadcast(n, Fail(about));
    }
  }

  // ---- the UPDATE reply ----

  /** A slot claimed by the sender that another node owns at a greater epoch. */
  predicate OutOfDate(n: Node, m: Msg, j: nat)
    requires Wf(n)
  {
    j < SLOTS && j in m.slots && n.table.owner[j] != Some(m.from) && OwnedAbove(n.table, j, m.configEpoch)
  }

  ghost predicate FirstOutOfDate(n: Node, m: Msg, i: nat, j: nat)
    requires Wf(n)
  {
    i <= j < SLOTS && OutOfDate(n, m, j) && forall x :: i <= x < j ==> !OutOfDate(n, m, x)
  }

  /** The claims of a packet differ from what is known exactly if they are not the slots that the sender, or
      the master it is known to have, owns. */
  lemma DirtyMeans(n: Node, m: Msg)
    requires SlotsOk(n.table) && m.from in n.table.nodes
    ensures |n.table.owner| == SLOTS
    ensures var i := n.table.nodes[m.from];
      var speaker := if i.master then Some(m.from) else i.slaveof;
      var owned := set j | 0 <= j < SLOTS && n.table.owner[j] == speaker;
      Dirty(n, m) <==> speaker.Some? && speaker.value in n.table.nodes && m.slots != owned
  {
    var i := n.table.nodes[m.from];
    var speaker := if i.master then Some(m.from) else i.slaveof;
    if speaker.Some? && speaker.value in n.table.nodes { SlotsOf(n.table, speaker.value); }
  }

  lemma {:induction false} OutdatedFirst(n: Node, m: Msg, i: nat)
    requires Wf(n) && i <= SLOTS
    ensures var r := OutdatedFrom(n.table, m, i);
      && (r.None? <==> forall j :: i <= j < SLOTS ==> !OutOfDate(n, m, j))
      && (r.Some? ==> exists j: nat :: FirstOutOfDate(n, m, i, j) && r == n.table.owner[j])
    decreases SLOTS - i
  {
    if i < SLOTS {
      OutdatedFirst(n, m, i + 1);
      if OutOfDate(n, m, i) {
        assert FirstOutOfDate(n, m, i, i);
      } else if OutdatedFrom(n.table, m, i + 1).Some? {
        var j: nat :| FirstOutOfDate(n, m, i + 1, j) && OutdatedFrom(n.table, m, i + 1) == n.table.owner[j];
        assert FirstOutOfDate(n, m, i, j);
      }
    }
  }

  lemma SameSlots(t: Table, t': Table, o: Id)
    requires SlotsOk(t) && SlotsOk(t') && o in t.nodes && o in t'.nodes
    requires forall j :: 0 <= j < SLOTS ==> (t'.owner[j] == Some(o) <==> t.owner[j] == Some(o))
    ensures t'.nodes[o].slots == t.nodes[o].slots
  {
    SlotsOf(t, o);
    SlotsOf(t', o);
  }

  /** The table after a PING as far as the reply goes: what is known of other nodes' epochs is the same, and so
      are the slots that are out of date with the sender. */
  ghost predicate SameForReply(n: Node, b: Node, m: Msg) {
    && Wf(n) && Wf(b) && SlotsOk(b.table) && m.from in n.table.nodes && b.me == n.me
    && b.table.nodes.Keys == n.table.nodes.Keys
    && (forall x :: x in n.table.nodes && x != m.from ==> b.table.nodes[x].configEpoch == n.table.nodes[x].configEpoch)
    && (forall j :: 0 <= j < SLOTS ==> b.table.owner[j] == OwnerAfterPing(n, m, j))
  }

  lemma SwitchKeepsEpochs(n: Node, m: Msg, x: Id)
    requires SlotsOk(n.table) && Wf(n) && m.from in n.table.nodes && x in n.table.nodes
    ensures var a := SwitchRole(n, m.from, m.slaveof);
      a.currentEpoch == n.currentEpoch && a.table.nodes[x].configEpoch == n.table.nodes[x].configEpoch
  {
    hide SlotsOk, ReleaseFrom;
    OwnerLength(n.table);
    ReleaseFromKeeps(n.table, m.from, 0);
  }

  /** The node after the role switch and the claims of a PING. */
  function AfterClaims(n: Node, m: Msg): Node
    requires Wf(n) && m.from in n.table.nodes
  {
    var a := SwitchRole(n, m.from, m.slaveof);
    if a.table.nodes[m.from].master && Dirty(a, m) then UpdateSlots(a, m.from, m.configEpoch, m.slots) else a
  }

  lemma AfterClaimsOk(n: Node, m: Msg)
    requires NodeOk(n, false) && Wf(n) && m.from in n.table.nodes && m.from != n.me
    ensures var b := AfterClaims(n, m);
      NodeOk(b, false) && Wf(b) && b.me == n.me && b.table.nodes.Keys == n.table.nodes.Keys
  {
    hide NodeOk, SwitchRole, UpdateSlots, Dirty;
    SwitchRoleKeeps(n, m.from, m.slaveof, false);
    var a := SwitchRole(n, m.from, m.slaveof);
    UpdateSlotsKeeps(a, m.from, m.configEpoch, m.slots, false);
    NodeOkWf(AfterClaims(n, m), false);
  }

  lemma AfterClaimsEpoch(n: Node, m: Msg, x: Id)
    requires NodeOk(n, false) && Wf(n) && m.from in n.table.nodes && m.from != n.me && x in n.table.nodes
    ensures x in AfterClaims(n, m).table.nodes
    ensures AfterClaims(n, m).table.nodes[x].configEpoch == n.table.nodes[x].configEpoch
  {
    hide NodeOk, SlotsOk, SwitchRole, UpdateSlots, Dirty;
    NodeOkParts(n, false);
    SwitchRoleKeeps(n, m.from, m.slaveof, false);
    SwitchKeepsEpochs(n, m, x);
    ClaimKeepsEpochs(SwitchRole(n, m.from, m.slaveof), m.from, m.configEpoch, m.slots, x);
  }

  lemma AfterClaimsOwners(n: Node, m: Msg)
    requires NodeOk(n, false) && Wf(n) && m.from in n.table.nodes && m.from != n.me && Wf(AfterClaims(n, m))
    ensures forall j :: 0 <= j < SLOTS ==> AfterClaims(n, m).table.owner[j] == OwnerAfterPing(n, m, j)
  {
    hide NodeOk, SlotsOk, SwitchRole, UpdateSlots, Dirty, Rebinds;
    NodeOkParts(n, false);
    SwitchOwners(n, m);
    var a := SwitchRole(n, m.from, m.slaveof);
    UpdateOwners(a, m.from, m.configEpoch, m.slots);
    if m.slaveof.None? {
      SameRebinds(n, a, m.from, m.configEpoch, m.slots);
      if !(a.table.nodes[m.from].master && Dirty(a, m)) { CleanClaimsNothing(a, m); }
    }
  }

  lemma BeforeReply(n: Node, m: Msg)
    requires NodeOk(n, false) && Wf(n) && m.from in n.table.nodes && m.from != n.me
    ensures SameForReply(n, AfterClaims(n, m), m)
  {
    hide NodeOk, AfterClaims, OwnerAfterPing, SlotsOk;
    AfterClaimsOk(n, m);
    NodeOkParts(AfterClaims(n, m), false);
    AfterClaimsOwners(n, m);
    forall x | x in n.table.nodes && x != m.from
      ensures AfterClaims(n, m).table.nodes[x].configEpoch == n.table.nodes[x].configEpoch
    {
      AfterClaimsEpoch(n, m, x);
    }
  }

  lemma SameOutOfDate(n: Node, b: Node, m: Msg, j: nat)
    requires SlotsOk(n.table) && SameForReply(n, b, m) && m.from in n.table.nodes && j < SLOTS
    ensures OutOfDate(b, m, j) <==> OutOfDate(n, m, j)
    ensures OutOfDate(n, m, j) ==> b.table.owner[j] == n.table.owner[j]
  {
    hide BitsOk;
  }

  /** A node that owns a slot out of date with the sender keeps all its slots. */
  lemma KeepsItsSlots(n: Node, b: Node, m: Msg, o: Id)
    requires SlotsOk(n.table) && SameForReply(n, b, m) && m.from in n.table.nodes
    requires o in n.table.nodes && o != m.from && n.table.nodes[o].configEpoch > m.configEpoch
    ensures o in b.table.nodes && b.table.nodes[o].slots == n.table.nodes[o].slots
  {
    hide SlotsOk;
    SameSlots(n.table, b.table, o);
  }

  /** The reply is about the owner of the first slot that is out of date. */
  ghost predicate RepliesWith(n: Node, m: Msg, r: Msg, j: nat)
    requires Wf(n)
  {
    && FirstOutOfDate(n, m, 0, j) && r.from == n.me && r.to == m.from
    && r.body == Update(n.table.owner[j].value, n.table.nodes[n.table.owner[j].value].configEpoch,
                        n.table.nodes[n.table.owner[j].value].slots)
  }

  lemma HandlePingReplies(n: Node, m: Msg)
    requires NodeOk(n, false) && Wf(n) && m.from in n.table.nodes && m.from != n.me
    ensures var out := HandlePing(n, m).1;
      && (out == {} <==>
        !Dirty(SwitchRole(n, m.from, m.slaveof), m) || forall j :: 0 <= j < SLOTS ==> !OutOfDate(n, m, j))
      && (out != {} ==> exists r, j :: out == {r} && RepliesWith(n, m, r, j))
  {
    hide NodeOk, SlotsOk, SwitchRole, UpdateSlots, Dirty, OutdatedFrom, Compose, Collide, OutOfDate, SameForReply;
    NodeOkParts(n, false);
    BeforeReply(n, m);
    var a := SwitchRole(n, m.from, m.slaveof);
    var b := AfterClaims(n, m);
    assert Wf(b) && b.me == n.me by { ForReplyWf(n, b, m); }
    forall j | 0 <= j < SLOTS
      ensures OutOfDate(b, m, j) <==> OutOfDate(n, m, j)
      ensures OutOfDate(n, m, j) ==> b.table.owner[j] == n.table.owner[j]
    {
      SameOutOfDate(n, b, m, j);
    }
    OutdatedFirst(b, m, 0);
    var o := OutdatedFrom(b.table, m, 0);
    if Dirty(a, m) && o.Some? {
      var j: nat :| FirstOutOfDate(b, m, 0, j) && o == b.table.owner[j];
      OutOfDateOwner(b, m, j);
      OutOfDateOwner(n, m, j);
      KeepsItsSlots(n, b, m, o.value);
      assert b.table.nodes[o.value].configEpoch == n.table.nodes[o.value].configEpoch by { ForReplyWf(n, b, m); }
      var r := Compose(b, m.from, Update(o.value, b.table.nodes[o.value].configEpoch, b.table.nodes[o.value].slots));
      ComposeBody(b, m.from, Update(o.value, b.table.nodes[o.value].configEpoch, b.table.nodes[o.value].slots));
      assert RepliesWith(n, m, r, j);
      assert HandlePing(n, m).1 == {r};
    }
  }

  lemma ForReplyWf(n: Node, b: Node, m: Msg)
    requires SameForReply(n, b, m)
    ensures Wf(n) && Wf(b) && b.me == n.me && b.table.nodes.Keys == n.table.nodes.Keys
    ensures forall x :: x in n.table.nodes && x != m.from ==>
      b.table.nodes[x].configEpoch == n.table.nodes[x].configEpoch
  {
  }

  lemma OutOfDateOwner(n: Node, m: Msg, j: nat)
    requires Wf(n) && OutOfDate(n, m, j)
    ensures j < SLOTS && n.table.owner[j].Some? && n.table.owner[j] != Some(m.from)
    ensures n.table.owner[j].value in n.table.nodes && n.table.nodes[n.table.owner[j].value].configEpoch > m.configEpoch
  {
  }

  /** A PING is answered by an UPDATE exactly if the sender's claims differ from what is known of it and
      one of them is out of date; the UPDATE is about the owner of the first such slot. */
  lemma PingReplies(n: Node, m: Msg, tooSoon: bool)
    requires NodeOk(n, false) && Wf(n) && MsgOk(m) && m.from in n.table.nodes && m.from != n.me && m.body.Ping?
    ensures var (l, out) := (LearnEpochs(n, m), Receive(n, m, tooSoon).1);
      && Wf(l)
      && (out == {} <==>
        !Dirty(SwitchRole(l, m.from, m.slaveof), m) || forall j :: 0 <= j < SLOTS ==> !OutOfDate(l, m, j))
      && (out != {} ==> exists r, j :: out == {r} && RepliesWith(l, m, r, j))
  {
    hide NodeOk, HandlePing, SwitchRole, Dirty, OutOfDate, RepliesWith;
    LearnEpochsKeeps(n, m, false);
    NodeOkWf(LearnEpochs(n, m), false);
    HandlePingReplies(LearnEpochs(n, m), m);
  }

  // ---- commands ----

  /** Who owns slot j after a command. */
  function OwnerAfter(n: Node, c: Command, j: nat): Option<Id>
    requires Wf(n) && j < SLOTS
  {
    var o := n.table.owner[j];
    match c
    case AddSlots(k) => if j == k && o.None? then Some(n.me) else o
    case DelSlots(k) => if j == k then None else o
    case FlushSlots => if o == Some(n.me) then None else o
    case SetSlotNode(k, id) => if j == k && n.table.nodes[n.me].master && id in n.table.nodes then Some(id) else o
    case Forget(id) => if o == Some(id) && MayForget(n, id) then None else o
    case _ => o
  }

  /** FORGET of the node is not refused. */
  predicate MayForget(n: Node, id: Id)
    requires Wf(n)
  {
    id in n.table.nodes && id != n.me && (n.table.nodes[n.me].master || n.table.nodes[n.me].slaveof != Some(id))
  }

  /** The slots that are being imported, and from where, after a command. */
  function ImportAfter(n: Node, c: Command, j: nat): Option<Id>
    requires Wf(n) && j < SLOTS
  {
    var t, master := n.table, n.table.nodes[n.me].master;
    var i := if j in t.importing then Some(t.importing[j]) else None;
    match c
    case AddSlots(k) => if j == k && t.owner[j].None? then None else i
    case DelSlots(k) => if j == k && t.owner[j].Some? then None else i
    case Importing(k, id) => if j == k && master && id in t.nodes && t.owner[j] != Some(n.me) then Some(id) else i
    case Stable(k) => if j == k && master then None else i
    case SetSlotNode(k, id) => if j == k && master && id == n.me then None else i
    case Forget(id) => if i == Some(id) && MayForget(n, id) then None else i
    case Replicate(id) => if MayReplicate(n, id) && master then None else i
    case _ => i
  }

  lemma RebindOwner(t: Table, id: Id, j: nat)
    requires j < |t.owner| && id in t.nodes
    ensures Rebind(t, id, j).owner == t.owner[j := Some(id)] && Rebind(t, id, j).importing == t.importing
  {
  }

  lemma AssignOwner(n: Node, k: nat, id: Id)
    requires Wf(n) && k < SLOTS && id in n.table.nodes
    ensures var n' := AssignSlot(n, k, id);
      && n'.table.owner == n.table.owner[k := Some(id)]
      && n'.table.importing == if id == n.me then n.table.importing - {k} else n.table.importing
  {
    hide HasGreatestEpoch;
    var a := if id == n.me && k in n.table.importing
             then var b := Bump(n); b.(table := NoImport(b.table, k)) else n;
    RebindOwner(a.table, id, k);
    assert k !in n.table.importing ==> n.table.importing - {k} == n.table.importing;
  }

  /** The owner of slot j, and what it is imported from, are those after the command. */
  ghost predicate SlotDone(n: Node, c: Command, j: nat, t: Table)
    requires Wf(n) && j < SLOTS
  {
    && |t.owner| == SLOTS && t.owner[j] == OwnerAfter(n, c, j)
    && (if j in t.importing then Some(t.importing[j]) else None) == ImportAfter(n, c, j)
  }

  lemma FlushSlot(n: Node, j: nat)
    requires SlotsOk(n.table) && Wf(n) && j < SLOTS
    ensures SlotDone(n, FlushSlots, j, Execute(n, FlushSlots).table)
  {
    hide SlotsOk, ReleaseFrom;
    ReleaseFromKeeps(n.table, n.me, 0);
  }

  lemma ForgetSlot(n: Node, id: Id, j: nat)
    requires SlotsOk(n.table) && Wf(n) && j < SLOTS
    ensures SlotDone(n, Forget(id), j, Execute(n, Forget(id)).table)
  {
    hide SlotsOk, ReleaseFrom, Unlink;
    ReleaseFromKeeps(n.table, id, 0);
  }

  lemma SetSlot(n: Node, k: nat, id: Id, j: nat)
    requires Wf(n) && j < SLOTS
    ensures SlotDone(n, SetSlotNode(k, id), j, Execute(n, SetSlotNode(k, id)).table)
  {
    hide AssignSlot;
    if k < SLOTS && n.table.nodes[n.me].master && id in n.table.nodes { AssignOwner(n, k, id); }
  }

  lemma OtherSlot(n: Node, c: Command, j: nat)
    requires Wf(n) && j < SLOTS && !c.FlushSlots? && !c.Forget? && !c.SetSlotNode?
    ensures SlotDone(n, c, j, Execute(n, c).table)
  {
    hide HasGreatestEpoch;
  }

  /** What a command changes of slots and imports. */
  lemma CommandOutcome(n: Node, c: Command, j: nat)
    requires SlotsOk(n.table) && Wf(n) && j < SLOTS
    ensures SlotDone(n, c, j, Execute(n, c).table)
  {
    hide SlotsOk, SlotDone, Execute;
    match c
    case FlushSlots => FlushSlot(n, j);
    case Forget(id) => ForgetSlot(n, id, j);
    case SetSlotNode(k, id) => SetSlot(n, k, id, j);
    case _ => OtherSlot(n, c, j);
  }

  /** The nodes known after a command. */
  function NodesAfter(n: Node, c: Command): set<Id>
    requires Wf(n)
  {
    match c
    case Forget(id) => if MayForget(n, id) then n.table.nodes.Keys - {id} else n.table.nodes.Keys
    case Introduce(id, _) => n.table.nodes.Keys + {id}
    case _ => n.table.nodes.Keys
  }

  /** The config epoch of this node after a command: only a bump, an import that ends here, and a first
      epoch given to a node that is alone change it. */
  function EpochAfter(n: Node, c: Command): nat
    requires Wf(n)
  {
    var i := n.table.nodes[n.me];
    var bumped := if HasGreatestEpoch(n) then i.configEpoch else n.currentEpoch + 1;
    match c
    case BumpEpoch => bumped
    case SetConfigEpoch(e) => if |n.table.nodes| > 1 || i.configEpoch != 0 then i.configEpoch else e
    case SetSlotNode(k, id) =>
      if k < SLOTS && i.master && id == n.me && k in n.table.importing then bumped else i.configEpoch
    case _ => i.configEpoch
  }

  lemma RebindInfo(t: Table, id: Id, j: nat)
    requires j < |t.owner| && id in t.nodes
    ensures var t' := Rebind(t, id, j);
      && t'.nodes.Keys == t.nodes.Keys
      && forall x :: x in t.nodes ==>
           t'.nodes[x] == t.nodes[x].(slots := t'.nodes[x].slots, numslots := t'.nodes[x].numslots)
  {
  }

  lemma AssignInfo(n: Node, k: nat, id: Id)
    requires Wf(n) && k < SLOTS && id in n.table.nodes
    ensures var t := AssignSlot(n, k, id).table;
      && t.nodes.Keys == n.table.nodes.Keys
      && t.nodes[n.me].master == n.table.nodes[n.me].master && t.nodes[n.me].slaveof == n.table.nodes[n.me].slaveof
      && t.nodes[n.me].configEpoch
        == if id == n.me && k in n.table.importing && !HasGreatestEpoch(n) then n.currentEpoch + 1
           else n.table.nodes[n.me].configEpoch
  {
    hide HasGreatestEpoch, Rebind;
    var a := if id == n.me && k in n.table.importing
             then var b := Bump(n); b.(table := NoImport(b.table, k)) else n;
    RebindInfo(a.table, id, k);
  }

  /** The nodes known, and this node's role and epoch, are those after the command. */
  ghost predicate NodesDone(n: Node, c: Command, t: Table)
    requires Wf(n)
  {
    var i := n.table.nodes[n.me];
    && t.nodes.Keys == NodesAfter(n, c) && n.me in t.nodes && t.nodes[n.me].configEpoch == EpochAfter(n, c)
    && (c.Replicate? && MayReplicate(n, c.id) ==> !t.nodes[n.me].master && t.nodes[n.me].slaveof == Some(c.id))
    && (!(c.Replicate? && MayReplicate(n, c.id)) ==>
      t.nodes[n.me].master == i.master && (i.master || t.nodes[n.me].slaveof == i.slaveof))
    && (c.Introduce? && c.id !in n.table.nodes ==>
      t.nodes[c.id].master == c.master && t.nodes[c.id].slots == {} && t.nodes[c.id].configEpoch == 0)
    && (c.ClearFailure? && c.id in t.nodes ==> !t.nodes[c.id].failed)
  }

  lemma SlotCommandNodes(n: Node, c: Command)
    requires Wf(n) && (c.AddSlots? || c.DelSlots?)
    ensures NodesDone(n, c, Execute(n, c).table)
  {
    hide HasGreatestEpoch;
  }

  lemma FlushNodes(n: Node)
    requires SlotsOk(n.table) && Wf(n)
    ensures NodesDone(n, FlushSlots, Execute(n, FlushSlots).table)
  {
    hide SlotsOk, ReleaseFrom, HasGreatestEpoch;
    ReleaseFromKeeps(n.table, n.me, 0);
  }

  lemma ForgetNodes(n: Node, id: Id)
    requires SlotsOk(n.table) && Wf(n)
    ensures NodesDone(n, Forget(id), Execute(n, Forget(id)).table)
  {
    hide SlotsOk, ReleaseFrom, HasGreatestEpoch;
    ReleaseFromKeeps(n.table, id, 0);
  }

  lemma OtherNodes(n: Node, c: Command)
    requires Wf(n) && !c.AddSlots? && !c.DelSlots? && !c.FlushSlots? && !c.Forget? && !c.SetSlotNode?
    ensures NodesDone(n, c, Execute(n, c).table)
  {
    hide HasGreatestEpoch;
  }

  /** What a command changes of the nodes known, and of this node's role and epoch. */
  lemma CommandNodes(n: Node, c: Command)
    requires SlotsOk(n.table) && Wf(n)
    ensures NodesDone(n, c, Execute(n, c).table)
  {
    hide SlotsOk, HasGreatestEpoch, AssignSlot;
    match c
    case AddSlots(_) => SlotCommandNodes(n, c);
    case DelSlots(_) => SlotCommandNodes(n, c);
    case FlushSlots => FlushNodes(n);
    case Forget(id) => ForgetNodes(n, id);
    case SetSlotNode(k, id) =>
      if k < SLOTS && n.table.nodes[n.me].master && id in n.table.nodes { AssignInfo(n, k, id); }
    case _ => OtherNodes(n, c);
  }
}
