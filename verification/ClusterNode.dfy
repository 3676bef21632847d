/** One cluster node: its configuration, the packets it handles, failover and slot commands.
    Clocks, replication offsets and the reachability of peers are parameters of the steps. */
module ClusterNode {

  import opened Wrappers
  import opened ClusterSlots

  /** Type-dependent part of a packet. PING, PONG and MEET carry the same configuration. */
  datatype Body = Ping | Fail(about: Id) | Request(force: bool) | Ack | Update(node: Id, epoch: nat, claims: set<nat>)

  datatype Msg = Msg(from: Id, to: Id, currentEpoch: nat, configEpoch: nat, slots: set<nat>,
                     slaveof: Option<Id>, body: Body)

  datatype Node = Node(me: Id, currentEpoch: nat, lastVoteEpoch: nat, table: Table,
                       authCount: nat, authSent: bool, authEpoch: nat)

  predicate Wf(n: Node) {
    n.me in n.table.nodes && |n.table.owner| == SLOTS
  }

  function WithInfo(n: Node, id: Id, info: Info): Node {
    n.(table := n.table.(nodes := n.table.nodes[id := info]))
  }

  function Max(a: nat, b: nat): nat {
    if a < b then b else a
  }

  // ---- sending ----

  /** The node whose slots and epoch a node advertises: its master if it is a replica. */
  function Speaker(n: Node): Id
    requires Wf(n)
    ensures Speaker(n) in n.table.nodes
  {
    var i := n.table.nodes[n.me];
    if !i.master && i.slaveof.Some? && i.slaveof.value in n.table.nodes then i.slaveof.value else n.me
  }

  /** clusterBuildMessageHdr */
  function Compose(n: Node, to: Id, body: Body): Msg
    requires Wf(n)
  {
    var s := n.table.nodes[Speaker(n)];
    Msg(n.me, to, n.currentEpoch, s.configEpoch, s.slots, n.table.nodes[n.me].slaveof, body)
  }

  function Broadcast(n: Node, body: Body): set<Msg>
    requires Wf(n)
  {
    set x | x in n.table.nodes && x != n.me :: Compose(n, x, body)
  }

  // ---- epochs ----

  /** The epoch part of clusterProcessPacket. */
  function LearnEpochs(n: Node, m: Msg): Node
    requires m.from in n.table.nodes
  {
    var i := n.table.nodes[m.from];
    var n' := WithInfo(n, m.from, i.(configEpoch := Max(i.configEpoch, m.configEpoch)));
    n'.(currentEpoch := Max(n.currentEpoch, m.currentEpoch))
  }

  /** currentEpoch++ and myself->configEpoch = currentEpoch */
  function NewEpoch(n: Node): Node
    requires Wf(n)
  {
    WithInfo(n, n.me, n.table.nodes[n.me].(configEpoch := n.currentEpoch + 1)).(currentEpoch := n.currentEpoch + 1)
  }

  /** The node already has the greatest epoch it knows, and that epoch is not zero. */
  predicate HasGreatestEpoch(n: Node)
    requires Wf(n)
  {
    var e := n.table.nodes[n.me].configEpoch;
    e != 0 && e >= n.currentEpoch && forall id :: id in n.table.nodes ==> n.table.nodes[id].configEpoch <= e
  }

  /** clusterBumpConfigEpochWithoutConsensus */
  function Bump(n: Node): Node
    requires Wf(n)
  {
    if HasGreatestEpoch(n) then n else NewEpoch(n)
  }

  /** clusterHandleConfigEpochCollision, with the guard of its caller. */
  function Collide(n: Node, from: Id, epoch: nat): Node
    requires Wf(n) && from in n.table.nodes
  {
    var i, mine := n.table.nodes[from], n.table.nodes[n.me];
    if mine.master && i.master && epoch == mine.configEpoch && i.configEpoch == mine.configEpoch && from > n.me
    then NewEpoch(n) else n
  }

  // ---- roles ----

  /** clusterSetNodeAsMaster */
  function AsMaster(i: Info): Info {
    if i.master then i else i.(master := true, slaveof := None)
  }

  /** clusterSetMaster: this node becomes a replica of id. */
  function SetMaster(n: Node, id: Id): Node
    requires Wf(n)
  {
    var i := n.table.nodes[n.me];
    var n' := WithInfo(n, n.me, i.(master := false, slaveof := Some(id)));
    if i.master then n'.(table := n'.table.(importing := map[])) else n'
  }

  /** clusterDelNodeSlots, then the node is flagged as a replica. */
  function Demote(n: Node, id: Id): (r: Node)
    requires Wf(n) && id in n.table.nodes
    ensures SameShape(n.table, r.table) && r.me == n.me
  {
    var t := ReleaseFrom(n.table, id, 0);
    n.(table := t.(nodes := t.nodes[id := t.nodes[id].(master := false)]))
  }

  /** The role switch of clusterProcessPacket. */
  function SwitchRole(n: Node, from: Id, slaveof: Option<Id>): (r: Node)
    requires Wf(n) && from in n.table.nodes
    ensures SameShape(n.table, r.table) && r.me == n.me
  {
    if slaveof.None? then WithInfo(n, from, AsMaster(n.table.nodes[from]))
    else
      var u := if n.table.nodes[from].master then Demote(n, from) else n;
      if slaveof.value in u.table.nodes then WithInfo(u, from, u.table.nodes[from].(slaveof := slaveof)) else u
  }

  // ---- slots ----

  /** The node whose loss of slots matters to this node: itself or its master. */
  function CurMaster(n: Node): Option<Id>
    requires Wf(n)
  {
    var i := n.table.nodes[n.me];
    if i.master then Some(n.me) else i.slaveof
  }

  /** A slot of `cur` goes to the sender of the configuration. */
  predicate Loses(t: Table, cur: Option<Id>, id: Id, epoch: nat, claims: set<nat>) {
    exists j :: 0 <= j < |t.owner| && Rebinds(t, id, epoch, claims, j) && t.owner[j] == cur
  }

  /** A received configuration takes the last slot of this node or of its master. */
  predicate Demotes(n: Node, id: Id, epoch: nat, claims: set<nat>)
    requires Wf(n) && id in n.table.nodes
  {
    var cur := CurMaster(n);
    var t := RebindFrom(n.table, id, epoch, claims, 0);
    && id != n.me && Loses(n.table, cur, id, epoch, claims)
    && cur.Some? && cur.value in t.nodes && t.nodes[cur.value].numslots == 0
  }

  /** clusterUpdateSlotsConfigWith */
  function UpdateSlots(n: Node, id: Id, epoch: nat, claims: set<nat>): (r: Node)
    requires Wf(n) && id in n.table.nodes
    ensures SameShape(n.table, r.table) && r.me == n.me
  {
    if id == n.me then n
    else
      var u := n.(table := RebindFrom(n.table, id, epoch, claims, 0));
      if Demotes(n, id, epoch, claims) then SetMaster(u, id) else u
  }

  /** The assertion of clusterSetMaster fails: this node is to become a replica and still serves slots. */
  predicate UpdateAborts(n: Node, id: Id, epoch: nat, claims: set<nat>)
    requires Wf(n) && id in n.table.nodes
  {
    Demotes(n, id, epoch, claims) && RebindFrom(n.table, id, epoch, claims, 0).nodes[n.me].numslots != 0
  }

  /** The first slot claimed by a sender that a node with a greater epoch owns. */
  function OutdatedFrom(t: Table, m: Msg, j: nat): (r: Option<Id>)
    requires j <= |t.owner|
    ensures r.Some? ==> r.value in t.nodes
    decreases |t.owner| - j
  {
    if j == |t.owner| then None
    else if j in m.slots && t.owner[j] != Some(m.from) && OwnedAbove(t, j, m.configEpoch) then t.owner[j]
    else OutdatedFrom(t, m, j + 1)
  }

  /** The sender's claim differs from what is known of the sender or its master. */
  predicate Dirty(n: Node, m: Msg)
    requires m.from in n.table.nodes
  {
    var i := n.table.nodes[m.from];
    var s := if i.master then Some(m.from) else i.slaveof;
    s.Some? && s.value in n.table.nodes && n.table.nodes[s.value].slots != m.slots
  }

  // ---- packets ----

  /** Configuration part of PING, PONG and MEET; answers an outdated claim with an UPDATE. */
  function HandlePing(n: Node, m: Msg): (Node, set<Msg>)
    requires Wf(n) && m.from in n.table.nodes
  {
    var a := SwitchRole(n, m.from, m.slaveof);
    var b := if a.table.nodes[m.from].master && Dirty(a, m) then UpdateSlots(a, m.from, m.configEpoch, m.slots) else a;
    var o := if Dirty(a, m) then OutdatedFrom(b.table, m, 0) else None;
    var out := if o.None? then {}
               else var i := b.table.nodes[o.value]; {Compose(b, m.from, Update(o.value, i.configEpoch, i.slots))};
    (Collide(b, m.from, m.configEpoch), out)
  }

  /** A known node owns the slot at a config epoch above the one given. */
  predicate OwnedAbove(t: Table, j: nat, epoch: nat)
    requires j < |t.owner|
  {
    t.owner[j].Some? && t.owner[j].value in t.nodes && t.nodes[t.owner[j].value].configEpoch > epoch
  }

  /** clusterSendFailoverAuthIfNeeded grants the vote; `tooSoon`: it voted for this master recently. */
  predicate Grants(n: Node, m: Msg, force: bool, tooSoon: bool)
    requires Wf(n) && m.from in n.table.nodes
  {
    var i, mine := n.table.nodes[m.from], n.table.nodes[n.me];
    && mine.master && mine.numslots > 0
    && m.currentEpoch >= n.currentEpoch && n.lastVoteEpoch != n.currentEpoch
    && !i.master && i.slaveof.Some? && i.slaveof.value in n.table.nodes
    && (n.table.nodes[i.slaveof.value].failed || force) && !tooSoon
    && forall j :: 0 <= j < SLOTS && j in m.slots ==> !OwnedAbove(n.table, j, m.configEpoch)
  }

  function Vote(n: Node, m: Msg, force: bool, tooSoon: bool): (Node, set<Msg>)
    requires Wf(n) && m.from in n.table.nodes
  {
    if Grants(n, m, force, tooSoon)
    then var v := n.(lastVoteEpoch := n.currentEpoch); (v, {Compose(v, m.from, Ack)})
    else (n, {})
  }

  /** An ACK that is counted: from a master with slots, for an epoch not before the election's. */
  predicate Counts(n: Node, m: Msg) {
    m.from in n.table.nodes && n.table.nodes[m.from].master && n.table.nodes[m.from].numslots > 0
      && m.currentEpoch >= n.authEpoch
  }

  function HandleUpdate(n: Node, id: Id, epoch: nat, claims: set<nat>): Node
    requires Wf(n)
  {
    if id !in n.table.nodes || n.table.nodes[id].configEpoch >= epoch then n
    else UpdateSlots(WithInfo(n, id, AsMaster(n.table.nodes[id]).(configEpoch := epoch)), id, epoch, claims)
  }

  function MarkFailed(n: Node, id: Id): Node {
    if id in n.table.nodes && id != n.me then WithInfo(n, id, n.table.nodes[id].(failed := true)) else n
  }

  /** clusterProcessPacket: unknown senders are ignored. */
  function Receive(n: Node, m: Msg, tooSoon: bool): (Node, set<Msg>)
    requires Wf(n)
  {
    if m.from !in n.table.nodes then (n, {})
    else
      var l := LearnEpochs(n, m);
      match m.body
      case Ping => HandlePing(l, m)
      case Fail(about) => (MarkFailed(l, about), {})
      case Request(force) => Vote(l, m, force, tooSoon)
      case Ack => (if Counts(l, m) then l.(authCount := l.authCount + 1) else l, {})
      case Update(id, epoch, claims) => (HandleUpdate(l, id, epoch, claims), {})
  }

  // ---- failed assertions ----

  predicate PingAborts(n: Node, m: Msg)
    requires Wf(n) && m.from in n.table.nodes
  {
    var a := SwitchRole(n, m.from, m.slaveof);
    a.table.nodes[m.from].master && Dirty(a, m) && UpdateAborts(a, m.from, m.configEpoch, m.slots)
  }

  predicate HandleUpdateAborts(n: Node, id: Id, epoch: nat, claims: set<nat>)
    requires Wf(n)
  {
    && id in n.table.nodes && n.table.nodes[id].configEpoch < epoch
    && UpdateAborts(WithInfo(n, id, AsMaster(n.table.nodes[id]).(configEpoch := epoch)), id, epoch, claims)
  }

  /** Handling the packet ends in a failed assertion, and the server with it. */
  predicate Aborts(n: Node, m: Msg)
    requires Wf(n)
  {
    m.from in n.table.nodes &&
    match m.body
    case Ping => PingAborts(LearnEpochs(n, m), m)
    case Update(id, epoch, claims) => HandleUpdateAborts(LearnEpochs(n, m), id, epoch, claims)
    case _ => false
  }

  /** This node is a replica and keeps a slot of its own, while every slot of its master, which has
      some, goes to the sender of the configuration. */
  predicate Stranded(n: Node, id: Id, epoch: nat, claims: set<nat>)
    requires Wf(n)
  {
    var t, mine := n.table, n.table.nodes[n.me];
    && id != n.me && !mine.master && mine.slaveof.Some?
    && (exists j :: 0 <= j < SLOTS && t.owner[j] == mine.slaveof)
    && (forall j :: 0 <= j < SLOTS && t.owner[j] == mine.slaveof ==> Rebinds(t, id, epoch, claims, j))
    && (exists j :: 0 <= j < SLOTS && t.owner[j] == Some(n.me) && !Rebinds(t, id, epoch, claims, j))
  }

  /** A packet with the claims of a master, or an UPDATE that is news, leaves this node stranded. */
  predicate StrandedBy(n: Node, m: Msg)
    requires Wf(n)
  {
    m.from in n.table.nodes &&
    var l := LearnEpochs(n, m);
    match m.body
    case Ping => m.slaveof.None? && Stranded(l, m.from, m.configEpoch, m.slots)
    case Update(id, epoch, claims) =>
      id in l.table.nodes && l.table.nodes[id].configEpoch < epoch && Stranded(l, id, epoch, claims)
    case _ => false
  }

  // ---- failover of a replica ----

  /** clusterFailoverReplaceYourMaster */
  function ReplaceMaster(n: Node): Node
    requires Wf(n)
  {
    var i := n.table.nodes[n.me];
    if i.master || i.slaveof.None? then n
    else
      var p := WithInfo(n, n.me, AsMaster(i));
      p.(table := TakeOverFrom(p.table, n.me, i.slaveof.value, 0))
  }

  /** Where the election clock stands: the retry time has passed, the election is not due or has
      expired, or it is due. */
  datatype Clock = Retry | Hold | Due

  predicate MayFailOver(n: Node, manual: bool)
    requires Wf(n)
  {
    var i := n.table.nodes[n.me];
    && !i.master && i.slaveof.Some? && i.slaveof.value in n.table.nodes
    && (n.table.nodes[i.slaveof.value].failed || manual) && n.table.nodes[i.slaveof.value].numslots != 0
  }

  predicate Starts(n: Node, manual: bool, clock: Clock)
    requires Wf(n)
  {
    MayFailOver(n, manual) && clock.Due? && !n.authSent
  }

  predicate Wins(n: Node, manual: bool, clock: Clock, size: nat)
    requires Wf(n)
  {
    MayFailOver(n, manual) && clock.Due? && n.authSent && n.authCount >= size / 2 + 1
  }

  function Start(n: Node): Node {
    n.(currentEpoch := n.currentEpoch + 1, authEpoch := n.currentEpoch + 1, authSent := true)
  }

  function Win(n: Node): Node
    requires Wf(n)
  {
    var i := n.table.nodes[n.me];
    ReplaceMaster(WithInfo(n, n.me, i.(configEpoch := Max(i.configEpoch, n.authEpoch))))
  }

  /** clusterHandleSlaveFailover; `size` is the number of masters serving slots. */
  function HandleFailover(n: Node, manual: bool, force: bool, clock: Clock, size: nat): (Node, set<Msg>)
    requires Wf(n)
  {
    if !MayFailOver(n, manual) then (n, {})
    else if clock.Retry? then (n.(authCount := 0, authSent := false), {})
    else if Starts(n, manual, clock) then (Start(n), Broadcast(Start(n), Request(force)))
    else if Wins(n, manual, clock, size) then (Win(n), {})
    else (n, {})
  }

  // ---- commands ----

  datatype Command =
    | AddSlots(slot: nat) | DelSlots(slot: nat) | FlushSlots | Importing(slot: nat, id: Id) | Stable(slot: nat)
    | SetSlotNode(slot: nat, id: Id) | BumpEpoch | SetConfigEpoch(epoch: nat) | Forget(id: Id) | Replicate(id: Id)
    | Introduce(id: Id, master: bool) | ClearFailure(id: Id)

  function NoImport(t: Table, j: nat): Table {
    t.(importing := t.importing - {j})
  }

  /** SETSLOT <slot> NODE <id> */
  function AssignSlot(n: Node, j: nat, id: Id): Node
    requires Wf(n) && j < SLOTS && id in n.table.nodes
  {
    var a := if id == n.me && j in n.table.importing
             then var b := Bump(n); b.(table := NoImport(b.table, j)) else n;
    a.(table := Rebind(a.table, id, j))
  }

  /** CLUSTER REPLICATE of the node is not refused. */
  predicate MayReplicate(n: Node, id: Id)
    requires Wf(n)
  {
    var t, mine := n.table, n.table.nodes[n.me];
    id in t.nodes && id != n.me && t.nodes[id].master && (!mine.master || mine.numslots == 0)
  }

  /** The command ends in the failed assertion of clusterSetMaster. */
  predicate CommandAborts(n: Node, c: Command)
    requires Wf(n)
  {
    c.Replicate? && MayReplicate(n, c.id) && n.table.nodes[n.me].numslots != 0
  }

  /** CLUSTER subcommands that change the configuration; Introduce is the end of a handshake, and
      ClearFailure the recovery of a node that was flagged as failed. */
  function Execute(n: Node, c: Command): Node
    requires Wf(n)
  {
    var t, mine := n.table, n.table.nodes[n.me];
    match c
    case AddSlots(j) =>
      if j < SLOTS && t.owner[j].None? then n.(table := AddSlot(NoImport(t, j), n.me, j).0) else n
    case DelSlots(j) =>
      if j < SLOTS && t.owner[j].Some? then n.(table := DelSlot(NoImport(t, j), j).0) else n
    case FlushSlots => n.(table := ReleaseFrom(t, n.me, 0))
    case Importing(j, id) =>
      if j < SLOTS && mine.master && id in t.nodes && t.owner[j] != Some(n.me)
      then n.(table := t.(importing := t.importing[j := id])) else n
    case Stable(j) => if mine.master then n.(table := NoImport(t, j)) else n
    case SetSlotNode(j, id) => if j < SLOTS && mine.master && id in t.nodes then AssignSlot(n, j, id) else n
    case BumpEpoch => Bump(n)
    case SetConfigEpoch(e) =>
      if |t.nodes| > 1 || mine.configEpoch != 0 then n
      else WithInfo(n, n.me, mine.(configEpoch := e)).(currentEpoch := Max(n.currentEpoch, e))
    case Forget(id) =>
      if id !in t.nodes || id == n.me || (!mine.master && mine.slaveof == Some(id)) then n
      else n.(table := DelNode(t, id))
    case Replicate(id) => if MayReplicate(n, id) then SetMaster(n, id) else n
    case Introduce(id, master) =>
      if id in t.nodes then n else WithInfo(n, id, Info(0, master, None, false, {}, 0))
    case ClearFailure(id) =>
      if id in t.nodes then WithInfo(n, id, t.nodes[id].(failed := false)) else n
  }
}
