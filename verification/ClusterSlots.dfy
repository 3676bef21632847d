/** The slot table of a cluster node: which node owns each hash slot, and each known node's own
    bitmap and count of slots. */
module ClusterSlots {

  import opened Wrappers

  const SLOTS: nat := 16384

  /** Node name; the order is that of memcmp on names. */
  type Id = nat

  /** clusterNode, as far as the configuration goes; `slots` is the bitmap. */
  datatype Info = Info(configEpoch: nat, master: bool, slaveof: Option<Id>, failed: bool,
                       slots: set<nat>, numslots: nat)

  /** `nodes`, `slots` and `importing_slots_from` of clusterState. */
  datatype Table = Table(nodes: map<Id, Info>, owner: seq<Option<Id>>, importing: map<nat, Id>)

  /** The same nodes are known, and there are as many slots. */
  ghost predicate SameShape(t: Table, r: Table) {
    r.nodes.Keys == t.nodes.Keys && |r.owner| == |t.owner|
  }

  // ---- single slots ----

  /** clusterNodeSetSlotBit */
  function SetBit(i: Info, j: nat): Info {
    i.(slots := i.slots + {j}, numslots := if j in i.slots then i.numslots else i.numslots + 1)
  }

  /** clusterNodeClearSlotBit */
  function ClearBit(i: Info, j: nat): Info {
    i.(slots := i.slots - {j}, numslots := if j in i.slots && i.numslots > 0 then i.numslots - 1 else i.numslots)
  }

  /** clusterAddSlot; false when the slot is already assigned. */
  function AddSlot(t: Table, id: Id, j: nat): (r: (Table, bool))
    requires j < |t.owner| && id in t.nodes
    ensures SameShape(t, r.0)
  {
    if t.owner[j].Some? then (t, false)
    else (t.(nodes := t.nodes[id := SetBit(t.nodes[id], j)], owner := t.owner[j := Some(id)]), true)
  }

  /** clusterDelSlot; false when the slot is not assigned. */
  function DelSlot(t: Table, j: nat): (r: (Table, bool))
    requires j < |t.owner|
    ensures SameShape(t, r.0)
  {
    if t.owner[j].None? then (t, false)
    else
      var id := t.owner[j].value;
      (t.(nodes := if id in t.nodes then t.nodes[id := ClearBit(t.nodes[id], j)] else t.nodes,
          owner := t.owner[j := None]), true)
  }

  // ---- consistency ----

  /** Every bit of a node's bitmap is a slot that points to the node. */
  ghost predicate BitsOk(t: Table, id: Id)
    requires id in t.nodes
  {
    forall j: nat :: j in t.nodes[id].slots ==> j < |t.owner| && t.owner[j] == Some(id)
  }

  /** Slot j points to node n exactly when bit j of n's bitmap is set, and numslots is the number
      of bits set. */
  ghost predicate SlotsOk(t: Table) {
    && |t.owner| == SLOTS
    && (forall j :: 0 <= j < SLOTS && t.owner[j].Some? ==>
      t.owner[j].value in t.nodes && j in t.nodes[t.owner[j].value].slots)
    && (forall id :: id in t.nodes ==> BitsOk(t, id) && t.nodes[id].numslots == |t.nodes[id].slots|)
  }

  lemma RemoveOne(s: set<nat>, j: nat)
    ensures j in s ==> |s - {j}| == |s| - 1
    ensures j !in s ==> |s + {j}| == |s| + 1 && s - {j} == s
  {
    if j in s { assert s == (s - {j}) + {j}; }
  }

  lemma DelSlotKeeps(t: Table, j: nat)
    requires SlotsOk(t) && j < SLOTS
    ensures var t' := DelSlot(t, j).0; SlotsOk(t') && SameNodes(t, t') && t'.owner == t.owner[j := None]
  {
    if t.owner[j].Some? {
      var id := t.owner[j].value;
      RemoveOne(t.nodes[id].slots, j);
      var t' := DelSlot(t, j).0;
      forall a | a in t'.nodes
        ensures BitsOk(t', a)
      {
        assert BitsOk(t, a);
      }
    }
  }

  lemma AddSlotBits(t: Table, id: Id, j: nat, a: Id)
    requires SlotsOk(t) && j < SLOTS && id in t.nodes && t.owner[j] == None && a in t.nodes
    ensures var t' := AddSlot(t, id, j).0; BitsOk(t', a) && t'.nodes[a].numslots == |t'.nodes[a].slots|
  {
    assert BitsOk(t, a) && t.nodes[a].numslots == |t.nodes[a].slots|;
    hide SlotsOk;
    RemoveOne(t.nodes[id].slots, j);
  }

  lemma AddSlotKeeps(t: Table, id: Id, j: nat)
    requires SlotsOk(t) && j < SLOTS && id in t.nodes && t.owner[j] == None
    ensures SlotsOk(AddSlot(t, id, j).0)
  {
    var t' := AddSlot(t, id, j).0;
    forall a | a in t'.nodes
      ensures BitsOk(t', a) && t'.nodes[a].numslots == |t'.nodes[a].slots|
    {
      AddSlotBits(t, id, j, a);
    }
    hide BitsOk;
  }

  /** Rebinding of a slot: clusterDelSlot then clusterAddSlot. */
  function Rebind(t: Table, id: Id, j: nat): (r: Table)
    requires j < |t.owner| && id in t.nodes
    ensures SameShape(t, r)
  {
    AddSlot(DelSlot(t, j).0, id, j).0
  }

  /** Facts that slot operations leave alone. */
  ghost predicate SameNodes(t: Table, t': Table) {
    && t'.nodes.Keys == t.nodes.Keys && t'.importing == t.importing && |t'.owner| == |t.owner|
    && forall id :: id in t.nodes ==>
         t'.nodes[id] == t.nodes[id].(slots := t'.nodes[id].slots, numslots := t'.nodes[id].numslots)
  }

  lemma SameNodesTrans(t: Table, u: Table, v: Table)
    requires SameNodes(t, u) && SameNodes(u, v)
    ensures SameNodes(t, v)
  {
  }

  lemma RebindKeeps(t: Table, id: Id, j: nat)
    requires SlotsOk(t) && j < SLOTS && id in t.nodes
    ensures var t' := Rebind(t, id, j);
      SlotsOk(t') && SameNodes(t, t') && t'.owner == t.owner[j := Some(id)]
  {
    hide SlotsOk;
    assert |t.owner| == SLOTS by { OwnerLength(t); }
    DelSlotKeeps(t, j);
    var u := DelSlot(t, j).0;
    AddSlotKeeps(u, id, j);
  }

  lemma OwnerLength(t: Table)
    requires SlotsOk(t)
    ensures |t.owner| == SLOTS
  {
  }

  // ---- loops over all slots ----

  /** The slots of a received configuration that are rebound to its sender. */
  predicate Rebinds(t: Table, id: Id, epoch: nat, claims: set<nat>, j: nat)
    requires j < |t.owner|
  {
    && j in claims && t.owner[j] != Some(id) && j !in t.importing
    && (t.owner[j].None? || (t.owner[j].value in t.nodes && t.nodes[t.owner[j].value].configEpoch < epoch))
  }

  /** The for loop of clusterUpdateSlotsConfigWith from slot j on. */
  function RebindFrom(t: Table, id: Id, epoch: nat, claims: set<nat>, j: nat): (r: Table)
    requires j <= |t.owner| && id in t.nodes
    ensures SameShape(t, r)
    decreases |t.owner| - j
  {
    if j == |t.owner| then t
    else RebindFrom(if Rebinds(t, id, epoch, claims, j) then Rebind(t, id, j) else t, id, epoch, claims, j + 1)
  }

  lemma {:induction false} RebindFromKeeps(t: Table, id: Id, epoch: nat, claims: set<nat>, j: nat)
    requires SlotsOk(t) && j <= SLOTS && |t.owner| == SLOTS && id in t.nodes
    ensures var t' := RebindFrom(t, id, epoch, claims, j);
      && SlotsOk(t') && SameNodes(t, t')
      && forall k :: 0 <= k < SLOTS ==>
           t'.owner[k] == if k >= j && Rebinds(t, id, epoch, claims, k) then Some(id) else t.owner[k]
    decreases SLOTS - j
  {
    hide SlotsOk, Rebind;
    if j < SLOTS {
      var u := if Rebinds(t, id, epoch, claims, j) then Rebind(t, id, j) else t;
      RebindKeeps(t, id, j);
      RebindFromKeeps(u, id, epoch, claims, j + 1);
      SameNodesTrans(t, u, RebindFrom(u, id, epoch, claims, j + 1));
    }
  }

  /** The loop of clusterDelNodeSlots, and of clusterDelNode: unassigns the slots of one node. */
  function ReleaseFrom(t: Table, id: Id, j: nat): (r: Table)
    requires j <= |t.owner|
    ensures SameShape(t, r)
    decreases |t.owner| - j
  {
    if j == |t.owner| then t
    else ReleaseFrom(if t.owner[j] == Some(id) then DelSlot(t, j).0 else t, id, j + 1)
  }

  lemma {:induction false} ReleaseFromKeeps(t: Table, id: Id, j: nat)
    requires SlotsOk(t) && j <= SLOTS && |t.owner| == SLOTS
    ensures var t' := ReleaseFrom(t, id, j);
      && SlotsOk(t') && SameNodes(t, t')
      && forall k :: 0 <= k < SLOTS ==> t'.owner[k] == if k >= j && t.owner[k] == Some(id) then None else t.owner[k]
    decreases SLOTS - j
  {
    hide SlotsOk, DelSlot;
    if j < SLOTS {
      var u := if t.owner[j] == Some(id) then DelSlot(t, j).0 else t;
      DelSlotKeeps(t, j);
      ReleaseFromKeeps(u, id, j + 1);
      SameNodesTrans(t, u, ReleaseFrom(u, id, j + 1));
    }
  }

  /** The loop of clusterFailoverReplaceYourMaster: takes over the slots of the previous master. */
  function TakeOverFrom(t: Table, me: Id, prev: Id, j: nat): (r: Table)
    requires j <= |t.owner| && me in t.nodes
    ensures SameShape(t, r)
    decreases |t.owner| - j
  {
    if j == |t.owner| then t
    else TakeOverFrom(if t.owner[j] == Some(prev) then Rebind(t, me, j) else t, me, prev, j + 1)
  }

  lemma {:induction false} TakeOverFromKeeps(t: Table, me: Id, prev: Id, j: nat)
    requires SlotsOk(t) && j <= SLOTS && |t.owner| == SLOTS && me in t.nodes && me != prev
    ensures var t' := TakeOverFrom(t, me, prev, j);
      && SlotsOk(t') && SameNodes(t, t')
      && forall k :: 0 <= k < SLOTS ==>
        t'.owner[k] == if k >= j && t.owner[k] == Some(prev) then Some(me) else t.owner[k]
    decreases SLOTS - j
  {
    hide SlotsOk, Rebind;
    if j < SLOTS {
      var u := if t.owner[j] == Some(prev) then Rebind(t, me, j) else t;
      RebindKeeps(t, me, j);
      TakeOverFromKeeps(u, me, prev, j + 1);
      SameNodesTrans(t, u, TakeOverFrom(u, me, prev, j + 1));
    }
  }

  // ---- node deletion ----

  /** Drops the node from the table of nodes; its replicas no longer know their master. */
  function Unlink(nodes: map<Id, Info>, id: Id): map<Id, Info> {
    map x | x in nodes && x != id :: if nodes[x].slaveof == Some(id) then nodes[x].(slaveof := None) else nodes[x]
  }

  /** clusterDelNode */
  function DelNode(t: Table, id: Id): Table {
    var u := ReleaseFrom(t, id, 0);
    u.(nodes := Unlink(u.nodes, id), importing := map j | j in u.importing && u.importing[j] != id :: u.importing[j])
  }

  lemma UnlinkKeeps(u: Table, id: Id, t': Table)
    requires SlotsOk(u) && t'.owner == u.owner && t'.nodes == Unlink(u.nodes, id)
    requires forall k :: 0 <= k < SLOTS ==> u.owner[k] != Some(id)
    ensures SlotsOk(t')
  {
    forall a | a in t'.nodes
      ensures BitsOk(t', a) && t'.nodes[a].numslots == |t'.nodes[a].slots|
    {
      assert BitsOk(u, a);
    }
  }

  lemma DelNodeKeeps(t: Table, id: Id)
    requires SlotsOk(t)
    ensures var t' := DelNode(t, id);
      && SlotsOk(t') && t'.nodes.Keys == t.nodes.Keys - {id}
      && forall k :: 0 <= k < SLOTS ==> t'.owner[k] == if t.owner[k] == Some(id) then None else t.owner[k]
  {
    hide ReleaseFrom, SlotsOk;
    OwnerLength(t);
    ReleaseFromKeeps(t, id, 0);
    UnlinkKeeps(ReleaseFrom(t, id, 0), id, DelNode(t, id));
  }

  // ---- the loops as statements on ownership ----

  /** A node's own slots after a loop that moves ownership from one node to another. */
  lemma SlotsOf(t: Table, id: Id)
    requires SlotsOk(t) && id in t.nodes
    ensures t.nodes[id].slots == set j | 0 <= j < SLOTS && t.owner[j] == Some(id)
  {
  }
}
