/** An observer that hears every master ends with the owner of highest epoch for every slot,
    whatever the order and repetition of the packets. */
module ClusterConverge {

  import opened Wrappers
  import opened ClusterSlots
  import opened ClusterNode
  import opened ClusterInvariants

  /** What a master keeps publishing. */
  datatype Claim = Claim(epoch: nat, slots: set<nat>)

  type Claims = map<Id, Claim>

  /** A PING or PONG of master x, with whatever current epoch it has at that time. */
  function Publish(claims: Claims, x: Id, to: Id, currentEpoch: nat): Msg
    requires x in claims
  {
    Msg(x, to, currentEpoch, claims[x].epoch, claims[x].slots, None, Ping)
  }

  /** The observer after the packets of `heard`, each a sender and its current epoch. */
  function Observe(n: Node, claims: Claims, heard: seq<(Id, nat)>): Node
    requires Wf(n) && forall i :: 0 <= i < |heard| ==> heard[i].0 in claims
    ensures Wf(Observe(n, claims, heard)) && Observe(n, claims, heard).me == n.me
  {
    if heard == [] then n
    else
      var p := Observe(n, claims, heard[..|heard| - 1]);
      var (x, e) := heard[|heard| - 1];
      Receive(p, Publish(claims, x, n.me, e), false).0
  }

  ghost predicate Distinct(claims: Claims) {
    forall x, y :: x in claims && y in claims && x != y ==> claims[x].epoch != claims[y].epoch
  }

  /** Among the masters `known`, w claims slot j with the highest epoch. */
  ghost predicate IsBest(claims: Claims, known: set<Id>, j: nat, w: Id) {
    && w in known && w in claims && j in claims[w].slots
    && forall x :: x in known && x in claims && j in claims[x].slots ==> claims[x].epoch <= claims[w].epoch
  }

  ghost predicate Unclaimed(claims: Claims, known: set<Id>, j: nat) {
    forall x :: x in known && x in claims ==> j !in claims[x].slots
  }

  /** Slot j has the right owner, given that the masters `known` have been heard. */
  ghost predicate SlotRight(owner: Option<Id>, claims: Claims, known: set<Id>, j: nat) {
    match owner
    case None => Unclaimed(claims, known, j)
    case Some(w) => IsBest(claims, known, j, w)
  }

  /** The observer: a master that knows the claimants, at epochs they published, and imports nothing. */
  ghost predicate Observer(n: Node, claims: Claims) {
    && Wf(n) && SlotsOk(n.table) && n.me !in claims && n.table.nodes[n.me].master && n.table.importing == map[]
    && forall x :: x in claims ==> x in n.table.nodes && n.table.nodes[x].configEpoch <= claims[x].epoch
  }

  ghost predicate Heard(n: Node, claims: Claims, known: set<Id>) {
    && Observer(n, claims)
    && (forall x :: x in known ==> x in claims && n.table.nodes[x].configEpoch == claims[x].epoch)
    && (forall j :: 0 <= j < SLOTS ==> SlotRight(n.table.owner[j], claims, known, j))
  }

  /** Hearing x again or for the first time: epochs and role. */
  lemma HearRole(n: Node, claims: Claims, known: set<Id>, x: Id, e: nat)
    requires Heard(n, claims, known) && x in claims
    ensures var m := Publish(claims, x, n.me, e);
      var a := SwitchRole(LearnEpochs(n, m), x, None);
      && Heard(a, claims, known) && a.me == n.me
      && a.table.nodes[x].master && a.table.nodes[x].configEpoch == claims[x].epoch
  {
    hide SlotsOk, SlotRight;
    var m := Publish(claims, x, n.me, e);
    var l := LearnEpochs(n, m);
    var a := SwitchRole(l, x, None);
    InfoKeepsSlots(n.table, l.table, x);
    InfoKeepsSlots(l.table, a.table, x);
  }

  /** A slot's owner after x has been heard. */
  lemma RebindRight(n: Node, claims: Claims, known: set<Id>, x: Id, j: nat)
    requires Heard(n, claims, known) && x in claims && Distinct(claims)
    requires n.table.nodes[x].configEpoch == claims[x].epoch && j < SLOTS
    ensures var o := if Rebinds(n.table, x, claims[x].epoch, claims[x].slots, j) then Some(x) else n.table.owner[j];
      SlotRight(o, claims, known + {x}, j)
  {
    hide SlotsOk;
    assert SlotRight(n.table.owner[j], claims, known, j);
  }

  lemma NotDirtyNoRebind(n: Node, x: Id, epoch: nat, j: nat)
    requires SlotsOk(n.table) && x in n.table.nodes && j < SLOTS && |n.table.owner| == SLOTS
    ensures !Rebinds(n.table, x, epoch, n.table.nodes[x].slots, j)
  {
    assert BitsOk(n.table, x);
  }

  lemma NothingToLose(n: Node, claims: Claims, known: set<Id>, x: Id)
    requires Heard(n, claims, known) && x in claims
    ensures !Loses(n.table, CurMaster(n), x, claims[x].epoch, claims[x].slots)
  {
    hide SlotsOk;
    forall j | 0 <= j < SLOTS
      ensures n.table.owner[j] != Some(n.me)
    {
      assert SlotRight(n.table.owner[j], claims, known, j);
    }
  }

  /** The slot part of a packet, whether or not the claim looks changed. */
  function HearSlots(a: Node, m: Msg): Node
    requires Wf(a) && m.from in a.table.nodes
  {
    if a.table.nodes[m.from].master && Dirty(a, m) then UpdateSlots(a, m.from, m.configEpoch, m.slots) else a
  }

  lemma HearSlotsRight(a: Node, claims: Claims, known: set<Id>, x: Id, m: Msg)
    requires Heard(a, claims, known) && x in claims && Distinct(claims) && a.table.nodes[x].master
    requires a.table.nodes[x].configEpoch == claims[x].epoch
    requires m.from == x && m.configEpoch == claims[x].epoch && m.slots == claims[x].slots
    ensures var b := HearSlots(a, m); Heard(b, claims, known + {x}) && b.me == a.me
  {
    hide SlotsOk, RebindFrom, Rebinds, Loses, SlotRight;
    var b := HearSlots(a, m);
    RebindFromKeeps(a.table, x, claims[x].epoch, claims[x].slots, 0);
    NothingToLose(a, claims, known, x);
    forall j | 0 <= j < SLOTS
      ensures SlotRight(b.table.owner[j], claims, known + {x}, j)
    {
      RebindRight(a, claims, known, x, j);
      if !Dirty(a, m) { NotDirtyNoRebind(a, x, claims[x].epoch, j); }
    }
  }

  lemma CollideRight(b: Node, claims: Claims, known: set<Id>, x: Id, epoch: nat)
    requires Heard(b, claims, known) && x in claims
    ensures Heard(Collide(b, x, epoch), claims, known) && Collide(b, x, epoch).me == b.me
  {
    hide SlotsOk, SlotRight;
    InfoKeepsSlots(b.table, NewEpoch(b).table, b.me);
  }

  lemma HearOne(n: Node, claims: Claims, known: set<Id>, x: Id, e: nat)
    requires Heard(n, claims, known) && x in claims && Distinct(claims)
    ensures Heard(Receive(n, Publish(claims, x, n.me, e), false).0, claims, known + {x})
  {
    hide SlotsOk, SlotRight, LearnEpochs, SwitchRole, UpdateSlots, Dirty, OutdatedFrom, Collide, Compose;
    var m := Publish(claims, x, n.me, e);
    HearRole(n, claims, known, x, e);
    LearnEpochsNodes(n, m);
    var a := SwitchRole(LearnEpochs(n, m), x, None);
    HearSlotsRight(a, claims, known, x, m);
    CollideRight(HearSlots(a, m), claims, known + {x}, x, m.configEpoch);
  }

  function Senders(heard: seq<(Id, nat)>): set<Id> {
    set i | 0 <= i < |heard| :: heard[i].0
  }

  lemma {:induction false} ObserveHears(n: Node, claims: Claims, heard: seq<(Id, nat)>)
    requires Observer(n, claims) && Distinct(claims) && forall i :: 0 <= i < |heard| ==> heard[i].0 in claims
    requires forall j :: 0 <= j < SLOTS ==> n.table.owner[j] == None
    ensures Heard(Observe(n, claims, heard), claims, Senders(heard))
  {
    hide SlotsOk, Receive;
    if heard != [] {
      var last := heard[|heard| - 1];
      var before := heard[..|heard| - 1];
      ObserveHears(n, claims, before);
      HearOne(Observe(n, claims, before), claims, Senders(before), last.0, last.1);
      assert Senders(heard) == Senders(before) + {last.0};
    }
  }

  /** Convergence: once every master has been heard, every claimed slot belongs to its claimant of
      highest epoch and every other slot to nobody. */
  lemma Converges(n: Node, claims: Claims, heard: seq<(Id, nat)>, j: nat)
    requires Observer(n, claims) && Distinct(claims) && forall i :: 0 <= i < |heard| ==> heard[i].0 in claims
    requires forall k :: 0 <= k < SLOTS ==> n.table.owner[k] == None
    requires claims.Keys <= Senders(heard) && j < SLOTS
    ensures SlotRight(Observe(n, claims, heard).table.owner[j], claims, claims.Keys, j)
  {
    hide SlotsOk, Receive, Observe;
    ObserveHears(n, claims, heard);
    var r := Observe(n, claims, heard);
    assert SlotRight(r.table.owner[j], claims, Senders(heard), j);
  }

  /** Two observers that hear the same masters in different orders end with the same slot owners. */
  lemma ObserversAgree(n: Node, n': Node, claims: Claims, heard: seq<(Id, nat)>, heard': seq<(Id, nat)>)
    requires Observer(n, claims) && Observer(n', claims) && Distinct(claims)
    requires forall i :: 0 <= i < |heard| ==> heard[i].0 in claims
    requires forall i :: 0 <= i < |heard'| ==> heard'[i].0 in claims
    requires forall k :: 0 <= k < SLOTS ==> n.table.owner[k] == None && n'.table.owner[k] == None
    requires claims.Keys <= Senders(heard) && claims.Keys <= Senders(heard')
    ensures Observe(n, claims, heard).table.owner == Observe(n', claims, heard').table.owner
  {
    hide SlotsOk, Receive, Observe;
    var a, b := Observe(n, claims, heard), Observe(n', claims, heard');
    forall j | 0 <= j < SLOTS
      ensures a.table.owner[j] == b.table.owner[j]
    {
      Converges(n, claims, heard, j);
      Converges(n', claims, heard', j);
    }
  }
}
