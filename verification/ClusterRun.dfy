/** The whole cluster: nodes, every message sent so far, and the steps that nodes take. A message
    may be delivered late, repeatedly or never, except that an ACK is delivered at most once. */
module ClusterRun {

  import opened ClusterSlots
  import opened ClusterNode
  import opened ClusterInvariants

  /** `consumed` holds the delivered ACKs, `counted` the voters counted by a candidate for an
      epoch, `stray` the votes a candidate's counter held when it started its election, and `wins`
      the elections won. */
  datatype State = State(nodes: map<Id, Node>, sent: set<Msg>, consumed: set<Msg>,
                         counted: map<(Id, nat), set<Id>>, stray: map<Id, nat>, wins: set<(Id, nat)>)

  datatype Step =
    | Deliver(m: Msg, tooSoon: bool)
    | SendPing(at: Id, to: Id)
    | DeclareFail(at: Id, about: Id)
    | Failover(at: Id, manual: bool, force: bool, clock: Clock, size: nat)
    | Admin(at: Id, c: Command)

  function At(step: Step): Id {
    if step.Deliver? then step.m.to else step.at
  }

  predicate Enabled(s: State, step: Step) {
    && At(step) in s.nodes && Wf(s.nodes[At(step)])
    && (step.Deliver? ==> step.m in s.sent && step.m.from != step.m.to && (step.m.body.Ack? ==> step.m !in s.consumed))
  }

  /** What the node does in a step. */
  function Act(n: Node, step: Step): (Node, set<Msg>)
    requires Wf(n)
  {
    match step
    case Deliver(m, tooSoon) => Receive(n, m, tooSoon)
    case SendPing(_, to) => (n, {Compose(n, to, Ping)})
    case DeclareFail(_, about) => (MarkFailed(n, about), Broadcast(n, Fail(about)))
    case Failover(_, manual, force, clock, size) => HandleFailover(n, manual, force, clock, size)
    case Admin(_, c) => (Execute(n, c), {})
  }

  function CountedFor(s: State, c: Id, e: nat): set<Id> {
    if (c, e) in s.counted then s.counted[(c, e)] else {}
  }

  function Stray(s: State, c: Id): nat {
    if c in s.stray then s.stray[c] else 0
  }

  /** The step is an ACK that the receiver counts. */
  predicate IsCount(n: Node, step: Step) {
    step.Deliver? && step.m.body.Ack? && step.m.from in n.table.nodes && Counts(LearnEpochs(n, step.m), step.m)
  }

  predicate IsWin(n: Node, step: Step)
    requires Wf(n)
  {
    step.Failover? && Wins(n, step.manual, step.clock, step.size)
  }

  predicate IsStart(n: Node, step: Step)
    requires Wf(n)
  {
    step.Failover? && Starts(n, step.manual, step.clock)
  }

  function Next(s: State, step: Step): State
    requires Enabled(s, step)
  {
    var at := At(step);
    var n := s.nodes[at];
    var (n', out) := Act(n, step);
    State(s.nodes[at := n'], s.sent + out,
          if step.Deliver? && step.m.body.Ack? then s.consumed + {step.m} else s.consumed,
          if IsCount(n, step)
          then s.counted[(at, step.m.currentEpoch) := CountedFor(s, at, step.m.currentEpoch) + {step.m.from}]
          else s.counted,
          if IsStart(n, step) then s.stray[at := n.authCount] else s.stray,
          if IsWin(n, step) then s.wins + {(at, n.authEpoch)} else s.wins)
  }

  ghost predicate Initial(s: State, strict: bool) {
    && (forall id :: id in s.nodes ==>
      NodeOk(s.nodes[id], strict) && s.nodes[id].me == id && !s.nodes[id].authSent && s.nodes[id].authCount == 0)
    && s.sent == {} && s.consumed == {} && s.counted == map[] && s.stray == map[] && s.wins == {}
  }

  ghost predicate IsRun(ss: seq<State>, steps: seq<Step>) {
    |ss| == |steps| + 1 && forall i :: 0 <= i < |steps| ==>
      Enabled(ss[i], steps[i]) && ss[i + 1] == Next(ss[i], steps[i])
  }

  // ---- slots and epochs in every reachable state ----

  ghost predicate SentOk(s: State, m: Msg) {
    MsgOk(m) && m.from in s.nodes && m.currentEpoch <= s.nodes[m.from].currentEpoch
  }

  ghost predicate Inv(s: State, strict: bool) {
    && (forall id :: id in s.nodes ==> NodeOk(s.nodes[id], strict) && s.nodes[id].me == id)
    && (forall m :: m in s.sent ==> SentOk(s, m))
  }

  /** Slots are only added by ADDSLOTS to a master. */
  predicate Strict(s: State, step: Step) {
    step.Admin? && step.c.AddSlots? && step.at in s.nodes && s.nodes[step.at].me in s.nodes[step.at].table.nodes ==>
      s.nodes[step.at].table.nodes[s.nodes[step.at].me].master
  }

  lemma ActKeeps(n: Node, step: Step, strict: bool)
    requires NodeOk(n, strict)
    requires step.Deliver? ==> MsgOk(step.m) && step.m.from != n.me
    requires strict && step.Admin? && step.c.AddSlots? ==> n.table.nodes[n.me].master
    ensures Wf(n)
    ensures var (n', out) := Act(n, step); Follows(n, n', out, strict)
  {
    hide NodeOk, Receive, HandleFailover, Execute, MarkFailed, Compose, Broadcast, MsgOk;
    NodeOkWf(n, strict);
    match step
    case Deliver(m, tooSoon) => ReceiveKeeps(n, m, tooSoon, strict);
    case SendPing(_, to) => ComposeOk(n, to, Ping, strict); ComposeBody(n, to, Ping);
    case DeclareFail(_, about) => MarkFailedKeeps(n, about, strict); BroadcastOk(n, Fail(about), strict);
    case Failover(_, manual, force, clock, size) => HandleFailoverKeeps(n, manual, force, clock, size, strict);
    case Admin(_, c) => ExecuteKeeps(n, c, strict);
  }

  /** Each step keeps slots, roles and epochs in order on every node, and no current epoch falls. */
  lemma NextKeeps(s: State, step: Step, strict: bool)
    requires Inv(s, strict) && Enabled(s, step) && (strict ==> Strict(s, step))
    ensures Inv(Next(s, step), strict)
    ensures var s' := Next(s, step);
      s'.nodes.Keys == s.nodes.Keys && forall id :: id in s.nodes ==>
        s'.nodes[id].currentEpoch >= s.nodes[id].currentEpoch
  {
    hide NodeOk, Act, MsgOk, IsCount, IsWin;
    var n := s.nodes[At(step)];
    if step.Deliver? { assert SentOk(s, step.m); }
    ActKeeps(n, step, strict);
    var s' := Next(s, step);
    forall m | m in s'.sent
      ensures SentOk(s', m)
    {
      if m in s.sent { assert SentOk(s, m); }
    }
  }

  /** In every state of every run: slots and bitmaps agree, each current epoch bounds every config
      epoch in the node's table and in what it sent, and current epochs never fall. */
  lemma {:induction false} RunKeepsInv(ss: seq<State>, steps: seq<Step>, strict: bool, i: nat, k: nat)
    requires IsRun(ss, steps) && Initial(ss[0], strict) && i <= k < |ss|
    requires strict ==> forall j :: 0 <= j < |steps| ==> Strict(ss[j], steps[j])
    ensures Inv(ss[i], strict) && Inv(ss[k], strict)
    ensures ss[k].nodes.Keys == ss[i].nodes.Keys
    ensures forall id :: id in ss[i].nodes ==> ss[k].nodes[id].currentEpoch >= ss[i].nodes[id].currentEpoch
    decreases k
  {
    hide Next, Enabled, NodeOk;
    if k > 0 {
      RunKeepsInv(ss, steps, strict, if i < k then i else k - 1, k - 1);
      NextKeeps(ss[k - 1], steps[k - 1], strict);
    }
  }

  /** The assertion of clusterDelSlot holds in every reachable state, on every node and slot: the bit
      of the slot is set in the bitmap of its owner. */
  lemma DelSlotNeverAborts(ss: seq<State>, steps: seq<Step>, k: nat, id: Id, j: nat)
    requires IsRun(ss, steps) && Initial(ss[0], false) && k < |ss| && id in ss[k].nodes && j < SLOTS
    ensures var t := ss[k].nodes[id].table;
      && |t.owner| == SLOTS
      && (t.owner[j].Some? ==> t.owner[j].value in t.nodes && j in t.nodes[t.owner[j].value].slots)
  {
    hide IsRun, RolesOk, EpochsOk;
    RunKeepsInv(ss, steps, false, k, k);
  }

  /** The step ends in the failed assertion of clusterSetMaster. */
  predicate StepAborts(n: Node, step: Step)
    requires Wf(n)
  {
    (step.Deliver? && Aborts(n, step.m)) || (step.Admin? && CommandAborts(n, step.c))
  }

  /** The assertion of clusterSetMaster holds at every packet and command of a run in which slots are
      added to masters only. */
  lemma SetMasterNeverAborts(ss: seq<State>, steps: seq<Step>, k: nat)
    requires IsRun(ss, steps) && Initial(ss[0], true) && forall j :: 0 <= j < |steps| ==> Strict(ss[j], steps[j])
    requires k < |steps|
    ensures !StepAborts(ss[k].nodes[At(steps[k])], steps[k])
  {
    hide Next, NodeOk, Aborts;
    RunKeepsInv(ss, steps, true, k, k);
    var n := ss[k].nodes[At(steps[k])];
    NotStrict(n, true);
    NodeOkParts(n, true);
    if steps[k].Deliver? { AbortsExactly(n, steps[k].m); }
  }

  /** In every reachable state the assertion fails if and only if the packet leaves the node stranded,
      or the command makes a replica of a known master out of a replica that serves slots. */
  lemma SetMasterAbortsExactly(ss: seq<State>, steps: seq<Step>, k: nat)
    requires IsRun(ss, steps) && Initial(ss[0], false) && k < |steps|
    ensures var n, step := ss[k].nodes[At(steps[k])], steps[k];
      StepAborts(n, step) <==>
        || (step.Deliver? && StrandedBy(n, step.m))
        || (step.Admin? && step.c.Replicate? && !ReplicaEmpty(n)
            && step.c.id in n.table.nodes && step.c.id != n.me && n.table.nodes[step.c.id].master)
  {
    hide Next, NodeOk, Aborts, StrandedBy;
    RunKeepsInv(ss, steps, false, k, k);
    if steps[k].Deliver? { AbortsExactly(ss[k].nodes[At(steps[k])], steps[k].m); }
  }
}
