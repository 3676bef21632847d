/** Two winners of one election epoch. Replica 4 resets its counter, then counts a late ACK of its
    previous election, and wins epoch 2 with one real vote while replica 5 wins it with two. */
module ClusterSplitVote {

  import opened Wrappers
  import opened ClusterSlots
  import opened ClusterNode
  import opened ClusterInvariants
  import opened ClusterRun
  import opened ClusterElections

  function MasterInfo(j: nat): Info {
    Info(0, true, None, false, {j}, 1)
  }

  function ReplicaInfo(): Info {
    Info(0, false, Some(3), false, {}, 0)
  }

  /** Masters 1, 2 and 3 serve slots 0, 1 and 2; nodes 4 and 5 are replicas of 3. */
  function Everyone(): map<Id, Info> {
    map[1 := MasterInfo(0), 2 := MasterInfo(1), 3 := MasterInfo(2), 4 := ReplicaInfo(), 5 := ReplicaInfo()]
  }

  function Plan(): Table {
    Table(Everyone(), seq(SLOTS, i requires 0 <= i < SLOTS => if i < 3 then Some(i + 1) else None), map[])
  }

  lemma PlanOk()
    ensures SlotsOk(Plan()) && Bounded(Plan().nodes, 0) && Closed(Plan().nodes)
  {
    var t := Plan();
    forall id | id in t.nodes
      ensures BitsOk(t, id) && t.nodes[id].numslots == |t.nodes[id].slots|
    {
      PlanBits(id);
    }
  }

  lemma PlanBits(id: Id)
    requires id in Everyone()
    ensures BitsOk(Plan(), id) && Everyone()[id].numslots == |Everyone()[id].slots|
  {
    if id <= 3 {
      assert Everyone()[id] == MasterInfo(id - 1);
    } else {
      assert Everyone()[id] == ReplicaInfo();
    }
  }

  function Voter(v: Id, epoch: nat, voted: nat): Node {
    Node(v, epoch, voted, Plan(), 0, false, 0)
  }

  function Candidate(c: Id, epoch: nat, count: nat, sent: bool, auth: nat): Node {
    Node(c, epoch, 0, Plan(), count, sent, auth)
  }

  function Ask(c: Id, to: Id, e: nat): Msg {
    Msg(c, to, e, 0, {2}, Some(3), Request(true))
  }

  function Yes(v: Id, c: Id, e: nat): Msg
    requires v > 0
  {
    Msg(v, c, e, 0, {v - 1}, None, Ack)
  }

  function All(): nat -> set<Id> {
    _ => {1, 2, 3}
  }

  lemma VotersAreAll(n: Node)
    requires n.table == Plan()
    ensures Voters(n) == {1, 2, 3}
  {
  }

  predicate IsReplica(c: Id) {
    c == 4 || c == 5
  }

  predicate IsVoter(v: Id) {
    v == 1 || v == 2 || v == 3
  }

  function Go(c: Id, clock: Clock): Step {
    Failover(c, true, true, clock, 3)
  }

  // ---- what the steps do ----

  lemma NodesWf(n: Node)
    requires n.table == Plan() && 1 <= n.me <= 5
    ensures Wf(n)
  {
  }

  lemma CandidateStarts(c: Id, epoch: nat, count: nat, auth: nat, to: Id)
    requires IsReplica(c) && 1 <= to <= 5 && to != c
    ensures Wf(Candidate(c, epoch, count, false, auth))
    ensures var (n', out) := Act(Candidate(c, epoch, count, false, auth), Go(c, Due));
      n' == Candidate(c, epoch + 1, count, true, epoch + 1) && Ask(c, to, epoch + 1) in out
  {
    var n := Candidate(c, epoch, count, false, auth);
    NodesWf(n);
    assert n.table.nodes[3].numslots == 1;
    var m := Compose(Start(n), to, Request(true));
    assert m == Ask(c, to, epoch + 1);
    assert m in Broadcast(Start(n), Request(true));
  }

  lemma CandidateResets(c: Id, epoch: nat, count: nat, sent: bool, auth: nat)
    requires IsReplica(c)
    ensures Wf(Candidate(c, epoch, count, sent, auth))
    ensures Act(Candidate(c, epoch, count, sent, auth), Go(c, Retry)) == (Candidate(c, epoch, 0, false, auth), {})
  {
  }

  lemma LearnsNothing(n: Node, m: Msg)
    requires n.table == Plan() && m.from in Plan().nodes && m.configEpoch == 0
    ensures LearnEpochs(n, m) == n.(currentEpoch := Max(n.currentEpoch, m.currentEpoch))
  {
    assert Everyone()[m.from := Everyone()[m.from]] == Everyone();
  }

  lemma VoterGrants(v: Id, epoch: nat, voted: nat, c: Id, e: nat)
    requires IsVoter(v) && IsReplica(c) && epoch <= e && voted < e
    ensures Wf(Voter(v, epoch, voted))
    ensures Act(Voter(v, epoch, voted), Deliver(Ask(c, v, e), false)) == (Voter(v, e, e), {Yes(v, c, e)})
  {
    var n, m := Voter(v, epoch, voted), Ask(c, v, e);
    LearnsNothing(n, m);
    var l := LearnEpochs(n, m);
    assert Grants(l, m, true, false);
    assert Compose(Voter(v, e, e), c, Ack) == Yes(v, c, e);
  }

  lemma ReplicaHears(e: nat)
    ensures Wf(Candidate(5, 0, 0, false, 0))
    ensures Act(Candidate(5, 0, 0, false, 0), Deliver(Ask(4, 5, e), false)) == (Candidate(5, e, 0, false, 0), {})
  {
    LearnsNothing(Candidate(5, 0, 0, false, 0), Ask(4, 5, e));
  }

  lemma CandidateCounts(c: Id, epoch: nat, count: nat, sent: bool, auth: nat, v: Id, e: nat)
    requires IsReplica(c) && IsVoter(v) && auth <= e <= epoch
    ensures Wf(Candidate(c, epoch, count, sent, auth))
    ensures var step := Deliver(Yes(v, c, e), false);
      && Act(Candidate(c, epoch, count, sent, auth), step) == (Candidate(c, epoch, count + 1, sent, auth), {})
      && IsCount(Candidate(c, epoch, count, sent, auth), step)
  {
    LearnsNothing(Candidate(c, epoch, count, sent, auth), Yes(v, c, e));
  }

  lemma CandidateWins(c: Id, epoch: nat)
    requires IsReplica(c)
    ensures Wf(Candidate(c, epoch, 2, true, epoch)) && IsWin(Candidate(c, epoch, 2, true, epoch), Go(c, Due))
  {
    assert Plan().nodes[3].numslots == 1;
  }

  // ---- the run ----

  ghost predicate RunTo(ss: seq<State>, steps: seq<Step>, s: State) {
    && IsRun(ss, steps) && Initial(ss[0], true) && ss[|steps|] == s
    && forall i :: 0 <= i < |steps| ==> SeenAlike(ss[i], steps[i], All())
  }

  /** A state of a run in which all candidates see the same three voting masters. */
  ghost predicate Reachable(s: State) {
    exists ss, steps :: RunTo(ss, steps, s)
  }

  lemma Extend(s: State, step: Step)
    requires Reachable(s) && Enabled(s, step) && SeenAlike(s, step, All())
    ensures Reachable(Next(s, step))
  {
    hide Next, Enabled, SeenAlike, Initial;
    var ss, steps :| RunTo(ss, steps, s);
    var ss', steps' := ss + [Next(s, step)], steps + [step];
    forall i | 0 <= i < |steps'|
      ensures Enabled(ss'[i], steps'[i]) && ss'[i + 1] == Next(ss'[i], steps'[i]) && SeenAlike(ss'[i], steps'[i], All())
    {
      if i < |steps| { assert ss'[i] == ss[i] && ss'[i + 1] == ss[i + 1]; } else { assert ss'[i] == s; }
    }
    assert RunTo(ss', steps', Next(s, step));
  }

  /** A reachable state in which these nodes are in the states given. */
  ghost predicate View(s: State, a: Node, b: Node, c: Node, d: Node, e: Node) {
    Reachable(s) && s.nodes == map[1 := a, 2 := b, 3 := c, 4 := d, 5 := e] && s.nodes.Keys == {1, 2, 3, 4, 5}
  }

  function Start0(): State {
    State(map[1 := Voter(1, 0, 0), 2 := Voter(2, 0, 0), 3 := Voter(3, 0, 0),
              4 := Candidate(4, 0, 0, false, 0), 5 := Candidate(5, 0, 0, false, 0)], {}, {}, map[], map[], {})
  }

  lemma FreshOk(n: Node)
    requires n == Voter(1, 0, 0) || n == Voter(2, 0, 0) || n == Voter(3, 0, 0) || n == Candidate(4, 0, 0, false, 0)
      || n == Candidate(5, 0, 0, false, 0)
    ensures NodeOk(n, true)
  {
    PlanOk();
    PlanMembers();
    hide SlotsOk, Plan;
  }

  lemma StartReachable()
    ensures View(Start0(), Voter(1, 0, 0), Voter(2, 0, 0), Voter(3, 0, 0), Candidate(4, 0, 0, false, 0),
      Candidate(5, 0, 0, false, 0))
  {
    hide NodeOk, Plan;
    var s := Start0();
    forall id | id in s.nodes
      ensures NodeOk(s.nodes[id], true)
    {
      FreshOk(s.nodes[id]);
    }
    var ss: seq<State>, steps: seq<Step> := [s], [];
    assert RunTo(ss, steps, s);
  }

  lemma PlanMembers()
    ensures forall id :: 1 <= id <= 5 ==> id in Plan().nodes
    ensures forall id :: 1 <= id <= 3 ==>
      id in Plan().nodes && Plan().nodes[id].master && Plan().nodes[id].slaveof == None
    ensures forall id :: 4 <= id <= 5 ==> id in Plan().nodes && Plan().nodes[id] == ReplicaInfo()
  {
  }

  /** A step of a candidate or voter that is not a win. */
  lemma Advance(s: State, step: Step, n': Node, out: set<Msg>) returns (s': State)
    requires Reachable(s) && Enabled(s, step) && s.nodes[At(step)].table == Plan()
    requires Act(s.nodes[At(step)], step) == (n', out) && !IsWin(s.nodes[At(step)], step)
    ensures Reachable(s') && s'.nodes == s.nodes[At(step) := n'] && s'.sent == s.sent + out && s'.wins == s.wins
    ensures s'.consumed == if step.Deliver? && step.m.body.Ack? then s.consumed + {step.m} else s.consumed
  {
    hide Act, IsCount, IsStart, IsWin, Reachable;
    VotersAreAll(s.nodes[At(step)]);
    Extend(s, step);
    s' := Next(s, step);
  }

  ghost predicate Asked(s: State, c: Id, e: nat) {
    forall to :: 1 <= to <= 5 && to != c ==> Ask(c, to, e) in s.sent
  }

  lemma Begin(s: State, c: Id, epoch: nat, count: nat, auth: nat) returns (s': State)
    requires Reachable(s) && IsReplica(c) && c in s.nodes && s.nodes[c] == Candidate(c, epoch, count, false, auth)
    ensures Reachable(s') && s'.nodes == s.nodes[c := Candidate(c, epoch + 1, count, true, epoch + 1)]
    ensures s.sent <= s'.sent && s'.consumed == s.consumed && s'.wins == s.wins
    ensures Asked(s', c, epoch + 1)
  {
    hide Act, Reachable, Plan, IsWin;
    NodesWf(s.nodes[c]);
    NotSentNoWin(s.nodes[c], Go(c, Due));
    var (n', out) := Act(s.nodes[c], Go(c, Due));
    CandidateStarts(c, epoch, count, auth, if c == 4 then 5 else 4);
    s' := Advance(s, Go(c, Due), n', out);
    var e := epoch + 1;
    forall to | 1 <= to <= 5 && to != c
      ensures Ask(c, to, e) in s'.sent
    {
      CandidateStarts(c, epoch, count, auth, to);
    }
  }

  lemma NotSentNoWin(n: Node, step: Step)
    requires Wf(n) && (!step.Failover? || !n.authSent || step.clock != Due)
    ensures !IsWin(n, step)
  {
  }

  lemma Grant(s: State, v: Id, epoch: nat, voted: nat, c: Id, e: nat) returns (s': State)
    requires Reachable(s) && IsVoter(v) && IsReplica(c) && epoch <= e && voted < e
    requires v in s.nodes && s.nodes[v] == Voter(v, epoch, voted) && Ask(c, v, e) in s.sent
    ensures Reachable(s') && s'.nodes == s.nodes[v := Voter(v, e, e)] && s'.consumed == s.consumed && s'.wins == s.wins
    ensures s.sent <= s'.sent && Yes(v, c, e) in s'.sent
  {
    hide Act, Reachable, Plan, IsWin;
    VoterGrants(v, epoch, voted, c, e);
    NotSentNoWin(s.nodes[v], Deliver(Ask(c, v, e), false));
    s' := Advance(s, Deliver(Ask(c, v, e), false), Voter(v, e, e), {Yes(v, c, e)});
  }

  lemma Count(s: State, c: Id, epoch: nat, count: nat, sent: bool, auth: nat, v: Id, e: nat) returns (s': State)
    requires Reachable(s) && IsReplica(c) && IsVoter(v) && auth <= e <= epoch
    requires c in s.nodes && s.nodes[c] == Candidate(c, epoch, count, sent, auth) && Yes(v, c, e) in s.sent
    requires Yes(v, c, e) !in s.consumed
    ensures Reachable(s') && s'.nodes == s.nodes[c := Candidate(c, epoch, count + 1, sent, auth)]
    ensures s'.consumed == s.consumed + {Yes(v, c, e)} && s'.sent == s.sent && s'.wins == s.wins
  {
    hide Act, Reachable, Plan, IsWin;
    CandidateCounts(c, epoch, count, sent, auth, v, e);
    NotSentNoWin(s.nodes[c], Deliver(Yes(v, c, e), false));
    s' := Advance(s, Deliver(Yes(v, c, e), false), Candidate(c, epoch, count + 1, sent, auth), {});
    assert s'.sent == s.sent;
  }

  /** Replica 4 has won epoch 1's late vote and is a candidate for epoch 2. */
  lemma FirstPart() returns (s: State)
    ensures View(s, Voter(1, 1, 1), Voter(2, 0, 0), Voter(3, 0, 0), Candidate(4, 1, 1, false, 1),
      Candidate(5, 1, 0, false, 0))
    ensures s.consumed == {Yes(1, 4, 1)} && s.wins == {}
  {
    hide Act, Reachable, Plan, IsWin;
    StartReachable();
    var s1 := Begin(Start0(), 4, 0, 0, 0);
    var s2 := Grant(s1, 1, 0, 0, 4, 1);
    ReplicaHears(1);
    NotSentNoWin(s2.nodes[5], Deliver(Ask(4, 5, 1), false));
    var s3 := Advance(s2, Deliver(Ask(4, 5, 1), false), Candidate(5, 1, 0, false, 0), {});
    CandidateResets(4, 1, 0, true, 1);
    NotSentNoWin(s3.nodes[4], Go(4, Retry));
    var s4 := Advance(s3, Go(4, Retry), Candidate(4, 1, 0, false, 1), {});
    s := Count(s4, 4, 1, 0, false, 1, 1, 1);
  }

  lemma SecondPart() returns (s: State)
    ensures View(s, Voter(1, 1, 1), Voter(2, 2, 2), Voter(3, 0, 0), Candidate(4, 2, 2, true, 2),
      Candidate(5, 2, 0, true, 2))
    ensures s.consumed == {Yes(1, 4, 1), Yes(2, 4, 2)} && s.wins == {}
    ensures Ask(5, 1, 2) in s.sent && Ask(5, 3, 2) in s.sent
  {
    hide Act, Reachable, Plan, IsWin;
    var s0 := FirstPart();
    var s1 := Begin(s0, 4, 1, 1, 1);
    var s2 := Grant(s1, 2, 0, 0, 4, 2);
    var s3 := Count(s2, 4, 2, 1, true, 2, 2, 2);
    s := Begin(s3, 5, 1, 0, 0);
  }

  lemma ThirdPart() returns (s: State)
    ensures Reachable(s) && 4 in s.nodes && 5 in s.nodes && s.wins == {}
    ensures s.nodes[4] == Candidate(4, 2, 2, true, 2) && s.nodes[5] == Candidate(5, 2, 2, true, 2)
  {
    hide Act, Reachable, Plan, IsWin;
    var s0 := SecondPart();
    var s1 := Grant(s0, 1, 1, 1, 5, 2);
    var s2 := Grant(s1, 3, 0, 0, 5, 2);
    var s3 := Count(s2, 5, 2, 0, true, 2, 1, 2);
    s := Count(s3, 5, 2, 1, true, 2, 3, 2);
  }

  /** The property fails without the hypothesis on the counter: replicas 4 and 5 both win epoch 2. */
  lemma TwoWinners() returns (s: State)
    ensures Reachable(s) && (4, 2) in s.wins && (5, 2) in s.wins
  {
    hide Act, Reachable, Plan, MayFailOver;
    var s0 := ThirdPart();
    CandidateWins(4, 2);
    CandidateWins(5, 2);
    Extend(s0, Go(4, Due));
    var s1 := Next(s0, Go(4, Due));
    Extend(s1, Go(5, Due));
    s := Next(s1, Go(5, Due));
  }

  // ---- ADDSLOTS on a replica ----

  /** Replica 4 after ADDSLOTS of the free slot 5. */
  function ServingReplica(): Node {
    var n := Candidate(4, 0, 0, false, 0);
    n.(table := AddSlot(NoImport(n.table, 5), 4, 5).0)
  }

  /** Master 1 while it imports slot 2 from 3, and after it took the slot with a new epoch. */
  function Importer(): Node {
    var n := Voter(1, 0, 0);
    n.(table := n.table.(importing := map[2 := 3]))
  }

  function Taker(): Node {
    var t := Plan();
    var nodes := t.nodes[1 := Info(1, true, None, false, {0, 2}, 2)][3 := Info(0, true, None, false, {}, 0)];
    Node(1, 1, 0, Table(nodes, t.owner[2 := Some(1)], map[]), 0, false, 0)
  }

  /** The PING by which master 1 claims slot 2. */
  function Claim(): Msg {
    Msg(1, 4, 1, 1, {0, 2}, None, Ping)
  }

  /** A run in which replica 4 is given slot 5 by ADDSLOTS, and master 1 takes over the only slot of
      the replica's master: the PING of 1 makes 4 abort, and so would REPLICATE. */
  lemma AddSlotsOnReplica() returns (s: State)
    ensures Reachable(s) && Enabled(s, Deliver(Claim(), false)) && s.nodes[4] == ServingReplica()
    ensures !ReplicaEmpty(s.nodes[4])
    ensures StepAborts(s.nodes[4], Deliver(Claim(), false)) && StepAborts(s.nodes[4], Admin(4, Replicate(1)))
  {
    hide Execute, Compose, Receive, HandleFailover, Reachable, Plan, ServingReplica, IsWin, Aborts, Next, SeenAlike;
    StartReachable();
    ServingFacts();
    TakerFacts();
    var s1 := Order(Start0(), Admin(4, AddSlots(5)), ServingReplica(), {});
    var s2 := Order(s1, Admin(1, Importing(2, 3)), Importer(), {});
    var s3 := Order(s2, Admin(1, SetSlotNode(2, 1)), Taker(), {});
    s := Order(s3, SendPing(1, 4), Taker(), {Claim()});
    ServingAborts();
  }

  /** A step that has nothing to do with elections. */
  lemma Order(s: State, step: Step, n': Node, out: set<Msg>) returns (s': State)
    requires Reachable(s) && Enabled(s, step) && (step.Admin? || step.SendPing?)
    requires Act(s.nodes[At(step)], step) == (n', out)
    ensures Reachable(s') && s'.nodes == s.nodes[At(step) := n'] && s'.sent == s.sent + out
  {
    hide Act, Reachable;
    Extend(s, step);
    s' := Next(s, step);
  }

  lemma ServingFacts()
    ensures var n := Candidate(4, 0, 0, false, 0);
      && Wf(n) && Execute(n, AddSlots(5)) == ServingReplica()
      && Wf(ServingReplica()) && ServingReplica().table.nodes[4] == ReplicaInfo().(slots := {5}, numslots := 1)
      && ServingReplica().table.nodes.Keys == {1, 2, 3, 4, 5} && ServingReplica().table.nodes[3] == MasterInfo(2)
      && ServingReplica().table.owner == Plan().owner[5 := Some(4)] && ServingReplica().table.importing == map[]
  {
    assert {} + {5} == {5};
  }

  lemma TakerFacts()
    ensures Wf(Voter(1, 0, 0)) && Execute(Voter(1, 0, 0), Importing(2, 3)) == Importer()
    ensures Wf(Importer()) && Execute(Importer(), SetSlotNode(2, 1)) == Taker()
    ensures Wf(Taker()) && Compose(Taker(), 4, Ping) == Claim()
  {
    var b := Bump(Importer());
    var t := NoImport(b.table, 2);
    assert !HasGreatestEpoch(Importer());
    assert t == Table(Everyone()[1 := Info(1, true, None, false, {0}, 1)], Plan().owner, map[]);
    assert {2} - {2} == {} && {0} + {2} == {0, 2};
    var d := DelSlot(t, 2).0;
    assert d.nodes == t.nodes[3 := Info(0, true, None, false, {}, 0)];
    assert AddSlot(d, 1, 2).0.nodes == Taker().table.nodes;
  }

  lemma ServingOk()
    ensures NodeOk(ServingReplica(), false)
  {
    var n := Candidate(4, 0, 0, false, 0);
    FreshOk(n);
    ServingFacts();
    hide NodeOk, Plan, Execute;
    NotStrict(n, true);
    ExecuteKeeps(n, AddSlots(5), false);
  }

  lemma ServingAborts()
    ensures Wf(ServingReplica()) && Aborts(ServingReplica(), Claim()) && !ReplicaEmpty(ServingReplica())
    ensures CommandAborts(ServingReplica(), Replicate(1))
  {
    ServingFacts();
    hide ServingReplica, SlotsOk, Aborts, NodeOk, StrandedBy;
    ServingOk();
    AbortsExactly(ServingReplica(), Claim());
    LastSlotTaken(ServingReplica());
  }

  /** A replica of 3 that serves slot 5, when master 1 claims the only slot of 3 at a greater epoch. */
  lemma LastSlotTaken(n: Node)
    requires Wf(n) && n.me == 4 && n.table.nodes.Keys == {1, 2, 3, 4, 5} && n.table.importing == map[]
    requires !n.table.nodes[4].master && n.table.nodes[4].slaveof == Some(3) && n.table.nodes[3].configEpoch == 0
    requires n.table.owner[2] == Some(3) && n.table.owner[5] == Some(4)
    requires forall k :: 0 <= k < SLOTS && n.table.owner[k] == Some(3) ==> k == 2
    ensures StrandedBy(n, Claim())
  {
    var l := LearnEpochs(n, Claim());
    assert l.table.owner == n.table.owner && Rebinds(l.table, 1, 1, {0, 2}, 2) && !Rebinds(l.table, 1, 1, {0, 2}, 5);
  }
}
