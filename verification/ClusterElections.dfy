/** At most one replica wins an election epoch. */
module ClusterElections {

  import opened ClusterSlots
  import opened ClusterNode
  import opened ClusterInvariants
  import opened ClusterRun
  import opened ClusterVotes

  /** The masters a node believes to serve slots: those with a vote. */
  function Voters(n: Node): set<Id> {
    set id | id in n.table.nodes && n.table.nodes[id].master && n.table.nodes[id].numslots > 0
  }

  /** electorate(e) is the set of voting masters of election epoch e, as every candidate of that epoch sees it
      when it counts a vote and when it compares its count with the quorum. */
  predicate SeenAlike(s: State, step: Step, electorate: nat -> set<Id>)
    requires Enabled(s, step)
  {
    var n := s.nodes[At(step)];
    && (IsCount(n, step) ==> Voters(n) == electorate(n.authEpoch))
    && (IsWin(n, step) ==> step.size == |electorate(n.authEpoch)|)
  }

  /** The winner's count exceeds the quorum by what its counter held when the election started: the
      condition, by RealVotes, for its real votes to be a majority. */
  predicate RealWin(s: State, step: Step)
    requires Enabled(s, step)
  {
    var n := s.nodes[At(step)];
    IsWin(n, step) ==> n.authCount >= step.size / 2 + 1 + Stray(s, At(step))
  }

  /** The counter of a running election is the number of distinct voters of its epoch that were
      counted, plus what it held at the start. */
  ghost predicate CountOk(s: State, c: Id)
    requires c in s.nodes
  {
    s.nodes[c].authSent ==> s.nodes[c].authCount == |CountedFor(s, c, s.nodes[c].authEpoch)| + Stray(s, c)
  }

  ghost predicate CountInv(s: State) {
    forall c :: c in s.nodes ==> CountOk(s, c)
  }

  /** A counted vote belongs to an election that has started, and its ACK has been delivered. */
  lemma CountedVote(s: State, c: Id, e: nat, v: Id)
    requires VoteInv(s) && c in s.nodes
    ensures v in CountedFor(s, c, e) ==>
      e <= s.nodes[c].authEpoch && forall m :: m in s.sent && m.body.Ack? && m.from == v && m.currentEpoch == e ==>
        m in s.consumed
  {
    if v in CountedFor(s, c, e) {
      assert Backed(s, c, e, v);
      var m :| m in s.consumed && m.body.Ack? && m.from == v && m.to == c && m.currentEpoch == e;
      assert AckOk(s, m);
    }
  }

  /** A candidate counts an ACK only for the epoch of its election, and each voter once. */
  lemma CountsNewVoter(s: State, step: Step)
    requires VoteInv(s) && Enabled(s, step) && IsCount(s.nodes[At(step)], step)
    ensures var c := At(step);
      step.m.currentEpoch == s.nodes[c].authEpoch && step.m.from !in CountedFor(s, c, s.nodes[c].authEpoch)
  {
    var c, m := At(step), step.m;
    assert AckOk(s, m);
    LearnKeepsElection(s.nodes[c], m);
    CountedVote(s, c, m.currentEpoch, m.from);
  }

  /** No vote exists yet for an election that starts. */
  lemma StartsFresh(s: State, c: Id, e: nat)
    requires VoteInv(s) && c in s.nodes && e > s.nodes[c].authEpoch
    ensures CountedFor(s, c, e) == {}
  {
    forall v
      ensures v !in CountedFor(s, c, e)
    {
      CountedVote(s, c, e, v);
    }
  }

  lemma CountStep(s: State, step: Step)
    requires Inv(s, false) && VoteInv(s) && CountInv(s) && Enabled(s, step) && step.Deliver? && step.m.body.Ack?
    ensures CountInv(Next(s, step))
  {
    hide NodeOk, VoteInv, IsCount, Receive;
    var c, s' := At(step), Next(s, step);
    AckActs(s.nodes[c], step.m, step.tooSoon, false) by { assert SentOk(s, step.m); }
    if IsCount(s.nodes[c], step) {
      CountsNewVoter(s, step);
    }
    forall x | x in s'.nodes
      ensures CountOk(s', x)
    {
      assert CountOk(s, x);
    }
  }

  lemma FailoverStep(s: State, step: Step)
    requires Inv(s, false) && VoteInv(s) && CountInv(s) && Enabled(s, step) && step.Failover?
    ensures CountInv(Next(s, step))
  {
    hide NodeOk, VoteInv, IsStart, IsWin, HandleFailover;
    var c, n, s' := At(step), s.nodes[At(step)], Next(s, step);
    NodeOkParts(n, false);
    FailoverActs(n, step, false);
    if IsStart(n, step) { StartsFresh(s, c, n.currentEpoch + 1); }
    assert CountOk(s, c);
    hide Act;
    forall x | x in s'.nodes
      ensures CountOk(s', x)
    {
      assert CountOk(s, x);
    }
  }

  lemma OtherStep(s: State, step: Step)
    requires Inv(s, false) && VoteInv(s) && CountInv(s) && Enabled(s, step) && !step.Failover?
    requires !(step.Deliver? && step.m.body.Ack?)
    ensures CountInv(Next(s, step))
  {
    hide NodeOk, VoteInv, Act;
    var c, n, s' := At(step), s.nodes[At(step)], Next(s, step);
    if step.Deliver? {
      assert SentOk(s, step.m);
      DeliverActs(n, step);
    } else {
      OtherActs(n, step);
    }
    forall x | x in s'.nodes
      ensures CountOk(s', x)
    {
      assert CountOk(s, x);
    }
  }

  lemma DeliverActs(n: Node, step: Step)
    requires NodeOk(n, false) && step.Deliver? && MsgOk(step.m) && step.m.from != n.me && !step.m.body.Ack?
    ensures Wf(n)
    ensures var n' := Act(n, step).0;
      n'.authCount == n.authCount && n'.authSent == n.authSent && n'.authEpoch == n.authEpoch
  {
    hide NodeOk, Receive;
    NodeOkWf(n, false);
    if step.m.body.Request? {
      VoteActs(n, step.m, step.tooSoon, false);
    } else {
      ReceiveActs(n, step.m, step.tooSoon, false);
    }
  }

  lemma NextKeepsCount(s: State, step: Step)
    requires Inv(s, false) && VoteInv(s) && CountInv(s) && Enabled(s, step)
    ensures CountInv(Next(s, step))
  {
    hide Inv, VoteInv, CountInv, Next;
    if step.Failover? { FailoverStep(s, step); }
    else if step.Deliver? && step.m.body.Ack? { CountStep(s, step); }
    else { OtherStep(s, step); }
  }

  // ---- winners ----

  ghost predicate MajorityOk(s: State, electorate: nat -> set<Id>, c: Id, e: nat) {
    |CountedFor(s, c, e)| >= |electorate(e)| / 2 + 1
  }

  ghost predicate WinInv(s: State, electorate: nat -> set<Id>) {
    && (forall c, e :: CountedFor(s, c, e) <= electorate(e))
    && (forall c, e :: (c, e) in s.wins ==> MajorityOk(s, electorate, c, e))
  }

  lemma NextKeepsVoters(s: State, step: Step, electorate: nat -> set<Id>)
    requires VoteInv(s) && WinInv(s, electorate) && Enabled(s, step) && SeenAlike(s, step, electorate)
    ensures forall c, e :: CountedFor(Next(s, step), c, e) <= electorate(e)
  {
    hide VoteInv, Act, IsWin, IsStart, IsCount;
    var n := s.nodes[At(step)];
    if IsCount(n, step) {
      CountsNewVoter(s, step);
      CountedIsVoter(n, step);
      assert step.m.from in electorate(step.m.currentEpoch);
    }
    forall c, e
      ensures CountedFor(Next(s, step), c, e) <= electorate(e)
    {
      assert CountedFor(s, c, e) <= electorate(e);
    }
  }

  lemma WinnerHasMajority(s: State, step: Step, electorate: nat -> set<Id>)
    requires CountInv(s) && Enabled(s, step) && SeenAlike(s, step, electorate)
    requires RealWin(s, step) && IsWin(s.nodes[At(step)], step)
    ensures MajorityOk(s, electorate, At(step), s.nodes[At(step)].authEpoch)
  {
    assert CountOk(s, At(step));
  }

  lemma NextKeepsWins(s: State, step: Step, electorate: nat -> set<Id>)
    requires Inv(s, false) && VoteInv(s) && CountInv(s) && WinInv(s, electorate) && Enabled(s, step)
    requires SeenAlike(s, step, electorate) && RealWin(s, step)
    ensures WinInv(Next(s, step), electorate)
  {
    hide Inv, VoteInv, CountInv, Act, IsCount, IsWin, IsStart, SeenAlike, RealWin, CountedFor;
    var n, s' := s.nodes[At(step)], Next(s, step);
    NextKeepsVoters(s, step, electorate);
    if IsWin(n, step) { WinnerHasMajority(s, step, electorate); }
    forall c, e | (c, e) in s'.wins
      ensures MajorityOk(s', electorate, c, e)
    {
      CountedGrows(s, step, c, e);
      assert MajorityOk(s, electorate, c, e);
    }
  }

  lemma CountedIsVoter(n: Node, step: Step)
    requires IsCount(n, step)
    ensures step.Deliver? && step.m.from in Voters(n)
  {
  }

  lemma CountedGrows(s: State, step: Step, c: Id, e: nat)
    requires Enabled(s, step)
    ensures |CountedFor(s, c, e)| <= |CountedFor(Next(s, step), c, e)|
  {
    hide Act, IsCount, IsWin, IsStart;
    var a, b := CountedFor(s, c, e), CountedFor(Next(s, step), c, e);
    assert a <= b;
    SubsetSize(a, b);
  }

  lemma {:induction false} SubsetSize(a: set<Id>, b: set<Id>)
    requires a <= b
    ensures |a| <= |b|
  {
    assert b == a + (b - a);
  }

  /** Two majorities of one set have a member in common. */
  lemma QuorumsMeet(a: set<Id>, b: set<Id>, v: set<Id>) returns (x: Id)
    requires a <= v && b <= v && |a| >= |v| / 2 + 1 && |b| >= |v| / 2 + 1
    ensures x in a && x in b
  {
    if a * b == {} {
      SubsetSize(a + b, v);
      assert false;
    }
    x :| x in a * b;
  }

  /** Votes and counters are in order in every state of every run. */
  lemma {:induction false} RunKeepsVotes(ss: seq<State>, steps: seq<Step>, k: nat)
    requires IsRun(ss, steps) && Initial(ss[0], false) && k < |ss|
    ensures Inv(ss[k], false) && VoteInv(ss[k]) && CountInv(ss[k])
  {
    hide Next, Enabled, NodeOk;
    if k > 0 {
      RunKeepsVotes(ss, steps, k - 1);
      var s, step := ss[k - 1], steps[k - 1];
      hide Inv, VoteInv, CountInv;
      NextKeeps(s, step, false);
      NextKeepsVotes(s, step);
      NextKeepsCount(s, step);
    }
  }

  /** Whatever happens, no node grants two votes in one epoch: two ACKs with the same sender and
      current epoch are one ACK. */
  lemma OneVotePerEpoch(ss: seq<State>, steps: seq<Step>, k: nat, m: Msg, m': Msg)
    requires IsRun(ss, steps) && Initial(ss[0], false) && k < |ss|
    requires m in ss[k].sent && m' in ss[k].sent && SameVote(m, m')
    ensures m == m'
  {
    hide IsRun, NodeOk, CountInv, Inv;
    RunKeepsVotes(ss, steps, k);
  }

  /** Whatever happens, a winner has this many real votes for its epoch: a majority exactly when its
      count exceeds the quorum by what the counter held at the start. */
  lemma RealVotes(ss: seq<State>, steps: seq<Step>, k: nat)
    requires IsRun(ss, steps) && Initial(ss[0], false) && k < |steps| && IsWin(ss[k].nodes[At(steps[k])], steps[k])
    ensures var c := At(steps[k]);
      var n := ss[k].nodes[c];
      && |CountedFor(ss[k], c, n.authEpoch)| == n.authCount - Stray(ss[k], c)
      && (|CountedFor(ss[k], c, n.authEpoch)| >= steps[k].size / 2 + 1 <==>
        n.authCount >= steps[k].size / 2 + 1 + Stray(ss[k], c))
  {
    hide NodeOk, VoteInv, Inv;
    RunKeepsVotes(ss, steps, k);
    assert CountOk(ss[k], At(steps[k]));
  }

  lemma {:induction false} RunKeepsWins(ss: seq<State>, steps: seq<Step>, electorate: nat -> set<Id>, k: nat)
    requires IsRun(ss, steps) && Initial(ss[0], false) && k < |ss|
    requires forall i :: 0 <= i < |steps| ==> SeenAlike(ss[i], steps[i], electorate) && RealWin(ss[i], steps[i])
    ensures WinInv(ss[k], electorate)
  {
    hide Next, Enabled, NodeOk, SeenAlike, RealWin;
    if k > 0 {
      RunKeepsWins(ss, steps, electorate, k - 1);
      RunKeepsVotes(ss, steps, k - 1);
      hide Inv, VoteInv, CountInv, WinInv;
      NextKeepsWins(ss[k - 1], steps[k - 1], electorate);
    }
  }

  /** If every winner's count exceeds the quorum by its stray votes, no two replicas win the same
      election epoch. */
  lemma OneWinnerPerEpoch(ss: seq<State>, steps: seq<Step>, electorate: nat -> set<Id>, k: nat, c: Id, d: Id, e: nat)
    requires IsRun(ss, steps) && Initial(ss[0], false) && k < |ss|
    requires forall i :: 0 <= i < |steps| ==> SeenAlike(ss[i], steps[i], electorate) && RealWin(ss[i], steps[i])
    requires (c, e) in ss[k].wins && (d, e) in ss[k].wins
    ensures c == d
  {
    hide IsRun, NodeOk, Inv, CountInv;
    RunKeepsVotes(ss, steps, k);
    RunKeepsWins(ss, steps, electorate, k);
    var s := ss[k];
    assert MajorityOk(s, electorate, c, e) && MajorityOk(s, electorate, d, e);
    var x := QuorumsMeet(CountedFor(s, c, e), CountedFor(s, d, e), electorate(e));
    OneCandidatePerVoter(s, x, e, c, d);
  }

  lemma OneCandidatePerVoter(s: State, x: Id, e: nat, c: Id, d: Id)
    requires VoteInv(s) && x in CountedFor(s, c, e) && x in CountedFor(s, d, e)
    ensures c == d
  {
    assert Backed(s, c, e, x) && Backed(s, d, e, x);
    var m :| m in s.consumed && m.body.Ack? && m.from == x && m.to == c && m.currentEpoch == e;
    var m' :| m' in s.consumed && m'.body.Ack? && m'.from == x && m'.to == d && m'.currentEpoch == e;
    assert m == m';
  }

  // ---- when counters are clean ----

  /** No ACK is counted between the reset of the counter and the start of the election. */
  predicate NoStrayAck(s: State, step: Step)
    requires Enabled(s, step)
  {
    IsCount(s.nodes[At(step)], step) ==> s.nodes[At(step)].authSent
  }

  /** The winner's counter was zero when it started the election it wins. */
  predicate CleanWin(s: State, step: Step)
    requires Enabled(s, step)
  {
    IsWin(s.nodes[At(step)], step) ==> Stray(s, At(step)) == 0
  }

  /** If winners started with a zero counter, no two replicas win the same election epoch. */
  lemma OneCleanWinnerPerEpoch(
      ss: seq<State>, steps: seq<Step>, electorate: nat -> set<Id>, k: nat, c: Id, d: Id, e: nat)
    requires IsRun(ss, steps) && Initial(ss[0], false) && k < |ss|
    requires forall i :: 0 <= i < |steps| ==> SeenAlike(ss[i], steps[i], electorate) && CleanWin(ss[i], steps[i])
    requires (c, e) in ss[k].wins && (d, e) in ss[k].wins
    ensures c == d
  {
    hide Next, NodeOk, SeenAlike, MayFailOver;
    forall i | 0 <= i < |steps|
      ensures RealWin(ss[i], steps[i])
    {
      assert CleanWin(ss[i], steps[i]);
    }
    OneWinnerPerEpoch(ss, steps, electorate, k, c, d, e);
  }

  ghost predicate CleanAt(s: State, c: Id)
    requires c in s.nodes
  {
    (s.nodes[c].authSent || s.nodes[c].authCount == 0) && Stray(s, c) == 0
  }

  ghost predicate CleanInv(s: State) {
    forall c :: c in s.nodes ==> CleanAt(s, c)
  }

  lemma NextKeepsClean(s: State, step: Step)
    requires Inv(s, false) && CleanInv(s) && Enabled(s, step) && NoStrayAck(s, step)
    ensures CleanInv(Next(s, step))
  {
    hide NodeOk, Starts, IsCount, IsWin, Receive, HandleFailover, Execute, MarkFailed;
    var c, n, s' := At(step), s.nodes[At(step)], Next(s, step);
    if step.Failover? {
      FailoverActs(n, step, false);
    } else if step.Deliver? {
      assert SentOk(s, step.m);
      if step.m.body.Ack? { AckActs(n, step.m, step.tooSoon, false); } else { DeliverActs(n, step); }
    } else {
      OtherActs(n, step);
    }
    assert CleanAt(s, c);
    hide Act;
    forall x | x in s'.nodes
      ensures CleanAt(s', x)
    {
      assert CleanAt(s, x);
    }
  }

  /** If no ACK is counted while no election runs, every win is clean. */
  lemma {:induction false} NoStrayAckMakesCleanWins(ss: seq<State>, steps: seq<Step>, k: nat)
    requires IsRun(ss, steps) && Initial(ss[0], false) && k < |steps|
    requires forall i :: 0 <= i < |steps| ==> NoStrayAck(ss[i], steps[i])
    ensures CleanInv(ss[k]) && CleanWin(ss[k], steps[k])
  {
    hide Next, NodeOk, NoStrayAck, IsWin;
    if k > 0 {
      NoStrayAckMakesCleanWins(ss, steps, k - 1);
      RunKeepsVotes(ss, steps, k - 1);
      hide Inv, VoteInv, CountInv;
      NextKeepsClean(ss[k - 1], steps[k - 1]);
    }
    assert At(steps[k]) in ss[k].nodes;
  }

  /** If no ACK is counted between the reset of a counter and the start of the election, no two replicas
      win the same election epoch. */
  lemma OneWinnerWithoutStrayAcks(
      ss: seq<State>, steps: seq<Step>, electorate: nat -> set<Id>, k: nat, c: Id, d: Id, e: nat)
    requires IsRun(ss, steps) && Initial(ss[0], false) && k < |ss|
    requires forall i :: 0 <= i < |steps| ==> SeenAlike(ss[i], steps[i], electorate) && NoStrayAck(ss[i], steps[i])
    requires (c, e) in ss[k].wins && (d, e) in ss[k].wins
    ensures c == d
  {
    hide Next, NodeOk, SeenAlike, NoStrayAck, CleanWin;
    forall i | 0 <= i < |steps|
      ensures CleanWin(ss[i], steps[i])
    {
      NoStrayAckMakesCleanWins(ss, steps, i);
    }
    OneCleanWinnerPerEpoch(ss, steps, electorate, k, c, d, e);
  }
}
