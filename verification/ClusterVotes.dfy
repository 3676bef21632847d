/** Elections: a node votes at most once per epoch, and an epoch has at most one winner. */
module ClusterVotes {

  import opened ClusterSlots
  import opened ClusterNode
  import opened ClusterInvariants
  import opened ClusterRun

  // ---- what a step does to the election fields ----

  /** The step neither votes, counts, resets nor starts an election. */
  ghost predicate Quiet(n: Node, n': Node, out: set<Msg>) {
    SameElection(n, n') && forall m :: m in out ==> !m.body.Ack? && !m.body.Request?
  }

  /** A vote: once for the current epoch, which is the epoch of the request. */
  ghost predicate Votes(n: Node, n': Node, out: set<Msg>, m: Msg) {
    && n'.authCount == n.authCount && n'.authSent == n.authSent && n'.authEpoch == n.authEpoch
    && n.lastVoteEpoch < n'.lastVoteEpoch == m.currentEpoch
    && m.body.Request?
    && exists a :: out == {a} && a.body.Ack? && a.from == n.me && a.to == m.from && a.currentEpoch == m.currentEpoch
  }

  ghost predicate Begins(n: Node, n': Node, out: set<Msg>) {
    && n'.lastVoteEpoch == n.lastVoteEpoch && n'.authCount == n.authCount && n'.authSent && !n.authSent
    && n'.authEpoch == n.currentEpoch + 1
    && forall m :: m in out ==> m.body.Request? && m.from == n.me && m.currentEpoch == n'.authEpoch
  }

  ghost predicate Resets(n: Node, n': Node, out: set<Msg>) {
    n' == n.(authCount := 0, authSent := false) && out == {}
  }

  lemma LearnKeepsElection(n: Node, m: Msg)
    requires m.from in n.table.nodes
    ensures SameElection(n, LearnEpochs(n, m)) && LearnEpochs(n, m).me == n.me
    ensures LearnEpochs(n, m).currentEpoch == Max(n.currentEpoch, m.currentEpoch)
  {
  }

  lemma VoteActs(n: Node, m: Msg, tooSoon: bool, strict: bool)
    requires NodeOk(n, strict) && MsgOk(m) && m.from != n.me && m.body.Request?
    ensures Wf(n)
    ensures var (n', out) := Receive(n, m, tooSoon); Quiet(n, n', out) || Votes(n, n', out, m)
  {
    hide NodeOk, LearnEpochs, Grants, Compose;
    NodeOkWf(n, strict);
    if m.from in n.table.nodes {
      LearnEpochsKeeps(n, m, strict);
      LearnKeepsElection(n, m);
      LearnEpochsNodes(n, m);
      var l := LearnEpochs(n, m);
      NodeOkWf(l, strict);
      GrantsAtRequest(l, m, m.body.force, tooSoon, strict);
      var v := l.(lastVoteEpoch := l.currentEpoch);
      ComposeBody(v, m.from, Ack);
      var (n', out) := Receive(n, m, tooSoon);
      if Grants(l, m, m.body.force, tooSoon) {
        var a := Compose(v, m.from, Ack);
        assert out == {a} && a.body.Ack? && a.from == n.me && a.to == m.from && a.currentEpoch == m.currentEpoch;
      }
    }
  }

  /** What the voter knows before the request: it is a master that serves slots and has not voted in
      the epoch of the request, which is not an old one; the sender is a replica whose master failed
      (or the request is forced), and claims no slot that is served at a greater epoch. */
  predicate Deserves(n: Node, m: Msg, tooSoon: bool)
    requires Wf(n) && m.body.Request?
  {
    var nodes := n.table.nodes;
    && m.from in nodes && nodes[n.me].master && nodes[n.me].slots != {} && !tooSoon
    && n.lastVoteEpoch < m.currentEpoch && n.currentEpoch <= m.currentEpoch
    && !nodes[m.from].master && nodes[m.from].slaveof.Some? && nodes[m.from].slaveof.value in nodes
    && (nodes[nodes[m.from].slaveof.value].failed || m.body.force)
    && forall j :: 0 <= j < SLOTS && j in m.slots ==> !OwnedAbove(n.table, j, m.configEpoch)
  }

  lemma SameOwnedAbove(n: Node, m: Msg)
    requires Wf(n) && m.from in n.table.nodes
    ensures var l := LearnEpochs(n, m);
      forall j :: 0 <= j < SLOTS ==>
        (OwnedAbove(l.table, j, m.configEpoch) <==> OwnedAbove(n.table, j, m.configEpoch))
  {
  }

  /** A request is answered by a vote if and only if the sender deserves it. */
  lemma VoteIsDeserved(n: Node, m: Msg, tooSoon: bool, strict: bool)
    requires NodeOk(n, strict) && MsgOk(m) && m.from != n.me && m.body.Request?
    ensures Wf(n)
    ensures Receive(n, m, tooSoon).1 != {} <==> Deserves(n, m, tooSoon)
  {
    hide Compose, OwnedAbove, SlotsOk;
    NodeOkWf(n, strict);
    if m.from in n.table.nodes {
      SameOwnedAbove(n, m);
      assert n.table.nodes[n.me].numslots == |n.table.nodes[n.me].slots| by { CountOfSlots(n.table, n.me); }
    }
  }

  lemma CountOfSlots(t: Table, id: Id)
    requires SlotsOk(t) && id in t.nodes
    ensures t.nodes[id].numslots == |t.nodes[id].slots|
  {
  }

  lemma GrantsAtRequest(l: Node, m: Msg, force: bool, tooSoon: bool, strict: bool)
    requires NodeOk(l, strict) && m.from in l.table.nodes && Wf(l)
    ensures Grants(l, m, force, tooSoon) ==> m.currentEpoch >= l.currentEpoch && l.lastVoteEpoch < l.currentEpoch
  {
  }

  lemma ReceiveActs(n: Node, m: Msg, tooSoon: bool, strict: bool)
    requires NodeOk(n, strict) && MsgOk(m) && m.from != n.me && !m.body.Request? && !m.body.Ack?
    ensures Wf(n)
    ensures var (n', out) := Receive(n, m, tooSoon); Quiet(n, n', out)
  {
    hide NodeOk, LearnEpochs, HandlePing, MarkFailed, HandleUpdate;
    NodeOkWf(n, strict);
    if m.from in n.table.nodes {
      LearnEpochsKeeps(n, m, strict);
      LearnKeepsElection(n, m);
      LearnEpochsNodes(n, m);
      var l := LearnEpochs(n, m);
      match m.body
      case Ping => HandlePingKeeps(l, m, strict);
      case Fail(about) => MarkFailedKeeps(l, about, strict);
      case Update(id, epoch, claims) => HandleUpdateKeeps(l, id, epoch, claims, strict);
    }
  }

  /** An ACK changes the count only, and only if it is counted. */
  lemma AckActs(n: Node, m: Msg, tooSoon: bool, strict: bool)
    requires NodeOk(n, strict) && MsgOk(m) && m.body.Ack?
    ensures Wf(n)
    ensures var (n', out) := Receive(n, m, tooSoon);
      out == {} && SameElection(n, n'.(authCount := n.authCount))
      && n'.authCount == if IsCount(n, Deliver(m, tooSoon)) then n.authCount + 1 else n.authCount
  {
    hide NodeOk, LearnEpochs, Counts;
    NodeOkWf(n, strict);
    if m.from in n.table.nodes { LearnKeepsElection(n, m); }
  }

  lemma FailoverActs(n: Node, step: Step, strict: bool)
    requires NodeOk(n, strict) && step.Failover?
    ensures Wf(n)
    ensures var (n', out) := Act(n, step);
      if IsStart(n, step) then Begins(n, n', out) else Quiet(n, n', out) || Resets(n, n', out)
  {
    hide NodeOk, MayFailOver, Win, Broadcast;
    NodeOkWf(n, strict);
    StartKeeps(n, strict);
    BroadcastOk(Start(n), Request(step.force), strict);
    WinKeeps(n, strict);
  }

  lemma OtherActs(n: Node, step: Step)
    requires NodeOk(n, false) && (step.SendPing? || step.DeclareFail? || step.Admin?)
    ensures Wf(n)
    ensures var (n', out) := Act(n, step); Quiet(n, n', out)
  {
    hide NodeOk, Execute, MarkFailed, Compose, Broadcast;
    NodeOkWf(n, false);
    match step
    case SendPing(_, to) => ComposeBody(n, to, Ping);
    case DeclareFail(_, about) => MarkFailedKeeps(n, about, false); BroadcastOk(n, Fail(about), false);
    case Admin(_, c) => ExecuteKeeps(n, c, false);
  }

  // ---- votes ----

  ghost predicate AckOk(s: State, m: Msg) {
    && m.from in s.nodes && m.to in s.nodes
    && m.currentEpoch <= s.nodes[m.from].lastVoteEpoch && m.currentEpoch <= s.nodes[m.to].authEpoch
  }

  ghost predicate RequestOk(s: State, m: Msg) {
    m.from in s.nodes && m.currentEpoch <= s.nodes[m.from].authEpoch
  }

  /** Two ACKs of one voter for one epoch. */
  predicate SameVote(m: Msg, m': Msg) {
    m.body.Ack? && m'.body.Ack? && m.from == m'.from && m.currentEpoch == m'.currentEpoch
  }

  /** No node has voted twice in one epoch. */
  ghost predicate OneVote(s: State) {
    forall m, m' :: m in s.sent && m' in s.sent && SameVote(m, m') ==> m == m'
  }

  /** A counted vote has a delivered ACK. */
  ghost predicate Backed(s: State, c: Id, e: nat, v: Id) {
    exists m :: m in s.consumed && m.body.Ack? && m.from == v && m.to == c && m.currentEpoch == e
  }

  ghost predicate VoteInv(s: State) {
    && (forall m :: m in s.sent && m.body.Ack? ==> AckOk(s, m))
    && (forall m :: m in s.sent && m.body.Request? ==> RequestOk(s, m))
    && OneVote(s) && s.consumed <= s.sent
    && (forall c, e, v :: v in CountedFor(s, c, e) ==> Backed(s, c, e, v))
  }

  ghost predicate Forward(s: State, s': State) {
    && s.nodes.Keys == s'.nodes.Keys && s.sent <= s'.sent && s.consumed <= s'.consumed <= s'.sent
    && forall id :: id in s.nodes ==>
         s'.nodes[id].lastVoteEpoch >= s.nodes[id].lastVoteEpoch && s'.nodes[id].authEpoch >= s.nodes[id].authEpoch
  }

  lemma MessagesForward(s: State, s': State)
    requires VoteInv(s) && Forward(s, s')
    requires forall m :: m in s'.sent && m !in s.sent && m.body.Ack? ==>
      AckOk(s', m) && m.currentEpoch > s.nodes[m.from].lastVoteEpoch
    requires forall m, m' ::
      m in s'.sent && m !in s.sent && m.body.Ack? && m' in s'.sent && m' !in s.sent && m'.body.Ack? ==> m == m'
    requires forall m :: m in s'.sent && m !in s.sent && m.body.Request? ==> RequestOk(s', m)
    ensures forall m :: m in s'.sent && m.body.Ack? ==> AckOk(s', m)
    ensures forall m :: m in s'.sent && m.body.Request? ==> RequestOk(s', m)
    ensures OneVote(s')
  {
    forall m | m in s'.sent && m.body.Ack?
      ensures AckOk(s', m)
    {
      if m in s.sent { assert AckOk(s, m); }
    }
    forall m | m in s'.sent && m.body.Request?
      ensures RequestOk(s', m)
    {
      if m in s.sent { assert RequestOk(s, m); }
    }
    forall m, m' | m in s'.sent && m' in s'.sent && SameVote(m, m')
      ensures m == m'
    {
      if m in s.sent { assert AckOk(s, m); }
      if m' in s.sent { assert AckOk(s, m'); }
    }
  }

  lemma BackedForward(s: State, s': State)
    requires VoteInv(s) && s.consumed <= s'.consumed && s'.counted == s.counted
    ensures forall c, e, v :: v in CountedFor(s', c, e) ==> Backed(s', c, e, v)
  {
    forall c, e, v | v in CountedFor(s', c, e)
      ensures Backed(s', c, e, v)
    {
      assert v in CountedFor(s, c, e);
      BackedMono(s, s', c, e, v);
    }
  }

  lemma BackedMono(s: State, s': State, c: Id, e: nat, v: Id)
    requires Backed(s, c, e, v) && s.consumed <= s'.consumed
    ensures Backed(s', c, e, v)
  {
    var m :| m in s.consumed && m.body.Ack? && m.from == v && m.to == c && m.currentEpoch == e;
    assert m in s'.consumed;
  }

  /** s' is s after node `at` became n' and sent `out`. */
  ghost predicate After(s: State, s': State, at: Id, n': Node, out: set<Msg>) {
    at in s.nodes && s'.nodes == s.nodes[at := n'] && s'.sent == s.sent + out
  }

  lemma QuietKeeps(s: State, s': State, at: Id, n': Node, out: set<Msg>)
    requires VoteInv(s) && After(s, s', at, n', out) && Quiet(s.nodes[at], n', out)
    requires s'.consumed == s.consumed && s'.counted == s.counted
    ensures VoteInv(s')
  {
    MessagesForward(s, s');
    BackedForward(s, s');
  }

  lemma BeginKeeps(s: State, s': State, at: Id, n': Node, out: set<Msg>)
    requires VoteInv(s) && After(s, s', at, n', out) && Begins(s.nodes[at], n', out)
    requires EpochsOk(s.nodes[at]) && s.nodes[at].me == at
    requires s'.consumed == s.consumed && s'.counted == s.counted
    ensures VoteInv(s')
  {
    MessagesForward(s, s');
    BackedForward(s, s');
  }

  lemma ResetKeepsVotes(s: State, s': State, at: Id, n': Node, out: set<Msg>)
    requires VoteInv(s) && After(s, s', at, n', out) && Resets(s.nodes[at], n', out)
    requires s'.consumed == s.consumed && s'.counted == s.counted
    ensures VoteInv(s')
  {
    MessagesForward(s, s');
    BackedForward(s, s');
  }

  lemma VotingKeeps(s: State, s': State, at: Id, n': Node, out: set<Msg>, m: Msg)
    requires VoteInv(s) && After(s, s', at, n', out) && Votes(s.nodes[at], n', out, m)
    requires m in s.sent && s.nodes[at].me == at
    requires s'.consumed == s.consumed && s'.counted == s.counted
    ensures VoteInv(s')
  {
    assert RequestOk(s, m);
    var a :| out == {a} && a.body.Ack? && a.from == at && a.to == m.from && a.currentEpoch == m.currentEpoch;
    assert AckOk(s', a);
    MessagesForward(s, s');
    BackedForward(s, s');
  }

  lemma CountingKeeps(s: State, s': State, at: Id, n': Node, m: Msg)
    requires VoteInv(s) && After(s, s', at, n', {})
    requires SameElection(s.nodes[at], n'.(authCount := s.nodes[at].authCount))
    requires m in s.sent && m.body.Ack? && m.to == at && s'.consumed == s.consumed + {m}
    requires s'.counted == s.counted
      || s'.counted == s.counted[(at, m.currentEpoch) := CountedFor(s, at, m.currentEpoch) + {m.from}]
    ensures VoteInv(s')
  {
    MessagesForward(s, s');
    forall c, e, v | v in CountedFor(s', c, e)
      ensures Backed(s', c, e, v)
    {
      if v in CountedFor(s, c, e) {
        BackedMono(s, s', c, e, v);
      } else {
        assert m in s'.consumed && c == at && e == m.currentEpoch && v == m.from;
      }
    }
  }

  /** Every step keeps the record of votes in order. */
  lemma NextKeepsVotes(s: State, step: Step)
    requires Inv(s, false) && VoteInv(s) && Enabled(s, step)
    ensures VoteInv(Next(s, step))
  {
    hide NodeOk, VoteInv, IsWin, IsStart, Receive, HandleFailover, Execute, MarkFailed, Compose, Broadcast,
      LearnEpochs, Counts;
    var at, n, s' := At(step), s.nodes[At(step)], Next(s, step);
    var (n', out) := Act(n, step);
    NodeOkParts(n, false);
    if step.Deliver? {
      var m := step.m;
      assert SentOk(s, m);
      if m.body.Ack? {
        AckActs(n, m, step.tooSoon, false);
        CountingKeeps(s, s', at, n', m);
      } else if m.body.Request? {
        VoteActs(n, m, step.tooSoon, false);
        if Quiet(n, n', out) { QuietKeeps(s, s', at, n', out); } else { VotingKeeps(s, s', at, n', out, m); }
      } else {
        ReceiveActs(n, m, step.tooSoon, false);
        QuietKeeps(s, s', at, n', out);
      }
    } else if step.Failover? {
      FailoverActs(n, step, false);
      if Begins(n, n', out) { BeginKeeps(s, s', at, n', out); }
      else if Quiet(n, n', out) { QuietKeeps(s, s', at, n', out); }
      else { ResetKeepsVotes(s, s', at, n', out); }
    } else {
      OtherActs(n, step);
      QuietKeeps(s, s', at, n', out);
    }
  }
}
