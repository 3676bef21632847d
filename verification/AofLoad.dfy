/** loadAppendOnlyFile: replaying a log, whole or cut at any byte, with its transactions. */
module AofLoad {
  import opened AofFormat

  /** What lookupCommand says of a command name. */
  datatype Kind = Multi | Exec | Other | Unknown

  /** The fake client: commands run so far, and those queued since an open MULTI. */
  datatype Client = Client(executed: seq<Command>, inMulti: bool, queue: seq<Command>)

  function FreshClient(): Client { Client([], false, []) }

  function RunCommand(c: Client, argv: Command, k: Kind): Client {
    if c.inMulti && k != Exec then c.(queue := c.queue + [argv])
    else
      match k
      case Multi => Client(c.executed, true, [])
      case Exec => if c.inMulti then Client(c.executed + c.queue, false, []) else c
      case _ => c.(executed := c.executed + [argv])
  }

  /** Loaded: whole file; Truncated: the tail from `cut` on is dropped; Refused: the server exits. */
  datatype Outcome = EmptyFile | Loaded(executed: seq<Command>) | Truncated(executed: seq<Command>, cut: nat) | Refused

  function AtEndOfFile(truncated: bool, c: Client, cut: nat): Outcome {
    if truncated then Truncated(c.executed, cut) else Refused
  }

  /** The command loop: `r` is unread, `pos` its offset, `up` and `before` are valid_up_to and
      valid_before_multi. */
  function LoadLoop(r: Bytes, pos: nat, kind: Bytes -> Kind, truncated: bool, up: nat, before: nat, c: Client): Outcome
    decreases |r|, 1
  {
    LoadParsed(ParseCommand(r), r, pos, kind, truncated, up, before, c)
  }

  /** One turn of the loop, given what was read. */
  function LoadParsed(
      p: Parsed, r: Bytes, pos: nat, kind: Bytes -> Kind, truncated: bool, up: nat, before: nat, c: Client): Outcome
    requires p.Args? ==> |p.argv| >= 1 && 0 < p.used <= |r|
    decreases |r|, 0
  {
    match p
    case AtEnd => if c.inMulti then AtEndOfFile(truncated, c, before) else Loaded(c.executed)
    case Short => AtEndOfFile(truncated, c, up)
    case Bad => Refused
    case Args(argv, used) =>
      var k := kind(argv[0]);
      if k == Unknown then Refused
      else
        LoadLoop(r[used..], pos + used, kind, truncated, if truncated then pos + used else up,
                 if k == Multi then up else before, RunCommand(c, argv, k))
  }

  /** loadAppendOnlyFile with the aof-load-truncated setting. */
  function Load(file: Bytes, kind: Bytes -> Kind, truncated: bool): Outcome {
    if file == [] then EmptyFile else LoadLoop(file, 0, kind, truncated, 0, 0, FreshClient())
  }

  /** The loop as written, updating the offsets and the client in place. */
  method LoadAppendOnlyFile(file: Bytes, kind: Bytes -> Kind, truncated: bool) returns (o: Outcome)
    ensures o == Load(file, kind, truncated)
  {
    hide ParseCommand, RunCommand;
    if file == [] { return EmptyFile; }
    var pos, up, before, c := 0, 0, 0, FreshClient();
    while true
      invariant 0 <= pos <= |file|
      invariant LoadLoop(file[pos..], pos, kind, truncated, up, before, c) == Load(file, kind, truncated)
      decreases |file| - pos
    {
      match ParseCommand(file[pos..])
      case AtEnd =>
        if c.inMulti { return AtEndOfFile(truncated, c, before); }
        return Loaded(c.executed);
      case Short => return AtEndOfFile(truncated, c, up);
      case Bad => return Refused;
      case Args(argv, used) =>
        var k := kind(argv[0]);
        if k == Unknown { return Refused; }
        if k == Multi { before := up; }
        c := RunCommand(c, argv, k);
        assert file[pos..][used..] == file[pos + used..];
        pos := pos + used;
        if truncated { up := pos; }
    }
  }

  // ---- logs ----

  /** Commands the loader accepts. */
  ghost predicate GoodLog(log: seq<Command>, kind: Bytes -> Kind) {
    forall i :: 0 <= i < |log| ==> Encodable(log[i]) && kind(log[i][0]) != Unknown
  }

  function RunLog(log: seq<Command>, kind: Bytes -> Kind, c: Client): Client
    requires forall i :: 0 <= i < |log| ==> |log[i]| > 0
    decreases |log|
  {
    if log == [] then c else RunLog(log[1..], kind, RunCommand(c, log[0], kind(log[0][0])))
  }

  /** Number of commands wholly contained in the first `n` bytes of the log. */
  function Whole(log: seq<Command>, n: nat): (k: nat)
    ensures k <= |log|
  {
    if log == [] || n < |Encode(log[0])| then 0 else 1 + Whole(log[1..], n - |Encode(log[0])|)
  }

  /** Offset of the last MULTI, `before` if there is none. */
  function LastMulti(log: seq<Command>, kind: Bytes -> Kind, pos: nat, before: nat): nat
    requires forall i :: 0 <= i < |log| ==> |log[i]| > 0
    decreases |log|
  {
    if log == [] then before
    else LastMulti(log[1..], kind, pos + |Encode(log[0])|, if kind(log[0][0]) == Multi then pos else before)
  }

  lemma {:induction false} WholeEnds(log: seq<Command>, n: nat)
    requires n <= |EncodeLog(log)|
    ensures |EncodeLog(log[..Whole(log, n)])| <= n
    ensures Whole(log, n) < |log| ==> n < |EncodeLog(log[..Whole(log, n) + 1])|
    decreases |log|
  {
    if log != [] && n >= |Encode(log[0])| {
      var k := Whole(log, n);
      WholeEnds(log[1..], n - |Encode(log[0])|);
      assert log[..k][1..] == log[1..][..k - 1];
      if k < |log| { assert log[..k + 1][1..] == log[1..][..k]; }
    } else if log != [] {
      assert log[..1][1..] == [];
      assert EncodeLog(log[..1]) == Encode(log[0]) + [];
    }
  }

  /** What loading `n` bytes of the log must give. */
  function CutOutcome(log: seq<Command>, kind: Bytes -> Kind, n: nat, pos: nat, before: nat, c: Client): Outcome
    requires forall i :: 0 <= i < |log| ==> |log[i]| > 0
  {
    var done := log[..Whole(log, n)];
    var d := RunLog(done, kind, c);
    var end := |EncodeLog(done)|;
    if n > end then Truncated(d.executed, pos + end)
    else if d.inMulti then Truncated(d.executed, LastMulti(done, kind, pos, before))
    else Loaded(d.executed)
  }

  lemma {:induction false} LoadLoopCut(
      log: seq<Command>, kind: Bytes -> Kind, n: nat, pos: nat, before: nat, c: Client)
    requires GoodLog(log, kind) && n <= |EncodeLog(log)|
    ensures LoadLoop(EncodeLog(log)[..n], pos, kind, true, pos, before, c) == CutOutcome(log, kind, n, pos, before, c)
    decreases |log|
  {
    hide ParseCommand, Encode, CutOutcome, RunCommand, LoadLoop;
    if n == 0 || n < |Encode(log[0])| {
      CutInside(log, kind, n, pos, before, c);
    } else {
      var e, tail, m := Encode(log[0]), EncodeLog(log[1..]), n - |Encode(log[0])|;
      var r, k := EncodeLog(log)[..n], kind(log[0][0]);
      var before', c' := if k == Multi then pos else before, RunCommand(c, log[0], k);
      TakeSplit(e, tail, n);
      calc {
        LoadLoop(r, pos, kind, true, pos, before, c);
        { CommandParses(log[0], tail[..m]); LoadStep(r, pos, kind, before, c, log[0], |e|); }
        LoadLoop(tail[..m], pos + |e|, kind, true, pos + |e|, before', c');
        { LoadLoopCut(log[1..], kind, m, pos + |e|, before', c'); }
        CutOutcome(log[1..], kind, m, pos + |e|, before', c');
        { CutStep(log, kind, n, pos, before, c); }
        CutOutcome(log, kind, n, pos, before, c);
      }
    }
  }

  lemma TakeSplit(a: Bytes, b: Bytes, n: nat)
    requires |a| <= n <= |a| + |b|
    ensures (a + b)[..n] == a + b[..n - |a|] && (a + b)[..n][|a|..] == b[..n - |a|]
  {
  }

  lemma CutInside(log: seq<Command>, kind: Bytes -> Kind, n: nat, pos: nat, before: nat, c: Client)
    requires GoodLog(log, kind) && n <= |EncodeLog(log)| && (n == 0 || n < |Encode(log[0])|)
    ensures LoadLoop(EncodeLog(log)[..n], pos, kind, true, pos, before, c) == CutOutcome(log, kind, n, pos, before, c)
  {
    assert log[..Whole(log, n)] == [];
    if n > 0 {
      assert EncodeLog(log)[..n] == Encode(log[0])[..n];
      PartialCommand(log[0], n);
    }
  }

  lemma LoadStep(r: Bytes, pos: nat, kind: Bytes -> Kind, before: nat, c: Client, argv: Command, used: nat)
    requires ParseCommand(r) == Args(argv, used) && kind(argv[0]) != Unknown
    ensures var k := kind(argv[0]);
      LoadLoop(r, pos, kind, true, pos, before, c)
        == LoadLoop(r[used..], pos + used, kind, true, pos + used,
                    if k == Multi then pos else before, RunCommand(c, argv, k))
  {
  }

  lemma CutStep(log: seq<Command>, kind: Bytes -> Kind, n: nat, pos: nat, before: nat, c: Client)
    requires GoodLog(log, kind) && log != [] && n >= |Encode(log[0])|
    ensures var e := |Encode(log[0])|;
      var k := kind(log[0][0]);
      CutOutcome(log, kind, n, pos, before, c)
        == CutOutcome(log[1..], kind, n - e, pos + e, if k == Multi then pos else before, RunCommand(c, log[0], k))
  {
    var w := Whole(log, n);
    assert log[..w][1..] == log[1..][..w - 1];
    assert EncodeLog(log[..w]) == Encode(log[0]) + EncodeLog(log[1..][..w - 1]);
  }

  /** Loading any number of bytes of a log, with truncated loading enabled: exactly the commands
      wholly present are run; a cut inside a command drops its partial bytes, a cut between two
      commands of an open transaction drops the transaction from its MULTI on. */
  lemma LoadCut(log: seq<Command>, kind: Bytes -> Kind, n: nat)
    requires GoodLog(log, kind) && 0 < n <= |EncodeLog(log)|
    ensures Load(EncodeLog(log)[..n], kind, true) == CutOutcome(log, kind, n, 0, 0, FreshClient())
  {
    LoadLoopCut(log, kind, n, 0, 0, FreshClient());
    assert |EncodeLog(log)[..n]| == n;
  }

  // ---- without truncated loading ----

  /** What is refused when truncated loading is disabled: exactly what would be truncated. */
  function NoTruncation(o: Outcome): Outcome {
    if o.Truncated? then Refused else o
  }

  lemma {:induction false} LoadLoopRefuses(
      r: Bytes, pos: nat, kind: Bytes -> Kind, up: nat, before: nat, up': nat, before': nat, c: Client)
    ensures LoadLoop(r, pos, kind, false, up, before, c) == NoTruncation(LoadLoop(r, pos, kind, true, up', before', c))
    decreases |r|
  {
    hide ParseCommand, RunCommand;
    var p := ParseCommand(r);
    if p.Args? && kind(p.argv[0]) != Unknown {
      var k := kind(p.argv[0]);
      LoadLoopRefuses(r[p.used..], pos + p.used, kind, up, if k == Multi then up else before,
                      pos + p.used, if k == Multi then up' else before', RunCommand(c, p.argv, k));
    }
  }

  /** For every file, the aof-load-truncated setting decides only about files that would be cut: with
      it they are truncated, without it the server refuses to start. */
  lemma LoadRefuses(file: Bytes, kind: Bytes -> Kind)
    ensures Load(file, kind, false) == NoTruncation(Load(file, kind, true))
  {
    hide LoadLoop;
    LoadLoopRefuses(file, 0, kind, 0, 0, 0, 0, FreshClient());
  }

  /** Loading any number of bytes of a log with truncated loading disabled: refused exactly where
      LoadCut says truncated. */
  lemma LoadCutRefused(log: seq<Command>, kind: Bytes -> Kind, n: nat)
    requires GoodLog(log, kind) && 0 < n <= |EncodeLog(log)|
    ensures Load(EncodeLog(log)[..n], kind, false) == NoTruncation(CutOutcome(log, kind, n, 0, 0, FreshClient()))
  {
    hide Load, CutOutcome;
    LoadCut(log, kind, n);
    LoadRefuses(EncodeLog(log)[..n], kind);
  }

  // ---- round trip ----

  lemma {:induction false} WholeLog(log: seq<Command>)
    ensures Whole(log, |EncodeLog(log)|) == |log|
    decreases |log|
  {
    if log != [] { WholeLog(log[1..]); }
  }

  /** Loading the encodings of any log, with any binary arguments and either setting of
      aof-load-truncated, runs exactly that log. */
  lemma RoundTrip(log: seq<Command>, kind: Bytes -> Kind, truncated: bool)
    requires GoodLog(log, kind) && log != [] && !RunLog(log, kind, FreshClient()).inMulti
    ensures Load(EncodeLog(log), kind, truncated) == Loaded(RunLog(log, kind, FreshClient()).executed)
  {
    hide Load;
    var n := |EncodeLog(log)|;
    assert EncodeLog(log)[..n] == EncodeLog(log);
    NonEmptyLog(log);
    LoadCut(log, kind, n);
    LoadRefuses(EncodeLog(log), kind);
    WholeLog(log);
    assert log[..|log|] == log;
  }

  /** Plain logs: no transactions. */
  predicate MultiFree(log: seq<Command>, kind: Bytes -> Kind)
    requires forall i :: 0 <= i < |log| ==> |log[i]| > 0
  {
    forall i :: 0 <= i < |log| ==> kind(log[i][0]) == Other
  }

  lemma {:induction false} RunMultiFree(log: seq<Command>, kind: Bytes -> Kind, c: Client)
    requires GoodLog(log, kind) && MultiFree(log, kind) && !c.inMulti
    ensures RunLog(log, kind, c) == c.(executed := c.executed + log)
    decreases |log|
  {
    if log == [] {
      assert c.executed + log == c.executed;
    } else {
      RunMultiFree(log[1..], kind, RunCommand(c, log[0], Other));
      assert c.executed + [log[0]] + log[1..] == c.executed + log;
    }
  }

  /** Without transactions: a log cut at any byte runs exactly the commands wholly present, and
      the file is cut at the end of the last of them. */
  lemma LoadMultiFreeCut(log: seq<Command>, kind: Bytes -> Kind, n: nat)
    requires GoodLog(log, kind) && MultiFree(log, kind) && 0 < n <= |EncodeLog(log)|
    ensures var done := log[..Whole(log, n)];
      Load(EncodeLog(log)[..n], kind, true) ==
        if n == |EncodeLog(done)| then Loaded(done) else Truncated(done, |EncodeLog(done)|)
  {
    var done := log[..Whole(log, n)];
    LoadCut(log, kind, n);
    WholeEnds(log, n);
    RunMultiFree(done, kind, FreshClient());
    assert [] + done == done;
  }

  // ---- transactions and the place of the cut ----

  /** No MULTI inside an open transaction; `open` tells whether one is open at the start. */
  predicate Unnested(log: seq<Command>, kind: Bytes -> Kind, open: bool)
    requires forall i :: 0 <= i < |log| ==> |log[i]| > 0
    decreases |log|
  {
    log == [] ||
    match kind(log[0][0])
    case Multi => !open && Unnested(log[1..], kind, true)
    case Exec => Unnested(log[1..], kind, false)
    case _ => Unnested(log[1..], kind, open)
  }

  lemma {:induction false} UnnestedAt(log: seq<Command>, kind: Bytes -> Kind, c: Client, i: nat)
    requires GoodLog(log, kind) && Unnested(log, kind, c.inMulti) && i < |log| && kind(log[i][0]) == Multi
    ensures !RunLog(log[..i], kind, c).inMulti
    decreases i
  {
    if i > 0 {
      assert log[..i][1..] == log[1..][..i - 1];
      UnnestedAt(log[1..], kind, RunCommand(c, log[0], kind(log[0][0])), i - 1);
    }
  }

  /** The log without MULTI and EXEC. */
  function Plain(log: seq<Command>, kind: Bytes -> Kind): seq<Command>
    requires forall i :: 0 <= i < |log| ==> |log[i]| > 0
    decreases |log|
  {
    if log == [] then [] else (if kind(log[0][0]) == Other then [log[0]] else []) + Plain(log[1..], kind)
  }

  /** Commands run and queued are the commands of the log, in order, without MULTI and EXEC. */
  lemma {:induction false} RunLogRunsPlain(log: seq<Command>, kind: Bytes -> Kind, c: Client)
    requires GoodLog(log, kind) && Unnested(log, kind, c.inMulti) && (c.inMulti || c.queue == [])
    ensures var d := RunLog(log, kind, c);
      d.executed + d.queue == c.executed + c.queue + Plain(log, kind) && (d.inMulti || d.queue == [])
    decreases |log|
  {
    if log == [] {
      assert c.executed + c.queue + [] == c.executed + c.queue;
    } else {
      var k := kind(log[0][0]);
      var c1 := RunCommand(c, log[0], k);
      RunLogRunsPlain(log[1..], kind, c1);
      var first: seq<Command> := if k == Other then [log[0]] else [];
      assert c1.executed + c1.queue == c.executed + c.queue + first;
      assert c.executed + c.queue + first + Plain(log[1..], kind)
        == c.executed + c.queue + (first + Plain(log[1..], kind));
    }
  }

  /** Loading a log with transactions, none left open, runs its commands in order. */
  lemma LoadRunsPlain(log: seq<Command>, kind: Bytes -> Kind, truncated: bool)
    requires GoodLog(log, kind) && log != [] && Unnested(log, kind, false) && !RunLog(log, kind, FreshClient()).inMulti
    ensures Load(EncodeLog(log), kind, truncated) == Loaded(Plain(log, kind))
  {
    hide Load, Plain;
    RoundTrip(log, kind, truncated);
    RunLogRunsPlain(log, kind, FreshClient());
    var d := RunLog(log, kind, FreshClient());
    assert d.executed + [] == d.executed && [] + [] + Plain(log, kind) == Plain(log, kind);
  }

  /** Commands kept when the file is cut at `cut`, and the client after them. */
  function KeptClient(log: seq<Command>, kind: Bytes -> Kind, cut: nat): Client
    requires forall i :: 0 <= i < |log| ==> |log[i]| > 0
  {
    RunLog(log[..Whole(log, cut)], kind, FreshClient())
  }

  lemma {:induction false} RunLogAppend(a: seq<Command>, b: seq<Command>, kind: Bytes -> Kind, c: Client)
    requires forall i :: 0 <= i < |a| ==> |a[i]| > 0
    requires forall i :: 0 <= i < |b| ==> |b[i]| > 0
    ensures RunLog(a + b, kind, c) == RunLog(b, kind, RunLog(a, kind, c))
    decreases |a|
  {
    if a == [] {
      assert a + b == b;
    } else {
      assert (a + b)[1..] == a[1..] + b && (a + b)[0] == a[0];
      RunLogAppend(a[1..], b, kind, RunCommand(c, a[0], kind(a[0][0])));
    }
  }

  lemma {:induction false} EncodeLogAppend(a: seq<Command>, b: seq<Command>)
    ensures EncodeLog(a + b) == EncodeLog(a) + EncodeLog(b)
    decreases |a|
  {
    if a == [] {
      assert a + b == b;
    } else {
      assert (a + b)[1..] == a[1..] + b;
      EncodeLogAppend(a[1..], b);
      assert EncodeLog(a + b) == Encode(a[0]) + (EncodeLog(a[1..]) + EncodeLog(b));
    }
  }

  /** Cutting at the end of the first k commands keeps exactly these. */
  lemma {:induction false} WholeAtBoundary(log: seq<Command>, k: nat)
    requires k <= |log|
    ensures Whole(log, |EncodeLog(log[..k])|) == k
    decreases k
  {
    if k > 0 {
      assert log[..k][1..] == log[1..][..k - 1];
      WholeAtBoundary(log[1..], k - 1);
    } else if log != [] {
      assert EncodeLog(log[..0]) == [] && |Encode(log[0])| > 0;
    }
  }

  /** LastMulti is the start of a MULTI once there is one. */
  lemma {:induction false} LastMultiStarts(
      log: seq<Command>, kind: Bytes -> Kind, pos: nat, before: nat) returns (i: int)
    requires forall j :: 0 <= j < |log| ==> |log[j]| > 0
    ensures -1 <= i < |log|
    ensures i >= 0 ==> kind(log[i][0]) == Multi && LastMulti(log, kind, pos, before) == pos + |EncodeLog(log[..i])|
    ensures i == -1 ==> (forall j :: 0 <= j < |log| ==> kind(log[j][0]) != Multi)
    decreases |log|
  {
    if log == [] {
      i := -1;
    } else {
      var k := kind(log[0][0]);
      var j := LastMultiStarts(log[1..], kind, pos + |Encode(log[0])|, if k == Multi then pos else before);
      if j >= 0 {
        i := j + 1;
        assert log[..i][1..] == log[1..][..j];
      } else {
        i := if k == Multi then 0 else -1;
        assert forall x :: 1 <= x < |log| ==> log[x] == log[1..][x - 1];
        LastMultiNone(log[1..], kind, pos + |Encode(log[0])|, if k == Multi then pos else before);
        assert EncodeLog(log[..0]) == [];
      }
    }
  }

  lemma {:induction false} LastMultiNone(log: seq<Command>, kind: Bytes -> Kind, pos: nat, before: nat)
    requires forall j :: 0 <= j < |log| ==> |log[j]| > 0 && kind(log[j][0]) != Multi
    ensures LastMulti(log, kind, pos, before) == before
    decreases |log|
  {
    if log != [] { LastMultiNone(log[1..], kind, pos + |Encode(log[0])|, before); }
  }

  lemma {:induction false} OpenNeedsMulti(log: seq<Command>, kind: Bytes -> Kind, c: Client)
    requires forall j :: 0 <= j < |log| ==> |log[j]| > 0 && kind(log[j][0]) != Multi
    requires !c.inMulti
    ensures !RunLog(log, kind, c).inMulti
    decreases |log|
  {
    if log != [] { OpenNeedsMulti(log[1..], kind, RunCommand(c, log[0], kind(log[0][0]))); }
  }

  /** Where the file is cut no transaction is open, if and only if the log did not end inside a
      command of an open transaction. */
  lemma CutIsClean(log: seq<Command>, kind: Bytes -> Kind, n: nat)
    requires GoodLog(log, kind) && Unnested(log, kind, false) && 0 < n <= |EncodeLog(log)|
    ensures var done := log[..Whole(log, n)];
      var o := Load(EncodeLog(log)[..n], kind, true);
      o.Truncated? ==>
        (!KeptClient(log, kind, o.cut).inMulti <==>
          !(n > |EncodeLog(done)| && RunLog(done, kind, FreshClient()).inMulti))
  {
    hide Encode, ParseCommand, LoadLoop;
    var k := Whole(log, n);
    var done := log[..k];
    LoadCut(log, kind, n);
    WholeEnds(log, n);
    if n > |EncodeLog(done)| {
      WholeAtBoundary(log, k);
    } else if RunLog(done, kind, FreshClient()).inMulti {
      var i := LastMultiStarts(done, kind, 0, 0);
      if i == -1 {
        OpenNeedsMulti(done, kind, FreshClient());
      } else {
        assert done[..i] == log[..i];
        UnnestedAt(log, kind, FreshClient(), i);
        WholeAtBoundary(log, i);
      }
    }
  }

  ghost predicate ExecFree(log: seq<Command>, kind: Bytes -> Kind)
    requires forall i :: 0 <= i < |log| ==> |log[i]| > 0
  {
    forall i :: 0 <= i < |log| ==> kind(log[i][0]) != Exec
  }

  lemma {:induction false} QueuedOnly(log: seq<Command>, kind: Bytes -> Kind, c: Client)
    requires forall i :: 0 <= i < |log| ==> |log[i]| > 0
    requires ExecFree(log, kind) && c.inMulti
    ensures RunLog(log, kind, c).executed == c.executed && RunLog(log, kind, c).inMulti
    decreases |log|
  {
    if log != [] { QueuedOnly(log[1..], kind, RunCommand(c, log[0], kind(log[0][0]))); }
  }

  /** What an unclean cut costs: commands appended after it by the restarted server are queued in
      the transaction left open, so the next load runs none of them. */
  lemma UncleanCutLosesCommands(log: seq<Command>, kind: Bytes -> Kind, k: nat, more: seq<Command>)
    requires GoodLog(log, kind) && GoodLog(more, kind) && ExecFree(more, kind) && 0 < k <= |log|
    requires RunLog(log[..k], kind, FreshClient()).inMulti
    ensures var file := EncodeLog(log[..k]) + EncodeLog(more);
      var o := Load(file, kind, true);
      o.Truncated? && o.executed == RunLog(log[..k], kind, FreshClient()).executed
  {
    hide Encode, ParseCommand, LoadLoop;
    var all := log[..k] + more;
    EncodeLogAppend(log[..k], more);
    RunLogAppend(log[..k], more, kind, FreshClient());
    QueuedOnly(more, kind, RunLog(log[..k], kind, FreshClient()));
    var n := |EncodeLog(all)|;
    assert EncodeLog(all)[..n] == EncodeLog(all);
    NonEmptyLog(all);
    LoadCut(all, kind, n);
    WholeLog(all);
    assert all[..|all|] == all;
  }

  lemma NonEmptyLog(log: seq<Command>)
    requires log != []
    ensures |EncodeLog(log)| > 0
  {
  }

  /** After a clean cut the commands appended later are all run. */
  lemma CleanCutKeepsCommands(log: seq<Command>, kind: Bytes -> Kind, k: nat, more: seq<Command>)
    requires GoodLog(log, kind) && GoodLog(more, kind) && MultiFree(more, kind) && 0 < k <= |log|
    requires !RunLog(log[..k], kind, FreshClient()).inMulti
    ensures var file := EncodeLog(log[..k]) + EncodeLog(more);
      Load(file, kind, true) == Loaded(RunLog(log[..k], kind, FreshClient()).executed + more)
  {
    hide Encode, ParseCommand, LoadLoop;
    var all := log[..k] + more;
    EncodeLogAppend(log[..k], more);
    RunLogAppend(log[..k], more, kind, FreshClient());
    RunMultiFree(more, kind, RunLog(log[..k], kind, FreshClient()));
    RoundTrip(all, kind, true);
  }

  /** The loader does cut inside a transaction: MULTI and part of a command, with no EXEC. */
  lemma UncleanCutExample(name: Bytes, arg: Bytes, kind: Bytes -> Kind)
    requires Fits(|name|) && Fits(|arg|) && kind(name) == Multi && kind(arg) == Other
    ensures var log := [[name], [arg]];
      var n := |EncodeLog(log)| - 1;
      var o := Load(EncodeLog(log)[..n], kind, true);
      o == Truncated([], |Encode([name])|) && KeptClient(log, kind, o.cut).inMulti
  {
    hide ParseCommand, LoadLoop, Encode;
    var log: seq<Command> := [[name], [arg]];
    var n := |EncodeLog(log)| - 1;
    TwoCommands([name], [arg]);
    assert GoodLog(log, kind);
    LoadCut(log, kind, n);
    assert log[..1] == [[name]];
    OneCommand([name]);
    WholeAtBoundary(log, 1);
    assert RunLog(log[..1], kind, FreshClient()) == Client([], true, []) by {
      assert |log[..1][1..]| == 0;
    }
  }

  lemma OneCommand(a: Command)
    ensures EncodeLog([a]) == Encode(a) && |Encode(a)| > 1
  {
    var log: seq<Command> := [a];
    assert |log[1..]| == 0;
    assert EncodeLog(log) == Encode(a) + [];
  }

  lemma TwoCommands(a: Command, b: Command)
    ensures |EncodeLog([a, b])| == |Encode(a)| + |Encode(b)| && |Encode(a)| > 1 && |Encode(b)| > 1
    ensures Whole([a, b], |Encode(a)| + |Encode(b)| - 1) == 1
  {
    hide Encode;
    OneCommand(a);
    OneCommand(b);
    var log: seq<Command> := [a, b];
    assert log[1..] == [b];
  }
}
