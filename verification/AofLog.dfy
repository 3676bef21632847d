/** The append only file over whole runs: what it holds whether rewrites fail or are adopted, and that it
    always replays to the live data set. */
module AofLog {
  import opened AofFormat
  import opened AofLoad
  import opened AofRewrite

  // ---- bytes ----

  /** The bytes that a step adds to the log. */
  function BytesFed(s: State, step: Step): Bytes {
    if step.Feed? && !s.waitRewrite then EncodeLog(Logged(s.selected, step.f)) else []
  }

  /** A step that adopts no rewrite adds the bytes fed to the log, and changes nothing of what it holds. */
  lemma StepKeepsLog(s: State, step: Step)
    requires Enabled(s, step) && !Adopts(s, step)
    ensures var s' := Next(s, step);
      && s'.file + s'.aofBuf == s.file + s.aofBuf + BytesFed(s, step)
      && s.file <= s'.file && s'.waitRewrite == s.waitRewrite
      && |s'.file| == |s.file| + (if step.FlushFile? then step.n else 0)
  {
    hide EncodeLog, Logged;
    match step
    case Feed(f) =>
      assert s.file + (s.aofBuf + BytesFed(s, step)) == s.file + s.aofBuf + BytesFed(s, step);
    case FlushFile(n) =>
      assert s.aofBuf == s.aofBuf[..n] + s.aofBuf[n..];
      assert s.file + s.aofBuf[..n] + s.aofBuf[n..] == s.file + s.aofBuf;
    case _ =>
  }

  /** A rewrite that fails leaves the file and its buffer alone; the next one can begin. */
  lemma FailedRewrite(s: State, step: Step)
    requires Inv(s) && Enabled(s, step) && step.Done? && !Adopts(s, step)
    ensures var s' := Next(s, step);
      && s'.file == s.file && s'.aofBuf == s.aofBuf && s'.selected == s.selected && s'.waitRewrite == s.waitRewrite
      && Idle(s')
  {
  }

  ghost predicate NoAdoption(s: State, steps: seq<Step>)
    requires Valid(s, steps)
    decreases |steps|
  {
    steps != [] ==> !Adopts(s, steps[0]) && NoAdoption(Next(s, steps[0]), steps[1..])
  }

  ghost function AllBytes(s: State, steps: seq<Step>): Bytes
    requires Valid(s, steps)
    decreases |steps|
  {
    if steps == [] then [] else BytesFed(s, steps[0]) + AllBytes(Next(s, steps[0]), steps[1..])
  }

  lemma {:induction false} RunKeepsLog(s: State, steps: seq<Step>)
    requires Valid(s, steps) && NoAdoption(s, steps)
    ensures var s' := Run(s, steps);
      s'.file + s'.aofBuf == s.file + s.aofBuf + AllBytes(s, steps) && s.file <= s'.file
    decreases |steps|
  {
    hide Next, BytesFed, Enabled;
    if steps != [] {
      StepKeepsLog(s, steps[0]);
      RunKeepsLog(Next(s, steps[0]), steps[1..]);
      var a, b := BytesFed(s, steps[0]), AllBytes(Next(s, steps[0]), steps[1..]);
      assert s.file + s.aofBuf + a + b == s.file + s.aofBuf + (a + b);
    }
  }

  lemma {:induction false} RunSplit(s: State, steps: seq<Step>, a: nat)
    requires Valid(s, steps) && a <= |steps|
    ensures Valid(s, steps[..a]) && Valid(Run(s, steps[..a]), steps[a..])
    ensures Run(s, steps) == Run(Run(s, steps[..a]), steps[a..])
    decreases a
  {
    hide Next, Enabled;
    if a == 0 {
      assert steps[..0] == [] && steps[0..] == steps;
    } else {
      assert steps[..a][1..] == steps[1..][..a - 1] && steps[1..][a - 1..] == steps[a..] && steps[..a][0] == steps[0];
      RunSplit(Next(s, steps[0]), steps[1..], a - 1);
    }
  }

  /** In every run, whether rewrites fail or not: file and buffer hold what they held after the last
      rewrite adopted, followed by all bytes fed since; and that rewrite left the snapshot and the bytes
      fed since its fork. */
  lemma LogSinceAdoption(s0: State, steps: seq<Step>, a: nat)
    requires Idle(s0) && Valid(s0, steps) && a < |steps|
    requires Valid(s0, steps[..a]) && Adopts(Run(s0, steps[..a]), steps[a])
    requires Valid(s0, steps[..a + 1]) && Valid(Run(s0, steps[..a + 1]), steps[a + 1..])
    requires NoAdoption(Run(s0, steps[..a + 1]), steps[a + 1..])
    ensures var b, s := Run(s0, steps[..a]), Run(s0, steps);
      s.file + s.aofBuf
        == b.snapshot + EncodeLog(LoggedAll(-1, b.fed)) + AllBytes(Run(s0, steps[..a + 1]), steps[a + 1..])
  {
    hide Next, EncodeLog, LoggedAll, AllBytes, NoAdoption;
    var b, c := Run(s0, steps[..a]), Run(s0, steps[..a + 1]);
    RunSplit(s0, steps[..a + 1], a);
    assert steps[..a + 1][..a] == steps[..a] && steps[..a + 1][a..] == [steps[a]];
    assert c == Next(b, steps[a]) by {
      assert [steps[a]][1..] == [];
      assert Valid(b, [steps[a]]);
    }
    RunKeepsInv(s0, steps[..a]);
    RewrittenFile(b, steps[a]);
    RunSplit(s0, steps, a + 1);
    RunKeepsLog(c, steps[a + 1..]);
    assert c.file + [] == c.file;
  }

  /** The end of a rewrite: the child asks the parent to stop, is done, and its file is adopted. */
  function Ending(): seq<Step> {
    [AskStop] + ([HandleStop(true)] + ([ReceiveAck] + ([FinishChild] + ([Done(true, true)] + []))))
  }

  /** A rewrite with one command fed while the child is at work. */
  function FullRewrite(snapshot: Bytes, f: Fed, n: nat): seq<Step> {
    [Fork(snapshot)] + ([Feed(f)] + ([SendDiff(n)] + ([ReadDiff(n)] + Ending())))
  }

  lemma EndingCompletes(s: State)
    requires s.child == Working && s.pipe == [] && s.buffer == [] && !s.askInFlight
    ensures Valid(s, Ending())
    ensures var s' := Run(s, Ending()); s'.file == s.snapshot + s.diff && Idle(s')
  {
    var s1 := Next(s, AskStop);
    var s2 := Next(s1, HandleStop(true));
    var s3 := Next(s2, ReceiveAck);
    var s4 := Next(s3, FinishChild);
    assert s4.temp == s.snapshot + s.diff by { assert s.diff + [] == s.diff; }
    assert s4.child == Exited(true);
    var s5 := Next(s4, Done(true, true));
    assert s5.file == s.snapshot + s.diff && Idle(s5);
    assert Run(s5, []) == s5;
    hide Next, Run, Valid;
    RunCons(s4, Done(true, true), []) by { assert Valid(s5, []) by { NothingValid(s5); } }
    var t1 := [Done(true, true)] + [];
    RunCons(s3, FinishChild, t1);
    var t2 := [FinishChild] + t1;
    RunCons(s2, ReceiveAck, t2);
    var t3 := [ReceiveAck] + t2;
    RunCons(s1, HandleStop(true), t3);
    RunCons(s, AskStop, [HandleStop(true)] + t3);
  }

  lemma NothingValid(s: State)
    ensures Valid(s, [])
  {
  }

  /** A rewrite can always be carried through, and its file is the snapshot with what was fed. */
  lemma RewriteCompletes(s: State, snapshot: Bytes, f: Fed)
    requires Idle(s)
    ensures var bytes := EncodeLog(Logged(-1, f));
      var steps := FullRewrite(snapshot, f, |bytes|);
      Valid(s, steps) && Run(s, steps).file == snapshot + bytes && Idle(Run(s, steps))
  {
    hide EncodeLog, Logged, Run, Valid, Ending;
    var bytes := EncodeLog(Logged(-1, f));
    var s1 := Next(s, Fork(snapshot));
    var s2 := Next(s1, Feed(f));
    assert s2.buffer == bytes by { assert [] + bytes == bytes; }
    var s3 := Next(s2, SendDiff(|bytes|));
    assert s3.pipe == bytes && s3.buffer == [] by { assert [] + bytes[..|bytes|] == bytes; }
    var s4 := Next(s3, ReadDiff(|bytes|));
    assert s4.diff == bytes && s4.pipe == [] by { assert [] + bytes[..|bytes|] == bytes; }
    EndingCompletes(s4);
    hide Next;
    RunCons(s3, ReadDiff(|bytes|), Ending());
    var t1 := [ReadDiff(|bytes|)] + Ending();
    RunCons(s2, SendDiff(|bytes|), t1);
    RunCons(s1, Feed(f), [SendDiff(|bytes|)] + t1);
    RunCons(s, Fork(snapshot), [Feed(f)] + ([SendDiff(|bytes|)] + t1));
  }

  lemma RunCons(s: State, step: Step, steps: seq<Step>)
    requires Enabled(s, step) && Valid(Next(s, step), steps)
    ensures Valid(s, [step] + steps) && Run(s, [step] + steps) == Run(Next(s, step), steps)
  {
    assert ([step] + steps)[1..] == steps;
  }

  // ---- meaning ----

  /** How commands are run: `empty` is the data set of a new server. */
  datatype Meaning<!D> = Meaning(empty: D, exec: (D, nat, Command) -> D, kind: Bytes -> Kind)

  /** The bytes are a log that replays to the data set, and ends with the database selected. */
  ghost predicate Replays<D>(m: Meaning<D>, bytes: Bytes, log: seq<Command>, data: D, selected: int) {
    && (forall i :: 0 <= i < |log| ==> |log[i]| > 0) && bytes == EncodeLog(log)
    && var d := PlayAll(Data(0, m.empty), Plain(log, m.kind), m.exec);
       d.data == data && (selected >= 0 ==> d.db == selected)
  }

  ghost predicate IsLogOf<D>(m: Meaning<D>, bytes: Bytes, data: D, selected: int) {
    exists log :: Replays(m, bytes, log, data, selected)
  }

  /** The snapshot replays to the data set at the fork, from which what was fed since leads to the live
      one. */
  ghost predicate ForkOk<D(!new)>(m: Meaning<D>, s: State, data: D) {
    AllOrdinary(s.fed) && exists fork :: IsLogOf(m, s.snapshot, fork, -1) && Live(fork, s.fed, m.exec, m.kind) == data
  }

  ghost predicate LogOk<D(!new)>(m: Meaning<D>, s: State, data: D) {
    && (!s.waitRewrite ==> IsLogOf(m, s.file + s.aofBuf, data, s.selected))
    && (!s.child.NoChild? ==> ForkOk(m, s, data))
  }

  /** The live data set after a step. */
  function LiveNext<D>(m: Meaning<D>, data: D, step: Step): D
    requires step.Feed? ==> Ordinary(step.f.cmds)
  {
    if step.Feed? then LiveIn(data, step.f.db, step.f.cmds, m.exec, m.kind) else data
  }

  /** Clients' commands are fed, and a child writes a snapshot of the data set it was forked with. */
  ghost predicate Sound<D>(m: Meaning<D>, data: D, step: Step) {
    && (step.Feed? ==> Ordinary(step.f.cmds))
    && (step.Fork? ==> IsLogOf(m, step.snapshot, data, -1))
  }

  lemma {:induction false} LiveSnoc<D>(m: Meaning<D>, data: D, fed: seq<Fed>, f: Fed)
    requires AllOrdinary(fed) && Ordinary(f.cmds)
    ensures AllOrdinary(fed + [f])
    ensures Live(data, fed + [f], m.exec, m.kind)
         == LiveIn(Live(data, fed, m.exec, m.kind), f.db, f.cmds, m.exec, m.kind)
    decreases |fed|
  {
    hide LiveIn, Ordinary;
    if fed == [] {
      assert (fed + [f])[1..] == [] && (fed + [f])[0] == f;
    } else {
      assert (fed + [f])[1..] == fed[1..] + [f] && (fed + [f])[0] == fed[0];
      LiveSnoc(m, LiveIn(data, fed[0].db, fed[0].cmds, m.exec, m.kind), fed[1..], f);
    }
  }

  /** What is fed extends the log. */
  lemma FeedExtends<D>(m: Meaning<D>, bytes: Bytes, data: D, selected: int, f: Fed)
    requires IsLogOf(m, bytes, data, selected) && Ordinary(f.cmds) && m.kind(SELECT) == Other
    ensures IsLogOf(m, bytes + EncodeLog(Logged(selected, f)), LiveIn(data, f.db, f.cmds, m.exec, m.kind), f.db)
  {
    hide EncodeLog, PlayAll, Plain, LiveIn, Logged;
    var log :| Replays(m, bytes, log, data, selected);
    var more := Logged(selected, f);
    var d := PlayAll(Data(0, m.empty), Plain(log, m.kind), m.exec);
    PlayLogged(d, selected, f, m.exec, m.kind);
    EncodeLogAppend(log, more);
    PlainAppend(log, more, m.kind);
    PlayAppend(Data(0, m.empty), Plain(log, m.kind), Plain(more, m.kind), m.exec);
    assert Replays(m, bytes + EncodeLog(more), log + more, LiveIn(data, f.db, f.cmds, m.exec, m.kind), f.db);
  }

  lemma FeedKeepsLogOk<D(!new)>(m: Meaning<D>, s: State, data: D, f: Fed)
    requires LogOk(m, s, data) && Ordinary(f.cmds) && m.kind(SELECT) == Other
    ensures LogOk(m, Next(s, Feed(f)), LiveIn(data, f.db, f.cmds, m.exec, m.kind))
  {
    hide EncodeLog, IsLogOf, Live, LiveIn, Logged;
    var s' := Next(s, Feed(f));
    if !s.waitRewrite {
      FeedExtends(m, s.file + s.aofBuf, data, s.selected, f);
      var bytes := EncodeLog(Logged(s.selected, f));
      assert s.file + (s.aofBuf + bytes) == s.file + s.aofBuf + bytes;
    }
    if !s.child.NoChild? {
      var fork :| IsLogOf(m, s.snapshot, fork, -1) && Live(fork, s.fed, m.exec, m.kind) == data;
      LiveSnoc(m, fork, s.fed, f);
      assert IsLogOf(m, s'.snapshot, fork, -1);
    }
  }

  lemma AdoptKeepsLogOk<D(!new)>(m: Meaning<D>, s: State, data: D, step: Step)
    requires LogOk(m, s, data) && Inv(s) && Enabled(s, step) && Adopts(s, step) && m.kind(SELECT) == Other
    ensures LogOk(m, Next(s, step), data)
  {
    hide EncodeLog, PlayAll, Plain, Live, LoggedAll, Inv, IsLogOf, Replays;
    RewrittenFile(s, step);
    var fork :| IsLogOf(m, s.snapshot, fork, -1) && Live(fork, s.fed, m.exec, m.kind) == data;
    RewrittenReplays(m, s, fork);
    var s' := Next(s, step);
    assert s'.file + s'.aofBuf == s'.file;
  }

  lemma RewrittenReplays<D>(m: Meaning<D>, s: State, fork: D)
    requires AllOrdinary(s.fed) && IsLogOf(m, s.snapshot, fork, -1) && m.kind(SELECT) == Other
    ensures IsLogOf(m, s.snapshot + EncodeLog(LoggedAll(-1, s.fed)), Live(fork, s.fed, m.exec, m.kind), -1)
  {
    hide EncodeLog, PlayAll, Plain, Live, LoggedAll;
    var log :| Replays(m, s.snapshot, log, fork, -1);
    var tail := LoggedAll(-1, s.fed);
    EncodeLogAppend(log, tail);
    LoggedNonEmpty(-1, s.fed);
    PlainAppend(log, tail, m.kind);
    PlayAppend(Data(0, m.empty), Plain(log, m.kind), Plain(tail, m.kind), m.exec);
    PlayLoggedAll(PlayAll(Data(0, m.empty), Plain(log, m.kind), m.exec), -1, s.fed, m.exec, m.kind);
    assert Replays(m, s.snapshot + EncodeLog(tail), log + tail, Live(fork, s.fed, m.exec, m.kind), -1);
  }

  lemma AnyDatabase<D>(m: Meaning<D>, bytes: Bytes, data: D, selected: int)
    requires IsLogOf(m, bytes, data, selected)
    ensures IsLogOf(m, bytes, data, -1)
  {
    hide EncodeLog, PlayAll, Plain;
    var log :| Replays(m, bytes, log, data, selected);
    assert Replays(m, bytes, log, data, -1);
  }

  lemma StepKeepsLogOk<D(!new)>(m: Meaning<D>, s: State, data: D, step: Step)
    requires LogOk(m, s, data) && Inv(s) && Enabled(s, step) && Sound(m, data, step) && m.kind(SELECT) == Other
    ensures LogOk(m, Next(s, step), LiveNext(m, data, step))
  {
    hide EncodeLog, IsLogOf, Inv, Live, LiveIn, Logged;
    if step.Feed? {
      FeedKeepsLogOk(m, s, data, step.f);
    } else if Adopts(s, step) {
      AdoptKeepsLogOk(m, s, data, step);
    } else {
      StepKeepsLog(s, step);
      var s' := Next(s, step);
      assert s.file + s.aofBuf + [] == s.file + s.aofBuf;
      if step.Fork? {
        if !s.waitRewrite { AnyDatabase(m, s.file + s.aofBuf, data, s.selected); }
        assert IsLogOf(m, s'.snapshot, data, -1) && Live(data, [], m.exec, m.kind) == data by { LiveNothing(m, data); }
      } else if !s'.child.NoChild? {
        assert ForkOk(m, s', data) by { SameFork(m, s, s', data); }
      }
    }
  }

  lemma LiveNothing<D>(m: Meaning<D>, data: D)
    ensures Live(data, [], m.exec, m.kind) == data
  {
  }

  lemma SameFork<D(!new)>(m: Meaning<D>, s: State, s': State, data: D)
    requires ForkOk(m, s, data) && s'.snapshot == s.snapshot && s'.fed == s.fed
    ensures ForkOk(m, s', data)
  {
    hide IsLogOf, Live, AllOrdinary;
    var fork :| IsLogOf(m, s.snapshot, fork, -1) && Live(fork, s.fed, m.exec, m.kind) == data;
    assert IsLogOf(m, s'.snapshot, fork, -1);
  }

  ghost predicate SoundRun<D>(m: Meaning<D>, data: D, steps: seq<Step>)
    decreases |steps|
  {
    steps != [] ==> Sound(m, data, steps[0]) && SoundRun(m, LiveNext(m, data, steps[0]), steps[1..])
  }

  /** The live data set after a run. */
  ghost function LiveAfter<D>(m: Meaning<D>, data: D, steps: seq<Step>): D
    requires SoundRun(m, data, steps)
    decreases |steps|
  {
    if steps == [] then data else LiveAfter(m, LiveNext(m, data, steps[0]), steps[1..])
  }

  lemma {:induction false} RunKeepsLogOk<D(!new)>(m: Meaning<D>, s: State, data: D, steps: seq<Step>)
    requires LogOk(m, s, data) && Inv(s) && Valid(s, steps) && SoundRun(m, data, steps) && m.kind(SELECT) == Other
    ensures LogOk(m, Run(s, steps), LiveAfter(m, data, steps))
    decreases |steps|
  {
    hide LogOk, Inv, Next, Enabled, Sound, LiveNext;
    if steps != [] {
      StepKeepsInv(s, steps[0]);
      LiveNextDefined(m, data, steps[0]);
      StepKeepsLogOk(m, s, data, steps[0]);
      RunKeepsLogOk(m, Next(s, steps[0]), LiveNext(m, data, steps[0]), steps[1..]);
    }
  }

  lemma LiveNextDefined<D>(m: Meaning<D>, data: D, step: Step)
    requires Sound(m, data, step)
    ensures step.Feed? ==> Ordinary(step.f.cmds)
  {
  }

  /** In every run from a log that replays to the data set, with any interleaving of feeds, writes and
      rewrites that fail or are adopted, file and buffer together are a log that replays to the live data
      set; if it leaves no transaction open, loading it gives the live data set. */
  lemma LogIsFaithful<D(!new)>(m: Meaning<D>, s0: State, data: D, steps: seq<Step>, truncated: bool)
    returns (log: seq<Command>)
    requires Idle(s0) && !s0.waitRewrite && IsLogOf(m, s0.file + s0.aofBuf, data, s0.selected)
    requires Valid(s0, steps) && SoundRun(m, data, steps) && m.kind(SELECT) == Other
    ensures var s := Run(s0, steps);
      && Replays(m, s.file + s.aofBuf, log, LiveAfter(m, data, steps), s.selected)
      && (GoodLog(log, m.kind) && Unnested(log, m.kind, false) && !RunLog(log, m.kind, FreshClient()).inMulti ==>
        var o := Load(s.file + s.aofBuf, m.kind, truncated);
        && (o.Loaded? || o.EmptyFile?)
        && PlayAll(Data(0, m.empty), Ran(o), m.exec).data == LiveAfter(m, data, steps))
  {
    hide Next, EncodeLog, PlayAll, Plain, RunLog, Unnested, Load, LiveAfter, Run, GoodLog;
    RunKeepsLogOk(m, s0, data, steps);
    var s := Run(s0, steps);
    NeverWaits(s0, steps);
    log :| Replays(m, s.file + s.aofBuf, log, LiveAfter(m, data, steps), s.selected);
    if GoodLog(log, m.kind) && Unnested(log, m.kind, false) && !RunLog(log, m.kind, FreshClient()).inMulti {
      LoadLog(log, m.kind, truncated);
    }
  }

  lemma {:induction false} NeverWaits(s: State, steps: seq<Step>)
    requires !s.waitRewrite && Valid(s, steps)
    ensures !Run(s, steps).waitRewrite
    decreases |steps|
  {
    hide EncodeLog, Logged;
    if steps != [] { NeverWaits(Next(s, steps[0]), steps[1..]); }
  }
}
