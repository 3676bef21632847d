/** Background rewrite of the append only file: the parent keeps feeding commands while a child
    writes the snapshot and takes over the difference through a pipe. */
module AofRewrite {
  import opened AofFormat
  import opened AofLoad

  /** What the child is doing; Exited(ok) when it has ended. */
  datatype Child = NoChild | Working | Asked | Acked | Exited(ok: bool)

  datatype State = State(
    waitRewrite: bool,        // aof_state is AOF_WAIT_REWRITE, not AOF_ON
    file: Bytes,              // the append only file
    aofBuf: Bytes,            // aof_buf
    selected: int,            // aof_selected_db
    buffer: Bytes,            // contents of the rewrite buffer
    stop: bool,               // aof_stop_sending_diff
    pipe: Bytes,              // data sent and not read yet
    askInFlight: bool,        // '!' from child to parent
    ackInFlight: bool,        // '!' from parent to child
    child: Child,
    snapshot: Bytes,          // what the child writes for the data set at the fork
    diff: Bytes,              // aof_child_diff
    temp: Bytes,              // the child's finished file
    fed: seq<Fed>)            // history: commands fed since the fork

  /** Commands fed for a database: the logged form of one command. */
  datatype Fed = Fed(db: nat, cmds: seq<Command>)

  const SELECT: Bytes := [83, 69, 76, 69, 67, 84]

  function Select(db: nat): Command { [SELECT, Decimal(db)] }

  /** Commands that feedAppendOnlyFile appends when `selected` is the last database written. */
  function Logged(selected: int, f: Fed): seq<Command> {
    (if f.db != selected then [Select(f.db)] else []) + f.cmds
  }

  /** The bytes feedAppendOnlyFile appends to its buffers. */
  method FeedBytes(selected: int, f: Fed) returns (buf: Bytes)
    ensures buf == EncodeLog(Logged(selected, f))
  {
    hide Encode, Decimal;
    buf := [];
    if f.db != selected {
      buf := CatCommand(buf, Select(f.db));
      EncodeLogSnoc([], Select(f.db));
    }
    ghost var start: seq<Command> := if f.db != selected then [Select(f.db)] else [];
    assert f.cmds[..0] == [];
    var i := 0;
    while i < |f.cmds|
      invariant 0 <= i <= |f.cmds| && buf == EncodeLog(start + f.cmds[..i])
    {
      buf := CatCommand(buf, f.cmds[i]);
      EncodeLogSnoc(start + f.cmds[..i], f.cmds[i]);
      assert start + f.cmds[..i] + [f.cmds[i]] == start + f.cmds[..i + 1];
      i := i + 1;
    }
    assert f.cmds[..i] == f.cmds;
  }

  lemma EncodeLogSnoc(log: seq<Command>, argv: Command)
    ensures EncodeLog(log + [argv]) == EncodeLog(log) + Encode(argv)
  {
    hide Encode;
    EncodeLogAppend(log, [argv]);
    assert [argv][1..] == [];
    assert Encode(argv) + [] == Encode(argv);
  }

  function LoggedAll(selected: int, fed: seq<Fed>): seq<Command>
    decreases |fed|
  {
    if fed == [] then [] else Logged(selected, fed[0]) + LoggedAll(fed[0].db, fed[1..])
  }

  function LastDb(selected: int, fed: seq<Fed>): int { if fed == [] then selected else fed[|fed| - 1].db }

  datatype Step =
    | Fork(snapshot: Bytes)
    | Feed(f: Fed)
    | SendDiff(n: nat)
    | ReadDiff(n: nat)
    | AskStop
    | HandleStop(ackSent: bool)
    | ReceiveAck
    | FinishChild
    | ChildFails
    | FlushFile(n: nat)
    | Done(written: bool, renamed: bool)

  /** The step applies; the file descriptor is open throughout (AOF not off). */
  predicate Enabled(s: State, step: Step) {
    match step
    case Fork(_) => s.child == NoChild
    case Feed(_) => true
    case SendDiff(n) => !s.child.NoChild? && !s.stop && n <= |s.buffer|
    case ReadDiff(n) => s.child.Working? && n <= |s.pipe|
    case AskStop => s.child == Working
    case HandleStop(_) => !s.child.NoChild? && s.askInFlight
    case ReceiveAck => s.child == Asked && s.ackInFlight
    case FinishChild => s.child == Acked
    case ChildFails => s.child == Working || s.child == Asked || s.child == Acked
    case FlushFile(n) => !s.waitRewrite && n <= |s.aofBuf|
    case Done(_, _) => s.child.Exited?
  }

  /** aofClosePipes, aofRewriteBufferReset and the reset of the child pid. */
  function Cleanup(s: State): State {
    s.(buffer := [], pipe := [], askInFlight := false, ackInFlight := false, child := NoChild, diff := [], temp := [])
  }

  function Next(s: State, step: Step): State
    requires Enabled(s, step)
  {
    match step
    case Fork(snap) =>
      s.(child := Working, snapshot := snap, diff := [], pipe := [], stop := false, selected := -1, fed := [],
         askInFlight := false, ackInFlight := false)
    case Feed(f) =>
      var bytes := EncodeLog(Logged(s.selected, f));
      s.(selected := f.db,
         aofBuf := if s.waitRewrite then s.aofBuf else s.aofBuf + bytes,
         buffer := if s.child.NoChild? then s.buffer else s.buffer + bytes,
         fed := if s.child.NoChild? then s.fed else s.fed + [f])
    case SendDiff(n) => s.(buffer := s.buffer[n..], pipe := s.pipe + s.buffer[..n])
    case ReadDiff(n) => s.(diff := s.diff + s.pipe[..n], pipe := s.pipe[n..])
    case AskStop => s.(child := Asked, askInFlight := true)
    case HandleStop(ackSent) => s.(askInFlight := false, stop := true, ackInFlight := ackSent)
    case ReceiveAck => s.(child := Acked, ackInFlight := false)
    case FinishChild =>
      s.(child := Exited(true), diff := s.diff + s.pipe, pipe := [], temp := s.snapshot + (s.diff + s.pipe))
    case ChildFails => s.(child := Exited(false))
    case FlushFile(n) => s.(file := s.file + s.aofBuf[..n], aofBuf := s.aofBuf[n..])
    case Done(written, renamed) =>
      if s.child.ok && written && renamed then
        Cleanup(s.(file := s.temp + s.buffer, aofBuf := [], selected := -1, waitRewrite := false))
      else Cleanup(s)
  }

  // ---- invariant ----

  /** While a child is at work: diff, pipe and buffer hold, in this order, exactly the bytes fed
      since the fork; an acknowledged child knows that nothing more will enter the pipe. */
  ghost predicate Inv(s: State) {
    && (s.child.NoChild? ==> s.buffer == [] && !s.askInFlight && !s.ackInFlight)
    && (!s.child.NoChild? ==>
         && s.diff + s.pipe + s.buffer == EncodeLog(LoggedAll(-1, s.fed))
         && s.selected == LastDb(-1, s.fed)
         && (s.ackInFlight || s.child.Acked? || s.child == Exited(true) ==> s.stop)
         && (s.child == Exited(true) ==> s.pipe == [] && s.temp == s.snapshot + s.diff))
    && s.selected >= -1
  }

  lemma LoggedAllFirst(selected: int, fed: seq<Fed>)
    requires fed != []
    ensures LoggedAll(selected, fed) == Logged(selected, fed[0]) + LoggedAll(fed[0].db, fed[1..])
  {
  }

  lemma {:induction false} LoggedAllAppend(selected: int, fed: seq<Fed>, f: Fed)
    ensures LoggedAll(selected, fed + [f]) == LoggedAll(selected, fed) + Logged(LastDb(selected, fed), f)
    decreases |fed|
  {
    hide Logged;
    if fed == [] {
      assert (fed + [f])[1..] == [];
      assert LoggedAll(f.db, []) == [];
      assert Logged(selected, f) + [] == [] + Logged(selected, f);
    } else {
      LoggedAllAppend(fed[0].db, fed[1..], f);
      assert (fed + [f])[1..] == fed[1..] + [f] && (fed + [f])[0] == fed[0];
      assert LastDb(fed[0].db, fed[1..]) == LastDb(selected, fed);
      LoggedAllFirst(selected, fed + [f]);
      LoggedAllFirst(selected, fed);
      hide LoggedAll, LastDb;
      var a, b, c := Logged(selected, fed[0]), LoggedAll(fed[0].db, fed[1..]), Logged(LastDb(selected, fed), f);
      assert a + (b + c) == a + b + c;
    }
  }

  lemma LastDbAppend(selected: int, fed: seq<Fed>, f: Fed)
    ensures LastDb(selected, fed + [f]) == f.db
  {
  }

  lemma FeedKeepsInv(s: State, f: Fed)
    requires Inv(s)
    ensures Inv(Next(s, Feed(f)))
  {
    hide EncodeLog, LoggedAll, Logged, LastDb;
    if !s.child.NoChild? {
      LastDbAppend(-1, s.fed, f);
      var bytes := EncodeLog(Logged(s.selected, f));
      LoggedAllAppend(-1, s.fed, f);
      EncodeLogAppend(LoggedAll(-1, s.fed), Logged(s.selected, f));
      assert s.diff + s.pipe + (s.buffer + bytes) == (s.diff + s.pipe + s.buffer) + bytes;
    }
  }

  /** Every step keeps the invariant, in any interleaving. */
  lemma StepKeepsInv(s: State, step: Step)
    requires Inv(s) && Enabled(s, step)
    ensures Inv(Next(s, step))
  {
    hide EncodeLog, Logged;
    match step
    case Feed(f) => FeedKeepsInv(s, f);
    case SendDiff(n) =>
      assert s.buffer == s.buffer[..n] + s.buffer[n..];
      assert s.diff + (s.pipe + s.buffer[..n]) + s.buffer[n..] == s.diff + s.pipe + s.buffer;
    case ReadDiff(n) =>
      assert s.pipe == s.pipe[..n] + s.pipe[n..];
      assert (s.diff + s.pipe[..n]) + s.pipe[n..] + s.buffer == s.diff + s.pipe + s.buffer;
    case FinishChild =>
      assert (s.diff + s.pipe) + [] + s.buffer == s.diff + s.pipe + s.buffer;
    case Fork(_) => EmptyLogged();
    case _ =>
  }

  lemma EmptyLogged()
    ensures EncodeLog(LoggedAll(-1, [])) == [] && LastDb(-1, []) == -1
  {
  }

  /** The parent adopts the rewritten file. */
  predicate Adopts(s: State, step: Step) { step.Done? && s.child == Exited(true) && step.written && step.renamed }

  /** A successful rewrite leaves the snapshot followed by exactly the bytes fed since the fork. */
  lemma RewrittenFile(s: State, step: Step)
    requires Inv(s) && Enabled(s, step) && Adopts(s, step)
    ensures var s' := Next(s, step);
      && s'.file == s.snapshot + EncodeLog(LoggedAll(-1, s.fed))
      && s'.aofBuf == [] && s'.selected == -1 && !s'.waitRewrite
  {
    hide EncodeLog, LoggedAll;
    assert s.diff + [] + s.buffer == s.diff + s.buffer;
    assert (s.snapshot + s.diff) + s.buffer == s.snapshot + (s.diff + s.buffer);
  }

  // ---- whole runs ----

  ghost predicate Valid(s: State, steps: seq<Step>)
    decreases |steps|
  {
    steps != [] ==> Enabled(s, steps[0]) && Valid(Next(s, steps[0]), steps[1..])
  }

  ghost function Run(s: State, steps: seq<Step>): State
    requires Valid(s, steps)
    decreases |steps|
  {
    if steps == [] then s else Run(Next(s, steps[0]), steps[1..])
  }

  lemma {:induction false} RunKeepsInv(s: State, steps: seq<Step>)
    requires Inv(s) && Valid(s, steps)
    ensures Inv(Run(s, steps))
    decreases |steps|
  {
    hide Inv, Next, Enabled;
    if steps != [] {
      StepKeepsInv(s, steps[0]);
      RunKeepsInv(Next(s, steps[0]), steps[1..]);
    }
  }

  /** No child yet, nothing buffered for one. */
  ghost predicate Idle(s: State) {
    s.child.NoChild? && s.buffer == [] && !s.askInFlight && !s.ackInFlight && s.selected >= -1
  }

  /** In every run, a rewrite adopted after something was fed gives the snapshot, then a SELECT of the
      database of the first command fed, then the rest of what was fed. */
  lemma StartsWithSelect(s0: State, steps: seq<Step>, step: Step)
    requires Idle(s0) && Valid(s0, steps) && Enabled(Run(s0, steps), step) && Adopts(Run(s0, steps), step)
    requires Run(s0, steps).fed != []
    ensures var s := Run(s0, steps);
      var f := s.fed[0];
      Next(s, step).file == s.snapshot + Encode(Select(f.db)) + EncodeLog(f.cmds + LoggedAll(f.db, s.fed[1..]))
  {
    hide Encode, Next, Enabled, Run, Valid;
    RunKeepsInv(s0, steps);
    var s := Run(s0, steps);
    var f := s.fed[0];
    RewrittenFile(s, step);
    var rest := f.cmds + LoggedAll(f.db, s.fed[1..]);
    assert LoggedAll(-1, s.fed) == [Select(f.db)] + rest;
    assert ([Select(f.db)] + rest)[1..] == rest;
    assert s.snapshot + (Encode(Select(f.db)) + EncodeLog(rest)) == s.snapshot + Encode(Select(f.db)) + EncodeLog(rest);
  }

  // ---- replaying the file ----

  /** A data set with the database selected. */
  datatype Data<D> = Data(db: nat, data: D)

  /** Running one logged command: SELECT changes database, anything else is up to `exec`. */
  function Play<D>(d: Data<D>, argv: Command, exec: (D, nat, Command) -> D): Data<D> {
    if |argv| == 2 && argv[0] == SELECT then (if ParseInt(argv[1]) >= 0 then d.(db := ParseInt(argv[1])) else d)
    else d.(data := exec(d.data, d.db, argv))
  }

  function PlayAll<D>(d: Data<D>, log: seq<Command>, exec: (D, nat, Command) -> D): Data<D>
    decreases |log|
  {
    if log == [] then d else PlayAll(Play(d, log[0], exec), log[1..], exec)
  }

  /** Commands of a client: not empty, and no SELECT, which is not propagated. */
  predicate Ordinary(cmds: seq<Command>) {
    forall i :: 0 <= i < |cmds| ==> |cmds[i]| > 0 && cmds[i][0] != SELECT
  }

  predicate AllOrdinary(fed: seq<Fed>) {
    forall i :: 0 <= i < |fed| ==> Ordinary(fed[i].cmds)
  }

  /** The live data set after commands run in one database; MULTI and EXEC do nothing themselves. */
  function LiveIn<D>(data: D, db: nat, cmds: seq<Command>, exec: (D, nat, Command) -> D, kind: Bytes -> Kind): D
    requires Ordinary(cmds)
    decreases |cmds|
  {
    if cmds == [] then data
    else LiveIn(if kind(cmds[0][0]) == Other then exec(data, db, cmds[0]) else data, db, cmds[1..], exec, kind)
  }

  /** The live data set after the commands fed, each run in its own database. */
  function Live<D>(data: D, fed: seq<Fed>, exec: (D, nat, Command) -> D, kind: Bytes -> Kind): D
    requires AllOrdinary(fed)
    decreases |fed|
  {
    if fed == [] then data else Live(LiveIn(data, fed[0].db, fed[0].cmds, exec, kind), fed[1..], exec, kind)
  }

  lemma {:induction false} PlayAppend<D>(d: Data<D>, a: seq<Command>, b: seq<Command>, exec: (D, nat, Command) -> D)
    ensures PlayAll(d, a + b, exec) == PlayAll(PlayAll(d, a, exec), b, exec)
    decreases |a|
  {
    if a == [] {
      assert a + b == b;
    } else {
      assert (a + b)[1..] == a[1..] + b;
      PlayAppend(Play(d, a[0], exec), a[1..], b, exec);
    }
  }

  lemma {:induction false} PlainAppend(a: seq<Command>, b: seq<Command>, kind: Bytes -> Kind)
    requires forall i :: 0 <= i < |a| ==> |a[i]| > 0
    requires forall i :: 0 <= i < |b| ==> |b[i]| > 0
    ensures Plain(a + b, kind) == Plain(a, kind) + Plain(b, kind)
    decreases |a|
  {
    if a == [] {
      assert a + b == b;
    } else {
      assert (a + b)[1..] == a[1..] + b && (a + b)[0] == a[0];
      PlainAppend(a[1..], b, kind);
    }
  }

  lemma {:induction false} PlayOrdinary<D>(
      d: Data<D>, cmds: seq<Command>, exec: (D, nat, Command) -> D, kind: Bytes -> Kind)
    requires Ordinary(cmds)
    ensures PlayAll(d, Plain(cmds, kind), exec) == Data(d.db, LiveIn(d.data, d.db, cmds, exec, kind))
    decreases |cmds|
  {
    if cmds != [] {
      var first: seq<Command> := if kind(cmds[0][0]) == Other then [cmds[0]] else [];
      PlayAppend(d, first, Plain(cmds[1..], kind), exec);
      assert kind(cmds[0][0]) == Other ==> first[1..] == [];
      PlayOrdinary(PlayAll(d, first, exec), cmds[1..], exec, kind);
    }
  }

  /** A SELECT is read back as its database. */
  lemma PlaySelect<D>(d: Data<D>, db: nat, exec: (D, nat, Command) -> D)
    ensures PlayAll(d, [Select(db)], exec) == d.(db := db)
  {
    hide Decimal;
    DecimalDigits(db);
    DecimalParses(db);
    ParseIntDigits(Decimal(db), []);
    assert Decimal(db) + [] == Decimal(db);
    assert [Select(db)][1..] == [];
  }

  lemma PlayLogged<D>(d: Data<D>, selected: int, f: Fed, exec: (D, nat, Command) -> D, kind: Bytes -> Kind)
    requires Ordinary(f.cmds) && kind(SELECT) == Other && (selected >= 0 ==> d.db == selected)
    ensures forall i :: 0 <= i < |Logged(selected, f)| ==> |Logged(selected, f)[i]| > 0
    ensures PlayAll(d, Plain(Logged(selected, f), kind), exec)
         == Data(f.db, LiveIn(d.data, f.db, f.cmds, exec, kind))
  {
    hide PlayAll, Decimal;
    if f.db != selected {
      var sel := [Select(f.db)];
      PlainAppend(sel, f.cmds, kind);
      assert Plain(sel, kind) == sel by { assert sel[1..] == []; }
      PlaySelect(d, f.db, exec);
      PlayAppend(d, sel, Plain(f.cmds, kind), exec);
      PlayOrdinary(d.(db := f.db), f.cmds, exec, kind);
    } else {
      assert Logged(selected, f) == f.cmds;
      PlayOrdinary(d, f.cmds, exec, kind);
    }
  }

  lemma {:induction false} LoggedNonEmpty(selected: int, fed: seq<Fed>)
    requires AllOrdinary(fed)
    ensures forall i :: 0 <= i < |LoggedAll(selected, fed)| ==> |LoggedAll(selected, fed)[i]| > 0
    decreases |fed|
  {
    hide Decimal;
    if fed != [] { LoggedNonEmpty(fed[0].db, fed[1..]); }
  }

  lemma {:induction false} PlayLoggedAll<D>(
      d: Data<D>, selected: int, fed: seq<Fed>, exec: (D, nat, Command) -> D, kind: Bytes -> Kind)
    requires AllOrdinary(fed) && kind(SELECT) == Other && (selected >= 0 ==> d.db == selected)
    ensures forall i :: 0 <= i < |LoggedAll(selected, fed)| ==> |LoggedAll(selected, fed)[i]| > 0
    ensures PlayAll(d, Plain(LoggedAll(selected, fed), kind), exec).data == Live(d.data, fed, exec, kind)
    decreases |fed|
  {
    hide Plain, LiveIn, Logged;
    LoggedNonEmpty(selected, fed);
    if fed == [] {
      NothingPlain(kind);
    } else {
      var f, rest := fed[0], LoggedAll(fed[0].db, fed[1..]);
      PlayLogged(d, selected, f, exec, kind);
      LoggedNonEmpty(f.db, fed[1..]);
      PlainAppend(Logged(selected, f), rest, kind);
      PlayAppend(d, Plain(Logged(selected, f), kind), Plain(rest, kind), exec);
      PlayLoggedAll(Data(f.db, LiveIn(d.data, f.db, f.cmds, exec, kind)), f.db, fed[1..], exec, kind);
    }
  }

  lemma NothingPlain(kind: Bytes -> Kind)
    ensures Plain([], kind) == []
  {
  }

  /** The commands run by loading a file. */
  function Ran(o: Outcome): seq<Command> {
    if o.Loaded? || o.Truncated? then o.executed else []
  }

  /** Loading the rewritten file, with transactions and either setting of aof-load-truncated, and
      replaying it gives the live data set, when the snapshot written by the child replays to the data
      set at the fork. A rewrite is adopted between transactions, not within one. */
  lemma RewriteIsFaithful<D>(
      s: State, step: Step, snapLog: seq<Command>, forkData: D, empty: D, exec: (D, nat, Command) -> D,
      kind: Bytes -> Kind, truncated: bool)
    requires Inv(s) && Enabled(s, step) && Adopts(s, step) && AllOrdinary(s.fed) && kind(SELECT) == Other
    requires var log := snapLog + LoggedAll(-1, s.fed);
      GoodLog(log, kind) && Unnested(log, kind, false) && !RunLog(log, kind, FreshClient()).inMulti
    requires s.snapshot == EncodeLog(snapLog) && (forall i :: 0 <= i < |snapLog| ==> |snapLog[i]| > 0)
    requires PlayAll(Data(0, empty), Plain(snapLog, kind), exec).data == forkData
    ensures var o := Load(Next(s, step).file, kind, truncated);
      (o.Loaded? || o.EmptyFile?) && PlayAll(Data(0, empty), Ran(o), exec).data == Live(forkData, s.fed, exec, kind)
  {
    hide EncodeLog, LoggedAll, PlayAll, Live, Inv, Plain, RunLog, Unnested, LoadLoop;
    var tail := LoggedAll(-1, s.fed);
    var log := snapLog + tail;
    RewrittenFile(s, step);
    EncodeLogAppend(snapLog, tail);
    LoggedNonEmpty(-1, s.fed);
    PlainAppend(snapLog, tail, kind);
    LoadLog(log, kind, truncated);
    PlayAppend(Data(0, empty), Plain(snapLog, kind), Plain(tail, kind), exec);
    PlayLoggedAll(PlayAll(Data(0, empty), Plain(snapLog, kind), exec), -1, s.fed, exec, kind);
  }

  /** Loading a log, which may be empty, runs its commands. */
  lemma LoadLog(log: seq<Command>, kind: Bytes -> Kind, truncated: bool)
    requires GoodLog(log, kind) && Unnested(log, kind, false) && !RunLog(log, kind, FreshClient()).inMulti
    ensures var o := Load(EncodeLog(log), kind, truncated); (o.Loaded? || o.EmptyFile?) && Ran(o) == Plain(log, kind)
  {
    hide LoadLoop, Encode;
    if log != [] { LoadRunsPlain(log, kind, truncated); }
  }
}
