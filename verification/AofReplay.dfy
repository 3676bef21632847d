/** The rewritten file in terms of the commands that clients ran: each with the time read when it ran
    and the time read when it was fed. */
module AofReplay {
  import opened AofFormat
  import opened AofLoad
  import opened AofRewrite
  import opened AofFeed

  /** A command that ran in a database at time `ran` and was fed at time `fed`. */
  datatype Call = Call(db: nat, p: Proc, argv: Command, ran: int, fed: int)

  type Dbs = map<nat, Store>

  function In(d: Dbs, db: nat): Store {
    if db in d then d[db] else map[]
  }

  /** What running a command means to a server: its command table, the kinds of commands and the
      effect of commands without a time. */
  datatype Server = Server(procOf: Bytes -> Proc, kind: Bytes -> Kind, other: (Store, Command) -> Store)

  /** One logged command when the file is loaded at time `later`. */
  function ExecAt(v: Server, later: int): (Dbs, nat, Command) -> Dbs {
    (d: Dbs, db: nat, c: Command) => d[db := Replay(In(d, db), [c], later, v.procOf, v.other)]
  }

  /** A call that is propagated and logged. MULTI and EXEC are no commands with a time. */
  predicate GoodCall(v: Server, c: Call) {
    && |c.argv| >= Arity(c.p) && c.argv[0] != SELECT && Table(c.p, c.argv, v.procOf)
    && TimesInRange(c.p, c.argv, c.fed) && IsLogged(c.p, c.argv)
    && (v.kind(c.argv[0]) == Other || c.p.OtherProc?)
  }

  predicate GoodCalls(v: Server, calls: seq<Call>) {
    v.kind(SET) == Other && v.kind(PEXPIREAT) == Other && forall i :: 0 <= i < |calls| ==> GoodCall(v, calls[i])
  }

  function FedOf(v: Server, calls: seq<Call>): seq<Fed>
    requires GoodCalls(v, calls)
    decreases |calls|
  {
    if calls == [] then []
    else [Fed(calls[0].db, Translate(calls[0].p, calls[0].argv, calls[0].fed))] + FedOf(v, calls[1..])
  }

  /** The effect of a call at a time; MULTI and EXEC do nothing themselves. */
  function CallEffect(v: Server, d: Dbs, c: Call, at: int): Dbs
    requires GoodCall(v, c)
  {
    if v.kind(c.argv[0]) == Other then d[c.db := Effect(In(d, c.db), c.p, c.argv, at, v.other)] else d
  }

  /** The data set after the calls, each at the time it ran, or at the time it was fed. */
  function After(v: Server, d: Dbs, calls: seq<Call>, asFed: bool): Dbs
    requires GoodCalls(v, calls)
    decreases |calls|
  {
    if calls == [] then d
    else After(v, CallEffect(v, d, calls[0], if asFed then calls[0].fed else calls[0].ran), calls[1..], asFed)
  }

  /** No call whose effect depends on the clock saw the clock move before it was fed. */
  predicate Steady(v: Server, d: Dbs, calls: seq<Call>)
    requires GoodCalls(v, calls)
    decreases |calls|
  {
    calls == [] ||
    var c := calls[0];
    && (c.fed == c.ran || !ClockMatters(In(d, c.db), c.p, c.argv))
    && Steady(v, CallEffect(v, d, c, c.ran), calls[1..])
  }

  // ---- one call ----

  lemma {:induction false} ReplayAppend(v: Server, d: Store, a: seq<Command>, b: seq<Command>, later: int)
    ensures Replay(d, a + b, later, v.procOf, v.other)
         == Replay(Replay(d, a, later, v.procOf, v.other), b, later, v.procOf, v.other)
    decreases |a|
  {
    hide Effect;
    if a == [] {
      assert a + b == b;
    } else {
      var e := if |a[0]| == 0 || |a[0]| < Arity(v.procOf(a[0][0])) then d
               else Effect(d, v.procOf(a[0][0]), a[0], later, v.other);
      assert (a + b)[0] == a[0] && (a + b)[1..] == a[1..] + b;
      ReplayAppend(v, e, a[1..], b, later);
    }
  }

  /** Commands run one after the other in one database. */
  lemma {:induction false} LiveInReplays(v: Server, d: Dbs, db: nat, cmds: seq<Command>, later: int)
    requires Ordinary(cmds) && cmds != [] && forall i :: 0 <= i < |cmds| ==> v.kind(cmds[i][0]) == Other
    ensures LiveIn(d, db, cmds, ExecAt(v, later), v.kind)
         == d[db := Replay(In(d, db), cmds, later, v.procOf, v.other)]
    decreases |cmds|
  {
    hide Replay;
    var e := ExecAt(v, later)(d, db, cmds[0]);
    assert cmds == [cmds[0]] + cmds[1..];
    ReplayAppend(v, In(d, db), [cmds[0]], cmds[1..], later);
    if |cmds| == 1 {
      ReplayNothing(In(e, db), later, v.procOf, v.other);
    } else {
      LiveInReplays(v, e, db, cmds[1..], later);
    }
  }

  lemma TranslateOrdinary(v: Server, c: Call)
    requires GoodCall(v, c) && v.kind(SET) == Other && v.kind(PEXPIREAT) == Other
    ensures var cmds := Translate(c.p, c.argv, c.fed);
      && Ordinary(cmds) && cmds != []
      && (v.kind(c.argv[0]) == Other ==> forall i :: 0 <= i < |cmds| ==> v.kind(cmds[i][0]) == Other)
      && (v.kind(c.argv[0]) != Other ==> cmds == [c.argv])
  {
    hide ScanOptions, ParseOptions, DecimalOf, When;
  }

  lemma CallReplays(v: Server, d: Dbs, c: Call, later: int)
    requires GoodCall(v, c) && v.kind(SET) == Other && v.kind(PEXPIREAT) == Other
    ensures var cmds := Translate(c.p, c.argv, c.fed);
      Ordinary(cmds) && LiveIn(d, c.db, cmds, ExecAt(v, later), v.kind) == CallEffect(v, d, c, c.fed)
  {
    hide Translate, Effect, Replay, TimesInRange;
    TranslateOrdinary(v, c);
    var cmds := Translate(c.p, c.argv, c.fed);
    if v.kind(c.argv[0]) == Other {
      LiveInReplays(v, d, c.db, cmds, later);
      LoggedEffect(In(d, c.db), c.p, c.argv, c.fed, later, v.procOf, v.other);
    } else {
      assert cmds[1..] == [];
    }
  }

  // ---- all calls ----

  lemma {:induction false} CallsReplay(v: Server, d: Dbs, calls: seq<Call>, later: int)
    requires GoodCalls(v, calls)
    ensures AllOrdinary(FedOf(v, calls))
    ensures Live(d, FedOf(v, calls), ExecAt(v, later), v.kind) == After(v, d, calls, true)
    decreases |calls|
  {
    hide LiveIn, Translate, CallEffect, IsLogged, TimesInRange, Ordinary;
    if calls != [] {
      var c, fed := calls[0], FedOf(v, calls);
      CallReplays(v, d, c, later);
      CallsReplay(v, CallEffect(v, d, c, c.fed), calls[1..], later);
      assert fed[0] == Fed(c.db, Translate(c.p, c.argv, c.fed)) && fed[1..] == FedOf(v, calls[1..]);
    }
  }

  lemma {:induction false} SteadyAgrees(v: Server, d: Dbs, calls: seq<Call>)
    requires GoodCalls(v, calls) && Steady(v, d, calls)
    ensures After(v, d, calls, true) == After(v, d, calls, false)
    decreases |calls|
  {
    hide Effect, ClockMatters, Translate;
    if calls != [] {
      var c := calls[0];
      EffectAtTwoTimes(In(d, c.db), c.p, c.argv, c.fed, c.ran, v.other);
      SteadyAgrees(v, CallEffect(v, d, c, c.ran), calls[1..]);
    }
  }

  /** Loading and replaying the rewritten file gives the data set at the fork with the effect of every
      call since, each at the time it was fed; it is the live data set if no call whose effect depends
      on the clock saw the clock move before it was fed. */
  lemma RewriteKeepsCalls(
      v: Server, s: State, step: Step, snapLog: seq<Command>, forkData: Dbs, calls: seq<Call>, later: int,
      truncated: bool)
    requires GoodCalls(v, calls) && s.fed == FedOf(v, calls) && v.kind(SELECT) == Other
    requires Inv(s) && Enabled(s, step) && Adopts(s, step)
    requires var log := snapLog + LoggedAll(-1, s.fed);
      GoodLog(log, v.kind) && Unnested(log, v.kind, false) && !RunLog(log, v.kind, FreshClient()).inMulti
    requires s.snapshot == EncodeLog(snapLog) && (forall i :: 0 <= i < |snapLog| ==> |snapLog[i]| > 0)
    requires PlayAll(Data(0, map[]), Plain(snapLog, v.kind), ExecAt(v, later)).data == forkData
    ensures var o := Load(Next(s, step).file, v.kind, truncated);
      var replayed := PlayAll(Data(0, map[]), Ran(o), ExecAt(v, later)).data;
      && (o.Loaded? || o.EmptyFile?) && replayed == After(v, forkData, calls, true)
      && (Steady(v, forkData, calls) ==> replayed == After(v, forkData, calls, false))
  {
    hide FedOf, Inv, EncodeLog, PlayAll, Plain, RunLog, Unnested, Live, After, Steady, GoodCall, Load, LoggedAll;
    CallsReplay(v, forkData, calls, later);
    RewriteIsFaithful(s, step, snapLog, forkData, map[], ExecAt(v, later), v.kind, truncated);
    if Steady(v, forkData, calls) { SteadyAgrees(v, forkData, calls); }
  }
}
