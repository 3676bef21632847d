/** feedAppendOnlyFile: commands with a relative time to live are logged with an absolute one, so
    that replaying the log later has the effect the command had when it was fed. The clock is read
    when the command runs and again when it is fed. */
module AofFeed {
  import opened Wrappers
  import opened AofFormat
  import opened AofRewrite

  /** The command procedures that matter here. */
  datatype Proc = Expire | PExpire | ExpireAt | PExpireAt | SetEx | PSetEx | SetProc | OtherProc

  const SET: Bytes := [83, 69, 84]
  const PEXPIREAT: Bytes := [80, 69, 88, 80, 73, 82, 69, 65, 84]

  /** A two-letter word in any case, given in upper case. */
  predicate Spells(b: Bytes, x: byte, y: byte) {
    |b| == 2 && (b[0] == x || b[0] == x + 32) && (b[1] == y || b[1] == y + 32)
  }

  predicate IsEx(b: Bytes) { Spells(b, 69, 88) }
  predicate IsPx(b: Bytes) { Spells(b, 80, 88) }

  // ---- times ----

  /** A number as text. */
  function DecimalOf(n: int): Bytes {
    if n < 0 then [MINUS] + Decimal(0 - n) else Decimal(n)
  }

  /** The absolute time in milliseconds that catAppendOnlyExpireAtCommand computes. */
  function When(p: Proc, arg: Bytes, now: int): int {
    (if p.Expire? || p.SetEx? || p.ExpireAt? then StrToL(arg) * 1000 else StrToL(arg))
    + if p.Expire? || p.PExpire? || p.SetEx? || p.PSetEx? then now else 0
  }

  predicate InLong(n: int) { 0 - LONG_LIMIT <= n < LONG_LIMIT }

  lemma TextReadsBack(n: int)
    requires InLong(n)
    ensures StrToL(DecimalOf(n)) == n
  {
    var m := if n < 0 then 0 - n else n;
    DecimalDigits(m);
    DecimalParses(m);
    if n < 0 {
      assert DecimalOf(n)[1..] == Decimal(m);
      assert SkipSpaces(DecimalOf(n)) == DecimalOf(n);
    } else {
      ParseIntDigits(Decimal(m), []);
      assert Decimal(m) + [] == Decimal(m);
    }
  }

  // ---- translation ----

  /** The loop over the options of SET: the arguments that follow EX and PX. */
  function ScanOptions(argv: Command, i: nat, ex: Option<Bytes>, px: Option<Bytes>): (Option<Bytes>, Option<Bytes>)
    decreases |argv| - i
  {
    if i >= |argv| then (ex, px)
    else
      var next := if i + 1 < |argv| then Some(argv[i + 1]) else None;
      ScanOptions(argv, i + 1, if IsEx(argv[i]) then next else ex, if IsPx(argv[i]) then next else px)
  }

  function Absolute(p: Proc, key: Bytes, arg: Bytes, now: int): Command {
    [PEXPIREAT, key, DecimalOf(When(p, arg, now))]
  }

  /** The number of arguments every call of a command has, its name included. */
  function Arity(p: Proc): nat {
    match p
    case Expire => 3
    case PExpire => 3
    case ExpireAt => 3
    case PExpireAt => 3
    case SetEx => 4
    case PSetEx => 4
    case SetProc => 3
    case OtherProc => 1
  }

  /** The assertion of feedAppendOnlyFile fails: the loop found both an EX and a PX. */
  predicate FeedAborts(p: Proc, argv: Command) {
    p.SetProc? && |argv| > 3 && ScanOptions(argv, 3, None, None).0.Some? && ScanOptions(argv, 3, None, None).1.Some?
  }

  /** The commands logged for a command that is fed at time `now`. */
  function Translate(p: Proc, argv: Command, now: int): seq<Command>
    requires |argv| >= Arity(p)
  {
    if p.Expire? || p.PExpire? || p.ExpireAt? then [Absolute(p, argv[1], argv[2], now)]
    else if p.SetEx? || p.PSetEx? then [[SET, argv[1], argv[3]], Absolute(p, argv[1], argv[2], now)]
    else if p.SetProc? && |argv| > 3 then
      var (ex, px) := ScanOptions(argv, 3, None, None);
      [argv[..3]]
      + (if ex.Some? then [Absolute(Expire, argv[1], ex.value, now)] else [])
      + (if px.Some? then [Absolute(PExpire, argv[1], px.value, now)] else [])
    else [argv]
  }

  /** feedAppendOnlyFile: the bytes appended to its buffers, or a failed assertion. */
  method FeedCommand(selected: int, db: nat, p: Proc, argv: Command, now: int) returns (ok: bool, buf: Bytes)
    requires |argv| >= Arity(p)
    ensures ok == !FeedAborts(p, argv)
    ensures buf == if ok then EncodeLog(Logged(selected, Fed(db, Translate(p, argv, now)))) else []
  {
    hide EncodeLog, DecimalOf, When;
    var cmds: seq<Command>;
    if p.Expire? || p.PExpire? || p.ExpireAt? {
      cmds := [Absolute(p, argv[1], argv[2], now)];
    } else if p.SetEx? || p.PSetEx? {
      cmds := [[SET, argv[1], argv[3]], Absolute(p, argv[1], argv[2], now)];
    } else if p.SetProc? && |argv| > 3 {
      var ex, px: Option<Bytes> := None, None;
      var i := 3;
      while i < |argv|
        invariant 3 <= i <= |argv| && ScanOptions(argv, i, ex, px) == ScanOptions(argv, 3, None, None)
      {
        var next := if i + 1 < |argv| then Some(argv[i + 1]) else None;
        if IsEx(argv[i]) { ex := next; }
        if IsPx(argv[i]) { px := next; }
        i := i + 1;
      }
      if ex.Some? && px.Some? { return false, []; }
      cmds := [argv[..3]];
      if ex.Some? { cmds := cmds + [Absolute(Expire, argv[1], ex.value, now)]; }
      if px.Some? { cmds := cmds + [Absolute(PExpire, argv[1], px.value, now)]; }
    } else {
      cmds := [argv];
    }
    assert cmds == Translate(p, argv, now);
    ok := true;
    buf := FeedBytes(selected, Fed(db, cmds));
  }

  // ---- meaning ----

  /** A stored value and when it expires. */
  datatype Item = Item(value: Bytes, expireAt: Option<int>)

  type Store = map<Bytes, Item>

  /** What setCommand makes of its options: the argument of EX or of PX, or a syntax error. */
  datatype Options = Options(ex: Option<Bytes>, px: Option<Bytes>) | SyntaxError

  function ParseOptions(argv: Command, j: nat, nx: bool, xx: bool, ex: Option<Bytes>, px: Option<Bytes>): Options
    decreases |argv| - j
  {
    if j >= |argv| then Options(ex, px)
    else if Spells(argv[j], 78, 88) && !xx then ParseOptions(argv, j + 1, true, xx, ex, px)
    else if Spells(argv[j], 88, 88) && !nx then ParseOptions(argv, j + 1, nx, true, ex, px)
    else if IsEx(argv[j]) && px.None? && j + 1 < |argv| then ParseOptions(argv, j + 2, nx, xx, Some(argv[j + 1]), px)
    else if IsPx(argv[j]) && ex.None? && j + 1 < |argv| then ParseOptions(argv, j + 2, nx, xx, ex, Some(argv[j + 1]))
    else SyntaxError
  }

  function Expiring(d: Store, key: Bytes, at: int): Store {
    if key in d then d[key := d[key].(expireAt := Some(at))] else d
  }

  /** The effect, at time `now`, of a command that is propagated: its key conditions hold and its time
      is not in the past. Commands without a time have an effect that does not depend on it. */
  function Effect(d: Store, p: Proc, argv: Command, now: int, other: (Store, Command) -> Store): Store
    requires |argv| >= Arity(p)
  {
    match p
    case Expire => Expiring(d, argv[1], now + StrToL(argv[2]) * 1000)
    case PExpire => Expiring(d, argv[1], now + StrToL(argv[2]))
    case ExpireAt => Expiring(d, argv[1], StrToL(argv[2]) * 1000)
    case PExpireAt => Expiring(d, argv[1], StrToL(argv[2]))
    case SetEx => d[argv[1] := Item(argv[3], Some(now + StrToL(argv[2]) * 1000))]
    case PSetEx => d[argv[1] := Item(argv[3], Some(now + StrToL(argv[2])))]
    case SetProc =>
      (match ParseOptions(argv, 3, false, false, None, None)
       case SyntaxError => d
       case Options(ex, px) =>
         d[argv[1] := Item(argv[2], if ex.Some? then Some(now + StrToL(ex.value) * 1000)
                                    else if px.Some? then Some(now + StrToL(px.value)) else None)])
    case OtherProc => other(d, argv)
  }

  /** The effect of logged commands replayed at time `later`. */
  function Replay(
      d: Store, log: seq<Command>, later: int, procOf: Bytes -> Proc, other: (Store, Command) -> Store): Store
    decreases |log|
  {
    if log == [] then d
    else if |log[0]| == 0 || |log[0]| < Arity(procOf(log[0][0])) then Replay(d, log[1..], later, procOf, other)
    else Replay(Effect(d, procOf(log[0][0]), log[0], later, other), log[1..], later, procOf, other)
  }

  /** A number as getLongLongFromObject accepts it: digits, after a minus sign or not. */
  predicate IsNumber(b: Bytes) {
    b != [] && AllDigits(b[1..]) && (IsDigit(b[0]) || b[0] == MINUS)
  }

  /** setGenericCommand goes on only if the time it is given is a number. */
  predicate TimeAccepted(o: Options) {
    o.Options? && (o.ex.Some? ==> IsNumber(o.ex.value)) && (o.px.Some? ==> IsNumber(o.px.value))
  }

  /** A time given after EX spells PX, or one given after PX spells EX; only the last time given counts
      for SET. */
  predicate Crossed(argv: Command, j: nat)
    decreases |argv| - j
  {
    j < |argv| &&
    if (IsEx(argv[j]) || IsPx(argv[j])) && j + 1 < |argv|
    then (if IsEx(argv[j]) then IsPx(argv[j + 1]) else IsEx(argv[j + 1])) || Crossed(argv, j + 2)
    else Crossed(argv, j + 1)
  }

  lemma NumberSpellsNothing(b: Bytes)
    requires IsNumber(b)
    ensures !IsEx(b) && !IsPx(b)
  {
  }

  /** Both loops over the options that follow an EX; `sx` and `sp` is what the log's loop found so far. */
  lemma {:induction false} ScanAfterEx(
      argv: Command, j: nat, nx: bool, xx: bool, ex: Bytes, sx: Option<Bytes>, sp: Option<Bytes>)
    requires TimeAccepted(ParseOptions(argv, j, nx, xx, Some(ex), None)) && (IsNumber(ex) ==> sx == Some(ex))
    ensures var o := ParseOptions(argv, j, nx, xx, Some(ex), None);
      var (fx, fp) := ScanOptions(argv, j, sx, sp);
      o.ex.Some? && o.px.None? && fx == o.ex && (fp.Some? <==> sp.Some? || Crossed(argv, j))
    decreases |argv| - j
  {
    if j < |argv| {
      if Spells(argv[j], 78, 88) && !xx {
        ScanAfterEx(argv, j + 1, true, xx, ex, sx, sp);
      } else if Spells(argv[j], 88, 88) && !nx {
        ScanAfterEx(argv, j + 1, nx, true, ex, sx, sp);
      } else {
        var t := argv[j + 1];
        var next := if j + 2 < |argv| then Some(argv[j + 2]) else None;
        if IsNumber(t) { NumberSpellsNothing(t); }
        ScanAfterEx(argv, j + 2, nx, xx, t, if IsEx(t) then next else Some(t), if IsPx(t) then next else sp);
      }
    }
  }

  /** The same for the options that follow a PX. */
  lemma {:induction false} ScanAfterPx(
      argv: Command, j: nat, nx: bool, xx: bool, px: Bytes, sx: Option<Bytes>, sp: Option<Bytes>)
    requires TimeAccepted(ParseOptions(argv, j, nx, xx, None, Some(px))) && (IsNumber(px) ==> sp == Some(px))
    ensures var o := ParseOptions(argv, j, nx, xx, None, Some(px));
      var (fx, fp) := ScanOptions(argv, j, sx, sp);
      o.px.Some? && o.ex.None? && fp == o.px && (fx.Some? <==> sx.Some? || Crossed(argv, j))
    decreases |argv| - j
  {
    if j < |argv| {
      if Spells(argv[j], 78, 88) && !xx {
        ScanAfterPx(argv, j + 1, true, xx, px, sx, sp);
      } else if Spells(argv[j], 88, 88) && !nx {
        ScanAfterPx(argv, j + 1, nx, true, px, sx, sp);
      } else {
        var t := argv[j + 1];
        var next := if j + 2 < |argv| then Some(argv[j + 2]) else None;
        if IsNumber(t) { NumberSpellsNothing(t); }
        ScanAfterPx(argv, j + 2, nx, xx, t, if IsEx(t) then next else sx, if IsPx(t) then next else Some(t));
      }
    }
  }

  /** The log's loop finds what SET found if and only if no time spells the other option; otherwise, and
      only then, it finds both a time in seconds and one in milliseconds. */
  lemma {:induction false} ScanAgrees(argv: Command, j: nat, nx: bool, xx: bool)
    requires TimeAccepted(ParseOptions(argv, j, nx, xx, None, None))
    ensures var o := ParseOptions(argv, j, nx, xx, None, None);
      var (fx, fp) := ScanOptions(argv, j, None, None);
      && (o.ex.None? || o.px.None?)
      && ((fx, fp) == (o.ex, o.px) <==> !Crossed(argv, j))
      && (fx.Some? && fp.Some? <==> Crossed(argv, j))
    decreases |argv| - j
  {
    if j < |argv| {
      if Spells(argv[j], 78, 88) && !xx {
        ScanAgrees(argv, j + 1, true, xx);
      } else if Spells(argv[j], 88, 88) && !nx {
        ScanAgrees(argv, j + 1, nx, true);
      } else {
        var t := argv[j + 1];
        var next := if j + 2 < |argv| then Some(argv[j + 2]) else None;
        if IsNumber(t) { NumberSpellsNothing(t); }
        var (ex, px) := if IsEx(argv[j]) then (Some(t), None) else (None, Some(t));
        var sx, sp := if IsEx(t) then next else ex, if IsPx(t) then next else px;
        assert ScanOptions(argv, j, None, None) == ScanOptions(argv, j + 1, ex, px) == ScanOptions(argv, j + 2, sx, sp);
        if IsEx(argv[j]) {
          ScanAfterEx(argv, j + 2, nx, xx, t, sx, sp);
        } else {
          ScanAfterPx(argv, j + 2, nx, xx, t, sx, sp);
        }
      }
    }
  }

  /** Two times are given and the first spells PX: SET takes the second, and the log's loop finds a PX. */
  lemma CrossedExample(name: Bytes, key: Bytes, value: Bytes)
    ensures var ex: Bytes, px: Bytes, ten: Bytes := [69, 88], [80, 88], [49, 48];
      var argv := [name, key, value, ex, px, ex, ten];
      && ParseOptions(argv, 3, false, false, None, None) == Options(Some(ten), None)
      && ScanOptions(argv, 3, None, None) == (Some(ten), Some(ex)) && Crossed(argv, 3)
  {
    var ex: Bytes, px: Bytes, ten: Bytes := [69, 88], [80, 88], [49, 48];
    var argv := [name, key, value, ex, px, ex, ten];
    assert ParseOptions(argv, 7, false, false, Some(ten), None) == Options(Some(ten), None);
    assert ParseOptions(argv, 5, false, false, Some(px), None) == Options(Some(ten), None);
    assert ScanOptions(argv, 7, Some(ten), Some(ex)) == (Some(ten), Some(ex));
    assert ScanOptions(argv, 6, Some(ten), Some(ex)) == (Some(ten), Some(ex));
    assert ScanOptions(argv, 5, Some(px), Some(ex)) == (Some(ten), Some(ex));
    assert ScanOptions(argv, 4, Some(px), None) == (Some(ten), Some(ex));
  }

  /** The times the log holds for a command are in the range of a long long. */
  predicate TimesInRange(p: Proc, argv: Command, now: int)
    requires |argv| >= Arity(p)
  {
    match p
    case SetProc =>
      var (ex, px) := ScanOptions(argv, 3, None, None);
      (ex.Some? ==> InLong(When(Expire, ex.value, now))) && (px.Some? ==> InLong(When(PExpire, px.value, now)))
    case OtherProc => true
    case PExpireAt => true
    case _ => InLong(When(p, argv[2], now))
  }

  /** The command table as the log relies on it. */
  predicate Table(p: Proc, argv: Command, procOf: Bytes -> Proc)
    requires |argv| >= Arity(p)
  {
    procOf(argv[0]) == p && procOf(SET) == SetProc && procOf(PEXPIREAT) == PExpireAt
  }

  lemma ReplayOne(
      d: Store, c: Command, rest: seq<Command>, later: int, procOf: Bytes -> Proc, other: (Store, Command) -> Store)
    requires |c| > 0 && |c| >= Arity(procOf(c[0]))
    ensures Replay(d, [c] + rest, later, procOf, other)
         == Replay(Effect(d, procOf(c[0]), c, later, other), rest, later, procOf, other)
  {
    hide Effect;
    assert ([c] + rest)[0] == c && ([c] + rest)[1..] == rest;
  }

  lemma ReplayAbsolute(
      d: Store, p: Proc, key: Bytes, arg: Bytes, now: int, later: int, rest: seq<Command>,
      procOf: Bytes -> Proc, other: (Store, Command) -> Store)
    requires procOf(PEXPIREAT) == PExpireAt && InLong(When(p, arg, now))
    ensures Replay(d, [Absolute(p, key, arg, now)] + rest, later, procOf, other)
         == Replay(Expiring(d, key, When(p, arg, now)), rest, later, procOf, other)
  {
    hide Replay, When;
    TextReadsBack(When(p, arg, now));
    ReplayOne(d, Absolute(p, key, arg, now), rest, later, procOf, other);
  }

  lemma ReplayNothing(d: Store, later: int, procOf: Bytes -> Proc, other: (Store, Command) -> Store)
    ensures Replay(d, [], later, procOf, other) == d
  {
  }

  lemma ExpiringFresh(d: Store, key: Bytes, value: Bytes, at: int)
    ensures Expiring(d[key := Item(value, None)], key, at) == d[key := Item(value, Some(at))]
  {
  }

  /** The command is logged: SET was given options and a time that it accepts, and the assertion of
      feedAppendOnlyFile holds. */
  predicate IsLogged(p: Proc, argv: Command) {
    (p.SetProc? ==> TimeAccepted(ParseOptions(argv, 3, false, false, None, None))) && !FeedAborts(p, argv)
  }

  /** Whenever the log is replayed, what was logged for a command has exactly the effect that the
      command has at the time it was fed. */
  lemma LoggedEffect(
      d: Store, p: Proc, argv: Command, fed: int, later: int, procOf: Bytes -> Proc, other: (Store, Command) -> Store)
    requires |argv| >= Arity(p) && Table(p, argv, procOf) && TimesInRange(p, argv, fed) && IsLogged(p, argv)
    ensures Replay(d, Translate(p, argv, fed), later, procOf, other) == Effect(d, p, argv, fed, other)
  {
    hide Replay, Absolute, ParseOptions, ScanOptions;
    var none: seq<Command> := [];
    ReplayNothing(Effect(d, p, argv, fed, other), later, procOf, other);
    if p.Expire? || p.PExpire? || p.ExpireAt? {
      ReplayAbsolute(d, p, argv[1], argv[2], fed, later, none, procOf, other);
      assert [Absolute(p, argv[1], argv[2], fed)] + none == Translate(p, argv, fed);
    } else if p.SetEx? || p.PSetEx? {
      var rest := [Absolute(p, argv[1], argv[2], fed)];
      ReplayPlainSet(d, [SET, argv[1], argv[3]], rest, later, procOf, other);
      ReplayAbsolute(d[argv[1] := Item(argv[3], None)], p, argv[1], argv[2], fed, later, none, procOf, other);
      ExpiringFresh(d, argv[1], argv[3], When(p, argv[2], fed));
      assert [[SET, argv[1], argv[3]]] + (rest + none) == Translate(p, argv, fed);
      assert rest + none == rest;
    } else if p.SetProc? && |argv| > 3 {
      SetEffect(d, argv, fed, later, procOf, other);
    } else {
      assert [argv] + none == Translate(p, argv, fed);
      ReplayOne(d, argv, none, later, procOf, other);
      if p.SetProc? { NoOptions(argv); }
    }
  }

  /** The effect of the command depends on the clock. */
  predicate ClockMatters(d: Store, p: Proc, argv: Command)
    requires |argv| >= Arity(p)
  {
    match p
    case Expire => argv[1] in d
    case PExpire => argv[1] in d
    case SetEx => true
    case PSetEx => true
    case SetProc =>
      var o := ParseOptions(argv, 3, false, false, None, None);
      o.Options? && (o.ex.Some? || o.px.Some?)
    case _ => false
  }

  lemma EffectAtTwoTimes(d: Store, p: Proc, argv: Command, a: int, b: int, other: (Store, Command) -> Store)
    requires |argv| >= Arity(p)
    ensures Effect(d, p, argv, a, other) == Effect(d, p, argv, b, other) <==> a == b || !ClockMatters(d, p, argv)
  {
    hide ParseOptions, StrToL;
    if p != OtherProc && ClockMatters(d, p, argv) {
      var x, y := Effect(d, p, argv, a, other), Effect(d, p, argv, b, other);
      assert x[argv[1]].expireAt.Some? && y[argv[1]].expireAt.Some?;
      assert x[argv[1]].expireAt.value - y[argv[1]].expireAt.value == a - b;
    }
  }

  /** Whenever the log is replayed, what was logged for a command has the effect that the command had
      when it ran if and only if both reads of the clock gave the same time or the effect does not
      depend on the clock. */
  lemma LoggedMeansTheSame(
      d: Store, p: Proc, argv: Command, ran: int, fed: int, later: int,
      procOf: Bytes -> Proc, other: (Store, Command) -> Store)
    requires |argv| >= Arity(p) && Table(p, argv, procOf) && TimesInRange(p, argv, fed) && IsLogged(p, argv)
    ensures Replay(d, Translate(p, argv, fed), later, procOf, other) == Effect(d, p, argv, ran, other)
      <==> fed == ran || !ClockMatters(d, p, argv)
  {
    hide Replay, Translate, Effect;
    LoggedEffect(d, p, argv, fed, later, procOf, other);
    EffectAtTwoTimes(d, p, argv, fed, ran, other);
  }

  /** PSETEX of 100 milliseconds, run at one time and fed a millisecond later: the key expires a
      millisecond late after a replay. */
  lemma LateClockExample(d: Store, name: Bytes, key: Bytes, value: Bytes, ran: nat, later: int,
      procOf: Bytes -> Proc, other: (Store, Command) -> Store)
    requires procOf(name) == PSetEx && procOf(SET) == SetProc && procOf(PEXPIREAT) == PExpireAt
    requires ran + 101 < LONG_LIMIT
    ensures var argv := [name, key, [49, 48, 48], value];
      && Effect(d, PSetEx, argv, ran, other) == d[key := Item(value, Some(ran + 100))]
      && Replay(d, Translate(PSetEx, argv, ran + 1), later, procOf, other) == d[key := Item(value, Some(ran + 101))]
  {
    hide Replay, Translate;
    HundredReads();
    LoggedEffect(d, PSetEx, [name, key, [49, 48, 48], value], ran + 1, later, procOf, other);
  }

  lemma HundredReads()
    ensures StrToL([49, 48, 48]) == 100
  {
    var s: Bytes := [49, 48, 48];
    assert s[1..] == [48, 48] && [48, 48][1..] == [48] && [48][1..] == [];
    assert ParseDigits([], 100) == 100;
    assert ParseDigits([48], 10) == 100;
    assert ParseDigits([48, 48], 1) == 100;
  }

  lemma NoOptions(argv: Command)
    requires |argv| == 3
    ensures ParseOptions(argv, 3, false, false, None, None) == Options(None, None)
  {
  }

  lemma ReplayPlainSet(
      d: Store, c: Command, rest: seq<Command>, later: int, procOf: Bytes -> Proc, other: (Store, Command) -> Store)
    requires |c| == 3 && procOf(c[0]) == SetProc
    ensures Replay(d, [c] + rest, later, procOf, other)
      == Replay(d[c[1] := Item(c[2], None)], rest, later, procOf, other)
  {
    hide Replay;
    ReplayOne(d, c, rest, later, procOf, other);
  }

  lemma SetEffect(
      d: Store, argv: Command, now: int, later: int, procOf: Bytes -> Proc, other: (Store, Command) -> Store)
    requires |argv| > 3 && Table(SetProc, argv, procOf) && TimesInRange(SetProc, argv, now)
    requires IsLogged(SetProc, argv)
    ensures Replay(d, Translate(SetProc, argv, now), later, procOf, other) == Effect(d, SetProc, argv, now, other)
  {
    hide Replay, Absolute, ParseOptions, ScanOptions, Crossed;
    ScanAgrees(argv, 3, false, false);
    var (ex, px) := ScanOptions(argv, 3, None, None);
    var none: seq<Command> := [];
    var stored := d[argv[1] := Item(argv[2], None)];
    ReplayNothing(Effect(d, SetProc, argv, now, other), later, procOf, other);
    if ex.Some? {
      var rest := [Absolute(Expire, argv[1], ex.value, now)];
      ReplayPlainSet(d, argv[..3], rest, later, procOf, other);
      ReplayAbsolute(stored, Expire, argv[1], ex.value, now, later, none, procOf, other);
      ExpiringFresh(d, argv[1], argv[2], When(Expire, ex.value, now));
      assert rest + none == rest && [argv[..3]] + rest == Translate(SetProc, argv, now);
    } else if px.Some? {
      var rest := [Absolute(PExpire, argv[1], px.value, now)];
      ReplayPlainSet(d, argv[..3], rest, later, procOf, other);
      ReplayAbsolute(stored, PExpire, argv[1], px.value, now, later, none, procOf, other);
      ExpiringFresh(d, argv[1], argv[2], When(PExpire, px.value, now));
      assert rest + none == rest && [argv[..3]] + rest == Translate(SetProc, argv, now);
    } else {
      ReplayPlainSet(d, argv[..3], none, later, procOf, other);
      assert [argv[..3]] + none == Translate(SetProc, argv, now);
    }
  }
}
