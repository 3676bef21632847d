/** The append only file: commands written as arrays of bulk strings, and the loader. */
module AofFormat {

  type byte = b: int | 0 <= b < 256
  type Bytes = seq<byte>
  /** argv of one command. */
  type Command = seq<Bytes>

  const LF: byte := 10
  const CR: byte := 13
  const STAR: byte := 42
  const PLUS: byte := 43
  const MINUS: byte := 45
  const DOLLAR: byte := 36
  const CRLF: Bytes := [13, 10]
  /** fgets reads into `char buf[128]`. */
  const LINE_MAX: nat := 127

  // ---- encoding ----

  /** ll2string on a non-negative number. */
  function Decimal(n: nat): (s: Bytes)
    ensures |s| > 0
  {
    if n < 10 then [48 + n] else Decimal(n / 10) + [48 + n % 10]
  }

  function Bulk(arg: Bytes): Bytes { [DOLLAR] + Decimal(|arg|) + CRLF + arg + CRLF }

  function Bulks(argv: Command): Bytes {
    if argv == [] then [] else Bulk(argv[0]) + Bulks(argv[1..])
  }

  function Header(argc: nat): Bytes { [STAR] + Decimal(argc) + CRLF }

  function Encode(argv: Command): Bytes { Header(|argv|) + Bulks(argv) }

  function EncodeLog(log: seq<Command>): Bytes {
    if log == [] then [] else Encode(log[0]) + EncodeLog(log[1..])
  }

  /** catAppendOnlyGenericCommand */
  method CatCommand(dst: Bytes, argv: Command) returns (r: Bytes)
    ensures r == dst + Encode(argv)
  {
    hide Decimal;
    r := dst + [STAR] + Decimal(|argv|) + CRLF;
    assert r == dst + Header(|argv|);
    var j := 0;
    while j < |argv|
      invariant 0 <= j <= |argv| && r + Bulks(argv[j..]) == dst + Encode(argv)
    {
      ghost var was := r;
      r := r + [DOLLAR] + Decimal(|argv[j]|) + CRLF + argv[j] + CRLF;
      assert r == was + Bulk(argv[j]);
      assert argv[j..][1..] == argv[j + 1..];
      assert r + Bulks(argv[j + 1..]) == was + (Bulk(argv[j]) + Bulks(argv[j + 1..]));
      j := j + 1;
    }
  }

  // ---- library calls of the loader ----

  /** Length of the line that fgets returns: up to a newline, the end of file or `max` bytes. */
  function LineLen(r: Bytes, max: nat): (n: nat)
    ensures n <= |r| && n <= max && (r != [] && max > 0 ==> n > 0)
  {
    if max == 0 || r == [] then 0 else if r[0] == LF then 1 else 1 + LineLen(r[1..], max - 1)
  }

  predicate IsSpace(b: byte) { b == 32 || 9 <= b <= 13 }
  predicate IsDigit(b: byte) { 48 <= b <= 57 }

  function ParseDigits(s: Bytes, acc: nat): nat {
    if s == [] || !IsDigit(s[0]) then acc else ParseDigits(s[1..], acc * 10 + (s[0] - 48))
  }

  function SkipSpaces(s: Bytes): Bytes { if s != [] && IsSpace(s[0]) then SkipSpaces(s[1..]) else s }

  /** The number that a text stands for, of whatever size. */
  function ParseInt(s: Bytes): int {
    var t := SkipSpaces(s);
    if t != [] && t[0] == MINUS then 0 - ParseDigits(t[1..], 0)
    else if t != [] && t[0] == PLUS then ParseDigits(t[1..], 0)
    else ParseDigits(t, 0)
  }

  const INT_LIMIT: nat := 0x8000_0000
  const LONG_LIMIT: nat := 0x8000_0000_0000_0000

  /** strtol in base 10: numbers beyond the range of a long become its bounds. */
  function StrToL(s: Bytes): int {
    var n := ParseInt(s);
    if n >= LONG_LIMIT then LONG_LIMIT - 1 else if n < 0 - LONG_LIMIT then 0 - LONG_LIMIT else n
  }

  /** atoi: strtol cut to a 32-bit int. */
  function AToI(s: Bytes): int {
    var low := StrToL(s) % (2 * INT_LIMIT);
    if low >= INT_LIMIT then low - 2 * INT_LIMIT else low
  }

  lemma NumbersInRange(s: Bytes)
    ensures 0 <= ParseInt(s) < LONG_LIMIT ==> StrToL(s) == ParseInt(s)
    ensures 0 <= ParseInt(s) < INT_LIMIT ==> AToI(s) == ParseInt(s)
  {
  }

  // ---- parsing one command ----

  /** Args: the arguments and the bytes used; Short: the file ends before the command does. */
  datatype Parsed = AtEnd | Args(argv: Command, used: nat) | Short | Bad

  function ParseBulks(r: Bytes, argc: nat): (p: Parsed)
    ensures p.Args? ==> |p.argv| == argc && p.used <= |r|
    ensures !p.AtEnd?
    decreases argc
  {
    if argc == 0 then Args([], 0)
    else if r == [] then Short
    else
      var n := LineLen(r, LINE_MAX);
      if r[0] != DOLLAR then Bad
      else
        var len := StrToL(r[1..n]);
        var d := r[n..];
        if len < 0 then Bad
        else if |d| < len + 2 then Short
        else
          match ParseBulks(d[len + 2..], argc - 1)
          case Args(argv, used) => Args([d[..len]] + argv, n + len + 2 + used)
          case other => other
  }

  function ParseCommand(r: Bytes): (p: Parsed)
    ensures p.Args? ==> |p.argv| >= 1 && 0 < p.used <= |r|
    ensures p.AtEnd? <==> r == []
  {
    if r == [] then AtEnd
    else
      var n := LineLen(r, LINE_MAX);
      if r[0] != STAR then Bad
      else if n == 1 || r[1] == 0 then (if n == |r| && r[n - 1] != LF && n < LINE_MAX then Short else Bad)
      else
        var argc := AToI(r[1..n]);
        if argc < 1 then Bad
        else
          match ParseBulks(r[n..], argc)
          case Args(argv, used) => Args(argv, n + used)
          case other => other
  }

  // ---- decimal numbers ----

  predicate AllDigits(s: Bytes) { forall i :: 0 <= i < |s| ==> IsDigit(s[i]) }

  lemma {:induction false} DecimalDigits(n: nat)
    ensures AllDigits(Decimal(n)) && (n > 0 ==> Decimal(n)[0] != 48)
  {
    if n >= 10 { DecimalDigits(n / 10); }
  }

  function Pow10(k: nat): nat { if k == 0 then 1 else 10 * Pow10(k - 1) }

  lemma {:induction false} DecimalLength(n: nat, k: nat)
    requires n < Pow10(k) && k > 0
    ensures |Decimal(n)| <= k
    decreases k
  {
    if n >= 10 { DecimalLength(n / 10, k - 1); }
  }

  /** Value of a digit string. */
  lemma {:induction false} ParseDigitsAppend(s: Bytes, t: Bytes, acc: nat)
    requires AllDigits(s)
    ensures ParseDigits(s + t, acc) == ParseDigits(t, ParseDigits(s, acc))
    decreases |s|
  {
    if s == [] {
      assert s + t == t;
    } else {
      assert (s + t)[1..] == s[1..] + t;
      ParseDigitsAppend(s[1..], t, acc * 10 + (s[0] - 48));
    }
  }

  lemma {:induction false} DecimalParses(n: nat)
    ensures ParseDigits(Decimal(n), 0) == n
  {
    DecimalDigits(n);
    if n >= 10 {
      DecimalParses(n / 10);
      DecimalDigits(n / 10);
      ParseDigitsAppend(Decimal(n / 10), [48 + n % 10], 0);
    }
  }

  /** A digit string followed by a non-digit is read as its value. */
  lemma ParseIntDigits(s: Bytes, t: Bytes)
    requires AllDigits(s) && s != [] && (t == [] || !IsDigit(t[0]))
    ensures ParseInt(s + t) == ParseDigits(s, 0)
  {
    assert (s + t)[0] == s[0];
    assert SkipSpaces(s + t) == s + t;
    ParseDigitsAppend(s, t, 0);
  }

  lemma {:induction false} ParseDigitsGrows(s: Bytes, acc: nat)
    ensures ParseDigits(s, acc) >= acc
    decreases |s|
  {
    if s != [] && IsDigit(s[0]) { ParseDigitsGrows(s[1..], acc * 10 + (s[0] - 48)); }
  }

  /** A non-empty piece of a positive decimal number reads as a positive number. */
  lemma DecimalPrefixPositive(n: nat, k: nat)
    requires n > 0 && 0 < k <= |Decimal(n)|
    ensures ParseDigits(Decimal(n)[..k], 0) >= 1
  {
    DecimalDigits(n);
    var s := Decimal(n)[..k];
    ParseDigitsGrows(s[1..], s[0] - 48);
  }

  /** A piece of a decimal number reads as a number no greater. */
  lemma DecimalPrefixAtMost(n: nat, k: nat)
    requires k <= |Decimal(n)|
    ensures ParseDigits(Decimal(n)[..k], 0) <= n
  {
    var s, t := Decimal(n)[..k], Decimal(n)[k..];
    DecimalDigits(n);
    DecimalParses(n);
    assert s + t == Decimal(n);
    ParseDigitsAppend(s, t, 0);
    ParseDigitsGrows(t, ParseDigits(s, 0));
  }

  /** A long has at most 19 digits. */
  lemma LongDigits()
    ensures LONG_LIMIT < Pow10(19)
  {
    assert Pow10(4) == 10000;
    assert Pow10(8) == 10000 * Pow10(4);
    assert Pow10(12) == 10000 * Pow10(8);
    assert Pow10(16) == 10000 * Pow10(12);
    assert Pow10(19) == 1000 * Pow10(16);
  }

  // ---- lines ----

  lemma {:induction false} LineLenStops(s: Bytes, t: Bytes, max: nat)
    requires forall i :: 0 <= i < |s| ==> s[i] != LF
    requires |s| < max
    ensures LineLen(s + [LF] + t, max) == |s| + 1
    decreases |s|
  {
    var r := s + [LF] + t;
    if s != [] {
      LineLenStops(s[1..], t, max - 1);
      assert r[1..] == s[1..] + [LF] + t;
    }
  }

  lemma {:induction false} LineLenWhole(s: Bytes, max: nat)
    requires forall i :: 0 <= i < |s| ==> s[i] != LF
    requires |s| <= max
    ensures LineLen(s, max) == |s|
    decreases |s|
  {
    if s != [] { LineLenWhole(s[1..], max - 1); }
  }

  /** Lengths that a long holds. */
  predicate Fits(n: nat) { n < LONG_LIMIT }

  function NumberLine(m: byte, n: nat): Bytes { [m] + Decimal(n) + CRLF }

  lemma NumberLineShape(m: byte, n: nat)
    requires m != LF && Fits(n)
    ensures var l := NumberLine(m, n);
      && |l| == |Decimal(n)| + 3 <= 22 && l[|l| - 1] == LF
      && forall i :: 0 <= i < |l| - 1 ==> l[i] != LF
  {
    DecimalDigits(n);
    LongDigits();
    DecimalLength(n, 19);
  }

  /** A whole line is read as its number. */
  lemma ReadNumberLine(m: byte, n: nat, t: Bytes)
    requires m != LF && Fits(n)
    ensures var l := NumberLine(m, n);
      var r := l + t;
      && LineLen(r, LINE_MAX) == |l| >= 4 && r[0] == m && r[1] != 0
      && ParseInt(r[1..|l|]) == n && r[|l|..] == t
  {
    var l := NumberLine(m, n);
    var r := l + t;
    NumberLineShape(m, n);
    var s := l[..|l| - 1];
    LineLenStops(s, t, LINE_MAX);
    assert r == s + [LF] + t;
    assert r[1..|l|] == Decimal(n) + CRLF;
    DecimalDigits(n);
    ParseIntDigits(Decimal(n), CRLF);
    DecimalParses(n);
  }

  lemma PieceOfLine(m: byte, n: nat, k: nat)
    requires 1 < k < |NumberLine(m, n)|
    ensures var d := Decimal(n);
      NumberLine(m, n)[..k][1..k] == if k - 1 <= |d| then d[..k - 1] + [] else d + [CR]
  {
    var d := Decimal(n);
    assert NumberLine(m, n)[1..] == d + CRLF;
    assert NumberLine(m, n)[..k][1..k] == (d + CRLF)[..k - 1];
  }

  /** A line cut by the end of file: the number read is the one written by the digits present. */
  lemma ReadPartialLine(m: byte, n: nat, k: nat)
    requires m != LF && Fits(n) && 0 < k < |NumberLine(m, n)|
    ensures var r := NumberLine(m, n)[..k];
      && LineLen(r, LINE_MAX) == k && r[0] == m && r[k..] == [] && r[k - 1] != LF
      && 0 <= ParseInt(r[1..k]) <= n
      && (n > 0 && k > 1 ==> ParseInt(r[1..k]) >= 1 && r[1] != 0)
  {
    var l := NumberLine(m, n);
    var r := l[..k];
    NumberLineShape(m, n);
    LineLenWhole(r, LINE_MAX);
    DecimalDigits(n);
    var d := Decimal(n);
    if k == 1 {
      assert r[1..k] == [];
    } else if k - 1 <= |d| {
      var s := d[..k - 1];
      PieceOfLine(m, n, k);
      ParseIntDigits(s, []);
      DecimalPrefixAtMost(n, k - 1);
      if n > 0 { DecimalPrefixPositive(n, k - 1); }
    } else {
      PieceOfLine(m, n, k);
      ParseIntDigits(d, [CR]);
      DecimalParses(n);
    }
  }

  // ---- round trip of one command ----

  /** Commands the loader can read back: argc is an int, lengths are longs. */
  predicate Encodable(argv: Command) {
    0 < |argv| < INT_LIMIT && forall i :: 0 <= i < |argv| ==> Fits(|argv[i]|)
  }

  predicate FitArgs(argv: Command) { forall i :: 0 <= i < |argv| ==> Fits(|argv[i]|) }

  lemma BulkParses(arg: Bytes, t: Bytes, argc: nat)
    requires Fits(|arg|) && argc > 0
    ensures ParseBulks(Bulk(arg) + t, argc) ==
      match ParseBulks(t, argc - 1)
      case Args(argv, used) => Args([arg] + argv, |Bulk(arg)| + used)
      case other => other
  {
    hide ParseBulks, LineLen, ParseInt, StrToL, Decimal;
    var r := Bulk(arg) + t;
    var l := NumberLine(DOLLAR, |arg|);
    var u := arg + CRLF + t;
    assert r == l + u && |Bulk(arg)| == |l| + |arg| + 2;
    ReadNumberLine(DOLLAR, |arg|, u);
    NumbersInRange(r[1..|l|]);
    assert u[..|arg|] == arg && u[|arg| + 2..] == t;
    BulkStep(r, argc, |l|, |arg|, u);
  }

  lemma BulkStep(r: Bytes, argc: nat, n: nat, len: nat, d: Bytes)
    requires argc > 0 && r != [] && r[0] == DOLLAR && n == LineLen(r, LINE_MAX) && StrToL(r[1..n]) == len
    requires d == r[n..] && |d| >= len + 2
    ensures ParseBulks(r, argc) ==
      match ParseBulks(d[len + 2..], argc - 1)
      case Args(argv, used) => Args([d[..len]] + argv, n + len + 2 + used)
      case other => other
  {
  }

  lemma NoBulks(r: Bytes)
    ensures ParseBulks(r, 0) == Args([], 0)
  {
  }

  lemma {:induction false} BulksParse(argv: Command, t: Bytes)
    requires FitArgs(argv)
    ensures ParseBulks(Bulks(argv) + t, |argv|) == Args(argv, |Bulks(argv)|)
    decreases |argv|
  {
    hide Bulk, ParseBulks;
    if argv == [] {
      NoBulks(Bulks(argv) + t);
    } else {
      BulksParse(argv[1..], t);
      BulkParses(argv[0], Bulks(argv[1..]) + t, |argv|);
      assert Bulks(argv) + t == Bulk(argv[0]) + (Bulks(argv[1..]) + t);
      assert [argv[0]] + argv[1..] == argv;
    }
  }

  /** A bulk string cut by the end of file is a short read. */
  lemma PartialBulk(arg: Bytes, k: nat, argc: nat)
    requires Fits(|arg|) && argc > 0 && k < |Bulk(arg)|
    ensures ParseBulks(Bulk(arg)[..k], argc) == Short
  {
    var r := Bulk(arg)[..k];
    var l := NumberLine(DOLLAR, |arg|);
    if 0 < k < |l| {
      assert r == l[..k];
      ReadPartialLine(DOLLAR, |arg|, k);
      NumbersInRange(r[1..k]);
    } else if k >= |l| {
      var u := (arg + CRLF)[..k - |l|];
      assert r == l + u;
      ReadNumberLine(DOLLAR, |arg|, u);
      NumbersInRange(r[1..|l|]);
    }
  }

  lemma {:induction false} PartialBulks(argv: Command, k: nat)
    requires FitArgs(argv) && k < |Bulks(argv)|
    ensures ParseBulks(Bulks(argv)[..k], |argv|) == Short
    decreases |argv|
  {
    hide ParseBulks, Bulk;
    var b, rest := Bulk(argv[0]), Bulks(argv[1..]);
    if k < |b| {
      assert Bulks(argv)[..k] == b[..k];
      PartialBulk(argv[0], k, |argv|);
    } else {
      assert Bulks(argv)[..k] == b + rest[..k - |b|];
      PartialBulks(argv[1..], k - |b|);
      BulkParses(argv[0], rest[..k - |b|], |argv|);
    }
  }

  /** Parsing an encoded command gives back its arguments, whatever bytes they hold. */
  lemma CommandParses(argv: Command, t: Bytes)
    requires Encodable(argv)
    ensures ParseCommand(Encode(argv) + t) == Args(argv, |Encode(argv)|)
  {
    var r := Encode(argv) + t;
    var u := Bulks(argv) + t;
    assert r == NumberLine(STAR, |argv|) + u;
    ReadNumberLine(STAR, |argv|, u);
    NumbersInRange(r[1..|NumberLine(STAR, |argv|)|]);
    BulksParse(argv, t);
  }

  /** A command cut anywhere before its end is a short read, never a format error. */
  lemma PartialCommand(argv: Command, k: nat)
    requires Encodable(argv) && 0 < k < |Encode(argv)|
    ensures ParseCommand(Encode(argv)[..k]) == Short
  {
    var r := Encode(argv)[..k];
    var l := NumberLine(STAR, |argv|);
    if k < |l| {
      assert r == l[..k];
      ReadPartialLine(STAR, |argv|, k);
      NumbersInRange(r[1..k]);
      NumberLineShape(STAR, |argv|);
    } else {
      var u := Bulks(argv)[..k - |l|];
      assert r == l + u;
      ReadNumberLine(STAR, |argv|, u);
      NumbersInRange(r[1..|l|]);
      PartialBulks(argv, k - |l|);
    }
  }
}
