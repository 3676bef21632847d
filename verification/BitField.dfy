/** Integers of 1 to 63 bits at any bit offset of a string (the BITFIELD command), and their
    overflow rules. 64-bit machine integers are words; their numbers are read with `Value` and
    `SignedNum`. */
module BitField {
  import opened Words
  import opened Bitmap

  // ---- numbers in words ----

  /** Two's complement number of a 64-bit word. */
  function SignedNum(w: Word): int { Value(w) - (if w[WIDTH - 1] then Pow2(WIDTH) else 0) }

  /** Conversion of an integer to uint64_t. */
  function ToWord(n: int): Word { FromNat(n % Pow2(WIDTH), WIDTH) }

  /** The representative of `n` modulo 2^b in the range of b-bit signed integers. */
  function Wrap(n: int, b: nat): int
    requires b > 0
  {
    var m := n % Pow2(b);
    if m >= Pow2(b - 1) then m - Pow2(b) else m
  }

  predicate InSigned(n: int, b: nat)
    requires b > 0
  {
    0 - Pow2(b - 1) <= n < Pow2(b - 1)
  }

  /** Wrap gives the only in-range number congruent to `n`. */
  lemma WrapUnique(n: int, b: nat, r: int)
    requires b > 0
    ensures InSigned(Wrap(n, b), b) && (n - Wrap(n, b)) % Pow2(b) == 0
    ensures InSigned(r, b) && (n - r) % Pow2(b) == 0 ==> r == Wrap(n, b)
  {
    WrapRange(n, Pow2(b - 1));
    if InSigned(r, b) && (n - r) % Pow2(b) == 0 {
      CongruentInRange(n, r, Pow2(b - 1));
    }
  }

  /** Wrap, for a modulus 2h. */
  function WrapTo(n: int, h: nat): int
    requires h > 0
  {
    var m := n % (2 * h);
    if m >= h then m - 2 * h else m
  }

  lemma WrapRange(n: int, h: nat)
    requires h > 0
    ensures 0 - h <= WrapTo(n, h) < h && (n - WrapTo(n, h)) % (2 * h) == 0
  {
    var p := 2 * h;
    var q, m := n / p, n % p;
    assert n == q * p + m;
    MultipleOf(q, p);
    MultipleOf(q + 1, p);
    assert (q + 1) * p == q * p + p;
  }

  lemma CongruentInRange(n: int, r: int, h: nat)
    requires h > 0 && 0 - h <= r < h && (n - r) % (2 * h) == 0
    ensures r == WrapTo(n, h)
  {
    var p := 2 * h;
    var k, q := (n - r) / p, n / p;
    assert n - r == k * p && n == q * p + n % p;
    assert (k - 1) * p == k * p - p;
    if r < 0 {
      SameQuotient(q, k - 1, p, n % p, r + p);
    } else {
      SameQuotient(q, k, p, n % p, r);
    }
  }

  lemma MultipleOf(q: int, p: int)
    requires p > 0
    ensures (q * p) % p == 0
  {
    var a, r := (q * p) / p, (q * p) % p;
    assert q * p == a * p + r;
    SameQuotient(q, a, p, 0, r);
  }

  lemma WrapInRange(n: int, b: nat)
    requires b > 0 && InSigned(n, b)
    ensures Wrap(n, b) == n
  {
    assert (n - n) % Pow2(b) == 0;
    WrapUnique(n, b, n);
  }

  // ---- writing and reading a field ----

  /** `byteval &= ~(1 << bit); byteval |= bitval << bit` */
  function PutBit(b: bv8, k: nat, v: bool): bv8
    requires k < 8
  {
    (b & !MsbMask(k)) | (if v then MsbMask(k) else 0)
  }

  lemma PutBitOf(b: bv8, k: nat, v: bool, j: nat)
    requires k < 8 && j < 8
    ensures BitOf(PutBit(b, k, v), j) == if j == k then v else BitOf(b, j)
  {
  }

  lemma PutBitAt(s: seq<bv8>, o: nat, v: bool, i: nat)
    requires o / 8 < |s|
    ensures Bit(s[o / 8 := PutBit(s[o / 8], o % 8, v)], i) == if i == o then v else Bit(s, i)
  {
    PutBitOf(s[o / 8], o % 8, v, i % 8);
    assert i == 8 * (i / 8) + i % 8 && o == 8 * (o / 8) + o % 8;
  }

  /** Bits offset .. offset + bits hold the low bits of `value`, most significant first;
      every other bit is as in `s`. */
  ghost predicate Written(s: seq<bv8>, s': seq<bv8>, offset: nat, bits: nat, value: Word)
    requires bits <= WIDTH
  {
    && |s'| == |s|
    && forall i: nat ::
      Bit(s', i) == if offset <= i < offset + bits then value[bits - 1 - (i - offset)] else Bit(s, i)
  }

  /** setUnsignedBitfield; setSignedBitfield calls it with the value cast to uint64_t. */
  method SetUnsignedBitfield(p: array<bv8>, offset: nat, bits: nat, value: Word)
    requires bits <= WIDTH && offset + bits <= 8 * p.Length
    modifies p
    ensures Written(old(p[..]), p[..], offset, bits, value)
  {
    ghost var s := p[..];
    var j, o := 0, offset;
    while j < bits
      invariant 0 <= j <= bits && o == offset + j && |s| == p.Length
      invariant forall i: nat :: Bit(p[..], i) == if offset <= i < o then value[bits - 1 - (i - offset)] else Bit(s, i)
    {
      TestSingle(value, bits - 1 - j);
      var bitval := And(Single(bits - 1 - j), value) != ZERO;
      ghost var was := p[..];
      p[o / 8] := PutBit(p[o / 8], o % 8, bitval);
      assert p[..] == was[o / 8 := PutBit(was[o / 8], o % 8, bitval)];
      forall i: nat
        ensures Bit(p[..], i) == if i == o then bitval else Bit(was, i)
      {
        PutBitAt(was, o, bitval, i);
      }
      j, o := j + 1, o + 1;
    }
  }

  /** The field read as an unsigned word. */
  function Field(s: seq<bv8>, offset: nat, bits: nat): Word {
    seq(WIDTH, n requires 0 <= n < WIDTH => n < bits && Bit(s, offset + bits - 1 - n))
  }

  /** getUnsignedBitfield */
  method GetUnsignedBitfield(s: seq<bv8>, offset: nat, bits: nat) returns (value: Word)
    requires bits <= WIDTH && offset + bits <= 8 * |s|
    ensures value == Field(s, offset, bits)
  {
    value := ZERO;
    var j, o := 0, offset;
    while j < bits
      invariant 0 <= j <= bits && o == offset + j && value == Field(s, offset, j)
    {
      var bitval := BitOf(s[o / 8], o % 8);
      ghost var was := value;
      value := ShiftLeft(value, 1);
      if bitval { value := Or(value, Single(0)); }
      forall n | 0 <= n < WIDTH
        ensures value[n] == Field(s, offset, j + 1)[n]
      {
        assert ShiftLeft(was, 1)[n] == (n > 0 && was[n - 1]);
        assert bitval == Bit(s, offset + j);
      }
      j, o := j + 1, o + 1;
    }
  }

  /** Copies bit `bits - 1` into all the higher bits. */
  function SignExtend(c: Word, bits: nat): Word
    requires 1 <= bits < WIDTH
  {
    if c[bits - 1] then Or(c, ShiftLeft(Not(ZERO), bits)) else And(c, Not(ShiftLeft(Not(ZERO), bits)))
  }

  /** Sign extension keeps the number modulo 2^bits and brings it into the signed range. */
  lemma SignExtendNum(c: Word, bits: nat)
    requires 1 <= bits < WIDTH
    ensures SignedNum(SignExtend(c, bits)) == Wrap(Value(c), bits) == Wrap(Value(c[..bits]), bits)
  {
    var low, w := c[..bits], SignExtend(c, bits);
    ExtendedValue(c, bits);
    LowModulo(c, bits);
    TopBit(low);
    assert w[WIDTH - 1] == c[bits - 1];
  }

  lemma ExtendedValue(c: Word, bits: nat)
    requires 1 <= bits < WIDTH
    ensures Value(SignExtend(c, bits)) == Value(c[..bits]) + (if c[bits - 1] then Pow2(WIDTH) - Pow2(bits) else 0)
  {
    hide SignExtend, Value, Fill, Pow2;
    ExtendedBits(c, bits);
    var low := c[..bits];
    if c[bits - 1] {
      HighOnes(low, WIDTH - bits);
      assert |low| == bits && |low| + (WIDTH - bits) == WIDTH;
    } else {
      ValueZeros(low, WIDTH - bits);
    }
  }

  lemma {:induction false} HighOnes(low: seq<bool>, n: nat)
    ensures Value(low + Fill(n, true)) == Value(low) + Pow2(|low| + n) - Pow2(|low|)
  {
    if low == [] {
      assert low + Fill(n, true) == Fill(n, true);
      ValueOnes(n);
    } else {
      HighOnes(low[1..], n);
      assert (low + Fill(n, true))[1..] == low[1..] + Fill(n, true);
    }
  }

  lemma ExtendedBits(c: Word, bits: nat)
    requires 1 <= bits < WIDTH
    ensures SignExtend(c, bits) == c[..bits] + Fill(WIDTH - bits, c[bits - 1])
  {
  }

  lemma TopBit(s: seq<bool>)
    requires s != []
    ensures s[|s| - 1] <==> Value(s) >= Pow2(|s| - 1)
  {
    var t := s[..|s| - 1];
    ValueAppend(t, s[|s| - 1]);
    assert s == t + [s[|s| - 1]];
  }

  /** The low bits are the number modulo 2^bits. */
  lemma LowModulo(c: Word, bits: nat)
    requires bits <= WIDTH
    ensures Value(c) % Pow2(bits) == Value(c[..bits])
    ensures Value(c[..bits]) % Pow2(bits) == Value(c[..bits])
  {
    assert c == c[..bits] + c[bits..];
    ValueConcat(c[..bits], c[bits..]);
    LowPart(Value(c), Value(c[..bits]), Value(c[bits..]), Pow2(bits));
  }

  lemma LowPart(n: nat, low: nat, high: nat, p: nat)
    requires n == low + p * high && low < p
    ensures n % p == low && low % p == low
  {
    assert p * high == high * p;
    ModUnique(n, p, high, low);
    ModUnique(low, p, 0, low);
  }

  /** getSignedBitfield */
  method GetSignedBitfield(s: seq<bv8>, offset: nat, bits: nat) returns (value: Word)
    requires 1 <= bits < WIDTH && offset + bits <= 8 * |s|
    ensures value == SignExtend(Field(s, offset, bits), bits)
  {
    value := GetUnsignedBitfield(s, offset, bits);
    TestSingle(value, bits - 1);
    if And(Single(bits - 1), value) != ZERO {
      value := Or(value, ShiftLeft(Not(ZERO), bits));
    } else {
      assert value == And(value, Not(ShiftLeft(Not(ZERO), bits)));
    }
  }

  lemma FieldOfWritten(s: seq<bv8>, s': seq<bv8>, offset: nat, bits: nat, value: Word)
    requires bits <= WIDTH && Written(s, s', offset, bits, value)
    ensures Field(s', offset, bits) == value[..bits] + Fill(WIDTH - bits, false)
  {
    var f := Field(s', offset, bits);
    forall n | 0 <= n < WIDTH
      ensures f[n] == (value[..bits] + Fill(WIDTH - bits, false))[n]
    {
      if n < bits { assert Bit(s', offset + bits - 1 - n) == value[n]; }
    }
  }

  /** Reading back an unsigned field gives the value written modulo 2^bits. */
  lemma UnsignedRoundTrip(s: seq<bv8>, s': seq<bv8>, offset: nat, bits: nat, value: Word)
    requires bits <= WIDTH && Written(s, s', offset, bits, value)
    ensures Value(Field(s', offset, bits)) == Value(value) % Pow2(bits)
  {
    hide Value, Pow2, Written, Field, Fill;
    FieldOfWritten(s, s', offset, bits, value);
    ValueZeros(value[..bits], WIDTH - bits);
    LowModulo(value, bits);
  }

  /** Reading back a signed field gives the value written, wrapped to the width; a value in the
      range of the width comes back unchanged. */
  lemma SignedRoundTrip(s: seq<bv8>, s': seq<bv8>, offset: nat, bits: nat, v: int)
    requires 1 <= bits < WIDTH && InSigned(v, WIDTH) && Written(s, s', offset, bits, ToWord(v))
    ensures SignedNum(SignExtend(Field(s', offset, bits), bits)) == Wrap(v, bits)
    ensures InSigned(v, bits) ==> SignedNum(SignExtend(Field(s', offset, bits), bits)) == v
  {
    var value, f := ToWord(v), Field(s', offset, bits);
    FieldOfWritten(s, s', offset, bits, value);
    assert f[..bits] == value[..bits];
    SignExtendNum(f, bits);
    LowModulo(value, bits);
    WordModulo(v, bits);
    if InSigned(v, bits) { WrapInRange(v, bits); }
  }

  lemma WordModulo(v: int, bits: nat)
    requires bits <= WIDTH
    ensures Value(ToWord(v)) % Pow2(bits) == v % Pow2(bits)
  {
    ValueFromNat(v % Pow2(WIDTH), WIDTH);
    ModUnique(v % Pow2(WIDTH), Pow2(WIDTH), 0, v % Pow2(WIDTH));
    Pow2Add(bits, WIDTH - bits);
    ModOfMod(v, Pow2(bits), Pow2(WIDTH - bits));
  }

  lemma ModOfMod(v: int, p: nat, q: nat)
    requires p > 0 && q > 0
    ensures p * q > 0 && (v % (p * q)) % p == v % p
  {
    assert p * q > 0;
    var m := v % (p * q);
    var k := v / (p * q);
    assert v == k * (p * q) + m;
    var a, r := m / p, m % p;
    assert m == a * p + r;
    assert k * (p * q) == (k * q) * p;
    assert v == (k * q + a) * p + r by { assert (k * q + a) * p == (k * q) * p + a * p; }
    var b, t := v / p, v % p;
    SameQuotient(k * q + a, b, p, r, t);
  }

  // ---- overflow rules ----

  datatype Overflow = WRAP | SAT | FAIL

  datatype Limit = Untouched | Set(limit: int)

  const TWO63: nat := 0x8000_0000_0000_0000
  const TWO64: nat := 0x1_0000_0000_0000_0000

  /** Conversion of a 64-bit unsigned number to int64_t. */
  function ToInt64(n: int): int {
    var m := n % TWO64;
    if m >= TWO63 then m - TWO64 else m
  }

  lemma PowersOfWord()
    ensures Pow2(WIDTH) == TWO64 && Pow2(WIDTH - 1) == TWO63
  {
    assert Pow2(8) == 256;
    Pow2Add(8, 8);
    Pow2Add(16, 16);
    assert Pow2(32) == 0x1_0000_0000;
    Pow2Add(32, 32);
  }

  lemma PowerBound(bits: nat)
    requires 1 <= bits < WIDTH
    ensures 1 <= Pow2(bits - 1) && Pow2(bits) == 2 * Pow2(bits - 1) <= TWO63
  {
    PowersOfWord();
    Pow2Mono(bits, WIDTH - 1);
  }

  /** `res &= ~mask` keeps the number modulo 2^bits. */
  lemma MaskedNum(c: Word, bits: nat)
    requires 1 <= bits < WIDTH
    ensures Value(And(c, Not(ShiftLeft(Not(ZERO), bits)))) == Value(c) % Pow2(bits)
  {
    assert And(c, Not(ShiftLeft(Not(ZERO), bits))) == c[..bits] + Fill(WIDTH - bits, false);
    ValueZeros(c[..bits], WIDTH - bits);
    LowModulo(c, bits);
  }

  /** checkUnsignedBitfieldOverflow: zero exactly when the value and its sum with the increment fit
      the width; WRAP (which reports 1 on underflow too) sets the sum modulo 2^bits, SAT the bound. */
  method CheckUnsigned(value: nat, incr: int, bits: nat, ow: Overflow) returns (code: int, limit: Limit)
    requires 1 <= bits < WIDTH && value < TWO64 && 0 - TWO63 <= incr < TWO63
    ensures var max := Pow2(bits) - 1;
      && (code == 0 <==> value <= max && 0 <= value + incr <= max)
      && (code == 0 ==> limit == Untouched)
      && (code != 0 ==>
           match ow
           case WRAP => code == 1 && limit == Set((value + incr) % Pow2(bits))
           case SAT =>
             if value > max || value + incr > max then code == 1 && limit == Set(max)
             else code == -1 && limit == Set(0)
           case FAIL => code == (if value > max || value + incr > max then 1 else -1) && limit == Untouched)
  {
    PowerBound(bits);
    var max := Pow2(bits) - 1;
    var maxincr := ToInt64(max - value);
    var minincr := ToInt64(0 - value);
    if value <= max {
      ToInt64Small(max - value);
      ToInt64Small(0 - value);
    }
    limit := Untouched;
    if value > max || (incr > 0 && incr > maxincr) {
      code := 1;
      if ow == SAT { limit := Set(max); }
    } else if incr < 0 && incr < minincr {
      code := -1;
      if ow == SAT { limit := Set(0); }
    } else {
      return 0, Untouched;
    }
    if ow == WRAP {
      var res := WrapUnsigned(value + incr, bits);
      return 1, Set(res);
    }
  }

  /** The handle_wrap block of the unsigned check; the sum is taken modulo 2^64. */
  method WrapUnsigned(sum: int, bits: nat) returns (r: int)
    requires 1 <= bits < WIDTH
    ensures r == sum % Pow2(bits)
  {
    var res := ToWord(sum);
    MaskedNum(res, bits);
    WordModulo(sum, bits);
    res := And(res, Not(ShiftLeft(Not(ZERO), bits)));
    r := Value(res);
  }

  lemma ToInt64Small(n: int)
    requires 0 - TWO63 <= n < TWO63
    ensures ToInt64(n) == n
  {
  }

  /** checkSignedBitfieldOverflow: the same rules for signed fields; the differences `max - value`
      and `min - value` must not overflow, as they do not for a value in the range of its type. */
  method CheckSigned(value: int, incr: int, bits: nat, ow: Overflow) returns (code: int, limit: Limit)
    requires 1 <= bits < WIDTH && 0 - TWO63 <= incr < TWO63
    requires Pow2(bits - 1) - 1 - value < TWO63 && 0 - TWO63 <= 0 - Pow2(bits - 1) - value
    ensures var max, min := Pow2(bits - 1) - 1, 0 - Pow2(bits - 1);
      && (code == 0 <==> min <= value <= max && min <= value + incr <= max)
      && (code == 0 ==> limit == Untouched)
      && (code != 0 ==>
           match ow
           case WRAP => code == 1 && limit == Set(Wrap(value + incr, bits))
           case SAT =>
             if value > max || value + incr > max then code == 1 && limit == Set(max)
             else code == -1 && limit == Set(min)
           case FAIL => code == (if value > max || value + incr > max then 1 else -1) && limit == Untouched)
  {
    PowerBound(bits);
    var max := Pow2(bits - 1) - 1;
    var min := 0 - max - 1;
    var maxincr := max - value;
    var minincr := min - value;
    limit := Untouched;
    if value > max || (bits != 64 && incr > maxincr) || (value >= 0 && incr > 0 && incr > maxincr) {
      code := 1;
      if ow == SAT { limit := Set(max); }
    } else if value < min || (bits != 64 && incr < minincr) || (value < 0 && incr < 0 && incr < minincr) {
      code := -1;
      if ow == SAT { limit := Set(min); }
    } else {
      return 0, Untouched;
    }
    if ow == WRAP {
      var c := WrapSigned(value + incr, bits);
      return 1, Set(c);
    }
  }

  /** The handle_wrap block of the signed check: sign extension of the sum modulo 2^64. */
  method WrapSigned(sum: int, bits: nat) returns (r: int)
    requires 1 <= bits < WIDTH
    ensures r == Wrap(sum, bits)
  {
    var c := ToWord(sum);
    SignExtendNum(c, bits);
    WordModulo(sum, bits);
    TestSingle(c, bits - 1);
    if And(Single(bits - 1), c) != ZERO {
      c := Or(c, ShiftLeft(Not(ZERO), bits));
    } else {
      c := And(c, Not(ShiftLeft(Not(ZERO), bits)));
    }
    r := SignedNum(c);
  }
}
