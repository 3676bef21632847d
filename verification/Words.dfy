/** C's `unsigned long` (64 bits) as an explicit bit string, bit 0 first, with the operators
    that dict.c applies to hashes, masks and scan cursors. */
module Words {

  // ---- numbers written by bit strings ----

  function Pow2(n: nat): (p: nat)
    ensures p > 0
  {
    if n == 0 then 1 else 2 * Pow2(n - 1)
  }

  lemma {:induction false} Pow2Add(a: nat, b: nat)
    ensures Pow2(a + b) == Pow2(a) * Pow2(b)
  {
    if a > 0 {
      Pow2Add(a - 1, b);
      assert Pow2(a) * Pow2(b) == 2 * (Pow2(a - 1) * Pow2(b));
    }
  }

  lemma {:induction false} Pow2Mono(a: nat, b: nat)
    requires a <= b
    ensures Pow2(a) <= Pow2(b)
    ensures a < b ==> Pow2(a) < Pow2(b)
    decreases b
  {
    if a < b {
      Pow2Mono(a, b - 1);
    }
  }

  lemma Distribute(d: int, p: int, m: int, q: int)
    ensures (d * p + m) * q == d * (p * q) + m * q
  {
  }

  function Digit(b: bool): nat { if b then 1 else 0 }

  /** The number written with the first bit as the least significant digit. */
  function Value(s: seq<bool>): (r: nat)
    ensures r < Pow2(|s|)
  {
    if s == [] then 0 else Digit(s[0]) + 2 * Value(s[1..])
  }

  /** The number written with the first bit as the most significant digit. */
  function Mirror(s: seq<bool>): (r: nat)
    ensures r < Pow2(|s|)
  {
    if s == [] then 0 else Digit(s[0]) * Pow2(|s| - 1) + Mirror(s[1..])
  }

  function Fill(n: nat, b: bool): (s: seq<bool>)
    ensures |s| == n
  {
    seq(n, i => b)
  }

  function Reverse(s: seq<bool>): (r: seq<bool>)
    ensures |r| == |s|
  {
    seq(|s|, i requires 0 <= i < |s| => s[|s| - 1 - i])
  }

  /** Adds one, dropping the carry out of the last bit. */
  function Increment(s: seq<bool>): (r: seq<bool>)
    ensures |r| == |s|
  {
    if s == [] then [] else if !s[0] then [true] + s[1..] else [false] + Increment(s[1..])
  }

  lemma {:induction false} ValueIncrement(s: seq<bool>)
    ensures Value(Increment(s)) == if Value(s) + 1 == Pow2(|s|) then 0 else Value(s) + 1
  {
    if s != [] {
      ValueIncrement(s[1..]);
      var r := Increment(s);
      assert r[1..] == if !s[0] then s[1..] else Increment(s[1..]);
    }
  }

  lemma {:induction false} ValueAppend(s: seq<bool>, b: bool)
    ensures Value(s + [b]) == Value(s) + Digit(b) * Pow2(|s|)
  {
    if s == [] {
      assert (s + [b])[1..] == [];
    } else {
      ValueAppend(s[1..], b);
      assert (s + [b])[1..] == s[1..] + [b];
    }
  }

  lemma {:induction false} ValueReverse(s: seq<bool>)
    ensures Value(Reverse(s)) == Mirror(s)
  {
    if s != [] {
      ValueReverse(s[1..]);
      ValueAppend(Reverse(s[1..]), s[0]);
      assert Reverse(s) == Reverse(s[1..]) + [s[0]];
    }
  }

  lemma {:induction false} MirrorConcat(a: seq<bool>, b: seq<bool>)
    ensures Mirror(a + b) == Mirror(a) * Pow2(|b|) + Mirror(b)
  {
    if a == [] {
      assert a + b == b;
    } else {
      MirrorConcat(a[1..], b);
      assert (a + b)[1..] == a[1..] + b;
      Pow2Add(|a| - 1, |b|);
      Distribute(Digit(a[0]), Pow2(|a| - 1), Mirror(a[1..]), Pow2(|b|));
    }
  }

  lemma {:induction false} MirrorOnes(n: nat)
    ensures Mirror(Fill(n, true)) == Pow2(n) - 1
  {
    if n > 0 {
      MirrorOnes(n - 1);
      assert Fill(n, true)[1..] == Fill(n - 1, true);
    }
  }

  lemma {:induction false} MirrorZero(s: seq<bool>)
    ensures Mirror(s) == 0 <==> forall i :: 0 <= i < |s| ==> !s[i]
  {
    if s != [] {
      MirrorZero(s[1..]);
      assert forall i :: 1 <= i < |s| ==> s[i] == s[1..][i - 1];
    }
  }

  lemma {:induction false} MirrorInjective(a: seq<bool>, b: seq<bool>)
    requires |a| == |b| && Mirror(a) == Mirror(b)
    ensures a == b
  {
    if a != [] {
      MirrorInjective(a[1..], b[1..]);
      assert a == [a[0]] + a[1..] && b == [b[0]] + b[1..];
    }
  }

  lemma {:induction false} ValueZeros(a: seq<bool>, n: nat)
    ensures Value(a + Fill(n, false)) == Value(a)
    decreases |a| + n
  {
    if a != [] {
      ValueZeros(a[1..], n);
      assert (a + Fill(n, false))[1..] == a[1..] + Fill(n, false);
    } else if n > 0 {
      ValueZeros([], n - 1);
      assert ([] + Fill(n, false))[1..] == [] + Fill(n - 1, false);
    }
  }

  lemma {:induction false} ValueOnes(n: nat)
    ensures Value(Fill(n, true)) == Pow2(n) - 1
  {
    if n > 0 {
      ValueOnes(n - 1);
      assert Fill(n, true)[1..] == Fill(n - 1, true);
    }
  }

  lemma {:induction false} ValueConcat(a: seq<bool>, b: seq<bool>)
    ensures Value(a + b) == Value(a) + Pow2(|a|) * Value(b)
  {
    if a == [] {
      assert a + b == b;
    } else {
      ValueConcat(a[1..], b);
      assert (a + b)[1..] == a[1..] + b;
      Distribute(2, Pow2(|a| - 1), 0, Value(b));
    }
  }

  /** The `width` low binary digits of a number. */
  function FromNat(n: nat, width: nat): (s: seq<bool>)
    ensures |s| == width
  {
    if width == 0 then [] else [n % 2 == 1] + FromNat(n / 2, width - 1)
  }

  lemma {:induction false} ValueFromNat(n: nat, width: nat)
    ensures Value(FromNat(n, width)) == n % Pow2(width)
  {
    if width > 0 {
      ValueFromNat(n / 2, width - 1);
      assert FromNat(n, width)[1..] == FromNat(n / 2, width - 1);
      HalveMod(n, Pow2(width - 1));
    }
  }

  lemma HalveMod(n: nat, p: nat)
    requires p > 0
    ensures n % (2 * p) == n % 2 + 2 * ((n / 2) % p)
  {
    var q, r := (n / 2) / p, (n / 2) % p;
    assert n / 2 == q * p + r;
    assert n == q * (2 * p) + (2 * r + n % 2) by { assert q * (2 * p) == 2 * (q * p); }
    ModUnique(n, 2 * p, q, 2 * r + n % 2);
  }

  lemma ModUnique(n: nat, d: nat, q: nat, r: nat)
    requires n == q * d + r && r < d
    ensures n % d == r && n / d == q
  {
    var q', r' := n / d, n % d;
    assert n == q' * d + r';
    SameQuotient(q, q', d, r, r');
  }

  lemma SameQuotient(q: int, p: int, d: int, r: int, s: int)
    requires q * d + r == p * d + s && 0 <= r < d && 0 <= s < d
    ensures q == p && r == s
  {
    var k := q - p;
    assert k * d == s - r;
    MulBound(k, d);
  }

  lemma MulBound(k: int, d: int)
    requires d > 0
    ensures k >= 1 ==> k * d >= d
    ensures k <= -1 ==> k * d <= -d
  {
  }

  /** Size minus one of a power of two is a run of low ones. */
  lemma {:induction false} FromNatMask(k: nat, width: nat)
    requires k <= width
    ensures FromNat(Pow2(k) - 1, width) == Fill(k, true) + Fill(width - k, false)
  {
    if width == 0 {
    } else if k == 0 {
      FromNatMask(0, width - 1);
      assert Fill(width, false) == [false] + Fill(width - 1, false);
      assert Fill(0, true) + Fill(width, false) == Fill(width, false);
      assert Fill(0, true) + Fill(width - 1, false) == Fill(width - 1, false);
    } else {
      FromNatMask(k - 1, width - 1);
      assert (Pow2(k) - 1) / 2 == Pow2(k - 1) - 1 && (Pow2(k) - 1) % 2 == 1;
      assert Fill(k, true) == [true] + Fill(k - 1, true);
      FromNatStep(Pow2(k) - 1, width);
      hide Fill, FromNat, Pow2;
      assert [true] + (Fill(k - 1, true) + Fill(width - k, false))
        == [true] + Fill(k - 1, true) + Fill(width - k, false);
    }
  }

  lemma FromNatStep(n: nat, width: nat)
    requires width > 0
    ensures FromNat(n, width) == [n % 2 == 1] + FromNat(n / 2, width - 1)
  {
  }

  // ---- 64-bit words ----

  const WIDTH: nat := 64

  type Word = s: seq<bool> | |s| == WIDTH witness Fill(WIDTH, false)

  const ZERO: Word := Fill(WIDTH, false)

  function And(a: Word, b: Word): Word { seq(WIDTH, i requires 0 <= i < WIDTH => a[i] && b[i]) }
  function Or(a: Word, b: Word): Word { seq(WIDTH, i requires 0 <= i < WIDTH => a[i] || b[i]) }
  function Xor(a: Word, b: Word): Word { seq(WIDTH, i requires 0 <= i < WIDTH => a[i] != b[i]) }
  function Not(a: Word): Word { seq(WIDTH, i requires 0 <= i < WIDTH => !a[i]) }
  function ShiftLeft(a: Word, n: nat): Word {
    seq(WIDTH, i requires 0 <= i < WIDTH => i >= n && a[i - n])
  }
  function ShiftRight(a: Word, n: nat): Word {
    seq(WIDTH, i requires 0 <= i < WIDTH => i + n < WIDTH && a[i + n])
  }

  /** sizemask of a table of 2^k buckets. */
  function Mask(k: nat): Word
    requires k <= WIDTH
  {
    Fill(k, true) + Fill(WIDTH - k, false)
  }

  /** `v & mask` as a bucket number depends on the k low bits only. */
  lemma AndMask(v: Word, k: nat)
    requires k <= WIDTH
    ensures Value(And(v, Mask(k))) == Value(v[..k]) < Pow2(k)
  {
    assert And(v, Mask(k)) == v[..k] + Fill(WIDTH - k, false);
    ValueZeros(v[..k], WIDTH - k);
  }

  // ---- rev ----

  predicate BlockSize(s: nat) { s == 64 || s == 32 || s == 16 || s == 8 || s == 4 || s == 2 || s == 1 }

  /** First bit of the block of `s` bits holding bit `i`. */
  function BlockStart(i: nat, s: nat): (b: nat)
    requires BlockSize(s) && i < WIDTH
    ensures b <= i < b + s <= WIDTH
    decreases WIDTH - s
  {
    if s == WIDTH then 0
    else
      var b := BlockStart(i, 2 * s);
      if i < b + s then b else b + s
  }

  /** Where bit `i` comes from once blocks of `s` bits have been put in reverse order. */
  function BlockSource(i: nat, s: nat): int
    requires BlockSize(s) && i < WIDTH
  {
    WIDTH - s - BlockStart(i, s) + (i - BlockStart(i, s))
  }

  /** Bit `i` lies in the lower half of its block of 2s bits. */
  predicate LowerHalf(i: nat, s: nat)
    requires BlockSize(s) && s < 64 && i < WIDTH
  {
    BlockStart(i, s) == BlockStart(i, 2 * s)
  }

  lemma {:induction false} SameBlock(i: nat, j: nat, s: nat)
    requires BlockSize(s) && i < WIDTH && BlockStart(i, s) <= j < BlockStart(i, s) + s
    ensures BlockStart(j, s) == BlockStart(i, s)
    decreases WIDTH - s
  {
    if s < WIDTH { SameBlock(i, j, 2 * s); }
  }

  lemma SplitBlock(i: nat, s: nat)
    requires BlockSize(s) && s < WIDTH && i < WIDTH
    ensures BlockStart(i, s) == if i < BlockStart(i, 2 * s) + s then BlockStart(i, 2 * s) else BlockStart(i, 2 * s) + s
  {
  }

  lemma {:induction false} PreviousBlock(i: nat, s: nat)
    requires BlockSize(s) && i < WIDTH && BlockStart(i, s) > 0
    ensures BlockStart(i, s) >= s && BlockStart(BlockStart(i, s) - 1, s) == BlockStart(i, s) - s
    decreases WIDTH - s
  {
    hide BlockStart;
    if s < WIDTH {
      var b, p := BlockStart(i, 2 * s), BlockStart(i, s) - 1;
      SplitBlock(i, s);
      SplitBlock(p, s);
      if BlockStart(i, s) == b {
        PreviousBlock(i, 2 * s);
      } else {
        SameBlock(i, p, 2 * s);
      }
    }
  }

  lemma Halves(i: nat, s: nat)
    requires BlockSize(s) && s < WIDTH && i < WIDTH
    ensures LowerHalf(i, s) ==> i + s < WIDTH && BlockStart(i + s, 2 * s) == BlockStart(i, s)
    ensures !LowerHalf(i, s) ==> i >= s && BlockStart(i - s, 2 * s) == BlockStart(i, s) - s
  {
    hide BlockStart;
    SplitBlock(i, s);
    if LowerHalf(i, s) {
      SameBlock(i, i + s, 2 * s);
    } else {
      SameBlock(i, i - s, 2 * s);
    }
  }

  lemma Quarters(i: nat, s: nat)
    requires BlockSize(s) && s < 32 && i < WIDTH
    ensures LowerHalf(i, s) <==> LowerHalf(i, 2 * s) != (i >= s && LowerHalf(i - s, 2 * s))
  {
    hide BlockStart;
    var b := BlockStart(i, 4 * s);
    SplitBlock(i, s);
    SplitBlock(i, 2 * s);
    if i >= s {
      SplitBlock(i - s, 2 * s);
      if i - b >= s {
        SameBlock(i, i - s, 4 * s);
      } else {
        PreviousBlock(i, 4 * s);
        SameBlock(b - 1, i - s, 4 * s);
      }
    }
  }

  /** Bits of the mask used by the swap of blocks of `s` bits. */
  predicate Alternating(mask: Word, s: nat)
    requires BlockSize(s)
  {
    forall i :: 0 <= i < WIDTH ==> (mask[i] <==> s == 64 || LowerHalf(i, s))
  }

  predicate BlocksReversed(v0: Word, v: Word, s: nat)
    requires BlockSize(s)
  {
    forall i :: 0 <= i < WIDTH ==> 0 <= BlockSource(i, s) < WIDTH && v[i] == v0[BlockSource(i, s)]
  }

  lemma MaskStep(mask: Word, s: nat)
    requires BlockSize(s) && s < 64 && Alternating(mask, 2 * s)
    ensures Alternating(Xor(mask, ShiftLeft(mask, s)), s)
  {
    hide BlockStart;
    forall i | 0 <= i < WIDTH
      ensures Xor(mask, ShiftLeft(mask, s))[i] <==> LowerHalf(i, s)
    {
      if s < 32 { Quarters(i, s); } else { SplitBlock(i, 32); }
    }
  }

  lemma SwapBit(v0: Word, v: Word, mask: Word, s: nat, i: nat)
    requires BlockSize(s) && s < WIDTH && i < WIDTH
    requires BlocksReversed(v0, v, 2 * s) && Alternating(mask, s)
    ensures 0 <= BlockSource(i, s) < WIDTH
    ensures Or(And(ShiftRight(v, s), mask), And(ShiftLeft(v, s), Not(mask)))[i] == v0[BlockSource(i, s)]
  {
    hide BlockStart;
    Halves(i, s);
    if LowerHalf(i, s) {
      assert BlockSource(i + s, 2 * s) == BlockSource(i, s);
    } else {
      assert BlockSource(i - s, 2 * s) == BlockSource(i, s);
    }
  }

  lemma SwapStep(v0: Word, v: Word, mask: Word, s: nat)
    requires BlockSize(s) && s < WIDTH
    requires BlocksReversed(v0, v, 2 * s) && Alternating(mask, s)
    ensures BlocksReversed(v0, Or(And(ShiftRight(v, s), mask), And(ShiftLeft(v, s), Not(mask))), s)
  {
    hide BlockSource, And, Or, Not, ShiftLeft, ShiftRight, Alternating;
    var w := Or(And(ShiftRight(v, s), mask), And(ShiftLeft(v, s), Not(mask)));
    forall i | 0 <= i < WIDTH
      ensures 0 <= BlockSource(i, s) < WIDTH && w[i] == v0[BlockSource(i, s)]
    {
      SwapBit(v0, v, mask, s, i);
    }
  }

  lemma WholeBlock(v: Word)
    ensures BlocksReversed(v, v, WIDTH) && Alternating(Not(ZERO), WIDTH)
  {
    hide BlockStart;
  }

  lemma SingleBits(v0: Word, v: Word)
    requires BlocksReversed(v0, v, 1)
    ensures v == Reverse(v0)
  {
    hide BlockStart;
    assert forall i :: 0 <= i < WIDTH ==> BlockSource(i, 1) == 63 - i;
  }

  /** dict.c `rev`: swaps blocks of 32, 16, ..., 1 bits; the result is the full bit reversal. */
  method Rev(v0: Word) returns (v: Word)
    ensures v == Reverse(v0)
  {
    hide BlocksReversed, Alternating, And, Or, Xor, Not, ShiftLeft, ShiftRight, Reverse;
    v := v0;
    WholeBlock(v0);
    var s := WIDTH;
    var mask: Word := Not(ZERO);
    while s / 2 > 0
      invariant BlockSize(s) && Alternating(mask, s) && BlocksReversed(v0, v, s)
      decreases s
    {
      s := s / 2;
      MaskStep(mask, s);
      mask := Xor(mask, ShiftLeft(mask, s));
      SwapStep(v0, v, mask, s);
      v := Or(And(ShiftRight(v, s), mask), And(ShiftLeft(v, s), Not(mask)));
    }
    SingleBits(v0, v);
  }

  lemma ReverseInvolutive(v: Word)
    ensures Reverse(Reverse(v)) == v
  {
  }

  // ---- the reverse-binary cursor ----

  /** Cursor order of dictScan: the cursor read with its bits reversed. */
  function Pos(v: Word): nat { Mirror(v) }

  /** The cursor after `v |= ~mask; v = rev(v); v++; v = rev(v)`. */
  function NextCursor(v: Word, mask: Word): Word {
    Reverse(Increment(Reverse(Or(v, Not(mask)))))
  }

  /** The cursor prefix selecting a bucket of a 2^k table: cursors and hashes with equal
      prefixes fall into the same bucket. */
  function Prefix(v: Word, k: nat): nat
    requires k <= WIDTH
  {
    Mirror(v[..k])
  }

  lemma PosPrefix(v: Word, k: nat)
    requires k <= WIDTH
    ensures Prefix(v, k) * Pow2(WIDTH - k) <= Pos(v) < (Prefix(v, k) + 1) * Pow2(WIDTH - k)
    ensures Prefix(v, k) < Pow2(k)
  {
    hide Mirror;
    assert v == v[..k] + v[k..];
    MirrorConcat(v[..k], v[k..]);
    WithinScale(Prefix(v, k), Pow2(WIDTH - k), Mirror(v[k..]));
  }

  lemma WithinScale(p: nat, q: nat, r: nat)
    requires r < q
    ensures p * q <= p * q + r < (p + 1) * q
  {
  }

  lemma PosOfMasked(v: Word, w: Word, k: nat)
    requires k <= WIDTH && w == Or(v, Not(Mask(k)))
    ensures Pos(w) + 1 == (Prefix(v, k) + 1) * Pow2(WIDTH - k)
  {
    assert w == v[..k] + Fill(WIDTH - k, true);
    hide Mirror;
    MirrorConcat(v[..k], Fill(WIDTH - k, true));
    MirrorOnes(WIDTH - k);
    ScaledEqual(Prefix(v, k), 0, Pow2(WIDTH - k));
  }

  lemma ScaledEqual(p: nat, m: nat, q: nat)
    requires q > 0
    ensures p * q == m * q <==> p == m
    ensures (p + 1) * q == p * q + q
  {
  }

  /** Advancing the cursor by one bucket of a 2^k table: the next multiple of 2^(64-k), or 0 at the end. */
  lemma NextCursorPos(v: Word, k: nat)
    requires k <= WIDTH
    ensures Pos(NextCursor(v, Mask(k)))
         == if Prefix(v, k) + 1 == Pow2(k) then 0 else (Prefix(v, k) + 1) * Pow2(WIDTH - k)
  {
    hide Mirror, Value, Increment, Or, Not, Mask;
    var w := Or(v, Not(Mask(k)));
    PosOfMasked(v, w, k);
    var r := Increment(Reverse(w));
    assert Pos(Reverse(r)) == Value(r) by {
      ValueReverse(Reverse(r));
      assert Reverse(Reverse(r)) == r;
    }
    ValueReverse(w);
    ValueIncrement(Reverse(w));
    Pow2Add(k, WIDTH - k);
    ScaledEqual(Prefix(v, k) + 1, Pow2(k), Pow2(WIDTH - k));
  }
}
