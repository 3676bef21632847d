/** Bit strings of Redis: bit 0 is the most significant bit of the first byte. */
module Bitmap {
  import opened Words

  function MsbMask(k: nat): bv8
    requires k < 8
  {
    if k == 0 then 0x80 else if k == 1 then 0x40 else if k == 2 then 0x20 else if k == 3 then 0x10
    else if k == 4 then 8 else if k == 5 then 4 else if k == 6 then 2 else 1
  }

  predicate BitOf(b: bv8, k: nat)
    requires k < 8
  {
    b & MsbMask(k) != 0
  }

  /** Bit `i` of the string, zero beyond its end. */
  predicate Bit(s: seq<bv8>, i: nat) {
    i / 8 < |s| && BitOf(s[i / 8], i % 8)
  }

  lemma ByteZero(b: bv8)
    ensures b == 0 <==> forall k :: 0 <= k < 8 ==> !BitOf(b, k)
  {
    if forall k :: 0 <= k < 8 ==> !BitOf(b, k) {
      assert !BitOf(b, 0) && !BitOf(b, 1) && !BitOf(b, 2) && !BitOf(b, 3);
      assert !BitOf(b, 4) && !BitOf(b, 5) && !BitOf(b, 6) && !BitOf(b, 7);
    }
  }

  lemma ByteOnes(b: bv8)
    ensures b == 0xff <==> forall k :: 0 <= k < 8 ==> BitOf(b, k)
  {
    if forall k :: 0 <= k < 8 ==> BitOf(b, k) {
      assert BitOf(b, 0) && BitOf(b, 1) && BitOf(b, 2) && BitOf(b, 3);
      assert BitOf(b, 4) && BitOf(b, 5) && BitOf(b, 6) && BitOf(b, 7);
    }
  }

  /** All the bits of the bytes from..to have this value. */
  ghost predicate AllBits(s: seq<bv8>, from: nat, to: nat, v: bool) {
    forall i :: 8 * from <= i < 8 * to ==> Bit(s, i) == v
  }

  lemma SkipByte(s: seq<bv8>, i: nat, v: bool)
    requires i < |s| && s[i] == if v then 0xff else 0
    ensures AllBits(s, i, i + 1, v)
  {
    ByteZero(s[i]);
    ByteOnes(s[i]);
    forall j | 8 * i <= j < 8 * (i + 1)
      ensures Bit(s, j) == v
    {
      assert j / 8 == i;
    }
  }

  lemma OtherByte(s: seq<bv8>, i: nat, v: bool)
    requires i < |s| && s[i] != if v then 0xff else 0
    ensures exists j :: 8 * i <= j < 8 * (i + 1) && Bit(s, j) != v
  {
    ByteZero(s[i]);
    ByteOnes(s[i]);
    var k :| 0 <= k < 8 && BitOf(s[i], k) != v;
    assert (8 * i + k) / 8 == i && (8 * i + k) % 8 == k;
    assert Bit(s, 8 * i + k) != v;
  }

  // ---- redisBitpos ----

  /** A byte widened to an unsigned long. */
  function Widen(b: bv8): Word {
    seq(WIDTH, i requires 0 <= i < WIDTH => i < 8 && BitOf(b, 7 - i))
  }

  /** Byte-wise test of one aligned word against all zeros or all ones. */
  method WordIs(s: seq<bv8>, i: nat, v: bool) returns (same: bool)
    requires i + 8 <= |s|
    ensures same ==> AllBits(s, i, i + 8, v)
    ensures !same ==> exists j :: 8 * i <= j < 8 * (i + 8) && Bit(s, j) != v
  {
    var k := 0;
    while k < 8
      invariant 0 <= k <= 8 && AllBits(s, i, i + k, v)
    {
      if s[i + k] != (if v then 0xff else 0) {
        OtherByte(s, i + k, v);
        return false;
      }
      SkipByte(s, i + k, v);
      k := k + 1;
    }
    return true;
  }

  /** Bit `k` of a word, the most significant one being bit 0. */
  predicate Top(w: Word, k: nat)
    requires k < WIDTH
  {
    w[WIDTH - 1 - k]
  }

  /** The word holds the 64 bits of the string from byte `c` on. */
  ghost predicate Loaded(s: seq<bv8>, c: nat, word: Word) {
    forall k :: 0 <= k < WIDTH ==> Top(word, k) == Bit(s, 8 * c + k)
  }

  /** The eight bytes from `i` on, first byte most significant, padded with zeros. */
  method LoadWord(s: seq<bv8>, i: nat) returns (word: Word)
    requires i <= |s|
    ensures Loaded(s, i, word)
  {
    word := ZERO;
    var j := 0;
    while j < 8
      invariant 0 <= j <= 8
      invariant forall n :: 0 <= n < WIDTH ==> word[n] == (n < 8 * j && Bit(s, 8 * i + 8 * j - 1 - n))
    {
      ghost var was := word;
      word := ShiftLeft(word, 8);
      if i + j < |s| {
        word := Or(word, Widen(s[i + j]));
      }
      forall n | 0 <= n < WIDTH
        ensures word[n] == (n < 8 * (j + 1) && Bit(s, 8 * i + 8 * (j + 1) - 1 - n))
      {
        if n < 8 {
          var p := 8 * i + 8 * (j + 1) - 1 - n;
          assert p == 8 * (i + j) + (7 - n);
          assert p / 8 == i + j && p % 8 == 7 - n;
        } else {
          assert ShiftLeft(was, 8)[n] == was[n - 8];
        }
      }
      j := j + 1;
    }
    forall k | 0 <= k < WIDTH
      ensures Top(word, k) == Bit(s, 8 * i + k)
    {
      assert 8 * i + 64 - 1 - (WIDTH - 1 - k) == 8 * i + k;
    }
  }

  /** The word with only the bit of weight 2^k set. */
  function Single(k: nat): Word { seq(WIDTH, i requires 0 <= i < WIDTH => i == k) }

  lemma TestSingle(w: Word, k: nat)
    requires k < WIDTH
    ensures And(Single(k), w) != ZERO <==> w[k]
  {
    var x := And(Single(k), w);
    assert x[k] == w[k] && !ZERO[k];
    if !w[k] { assert x == ZERO; }
  }

  /** Bit-by-bit scan of the last word. */
  method ScanWord(word: Word, bit: bool) returns (k: nat)
    requires exists i :: 0 <= i < WIDTH && Top(word, i) == bit
    ensures k < WIDTH && Top(word, k) == bit
    ensures forall i :: 0 <= i < k ==> Top(word, i) != bit
  {
    var one := Not(ShiftRight(Not(ZERO), 1));
    k := 0;
    assert one == Single(WIDTH - 1);
    while one != ZERO
      invariant k <= WIDTH && one == ShiftedOne(k)
      invariant forall i :: 0 <= i < k ==> Top(word, i) != bit
      decreases WIDTH - k
    {
      TestSingle(word, WIDTH - 1 - k);
      if (And(one, word) != ZERO) == bit { return k; }
      ShiftOne(k);
      k := k + 1;
      one := ShiftRight(one, 1);
    }
    OneNonZero(k);
    assert false;
  }

  /** The most significant bit shifted right `k` times. */
  function ShiftedOne(k: nat): Word { if k < WIDTH then Single(WIDTH - 1 - k) else ZERO }

  lemma ShiftOne(k: nat)
    requires k < WIDTH
    ensures ShiftRight(ShiftedOne(k), 1) == ShiftedOne(k + 1)
  {
  }

  lemma OneNonZero(k: nat)
    ensures ShiftedOne(k) == ZERO ==> k >= WIDTH
  {
    if k < WIDTH { assert ShiftedOne(k)[WIDTH - 1 - k] && !ZERO[WIDTH - 1 - k]; }
  }

  /** redisBitpos on `s` placed at address `addr`: the leftmost bit with the wanted value, the
      string being zero padded on the right; -1 when a one is wanted and there is none. The panic
      after the last loop is unreachable. */
  method RedisBitpos(s: seq<bv8>, addr: nat, bit: bool) returns (r: int)
    ensures r >= -1 && (r == -1 <==> bit && forall i :: 0 <= i < 8 * |s| ==> !Bit(s, i))
    ensures r >= 0 ==> Bit(s, r) == bit && forall i :: 0 <= i < r ==> Bit(s, i) != bit
  {
    var c := 0;
    var found := false;
    while (addr + c) % 8 != 0 && c < |s| && !found
      invariant 0 <= c <= |s| && AllBits(s, 0, c, !bit)
      invariant found ==> c < |s| && exists j :: 8 * c <= j < 8 * (c + 1) && Bit(s, j) == bit
      decreases |s| - c, !found
    {
      if s[c] != (if bit then 0 else 0xff) {
        OtherByte(s, c, !bit);
        found := true;
      } else {
        SkipByte(s, c, !bit);
        c := c + 1;
      }
    }
    var differs := false;
    while !found && |s| - c >= 8 && !differs
      invariant 0 <= c <= |s| && AllBits(s, 0, c, !bit)
      invariant differs ==> c + 8 <= |s| && exists j :: 8 * c <= j < 8 * (c + 8) && Bit(s, j) == bit
      decreases |s| - c, !differs
    {
      var same := WordIs(s, c, !bit);
      if same { c := c + 8; } else { differs := true; }
    }
    var word := LoadWord(s, c);
    if bit && word == ZERO {
      NoMoreOnes(s, c, word);
      return -1;
    }
    if bit {
      SomeOne(s, c, word);
    } else if !found && !differs {
      assert !Bit(s, 8 * |s|);
    }
    ghost var j :| 8 * c <= j < 8 * c + 64 && Bit(s, j) == bit;
    assert Top(word, j - 8 * c) == Bit(s, 8 * c + (j - 8 * c));
    var k := ScanWord(word, bit);
    r := 8 * c + k;
    FirstMatch(s, c, word, bit, k);
  }

  lemma NoMoreOnes(s: seq<bv8>, c: nat, word: Word)
    requires word == ZERO && Loaded(s, c, word)
    ensures forall i :: 8 * c <= i < 8 * c + 64 ==> !Bit(s, i)
  {
    forall i | 8 * c <= i < 8 * c + 64
      ensures !Bit(s, i)
    {
      assert Top(word, i - 8 * c) == Bit(s, 8 * c + (i - 8 * c));
    }
  }

  lemma SomeOne(s: seq<bv8>, c: nat, word: Word)
    requires word != ZERO && Loaded(s, c, word)
    ensures exists j :: 8 * c <= j < 8 * c + 64 && Bit(s, j)
  {
    var i :| 0 <= i < WIDTH && word[i] != ZERO[i];
    assert Top(word, WIDTH - 1 - i) == Bit(s, 8 * c + (WIDTH - 1 - i));
  }

  lemma FirstMatch(s: seq<bv8>, c: nat, word: Word, bit: bool, k: nat)
    requires Loaded(s, c, word) && AllBits(s, 0, c, !bit) && k < WIDTH && Top(word, k) == bit
    requires forall i :: 0 <= i < k ==> Top(word, i) != bit
    ensures Bit(s, 8 * c + k) == bit && forall i :: 0 <= i < 8 * c + k ==> Bit(s, i) != bit
  {
    forall i | 0 <= i < 8 * c + k
      ensures Bit(s, i) != bit
    {
      if i >= 8 * c { assert Top(word, i - 8 * c) == Bit(s, 8 * c + (i - 8 * c)); }
    }
  }
}
