/** redisPopcount: counting the one bits of a byte string, 28 bytes at a time with word-parallel
    sums, against the plain bit-by-bit count. */
module PopCount {

  // ---- the plain definition ----

  function Bit(b: bool): nat { if b then 1 else 0 }

  /** One bits of a byte. */
  function Ones(b: bv8): nat {
    Bit(b & 1 != 0) + Bit(b & 2 != 0) + Bit(b & 4 != 0) + Bit(b & 8 != 0) +
    Bit(b & 16 != 0) + Bit(b & 32 != 0) + Bit(b & 64 != 0) + Bit(b & 128 != 0)
  }

  /** One bits of a byte string. */
  function TotalOnes(s: seq<bv8>): nat {
    if s == [] then 0 else Ones(s[0]) + TotalOnes(s[1..])
  }

  // ---- numeric value of a small word ----

  /** The number written by a word, counted up. */
  function Num(x: bv32): nat {
    if x == 0 then 0 else 1 + Num(x - 1)
  }

  lemma AddStep(x: bv32, y: bv32)
    requires x <= 0xff && y <= 0xff && y != 0
    ensures x + y != 0 && (x + y) - 1 == x + (y - 1) && y - 1 <= 0xff && y - 1 < y
  {
  }

  lemma {:induction false} NumAdd(x: bv32, y: bv32)
    requires x <= 0xff && y <= 0xff
    ensures Num(x + y) == Num(x) + Num(y)
    decreases Num(y)
  {
    hide Num;
    if y == 0 {
      AddZero(x);
      NumZero();
    } else {
      AddStep(x, y);
      var z := y - 1;
      NumStep(y);
      NumAdd(x, z);
      NumStep(x + y);
    }
  }

  lemma AddZero(x: bv32)
    ensures x + 0 == x
  {
  }

  lemma NumStep(x: bv32)
    requires x != 0
    ensures Num(x) == 1 + Num(x - 1)
  {
  }

  lemma NumZero()
    ensures Num(0) == 0
  {
  }

  lemma NumBit(x: bv32)
    requires x <= 1
    ensures Num(x) == Bit(x != 0)
  {
    if x != 0 { assert x == 1; assert Num(0) == 0; }
  }

  // ---- word-parallel sums ----

  /** Byte-wise bit counts of a word. */
  function Swar(x: bv32): bv32 {
    var a := x - ((x >> 1) & 0x55555555);
    var b := (a & 0x33333333) + ((a >> 2) & 0x33333333);
    (b + (b >> 4)) & 0x0F0F0F0F
  }

  function B0(x: bv32): bv32 { x & 0xff }
  function B1(x: bv32): bv32 { (x >> 8) & 0xff }
  function B2(x: bv32): bv32 { (x >> 16) & 0xff }
  function B3(x: bv32): bv32 { x >> 24 }

  /** Sum of the low eight bits, in word arithmetic. */
  function LowSum(x: bv32): bv32 {
    (x & 1) + ((x >> 1) & 1) + ((x >> 2) & 1) + ((x >> 3) & 1) +
    ((x >> 4) & 1) + ((x >> 5) & 1) + ((x >> 6) & 1) + ((x >> 7) & 1)
  }

  lemma SwarByte0(x: bv32) ensures B0(Swar(x)) == LowSum(x) {}
  lemma SwarByte1(x: bv32) ensures B1(Swar(x)) == LowSum(x >> 8) {}
  lemma SwarByte2(x: bv32) ensures B2(Swar(x)) == LowSum(x >> 16) {}
  lemma SwarByte3(x: bv32) ensures B3(Swar(x)) == LowSum(x >> 24) {}
  lemma LowSumSmall(x: bv32) ensures LowSum(x) <= 8 {}

  // ---- value of a word made of four bytes ----

  /** The 32-bit load of four bytes. */
  function Load(a: bv8, b: bv8, c: bv8, d: bv8): bv32 {
    (a as bv32) | ((b as bv32) << 8) | ((c as bv32) << 16) | ((d as bv32) << 24)
  }

  lemma LowSumOfByte(x: bv32, b: bv8)
    requires x & 0xff == b as bv32
    ensures Num(LowSum(x)) == Ones(b) && LowSum(x) <= 8
  {
    LowSumSmall(x);
    var b0, b1, b2, b3 := x & 1, (x >> 1) & 1, (x >> 2) & 1, (x >> 3) & 1;
    var b4, b5, b6, b7 := (x >> 4) & 1, (x >> 5) & 1, (x >> 6) & 1, (x >> 7) & 1;
    EightBits(b0, b1, b2, b3, b4, b5, b6, b7);
    BitsOfByte(x, b);
  }

  lemma BitsOfByte(x: bv32, b: bv8)
    requires x & 0xff == b as bv32
    ensures (x & 1 != 0 <==> b & 1 != 0) && ((x >> 1) & 1 != 0 <==> b & 2 != 0)
    ensures ((x >> 2) & 1 != 0 <==> b & 4 != 0) && ((x >> 3) & 1 != 0 <==> b & 8 != 0)
    ensures ((x >> 4) & 1 != 0 <==> b & 16 != 0) && ((x >> 5) & 1 != 0 <==> b & 32 != 0)
    ensures ((x >> 6) & 1 != 0 <==> b & 64 != 0) && ((x >> 7) & 1 != 0 <==> b & 128 != 0)
  {
  }

  lemma EightBits(b0: bv32, b1: bv32, b2: bv32, b3: bv32, b4: bv32, b5: bv32, b6: bv32, b7: bv32)
    requires b0 <= 1 && b1 <= 1 && b2 <= 1 && b3 <= 1 && b4 <= 1 && b5 <= 1 && b6 <= 1 && b7 <= 1
    ensures Num(b0 + b1 + b2 + b3 + b4 + b5 + b6 + b7) ==
      Bit(b0 != 0) + Bit(b1 != 0) + Bit(b2 != 0) + Bit(b3 != 0) +
      Bit(b4 != 0) + Bit(b5 != 0) + Bit(b6 != 0) + Bit(b7 != 0)
  {
    hide Num;
    NumBit(b0);
    NumAddBit(b0, b1, 1);
    NumAddBit(b0 + b1, b2, 2);
    NumAddBit(b0 + b1 + b2, b3, 3);
    NumAddBit(b0 + b1 + b2 + b3, b4, 4);
    NumAddBit(b0 + b1 + b2 + b3 + b4, b5, 5);
    NumAddBit(b0 + b1 + b2 + b3 + b4 + b5, b6, 6);
    NumAddBit(b0 + b1 + b2 + b3 + b4 + b5 + b6, b7, 7);
  }

  /** Adding one bit to a small sum. */
  lemma NumAddBit(s: bv32, b: bv32, n: bv32)
    requires s <= n && n <= 7 && b <= 1
    ensures Num(s + b) == Num(s) + Bit(b != 0) && s + b <= n + 1
  {
    hide Num;
    NumBit(b);
    NumAdd(s, b);
  }

  lemma LoadBytes(a: bv8, b: bv8, c: bv8, d: bv8)
    ensures var x := Load(a, b, c, d);
      && x & 0xff == a as bv32 && (x >> 8) & 0xff == b as bv32
      && (x >> 16) & 0xff == c as bv32 && (x >> 24) & 0xff == d as bv32
  {
  }

  /** The number in a word, byte by byte. */
  function NumWord(x: bv32): nat {
    Num(B0(x)) + 0x100 * Num(B1(x)) + 0x1_0000 * Num(B2(x)) + 0x100_0000 * Num(B3(x))
  }

  lemma NumOfByteTop()
    ensures Num(0xff) == 255
  {
    NumAdd(1, 1);
    NumAdd(2, 2);
    NumAdd(4, 4);
    NumAdd(8, 8);
    NumAdd(16, 16);
    NumAdd(32, 32);
    NumAdd(64, 64);
    NumAdd(128, 127);
    assert Num(128) == 1 + Num(127);
    assert Num(1) == 1 + Num(0);
  }

  /** NumWord counts up from zero with the word, so it is the number the word stands for. */
  lemma NumWordCounts(x: bv32)
    ensures NumWord(0) == 0
    ensures x != 0xffff_ffff ==> NumWord(x + 1) == NumWord(x) + 1
  {
    hide NumWord;
    NumWordZero();
    if x != 0xffff_ffff { NumWordNext(x); }
  }

  lemma NumWordZero()
    ensures NumWord(0) == 0
  {
  }

  lemma BytesSmall(x: bv32)
    ensures B0(x) <= 0xff && B1(x) <= 0xff && B2(x) <= 0xff && B3(x) <= 0xff
  {
  }

  lemma NoCarry(x: bv32)
    requires B0(x) != 0xff
    ensures B0(x + 1) == B0(x) + 1 && B1(x + 1) == B1(x) && B2(x + 1) == B2(x) && B3(x + 1) == B3(x)
  {
  }

  lemma OneCarry(x: bv32)
    requires B0(x) == 0xff && B1(x) != 0xff
    ensures B0(x + 1) == 0 && B1(x + 1) == B1(x) + 1 && B2(x + 1) == B2(x) && B3(x + 1) == B3(x)
  {
  }

  lemma TwoCarries(x: bv32)
    requires B0(x) == 0xff && B1(x) == 0xff && B2(x) != 0xff
    ensures B0(x + 1) == 0 && B1(x + 1) == 0 && B2(x + 1) == B2(x) + 1 && B3(x + 1) == B3(x)
  {
  }

  lemma ThreeCarries(x: bv32)
    requires B0(x) == 0xff && B1(x) == 0xff && B2(x) == 0xff && x != 0xffff_ffff
    ensures B0(x + 1) == 0 && B1(x + 1) == 0 && B2(x + 1) == 0 && B3(x + 1) == B3(x) + 1
  {
  }

  lemma NumNext(b: bv32)
    requires b <= 0xff
    ensures Num(b + 1) == Num(b) + 1
  {
    NumAdd(b, 1);
    assert Num(1) == 1 + Num(0);
  }

  lemma NumWordNext(x: bv32)
    requires x != 0xffff_ffff
    ensures NumWord(x + 1) == NumWord(x) + 1
  {
    hide B0, B1, B2, B3;
    BytesSmall(x);
    NumOfByteTop();
    if B0(x) != 0xff {
      NoCarry(x);
      NumNext(B0(x));
    } else if B1(x) != 0xff {
      OneCarry(x);
      NumNext(B1(x));
    } else if B2(x) != 0xff {
      TwoCarries(x);
      NumNext(B2(x));
    } else {
      ThreeCarries(x);
      NumNext(B3(x));
    }
  }

  /** After the word-parallel sums, each byte of the word holds the bit count of its byte. */
  lemma SwarCounts(a: bv8, b: bv8, c: bv8, d: bv8)
    ensures NumWord(Swar(Load(a, b, c, d))) ==
      Ones(a) + 0x100 * Ones(b) + 0x1_0000 * Ones(c) + 0x100_0000 * Ones(d)
  {
    var x := Load(a, b, c, d);
    LoadBytes(a, b, c, d);
    SwarByte0(x);
    SwarByte1(x);
    SwarByte2(x);
    SwarByte3(x);
    LowSumOfByte(x, a);
    LowSumOfByte(x >> 8, b);
    LowSumOfByte(x >> 16, c);
    LowSumOfByte(x >> 24, d);
  }

  // ---- 28 bytes at a time ----

  function LoadAt(s: seq<bv8>, i: nat): bv32
    requires i + 4 <= |s|
  {
    Load(s[i], s[i + 1], s[i + 2], s[i + 3])
  }

  /** Four bytes of counts: sum of the four, and the packed word. */
  lemma FourBytes(s: seq<bv8>, i: nat) returns (n0: nat, n1: nat, n2: nat, n3: nat)
    requires i + 4 <= |s|
    ensures n0 <= 8 && n1 <= 8 && n2 <= 8 && n3 <= 8
    ensures NumWord(Swar(LoadAt(s, i))) == n0 + 0x100 * n1 + 0x1_0000 * n2 + 0x100_0000 * n3
    ensures TotalOnes(s[i..]) == n0 + n1 + n2 + n3 + TotalOnes(s[i + 4..])
  {
    SwarCounts(s[i], s[i + 1], s[i + 2], s[i + 3]);
    n0, n1, n2, n3 := Ones(s[i]), Ones(s[i + 1]), Ones(s[i + 2]), Ones(s[i + 3]);
    TotalStep(s, i);
    TotalStep(s, i + 1);
    TotalStep(s, i + 2);
    TotalStep(s, i + 3);
  }

  lemma TotalStep(s: seq<bv8>, i: nat)
    requires i < |s|
    ensures TotalOnes(s[i..]) == Ones(s[i]) + TotalOnes(s[i + 1..]) && Ones(s[i]) <= 8
  {
    assert s[i..][1..] == s[i + 1..];
  }

  /** Seven words of byte counts: the byte sums stay at most 56, so the multiplication gathers
      them, at most 224, in the top byte without losing a carry. */
  lemma SevenWords(n0: nat, n1: nat, n2: nat, n3: nat)
    requires n0 <= 56 && n1 <= 56 && n2 <= 56 && n3 <= 56
    ensures var sum := (n0 + 0x100 * n1 + 0x1_0000 * n2 + 0x100_0000 * n3) % 0x1_0000_0000;
      (sum * 0x0101_0101) % 0x1_0000_0000 / 0x100_0000 == n0 + n1 + n2 + n3
  {
    var sum := n0 + 0x100 * n1 + 0x1_0000 * n2 + 0x100_0000 * n3;
    var high := n1 + n2 + n3 + 0x100 * (n2 + n3) + 0x1_0000 * n3;
    var low := n0 + 0x100 * (n0 + n1) + 0x1_0000 * (n0 + n1 + n2) + 0x100_0000 * (n0 + n1 + n2 + n3);
    assert sum % 0x1_0000_0000 == sum by { LowPart(0, sum); }
    assert sum * 0x0101_0101 == high * 0x1_0000_0000 + low && low < 0x1_0000_0000;
    LowPart(high, low);
    TopByte(n0 + n1 + n2 + n3, n0 + 0x100 * (n0 + n1) + 0x1_0000 * (n0 + n1 + n2));
  }

  lemma TopByte(top: nat, rest: nat)
    requires rest < 0x100_0000
    ensures (0x100_0000 * top + rest) / 0x100_0000 == top
  {
  }

  lemma LowPart(high: nat, low: nat)
    requires low < 0x1_0000_0000
    ensures (high * 0x1_0000_0000 + low) % 0x1_0000_0000 == low
  {
  }

  /** One 32-bit load reduced to its byte counts. */
  method CountWord(s: seq<bv8>, i: nat) returns (w: nat, ghost n0: nat, ghost n1: nat, ghost n2: nat, ghost n3: nat)
    requires i + 4 <= |s|
    ensures n0 <= 8 && n1 <= 8 && n2 <= 8 && n3 <= 8 && w == n0 + 0x100 * n1 + 0x1_0000 * n2 + 0x100_0000 * n3
    ensures TotalOnes(s[i..]) == n0 + n1 + n2 + n3 + TotalOnes(s[i + 4..])
  {
    n0, n1, n2, n3 := FourBytes(s, i);
    w := NumWord(Swar(LoadAt(s, i)));
  }

  /** The body of the main loop: seven 32-bit loads. */
  method CountBlock(s: seq<bv8>, i: nat) returns (bits: nat)
    requires i + 28 <= |s|
    ensures TotalOnes(s[i..]) == bits + TotalOnes(s[i + 28..])
  {
    var sum: nat := 0;
    ghost var n0: nat, n1: nat, n2: nat, n3: nat := 0, 0, 0, 0;
    var j, p := 0, i;
    while j < 7
      invariant 0 <= j <= 7 && p == i + 4 * j
      invariant n0 <= 8 * j && n1 <= 8 * j && n2 <= 8 * j && n3 <= 8 * j
      invariant sum == n0 + 0x100 * n1 + 0x1_0000 * n2 + 0x100_0000 * n3
      invariant TotalOnes(s[i..]) == n0 + n1 + n2 + n3 + TotalOnes(s[p..])
    {
      var w: nat;
      ghost var m0: nat, m1: nat, m2: nat, m3: nat;
      w, m0, m1, m2, m3 := CountWord(s, p);
      n0, n1, n2, n3 := n0 + m0, n1 + m1, n2 + m2, n3 + m3;
      sum := AddMod32(sum, w);
      j, p := j + 1, p + 4;
    }
    bits := GatherBytes(sum, n0, n1, n2, n3);
  }

  lemma GatherSum(sum: nat, n0: nat, n1: nat, n2: nat, n3: nat)
    requires n0 <= 56 && n1 <= 56 && n2 <= 56 && n3 <= 56
    requires sum == n0 + 0x100 * n1 + 0x1_0000 * n2 + 0x100_0000 * n3
    ensures (sum * 0x0101_0101) % 0x1_0000_0000 / 0x100_0000 == n0 + n1 + n2 + n3
  {
    assert sum < 0x1_0000_0000;
    assert sum % 0x1_0000_0000 == sum;
    SevenWords(n0, n1, n2, n3);
  }

  /** The multiplication and shift that add up the four bytes of the sum. */
  method GatherBytes(sum: nat, ghost n0: nat, ghost n1: nat, ghost n2: nat, ghost n3: nat) returns (bits: nat)
    requires n0 <= 56 && n1 <= 56 && n2 <= 56 && n3 <= 56
    requires sum == n0 + 0x100 * n1 + 0x1_0000 * n2 + 0x100_0000 * n3
    ensures bits == n0 + n1 + n2 + n3
  {
    GatherSum(sum, n0, n1, n2, n3);
    bits := (sum * 0x0101_0101) % 0x1_0000_0000 / 0x100_0000;
  }

  /** Addition of 32-bit unsigned numbers. */
  function AddMod32(x: nat, y: nat): (r: nat)
    ensures x + y < 0x1_0000_0000 ==> r == x + y
  {
    (x + y) % 0x1_0000_0000
  }

  /** redisPopcount on `s` placed at address `addr`: single bytes up to a 4-byte boundary, blocks
      of 28 bytes, then the remaining bytes. */
  method RedisPopcount(s: seq<bv8>, addr: nat) returns (bits: nat)
    ensures bits == TotalOnes(s)
  {
    bits := 0;
    var i := 0;
    while (addr + i) % 4 != 0 && i < |s|
      invariant 0 <= i <= |s| && TotalOnes(s) == bits + TotalOnes(s[i..])
      decreases |s| - i
    {
      TotalStep(s, i);
      bits := bits + Ones(s[i]);
      i := i + 1;
    }
    while |s| - i >= 28
      invariant 0 <= i <= |s| && TotalOnes(s) == bits + TotalOnes(s[i..])
    {
      var n := CountBlock(s, i);
      bits := bits + n;
      i := i + 28;
    }
    while i < |s|
      invariant 0 <= i <= |s| && TotalOnes(s) == bits + TotalOnes(s[i..])
    {
      TotalStep(s, i);
      bits := bits + Ones(s[i]);
      i := i + 1;
    }
  }
}
