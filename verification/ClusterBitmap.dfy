/** The slot bitmap of a node as bytes, and the count kept beside it. */
module ClusterBitmap {

  function Mask(k: nat): bv8
    requires k < 8
  {
    (1 as bv8) << k
  }

  predicate Has(b: bv8, k: nat)
    requires k < 8
  {
    b & Mask(k) != 0
  }

  function Raise(b: bv8, k: nat): bv8
    requires k < 8
  {
    b | Mask(k)
  }

  function Lower(b: bv8, k: nat): bv8
    requires k < 8
  {
    b & !Mask(k)
  }

  /** bitmapTestBit */
  predicate TestBit(bitmap: seq<bv8>, pos: nat)
    requires pos / 8 < |bitmap|
  {
    Has(bitmap[pos / 8], pos % 8)
  }

  /** The positions of the bits set. */
  function Members(bitmap: seq<bv8>): set<nat> {
    set pos: nat | 0 <= pos < 8 * |bitmap| && TestBit(bitmap, pos)
  }

  lemma MaskBits(b: bv8, i: nat, k: nat)
    requires i < 8 && k < 8
    ensures Has(Raise(b, i), k) <==> i == k || Has(b, k)
    ensures Has(Lower(b, i), k) <==> i != k && Has(b, k)
  {
    MaskIsOneBit(i);
    MaskIsOneBit(k);
    var x, y := Mask(i), Mask(k);
    hide Mask;
    DistinctMasks(i, k);
    BitLogic(b, x, y);
  }

  ghost predicate OneBit(x: bv8) {
    x == 1 || x == 2 || x == 4 || x == 8 || x == 16 || x == 32 || x == 64 || x == 128
  }

  function Power(k: nat): bv8
    requires k < 8
  {
    if k == 0 then 1 else if k == 1 then 2 else if k == 2 then 4 else if k == 3 then 8
    else if k == 4 then 16 else if k == 5 then 32 else if k == 6 then 64 else 128
  }

  lemma MaskIsPower(k: nat)
    requires k < 8
    ensures Mask(k) == Power(k)
  {
    if k == 0 { assert Mask(0) == 1; }
    else if k == 1 { assert Mask(1) == 2; }
    else if k == 2 { assert Mask(2) == 4; }
    else if k == 3 { assert Mask(3) == 8; }
    else if k == 4 { assert Mask(4) == 16; }
    else if k == 5 { assert Mask(5) == 32; }
    else if k == 6 { assert Mask(6) == 64; }
    else { assert Mask(7) == 128; }
  }

  lemma MaskIsOneBit(k: nat)
    requires k < 8
    ensures OneBit(Mask(k))
  {
    MaskIsPower(k);
  }

  lemma DistinctMasks(i: nat, k: nat)
    requires i < 8 && k < 8
    ensures Mask(i) == Mask(k) <==> i == k
  {
    MaskIsPower(i);
    MaskIsPower(k);
  }

  lemma BitLogic(b: bv8, x: bv8, y: bv8)
    requires OneBit(x) && OneBit(y)
    ensures (b | x) & y != 0 <==> x == y || b & y != 0
    ensures b & !x & y != 0 <==> x != y && b & y != 0
  {
  }

  function WithBit(s: seq<bv8>, pos: nat): seq<bv8>
    requires pos / 8 < |s|
  {
    s[pos / 8 := Raise(s[pos / 8], pos % 8)]
  }

  function WithoutBit(s: seq<bv8>, pos: nat): seq<bv8>
    requires pos / 8 < |s|
  {
    s[pos / 8 := Lower(s[pos / 8], pos % 8)]
  }

  lemma TestAfter(s: seq<bv8>, pos: nat, q: nat)
    requires pos / 8 < |s| && q / 8 < |s|
    ensures TestBit(WithBit(s, pos), q) <==> q == pos || TestBit(s, q)
    ensures TestBit(WithoutBit(s, pos), q) <==> q != pos && TestBit(s, q)
  {
    hide Has, Raise, Lower;
    MaskBits(s[pos / 8], pos % 8, q % 8);
    SamePosition(q, pos);
  }

  lemma IsMember(s: seq<bv8>, q: nat)
    requires q < 8 * |s|
    ensures q / 8 < |s| && (q in Members(s) <==> TestBit(s, q))
  {
  }

  lemma SetMembers(s: seq<bv8>, pos: nat)
    requires pos / 8 < |s|
    ensures Members(WithBit(s, pos)) == Members(s) + {pos}
    ensures Members(WithoutBit(s, pos)) == Members(s) - {pos}
  {
    hide TestBit;
    forall q: nat | q < 8 * |s|
      ensures q in Members(WithBit(s, pos)) <==> q == pos || q in Members(s)
      ensures q in Members(WithoutBit(s, pos)) <==> q != pos && q in Members(s)
    {
      IsMember(s, q);
      IsMember(WithBit(s, pos), q);
      IsMember(WithoutBit(s, pos), q);
      TestAfter(s, pos, q);
    }
  }

  lemma Counts(a: set<nat>, pos: nat)
    ensures pos in a ==> a + {pos} == a && |a - {pos}| == |a| - 1
    ensures pos !in a ==> |a + {pos}| == |a| + 1 && a - {pos} == a
  {
  }

  lemma SamePosition(q: nat, pos: nat)
    ensures q == pos <==> q / 8 == pos / 8 && q % 8 == pos % 8
  {
  }

  /** clusterNodeSetSlotBit: the old value of the bit; the count grows if it was clear. */
  method SetSlotBit(bitmap: array<bv8>, numslots: nat, slot: nat) returns (was: bool, count: nat)
    requires slot / 8 < bitmap.Length && numslots == |Members(bitmap[..])|
    modifies bitmap
    ensures was == (slot in old(Members(bitmap[..]))) && Members(bitmap[..]) == old(Members(bitmap[..])) + {slot}
    ensures count == |Members(bitmap[..])|
  {
    hide Has, Raise, Lower, Members;
    ghost var s := bitmap[..];
    SetMembers(s, slot);
    IsMember(s, slot);
    Counts(Members(s), slot);
    was := Has(bitmap[slot / 8], slot % 8);
    bitmap[slot / 8] := Raise(bitmap[slot / 8], slot % 8);
    assert bitmap[..] == WithBit(s, slot);
    count := if was then numslots else numslots + 1;
  }

  /** clusterNodeClearSlotBit: the old value of the bit; the count falls if it was set. */
  method ClearSlotBit(bitmap: array<bv8>, numslots: nat, slot: nat) returns (was: bool, count: nat)
    requires slot / 8 < bitmap.Length && numslots == |Members(bitmap[..])|
    modifies bitmap
    ensures was == (slot in old(Members(bitmap[..]))) && Members(bitmap[..]) == old(Members(bitmap[..])) - {slot}
    ensures count == |Members(bitmap[..])|
  {
    hide Has, Raise, Lower, Members;
    ghost var s := bitmap[..];
    SetMembers(s, slot);
    IsMember(s, slot);
    Counts(Members(s), slot);
    was := Has(bitmap[slot / 8], slot % 8);
    bitmap[slot / 8] := Lower(bitmap[slot / 8], slot % 8);
    assert bitmap[..] == WithoutBit(s, slot);
    count := if was then numslots - 1 else numslots;
  }
}
