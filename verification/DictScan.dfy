/** dictScan: the stateless reverse-binary cursor, and its guarantee over whole scans. */
module DictScan {
  import opened Wrappers
  import opened Words
  import opened DictModel
  import opened DictMap

  // ---- cursor arithmetic ----

  lemma ScaleLess(p: int, m: int, q: int)
    requires q > 0
    ensures p < m ==> p * q + q <= m * q
    ensures p <= m ==> p * q <= m * q
  {
    MulSub(m, p, q);
    if p < m { MulAtLeast(m - p, q); }
  }

  lemma MulSub(m: int, p: int, q: int)
    ensures (m - p) * q == m * q - p * q
  {
  }

  lemma MulAtLeast(x: int, q: int)
    requires x >= 1 && q > 0
    ensures x * q >= q
  {
  }

  lemma SuccessorSplit(p: int, m: int, q: int, r: int, s: int)
    requires p * q + r == m * q + s + 1 && 0 <= r < q && 0 <= s < q
    ensures if r == 0 then p == m + 1 else p == m
  {
    ScaleLess(p, m, q);
    ScaleLess(m, p, q);
    ScaleLess(m + 1, p, q);
    assert (m + 1) * q == m * q + q;
  }

  lemma LastSplit(p: int, m: int, q: int, r: int)
    requires p * q + r + 1 == m * q && 0 <= r < q && p < m
    ensures p + 1 == m
  {
    ScaleLess(p + 1, m, q);
    assert (p + 1) * q == p * q + q;
  }

  lemma PosZero(v: Word)
    ensures Pos(v) == 0 <==> v == ZERO
  {
    MirrorZero(v);
    if Pos(v) == 0 { assert v == ZERO; }
  }

  /** The cursor moves forward in reversed order until it comes back to zero. */
  lemma CursorAdvances(v: Word, k: nat)
    requires k <= WIDTH
    ensures var w := NextCursor(v, Mask(k)); w == ZERO || Pos(w) > Pos(v)
  {
    var w := NextCursor(v, Mask(k));
    NextCursorPos(v, k);
    PosPrefix(v, k);
    PosZero(w);
  }

  /** A shorter prefix groups the longer ones. */
  lemma PrefixSplit(v: Word, k0: nat, k1: nat)
    requires k0 <= k1 <= WIDTH
    ensures Prefix(v, k1) == Prefix(v, k0) * Pow2(k1 - k0) + Mirror(v[k0..k1])
    ensures Mirror(v[k0..k1]) < Pow2(k1 - k0)
  {
    hide Mirror, Pow2;
    assert v[..k1] == v[..k0] + v[k0..k1];
    MirrorConcat(v[..k0], v[k0..k1]);
  }

  /** Bits that the smaller table ignores and the larger one uses: `v & (m0 ^ m1)`. */
  predicate MoreExpansions(v: Word, k0: nat, k1: nat)
    requires k0 <= k1 <= WIDTH
  {
    And(v, Xor(Mask(k0), Mask(k1))) != ZERO
  }

  lemma ExpansionBits(v: Word, k0: nat, k1: nat)
    requires k0 <= k1 <= WIDTH
    ensures MoreExpansions(v, k0, k1) <==> Mirror(v[k0..k1]) != 0
  {
    var x := And(v, Xor(Mask(k0), Mask(k1)));
    assert forall i :: 0 <= i < WIDTH ==> x[i] == (v[i] && k0 <= i < k1);
    MirrorZero(v[k0..k1]);
    assert forall i :: 0 <= i < k1 - k0 ==> v[k0..k1][i] == x[k0 + i];
    assert x == ZERO <==> forall i :: 0 <= i < WIDTH ==> !x[i];
    if forall i :: 0 <= i < k1 - k0 ==> !v[k0..k1][i] {
      forall i | k0 <= i < k1
        ensures !x[i]
      {
        assert v[k0..k1][i - k0] == x[i];
      }
    }
  }

  /** One step of the inner loop: the next prefix of the larger table, or 0 after the last. */
  lemma NextPrefix(v: Word, k: nat)
    requires k <= WIDTH
    ensures var w := NextCursor(v, Mask(k));
      && (Prefix(v, k) + 1 == Pow2(k) ==> w == ZERO)
      && (Prefix(v, k) + 1 < Pow2(k) ==> Prefix(w, k) == Prefix(v, k) + 1 && Pos(w) == Prefix(w, k) * Pow2(WIDTH - k))
    ensures Prefix(v, k) < Pow2(k)
  {
    var w := NextCursor(v, Mask(k));
    NextCursorPos(v, k);
    PosPrefix(v, k);
    PosPrefix(w, k);
    PosZero(w);
    PrefixOfMultiple(w, k, Prefix(v, k) + 1);
  }

  lemma PrefixOfMultiple(w: Word, k: nat, p: nat)
    requires k <= WIDTH
    ensures Pos(w) == p * Pow2(WIDTH - k) ==> Prefix(w, k) == p
  {
    PosPrefix(w, k);
    var q := Pow2(WIDTH - k);
    ScaleLess(Prefix(w, k), p, q);
    ScaleLess(p, Prefix(w, k), q);
    ScaleLess(p, Prefix(w, k) + 1, q);
    ScaleLess(Prefix(w, k) + 1, p, q);
  }

  // ---- one call ----

  /** The do-while over the buckets of the larger table that expand the cursor. */
  function ScanLoop<K, V>(t: Table<K, V>, v: Word, k0: nat, k1: nat): (r: (seq<Entry<K, V>>, Word))
    requires k0 <= k1 <= WIDTH
    decreases Pow2(WIDTH) - Pos(v)
  {
    var w := NextCursor(v, Mask(k1));
    var c := ChainAt(t, Value(And(v, Mask(k1))));
    if MoreExpansions(w, k0, k1) then
      ExpansionBits(w, k0, k1);
      CursorAdvances(v, k1);
      LoopDecreases(v, w, k0, k1);
      var (rest, w') := ScanLoop(t, w, k0, k1);
      (c + rest, w')
    else (c, w)
  }

  lemma LoopDecreases(v: Word, w: Word, k0: nat, k1: nat)
    requires k0 <= k1 <= WIDTH && MoreExpansions(w, k0, k1) && (w == ZERO || Pos(w) > Pos(v))
    ensures Pos(w) > Pos(v)
  {
    assert And(ZERO, Xor(Mask(k0), Mask(k1))) == ZERO;
  }

  lemma ScanLoopStep<K, V>(t: Table<K, V>, v: Word, k0: nat, k1: nat, out: seq<Entry<K, V>>)
    requires k0 <= k1 <= WIDTH
    ensures var w := NextCursor(v, Mask(k1));
      var out' := out + ChainAt(t, Value(And(v, Mask(k1))));
      var r := ScanLoop(t, v, k0, k1);
      && (w == ZERO || Pos(w) > Pos(v))
      && (MoreExpansions(w, k0, k1) ==> out + r.0 == out' + ScanLoop(t, w, k0, k1).0 && r.1 == ScanLoop(t, w, k0, k1).1)
      && (!MoreExpansions(w, k0, k1) ==> out + r.0 == out' && r.1 == w)
  {
    CursorAdvances(v, k1);
  }

  function Bits<K, V>(t: Table<K, V>): nat { if t.buckets == [] then 0 else Log2(|t.buckets|) }

  /** dictScan: the entries passed to the callback, in order, and the cursor returned. */
  function Scan<K, V>(d: Dict<K, V>, v: Word): (seq<Entry<K, V>>, Word)
    requires Bits(d.ht0) <= WIDTH && Bits(d.ht1) <= WIDTH
  {
    if d.ht0.used + d.ht1.used == 0 then ([], ZERO)
    else if !d.Rehashing() then
      (ChainAt(d.ht0, Value(And(v, Mask(Bits(d.ht0))))), NextCursor(v, Mask(Bits(d.ht0))))
    else
      var (t0, t1) := if |d.ht0.buckets| > |d.ht1.buckets| then (d.ht1, d.ht0) else (d.ht0, d.ht1);
      var (k0, k1) := (Bits(t0), Bits(t1));
      if k0 > k1 then ([], ZERO)
      else
        var (rest, w) := ScanLoop(t1, v, k0, k1);
        (ChainAt(t0, Value(And(v, Mask(k0)))) + rest, w)
  }

  /** Equal prefixes select the same bucket. */
  lemma SamePrefixSameBucket(v: Word, h: Word, k: nat)
    requires k <= WIDTH && Prefix(v, k) == Prefix(h, k)
    ensures Value(And(v, Mask(k))) == Value(And(h, Mask(k)))
  {
    MirrorInjective(v[..k], h[..k]);
    AndMask(v, k);
    AndMask(h, k);
  }

  lemma PrefixMono(v: Word, h: Word, k: nat)
    requires k <= WIDTH && Pos(v) <= Pos(h)
    ensures Prefix(v, k) <= Prefix(h, k)
  {
    PosPrefix(v, k);
    PosPrefix(h, k);
    ScaleLess(Prefix(h, k), Prefix(v, k), Pow2(WIDTH - k));
  }

  /** Next cursor of the smaller table, in cursor order. */
  ghost predicate EndsAt(v: Word, w: Word, k: nat)
    requires k <= WIDTH
  {
    && (Prefix(v, k) + 1 == Pow2(k) ==> w == ZERO)
    && (Prefix(v, k) + 1 < Pow2(k) ==> Pos(w) == (Prefix(v, k) + 1) * Pow2(WIDTH - k))
  }

  /** When the expansion bits of the next large prefix are zero, the small prefix has advanced by one;
      otherwise it has not moved. */
  lemma StepPrefixes(v: Word, w: Word, k0: nat, k1: nat)
    requires k0 <= k1 <= WIDTH && Prefix(w, k1) == Prefix(v, k1) + 1
    ensures Mirror(w[k0..k1]) == 0 ==> Prefix(w, k0) == Prefix(v, k0) + 1
    ensures Mirror(w[k0..k1]) != 0 ==> Prefix(w, k0) == Prefix(v, k0)
  {
    PrefixSplit(v, k0, k1);
    PrefixSplit(w, k0, k1);
    SuccessorSplit(Prefix(w, k0), Prefix(v, k0), Pow2(k1 - k0), Mirror(w[k0..k1]), Mirror(v[k0..k1]));
  }

  /** The last large prefix belongs to the last small one. */
  lemma LastPrefixes(v: Word, k0: nat, k1: nat)
    requires k0 <= k1 <= WIDTH && Prefix(v, k1) + 1 == Pow2(k1)
    ensures Prefix(v, k0) + 1 == Pow2(k0)
  {
    hide Mirror, Pow2;
    var t, p, r := Prefix(v, k1), Prefix(v, k0), Mirror(v[k0..k1]);
    assert p < Pow2(k0);
    assert t == p * Pow2(k1 - k0) + r && r < Pow2(k1 - k0) by { PrefixSplit(v, k0, k1); }
    LastGroup(p, r, k0, k1 - k0, k1, t);
  }

  lemma LastGroup(p: nat, r: nat, a: nat, b: nat, n: nat, t: nat)
    requires n == a + b && p < Pow2(a) && r < Pow2(b) && t == p * Pow2(b) + r && t + 1 == Pow2(n)
    ensures p + 1 == Pow2(a)
  {
    Pow2Add(a, b);
    LastSplit(p, Pow2(a), Pow2(b), r);
  }

  lemma MulAssoc(a: int, b: int, c: int)
    ensures a * b * c == a * (b * c)
  {
  }

  lemma TailZero(w: Word, k0: nat, k1: nat)
    requires k0 <= k1 <= WIDTH && Pos(w) == Prefix(w, k1) * Pow2(WIDTH - k1) && Mirror(w[k0..k1]) == 0
    ensures Pos(w) == Prefix(w, k0) * Pow2(WIDTH - k0)
  {
    PrefixSplit(w, k0, k1);
    Pow2Add(k1 - k0, WIDTH - k1);
    MulAssoc(Prefix(w, k0), Pow2(k1 - k0), Pow2(WIDTH - k1));
  }

  /** The inner loop visits every large bucket at or after the cursor under the same small
      bucket, and stops at the next small bucket. */
  lemma {:induction false} ScanLoopCovers<K, V>(t: Table<K, V>, v: Word, k0: nat, k1: nat, h: Word, e: Entry<K, V>)
    requires k0 <= k1 <= WIDTH
    ensures e in ChainAt(t, Value(And(h, Mask(k1)))) && Prefix(h, k0) == Prefix(v, k0) && Prefix(v, k1) <= Prefix(h, k1)
      ==> e in ScanLoop(t, v, k0, k1).0
    decreases Pow2(WIDTH) - Pos(v)
  {
    var w := NextCursor(v, Mask(k1));
    NextPrefix(v, k1);
    PosPrefix(h, k1);
    ExpansionBits(w, k0, k1);
    if Prefix(h, k1) == Prefix(v, k1) { SamePrefixSameBucket(v, h, k1); }
    if MoreExpansions(w, k0, k1) {
      CursorAdvances(v, k1);
      LoopDecreases(v, w, k0, k1);
      ScanLoopCovers(t, w, k0, k1, h, e);
      PosZero(w);
      StepPrefixes(v, w, k0, k1);
    } else if Prefix(v, k1) + 1 != Pow2(k1) {
      StepPrefixes(v, w, k0, k1);
      TailZero(w, k0, k1);
      if Prefix(h, k0) == Prefix(v, k0) { NoLaterExpansion(v, w, h, k0, k1); }
    }
  }

  lemma NoLaterExpansion(v: Word, w: Word, h: Word, k0: nat, k1: nat)
    requires k0 <= k1 <= WIDTH && Prefix(w, k1) == Prefix(v, k1) + 1 && Mirror(w[k0..k1]) == 0
    requires Prefix(h, k0) == Prefix(v, k0) && Prefix(w, k0) == Prefix(v, k0) + 1
    ensures Prefix(h, k1) <= Prefix(v, k1)
  {
    PrefixSplit(h, k0, k1);
    PrefixSplit(w, k0, k1);
    ScaleLess(Prefix(h, k0), Prefix(w, k0), Pow2(k1 - k0));
  }

  lemma ValidBits<K, V>(d: Dict<K, V>, hash: K -> Word)
    requires Valid(d, hash)
    ensures Bits(d.ht0) <= 63 && Bits(d.ht1) <= 63
  {
  }

  /** The tables a scan looks into have buckets. */
  lemma ScannedTables<K, V>(d: Dict<K, V>, hash: K -> Word)
    requires Valid(d, hash)
    ensures d.ht0.used + d.ht1.used != 0 ==> Sized(d.ht0) && (d.Rehashing() ==> Sized(d.ht1))
  {
  }

  lemma SmallerTable<K, V>(t: Table<K, V>, u: Table<K, V>)
    requires Sized(t) && Sized(u) && |t.buckets| <= |u.buckets|
    ensures Bits(t) <= Bits(u)
  {
    if Bits(u) < Bits(t) { Pow2Mono(Bits(u), Bits(t)); }
  }

  lemma EntryInChain<K, V>(t: Table<K, V>, hash: K -> Word, k: K)
    requires Get(t, hash, k).Some?
    ensures Entry(k, Get(t, hash, k).value) in ChainAt(t, Index(t, hash(k)))
  {
    ValInMember(ChainAt(t, Index(t, hash(k))), k);
  }

  /** Between the two cursors of one call, in reversed order, the call emits everything. */
  ghost predicate InWindow(v: Word, w: Word, h: Word) {
    Pos(v) <= Pos(h) && (w == ZERO || Pos(h) < Pos(w))
  }

  /** Within the window of a 2^k table all hashes share the cursor's bucket. */
  lemma WindowPrefix(v: Word, w: Word, h: Word, k: nat)
    requires k <= WIDTH && EndsAt(v, w, k) && InWindow(v, w, h)
    ensures Prefix(h, k) == Prefix(v, k)
  {
    PrefixMono(v, h, k);
    PosPrefix(v, k);
    PosPrefix(h, k);
    var q := Pow2(WIDTH - k);
    ScaleLess(Prefix(v, k) + 1, Prefix(h, k), q);
    PosZero(w);
    ScaleLess(0, Prefix(v, k) + 1, q);
  }

  lemma OneTableEnds(v: Word, k: nat)
    requires k <= WIDTH
    ensures EndsAt(v, NextCursor(v, Mask(k)), k)
  {
    NextCursorPos(v, k);
    PosPrefix(v, k);
    PosZero(NextCursor(v, Mask(k)));
  }

  lemma EndsAdvances(v: Word, w: Word, k: nat)
    requires k <= WIDTH && EndsAt(v, w, k)
    ensures w == ZERO || Pos(w) > Pos(v)
  {
    PosPrefix(v, k);
  }

  /** One call emits every entry whose reversed hash lies between the cursor given and the cursor
      returned, and the cursor moves forward unless the scan ends. */
  lemma ScanCovers<K, V>(d: Dict<K, V>, hash: K -> Word, v: Word, k: K)
    requires Valid(d, hash) && Bits(d.ht0) <= WIDTH && Bits(d.ht1) <= WIDTH
    ensures var (out, w) := Scan(d, v);
      && (w == ZERO || Pos(w) > Pos(v))
      && (Lookup(d, hash, k).Some? && InWindow(v, w, hash(k)) ==> Entry(k, Lookup(d, hash, k).value) in out)
  {
    var h := hash(k);
    if d.ht0.used + d.ht1.used == 0 {
      EmptyLookup(d, hash, k);
    } else if !d.Rehashing() {
      ScanOneTableCovers(d, hash, v, k);
    } else if |d.ht0.buckets| > |d.ht1.buckets| {
      SmallerTable(d.ht1, d.ht0);
      ScanTwoTablesCover(d.ht1, d.ht0, hash, v, k);
    } else {
      SmallerTable(d.ht0, d.ht1);
      ScanTwoTablesCover(d.ht0, d.ht1, hash, v, k);
    }
  }

  lemma ScanOneTableCovers<K, V>(d: Dict<K, V>, hash: K -> Word, v: Word, k: K)
    requires Valid(d, hash) && !d.Rehashing() && d.ht0.used + d.ht1.used != 0
    requires Bits(d.ht0) <= WIDTH && Bits(d.ht1) <= WIDTH
    ensures var (out, w) := Scan(d, v);
      && (w == ZERO || Pos(w) > Pos(v))
      && (Lookup(d, hash, k).Some? && InWindow(v, w, hash(k)) ==> Entry(k, Lookup(d, hash, k).value) in out)
  {
    hide NextCursor, Mask, And, Value, Prefix, Pos, EndsAt, InWindow, Pow2;
    var b := Bits(d.ht0);
    var w := NextCursor(v, Mask(b));
    OneTableEnds(v, b);
    EndsAdvances(v, w, b);
    if Lookup(d, hash, k).Some? && InWindow(v, w, hash(k)) {
      WindowPrefix(v, w, hash(k), b);
      SamePrefixSameBucket(v, hash(k), b);
      EntryInChain(d.ht0, hash, k);
    }
  }

  lemma ScanTwoTablesCover<K, V>(t0: Table<K, V>, t1: Table<K, V>, hash: K -> Word, v: Word, k: K)
    requires Sized(t0) && Sized(t1) && Bits(t0) <= Bits(t1) <= WIDTH
    ensures var (rest, w) := ScanLoop(t1, v, Bits(t0), Bits(t1));
      var out := ChainAt(t0, Value(And(v, Mask(Bits(t0))))) + rest;
      && (w == ZERO || Pos(w) > Pos(v))
      && (InWindow(v, w, hash(k)) && Get(t0, hash, k).Some? ==> Entry(k, Get(t0, hash, k).value) in out)
      && (InWindow(v, w, hash(k)) && Get(t1, hash, k).Some? ==> Entry(k, Get(t1, hash, k).value) in out)
  {
    var h := hash(k);
    var k0, k1 := Bits(t0), Bits(t1);
    var (rest, w) := ScanLoop(t1, v, k0, k1);
    if Get(t1, hash, k).Some? {
      EntryInChain(t1, hash, k);
      ScanLoopCovers(t1, v, k0, k1, h, Entry(k, Get(t1, hash, k).value));
    }
    ScanLoopEnds(t1, v, k0, k1);
    EndsAdvances(v, w, k0);
    if InWindow(v, w, h) {
      WindowPrefix(v, w, h, k0);
      PrefixMono(v, h, k1);
      if Get(t0, hash, k).Some? {
        SamePrefixSameBucket(v, h, k0);
        EntryInChain(t0, hash, k);
      }
    }
  }

  lemma {:induction false} ScanLoopEnds<K, V>(t: Table<K, V>, v: Word, k0: nat, k1: nat)
    requires k0 <= k1 <= WIDTH
    ensures EndsAt(v, ScanLoop(t, v, k0, k1).1, k0)
    decreases Pow2(WIDTH) - Pos(v)
  {
    var w := NextCursor(v, Mask(k1));
    NextPrefix(v, k1);
    ExpansionBits(w, k0, k1);
    if MoreExpansions(w, k0, k1) {
      CursorAdvances(v, k1);
      LoopDecreases(v, w, k0, k1);
      ScanLoopEnds(t, w, k0, k1);
      PosZero(w);
      StepPrefixes(v, w, k0, k1);
    } else if Prefix(v, k1) + 1 == Pow2(k1) {
      LastPrefixes(v, k0, k1);
    } else {
      StepPrefixes(v, w, k0, k1);
      TailZero(w, k0, k1);
    }
  }

  lemma ChainEntryFound<K, V>(t: Table<K, V>, hash: K -> Word, i: int, e: Entry<K, V>)
    requires Placed(t, hash) && e in ChainAt(t, i)
    ensures Get(t, hash, e.key) == Some(e.val)
  {
    var j :| 0 <= j < |t.buckets[i]| && t.buckets[i][j] == e;
    GetPlaced(t, hash, i, j);
  }

  lemma {:induction false} ScanLoopSound<K, V>(
      t: Table<K, V>, hash: K -> Word, v: Word, k0: nat, k1: nat, e: Entry<K, V>)
    requires Placed(t, hash) && k0 <= k1 <= WIDTH && e in ScanLoop(t, v, k0, k1).0
    ensures Get(t, hash, e.key) == Some(e.val)
    decreases Pow2(WIDTH) - Pos(v)
  {
    var w := NextCursor(v, Mask(k1));
    var i := Value(And(v, Mask(k1)));
    if e in ChainAt(t, i) {
      ChainEntryFound(t, hash, i, e);
    } else {
      CursorAdvances(v, k1);
      LoopDecreases(v, w, k0, k1);
      ScanLoopSound(t, hash, w, k0, k1, e);
    }
  }

  /** One call emits only elements of the dict. */
  lemma ScanSound<K, V>(d: Dict<K, V>, hash: K -> Word, v: Word, e: Entry<K, V>)
    requires Valid(d, hash) && Bits(d.ht0) <= WIDTH && Bits(d.ht1) <= WIDTH && e in Scan(d, v).0
    ensures Lookup(d, hash, e.key) == Some(e.val)
  {
    if !d.Rehashing() {
      ChainEntryFound(d.ht0, hash, Value(And(v, Mask(Bits(d.ht0)))), e);
    } else {
      var (t0, t1) := if |d.ht0.buckets| > |d.ht1.buckets| then (d.ht1, d.ht0) else (d.ht0, d.ht1);
      var i := Value(And(v, Mask(Bits(t0))));
      if e in ChainAt(t0, i) {
        ChainEntryFound(t0, hash, i, e);
      } else {
        ScanLoopSound(t1, hash, v, Bits(t0), Bits(t1), e);
      }
      if Get(d.ht0, hash, e.key).Some? { GetInApart(d.ht0, d.ht1, hash, e.key); }
    }
  }

  lemma {:induction false} ValueInjective(a: seq<bool>, b: seq<bool>)
    requires |a| == |b| && Value(a) == Value(b)
    ensures a == b
  {
    if a != [] {
      assert Digit(a[0]) == Value(a) % 2 && Digit(b[0]) == Value(b) % 2;
      ValueInjective(a[1..], b[1..]);
      assert a == [a[0]] + a[1..] && b == [b[0]] + b[1..];
    }
  }

  /** Equal buckets have equal prefixes, also for fewer buckets. */
  lemma SameBucketSamePrefix(v: Word, h: Word, k0: nat, k: nat)
    requires k0 <= k <= WIDTH && Value(And(v, Mask(k))) == Value(And(h, Mask(k)))
    ensures Prefix(v, k0) == Prefix(h, k0)
  {
    hide Value, And, Mask, Mirror;
    AndMask(v, k);
    AndMask(h, k);
    ValueInjective(v[..k], h[..k]);
    assert v[..k0] == v[..k][..k0] && h[..k0] == h[..k][..k0];
  }

  lemma ChainEntryPrefix<K, V>(t: Table<K, V>, hash: K -> Word, v: Word, k0: nat, e: Entry<K, V>)
    requires Placed(t, hash) && Sized(t) && k0 <= Bits(t) && e in ChainAt(t, Value(And(v, Mask(Bits(t)))))
    ensures Bits(t) <= WIDTH && Prefix(hash(e.key), k0) == Prefix(v, k0)
  {
    var i := Value(And(v, Mask(Bits(t))));
    var j :| 0 <= j < |t.buckets[i]| && t.buckets[i][j] == e;
    SameBucketSamePrefix(v, hash(e.key), k0, Bits(t));
  }

  lemma {:induction false} ScanLoopInBucket<K, V>(
      t: Table<K, V>, hash: K -> Word, v: Word, k0: nat, k1: nat, e: Entry<K, V>)
    requires Placed(t, hash) && Sized(t) && k1 == Bits(t) && k0 <= k1 <= WIDTH && e in ScanLoop(t, v, k0, k1).0
    ensures Prefix(hash(e.key), k0) == Prefix(v, k0)
    decreases Pow2(WIDTH) - Pos(v)
  {
    hide Sized, Placed, Prefix;
    var w := NextCursor(v, Mask(k1));
    if e in ChainAt(t, Value(And(v, Mask(k1)))) {
      ChainEntryPrefix(t, hash, v, k0, e);
    } else {
      CursorAdvances(v, k1);
      LoopDecreases(v, w, k0, k1);
      ScanLoopInBucket(t, hash, w, k0, k1, e);
      NextPrefix(v, k1);
      ExpansionBits(w, k0, k1);
      PosZero(w);
      StepPrefixes(v, w, k0, k1);
    }
  }

  /** One call stays within one bucket of the smaller table, and returns the cursor of the next one. */
  lemma ScanOneBucket<K, V>(d: Dict<K, V>, hash: K -> Word, v: Word, e: Entry<K, V>)
    requires Valid(d, hash) && Bits(d.ht0) <= WIDTH && Bits(d.ht1) <= WIDTH && d.ht0.used + d.ht1.used != 0
    ensures var k := if d.Rehashing() && Bits(d.ht1) < Bits(d.ht0) then Bits(d.ht1) else Bits(d.ht0);
      var (out, w) := Scan(d, v);
      EndsAt(v, w, k) && (e in out ==> Prefix(hash(e.key), k) == Prefix(v, k))
  {
    hide Sized, Placed, Prefix, EndsAt, Mask, And, Value, NextCursor;
    ScannedTables(d, hash);
    ScannedPlaced(d, hash);
    if !d.Rehashing() {
      OneTableEnds(v, Bits(d.ht0));
      if e in Scan(d, v).0 { ChainEntryPrefix(d.ht0, hash, v, Bits(d.ht0), e); }
    } else {
      var (t0, t1) := if |d.ht0.buckets| > |d.ht1.buckets| then (d.ht1, d.ht0) else (d.ht0, d.ht1);
      SmallerTable(t0, t1);
      ScanLoopEnds(t1, v, Bits(t0), Bits(t1));
      if e in ChainAt(t0, Value(And(v, Mask(Bits(t0))))) {
        ChainEntryPrefix(t0, hash, v, Bits(t0), e);
      } else if e in Scan(d, v).0 {
        ScanLoopInBucket(t1, hash, v, Bits(t0), Bits(t1), e);
      }
    }
  }

  lemma ScannedPlaced<K, V>(d: Dict<K, V>, hash: K -> Word)
    requires Valid(d, hash)
    ensures Placed(d.ht0, hash) && Placed(d.ht1, hash)
  {
  }

  // ---- whole scans ----

  /** What happens between the start and the end of a scan. */
  datatype Event<K, V> = Mutate(op: Op<K, V>) | Call

  /** Emitted entries of a scan at cursor `v`, up to the call that returns 0. */
  function ScanRun<K(==), V>(d: Dict<K, V>, hash: K -> Word, v: Word, events: seq<Event<K, V>>): seq<Entry<K, V>>
    decreases |events|
  {
    if events == [] then []
    else match events[0]
      case Mutate(op) => ScanRun(Apply(d, hash, op), hash, v, events[1..])
      case Call =>
        if Bits(d.ht0) <= WIDTH && Bits(d.ht1) <= WIDTH then
          var (out, w) := Scan(d, v);
          if w == ZERO then out else out + ScanRun(d, hash, w, events[1..])
        else []
  }

  /** Some call of the run returns 0. */
  predicate Completes<K(==), V>(d: Dict<K, V>, hash: K -> Word, v: Word, events: seq<Event<K, V>>)
    decreases |events|
  {
    events != [] &&
    match events[0]
    case Mutate(op) => Completes(Apply(d, hash, op), hash, v, events[1..])
    case Call =>
      Bits(d.ht0) <= WIDTH && Bits(d.ht1) <= WIDTH &&
      var w := Scan(d, v).1;
      w == ZERO || Completes(d, hash, w, events[1..])
  }

  /** The key is in the dict in every state up to the end of the scan. */
  predicate Throughout<K(==), V>(d: Dict<K, V>, hash: K -> Word, v: Word, events: seq<Event<K, V>>, k: K)
    decreases |events|
  {
    && Lookup(d, hash, k).Some?
    && (events != [] ==>
         match events[0]
         case Mutate(op) => Throughout(Apply(d, hash, op), hash, v, events[1..], k)
         case Call =>
           Bits(d.ht0) <= WIDTH && Bits(d.ht1) <= WIDTH ==>
             var w := Scan(d, v).1;
             w == ZERO || Throughout(d, hash, w, events[1..], k))
  }

  lemma {:induction false} ScanRunCovers<K(!new), V>(
      d: Dict<K, V>, hash: K -> Word, v: Word, events: seq<Event<K, V>>, k: K)
    requires Valid(d, hash) && Completes(d, hash, v, events) && Throughout(d, hash, v, events, k)
    requires Pos(v) <= Pos(hash(k))
    ensures exists e :: e in ScanRun(d, hash, v, events) && e.key == k
    decreases |events|
  {
    match events[0]
    case Mutate(op) =>
      ApplyKeepsValid(d, hash, op);
      ScanRunCovers(Apply(d, hash, op), hash, v, events[1..], k);
    case Call =>
      var (out, w) := Scan(d, v);
      ScanCovers(d, hash, v, k);
      if InWindow(v, w, hash(k)) {
        assert Entry(k, Lookup(d, hash, k).value) in ScanRun(d, hash, v, events);
      } else {
        ScanRunCovers(d, hash, w, events[1..], k);
        var e :| e in ScanRun(d, hash, w, events[1..]) && e.key == k;
        assert e in ScanRun(d, hash, v, events);
      }
  }

  /** Every complete scan from cursor 0, with any additions, deletions, growth, shrinking and
      rehash steps between its calls, emits each element that is in the dict throughout. */
  lemma ScanGuarantee<K(!new), V>(d: Dict<K, V>, hash: K -> Word, events: seq<Event<K, V>>, k: K)
    requires Valid(d, hash) && Completes(d, hash, ZERO, events) && Throughout(d, hash, ZERO, events, k)
    ensures exists e :: e in ScanRun(d, hash, ZERO, events) && e.key == k
  {
    PosZero(ZERO);
    ScanRunCovers(d, hash, ZERO, events, k);
  }
}
