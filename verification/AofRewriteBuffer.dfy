/** The list of blocks that accumulates writes while a child rewrites the append only file. */
module AofRewriteBuffer {
  import opened AofFormat

  /** AOF_RW_BUF_BLOCK_SIZE */
  const BLOCK_SIZE: nat := 10 * 1024 * 1024

  function Concat(blocks: seq<Bytes>): Bytes {
    if blocks == [] then [] else blocks[0] + Concat(blocks[1..])
  }

  lemma {:induction false} ConcatAppend(a: seq<Bytes>, b: seq<Bytes>)
    ensures Concat(a + b) == Concat(a) + Concat(b)
  {
    if a == [] {
      assert a + b == b;
    } else {
      ConcatAppend(a[1..], b);
      ConcatFirst(a + b);
      ConcatFirst(a);
      hide Concat;
      assert (a + b)[1..] == a[1..] + b && (a + b)[0] == a[0];
      assert a[0] + (Concat(a[1..]) + Concat(b)) == a[0] + Concat(a[1..]) + Concat(b);
    }
  }

  lemma ConcatOne(b: Bytes)
    ensures Concat([b]) == b
  {
    assert Concat([b]) == b + Concat([b][1..]);
  }

  lemma ConcatFirst(blocks: seq<Bytes>)
    requires blocks != []
    ensures Concat(blocks) == blocks[0] + Concat(blocks[1..])
  {
  }

  /** Last block extended by `t`. */
  lemma ConcatExtendLast(blocks: seq<Bytes>, t: Bytes)
    requires blocks != []
    ensures var k := |blocks| - 1; Concat(blocks[k := blocks[k] + t]) == Concat(blocks) + t
  {
    var k := |blocks| - 1;
    var front := blocks[..k];
    assert blocks == front + [blocks[k]] && blocks[k := blocks[k] + t] == front + [blocks[k] + t];
    ConcatAppend(front, [blocks[k]]);
    ConcatAppend(front, [blocks[k] + t]);
    ConcatOne(blocks[k]);
    ConcatOne(blocks[k] + t);
  }

  lemma ConcatNothing()
    ensures Concat([]) == []
  {
  }

  /** What successive writes to the pipe send from the blocks, and what remains; the pipe is full when a
      write returns no positive number, or there are no more writes. */
  function Drain(blocks: seq<Bytes>, results: seq<int>): (Bytes, seq<Bytes>)
    decreases |results|, |blocks|
  {
    if blocks == [] then ([], [])
    else if |blocks[0]| == 0 then Drain(blocks[1..], results)
    else if results == [] || results[0] <= 0 then ([], blocks)
    else
      var n := if results[0] < |blocks[0]| then results[0] else |blocks[0]|;
      var (sent, left) := Drain([blocks[0][n..]] + blocks[1..], results[1..]);
      (blocks[0][..n] + sent, left)
  }

  lemma DrainEmpty(blocks: seq<Bytes>, results: seq<int>)
    requires blocks != [] && |blocks[0]| == 0
    ensures Drain(blocks, results) == Drain(blocks[1..], results)
  {
  }

  lemma DrainWrite(blocks: seq<Bytes>, results: seq<int>, n: nat)
    requires blocks != [] && |blocks[0]| > 0 && results != [] && results[0] > 0
    requires n == if results[0] < |blocks[0]| then results[0] else |blocks[0]|
    ensures var (sent, left) := Drain([blocks[0][n..]] + blocks[1..], results[1..]);
      Drain(blocks, results) == (blocks[0][..n] + sent, left)
  {
  }

  /** Nothing is lost or reordered: what is sent, followed by what remains, is what there was. */
  lemma {:induction false} DrainConserves(blocks: seq<Bytes>, results: seq<int>)
    ensures var (sent, left) := Drain(blocks, results); sent + Concat(left) == Concat(blocks)
    decreases |results|, |blocks|
  {
    if blocks != [] {
      ConcatFirst(blocks);
      if |blocks[0]| == 0 {
        DrainConserves(blocks[1..], results);
      } else if results != [] && results[0] > 0 {
        var n := if results[0] < |blocks[0]| then results[0] else |blocks[0]|;
        var rest := [blocks[0][n..]] + blocks[1..];
        DrainWrite(blocks, results, n);
        DrainConserves(rest, results[1..]);
        ConcatFirst(rest);
        hide Drain, Concat;
        assert rest[1..] == blocks[1..];
        assert blocks[0] == blocks[0][..n] + blocks[0][n..];
        var (sent, left) := Drain(rest, results[1..]);
        assert blocks[0][..n] + sent + Concat(left) == blocks[0][..n] + (sent + Concat(left));
        assert blocks[0][..n] + (blocks[0][n..] + Concat(blocks[1..])) == blocks[0] + Concat(blocks[1..]);
      }
    }
  }

  /** Sending goes on until nothing is left or the pipe is full, and every write sends something. */
  lemma {:induction false} DrainStops(blocks: seq<Bytes>, results: seq<int>) returns (used: nat)
    ensures var (sent, left) := Drain(blocks, results);
      && used <= |results| && used <= |sent| && (forall i :: 0 <= i < used ==> results[i] > 0)
      && (left == [] || used == |results| || results[used] <= 0)
    decreases |results|, |blocks|
  {
    used := 0;
    if blocks != [] {
      if |blocks[0]| == 0 {
        used := DrainStops(blocks[1..], results);
      } else if results != [] && results[0] > 0 {
        var n := if results[0] < |blocks[0]| then results[0] else |blocks[0]|;
        var u := DrainStops([blocks[0][n..]] + blocks[1..], results[1..]);
        used := u + 1;
      }
    }
  }

  class RewriteBuffer {
    var blocks: seq<Bytes>

    ghost predicate Valid()
      reads this
    {
      forall i :: 0 <= i < |blocks| ==> |blocks[i]| <= BLOCK_SIZE
    }

    ghost function Contents(): Bytes
      reads this
    {
      Concat(blocks)
    }

    /** aofRewriteBufferReset */
    constructor ()
      ensures Valid() && Contents() == []
    {
      blocks := [];
    }

    /** aofRewriteBufferSize */
    method Size() returns (n: nat)
      ensures n == |Contents()|
    {
      n := 0;
      var i := 0;
      while i < |blocks|
        invariant 0 <= i <= |blocks| && n + |Concat(blocks[i..])| == |Contents()|
      {
        ConcatFirst(blocks[i..]);
        assert blocks[i..][1..] == blocks[i + 1..];
        n := n + |blocks[i]|;
        i := i + 1;
      }
    }

    /** Copies what fits into the last block. */
    method FillLast(s: Bytes) returns (n: nat)
      requires Valid() && s != [] && blocks != [] && |blocks[|blocks| - 1]| < BLOCK_SIZE
      modifies this
      ensures Valid() && 0 < n <= |s| && Contents() == old(Contents()) + s[..n]
    {
      hide Concat;
      var k := |blocks| - 1;
      var free := BLOCK_SIZE - |blocks[k]|;
      n := if free < |s| then free else |s|;
      ConcatExtendLast(blocks, s[..n]);
      blocks := blocks[k := blocks[k] + s[..n]];
    }

    /** Allocates an empty block at the end. */
    method AddBlock()
      requires Valid()
      modifies this
      ensures Valid() && Contents() == old(Contents()) && blocks == old(blocks) + [[]]
    {
      hide Concat;
      ConcatAppend(blocks, [[]]);
      ConcatOne([]);
      blocks := blocks + [[]];
    }

    /** aofRewriteBufferAppend: fills the last block, then allocates new ones. */
    method Append(s: Bytes)
      requires Valid()
      modifies this
      ensures Valid() && Contents() == old(Contents()) + s
    {
      hide Concat;
      var i := 0;
      while i < |s|
        invariant Valid() && i <= |s| && Contents() == old(Contents()) + s[..i]
        decreases |s| - i, if blocks != [] && |blocks[|blocks| - 1]| < BLOCK_SIZE then 0 else 1
      {
        if blocks != [] && |blocks[|blocks| - 1]| < BLOCK_SIZE {
          var n := FillLast(s[i..]);
          assert s[..i + n] == s[..i] + s[i..][..n];
          i := i + n;
        } else {
          AddBlock();
        }
      }
      assert s[..i] == s;
    }

    /** aofChildWriteDiffData: sends blocks from the front while the pipe accepts bytes; `results`
        are the successive write(2) returns, after which the pipe is full. */
    method SendDiff(stop: bool, results: seq<int>) returns (sent: Bytes)
      requires Valid()
      modifies this
      ensures Valid() && (sent, blocks) == if stop then ([], old(blocks)) else Drain(old(blocks), results)
      ensures sent + Contents() == old(Contents())
    {
      hide Concat;
      sent := [];
      if stop { return; }
      ghost var start := blocks;
      var i := 0;
      assert results[0..] == results && [] + Drain(start, results).0 == Drain(start, results).0;
      while blocks != []
        invariant Valid() && 0 <= i <= |results|
        invariant Drain(start, results) == (sent + Drain(blocks, results[i..]).0, Drain(blocks, results[i..]).1)
        decreases |results| - i, |blocks|
      {
        var block := blocks[0];
        if |block| > 0 {
          if i == |results| || results[i] <= 0 { break; }
          var n := if results[i] < |block| then results[i] else |block|;
          DrainWrite(blocks, results[i..], n);
          assert results[i..][1..] == results[i + 1..];
          i := i + 1;
          blocks := [block[n..]] + blocks[1..];
          ghost var more := Drain(blocks, results[i..]).0;
          assert sent + (block[..n] + more) == sent + block[..n] + more;
          sent := sent + block[..n];
        }
        if |blocks[0]| == 0 {
          DrainEmpty(blocks, results[i..]);
          blocks := blocks[1..];
        }
      }
      assert sent + [] == sent;
      DrainConserves(start, results);
    }

    /** The write of block i is short. */
    predicate Short(results: seq<int>, i: nat)
      reads this
    {
      i < |blocks| && |blocks[i]| > 0 && i < |results| && results[i] < |blocks[i]|
    }

    /** Block i is the first whose write is short, and what reached the file before. */
    ghost predicate StoppedAt(file: Bytes, results: seq<int>, i: nat, out: Bytes)
      reads this
    {
      && Short(results, i) && (forall j: nat :: j < i ==> !Short(results, j))
      && out == file + Concat(blocks[..i]) + blocks[i][..if results[i] > 0 then results[i] else 0]
    }

    /** aofRewriteBufferWrite: every block in one write each; -1 on a short write. */
    method WriteTo(file: Bytes, results: seq<int>) returns (ok: bool, out: Bytes)
      ensures ok == (forall i: nat :: !Short(results, i))
      ensures ok ==> out == file + Contents()
      ensures !ok ==> exists i: nat :: StoppedAt(file, results, i, out)
    {
      hide Concat;
      out := file;
      var i := 0;
      assert blocks[..0] == [] && file + Concat([]) == file by { ConcatNothing(); }
      while i < |blocks|
        invariant 0 <= i <= |blocks| && out == file + Concat(blocks[..i])
        invariant forall j: nat :: j < i ==> !Short(results, j)
      {
        var block := blocks[i];
        if |block| > 0 && i < |results| && results[i] < |block| {
          out := out + block[..if results[i] > 0 then results[i] else 0];
          assert StoppedAt(file, results, i, out);
          return false, out;
        }
        assert blocks[..i + 1] == blocks[..i] + [block];
        ConcatAppend(blocks[..i], [block]);
        ConcatOne(block);
        assert file + Concat(blocks[..i]) + block == file + (Concat(blocks[..i]) + block);
        if |block| > 0 { out := out + block; } else { assert file + Concat(blocks[..i]) + block == out; }
        i := i + 1;
      }
      assert blocks[..i] == blocks;
      ok := true;
    }
  }
}
