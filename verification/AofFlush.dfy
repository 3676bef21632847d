/** The write path of the append only file: the pending buffer, short writes and truncation. */
module AofFlush {
  import opened AofFormat

  /** What one write(2) call reports; calls after the listed ones write all they are given. */
  datatype WriteResult = Wrote(n: nat) | Interrupted | Failed

  /** The loop of aofWrite on `len` bytes: bytes that reached the file, and whether an error
      stopped it. */
  function WriteAll(len: nat, results: seq<WriteResult>): (r: (nat, bool))
    ensures r.0 <= len && (!r.1 ==> r.0 == len) && (r.1 ==> r.0 < len)
    decreases |results|
  {
    if len == 0 then (0, false)
    else if results == [] then (len, false)
    else
      match results[0]
      case Interrupted => WriteAll(len, results[1..])
      case Failed => (0, true)
      case Wrote(n) =>
        var m := if n < len then n else len;
        var (k, err) := WriteAll(len - m, results[1..]);
        (m + k, err)
  }

  /** Bytes accepted before the first call that fails. */
  function Accepted(results: seq<WriteResult>): nat {
    if results == [] then 0
    else match results[0]
      case Interrupted => Accepted(results[1..])
      case Failed => 0
      case Wrote(n) => n + Accepted(results[1..])
  }

  /** aofWrite stops short exactly if a call fails before all bytes were accepted. */
  lemma {:induction false} WriteExact(len: nat, results: seq<WriteResult>)
    ensures WriteAll(len, results)
         == if Failed in results && Accepted(results) < len then (Accepted(results), true) else (len, false)
    decreases |results|
  {
    if len > 0 && results != [] {
      assert results == [results[0]] + results[1..];
      match results[0]
      case Interrupted => WriteExact(len, results[1..]);
      case Failed =>
      case Wrote(n) => WriteExact(len - if n < len then n else len, results[1..]);
    }
  }

  /** The file, aof_buf, aof_current_size and aof_last_write_status. */
  datatype Log = Log(file: Bytes, buf: Bytes, size: nat, lastWriteOk: bool, exited: bool)

  /** Environment of one flush: write results, ftruncate success, fsync policy "always", and
      whether the everysec policy postpones the write. */
  datatype FlushEnv = FlushEnv(writes: seq<WriteResult>, truncateOk: bool, always: bool, postponed: bool)

  /** flushAppendOnlyFile */
  function Flush(s: Log, env: FlushEnv): Log {
    if s.exited || s.buf == [] || env.postponed then s
    else
      var (k, err) := WriteAll(|s.buf|, env.writes);
      var file := s.file + s.buf[..k];
      if err then
        var undone := k > 0 && env.truncateOk && s.size <= |file|;
        var kept := if undone then file[..s.size] else file;
        if env.always then s.(file := kept, exited := true)
        else if undone || k == 0 then s.(file := kept, lastWriteOk := false)
        else s.(file := kept, lastWriteOk := false, size := s.size + k, buf := s.buf[k..])
      else s.(file := file, lastWriteOk := true, size := s.size + k, buf := [])
  }

  /** Append of feedAppendOnlyFile outside a rewrite, AOF on. */
  function Append(s: Log, b: Bytes): Log { if s.exited then s else s.(buf := s.buf + b) }

  /** Nothing is lost, duplicated or reordered between the file and the buffer, and the recorded
      size is the file's; a server that exits on a write error leaves a prefix in the file. */
  ghost predicate Conserves(s: Log, fed: Bytes) {
    if s.exited then s.file <= fed else s.file + s.buf == fed && s.size == |s.file|
  }

  lemma FlushConserves(s: Log, env: FlushEnv, fed: Bytes)
    requires Conserves(s, fed)
    ensures Conserves(Flush(s, env), fed)
    ensures !Flush(s, env).exited && !env.postponed && Flush(s, env).lastWriteOk && !s.exited && s.buf != [] ==>
      Flush(s, env).file == fed
  {
    if !s.exited && s.buf != [] && !env.postponed {
      var (k, err) := WriteAll(|s.buf|, env.writes);
      var file := s.file + s.buf[..k];
      assert s.buf == s.buf[..k] + s.buf[k..];
      assert file + s.buf[k..] == s.file + s.buf;
      assert file[..s.size] == s.file;
    }
  }

  /** What a flush does: without an error the whole buffer reaches the file; an error with fsync policy
      "always" ends the server; else a short write is undone, or accounted for if the truncation fails. */
  lemma FlushExact(s: Log, env: FlushEnv)
    requires !s.exited && s.buf != [] && s.size == |s.file|
    ensures env.postponed ==> Flush(s, env) == s
    ensures !env.postponed ==>
      var k := Accepted(env.writes);
      var short := Failed in env.writes && k < |s.buf|;
      var kept := if env.truncateOk then 0 else k;
      Flush(s, env)
        == if !short then Log(s.file + s.buf, [], s.size + |s.buf|, true, false)
           else if env.always then s.(file := s.file + s.buf[..kept], exited := true)
           else Log(s.file + s.buf[..kept], s.buf[kept..], s.size + kept, false, false)
  {
    hide WriteAll, Accepted;
    WriteExact(|s.buf|, env.writes);
    assert s.buf[..|s.buf|] == s.buf && s.buf[0..] == s.buf && s.file + s.buf[..0] == s.file;
    var k := Accepted(env.writes);
    assert k <= |s.buf| ==> (s.file + s.buf[..k])[..s.size] == s.file;
  }

  lemma AppendConserves(s: Log, b: Bytes, fed: Bytes)
    requires Conserves(s, fed)
    ensures Conserves(Append(s, b), fed + b)
  {
    if !s.exited { assert s.file + (s.buf + b) == (s.file + s.buf) + b; }
  }

  datatype Event = Fed(b: Bytes) | Flushed(env: FlushEnv)

  function Run(s: Log, events: seq<Event>): Log
    decreases |events|
  {
    if events == [] then s
    else Run(match events[0] case Fed(b) => Append(s, b) case Flushed(env) => Flush(s, env), events[1..])
  }

  function AllFed(events: seq<Event>): Bytes {
    if events == [] then []
    else (match events[0] case Fed(b) => b case Flushed(_) => []) + AllFed(events[1..])
  }

  /** Over every sequence of feeds and flushes, with complete, failed or short writes and
      successful or failing truncation, the file followed by the buffer is all that was fed. */
  lemma {:induction false} RunConserves(s: Log, events: seq<Event>, fed: Bytes)
    requires Conserves(s, fed)
    ensures Conserves(Run(s, events), fed + AllFed(events))
    decreases |events|
  {
    if events == [] {
      assert fed + [] == fed;
    } else {
      match events[0]
      case Fed(b) =>
        AppendConserves(s, b, fed);
        RunConserves(Append(s, b), events[1..], fed + b);
        assert fed + b + AllFed(events[1..]) == fed + AllFed(events);
      case Flushed(env) =>
        FlushConserves(s, env, fed);
        RunConserves(Flush(s, env), events[1..], fed);
        assert [] + AllFed(events[1..]) == AllFed(events[1..]);
    }
  }

  /** The open file, buffer and counters as the server updates them. */
  class AofFile {
    var file: Bytes
    var buf: Bytes
    var size: nat
    var lastWriteOk: bool
    var exited: bool

    ghost function State(): Log
      reads this
    {
      Log(file, buf, size, lastWriteOk, exited)
    }

    constructor ()
      ensures State() == Log([], [], 0, true, false)
    {
      file, buf, size, lastWriteOk, exited := [], [], 0, true, false;
    }

    method AppendBytes(b: Bytes)
      modifies this`buf
      ensures State() == Append(old(State()), b)
    {
      if !exited { buf := buf + b; }
    }

    /** aofWrite: retries interrupted and short writes; -1 when nothing was written. */
    method AofWrite(data: Bytes, writes: seq<WriteResult>) returns (written: int)
      modifies this`file
      ensures var (k, err) := WriteAll(|data|, writes);
        file == old(file) + data[..k] && written == if err && k == 0 then -1 else k
    {
      var total, i := 0, 0;
      while total < |data|
        invariant 0 <= total <= |data| && 0 <= i <= |writes| && file == old(file) + data[..total]
        invariant var (k, err) := WriteAll(|data|, writes);
          var (k', err') := WriteAll(|data| - total, writes[i..]);
          k == total + k' && err == err'
        decreases |data| - total, |writes| - i
      {
        if i == |writes| {
          file := file + data[total..];
          assert data[..total] + data[total..] == data[..|data|];
          total := |data|;
        } else {
          assert writes[i..][1..] == writes[i + 1..];
          match writes[i] {
            case Interrupted =>
            case Failed => return if total > 0 then total else -1;
            case Wrote(n) =>
              var m := if n < |data| - total then n else |data| - total;
              file := file + data[total..total + m];
              assert data[..total] + data[total..total + m] == data[..total + m];
              total := total + m;
          }
          i := i + 1;
        }
      }
      return total;
    }

    /** flushAppendOnlyFile */
    method FlushBuffer(env: FlushEnv)
      modifies this
      ensures State() == Flush(old(State()), env)
    {
      if exited || buf == [] || env.postponed { return; }
      var nwritten := AofWrite(buf, env.writes);
      if nwritten != |buf| {
        if nwritten != -1 {
          if env.truncateOk && size <= |file| {
            file := file[..size];
            nwritten := -1;
          }
        }
        if env.always {
          exited := true;
          return;
        }
        lastWriteOk := false;
        if nwritten > 0 {
          size := size + nwritten;
          buf := buf[nwritten..];
        }
        return;
      }
      lastWriteOk := true;
      size := size + nwritten;
      buf := [];
    }
  }
}
