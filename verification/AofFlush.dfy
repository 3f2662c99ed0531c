/** Writing the append only file: aofWrite and flushAppendOnlyFile under every pattern of short and failing writes. */
module AofFlush {
  datatype Policy = Always | EverySec | Never

  /** What one call of write(2) does. */
  datatype WriteResult = Wrote(n: nat) | Interrupted | Failed

  /** What a flush finds: the clock, a running fsync, a running child, and what the kernel will answer. */
  datatype World = World(now: int, syncing: bool, child: bool, writes: seq<WriteResult>, truncates: bool, syncs: bool)

  /** The file, aof_buf, aof_current_size and aof_last_write_status. */
  datatype Log = Log(file: string, buf: string, size: int, writeOk: bool)

  ghost predicate Sized(l: Log) { l.size == |l.file| }

  /** How many of `len` bytes the kernel takes before it fails. */
  function Delivered(len: nat, writes: seq<WriteResult>): (d: nat)
    ensures d <= len
    decreases |writes|
  {
    if len == 0 || writes == [] then 0
    else match writes[0]
      case Failed => 0
      case Interrupted => Delivered(len, writes[1..])
      case Wrote(n) => var w := if n < len then n else len; w + Delivered(len - w, writes[1..])
  }

  /** How many bytes the calls before the first failure take. */
  ghost function Taken(writes: seq<WriteResult>): nat {
    if writes == [] || writes[0] == Failed then 0
    else (if writes[0].Wrote? then writes[0].n else 0) + Taken(writes[1..])
  }

  /** All is delivered if the calls take as much before one fails, and otherwise what they take. */
  lemma {:induction false} DeliveredIs(len: nat, writes: seq<WriteResult>)
    ensures Delivered(len, writes) == if Taken(writes) < len then Taken(writes) else len
    decreases |writes|
  {
    if len > 0 && writes != [] && writes[0] != Failed {
      var n := if writes[0].Wrote? then writes[0].n else 0;
      DeliveredIs(len - (if n < len then n else len), writes[1..]);
    }
  }

  /** How many of `len` bytes the calls from the k-th on deliver. */
  ghost function Remaining(len: nat, writes: seq<WriteResult>, k: nat): nat
    requires k <= |writes|
  {
    Delivered(len, writes[k..])
  }

  lemma RemainingAtFirst(len: nat, writes: seq<WriteResult>)
    ensures Remaining(len, writes, 0) == Delivered(len, writes)
  {
    assert writes[0..] == writes;
  }

  lemma RemainingNext(len: nat, writes: seq<WriteResult>, k: nat)
    requires len > 0 && k <= |writes|
    ensures Remaining(len, writes, k) ==
            if k == |writes| then 0
            else match writes[k]
              case Failed => 0
              case Interrupted => Remaining(len, writes, k + 1)
              case Wrote(n) => var w := if n < len then n else len; w + Remaining(len - w, writes, k + 1)
  {
    if k < |writes| { assert writes[k..][0] == writes[k] && writes[k..][1..] == writes[k + 1..]; }
  }

  /** The first `total` bytes of the buffer have reached the file. */
  ghost predicate Written(before: string, file: string, buf: string, total: nat) {
    total <= |buf| && file == before + buf[..total]
  }

  lemma NoneWritten(file: string, buf: string)
    ensures Written(file, file, buf, 0)
  {
    assert buf[..0] == "" && file + "" == file;
  }

  lemma MoreWritten(before: string, file: string, buf: string, total: nat, n: nat)
    requires Written(before, file, buf, total) && total + n <= |buf|
    ensures Written(before, file + buf[total..total + n], buf, total + n)
  {
    assert buf[..total + n] == buf[..total] + buf[total..total + n];
  }

  lemma NothingRemains(writes: seq<WriteResult>, k: nat)
    requires k <= |writes|
    ensures Remaining(0, writes, k) == 0
  {}

  /** A flush of which `d` bytes were delivered, when the process survives it. */
  function Flushed(l: Log, d: nat, truncates: bool): Log
    requires d <= |l.buf|
  {
    if d == |l.buf| then Log(l.file + l.buf, "", l.size + d, true)
    else if d > 0 && !truncates then Log(l.file + l.buf[..d], l.buf[d..], l.size + d, false)
    else l.(writeOk := false)
  }

  /** Nothing is lost, repeated or reordered, and the size stays the length of the file. */
  lemma FlushConserves(l: Log, d: nat, truncates: bool)
    requires d <= |l.buf| && Sized(l)
    ensures var l' := Flushed(l, d, truncates);
            l'.file + l'.buf == l.file + l.buf && Sized(l') && l.file <= l'.file
  {
    assert l.buf == l.buf[..d] + l.buf[d..];
    assert l.file + l.buf + "" == l.file + l.buf;
    assert l.file + (l.buf[..d] + l.buf[d..]) == l.file + l.buf[..d] + l.buf[d..];
  }

  /** A complete write empties the buffer into the file. One that is not leaves an error, and in the file only what
      could not be cut off again. */
  lemma FlushWrites(l: Log, d: nat, truncates: bool)
    requires d <= |l.buf| && Sized(l)
    ensures var l' := Flushed(l, d, truncates);
            && (d == |l.buf| ==> l'.file == l.file + l.buf && l'.buf == "" && l'.size == |l'.file| && l'.writeOk)
            && (d < |l.buf| ==> !l'.writeOk && l'.size == |l'.file|)
            && (d < |l.buf| && truncates ==> l'.file == l.file && l'.buf == l.buf)
            && (d < |l.buf| && !truncates ==> l'.file == l.file + l.buf[..d] && l'.buf == l.buf[d..])
  {
    if d == 0 && l.buf != "" { assert l.file + l.buf[..0] == l.file && l.buf[0..] == l.buf; }
  }

  class AofFile {
    const policy: Policy
    const noFsyncOnRewrite: bool
    var file: string
    var buf: string
    var size: int
    var writeOk: bool
    var fsyncOffset: int
    var lastFsync: int
    var postponed: int
    var delayed: nat
    var exited: bool

    ghost function Abs(): Log
      reads this
    {
      Log(file, buf, size, writeOk)
    }

    ghost predicate Valid()
      reads this
    {
      Sized(Abs()) && fsyncOffset <= size
    }

    constructor (policy: Policy, noFsyncOnRewrite: bool, file: string)
      ensures Valid() && Abs() == Log(file, "", |file|, true) && !exited && this.policy == policy
    {
      this.policy, this.noFsyncOnRewrite := policy, noFsyncOnRewrite;
      this.file, buf, size, writeOk, exited := file, "", |file|, true, false;
      fsyncOffset, lastFsync, postponed, delayed := |file|, 0, 0, 0;
    }

    /** The tail of feedAppendOnlyFile. */
    method Feed(bytes: string)
      requires Valid()
      modifies this`buf
      ensures Valid() && Abs() == old(Abs()).(buf := old(buf) + bytes)
    {
      buf := buf + bytes;
    }

    /** aofWrite on the whole of aof_buf: retried until all is written or a call fails. */
    method Write(writes: seq<WriteResult>) returns (nwritten: int)
      modifies this`file
      ensures var d := Delivered(|buf|, writes);
              Written(old(file), file, buf, d) && nwritten == (if d == 0 && buf != "" then -1 else d)
    {
      var len: nat, k: nat, total: nat := |buf|, 0, 0;
      RemainingAtFirst(|buf|, writes);
      NoneWritten(file, buf);
      hide Remaining, Delivered, Written;
      while len > 0
        invariant len + total == |buf| && k <= |writes| && Written(old(file), file, buf, total)
        invariant total + Remaining(len, writes, k) == Delivered(|buf|, writes)
        decreases |writes| - k
      {
        RemainingNext(len, writes, k);
        if k == |writes| { return if total > 0 then total else -1; }
        if writes[k] == Failed { return if total > 0 then total else -1; }
        if writes[k].Wrote? {
          var n := if writes[k].n < len then writes[k].n else len;
          MoreWritten(old(file), file, buf, total, n);
          file := file + buf[total..total + n];
          len, total := len - n, total + n;
        }
        k := k + 1;
      }
      NothingRemains(writes, k);
      return total;
    }

    /** When a flush is put off: nothing to write, or a background fsync that has been waited for less than 2 s. */
    predicate Postpones(force: bool, w: World)
      reads this
    {
      || buf == ""
      || (policy == EverySec && !force && w.syncing && (postponed == 0 || w.now - postponed < 2))
    }

    /** The label try_fsync. */
    method TryFsync(w: World, syncing: bool)
      requires Valid()
      modifies this`fsyncOffset, this`lastFsync, this`exited
      ensures Valid()
      ensures exited <==> old(exited) || (policy == Always && !w.syncs && !(noFsyncOnRewrite && w.child))
      ensures fsyncOffset == size || fsyncOffset == old(fsyncOffset)
      ensures policy == EverySec && w.now > old(lastFsync) && !syncing && !(noFsyncOnRewrite && w.child) ==>
                fsyncOffset == size && lastFsync == w.now
      ensures policy == Always && !exited && !(noFsyncOnRewrite && w.child) ==> fsyncOffset == size
    {
      if noFsyncOnRewrite && w.child { return; }
      if policy == Always {
        if !w.syncs { exited := true; return; }
        fsyncOffset, lastFsync := size, w.now;
      } else if policy == EverySec && w.now > lastFsync {
        if !syncing { fsyncOffset := size; }
        lastFsync := w.now;
      }
    }

    /** The write of a flush, and what it does about a write that is not complete. */
    method WriteOut(w: World) returns (complete: bool)
      requires Valid() && !exited && buf != ""
      modifies this`file, this`buf, this`size, this`writeOk, this`postponed, this`exited
      ensures complete <==> Delivered(|old(buf)|, w.writes) == |old(buf)|
      ensures exited <==> policy == Always && !complete
      ensures exited || Abs() == Flushed(old(Abs()), Delivered(|old(buf)|, w.writes), w.truncates)
      ensures complete ==> file == old(file) + old(buf) && buf == "" && size == |file| && writeOk
      ensures !complete && !exited ==> !writeOk
      ensures postponed == 0
      ensures old(file) <= file <= old(file) + old(buf)
    {
      var nwritten := Write(w.writes);
      postponed := 0;
      if nwritten != |buf| {
        if nwritten != -1 && w.truncates {
          file := file[..size];
          nwritten := -1;
        }
        if policy == Always {
          exited := true;
          return false;
        }
        writeOk := false;
        if nwritten > 0 {
          size := size + nwritten;
          buf := buf[nwritten..];
        }
        return false;
      }
      writeOk := true;
      size := size + nwritten;
      buf := "";
      return true;
    }

    /** flushAppendOnlyFile. A flush waits for a background fsync, but not two seconds, and not when it is forced. Then
        all is written, or an error is kept; with appendfsync always it is on disk as well, or the process exits. */
    method Flush(force: bool, w: World)
      requires Valid() && !exited
      modifies this
      ensures exited ==> policy == Always
      ensures var since := old(postponed);
              var waits := policy == EverySec && !force && w.syncing && (since == 0 || w.now < since + 2);
              var d := Delivered(|old(buf)|, w.writes);
              && (old(buf) == "" || waits ==> file == old(file) && buf == old(buf) && writeOk == old(writeOk))
              && (old(buf) != "" && waits ==> postponed == if old(postponed) == 0 then w.now else old(postponed))
              && (old(buf) != "" && !waits ==> postponed == 0)
              && (old(buf) != "" && !waits && d == |old(buf)| ==>
                    && file == old(file) + old(buf) && buf == "" && size == |file| && writeOk
                    && (exited <==> policy == Always && !w.syncs && !(noFsyncOnRewrite && w.child)))
              && (old(buf) != "" && !waits && d < |old(buf)| ==>
                    && (exited <==> policy == Always)
                    && (!exited ==> !writeOk && file == if w.truncates then old(file) else old(file) + old(buf)[..d]))
      ensures policy == Always && !exited && old(buf) != "" && !(noFsyncOnRewrite && w.child) ==>
                buf == "" && fsyncOffset == size == |file|
      ensures !exited ==>
                Abs() == if old(Postpones(force, w)) then old(Abs())
                         else Flushed(old(Abs()), Delivered(|old(buf)|, w.writes), w.truncates)
      ensures !exited ==> file + buf == old(file) + old(buf) && Valid()
      ensures old(file) <= file <= old(file) + old(buf)
    {
      hide Delivered, Flushed;
      var syncing := false;
      if buf == "" {
        if policy == EverySec && fsyncOffset != size && w.now > lastFsync && !w.syncing {
          TryFsync(w, false);
        }
        return;
      }
      if policy == EverySec { syncing := w.syncing; }
      if policy == EverySec && !force && syncing {
        if postponed == 0 {
          postponed := w.now;
          return;
        } else if w.now - postponed < 2 {
          return;
        }
        delayed := delayed + 1;
      }
      FlushConserves(Abs(), Delivered(|buf|, w.writes), w.truncates);
      FlushWrites(Abs(), Delivered(|buf|, w.writes), w.truncates);
      var complete := WriteOut(w);
      if complete { TryFsync(w, syncing); }
    }
  }
}
