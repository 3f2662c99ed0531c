/** The AOF rewrite buffer: a list of fixed-size blocks that takes what is fed while a child rewrites the file and
    gives it to the child, or to the finished file, piece by piece. */
module AofBuffer {
  /** AOF_RW_BUF_BLOCK_SIZE. */
  const BLOCK_SIZE: nat := 10 * 1024 * 1024

  function Concat(parts: seq<string>): string {
    if parts == [] then "" else parts[0] + Concat(parts[1..])
  }

  lemma {:induction false} ConcatAppend(a: seq<string>, b: seq<string>)
    ensures Concat(a + b) == Concat(a) + Concat(b)
  {
    if a == [] {
      assert a + b == b;
    } else {
      assert (a + b)[0] == a[0] && (a + b)[1..] == a[1..] + b;
      ConcatAppend(a[1..], b);
      assert a[0] + (Concat(a[1..]) + Concat(b)) == a[0] + Concat(a[1..]) + Concat(b);
    }
  }

  /** Replacing the last part appends to the whole. */
  lemma ConcatExtend(parts: seq<string>, s: string)
    requires parts != []
    ensures Concat(parts[|parts| - 1 := parts[|parts| - 1] + s]) == Concat(parts) + s
  {
    var init, last := parts[..|parts| - 1], parts[|parts| - 1];
    assert parts == init + [last] && parts[|parts| - 1 := last + s] == init + [last + s];
    ConcatAppend(init, [last]);
    ConcatAppend(init, [last + s]);
    assert Concat([last]) == last + Concat([]) && Concat([last + s]) == (last + s) + Concat([]);
    assert [last][1..] == [] && [last + s][1..] == [];
    assert Concat(init) + (last + s) == Concat(init) + last + s;
  }

  lemma Shift(a: string, b: string, n: nat)
    requires n <= |b|
    ensures a + b == a + b[..n] + b[n..]
  {
    assert b == b[..n] + b[n..];
  }

  /** aofrwblock. */
  class Block {
    const buf: array<char>
    var used: nat
    var free: nat

    ghost predicate Valid()
      reads this
    {
      buf.Length == BLOCK_SIZE && used + free == BLOCK_SIZE
    }

    ghost function Data(): string
      reads this, buf
    {
      if used <= buf.Length then buf[..used] else ""
    }

    constructor ()
      ensures Valid() && fresh(buf) && used == 0 && Data() == ""
    {
      buf := new char[BLOCK_SIZE];
      used, free := 0, BLOCK_SIZE;
    }

    /** The memcpy of aofRewriteBufferAppend. */
    method Put(s: string)
      requires Valid() && |s| <= free
      modifies this, buf
      ensures Valid() && Data() == old(Data()) + s
      ensures used == old(used) + |s|
    {
      forall i | 0 <= i < |s| { buf[used + i] := s[i]; }
      used, free := used + |s|, free - |s|;
      assert Data() == old(Data()) + s;
    }

    /** The memmove of aofChildWriteDiffData. */
    method Take(n: nat)
      requires Valid() && n <= used
      modifies this, buf
      ensures Valid() && Data() == old(Data())[n..]
      ensures used == old(used) - n
    {
      forall i | 0 <= i < used - n { buf[i] := buf[n + i]; }
      used, free := used - n, free + n;
      assert Data() == old(Data())[n..];
    }
  }

  /** aof_rewrite_buf_blocks, with aof_stop_sending_diff and whether the write event is installed. */
  class RewriteBuffer {
    var blocks: seq<Block>
    var stop: bool
    var writable: bool
    ghost var parts: seq<string>

    ghost predicate Valid()
      reads this, blocks, set b | b in blocks :: b.buf
    {
      && |parts| == |blocks|
      && (forall i :: 0 <= i < |blocks| ==> blocks[i].Valid() && blocks[i].Data() == parts[i])
      && (forall i, j :: 0 <= i < j < |blocks| ==> blocks[i] != blocks[j] && blocks[i].buf != blocks[j].buf)
    }

    ghost function Content(): string
      reads this
    {
      Concat(parts)
    }

    /** A fresh rewrite: aofRewriteBufferReset and aofCreatePipes. */
    constructor ()
      ensures Valid() && blocks == [] && Content() == "" && !stop && !writable
    {
      blocks, stop, writable, parts := [], false, false, [];
    }

    /** aofRewriteBufferSize. */
    method Size() returns (size: nat)
      requires Valid()
      ensures size == |Content()|
    {
      size := 0;
      assert parts[0..] == parts;
      for i := 0 to |blocks|
        invariant size + |Concat(parts[i..])| == |Content()|
      {
        assert parts[i..][0] == blocks[i].Data() && parts[i..][1..] == parts[i + 1..];
        size := size + blocks[i].used;
      }
    }

    /** Puts as much of `s` into the last block as fits. */
    method PutLast(s: string) returns (n: nat)
      requires Valid() && blocks != []
      modifies this`parts, blocks[|blocks| - 1], blocks[|blocks| - 1].buf
      ensures Valid() && n <= |s| && Content() == old(Content()) + s[..n]
      ensures blocks[|blocks| - 1].free == old(blocks[|blocks| - 1].free) - n
      ensures n < |s| ==> blocks[|blocks| - 1].free == 0
    {
      var last := |blocks| - 1;
      var block := blocks[last];
      n := if block.free < |s| then block.free else |s|;
      ConcatExtend(parts, s[..n]);
      block.Put(s[..n]);
      parts := parts[last := parts[last] + s[..n]];
    }

    /** Allocates one more block. */
    method AddBlock()
      requires Valid()
      modifies this`blocks, this`parts
      ensures Valid() && Content() == old(Content())
      ensures |blocks| == |old(blocks)| + 1 && blocks[..|old(blocks)|] == old(blocks)
      ensures var b := blocks[|old(blocks)|]; fresh(b) && fresh(b.buf) && b.free == BLOCK_SIZE
    {
      var block := new Block();
      ConcatAppend(parts, [""]);
      assert Concat([""]) == "" + Concat([""][1..]);
      blocks := blocks + [block];
      parts := parts + [""];
    }

    /** aofRewriteBufferAppend. */
    method Append(s: string)
      requires Valid()
      modifies this, blocks, set b | b in blocks :: b.buf
      ensures Valid() && Content() == old(Content()) + s
      ensures stop == old(stop) && (writable <==> old(writable) || !stop)
      ensures forall b :: b in blocks ==> b in old(blocks) || (fresh(b) && fresh(b.buf))
    {
      hide Concat;
      var rest := s;
      while rest != []
        invariant Valid() && Content() + rest == old(Content()) + s
        invariant stop == old(stop) && writable == old(writable)
        invariant forall b :: b in blocks ==> b in old(blocks) || (fresh(b) && fresh(b.buf))
        decreases |rest|, if blocks == [] || blocks[|blocks| - 1].free == 0 then 1 else 0
      {
        if blocks != [] {
          ghost var before := Content();
          var n := PutLast(rest);
          Shift(before, rest, n);
          rest := rest[n..];
        }
        if rest != [] { AddBlock(); }
      }
      assert Content() + "" == Content();
      if !stop { writable := true; }
    }

    /** Hands the first `n` bytes of the first block over. */
    method TakeFirst(n: nat)
      requires Valid() && blocks != [] && n <= blocks[0].used
      modifies this`parts, blocks[0], blocks[0].buf
      ensures Valid() && Content() == old(Content())[n..] && blocks[0].used == old(blocks[0].used) - n
    {
      TakeFront(parts, n);
      blocks[0].Take(n);
      parts := parts[0 := parts[0][n..]];
    }

    /** Writes `w` bytes of the first block into the pipe. */
    method WriteFirst(pipe: string, w: nat) returns (pipe': string)
      requires Valid() && blocks != [] && w <= blocks[0].used
      modifies this`parts, blocks[0], blocks[0].buf
      ensures Valid() && blocks[0].used == old(blocks[0].used) - w && w <= |old(Content())|
      ensures pipe' == pipe + old(Content())[..w] && Content() == old(Content())[w..]
    {
      FirstPart(parts, w);
      pipe' := pipe + blocks[0].buf[..w];
      TakeFirst(w);
    }

    /** Frees the first block, which is empty. */
    method DropFirst()
      requires Valid() && blocks != [] && blocks[0].used == 0
      modifies this`parts, this`blocks
      ensures Valid() && Content() == old(Content()) && blocks == old(blocks)[1..]
    {
      assert Concat(parts) == "" + Concat(parts[1..]);
      blocks, parts := blocks[1..], parts[1..];
    }

    /** aofChildWriteDiffData. `writes` are the results of the calls of write(2), of which one of zero or less ends
        the round; `n` bytes go into the pipe, at least one for each of the `k` calls that succeed. Only an
        empty buffer, the stop flag or a failing write end the round. */
    method Drain(pipe: string, writes: seq<int>) returns (pipe': string, ghost n: nat, k: nat)
      requires Valid()
      modifies this, blocks, set b | b in blocks :: b.buf
      ensures Valid() && stop == old(stop) && forall b :: b in blocks ==> b in old(blocks)
      ensures Sent(pipe, old(Content()), n, pipe', Content())
      ensures stop ==> n == 0 && !writable
      ensures k <= |writes| && k <= n && (forall i :: 0 <= i < k ==> writes[i] > 0)
      ensures writable ==> !stop && (k == |writes| || writes[k] <= 0)
      ensures !writable && old(writable) ==> stop || Content() == ""
      ensures writable ==> old(writable)
    {
      hide Concat, Sent;
      pipe', n, k := pipe, 0, 0;
      ghost var content, dropped: nat := Content(), 0;
      SentNone(pipe, content);
      assert blocks[0..] == blocks;
      while true
        invariant Valid() && stop == old(stop) && writable == old(writable) && k <= |writes|
        invariant dropped <= |old(blocks)| && blocks == old(blocks)[dropped..]
        invariant Sent(pipe, content, n, pipe', Content())
        invariant k <= n && (stop ==> n == 0) && (forall i :: 0 <= i < k ==> writes[i] > 0)
        decreases |writes| - k + |blocks|
      {
        if stop || blocks == [] {
          writable := false;
          NoParts(parts);
          return;
        }
        var block := blocks[0];
        assert block == old(blocks)[dropped];
        if block.used > 0 {
          if k == |writes| || writes[k] <= 0 { return; }
          var w := if writes[k] < block.used then writes[k] else block.used;
          SentMore(pipe, content, n, pipe', Content(), w);
          pipe' := WriteFirst(pipe', w);
          n, k := n + w, k + 1;
        }
        if block.used == 0 {
          DropFirst();
          dropped := dropped + 1;
        }
      }
    }

    /** aofRewriteBufferWrite: `out` is what reaches the file; anything but a full write of each block is an error. */
    method Write(writes: seq<int>) returns (out: string, ok: bool)
      requires Valid()
      ensures out <= Content() && (ok ==> out == Content())
      ensures ok <==> Demands(parts) <= writes
    {
      hide Concat, Demands;
      out, ok := "", false;
      var k := 0;
      assert parts[0..] == parts && writes[..0] + Demands(parts) == Demands(parts);
      for i := 0 to |blocks|
        invariant out + Concat(parts[i..]) == Content()
        invariant k <= |writes| && writes[..k] + Demands(parts[i..]) == Demands(parts)
      {
        var block := blocks[i];
        NextPart(parts, i);
        if block.used > 0 {
          assert Demands(parts)[k] == block.used;
          if k == |writes| { return; }
          if writes[k] != block.used {
            if 0 < writes[k] < block.used {
              PartialPart(out, block.Data(), Concat(parts[i + 1..]), writes[k]);
              out := out + block.buf[..writes[k]];
            }
            return;
          }
          out := out + block.buf[..block.used];
          k := k + 1;
        }
      }
      LastPart(parts);
      ok := true;
    }
  }

  /** The sizes of the writes that send all parts. */
  ghost function Demands(parts: seq<string>): seq<int> {
    if parts == [] then [] else (if parts[0] == "" then [] else [|parts[0]|]) + Demands(parts[1..])
  }

  lemma NextPart(parts: seq<string>, i: nat)
    requires i < |parts|
    ensures Concat(parts[i..]) == parts[i] + Concat(parts[i + 1..])
    ensures Demands(parts[i..]) == (if parts[i] == "" then [] else [|parts[i]|]) + Demands(parts[i + 1..])
  {
    assert parts[i..][0] == parts[i] && parts[i..][1..] == parts[i + 1..];
  }

  lemma LastPart(parts: seq<string>)
    ensures Concat(parts[|parts|..]) == "" && Demands(parts[|parts|..]) == []
  {}

  lemma PartialPart(a: string, b: string, c: string, n: nat)
    requires n <= |b|
    ensures a + b[..n] <= a + (b + c)
  {}

  lemma NoParts(parts: seq<string>)
    ensures parts == [] ==> Concat(parts) == ""
  {}

  lemma FirstPart(parts: seq<string>, w: nat)
    requires parts != [] && w <= |parts[0]|
    ensures w <= |Concat(parts)| && Concat(parts)[..w] == parts[0][..w]
  {}

  lemma TakeFront(parts: seq<string>, n: nat)
    requires parts != [] && n <= |parts[0]|
    ensures n <= |Concat(parts)| && Concat(parts[0 := parts[0][n..]]) == Concat(parts)[n..]
  {
    assert parts[0 := parts[0][n..]][1..] == parts[1..];
  }

  /** The first `n` bytes of `content` have moved to the end of the pipe, and `rest` is left. */
  ghost predicate Sent(pipe: string, content: string, n: nat, pipe': string, rest: string) {
    n <= |content| && pipe' == pipe + content[..n] && rest == content[n..]
  }

  lemma SentNone(pipe: string, content: string)
    ensures Sent(pipe, content, 0, pipe, content)
  {}

  lemma SentMore(pipe: string, content: string, n: nat, pipe': string, rest: string, w: nat)
    requires Sent(pipe, content, n, pipe', rest)
    ensures w <= |rest| ==> Sent(pipe, content, n + w, pipe' + rest[..w], rest[w..])
  {
    if w <= |rest| { assert content[..n + w] == content[..n] + content[n..][..w]; }
  }
}
