/** The parent's side of the append only file as it is stored: the block list, aof_buf and the flags. Each handler
    is a step of the runs of AofHistory. */
module AofParent {
  import opened Common
  import opened AofFormat
  import opened AofBuffer
  import opened AofFlush
  import opened AofHistory

  class Parent {
    var mode: Mode
    var file: AofFile
    var blocks: RewriteBuffer
    var selected: int
    var child: Option<Child>
    var pipes: Pipes
    ghost var base: string
    ghost var fed: Fed
    ghost var forked: Fed

    ghost function Repr(): set<object>
      reads this, blocks
    {
      {this, file, blocks} + (set b | b in blocks.blocks) + (set b | b in blocks.blocks :: b.buf)
    }

    ghost predicate Valid()
      reads this, file, blocks, blocks.blocks, set b | b in blocks.blocks :: b.buf
    {
      blocks.Valid() && file.policy != Always && !file.exited && (mode == On ==> file.Valid())
    }

    ghost function Abs(): Server
      reads this, file, blocks
    {
      Server(mode, file.Abs(), selected, child, blocks.Content(), blocks.stop, pipes, base, fed, forked)
    }

    /** A server that starts with the file on. */
    constructor (policy: Policy, noFsyncOnRewrite: bool, content: string)
      requires policy != Always
      ensures Valid() && Init(Abs()) && mode == On && file.file == content
    {
      mode, selected, child, pipes := On, -1, None, Pipes("", "", "");
      file := new AofFile(policy, noFsyncOnRewrite, content);
      blocks := new RewriteBuffer();
      base, fed, forked := content, NOTHING, NOTHING;
    }

    /** The end of feedAppendOnlyFile: the text goes to aof_buf and to the rewrite buffer. */
    method Distribute(bytes: string)
      requires Valid()
      modifies file, blocks, blocks.blocks, set b | b in blocks.blocks :: b.buf
      ensures Valid() && blocks.stop == old(blocks.stop)
      ensures file.Abs() == if mode == On then old(file.Abs()).(buf := old(file.buf) + bytes) else old(file.Abs())
      ensures blocks.Content() == if child.Some? then old(blocks.Content()) + bytes else old(blocks.Content())
    {
      hide Concat;
      if mode == On { file.Feed(bytes); }
      if child.Some? { blocks.Append(bytes); }
    }

    /** feedAppendOnlyFile. */
    method FeedCommand(db: nat, c: Command)
      requires Valid() && Enabled(Abs(), Feed(db, c))
      modifies Repr()
      ensures Valid() && Abs() == Next(old(Abs()), Feed(db, c))
    {
      hide PrintAll, Concat, FeedRecords, FeedMore, IsSelect;
      ghost var s := Abs();
      assert Next(s, Feed(db, c)) == FeedStep(s, db, c);
      hide Enabled, Next;
      var bytes, selected' := FeedText(selected, db, c);
      fed, forked := FeedMore(fed, selected, db, c), FeedMore(forked, selected, db, c);
      selected := selected';
      Distribute(bytes);
    }

    /** flushAppendOnlyFile. */
    method FlushFile(force: bool, w: World) returns (e: Event)
      requires Valid() && mode == On
      modifies file
      ensures e == Flush(old(file.Postpones(force, w)), Delivered(|old(file.buf)|, w.writes), w.truncates)
      ensures Valid() && Enabled(old(Abs()), e) && Abs() == Next(old(Abs()), e)
    {
      e := Flush(file.Postpones(force, w), Delivered(|file.buf|, w.writes), w.truncates);
      file.Flush(force, w);
    }

    /** aofChildWriteDiffData. */
    method SendData(writes: seq<int>) returns (ghost e: Event)
      requires Valid() && child.Some?
      modifies Repr()
      ensures Valid() && Enabled(old(Abs()), e) && e.SendDiff? && Abs() == Next(old(Abs()), e)
    {
      hide Concat;
      var data, n, k := blocks.Drain(pipes.data, writes);
      pipes := pipes.(data := data);
      e := SendDiff(n);
    }

    /** aofChildPipeReadable. */
    method ReadRequest(answered: bool)
      requires Valid() && Enabled(Abs(), Readable(answered))
      modifies this, blocks
      ensures Valid() && Abs() == Next(old(Abs()), Readable(answered))
    {
      var byte := pipes.requests[0];
      pipes := pipes.(requests := pipes.requests[1..]);
      if byte == '!' {
        blocks.stop := true;
        if answered { pipes := pipes.(answers := pipes.answers + "!"); }
      }
    }

    /** The new file takes the place of the old one. */
    method Adopt(content: string)
      requires !file.exited && file.policy != Always
      modifies this`mode, this`selected, file
      ensures mode == On && selected == -1 && file.Valid() && !file.exited
      ensures file.Abs() == Log(content, "", |content|, old(file.writeOk))
    {
      file.file, file.size, file.buf, file.fsyncOffset := content, |content|, "", |content|;
      selected := -1;
      mode := On;
    }

    /** aofRewriteBufferReset. */
    method Reset()
      modifies this`blocks
      ensures blocks.Valid() && blocks.blocks == [] && blocks.Content() == "" && blocks.stop == old(blocks.stop)
    {
      var stop := blocks.stop;
      blocks := new RewriteBuffer();
      blocks.stop := stop;
    }

    /** backgroundRewriteDoneHandler. The new file is renamed into place even if the log was switched off meanwhile,
        but then aof_fd stays closed and nothing else of the log changes. `writes` answer the writes of the remaining
        diff; `others` tells whether opening, syncing and renaming succeed. */
    method RewriteDone(writes: seq<int>, others: bool) returns (e: Event)
      requires Valid() && child.Some? && child.value.phase.Exited?
      modifies this, file
      ensures Valid() && e.Done? && Abs() == DoneStep(old(Abs()), e.ok)
      ensures e.ok <==> old(child.value.phase.code == 0 && Demands(blocks.parts) <= writes) && others
    {
      hide Concat, Demands;
      e := Done(false);
      var c := child.value;
      ghost var s := Abs();
      if c.phase.code == 0 {
        var rest, ok := blocks.Write(writes);
        if ok && others {
          e := Done(true);
          if mode == Off { file.file := c.tmp + rest; } else { Adopt(c.tmp + rest); }
          base, fed := c.snapshot, forked;
        }
      }
      assert Abs() == DoneStep(s, e.ok).(child := s.child, buffer := s.buffer);
      child := None;
      Reset();
    }
  }
}
