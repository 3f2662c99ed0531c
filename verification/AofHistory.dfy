/** The append only file over whole runs: feeds, flushes, background rewrites by a child process, failures, and
    switching the file off and on. Parent and child exchange bytes through three pipes and take turns in any order. */
module AofHistory {
  import opened Common
  import opened Decimal
  import opened AofFormat
  import opened AofLoad
  import opened AofFlush

  // ------------------------------------------------------------------
  // What is fed
  // ------------------------------------------------------------------

  function SelectCommand(db: nat): Command { ["SELECT", Digits(db)] }

  /** The records of one feed: a SELECT first unless the log already has that database selected. */
  function FeedRecords(selected: int, db: nat, c: Command): seq<Command> {
    (if db != selected then [SelectCommand(db)] else []) + [c]
  }

  /** The constant text for SELECT is what the printer of commands would print. */
  lemma SelectText(db: nat)
    ensures Print(SelectCommand(db)) == "*2\r\n$6\r\nSELECT\r\n$" + (Digits(|Digits(db)|) + CRLF + Digits(db) + CRLF)
  {
    var c, d := SelectCommand(db), Digits(db);
    var x := Digits(|d|) + CRLF + d + CRLF;
    SelectStart();
    Glue(x);
    hide Header, PrintArg;
    assert c[1..] == [d] && c[1..][1..] == [];
    assert PrintArgs(c[1..]) == PrintArg(d) + "" == PrintArg(d);
    LastArg(d);
  }

  lemma SelectStart()
    ensures Header('*', 2) == "*2\r\n" && PrintArg("SELECT") == "$6\r\nSELECT\r\n"
  {
    assert Digits(2) == "2" && Digits(6) == "6";
  }

  lemma LastArg(d: string)
    ensures PrintArg(d) == "$" + (Digits(|d|) + CRLF + d + CRLF)
  {
    Regroup("$", Digits(|d|), CRLF, d, CRLF);
    hide Digits;
  }

  lemma Regroup(a: string, b: string, c: string, d: string, e: string)
    ensures a + b + c + d + e == a + (b + c + d + e)
  {}

  lemma Glue(x: string)
    ensures "*2\r\n" + ("$6\r\nSELECT\r\n" + ("$" + x)) == "*2\r\n$6\r\nSELECT\r\n$" + x
  {}

  /** The text that feedAppendOnlyFile builds, and aof_selected_db after it. */
  method FeedText(selected: int, db: nat, c: Command) returns (buf: string, selected': int)
    ensures buf == PrintAll(FeedRecords(selected, db, c)) && selected' == db
  {
    buf := "";
    if db != selected {
      SelectText(db);
      buf := "*2\r\n$6\r\nSELECT\r\n$" + (Digits(|Digits(db)|) + CRLF + Digits(db) + CRLF);
    }
    assert PrintAll([c]) == Print(c) by { assert [c][1..] == [] && Print(c) + "" == Print(c); }
    if db != selected {
      var rs := [SelectCommand(db)] + [c];
      assert rs[1..] == [c] && PrintAll(rs) == Print(SelectCommand(db)) + PrintAll([c]);
    } else {
      assert [] + [c] == [c];
    }
    hide Print, PrintAll;
    buf := AppendCommand(buf, c);
    selected' := db;
  }

  /** Commands with the database they are meant for. */
  type Targeted = seq<(int, Command)>

  predicate IsSelect(c: Command) { |c| == 2 && Named(c, "select") }

  /** The database that a SELECT names. */
  function Selects(c: Command): int
    requires IsSelect(c)
  {
    ReadNumber(c[1])
  }

  /** The database in use after `log`, if `db` was in use before. */
  ghost function Final(log: seq<Command>, db: int): int {
    if log == [] then db
    else
      var last := log[|log| - 1];
      if IsSelect(last) then Selects(last) else Final(log[..|log| - 1], db)
  }

  /** What replaying `log` does, if `db` is in use at first. */
  ghost function Targets(log: seq<Command>, db: int): Targeted {
    if log == [] then []
    else
      var init, last := log[..|log| - 1], log[|log| - 1];
      if IsSelect(last) then Targets(init, db) else Targets(init, db) + [(Final(init, db), last)]
  }

  /** Bytes, records and commands of what was fed since some moment. */
  datatype Fed = Fed(bytes: string, records: seq<Command>, commands: Targeted)

  const NOTHING: Fed := Fed("", [], [])

  function FeedMore(f: Fed, selected: int, db: nat, c: Command): Fed {
    var rs := FeedRecords(selected, db, c);
    Fed(f.bytes + PrintAll(rs), f.records + rs, f.commands + [(db, c)])
  }

  /** The bytes are those of the records, and replaying the records runs every command in its own database,
      whatever database is in use before. */
  ghost predicate Tracks(f: Fed, selected: int) {
    && f.bytes == PrintAll(f.records)
    && (forall db: int :: Targets(f.records, db) == f.commands)
    && (selected != -1 ==> forall db: int :: Final(f.records, db) == selected)
  }

  lemma OneMore(log: seq<Command>, c: Command, db: int)
    ensures Final(log + [c], db) == if IsSelect(c) then Selects(c) else Final(log, db)
    ensures Targets(log + [c], db) == if IsSelect(c) then Targets(log, db) else Targets(log, db) + [(Final(log, db), c)]
  {
    assert (log + [c])[..|log|] == log;
  }

  lemma SelectsItself(db: nat)
    ensures IsSelect(SelectCommand(db)) && Selects(SelectCommand(db)) == db
  {
    ReadPrinted(db, "");
    assert Digits(db) + "" == Digits(db);
  }

  lemma FeedTracks(f: Fed, selected: int, db: nat, c: Command)
    requires Tracks(f, selected) && !IsSelect(c)
    ensures Tracks(FeedMore(f, selected, db, c), db)
  {
    var rs, f' := FeedRecords(selected, db, c), FeedMore(f, selected, db, c);
    PrintConcat(f.records, rs);
    hide PrintAll;
    var log := if db != selected then f.records + [SelectCommand(db)] else f.records;
    assert f'.records == log + [c];
    forall d: int ensures Targets(f'.records, d) == f'.commands && Final(f'.records, d) == db {
      OneMore(log, c, d);
      if db != selected {
        OneMore(f.records, SelectCommand(db), d);
        SelectsItself(db);
      }
      hide Targets, Final, IsSelect, Selects, SelectCommand;
    }
  }

  // ------------------------------------------------------------------
  // The server and its child
  // ------------------------------------------------------------------

  /** AOF_OFF, AOF_WAIT_REWRITE and AOF_ON. */
  datatype Mode = Off | Waiting | On

  /** The child writes the snapshot, asks to stop the diff, is answered, has read the last of it, and exits. */
  datatype Phase = Saving | Asked | Agreed | Drained | Exited(code: nat)

  datatype Child = Child(phase: Phase, snapshot: string, diff: string, tmp: string)

  /** The three pipes: data to the child, requests to the parent, answers to the child. */
  datatype Pipes = Pipes(data: string, requests: string, answers: string)

  /** `base` is the snapshot that the file starts with, `fed` what was fed since that snapshot was forked, and
      `forked` what was fed since the running child was forked. */
  datatype Server = Server(mode: Mode, log: Log, selected: int, child: Option<Child>, buffer: string, stop: bool,
                           pipes: Pipes, base: string, fed: Fed, forked: Fed)

  datatype Event =
    | Feed(db: nat, c: Command)
    | Flush(postponed: bool, d: nat, truncates: bool)
    | Fork(snapshot: string)
    | SendDiff(n: nat)
    | Readable(answered: bool)
    | ChildRead(n: nat)
    | ChildAsk
    | ChildAnswered
    | ChildDrain
    | ChildFinish
    | ChildFail
    | Done(ok: bool)
    | Kill
    | SwitchOff(d: nat, truncates: bool)
    | SwitchOn(start: Option<string>)

  predicate InPhase(s: Server, p: Phase) { s.child.Some? && s.child.value.phase == p }

  predicate Enabled(s: Server, e: Event) {
    match e
    case Feed(db, c) => s.mode != Off && !IsSelect(c)
    case Flush(postponed, d, _) => s.mode != Off && d <= |s.log.buf|
    case Fork(_) => s.child.None?
    case SendDiff(n) => s.child.Some? && n <= |s.buffer| && (s.stop ==> n == 0)
    case Readable(_) => s.child.Some? && s.pipes.requests != ""
    case ChildRead(n) => InPhase(s, Saving) && n <= |s.pipes.data|
    case ChildAsk => InPhase(s, Saving)
    case ChildAnswered => InPhase(s, Asked) && s.pipes.answers != ""
    case ChildDrain => InPhase(s, Agreed)
    case ChildFinish => InPhase(s, Drained)
    case ChildFail => s.child.Some? && !s.child.value.phase.Exited?
    case Done(_) => s.child.Some? && s.child.value.phase.Exited?
    case Kill => s.child.Some?
    case SwitchOff(d, _) => s.mode != Off && d <= |s.log.buf|
    case SwitchOn(start) => s.mode == Off && (start.None? ==> s.child.None?)
  }

  /** feedAppendOnlyFile. */
  function FeedStep(s: Server, db: nat, c: Command): Server {
    var bytes := PrintAll(FeedRecords(s.selected, db, c));
    s.(log := if s.mode == On then s.log.(buf := s.log.buf + bytes) else s.log,
       buffer := if s.child.Some? then s.buffer + bytes else s.buffer,
       selected := db,
       fed := FeedMore(s.fed, s.selected, db, c),
       forked := FeedMore(s.forked, s.selected, db, c))
  }

  /** rewriteAppendOnlyFileBackground, when the pipes and the child can be created. */
  function ForkStep(s: Server, snapshot: string): Server {
    s.(child := Some(Child(Saving, snapshot, "", "")), stop := false, pipes := Pipes("", "", ""), selected := -1,
       forked := NOTHING)
  }

  /** killAppendOnlyChild, and the end of backgroundRewriteDoneHandler. */
  function DropChild(s: Server): Server {
    s.(child := None, buffer := "")
  }

  /** backgroundRewriteDoneHandler; `ok` tells whether opening, writing, syncing and renaming succeed. */
  function DoneStep(s: Server, ok: bool): Server
    requires s.child.Some? && s.child.value.phase.Exited?
  {
    var c := s.child.value;
    if c.phase.code != 0 || !ok then DropChild(s)
    else
      var file := c.tmp + s.buffer;
      var t := DropChild(s).(base := c.snapshot, fed := s.forked);
      if s.mode == Off then t.(log := s.log.(file := file))
      else t.(mode := On, log := Log(file, "", |file|, s.log.writeOk), selected := -1)
  }

  function FlushStep(s: Server, d: nat, truncates: bool): Log
    requires d <= |s.log.buf|
  {
    if s.log.buf == "" then s.log else Flushed(s.log, d, truncates)
  }

  function SetPhase(s: Server, p: Phase): Server
    requires s.child.Some?
  {
    s.(child := Some(s.child.value.(phase := p)))
  }

  function SetDiff(s: Server, n: nat): Server
    requires s.child.Some? && n <= |s.pipes.data|
  {
    s.(child := Some(s.child.value.(diff := s.child.value.diff + s.pipes.data[..n])),
       pipes := s.pipes.(data := s.pipes.data[n..]))
  }

  function Next(s: Server, e: Event): Server
    requires Enabled(s, e)
  {
    match e
    case Feed(db, c) => FeedStep(s, db, c)
    case Flush(postponed, d, truncates) => if postponed then s else s.(log := FlushStep(s, d, truncates))
    case Fork(snapshot) => ForkStep(s, snapshot)
    case SendDiff(n) => s.(pipes := s.pipes.(data := s.pipes.data + s.buffer[..n]), buffer := s.buffer[n..])
    case Readable(answered) =>
      if s.pipes.requests[0] != '!' then s.(pipes := s.pipes.(requests := s.pipes.requests[1..]))
      else s.(stop := true,
              pipes := s.pipes.(requests := s.pipes.requests[1..],
                                answers := s.pipes.answers + if answered then "!" else ""))
    case ChildRead(n) => SetDiff(s, n)
    case ChildAsk => SetPhase(s, Asked).(pipes := s.pipes.(requests := s.pipes.requests + "!"))
    case ChildAnswered =>
      SetPhase(s, if s.pipes.answers[0] == '!' then Agreed else Exited(1))
      .(pipes := s.pipes.(answers := s.pipes.answers[1..]))
    case ChildDrain => SetPhase(SetDiff(s, |s.pipes.data|), Drained)
    case ChildFinish =>
      s.(child := Some(s.child.value.(phase := Exited(0), tmp := s.child.value.snapshot + s.child.value.diff)))
    case ChildFail => SetPhase(s, Exited(1))
    case Done(ok) => DoneStep(s, ok)
    case Kill => DropChild(s)
    case SwitchOff(d, truncates) =>
      var log := FlushStep(s, d, truncates);
      DropChild(s).(mode := Off, selected := -1, log := log.(buf := ""))
    case SwitchOn(start) =>
      var t := DropChild(s);
      (if start.Some? then ForkStep(t, start.value) else t).(mode := Waiting, log := s.log.(writeOk := true))
  }

  // ------------------------------------------------------------------
  // What every step keeps
  // ------------------------------------------------------------------

  /** While a child runs, what was fed since the fork is in its diff, in the pipe and in the buffer, in this order.
      The child believes that no more will come only when the parent has stopped sending. */
  ghost predicate ChildOk(s: Server) {
    s.child.Some? ==>
      var c := s.child.value;
      && s.forked.bytes == c.diff + s.pipes.data + s.buffer
      && (s.pipes.answers != "" ==> s.stop)
      && (c.phase in {Agreed, Drained, Exited(0)} ==> s.stop)
      && (c.phase in {Drained, Exited(0)} ==> s.pipes.data == "")
      && (c.phase == Exited(0) ==> c.tmp == c.snapshot + c.diff)
  }

  /** With the file on, the file and the bytes that still wait are the snapshot and everything fed since. */
  ghost predicate LogOk(s: Server) {
    && (s.mode == On ==> s.log.file + s.log.buf == s.base + s.fed.bytes && Sized(s.log))
    && (s.mode != On ==> s.log.buf == "")
    && (s.child.None? ==> s.buffer == "")
  }

  ghost predicate FedOk(s: Server) {
    s.selected >= -1 && Tracks(s.fed, s.selected) && Tracks(s.forked, s.selected)
  }

  ghost predicate Inv(s: Server) { ChildOk(s) && LogOk(s) && FedOk(s) }

  // ------------------------------------------------------------------
  // Every step keeps it
  // ------------------------------------------------------------------

  lemma FeedKeeps(s: Server, db: nat, c: Command)
    requires Inv(s) && s.mode != Off && !IsSelect(c)
    ensures Inv(FeedStep(s, db, c))
  {
    FeedTracks(s.fed, s.selected, db, c);
    FeedTracks(s.forked, s.selected, db, c);
    var t, bytes := FeedStep(s, db, c), PrintAll(FeedRecords(s.selected, db, c));
    assert t.fed.bytes == s.fed.bytes + bytes && t.forked.bytes == s.forked.bytes + bytes;
    hide Tracks, PrintAll, FeedRecords, FeedMore, IsSelect;
    if s.child.Some? { Assoc(s.child.value.diff + s.pipes.data, s.buffer, bytes); }
    Assoc(s.log.file, s.log.buf, bytes);
    Assoc(s.base, s.fed.bytes, bytes);
  }

  lemma Assoc(a: string, b: string, c: string)
    ensures a + (b + c) == a + b + c
  {}

  lemma FlushKeeps(s: Server, d: nat, truncates: bool)
    requires Inv(s) && d <= |s.log.buf|
    ensures Inv(s.(log := FlushStep(s, d, truncates)))
    ensures s.mode == On ==> s.log.file <= FlushStep(s, d, truncates).file
  {
    hide Tracks;
    if s.mode == On { FlushConserves(s.log, d, truncates); }
    hide Flushed;
  }

  lemma ChildKeeps(s: Server, e: Event)
    requires Inv(s) && Enabled(s, e)
    requires e.SendDiff? || e.ChildRead? || e.ChildDrain?
    ensures Inv(Next(s, e))
  {
    hide Tracks;
    var c, data, rest := s.child.value, s.pipes.data, s.buffer;
    match e {
      case SendDiff(n) => MoveRight(c.diff, data, rest, n);
      case ChildRead(n) => MoveLeft(c.diff, data, rest, n);
      case ChildDrain => MoveLeft(c.diff, data, rest, |data|);
    }
  }

  lemma MoveRight(a: string, b: string, c: string, n: nat)
    requires n <= |c|
    ensures a + (b + c[..n]) + c[n..] == a + b + c
  {
    assert c == c[..n] + c[n..];
  }

  lemma MoveLeft(a: string, b: string, c: string, n: nat)
    requires n <= |b|
    ensures (a + b[..n]) + b[n..] + c == a + b + c
  {
    assert b == b[..n] + b[n..];
  }

  lemma DoneKeeps(s: Server, ok: bool)
    requires Inv(s) && s.child.Some? && s.child.value.phase.Exited?
    ensures Inv(DoneStep(s, ok))
  {
    var c, t := s.child.value, DoneStep(s, ok);
    assert Tracks(s.forked, -1);
    hide Tracks;
    if c.phase.code == 0 && ok {
      assert c.phase == Exited(0);
      assert (c.snapshot + c.diff) + s.buffer == c.snapshot + (c.diff + "" + s.buffer);
      assert c.tmp + s.buffer + "" == c.tmp + s.buffer;
    }
  }

  lemma NextKeeps(s: Server, e: Event)
    requires Inv(s) && Enabled(s, e)
    ensures Inv(Next(s, e))
  {
    hide Inv, FeedStep, FlushStep, DoneStep, ForkStep, DropChild, SetDiff, SetPhase;
    match e
    case Feed(db, c) => FeedKeeps(s, db, c);
    case Flush(postponed, d, truncates) => if !postponed { FlushKeeps(s, d, truncates); }
    case SendDiff(n) => ChildKeeps(s, e);
    case ChildRead(n) => ChildKeeps(s, e);
    case ChildDrain => ChildKeeps(s, e);
    case Done(ok) => DoneKeeps(s, ok);
    case Fork(_) => ForkKeeps(s, e);
    case Kill => KillKeeps(s);
    case SwitchOff(d, truncates) => SwitchOffKeeps(s, d, truncates);
    case SwitchOn(start) => SwitchOnKeeps(s, start);
    case Readable(_) => TalkKeeps(s, e);
    case ChildAsk => TalkKeeps(s, e);
    case ChildAnswered => TalkKeeps(s, e);
    case ChildFinish => TalkKeeps(s, e);
    case ChildFail => TalkKeeps(s, e);
  }

  /** Requests, answers and the end of the child. */
  lemma TalkKeeps(s: Server, e: Event)
    requires Inv(s) && Enabled(s, e)
    requires e.Readable? || e.ChildAsk? || e.ChildAnswered? || e.ChildFinish? || e.ChildFail?
    ensures Inv(Next(s, e))
  {
    hide Tracks;
  }

  lemma ForkKeeps(s: Server, e: Event)
    requires Inv(s) && Enabled(s, e) && e.Fork?
    ensures Inv(Next(s, e))
  {
    assert Tracks(s.fed, -1) && Tracks(NOTHING, -1);
    hide Tracks;
    assert "" + "" + "" == "";
  }

  lemma KillKeeps(s: Server)
    requires Inv(s) && s.child.Some?
    ensures Inv(Next(s, Kill))
  {
    hide Tracks;
  }

  lemma SwitchOffKeeps(s: Server, d: nat, truncates: bool)
    requires Inv(s) && Enabled(s, SwitchOff(d, truncates))
    ensures Inv(Next(s, SwitchOff(d, truncates)))
  {
    assert Tracks(s.fed, -1) && Tracks(s.forked, -1);
    hide Tracks, FlushStep;
  }

  lemma SwitchOnKeeps(s: Server, start: Option<string>)
    requires Inv(s) && Enabled(s, SwitchOn(start))
    ensures Inv(Next(s, SwitchOn(start)))
  {
    assert Tracks(s.fed, -1) && Tracks(NOTHING, -1);
    hide Tracks;
    assert "" + "" + "" == "";
  }

  // ------------------------------------------------------------------
  // Runs
  // ------------------------------------------------------------------

  /** A server that has just started: the file is on or off, and nothing was fed. */
  ghost predicate Init(s: Server) {
    && s.mode != Waiting && s.selected == -1 && s.child.None? && s.buffer == "" && s.log.buf == "" && Sized(s.log)
    && s.base == s.log.file && s.fed == NOTHING && s.forked == NOTHING
  }

  ghost predicate Run(states: seq<Server>, events: seq<Event>) {
    && |states| == |events| + 1 && Init(states[0])
    && forall i :: 0 <= i < |events| ==> Enabled(states[i], events[i]) && states[i + 1] == Next(states[i], events[i])
  }

  lemma InitKeeps(s: Server)
    requires Init(s)
    ensures Inv(s)
  {
    assert Tracks(NOTHING, -1);
    hide Tracks;
    assert s.log.file + "" == s.log.file;
  }

  lemma {:induction false} RunKeeps(states: seq<Server>, events: seq<Event>, i: nat)
    requires Run(states, events) && i < |states|
    ensures Inv(states[i])
  {
    if i == 0 {
      InitKeeps(states[0]);
    } else {
      RunKeeps(states, events, i - 1);
      StepIs(states, events, i - 1);
      hide Inv, Enabled, Next, Run;
      NextKeeps(states[i - 1], events[i - 1]);
    }
  }

  /** A rewrite that succeeds leaves the snapshot followed by exactly what was fed since the fork, however the steps
      of parent, child and pipes interleave; nothing of it is left to be written. */
  lemma RewriteIsExact(states: seq<Server>, events: seq<Event>, i: nat)
    requires Run(states, events) && i < |events| && events[i] == Done(true)
    requires states[i].child.value.phase == Exited(0)
    ensures var s, t := states[i], states[i + 1];
            && t.log.file == s.child.value.snapshot + s.forked.bytes && t.log.buf == "" && t.child.None?
            && (s.mode != Off ==> t.mode == On && t.log.size == |t.log.file|)
  {
    RunKeeps(states, events, i);
    StepIs(states, events, i);
    hide Inv, Enabled, DoneStep, Run;
    DoneExact(states[i]);
  }

  /** A rewrite that fails, in the child or in the parent, or is killed, leaves the file and what is to be written. */
  lemma FailedRewriteIsHarmless(states: seq<Server>, events: seq<Event>, i: nat)
    requires Run(states, events) && i < |events|
    requires events[i] == Kill || (events[i].Done? && !(events[i].ok && InPhase(states[i], Exited(0))))
    ensures var s, t := states[i], states[i + 1];
            t == s.(child := None, buffer := "")
  {
    StepIs(states, events, i);
    hide Run;
  }

  lemma StepIs(states: seq<Server>, events: seq<Event>, i: nat)
    requires Run(states, events) && i < |events|
    ensures i + 1 < |states| && Enabled(states[i], events[i]) && states[i + 1] == Next(states[i], events[i])
  {
    hide Init, Enabled, Next;
  }

  /** The end of a child that has exited with success. */
  lemma DoneExact(s: Server)
    requires Inv(s) && InPhase(s, Exited(0))
    ensures var t := DoneStep(s, true);
            && t.log.file == s.child.value.snapshot + s.forked.bytes && t.log.buf == "" && t.child.None?
            && (s.mode != Off ==> t.mode == On && t.log.size == |t.log.file|)
  {
    var c := s.child.value;
    hide Tracks;
    assert (c.snapshot + c.diff) + s.buffer == c.snapshot + (c.diff + "" + s.buffer);
  }

  /** At any moment the file holds the last snapshot and a prefix of what was fed since it was taken; the rest waits
      in the buffer. */
  lemma LogIsHistory(states: seq<Server>, events: seq<Event>, i: nat)
    requires Run(states, events) && i < |states| && states[i].mode == On
    ensures var s := states[i];
            && s.log.file + s.log.buf == s.base + PrintAll(s.fed.records) && s.log.size == |s.log.file|
            && forall db: int :: Targets(s.fed.records, db) == s.fed.commands
  {
    RunKeeps(states, events, i);
  }

  /** A flush that delivers all of the buffer leaves the whole history in the file. */
  lemma FlushedIsHistory(states: seq<Server>, events: seq<Event>, i: nat)
    requires Run(states, events) && i < |events| && states[i].mode == On
    requires events[i].Flush? && !events[i].postponed && events[i].d == |states[i].log.buf|
    ensures var t := states[i + 1];
            && t.log.file == t.base + PrintAll(t.fed.records) && t.log.buf == "" && t.log.size == |t.log.file|
            && t.base == states[i].base && t.fed == states[i].fed
            && (states[i].log.buf != "" ==> t.log.writeOk)
  {
    var s, t := states[i], states[i + 1];
    StepIs(states, events, i);
    assert Inv(s) by { RunKeeps(states, events, i); }
    assert Sized(s.log);
    FlushWrites(s.log, events[i].d, events[i].truncates);
    assert t.mode == On && t.base == s.base && t.fed == s.fed;
    hide Run, Next, Enabled, Flushed, Inv;
    LogIsHistory(states, events, i + 1);
    assert t.log.file + "" == t.log.file;
  }

  /** So does switching the file off, when the last flush delivers all. */
  lemma SwitchedOffIsHistory(states: seq<Server>, events: seq<Event>, i: nat)
    requires Run(states, events) && i < |events| && states[i].mode == On
    requires events[i].SwitchOff? && events[i].d == |states[i].log.buf|
    ensures var s, t := states[i], states[i + 1];
            && t.log.file == s.base + PrintAll(s.fed.records) && t.log.buf == "" && t.mode == Off && t.child.None?
  {
    var s, t := states[i], states[i + 1];
    StepIs(states, events, i);
    assert Inv(s) by { RunKeeps(states, events, i); }
    assert Sized(s.log);
    FlushWrites(s.log, events[i].d, events[i].truncates);
    LogIsHistory(states, events, i);
    hide Run, Enabled, Flushed, Inv, PrintAll;
    assert s.log.file + s.log.buf == t.log.file by { assert s.log.file + "" == s.log.file; }
  }

  lemma {:induction false} TargetsPrefix(log: seq<Command>, m: nat, db: int)
    requires m <= |log|
    ensures Targets(log[..m], db) <= Targets(log, db)
    decreases |log|
  {
    if m == |log| {
      assert log[..m] == log;
    } else {
      var init := log[..|log| - 1];
      TargetsPrefix(init, m, db);
      assert init[..m] == log[..m];
    }
  }

  lemma {:induction false} TargetsConcat(a: seq<Command>, b: seq<Command>, db: int)
    ensures Targets(a + b, db) == Targets(a, db) + Targets(b, Final(a, db))
    ensures Final(a + b, db) == Final(b, Final(a, db))
    decreases |b|
  {
    if b == [] {
      assert a + b == a;
    } else {
      var init, last := b[..|b| - 1], b[|b| - 1];
      TargetsConcat(a, init, db);
      assert (a + b)[..|a + b| - 1] == a + init;
      hide IsSelect;
      if !IsSelect(last) {
        assert Targets(a, db) + (Targets(init, Final(a, db)) + [(Final(init, Final(a, db)), last)])
            == Targets(a, db) + Targets(init, Final(a, db)) + [(Final(init, Final(a, db)), last)];
      }
    }
  }

  /** The commands without MULTI and EXEC. */
  ghost function Effects(t: Targeted): Targeted {
    if t == [] then []
    else
      var init, last := t[..|t| - 1], t[|t| - 1];
      if IsMulti(last.1) || IsExec(last.1) then Effects(init) else Effects(init) + [last]
  }

  lemma BracketIsNoSelect(c: Command)
    requires IsMulti(c) || IsExec(c)
    ensures !IsSelect(c)
  {}

  /** Brackets select no database: dropping them before or after the replay is the same. */
  lemma {:induction false} EffectsOf(log: seq<Command>, db: int)
    ensures Targets(Unbracketed(log), db) == Effects(Targets(log, db)) && Final(Unbracketed(log), db) == Final(log, db)
    decreases |log|
  {
    if log != [] {
      var init, last := log[..|log| - 1], log[|log| - 1];
      EffectsOf(init, db);
      assert init + [last] == log;
      OneMore(init, last, db);
      if IsMulti(last) || IsExec(last) {
        BracketIsNoSelect(last);
      } else {
        OneMore(Unbracketed(init), last, db);
      }
      hide Targets, Final, IsSelect, IsMulti, IsExec, Selects;
      var t, x := Targets(init, db), (Final(init, db), last);
      if !IsSelect(last) { assert (t + [x])[..|t|] == t; }
    }
  }

  /** Of the first `m` commands of `log`, loading ran the first `n`, brackets aside, each in its own database. They end
      outside a transaction, and no longer part of the `m` does. */
  ghost predicate Replays(o: Outcome, log: seq<Command>, m: nat, n: nat)
    requires m <= |log|
  {
    && o.Loaded? && n <= m && Targets(o.player.done, 0) == Effects(Targets(log[..n], 0))
    && !PlayAll(START, log[..n]).multi && forall i :: n < i <= m ==> PlayAll(START, log[..i]).multi
  }

  /** What is loaded from the first `k` bytes of a log behind a preamble, as commands with their databases. */
  lemma LoadedEffects(preamble: string, log: seq<Command>, k: nat, config: Config) returns (n: nat)
    requires Loadable(log, config) && Bracketed(log) && config.truncated && config.truncates
    requires k <= |PrintAll(log)| && (preamble != "" || k > 0)
    ensures n <= |log|
    ensures var o, m := Load(preamble + PrintAll(log)[..k], |preamble|, config), Complete(log, k);
            && Replays(o, log, m, n)
            && (k == |PrintAll(log)| && !PlayAll(START, log).multi ==> n == |log| && o.size == |preamble| + k)
  {
    var m := Complete(log, k);
    Recovery(preamble, log, k, config);
    hide Load, Complete, PlayAll, LastMulti, IsMulti, IsExec, Bracketed, Loadable;
    n := WholeTransactions(log, m);
    EffectsOf(log[..n], 0);
    if k == |PrintAll(log)| && !PlayAll(START, log).multi {
      CompleteAll(log);
      assert log[..m] == log;
    }
  }

  lemma Whole<T>(s: seq<T>, t: seq<T>, k: nat)
    requires k <= |s|
    ensures (s + t)[..k] == s[..k]
  {}

  lemma FileIs(file: string, buf: string, base: string, log: string, k: nat)
    requires file + buf == base + log && |base| <= k <= |file|
    ensures k - |base| <= |log| && file[..k] == base + log[..k - |base|]
    ensures k == |file| && buf == "" ==> k - |base| == |log|
  {
    Whole(file, buf, k);
    assert (base + log)[..k] == base + log[..k - |base|];
  }

  lemma FileOfLog(file: string, buf: string, preamble: string, snapshot: seq<Command>, records: seq<Command>, k: nat)
    requires file + buf == preamble + PrintAll(snapshot) + PrintAll(records) && |preamble| <= k <= |file|
    ensures var text, rest := PrintAll(snapshot + records), k - |preamble|;
            && rest <= |text| && file[..k] == preamble + text[..rest]
            && (k == |file| && buf == "" ==> rest == |text|)
  {
    PrintConcat(snapshot, records);
    hide PrintAll;
    assert preamble + PrintAll(snapshot) + PrintAll(records) == preamble + (PrintAll(snapshot) + PrintAll(records));
    FileIs(file, buf, preamble, PrintAll(snapshot + records), k);
  }

  lemma TargetsOfLog(snapshot: seq<Command>, records: seq<Command>, n: nat, commands: Targeted)
    requires n <= |snapshot + records| && forall db: int :: Targets(records, db) == commands
    ensures Targets(snapshot + records, 0) == Targets(snapshot, 0) + commands
    ensures Targets((snapshot + records)[..n], 0) <= Targets(snapshot, 0) + commands
  {
    hide Targets, Final;
    TargetsConcat(snapshot, records, 0);
    TargetsPrefix(snapshot + records, n, 0);
  }

  /** A crash at any moment of any run. The last snapshot is a preamble, which may be empty, and the commands of
      `snapshot`. With the preamble and any number of further bytes of the file left, loading runs these commands and
      those fed since the snapshot was taken, in order and each in its own database, up to the last complete one that
      stands outside a transaction. Transactions are run whole or not. */
  lemma CrashRecovery(states: seq<Server>, events: seq<Event>, i: nat, preamble: string, snapshot: seq<Command>, k: nat,
                      config: Config)
    returns (n: nat)
    requires Run(states, events) && i < |states| && states[i].mode == On
    requires states[i].base == preamble + PrintAll(snapshot)
    requires Loadable(snapshot + states[i].fed.records, config) && Bracketed(snapshot + states[i].fed.records)
    requires config.truncated && config.truncates && 0 < k && |preamble| <= k <= |states[i].log.file|
    ensures n <= |snapshot + states[i].fed.records|
    ensures var s := states[i];
            var log := snapshot + s.fed.records;
            var o, m := Load(s.log.file[..k], |preamble|, config), Complete(log, k - |preamble|);
            && Replays(o, log, m, n) && Targets(log[..n], 0) <= Targets(snapshot, 0) + s.fed.commands
            && (k == |s.log.file| && s.log.buf == "" && !PlayAll(START, log).multi ==>
                  n == |log| && Targets(log, 0) == Targets(snapshot, 0) + s.fed.commands && o.size == k)
  {
    hide *;
    var s := states[i];
    LogIsHistory(states, events, i);
    FileOfLog(s.log.file, s.log.buf, preamble, snapshot, s.fed.records, k);
    n := LoadedEffects(preamble, snapshot + s.fed.records, k - |preamble|, config);
    TargetsOfLog(snapshot, s.fed.records, n, s.fed.commands);
  }
}
