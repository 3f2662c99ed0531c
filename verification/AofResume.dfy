/** Logging on after a recovery: what the next load runs of the recovered file and of what was logged behind it. */
module AofResume {
  import opened AofFormat
  import opened AofLoad

  lemma LoadWhole(cs: seq<Command>, config: Config)
    requires Loadable(cs, config) && config.truncated && config.truncates
    ensures var o := Load(PrintAll(cs), 0, config); (o.Loaded? || o.Empty?) && Ran(o) == PlayAll(START, cs).done
  {
    hide Print, IsMulti, Play, LoadFrom;
    var log := PrintAll(cs);
    assert cs[..|cs|] == cs && log[..|log|] == log && "" + log == log;
    if cs != [] {
      CompleteAll(cs);
      Recovery("", cs, |log|, config);
    }
  }

  lemma LoadableTogether(cs: seq<Command>, n: nat, more: seq<Command>, config: Config)
    requires Loadable(cs, config) && Loadable(more, config) && n <= |cs|
    ensures Loadable(cs[..n] + more, config)
  {}

  /** The position of the first EXEC, or the length if there is none. */
  ghost function FirstExec(cs: seq<Command>): (j: nat)
    ensures j <= |cs| && (j < |cs| ==> IsExec(cs[j])) && forall i :: 0 <= i < j ==> !IsExec(cs[i])
  {
    if cs == [] || IsExec(cs[0]) then 0 else 1 + FirstExec(cs[1..])
  }

  /** The commands queued by the transaction that a recovery leaves open. */
  ghost function Abandoned(cs: seq<Command>, k: nat): seq<Command> {
    if CutInTransaction(cs, k) then PlayAll(START, cs[..Complete(cs, k)]).queue else []
  }

  /** What later commands give behind a transaction that was left open with `queue`: its EXEC is their first one. */
  ghost function Resumed(queue: seq<Command>, more: seq<Command>): seq<Command> {
    var j := FirstExec(more);
    if j == |more| then [] else queue + more[..j] + PlayAll(START, more[j + 1..]).done
  }

  /** Without an EXEC everything is queued. */
  lemma {:induction false} Queued(p: Player, cs: seq<Command>)
    requires p.multi && FirstExec(cs) == |cs|
    ensures PlayAll(p, cs) == p.(queue := p.queue + cs)
    decreases |cs|
  {
    hide IsMulti, IsExec;
    if cs == [] {
      assert p.queue + cs == p.queue;
    } else {
      Queued(Play(p, cs[0]), cs[1..]);
      assert p.queue + [cs[0]] + cs[1..] == p.queue + cs;
    }
  }

  /** What was run before stays in front. */
  lemma {:induction false} DoneBefore(done: seq<Command>, p: Player, cs: seq<Command>)
    ensures PlayAll(p.(done := done + p.done), cs)
         == PlayAll(p, cs).(done := done + PlayAll(p, cs).done)
    decreases |cs|
  {
    hide IsMulti, IsExec;
    if cs != [] {
      var q := p.(done := done + p.done);
      assert done + p.done + p.queue == done + (p.done + p.queue);
      assert done + p.done + [cs[0]] == done + (p.done + [cs[0]]);
      assert Play(q, cs[0]) == Play(p, cs[0]).(done := done + Play(p, cs[0]).done);
      DoneBefore(done, Play(p, cs[0]), cs[1..]);
    }
  }

  lemma FirstExecPrefix(cs: seq<Command>)
    ensures var j := FirstExec(cs); FirstExec(cs[..j]) == j
  {}

  lemma ResumedIs(p: Player, more: seq<Command>)
    requires p.multi
    ensures PlayAll(p, more).done == p.done + Resumed(p.queue, more)
  {
    hide Play, IsExec, IsMulti;
    var j := FirstExec(more);
    FirstExecPrefix(more);
    Queued(p, more[..j]);
    if j == |more| {
      assert more[..j] == more && p.done + [] == p.done;
    } else {
      var q := p.(queue := p.queue + more[..j]);
      var tail := more[j + 1..];
      assert more == more[..j] + ([more[j]] + tail);
      PlayConcat(p, more[..j], [more[j]] + tail);
      assert ([more[j]] + tail)[1..] == tail;
      Executes(q, more[j]);
      var done := q.done + q.queue;
      DoneBefore(done, START, tail);
      assert done + [] == done;
      assert done + PlayAll(START, tail).done == p.done + (p.queue + more[..j] + PlayAll(START, tail).done);
    }
  }

  lemma Executes(p: Player, c: Command)
    requires p.multi && IsExec(c)
    ensures Play(p, c) == Player(p.done + p.queue, [], false)
  {}

  /** Later commands behind a whole log give what they give alone. */
  lemma ContinuesAlone(p: Player, more: seq<Command>)
    requires !p.multi && p.queue == []
    ensures PlayAll(p, more).done == p.done + PlayAll(START, more).done
  {
    DoneBefore(p.done, START, more);
    assert p.done + START.done == p.done;
  }

  /** What the next load runs of whatever is logged after a recovery. Behind a recovery that left a transaction open,
      the first EXEC logged later also runs the abandoned half transaction, and with it everything logged so far;
      before such an EXEC nothing is run. */
  lemma LogContinues(cs: seq<Command>, k: nat, more: seq<Command>, config: Config)
    requires Loadable(cs, config) && Loadable(more, config) && config.truncated && config.truncates
    requires k <= |PrintAll(cs)| && NoNesting(cs)
    ensures var log := PrintAll(cs)[..k];
            Ran(Load(Recover(log, config) + PrintAll(more), 0, config))
            == Ran(Load(log, 0, config))
               + (if CutInTransaction(cs, k) then Resumed(Abandoned(cs, k), more) else PlayAll(START, more).done)
  {
    hide *;
    var n := Kept(cs, k);
    RecoveredFile(cs, k, config);
    var kept, p := cs[..n], PlayAll(START, cs[..n]);
    LoadableTogether(cs, n, more, config);
    LoadWhole(kept + more, config);
    PlayConcat(START, kept, more);
    PrintConcat(kept, more);
    StartQueue(kept);
    if p.multi {
      AbandonedIs(cs, k);
      ResumedIs(p, more);
    } else {
      ContinuesAlone(p, more);
    }
  }

  lemma AbandonedIs(cs: seq<Command>, k: nat)
    requires CutInTransaction(cs, k)
    ensures Kept(cs, k) == Complete(cs, k) && Abandoned(cs, k) == PlayAll(START, cs[..Kept(cs, k)]).queue
  {}

  /** EXEC is never queued. */
  lemma {:induction false} QueuePlain(p: Player, cs: seq<Command>)
    requires forall i :: 0 <= i < |p.queue| ==> !IsExec(p.queue[i])
    ensures forall i :: 0 <= i < |PlayAll(p, cs).queue| ==> !IsExec(PlayAll(p, cs).queue[i])
    decreases |cs|
  {
    hide IsMulti, IsExec;
    if cs != [] { QueuePlain(Play(p, cs[0]), cs[1..]); }
  }

  lemma AbandonedPlain(cs: seq<Command>, k: nat)
    ensures forall i :: 0 <= i < |Abandoned(cs, k)| ==> !IsExec(Abandoned(cs, k)[i])
  {
    hide IsExec, PlayAll;
    QueuePlain(START, cs[..Complete(cs, k)]);
  }

  /** Commands without EXEC: run up to the first MULTI, queued after it. */
  lemma {:induction false} WithoutExec(p: Player, cs: seq<Command>)
    requires !p.multi && p.queue == [] && FirstExec(cs) == |cs|
    ensures var r := PlayAll(p, cs);
            if r.multi then |r.done| + |r.queue| == |p.done| + |cs| - 1 else r == p.(done := p.done + cs)
    ensures cs != [] ==> (PlayAll(p, cs).done == p.done <==> IsMulti(cs[0]))
    decreases |cs|
  {
    hide IsMulti, IsExec;
    if cs == [] {
      assert p.done + cs == p.done;
    } else if IsMulti(cs[0]) {
      Queued(Play(p, cs[0]), cs[1..]);
    } else {
      var q := Play(p, cs[0]);
      WithoutExec(q, cs[1..]);
      assert p.done + [cs[0]] + cs[1..] == p.done + cs;
      DoneBefore(q.done, START, cs[1..]);
      assert q.done + START.done == q.done;
    }
  }

  /** With an EXEC after `cs`, which has none: either it ends a transaction, or it is run as it is. */
  lemma AloneWithExec(cs: seq<Command>, exec: Command, tail: seq<Command>)
    requires FirstExec(cs) == |cs| && IsExec(exec)
    ensures var r, x := PlayAll(START, cs + [exec] + tail).done, PlayAll(START, tail).done;
            if PlayAll(START, cs).multi then |r| == |cs| - 1 + |x| else r == cs + [exec] + x
  {
    hide IsMulti, IsExec;
    WithoutExec(START, cs);
    assert START.done + cs == cs;
    assert cs + [exec] + tail == cs + ([exec] + tail);
    PlayConcat(START, cs, [exec] + tail);
    assert ([exec] + tail)[1..] == tail;
    var p := PlayAll(START, cs);
    NotBoth(exec);
    var q := Play(p, exec);
    assert PlayAll(p, [exec] + tail) == PlayAll(q, tail);
    ContinuesAlone(q, tail);
  }

  lemma NotBoth(c: Command)
    requires IsExec(c)
    ensures !IsMulti(c)
  {}

  lemma Shifted(queue: seq<Command>, before: seq<Command>, exec: Command, x: seq<Command>)
    requires forall i :: 0 <= i < |queue| ==> queue[i] != exec
    requires forall i :: 0 <= i < |before| ==> before[i] != exec
    ensures queue + before + x != before + [exec] + x
  {
    var a, b, j := queue + before + x, before + [exec] + x, |before|;
    if |queue| == 1 {
      assert b[j] == exec;
      assert a[j] == if j == 0 then queue[0] else before[j - 1];
    } else {
      assert |a| != |b|;
    }
  }

  lemma {:induction false} ResumedWithExec(queue: seq<Command>, before: seq<Command>, exec: Command, tail: seq<Command>)
    requires forall i :: 0 <= i < |queue| ==> !IsExec(queue[i])
    requires FirstExec(before) == |before| && IsExec(exec)
    ensures queue + before + PlayAll(START, tail).done != PlayAll(START, before + [exec] + tail).done
  {
    AloneWithExec(before, exec, tail);
    var x := PlayAll(START, tail).done;
    forall i | 0 <= i < |queue| ensures queue[i] != exec {}
    forall i | 0 <= i < |before| ensures before[i] != exec {}
    hide FirstExec, IsExec, PlayAll;
    if PlayAll(START, before).multi {
      assert |queue + before + x| > |before| - 1 + |x|;
    } else {
      Shifted(queue, before, exec, x);
    }
  }

  /** The first EXEC splits what is logged later. */
  lemma Split(more: seq<Command>) returns (before: seq<Command>, exec: Command, tail: seq<Command>)
    requires FirstExec(more) < |more|
    ensures more == before + [exec] + tail && FirstExec(before) == |before| && IsExec(exec)
    ensures forall queue :: Resumed(queue, more) == queue + before + PlayAll(START, tail).done
  {
    var j := FirstExec(more);
    before, exec, tail := more[..j], more[j], more[j + 1..];
    FirstExecPrefix(more);
  }

  lemma ResumedNone(queue: seq<Command>, more: seq<Command>)
    requires FirstExec(more) == |more|
    ensures Resumed(queue, more) == []
  {}

  /** A resumed transaction never gives what the later commands give alone, unless neither gives anything. */
  lemma ResumedDiffers(queue: seq<Command>, more: seq<Command>)
    requires forall i :: 0 <= i < |queue| ==> !IsExec(queue[i])
    ensures Resumed(queue, more) == PlayAll(START, more).done
            <==> FirstExec(more) == |more| && (more == [] || IsMulti(more[0]))
  {
    hide *;
    if FirstExec(more) < |more| {
      var before, exec, tail := Split(more);
      ResumedWithExec(queue, before, exec, tail);
    } else {
      ResumedNone(queue, more);
      AloneWithoutExec(more);
    }
  }

  lemma AloneWithoutExec(more: seq<Command>)
    requires FirstExec(more) == |more|
    ensures PlayAll(START, more).done == [] <==> more == [] || IsMulti(more[0])
  {
    if more != [] { WithoutExec(START, more); }
  }

  /** The later log means what it says exactly when no transaction was left open, or the later log has no EXEC and
      runs nothing of its own: it is empty or begins with MULTI. */
  lemma LaterLogIntact(cs: seq<Command>, k: nat, more: seq<Command>, config: Config)
    requires Loadable(cs, config) && Loadable(more, config) && config.truncated && config.truncates
    requires k <= |PrintAll(cs)| && NoNesting(cs)
    ensures var log := PrintAll(cs)[..k];
            Ran(Load(Recover(log, config) + PrintAll(more), 0, config))
            == Ran(Load(log, 0, config)) + PlayAll(START, more).done
            <==> !CutInTransaction(cs, k) || (FirstExec(more) == |more| && (more == [] || IsMulti(more[0])))
  {
    hide *;
    LogContinues(cs, k, more, config);
    var log := PrintAll(cs)[..k];
    var ran, alone := Ran(Load(log, 0, config)), PlayAll(START, more).done;
    if CutInTransaction(cs, k) {
      var resumed := Resumed(Abandoned(cs, k), more);
      AbandonedPlain(cs, k);
      ResumedDiffers(Abandoned(cs, k), more);
      SameBehind(ran, resumed, alone);
    }
  }

  lemma SameBehind(a: seq<Command>, b: seq<Command>, c: seq<Command>)
    ensures a + b == a + c <==> b == c
  {
    if a + b == a + c {
      assert b == (a + b)[|a|..] && c == (a + c)[|a|..];
    }
  }

  /** The half transaction is run by the next load exactly when an EXEC is logged after the recovery. */
  lemma HalfTransactionRuns(cs: seq<Command>, k: nat, more: seq<Command>, config: Config)
    requires Loadable(cs, config) && Loadable(more, config) && config.truncated && config.truncates
    requires k <= |PrintAll(cs)| && NoNesting(cs) && Abandoned(cs, k) != []
    ensures var log := PrintAll(cs)[..k];
            Ran(Load(log, 0, config)) + Abandoned(cs, k) <= Ran(Load(Recover(log, config) + PrintAll(more), 0, config))
            <==> FirstExec(more) < |more|
  {
    hide *;
    LogContinues(cs, k, more, config);
    AbandonedCut(cs, k);
    ResumedStarts(Ran(Load(PrintAll(cs)[..k], 0, config)), Abandoned(cs, k), more);
  }

  lemma AbandonedCut(cs: seq<Command>, k: nat)
    requires Abandoned(cs, k) != []
    ensures CutInTransaction(cs, k)
  {}

  lemma ResumedStarts(ran: seq<Command>, queue: seq<Command>, more: seq<Command>)
    requires queue != []
    ensures ran + queue <= ran + Resumed(queue, more) <==> FirstExec(more) < |more|
  {
    hide *;
    if FirstExec(more) < |more| {
      var before, exec, tail := Split(more);
      InFront(ran, queue, before, PlayAll(START, tail).done);
    } else {
      ResumedNone(queue, more);
    }
  }

  lemma InFront(a: seq<Command>, b: seq<Command>, c: seq<Command>, d: seq<Command>)
    ensures a + b <= a + (b + c + d)
  {
    assert a + (b + c + d) == a + b + (c + d);
  }

  /** It does happen: MULTI, SET, EXEC breaks off after the first byte of EXEC. */
  lemma HalfTransaction()
    ensures var cs, k := [["multi"], ["set"], ["exec"]], |Print(["multi"])| + |Print(["set"])| + 1;
            && CutInTransaction(cs, k) && Abandoned(cs, k) == [["set"]]
            && Resumed(Abandoned(cs, k), [["multi"], ["get"], ["exec"]]) == [["set"], ["multi"], ["get"]]
  {
    var cs, more := [["multi"], ["set"], ["exec"]], [["multi"], ["get"], ["exec"]];
    var k := |Print(["multi"])| + |Print(["set"])| + 1;
    Tokens();
    hide Print, Named, IsMulti, IsExec;
    assert cs[1..] == [["set"], ["exec"]] && cs[1..][1..] == [["exec"]];
    assert Complete([["exec"]], 1) == 0;
    assert Complete(cs[1..], |Print(["set"])| + 1) == 1;
    assert Complete(cs, k) == 2;
    var kept := [["multi"], ["set"]];
    assert cs[..2] == kept && kept[1..] == [["set"]];
    assert PrintAll(kept[1..]) == Print(["set"]) + PrintAll([]);
    assert PrintAll(kept) == Print(["multi"]) + PrintAll(kept[1..]);
    assert PlayAll(Play(START, ["multi"]), [["set"]]) == Player([], [["set"]], true);
    assert PlayAll(START, kept) == Player([], [["set"]], true);
    assert FirstExec(more) == 2 by {
      assert more[1..] == [["get"], ["exec"]] && more[1..][1..] == [["exec"]];
      assert FirstExec([["exec"]]) == 0 && FirstExec(more[1..]) == 1;
    }
    assert more[3..] == [] && more[..2] == [["multi"], ["get"]];
  }

  lemma Tokens()
    ensures IsMulti(["multi"]) && !IsExec(["multi"]) && IsExec(["exec"])
    ensures !IsMulti(["set"]) && !IsExec(["set"]) && !IsExec(["get"])
    ensures |Print(["exec"])| > 1
  {
    assert !IsExec(["multi"]) by { assert |"multi"| != |"exec"|; }
    assert |Print(["exec"])| > 1;
  }
}
