/** Loading the append only file: loadAppendOnlyFile, and what it recovers from every prefix of a log. */
module AofLoad {
  import opened Common
  import opened AofFormat

  // ------------------------------------------------------------------
  // Running the commands
  // ------------------------------------------------------------------

  predicate Named(c: Command, name: string) {
    c != [] && |c[0]| == |name| && forall i :: 0 <= i < |name| ==> Lower(c[0][i]) == name[i]
  }

  predicate IsMulti(c: Command) { Named(c, "multi") }

  predicate IsExec(c: Command) { Named(c, "exec") }

  /** The fake client: the commands it has run, and the transaction it has queued. */
  datatype Player = Player(done: seq<Command>, queue: seq<Command>, multi: bool)

  const START: Player := Player([], [], false)

  /** A command inside a transaction waits for EXEC; a stray EXEC is run like any other command. */
  function Play(p: Player, c: Command): Player {
    if p.multi && !IsExec(c) then p.(queue := p.queue + [c])
    else if IsMulti(c) then p.(multi := true)
    else if p.multi then Player(p.done + p.queue, [], false)
    else p.(done := p.done + [c])
  }

  function PlayAll(p: Player, cs: seq<Command>): Player
    decreases |cs|
  {
    if cs == [] then p else PlayAll(Play(p, cs[0]), cs[1..])
  }

  // ------------------------------------------------------------------
  // The loader
  // ------------------------------------------------------------------

  /** aof-load-truncated, whether truncate(2) would succeed, the command table, and the most that can be allocated. */
  datatype Config = Config(truncated: bool, truncates: bool, known: string -> bool, memory: nat)

  /** How loading ends. `size` is the length of the file after it. */
  datatype Outcome =
    | Empty
    | Loaded(player: Player, size: nat)
    | FormatError
    | UnknownCommand(name: string)
    | UnexpectedEnd
    | Unrecoverable
    | OutOfMemory

  /** Where the loader is: the rest of the file, the client, valid_up_to and valid_before_multi. */
  datatype Loading = Loading(rest: string, player: Player, validUpTo: nat, beforeMulti: nat)

  /** The label uxeof. */
  function EndAt(p: Player, offset: nat, config: Config): Outcome {
    if config.truncated && config.truncates then Loaded(p, offset) else UnexpectedEnd
  }

  /** A command was read and leaves `rest`. */
  function Advance(size: nat, l: Loading, c: Command, rest: string, config: Config): Loading
    requires |rest| <= size
  {
    Loading(rest, Play(l.player, c),
            if config.truncated then size - |rest| else l.validUpTo,
            if IsMulti(c) then l.validUpTo else l.beforeMulti)
  }

  /** The rest of the loading of a file of `size` bytes. */
  function LoadFrom(size: nat, l: Loading, config: Config): Outcome
    requires |l.rest| <= size
    decreases |l.rest|
  {
    if l.rest == [] then
      if l.player.multi then EndAt(l.player, l.beforeMulti, config) else Loaded(l.player, size)
    else match ReadCommand(l.rest, config.memory)
      case Malformed => FormatError
      case NoMemory => OutOfMemory
      case Short(eof) => if eof then EndAt(l.player, l.validUpTo, config) else Unrecoverable
      case Got(c, rest) =>
        if !config.known(c[0]) then UnknownCommand(c[0])
        else LoadFrom(size, Advance(size, l, c, rest, config), config)
  }

  /** Loading of a file whose first `start` bytes are an RDB preamble. */
  function Load(file: string, start: nat, config: Config): Outcome
    requires start <= |file|
  {
    if file == [] then Empty else LoadFrom(|file|, Loading(file[start..], START, 0, 0), config)
  }

  /** The loop that reads the arguments of one command. */
  method ReadArgsAt(t: string, argc: nat, memory: nat) returns (r: Read<seq<string>>)
    ensures r == ReadArgs(t, argc, memory)
  {
    hide ReadArg;
    var args: seq<string>, rest := [], t;
    AfterNone(ReadArgs(t, argc, memory));
    for j := 0 to argc
      invariant ReadArgs(t, argc, memory) == After(args, ReadArgs(rest, argc - j, memory))
    {
      var arg := ReadArg(rest, memory);
      if arg.Short? { return Short(arg.eof); }
      if arg.Malformed? { return Malformed; }
      if arg.NoMemory? { return NoMemory; }
      AfterOne(args, arg.value, ReadArgs(arg.rest, argc - j - 1, memory));
      args := args + [arg.value];
      rest := arg.rest;
    }
    assert args + [] == args;
    return Got(args, rest);
  }

  /** One command. */
  method ReadCommandAt(t: string, memory: nat) returns (r: Read<Command>)
    requires t != []
    ensures r == ReadCommand(t, memory)
  {
    var (line, rest, eof) := Line(t, LINE_SIZE - 1);
    if line[0] != '*' { return Malformed; }
    if |line| == 1 || line[1] == '\0' { return Short(eof); }
    if Atoi(line[1..]) < 1 { return Malformed; }
    if POINTER_SIZE * Atoi(line[1..]) > memory { return NoMemory; }
    r := ReadArgsAt(rest, Atoi(line[1..]), memory);
  }

  /** What reading gives once `args` have been read and `r` is read next. */
  ghost function After(args: seq<string>, r: Read<seq<string>>): Read<seq<string>> {
    if r.Got? then Got(args + r.value, r.rest) else r
  }

  lemma AfterNone(r: Read<seq<string>>)
    ensures After([], r) == r
  {
    if r.Got? { assert [] + r.value == r.value; }
  }

  lemma AfterOne(args: seq<string>, a: string, r: Read<seq<string>>)
    ensures After(args, After([a], r)) == After(args + [a], r)
  {
    if r.Got? { assert args + ([a] + r.value) == args + [a] + r.value; }
  }

  /** loadAppendOnlyFile, from the end of the preamble on. */
  method LoadFile(file: string, start: nat, config: Config) returns (o: Outcome)
    requires start <= |file|
    ensures o == Load(file, start, config)
  {
    if file == [] { return Empty; }
    var rest, player := file[start..], START;
    var validUpTo: nat, beforeMulti: nat := 0, 0;
    assert LoadFrom(|file|, Loading(rest, player, 0, 0), config) == Load(file, start, config);
    ghost var goal := Load(file, start, config);
    hide *;
    while rest != []
      invariant |rest| <= |file|
      invariant LoadFrom(|file|, Loading(rest, player, validUpTo, beforeMulti), config) == goal
      decreases |rest|
    {
      LoadStep(|file|, Loading(rest, player, validUpTo, beforeMulti), config);
      var r := ReadCommandAt(rest, config.memory);
      if r.Malformed? { return FormatError; }
      if r.NoMemory? { return OutOfMemory; }
      if r.Short? {
        if !r.eof { return Unrecoverable; }
        return EndAt(player, validUpTo, config);
      }
      var c := r.value;
      if !config.known(c[0]) { return UnknownCommand(c[0]); }
      ghost var next := Advance(|file|, Loading(rest, player, validUpTo, beforeMulti), c, r.rest, config);
      if IsMulti(c) { beforeMulti := validUpTo; }
      player := Play(player, c);
      rest := r.rest;
      if config.truncated { validUpTo := |file| - |rest|; }
      assert Loading(rest, player, validUpTo, beforeMulti) == next;
    }
    LoadStep(|file|, Loading(rest, player, validUpTo, beforeMulti), config);
    if player.multi { return EndAt(player, beforeMulti, config); }
    return Loaded(player, |file|);
  }

  lemma LoadStep(size: nat, l: Loading, config: Config)
    requires |l.rest| <= size
    ensures l.rest == [] && l.player.multi ==> LoadFrom(size, l, config) == EndAt(l.player, l.beforeMulti, config)
    ensures l.rest == [] && !l.player.multi ==> LoadFrom(size, l, config) == Loaded(l.player, size)
    ensures l.rest != [] ==>
              var r := ReadCommand(l.rest, config.memory);
              && (r.Malformed? ==> LoadFrom(size, l, config) == FormatError)
              && (r.NoMemory? ==> LoadFrom(size, l, config) == OutOfMemory)
              && (r.Short? ==> LoadFrom(size, l, config)
                               == if r.eof then EndAt(l.player, l.validUpTo, config) else Unrecoverable)
              && (r.Got? ==> LoadFrom(size, l, config)
                             == if !config.known(r.value[0]) then UnknownCommand(r.value[0])
                                else LoadFrom(size, Advance(size, l, r.value, r.rest, config), config))
  {
    hide EndAt, ReadCommand, Play, IsMulti;
  }

  // ------------------------------------------------------------------
  // What is recovered from a prefix of a log
  // ------------------------------------------------------------------

  /** How many of the commands are complete in the first `k` bytes of their log. */
  ghost function Complete(cs: seq<Command>, k: nat): (m: nat)
    ensures m <= |cs|
  {
    if cs == [] || k < |Print(cs[0])| then 0 else 1 + Complete(cs[1..], k - |Print(cs[0])|)
  }

  /** That count is the one that fits: the next command would not. */
  lemma {:induction false} CompleteFits(cs: seq<Command>, k: nat)
    ensures var m := Complete(cs, k);
            |PrintAll(cs[..m])| <= k && (m < |cs| ==> k < |PrintAll(cs[..m + 1])|)
  {
    hide Print;
    if cs != [] {
      assert cs[..1] == [cs[0]] && PrintAll([cs[0]]) == Print(cs[0]) + PrintAll([]);
      if |Print(cs[0])| <= k {
        var rest, m := cs[1..], Complete(cs, k);
        CompleteFits(rest, k - |Print(cs[0])|);
        assert cs[..m][0] == cs[0] && cs[..m][1..] == rest[..m - 1];
        if m < |cs| { assert cs[..m + 1][0] == cs[0] && cs[..m + 1][1..] == rest[..m]; }
      }
    }
  }

  /** All commands are known, of a size the program can print, and can be held in memory. */
  ghost predicate Loadable(cs: seq<Command>, config: Config) {
    forall i :: 0 <= i < |cs| ==> Fits(cs[i]) && config.known(cs[i][0]) && Held(cs[i], config.memory)
  }

  /** valid_before_multi after `cs`, which start at offset `at`. */
  ghost function BeforeMulti(cs: seq<Command>, at: nat, validUpTo: nat, before: nat): nat
    decreases |cs|
  {
    if cs == [] then before
    else
      var next := at + |Print(cs[0])|;
      BeforeMulti(cs[1..], next, next, if IsMulti(cs[0]) then validUpTo else before)
  }

  /** What loading the first `k` bytes of a log gives, from a loader that is at offset `at`. */
  ghost function Recovered(cs: seq<Command>, k: nat, l: Loading, at: nat): Outcome {
    var m := Complete(cs, k);
    var kept := cs[..m];
    var p := PlayAll(l.player, kept);
    if k > |PrintAll(kept)| then Loaded(p, if m == 0 then l.validUpTo else at + |PrintAll(kept)|)
    else if p.multi then Loaded(p, BeforeMulti(kept, at, l.validUpTo, l.beforeMulti))
    else Loaded(p, at + k)
  }

  lemma RecoveredNext(cs: seq<Command>, k: nat, l: Loading, l': Loading, at: nat)
    requires cs != [] && |Print(cs[0])| <= k
    requires l'.player == Play(l.player, cs[0]) && l'.validUpTo == at + |Print(cs[0])|
    requires l'.beforeMulti == if IsMulti(cs[0]) then l.validUpTo else l.beforeMulti
    ensures Recovered(cs, k, l, at) == Recovered(cs[1..], k - |Print(cs[0])|, l', at + |Print(cs[0])|)
  {
    hide Print, IsMulti, Play;
    var m := Complete(cs, k);
    assert cs[..m][0] == cs[0] && cs[..m][1..] == cs[1..][..m - 1];
    assert |PrintAll(cs[..m])| == |Print(cs[0])| + |PrintAll(cs[1..][..m - 1])|;
    if m == 1 { assert cs[1..][..m - 1] == []; }
  }

  lemma {:induction false} LoadPrefix(cs: seq<Command>, k: nat, l: Loading, size: nat, config: Config)
    requires Loadable(cs, config) && config.truncated && config.truncates
    requires k <= |PrintAll(cs)| && l.rest == PrintAll(cs)[..k] && k <= size
    ensures LoadFrom(size, l, config) == Recovered(cs, k, l, size - k)
    decreases |cs|
  {
    hide Print, IsMulti, Play, ReadCommand;
    if k == 0 {
      assert cs[..Complete(cs, 0)] == [];
    } else {
      var c, more := cs[0], PrintAll(cs[1..]);
      if k < |Print(c)| {
        assert l.rest == Print(c)[..k];
        CutCommand(c, k, config.memory);
        assert cs[..0] == [];
      } else {
        var rest := more[..k - |Print(c)|];
        assert l.rest == Print(c) + rest;
        ReadPrintedCommand(c, rest, config.memory);
        var l' := Advance(size, l, c, rest, config);
        LoadPrefix(cs[1..], k - |Print(c)|, l', size, config);
        RecoveredNext(cs, k, l, l', size - k);
      }
    }
  }

  /** What the loader makes of the first `k` bytes of a log, behind a preamble. */
  lemma Recovery(preamble: string, cs: seq<Command>, k: nat, config: Config)
    requires Loadable(cs, config) && config.truncated && config.truncates && k <= |PrintAll(cs)|
    requires preamble != "" || k > 0
    ensures Load(preamble + PrintAll(cs)[..k], |preamble|, config)
         == Recovered(cs, k, Loading(PrintAll(cs)[..k], START, 0, 0), |preamble|)
  {
    var file := preamble + PrintAll(cs)[..k];
    assert file[|preamble|..] == PrintAll(cs)[..k];
    LoadPrefix(cs, k, Loading(PrintAll(cs)[..k], START, 0, 0), |file|, config);
  }

  ghost predicate NoMulti(cs: seq<Command>) { forall i :: 0 <= i < |cs| ==> !IsMulti(cs[i]) }

  lemma {:induction false} PlainRun(p: Player, cs: seq<Command>)
    requires NoMulti(cs) && !p.multi
    ensures PlayAll(p, cs) == p.(done := p.done + cs)
    decreases |cs|
  {
    hide IsMulti, IsExec;
    if cs == [] {
      assert p.done + cs == p.done;
    } else {
      var p' := Play(p, cs[0]);
      PlainRun(p', cs[1..]);
      assert p.done + [cs[0]] + cs[1..] == p.done + cs;
    }
  }

  /** Every prefix of a log without MULTI: exactly the complete commands are run, with their arguments, and the
      file is cut at the end of the last one. */
  lemma LogRecovery(cs: seq<Command>, k: nat, config: Config)
    requires Loadable(cs, config) && config.truncated && config.truncates && 0 < k <= |PrintAll(cs)| && NoMulti(cs)
    ensures var m := Complete(cs, k);
            Load(PrintAll(cs)[..k], 0, config) == Loaded(Player(cs[..m], [], false), |PrintAll(cs[..m])|)
  {
    var m, log := Complete(cs, k), PrintAll(cs)[..k];
    Recovery("", cs, k, config);
    assert "" + log == log;
    PlainRun(START, cs[..m]);
    assert [] + cs[..m] == cs[..m];
    CompleteFits(cs, k);
    if m == 0 { assert cs[..m] == []; }
  }

  // ------------------------------------------------------------------
  // Transactions
  // ------------------------------------------------------------------

  lemma {:induction false} PlayConcat(p: Player, a: seq<Command>, b: seq<Command>)
    ensures PlayAll(p, a + b) == PlayAll(PlayAll(p, a), b)
    decreases |a|
  {
    hide Play;
    if a == [] {
      assert a + b == b;
    } else {
      assert (a + b)[0] == a[0] && (a + b)[1..] == a[1..] + b;
      PlayConcat(Play(p, a[0]), a[1..], b);
    }
  }

  lemma {:induction false} PrintConcat(a: seq<Command>, b: seq<Command>)
    ensures PrintAll(a + b) == PrintAll(a) + PrintAll(b)
  {
    hide Print;
    if a == [] {
      assert a + b == b;
    } else {
      assert (a + b)[0] == a[0] && (a + b)[1..] == a[1..] + b;
      PrintConcat(a[1..], b);
      assert Print(a[0]) + (PrintAll(a[1..]) + PrintAll(b)) == Print(a[0]) + PrintAll(a[1..]) + PrintAll(b);
    }
  }

  lemma {:induction false} CompleteAll(cs: seq<Command>)
    ensures Complete(cs, |PrintAll(cs)|) == |cs|
  {
    hide Print;
    if cs != [] { CompleteAll(cs[1..]); }
  }

  /** The position of the last MULTI, or -1. */
  ghost function LastMulti(cs: seq<Command>): (i: int)
    ensures -1 <= i < |cs| && (i >= 0 ==> IsMulti(cs[i])) && forall j :: i < j < |cs| ==> !IsMulti(cs[j])
  {
    if cs == [] then -1
    else
      var j := LastMulti(cs[1..]);
      if j >= 0 then j + 1 else if IsMulti(cs[0]) then 0 else -1
  }

  lemma {:induction false} BeforeMultiIs(cs: seq<Command>, at: nat, before: nat)
    ensures var i := LastMulti(cs);
            BeforeMulti(cs, at, at, before) == if i >= 0 then at + |PrintAll(cs[..i])| else before
    decreases |cs|
  {
    hide Print, IsMulti;
    if cs != [] {
      var next, i := at + |Print(cs[0])|, LastMulti(cs);
      BeforeMultiIs(cs[1..], next, if IsMulti(cs[0]) then at else before);
      if i > 0 { assert cs[..i][0] == cs[0] && cs[..i][1..] == cs[1..][..i - 1]; }
      if i == 0 { assert cs[..i] == []; }
    }
  }

  /** valid_up_to is still 0 at the first command, whatever stands before it. */
  lemma BeforeMultiFirst(cs: seq<Command>, at: nat)
    ensures var i := LastMulti(cs);
            BeforeMulti(cs, at, 0, 0) == if i > 0 then at + |PrintAll(cs[..i])| else 0
  {
    hide Print, IsMulti;
    if cs != [] {
      var i := LastMulti(cs);
      BeforeMultiIs(cs[1..], at + |Print(cs[0])|, 0);
      if i > 0 { assert cs[..i][0] == cs[0] && cs[..i][1..] == cs[1..][..i - 1]; }
    }
  }

  /** The first `k` bytes of the log end inside a command. */
  ghost predicate BreaksOff(cs: seq<Command>, k: nat) { k > |PrintAll(cs[..Complete(cs, k)])| }

  /** How many commands stay in the file behind a preamble; -1 if the file is emptied, preamble and all. It is when
      it breaks off inside the first command, and when it ends cleanly inside a transaction that the first command
      opened. */
  ghost function KeptBehind(cs: seq<Command>, k: nat): (n: int)
    ensures -1 <= n <= |cs|
  {
    var m := Complete(cs, k);
    if BreaksOff(cs, k) then (if m > 0 then m else -1)
    else if !PlayAll(START, cs[..m]).multi then m
    else if LastMulti(cs[..m]) > 0 then LastMulti(cs[..m])
    else -1
  }

  /** The cut does not spare the preamble: every prefix of every log behind one. */
  lemma PreambleSurvives(preamble: string, cs: seq<Command>, k: nat, config: Config)
    requires Loadable(cs, config) && config.truncated && config.truncates && k <= |PrintAll(cs)|
    requires preamble != ""
    ensures var m, n := Complete(cs, k), KeptBehind(cs, k);
            Load(preamble + PrintAll(cs)[..k], |preamble|, config)
            == Loaded(PlayAll(START, cs[..m]), if n >= 0 then |preamble| + |PrintAll(cs[..n])| else 0)
  {
    hide Print, IsMulti, Play, LoadFrom, Load, Complete, Loadable;
    var m := Complete(cs, k);
    Recovery(preamble, cs, k, config);
    CompleteFits(cs, k);
    BeforeMultiFirst(cs[..m], |preamble|);
    var i := LastMulti(cs[..m]);
    if i > 0 { assert cs[..m][..i] == cs[..i]; }
    if m == 0 { assert cs[..m] == []; }
  }

  /** No MULTI inside a transaction: what the server writes. */
  ghost predicate NoNesting(cs: seq<Command>) {
    forall i :: 0 <= i < |cs| && IsMulti(cs[i]) ==> !PlayAll(START, cs[..i]).multi
  }

  lemma {:induction false} OnlyQueued(p: Player, cs: seq<Command>)
    requires p.multi && NoMulti(cs) && PlayAll(p, cs).multi
    ensures PlayAll(p, cs).done == p.done
    decreases |cs|
  {
    hide IsMulti, IsExec;
    if cs != [] {
      if IsExec(cs[0]) { PlainRun(Play(p, cs[0]), cs[1..]); } else { OnlyQueued(Play(p, cs[0]), cs[1..]); }
    }
  }

  /** A log that ends inside a transaction: going back to its MULTI undoes nothing that was run. */
  lemma OpenTransaction(cs: seq<Command>)
    requires NoNesting(cs) && PlayAll(START, cs).multi
    ensures var i := LastMulti(cs);
            i >= 0 && !PlayAll(START, cs[..i]).multi && PlayAll(START, cs[..i]).done == PlayAll(START, cs).done
  {
    var i := LastMulti(cs);
    if i < 0 {
      PlainRun(START, cs);
      assert false;
    }
    var p := PlayAll(START, cs[..i]);
    assert cs == cs[..i] + ([cs[i]] + cs[i + 1..]);
    PlayConcat(START, cs[..i], [cs[i]] + cs[i + 1..]);
    assert ([cs[i]] + cs[i + 1..])[1..] == cs[i + 1..];
    OnlyQueued(Play(p, cs[i]), cs[i + 1..]);
  }

  /** Outside a transaction nothing is queued. */
  lemma {:induction false} QueueEmpty(p: Player, cs: seq<Command>)
    requires !p.multi ==> p.queue == []
    ensures !PlayAll(p, cs).multi ==> PlayAll(p, cs).queue == []
    decreases |cs|
  {
    hide IsMulti, IsExec;
    if cs != [] { QueueEmpty(Play(p, cs[0]), cs[1..]); }
  }

  lemma StartQueue(cs: seq<Command>)
    ensures !PlayAll(START, cs).multi ==> PlayAll(START, cs).queue == []
  {
    hide Play, PlayAll;
    QueueEmpty(START, cs);
  }

  /** MULTI and EXEC in turns: what the server writes. */
  ghost predicate Bracketed(cs: seq<Command>) {
    forall i :: 0 <= i < |cs| ==>
      && (IsMulti(cs[i]) ==> !PlayAll(START, cs[..i]).multi)
      && (IsExec(cs[i]) ==> PlayAll(START, cs[..i]).multi)
  }

  /** The commands without the brackets. */
  ghost function Unbracketed(cs: seq<Command>): seq<Command> {
    if cs == [] then []
    else
      var init, last := cs[..|cs| - 1], cs[|cs| - 1];
      if IsMulti(last) || IsExec(last) then Unbracketed(init) else Unbracketed(init) + [last]
  }

  lemma BracketedPrefix(cs: seq<Command>, n: nat)
    requires Bracketed(cs) && n <= |cs|
    ensures Bracketed(cs[..n])
  {
    hide PlayAll, IsMulti, IsExec;
    forall i | 0 <= i < n
      ensures IsMulti(cs[..n][i]) ==> !PlayAll(START, cs[..n][..i]).multi
      ensures IsExec(cs[..n][i]) ==> PlayAll(START, cs[..n][..i]).multi
    {
      assert cs[..n][..i] == cs[..i];
    }
  }

  lemma PlayLast(p: Player, cs: seq<Command>)
    requires cs != []
    ensures PlayAll(p, cs) == Play(PlayAll(p, cs[..|cs| - 1]), cs[|cs| - 1])
  {
    hide Play;
    var init, last := cs[..|cs| - 1], cs[|cs| - 1];
    assert cs == init + [last];
    PlayConcat(p, init, [last]);
    assert [last][1..] == [];
  }

  /** Every command is either run or queued, in its order. */
  lemma {:induction false} RunOrQueued(cs: seq<Command>)
    requires Bracketed(cs)
    ensures PlayAll(START, cs).done + PlayAll(START, cs).queue == Unbracketed(cs)
    decreases |cs|
  {
    if cs != [] {
      var init, last := cs[..|cs| - 1], cs[|cs| - 1];
      BracketedPrefix(cs, |init|);
      RunOrQueued(init);
      PlayLast(START, cs);
      StartQueue(init);
      var p := PlayAll(START, init);
      hide PlayAll, IsMulti, IsExec;
      assert p.done + (p.queue + [last]) == p.done + p.queue + [last];
      assert p.done + [last] + [] == p.done + [] + [last];
    }
  }

  /** Loading `m` commands runs the longest part of them that ends outside a transaction: whole transactions only. */
  lemma WholeTransactions(cs: seq<Command>, m: nat) returns (n: nat)
    requires Bracketed(cs) && m <= |cs|
    ensures n <= m && PlayAll(START, cs[..m]).done == Unbracketed(cs[..n])
    ensures !PlayAll(START, cs[..n]).multi && forall i :: n < i <= m ==> PlayAll(START, cs[..i]).multi
  {
    n := m;
    BracketedPrefix(cs, m);
    if PlayAll(START, cs[..m]).multi {
      assert NoNesting(cs);
      KeptBefore(cs, m);
      n := LastMulti(cs[..m]);
      forall i | n < i <= m ensures PlayAll(START, cs[..i]).multi { OpenSince(cs, m, i); }
      BracketedPrefix(cs, n);
    }
    hide PlayAll, IsMulti, IsExec, Bracketed, NoNesting;
    RunOrQueued(cs[..n]);
    StartQueue(cs[..n]);
    assert PlayAll(START, cs[..n]).done + [] == PlayAll(START, cs[..n]).done;
  }

  /** Since its MULTI an open transaction has been open. */
  lemma OpenSince(cs: seq<Command>, m: nat, i: nat)
    requires m <= |cs| && PlayAll(START, cs[..m]).multi && LastMulti(cs[..m]) < i <= m
    ensures PlayAll(START, cs[..i]).multi
  {
    var p, tail := PlayAll(START, cs[..i]), cs[i..m];
    assert cs[..m] == cs[..i] + tail;
    PlayConcat(START, cs[..i], tail);
    if !p.multi {
      forall j | 0 <= j < |tail| ensures !IsMulti(tail[j]) { assert tail[j] == cs[..m][i + j]; }
      hide IsMulti, IsExec, LastMulti;
      PlainRun(p, tail);
    }
  }

  /** The commands that loading ran. */
  ghost function Ran(o: Outcome): seq<Command> { if o.Loaded? then o.player.done else [] }

  /** The file that loading leaves behind. */
  ghost function Recover(log: string, config: Config): string {
    var o := Load(log, 0, config);
    if o.Loaded? && o.size <= |log| then log[..o.size] else log
  }

  /** The first `k` bytes of the log of `cs` break off inside a command of an open transaction. */
  ghost predicate CutInTransaction(cs: seq<Command>, k: nat) {
    var kept := cs[..Complete(cs, k)];
    k > |PrintAll(kept)| && PlayAll(START, kept).multi
  }

  /** How many commands the recovered file keeps. */
  ghost function Kept(cs: seq<Command>, k: nat): (n: int)
    ensures -1 <= n <= |cs|
  {
    var m := Complete(cs, k);
    if k <= |PrintAll(cs[..m])| && PlayAll(START, cs[..m]).multi then LastMulti(cs[..m]) else m
  }

  lemma PrefixOfLog(cs: seq<Command>, n: nat)
    requires n <= |cs|
    ensures PrintAll(cs[..n]) <= PrintAll(cs)
  {
    hide PrintAll;
    assert cs == cs[..n] + cs[n..];
    PrintConcat(cs[..n], cs[n..]);
  }

  lemma KeptSize(cs: seq<Command>, k: nat)
    requires NoNesting(cs)
    ensures var m, n := Complete(cs, k), Kept(cs, k);
            && 0 <= n && |PrintAll(cs[..n])| <= k
            && (k <= |PrintAll(cs[..m])| && PlayAll(START, cs[..m]).multi ==>
                  BeforeMulti(cs[..m], 0, 0, 0) == |PrintAll(cs[..n])|)
            && (k > |PrintAll(cs[..m])| || !PlayAll(START, cs[..m]).multi ==> n == m)
  {
    var m, n := Complete(cs, k), Kept(cs, k);
    CompleteFits(cs, k);
    hide Complete, PrintAll, PlayAll, NoNesting, LastMulti, BeforeMulti;
    if k <= |PrintAll(cs[..m])| && PlayAll(START, cs[..m]).multi {
      KeptBefore(cs, m);
      BeforeMultiIs(cs[..m], 0, 0);
      PrefixOfLog(cs[..m], n);
      assert cs[..m][..n] == cs[..n];
    }
  }

  lemma RecoveredAt(cs: seq<Command>, k: nat, rest: string)
    requires NoNesting(cs)
    ensures var m, n := Complete(cs, k), Kept(cs, k);
            && 0 <= n
            && Recovered(cs, k, Loading(rest, START, 0, 0), 0) == Loaded(PlayAll(START, cs[..m]), |PrintAll(cs[..n])|)
  {
    var m := Complete(cs, k);
    KeptSize(cs, k);
    CompleteFits(cs, k);
    if m == 0 { assert cs[..m] == [] && PrintAll([]) == ""; }
    hide Complete, PrintAll, PlayAll, NoNesting, Kept, BeforeMulti;
  }

  lemma RecoveredSize(cs: seq<Command>, k: nat, config: Config)
    requires Loadable(cs, config) && config.truncated && config.truncates && 0 < k <= |PrintAll(cs)| && NoNesting(cs)
    ensures var m, n := Complete(cs, k), Kept(cs, k);
            && n >= 0 && |PrintAll(cs[..n])| <= k
            && Load(PrintAll(cs)[..k], 0, config) == Loaded(PlayAll(START, cs[..m]), |PrintAll(cs[..n])|)
  {
    hide *;
    var log := PrintAll(cs)[..k];
    Recovery("", cs, k, config);
    assert "" + log == log;
    KeptSize(cs, k);
    RecoveredAt(cs, k, log);
  }

  /** The recovered file is the log of the commands it keeps, and it keeps an open transaction exactly when the
      file broke off inside one of its commands. */
  lemma RecoveredFile(cs: seq<Command>, k: nat, config: Config)
    requires Loadable(cs, config) && config.truncated && config.truncates && k <= |PrintAll(cs)| && NoNesting(cs)
    ensures var log := PrintAll(cs)[..k];
            var o, n := Load(log, 0, config), Kept(cs, k);
            && n >= 0 && (o.Loaded? || o.Empty?) && Recover(log, config) == PrintAll(cs[..n])
            && Ran(o) == PlayAll(START, cs[..n]).done
            && (PlayAll(START, cs[..n]).multi <==> CutInTransaction(cs, k))
  {
    var m, n := Complete(cs, k), Kept(cs, k);
    if k == 0 {
      assert cs[..m] == [];
    } else {
      RecoveredSize(cs, k, config);
      PrefixOfLog(cs, n);
      KeptOpen(cs, k);
      hide Print, IsMulti, Play, PlayAll, PrintAll, LoadFrom, Load, Complete, Kept, CutInTransaction;
    }
  }

  lemma KeptOpen(cs: seq<Command>, k: nat)
    requires NoNesting(cs)
    ensures var m, n := Complete(cs, k), Kept(cs, k);
            && n >= 0 && PlayAll(START, cs[..n]).done == PlayAll(START, cs[..m]).done
            && (PlayAll(START, cs[..n]).multi <==> CutInTransaction(cs, k))
  {
    var m := Complete(cs, k);
    CompleteFits(cs, k);
    if PlayAll(START, cs[..m]).multi { KeptBefore(cs, m); }
    hide Complete, Play, LastMulti, NoNesting, PrintAll;
  }

  lemma KeptBefore(cs: seq<Command>, m: nat)
    requires NoNesting(cs) && m <= |cs| && PlayAll(START, cs[..m]).multi
    ensures var i := LastMulti(cs[..m]);
            i >= 0 && !PlayAll(START, cs[..i]).multi && PlayAll(START, cs[..i]).done == PlayAll(START, cs[..m]).done
  {
    forall i | 0 <= i < m && IsMulti(cs[..m][i]) ensures !PlayAll(START, cs[..m][..i]).multi {
      assert cs[..m][..i] == cs[..i];
    }
    OpenTransaction(cs[..m]);
    assert cs[..m][..LastMulti(cs[..m])] == cs[..LastMulti(cs[..m])];
  }
}
