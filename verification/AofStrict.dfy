/** Loading when a broken file is not to be repaired, and loading of files that are no logs. */
module AofStrict {
  import opened Decimal
  import opened AofFormat
  import opened AofLoad

  // ------------------------------------------------------------------
  // A file that breaks off
  // ------------------------------------------------------------------

  /** The file is loaded when it ends behind a complete command and outside a transaction, and otherwise left alone. */
  ghost function StrictOutcome(cs: seq<Command>, k: nat, p: Player, size: nat): Outcome {
    var kept := cs[..Complete(cs, k)];
    if k == |PrintAll(kept)| && !PlayAll(p, kept).multi then Loaded(PlayAll(p, kept), size) else UnexpectedEnd
  }

  lemma StrictNext(cs: seq<Command>, k: nat, p: Player, size: nat)
    requires cs != [] && |Print(cs[0])| <= k
    ensures StrictOutcome(cs, k, p, size) == StrictOutcome(cs[1..], k - |Print(cs[0])|, Play(p, cs[0]), size)
  {
    hide Print, Play;
    var m := Complete(cs, k);
    assert cs[..m][0] == cs[0] && cs[..m][1..] == cs[1..][..m - 1];
  }

  lemma StrictCut(cs: seq<Command>, k: nat, p: Player, size: nat)
    requires cs != [] && 0 < k < |Print(cs[0])|
    ensures StrictOutcome(cs, k, p, size) == UnexpectedEnd
  {
    assert cs[..0] == [];
  }

  lemma StrictEnd(cs: seq<Command>, p: Player, size: nat)
    ensures StrictOutcome(cs, 0, p, size) == if p.multi then UnexpectedEnd else Loaded(p, size)
  {
    assert cs[..Complete(cs, 0)] == [];
  }

  lemma {:induction false} StrictPrefix(cs: seq<Command>, k: nat, l: Loading, size: nat, config: Config)
    requires Loadable(cs, config) && !(config.truncated && config.truncates)
    requires k <= |PrintAll(cs)| && l.rest == PrintAll(cs)[..k] && k <= size
    ensures LoadFrom(size, l, config) == StrictOutcome(cs, k, l.player, size)
    decreases |cs|
  {
    hide Print, IsMulti, Play, ReadCommand, StrictOutcome;
    if k == 0 {
      StrictEnd(cs, l.player, size);
    } else {
      var c, more := cs[0], PrintAll(cs[1..]);
      if k < |Print(c)| {
        assert l.rest == Print(c)[..k];
        CutCommand(c, k, config.memory);
        StrictCut(cs, k, l.player, size);
      } else {
        var rest := more[..k - |Print(c)|];
        assert l.rest == Print(c) + rest;
        ReadPrintedCommand(c, rest, config.memory);
        StrictPrefix(cs[1..], k - |Print(c)|, Advance(size, l, c, rest, config), size, config);
        StrictNext(cs, k, l.player, size);
      }
    }
  }

  /** With aof-load-truncated off, or when truncate(2) fails, every prefix of every log behind a preamble: it is loaded
      whole if it ends behind a complete command and outside a transaction, and otherwise loading fails. */
  lemma StrictLoad(preamble: string, cs: seq<Command>, k: nat, config: Config)
    requires Loadable(cs, config) && !(config.truncated && config.truncates) && k <= |PrintAll(cs)|
    requires preamble != "" || k > 0
    ensures var file, kept := preamble + PrintAll(cs)[..k], cs[..Complete(cs, k)];
            Load(file, |preamble|, config)
            == if k == |PrintAll(kept)| && !PlayAll(START, kept).multi
               then Loaded(PlayAll(START, kept), |file|) else UnexpectedEnd
  {
    var file := preamble + PrintAll(cs)[..k];
    assert file[|preamble|..] == PrintAll(cs)[..k];
    StrictPrefix(cs, k, Loading(PrintAll(cs)[..k], START, 0, 0), |file|, config);
  }

  // ------------------------------------------------------------------
  // A file that is no log
  // ------------------------------------------------------------------

  /** Behind commands that can be loaded the loader is where they leave it. */
  lemma {:induction false} LoadThrough(cs: seq<Command>, t: string, l: Loading, size: nat, config: Config)
    returns (l': Loading)
    requires Loadable(cs, config) && l.rest == PrintAll(cs) + t && |l.rest| <= size
    ensures l'.rest == t && l'.player == PlayAll(l.player, cs)
    ensures LoadFrom(size, l, config) == LoadFrom(size, l', config)
    decreases |cs|
  {
    hide Print, IsMulti, Play, ReadCommand;
    if cs == [] {
      assert "" + t == t;
      l' := l;
    } else {
      var c, rest := cs[0], PrintAll(cs[1..]) + t;
      assert l.rest == Print(c) + rest;
      ReadPrintedCommand(c, rest, config.memory);
      l' := LoadThrough(cs[1..], t, Advance(size, l, c, rest, config), size, config);
    }
  }

  /** What follows the commands decides. */
  lemma LoadBehind(preamble: string, cs: seq<Command>, t: string, config: Config) returns (l: Loading)
    requires Loadable(cs, config) && t != ""
    ensures l.rest == t && l.player == PlayAll(START, cs)
    ensures var file := preamble + PrintAll(cs) + t;
            Load(file, |preamble|, config) == LoadFrom(|file|, l, config)
  {
    var file := preamble + PrintAll(cs) + t;
    assert file[|preamble|..] == PrintAll(cs) + t;
    l := LoadThrough(cs, t, Loading(PrintAll(cs) + t, START, 0, 0), |file|, config);
  }

  /** What does not begin like a command is a format error, wherever it comes. */
  lemma GarbageRefused(preamble: string, cs: seq<Command>, t: string, config: Config)
    requires Loadable(cs, config) && t != "" && t[0] != '*'
    ensures Load(preamble + PrintAll(cs) + t, |preamble|, config) == FormatError
  {
    var l := LoadBehind(preamble, cs, t, config);
    var line := Line(t, LINE_SIZE - 1).0;
    assert line[0] == t[0] by { assert line + Line(t, LINE_SIZE - 1).1 == t; }
    hide PrintAll, Line;
  }

  /** So is a command without arguments, and one whose arguments do not begin like one. */
  lemma ShapeRefused(preamble: string, cs: seq<Command>, n: nat, rest: string, config: Config)
    requires Loadable(cs, config) && n <= INT_MAX && POINTER_SIZE * n <= config.memory
    requires n == 0 || (rest != "" && rest[0] != '$')
    ensures Load(preamble + PrintAll(cs) + (Header('*', n) + rest), |preamble|, config) == FormatError
  {
    hide Header, PrintAll, ReadCommand;
    BadShape(n, rest, config.memory);
    var l := LoadBehind(preamble, cs, Header('*', n) + rest, config);
  }

  lemma BadShape(n: nat, rest: string, memory: nat)
    requires n <= INT_MAX && POINTER_SIZE * n <= memory && (n == 0 || (rest != "" && rest[0] != '$'))
    ensures Header('*', n) + rest != "" && ReadCommand(Header('*', n) + rest, memory) == Malformed
  {
    var h := Header('*', n);
    HeaderLine('*', n, rest);
    assert h[0] == '*' && |h| > 1 && IsDigit(h[1]);
    hide Header, Line, Strtol;
    if n > 0 { assert ReadArgs(rest, n, memory) == Malformed; }
  }

  lemma {:induction false} TooLong(args: seq<string>, rest: string, memory: nat)
    requires forall i :: 0 <= i < |args| ==> |args[i]| <= LONG_MAX
    requires exists i :: 0 <= i < |args| && |args[i]| > memory
    ensures ReadArgs(PrintArgs(args) + rest, |args|, memory) == NoMemory
  {
    var first, more := PrintArg(args[0]), PrintArgs(args[1..]);
    assert PrintArgs(args) + rest == first + (more + rest);
    if |args[0]| > memory {
      TooLongArg(args[0], more + rest, memory);
      hide PrintArg, ReadArg;
    } else {
      ReadPrintedArg(args[0], more + rest, memory);
      hide PrintArg, ReadArg;
      var i :| 0 <= i < |args| && |args[i]| > memory;
      assert args[1..][i - 1] == args[i];
      TooLong(args[1..], rest, memory);
    }
  }

  lemma TooLongArg(a: string, rest: string, memory: nat)
    requires memory < |a| <= LONG_MAX
    ensures ReadArg(PrintArg(a) + rest, memory) == NoMemory
  {
    var h, body := Header('$', |a|), a + CRLF + rest;
    HeaderLine('$', |a|, body);
    assert h[0] == '$';
    hide Header, Line, Strtol;
    assert PrintArg(a) + rest == h + body;
  }

  lemma TooBig(c: Command, rest: string, memory: nat)
    requires Fits(c) && !Held(c, memory)
    ensures ReadCommand(Print(c) + rest, memory) == NoMemory
  {
    var h, body := Header('*', |c|), PrintArgs(c) + rest;
    StarLine(|c|, body);
    assert Print(c) + rest == h + body;
    if POINTER_SIZE * |c| <= memory { TooLong(c, rest, memory); }
    hide Header, Line, Atoi, ReadArgs, PrintArgs;
  }

  /** The first command that cannot be loaded decides, whatever comes behind it: one that memory cannot hold aborts, and
      one that is not known is named. */
  lemma FirstBad(preamble: string, cs: seq<Command>, c: Command, rest: string, config: Config)
    requires Loadable(cs, config) && Fits(c) && !(config.known(c[0]) && Held(c, config.memory))
    ensures Load(preamble + PrintAll(cs) + (Print(c) + rest), |preamble|, config)
         == if Held(c, config.memory) then UnknownCommand(c[0]) else OutOfMemory
  {
    var l := LoadBehind(preamble, cs, Print(c) + rest, config);
    if Held(c, config.memory) {
      ReadPrintedCommand(c, rest, config.memory);
    } else {
      TooBig(c, rest, config.memory);
    }
    hide PrintAll, Print, ReadCommand, Held;
  }
}
