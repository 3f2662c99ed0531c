/** The append only file as text: how aof.c prints a command and how its loader reads one back. A byte of the
    file is a `char`. */
module AofFormat {
  import opened Decimal

  /** The arguments of a command, its name first. */
  type Command = seq<string>

  const INT_MAX: int := 0x7fff_ffff
  const LONG_MAX: int := 0x7fff_ffff_ffff_ffff
  const LINE_SIZE: nat := 128

  const CRLF: string := "\r\n"

  // ------------------------------------------------------------------
  // Printing
  // ------------------------------------------------------------------

  /** A line `c`, number, CRLF. */
  function Header(c: char, n: nat): string { [c] + Digits(n) + CRLF }

  function PrintArg(a: string): (s: string)
    ensures |s| > 4
  {
    Header('$', |a|) + a + CRLF
  }

  function PrintArgs(args: seq<string>): string {
    if args == [] then "" else PrintArg(args[0]) + PrintArgs(args[1..])
  }

  /** What catAppendOnlyGenericCommand appends. */
  function Print(c: Command): (s: string)
    ensures |s| > 3
  {
    Header('*', |c|) + PrintArgs(c)
  }

  /** catAppendOnlyGenericCommand: one argument after the other. */
  method AppendCommand(dst: string, c: Command) returns (r: string)
    ensures r == dst + Print(c)
  {
    r := dst + Header('*', |c|);
    assert c[0..] == c && r + PrintArgs(c) == dst + Print(c);
    hide Print, Header;
    for j := 0 to |c|
      invariant r + PrintArgs(c[j..]) == dst + Print(c)
    {
      PrintNext(c, j, r);
      r := r + (Header('$', |c[j]|) + c[j] + CRLF);
    }
    assert r + "" == r;
  }

  lemma PrintNext(c: Command, j: nat, r: string)
    requires j < |c|
    ensures r + PrintArgs(c[j..]) == r + (Header('$', |c[j]|) + c[j] + CRLF) + PrintArgs(c[j + 1..])
  {
    hide Header;
    assert c[j..][0] == c[j] && c[j..][1..] == c[j + 1..];
  }

  /** The sizes that fit the types of the program: argc is an int and a length fits a long. */
  ghost predicate Fits(c: Command) {
    1 <= |c| <= INT_MAX && forall i :: 0 <= i < |c| ==> |c[i]| <= LONG_MAX
  }

  function PrintAll(cs: seq<Command>): string {
    if cs == [] then "" else Print(cs[0]) + PrintAll(cs[1..])
  }

  // ------------------------------------------------------------------
  // Reading
  // ------------------------------------------------------------------

  /** fgets with room for `n` bytes: the line, what is left, and whether the end of the file was hit. */
  function Line(t: string, n: nat): (r: (string, string, bool))
    ensures r.0 + r.1 == t && |r.0| <= n && (n > 0 && t != [] ==> r.0 != [])
  {
    if n == 0 then ("", t, false)
    else if t == [] then ("", "", true)
    else if t[0] == '\n' then ("\n", t[1..], false)
    else var r := Line(t[1..], n - 1); ([t[0]] + r.0, r.1, r.2)
  }

  /** strtol saturates. */
  function Strtol(s: string): int {
    var n := ReadNumber(s);
    if n > LONG_MAX then LONG_MAX else if n < -LONG_MAX - 1 then -LONG_MAX - 1 else n
  }

  /** atoi is strtol cut to an int. */
  function Atoi(s: string): int {
    var n := Strtol(s) % 0x1_0000_0000;
    if n > INT_MAX then n - 0x1_0000_0000 else n
  }

  /** A value and what is left of the file; or a short read (`eof` if the end of the file was hit); or bad syntax; or an
      allocation that fails. */
  datatype Read<T> = Got(value: T, rest: string) | Short(eof: bool) | Malformed | NoMemory

  /** One argument: its length line, its bytes, and two more bytes. At most `memory` bytes can be allocated for it. */
  function ReadArg(t: string, memory: nat): (r: Read<string>)
    ensures r.Got? ==> |r.rest| < |t|
  {
    if t == [] then Short(true)
    else if t[0] != '$' then Malformed
    else
      var (line, rest, _) := Line(t, LINE_SIZE - 1);
      var n := Strtol(line[1..]);
      var len := if n < 0 then n + 2 * (LONG_MAX + 1) else n;
      if len > memory then NoMemory
      else if |rest| < len + 2 then Short(true) else Got(rest[..len], rest[len + 2..])
  }

  function ReadArgs(t: string, argc: nat, memory: nat): (r: Read<seq<string>>)
    ensures r.Got? ==> |r.rest| <= |t| && |r.value| == argc
    decreases argc
  {
    if argc == 0 then Got([], t)
    else match ReadArg(t, memory)
      case Short(eof) => Short(eof)
      case Malformed => Malformed
      case NoMemory => NoMemory
      case Got(a, rest) =>
        match ReadArgs(rest, argc - 1, memory)
        case Short(eof) => Short(eof)
        case Malformed => Malformed
        case NoMemory => NoMemory
        case Got(args, rest') => Got([a] + args, rest')
  }

  /** One command, when the file does not end here. */
  function ReadCommand(t: string, memory: nat): (r: Read<Command>)
    requires t != []
    ensures r.Got? ==> |r.rest| < |t| && r.value != []
  {
    var (line, rest, eof) := Line(t, LINE_SIZE - 1);
    if line[0] != '*' then Malformed
    else if |line| == 1 || line[1] == '\0' then Short(eof)
    else if Atoi(line[1..]) < 1 then Malformed
    else if POINTER_SIZE * Atoi(line[1..]) > memory then NoMemory
    else ReadArgs(rest, Atoi(line[1..]), memory)
  }

  /** The size of an element of argv. */
  const POINTER_SIZE: nat := 8

  /** The command can be allocated. */
  ghost predicate Held(c: Command, memory: nat) {
    POINTER_SIZE * |c| <= memory && forall i :: 0 <= i < |c| ==> |c[i]| <= memory
  }

  // ------------------------------------------------------------------
  // Reading back what was printed
  // ------------------------------------------------------------------

  lemma {:induction false} LineOf(body: string, rest: string, n: nat)
    requires |body| < n && '\n' !in body
    ensures Line(body + "\n" + rest, n) == (body + "\n", rest, false)
  {
    if body == [] {
      assert ("" + "\n" + rest)[1..] == rest && body + "\n" == "\n";
    } else {
      LineOf(body[1..], rest, n - 1);
      assert (body + "\n" + rest)[1..] == body[1..] + "\n" + rest;
      assert [body[0]] + (body[1..] + "\n") == body + "\n";
    }
  }

  lemma {:induction false} LineCut(t: string, n: nat)
    requires |t| < n && '\n' !in t
    ensures Line(t, n) == (t, "", true)
  {
    if t != [] {
      LineCut(t[1..], n - 1);
      assert [t[0]] + t[1..] == t;
    }
  }

  function Pow10(k: nat): nat { if k == 0 then 1 else 10 * Pow10(k - 1) }

  lemma {:induction false} DigitsShort(n: nat, k: nat)
    requires k > 0 && n < Pow10(k)
    ensures |Digits(n)| <= k
  {
    if n >= 10 { DigitsShort(n / 10, k - 1); }
  }

  lemma LongDigits(n: nat)
    requires n <= LONG_MAX
    ensures |Digits(n)| <= 19
  {
    assert Pow10(19) == 10_000_000_000_000_000_000 by {
      assert Pow10(5) == 100_000;
      assert Pow10(10) == 100_000 * Pow10(5);
      assert Pow10(15) == 100_000 * Pow10(10);
      assert Pow10(19) == 10_000 * Pow10(15);
    }
    DigitsShort(n, 19);
  }

  /** A printed header line, with anything after it. */
  lemma HeaderLine(c: char, n: nat, rest: string)
    requires n <= LONG_MAX && c != '\n'
    ensures Line(Header(c, n) + rest, LINE_SIZE - 1) == (Header(c, n), rest, false)
    ensures Strtol(Header(c, n)[1..]) == n
  {
    var body := [c] + Digits(n) + "\r";
    LongDigits(n);
    LineOf(body, rest, LINE_SIZE - 1);
    assert Header(c, n) == body + "\n";
    assert Header(c, n)[1..] == Digits(n) + CRLF;
    ReadPrinted(n, CRLF);
  }

  /** A header line that the end of the file cuts. */
  lemma HeaderCut(c: char, n: nat, k: nat)
    requires n <= LONG_MAX && c != '\n' && k < |Header(c, n)|
    ensures var t := Header(c, n)[..k]; Line(t, LINE_SIZE - 1) == (t, "", true)
  {
    LongDigits(n);
    LineCut(Header(c, n)[..k], LINE_SIZE - 1);
  }

  lemma ReadPrintedArg(a: string, rest: string, memory: nat)
    requires |a| <= LONG_MAX && |a| <= memory
    ensures ReadArg(PrintArg(a) + rest, memory) == Got(a, rest)
  {
    var h, body := Header('$', |a|), a + CRLF + rest;
    HeaderLine('$', |a|, body);
    assert h[0] == '$';
    hide Header, Line, Strtol;
    assert PrintArg(a) + rest == h + body;
    assert body[..|a|] == a && body[|a| + 2..] == rest;
  }

  lemma {:induction false} DigitsPrefix(n: nat, j: nat) returns (m: nat)
    requires 1 <= n && 1 <= j <= |Digits(n)|
    ensures 1 <= m <= n && Digits(n)[..j] == Digits(m)
  {
    if j == |Digits(n)| {
      m := n;
    } else {
      m := DigitsPrefix(n / 10, j);
      assert Digits(n)[..j] == Digits(n / 10)[..j];
    }
  }

  /** A cut number still reads as a positive number that is no greater. */
  lemma CutNumber(n: nat, k: nat)
    requires 1 <= n && 1 <= k <= |Digits(n) + CRLF|
    ensures 1 <= ReadNumber((Digits(n) + CRLF)[..k]) <= n
  {
    var d, t := Digits(n), (Digits(n) + CRLF)[..k];
    if k <= |d| {
      var m := DigitsPrefix(n, k);
      assert t == Digits(m) + "";
      ReadPrinted(m, "");
    } else {
      assert t == d + CRLF[..k - |d|];
      ReadPrinted(n, CRLF[..k - |d|]);
    }
  }

  /** A cut length line reads as a length that is no greater. */
  lemma CutLength(n: nat, k: nat)
    requires n <= LONG_MAX && 0 < k < |Header('$', n)|
    ensures 0 <= Strtol(Header('$', n)[..k][1..]) <= n
  {
    var t := (Digits(n) + CRLF)[..k - 1];
    assert Header('$', n)[..k][1..] == t;
    hide Header;
    if k > 1 {
      if n == 0 {
        assert t == Digits(0) + CRLF[..k - 2];
        ReadPrinted(0, CRLF[..k - 2]);
      } else {
        CutNumber(n, k - 1);
      }
    }
  }

  lemma CutArg(a: string, k: nat, memory: nat)
    requires |a| <= LONG_MAX && |a| <= memory && k < |PrintArg(a)|
    ensures ReadArg(PrintArg(a)[..k], memory) == Short(true)
  {
    var h := Header('$', |a|);
    assert h[0] == '$' && PrintArg(a) == h + (a + CRLF);
    if 0 < k < |h| {
      HeaderCut('$', |a|, k);
      CutLength(|a|, k);
      hide Header, Line, Strtol;
      assert PrintArg(a)[..k] == h[..k];
    } else if |h| <= k {
      var rest := (a + CRLF)[..k - |h|];
      HeaderLine('$', |a|, rest);
      hide Header, Line, Strtol;
      assert PrintArg(a)[..k] == h + rest;
    }
  }

  ghost predicate Lengths(args: seq<string>, memory: nat) {
    forall i :: 0 <= i < |args| ==> |args[i]| <= LONG_MAX && |args[i]| <= memory
  }

  lemma {:induction false} ReadPrintedArgs(args: seq<string>, rest: string, memory: nat)
    requires Lengths(args, memory)
    ensures ReadArgs(PrintArgs(args) + rest, |args|, memory) == Got(args, rest)
  {
    hide PrintArg, ReadArg;
    if args == [] {
      assert "" + rest == rest;
    } else {
      var first, more := PrintArg(args[0]), PrintArgs(args[1..]);
      ReadPrintedArg(args[0], more + rest, memory);
      ReadPrintedArgs(args[1..], rest, memory);
      assert PrintArgs(args) + rest == first + (more + rest);
      assert [args[0]] + args[1..] == args;
    }
  }

  lemma {:induction false} CutArgs(args: seq<string>, k: nat, memory: nat)
    requires Lengths(args, memory) && k < |PrintArgs(args)|
    ensures ReadArgs(PrintArgs(args)[..k], |args|, memory) == Short(true)
  {
    hide PrintArg, ReadArg;
    var first, more := PrintArg(args[0]), PrintArgs(args[1..]);
    if k < |first| {
      CutArg(args[0], k, memory);
      assert PrintArgs(args)[..k] == first[..k];
    } else {
      ReadPrintedArg(args[0], more[..k - |first|], memory);
      CutArgs(args[1..], k - |first|, memory);
      assert PrintArgs(args)[..k] == first + more[..k - |first|];
    }
  }

  lemma StarLine(n: nat, body: string)
    requires 1 <= n <= INT_MAX
    ensures var h := Header('*', n);
            && Line(h + body, LINE_SIZE - 1) == (h, body, false)
            && |h| > 1 && h[0] == '*' && h[1] != '\0' && Atoi(h[1..]) == n
  {
    HeaderLine('*', n, body);
    assert IsDigit(Header('*', n)[1]);
    hide Header, Line, Strtol;
  }

  /** Every printed command is read back as itself, whatever follows it. */
  lemma ReadPrintedCommand(c: Command, rest: string, memory: nat)
    requires Fits(c) && Held(c, memory)
    ensures ReadCommand(Print(c) + rest, memory) == Got(c, rest)
  {
    hide Header, Line, Atoi, ReadArgs, PrintArgs;
    var h, body := Header('*', |c|), PrintArgs(c) + rest;
    StarLine(|c|, body);
    ReadPrintedArgs(c, rest, memory);
    assert Print(c) + rest == h + body;
  }

  lemma CutHeader(n: nat, k: nat, memory: nat)
    requires 1 <= n <= INT_MAX && POINTER_SIZE * n <= memory && 0 < k < |Header('*', n)|
    ensures ReadCommand(Header('*', n)[..k], memory) == Short(true)
  {
    HeaderCut('*', n, k);
    if k > 1 {
      var h := Header('*', n);
      assert h[..k][1..] == (Digits(n) + CRLF)[..k - 1] && IsDigit(h[1]);
      CutNumber(n, k - 1);
      hide Header, Line, ReadNumber;
    }
  }

  /** Wherever the end of the file cuts a printed command, the loader sees a short read. */
  lemma CutCommand(c: Command, k: nat, memory: nat)
    requires Fits(c) && Held(c, memory) && 0 < k < |Print(c)|
    ensures ReadCommand(Print(c)[..k], memory) == Short(true)
  {
    hide Header, Line, Atoi, ReadArgs, PrintArgs;
    var h := Header('*', |c|);
    if k < |h| {
      CutHeader(|c|, k, memory);
      assert Print(c)[..k] == h[..k];
    } else {
      var body := PrintArgs(c)[..k - |h|];
      StarLine(|c|, body);
      CutArgs(c, k - |h|, memory);
      assert Print(c)[..k] == h + body;
    }
  }
}
