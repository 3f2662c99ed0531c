/** The lines of an ACL file: the rules of a user are joined to one, and loading takes them apart again. */
module AclLine {
  import opened Common
  import opened Acl

  // ------------------------------------------------------------------
  // Splitting
  // ------------------------------------------------------------------

  /** sdssplitlen with a separator of one character. Of the empty string it makes nothing, which a loader that skips
      blank lines does not tell from one empty word. */
  function Split(s: string, sep: char): (words: seq<string>)
    ensures words != []
  {
    var i := Find(s, sep);
    if i == |s| then [s] else [s[..i]] + Split(s[i + 1..], sep)
  }

  /** No word contains the separator, and all characters come from the string. */
  lemma {:induction false} SplitParts(s: string, sep: char)
    ensures forall w :: w in Split(s, sep) ==> sep !in w && forall c :: c in w ==> c in s
    decreases |s|
  {
    var i := Find(s, sep);
    if i < |s| {
      SplitParts(s[i + 1..], sep);
      assert forall c :: c in s[..i] || c in s[i + 1..] ==> c in s;
    }
  }

  lemma FirstWord(a: string, b: string, sep: char)
    requires sep !in a
    ensures Split(a, sep) == [a] && Split(a + [sep] + b, sep) == [a] + Split(b, sep)
  {
    var s := a + [sep] + b;
    assert Find(a, sep) == |a|;
    assert s[|a|] == sep && forall k :: 0 <= k < |a| ==> s[k] == a[k];
    assert Find(s, sep) == |a|;
    assert s[..|a|] == a && s[|a| + 1..] == b;
  }

  // ------------------------------------------------------------------
  // Trimming
  // ------------------------------------------------------------------

  function TrimLeft(s: string, cset: string): string {
    if s != "" && s[0] in cset then TrimLeft(s[1..], cset) else s
  }

  function TrimRight(s: string, cset: string): string {
    if s != "" && s[|s| - 1] in cset then TrimRight(s[..|s| - 1], cset) else s
  }

  /** sdstrim. */
  function Trim(s: string, cset: string): string { TrimRight(TrimLeft(s, cset), cset) }

  ghost predicate Only(s: string, cset: string) { forall i :: 0 <= i < |s| ==> s[i] in cset }

  lemma {:induction false} TrimLeftParts(s: string, cset: string) returns (a: string)
    ensures s == a + TrimLeft(s, cset) && Only(a, cset)
    ensures TrimLeft(s, cset) == "" || TrimLeft(s, cset)[0] !in cset
  {
    a := "";
    if s != "" && s[0] in cset {
      var b := TrimLeftParts(s[1..], cset);
      a := [s[0]] + b;
      assert s == [s[0]] + s[1..];
    }
  }

  lemma {:induction false} TrimRightParts(s: string, cset: string) returns (b: string)
    ensures s == TrimRight(s, cset) + b && Only(b, cset)
    ensures TrimRight(s, cset) == "" || TrimRight(s, cset)[|TrimRight(s, cset)| - 1] !in cset
  {
    b := "";
    if s != "" && s[|s| - 1] in cset {
      var a := TrimRightParts(s[..|s| - 1], cset);
      b := a + [s[|s| - 1]];
      assert s == s[..|s| - 1] + [s[|s| - 1]];
    }
  }

  /** What goes is at the two ends and of the set, and what stays neither begins nor ends with one of the set. */
  lemma TrimParts(s: string, cset: string) returns (a: string, b: string)
    ensures var r := Trim(s, cset);
            && s == a + r + b && Only(a, cset) && Only(b, cset)
            && (r == "" || (r[0] !in cset && r[|r| - 1] !in cset))
  {
    hide TrimLeft, TrimRight;
    a := TrimLeftParts(s, cset);
    b := TrimRightParts(TrimLeft(s, cset), cset);
    var l, r := TrimLeft(s, cset), Trim(s, cset);
    assert r != "" ==> r[0] == l[0];
  }

  lemma TrimHas(s: string, cset: string)
    ensures forall c :: c in Trim(s, cset) ==> c in s
  {
    hide Trim;
    var a, b := TrimParts(s, cset);
    assert forall c :: c in a + Trim(s, cset) + b <==> c in a || c in Trim(s, cset) || c in b;
  }

  lemma NothingToTrim(s: string, cset: string)
    requires s == "" || (s[0] !in cset && s[|s| - 1] !in cset)
    ensures Trim(s, cset) == s
  {}

  // ------------------------------------------------------------------
  // Words
  // ------------------------------------------------------------------

  predicate Free(s: string) { ' ' !in s && '\n' !in s }

  predicate Space(c: char) { c == '\t' || c == '\r' }

  /** No blank, no newline, and no white space at the end. */
  predicate Tidy(s: string) { Free(s) && (s == "" || !Space(s[|s| - 1])) }

  /** None at the beginning either. */
  predicate Clean(s: string) { Tidy(s) && (s == "" || !Space(s[0])) }

  ghost predicate AllFree(words: seq<string>) { forall k :: 0 <= k < |words| ==> Free(words[k]) }

  ghost predicate AllTidy(words: seq<string>) { forall k :: 0 <= k < |words| ==> Tidy(words[k]) }

  ghost predicate AllClean(words: seq<string>) { forall k :: 0 <= k < |words| ==> Clean(words[k]) && words[k] != "" }

  lemma CleanMore(rules: seq<string>, op: string)
    requires AllClean(rules) && Clean(op) && op != ""
    ensures AllClean(rules + [op])
  {
    hide Clean;
  }

  lemma CleanTidy(rules: seq<string>)
    requires AllClean(rules)
    ensures AllTidy(rules) && AllFree(rules)
  {}

  lemma CleanConcat(a: string, b: string)
    requires a != "" && Clean(a) && Tidy(b)
    ensures a + b != "" && Clean(a + b)
  {
    assert forall c :: c in a + b <==> c in a || c in b;
    assert b != "" ==> (a + b)[|a + b| - 1] == b[|b| - 1];
  }

  lemma TidyTail(s: string, i: nat)
    requires Tidy(s) && i <= |s|
    ensures Tidy(s[i..])
  {
    assert forall c :: c in s[i..] ==> c in s;
  }

  // ------------------------------------------------------------------
  // Lines
  // ------------------------------------------------------------------

  /** Every word is followed by a blank. */
  function Spaced(words: seq<string>): string {
    if words == [] then "" else words[0] + " " + Spaced(words[1..])
  }

  /** The blank behind the last word is left out. */
  function Line(words: seq<string>): string {
    var s := Spaced(words);
    if s == "" then s else s[..|s| - 1]
  }

  lemma {:induction false} EndsBlank(words: seq<string>)
    requires words != []
    ensures Spaced(words) != "" && Spaced(words) == Line(words) + " "
  {
    var s := Spaced(words);
    if |words| == 1 {
      assert Spaced(words[1..]) == "";
      assert s == words[0] + " ";
    } else {
      EndsBlank(words[1..]);
    }
    assert s[|s| - 1] == ' ' && s == s[..|s| - 1] + [s[|s| - 1]];
  }

  lemma LineIs(words: seq<string>)
    requires words != []
    ensures Line(words) == if |words| == 1 then words[0] else words[0] + " " + Line(words[1..])
  {
    var first, rest := words[0], words[1..];
    EndsBlank(words);
    if rest != [] {
      EndsBlank(rest);
      assert first + " " + (Line(rest) + " ") == first + " " + Line(rest) + " ";
    }
  }

  lemma {:induction false} SplitJoined(words: seq<string>)
    requires words != [] && forall k :: 0 <= k < |words| ==> ' ' !in words[k]
    ensures Split(Line(words), ' ') == words
  {
    LineIs(words);
    if |words| == 1 {
      FirstWord(words[0], "", ' ');
    } else {
      hide Line;
      FirstWord(words[0], Line(words[1..]), ' ');
      SplitJoined(words[1..]);
    }
  }

  /** The line is split into its words again exactly when none of them contains a blank. */
  lemma SplitLine(words: seq<string>)
    requires words != []
    ensures Split(Line(words), ' ') == words <==> forall k :: 0 <= k < |words| ==> ' ' !in words[k]
  {
    hide *;
    SplitParts(Line(words), ' ');
    if forall k :: 0 <= k < |words| ==> ' ' !in words[k] { SplitJoined(words); }
  }

  /** A line begins like its first word, ends like its last, and has no other newlines than they. */
  lemma {:induction false} LineEnds(words: seq<string>)
    requires words != [] && words[|words| - 1] != "" && AllFree(words)
    ensures var s, last := Line(words), words[|words| - 1];
            && s != "" && s[|s| - 1] == last[|last| - 1] && '\n' !in s
            && (words[0] != "" ==> s[0] == words[0][0])
  {
    LineIs(words);
    if |words| > 1 {
      hide Line;
      LineEnds(words[1..]);
      assert Free(words[0]);
      hide AllFree;
      JoinedEnds(words[0], Line(words[1..]));
    }
  }

  lemma JoinedEnds(a: string, b: string)
    requires b != "" && '\n' !in a && '\n' !in b
    ensures var s := a + " " + b;
            s != "" && s[|s| - 1] == b[|b| - 1] && '\n' !in s && (a != "" ==> s[0] == a[0])
  {}

  // ------------------------------------------------------------------
  // Files
  // ------------------------------------------------------------------

  /** ACLSaveToFile: one line for each user. */
  function Text(lines: seq<string>): string { if lines == [] then "" else lines[0] + "\n" + Text(lines[1..]) }

  /** The arguments of a line; those behind the name of the user are trimmed. */
  function Arguments(line: string): seq<string> {
    var ws := Split(line, ' ');
    seq(|ws|, i requires 0 <= i < |ws| => if i < 2 then ws[i] else Trim(ws[i], "\t\r\n"))
  }

  /** The arguments of every line that is not blank. */
  function Entries(lines: seq<string>): seq<seq<string>> {
    if lines == [] then [] else Entry(Trim(lines[0], " \t\r\n")) + Entries(lines[1..])
  }

  function Entry(line: string): seq<seq<string>> { if line == "" then [] else [Arguments(line)] }

  /** The reading part of ACLLoadFromFile. */
  function Loaded(text: string): seq<seq<string>> { Entries(Split(text, '\n')) }

  ghost predicate TidyRules(e: seq<string>) { forall k :: 2 <= k < |e| ==> Tidy(e[k]) }

  lemma TrimTidy(w: string)
    requires Free(w)
    ensures Tidy(Trim(w, "\t\r\n"))
  {
    hide Trim;
    TrimHas(w, "\t\r\n");
    var a, b := TrimParts(w, "\t\r\n");
  }

  lemma ArgumentsTidy(line: string)
    requires '\n' !in line
    ensures TidyRules(Arguments(line))
  {
    hide Split, Trim, Tidy;
    var ws := Split(line, ' ');
    SplitParts(line, ' ');
    forall k | 2 <= k < |ws| ensures Tidy(Trim(ws[k], "\t\r\n")) {
      assert ws[k] in ws;
      TrimTidy(ws[k]);
    }
  }

  /** Whatever the file is, the rules that are loaded are tidy. */
  lemma {:induction false} EntriesTidy(lines: seq<string>)
    requires forall i :: 0 <= i < |lines| ==> '\n' !in lines[i]
    ensures forall e :: e in Entries(lines) ==> TidyRules(e)
  {
    if lines != [] {
      hide TidyRules, Arguments, Trim;
      TrimHas(lines[0], " \t\r\n");
      ArgumentsTidy(Trim(lines[0], " \t\r\n"));
      EntriesTidy(lines[1..]);
    }
  }

  lemma LoadedTidy(text: string)
    ensures forall e :: e in Loaded(text) ==> TidyRules(e)
  {
    hide Split, Entries, TidyRules;
    var lines := Split(text, '\n');
    SplitParts(text, '\n');
    forall i | 0 <= i < |lines| ensures '\n' !in lines[i] { assert lines[i] in lines; }
    EntriesTidy(lines);
  }

  /** A line that loads as it was saved: clean words, of which the first and the last are not empty. */
  ghost predicate Writable(words: seq<string>) {
    && |words| > 2 && words[0] != "" && words[|words| - 1] != ""
    && forall k :: 0 <= k < |words| ==> Clean(words[k])
  }

  lemma CleanEnds(w: string)
    requires Clean(w) && w != ""
    ensures w[0] !in " \t\r\n" && w[|w| - 1] !in " \t\r\n"
  {
    assert w[0] in w && w[|w| - 1] in w;
  }

  lemma CleanStays(w: string)
    requires Clean(w)
    ensures Free(w) && Trim(w, "\t\r\n") == w
  {
    if w != "" { CleanEnds(w); }
    NothingToTrim(w, "\t\r\n");
  }

  lemma LineStays(words: seq<string>)
    requires Writable(words)
    ensures '\n' !in Line(words) && Trim(Line(words), " \t\r\n") == Line(words) != ""
  {
    hide Line, Trim, Clean, Free;
    forall k | 0 <= k < |words| ensures Free(words[k]) { CleanStays(words[k]); }
    LineEnds(words);
    CleanEnds(words[0]);
    CleanEnds(words[|words| - 1]);
    NothingToTrim(Line(words), " \t\r\n");
  }

  lemma ArgumentsBack(words: seq<string>)
    requires Writable(words)
    ensures Arguments(Line(words)) == words
  {
    hide Line, Split, Trim, Clean;
    forall k | 0 <= k < |words| ensures Free(words[k]) && Trim(words[k], "\t\r\n") == words[k] { CleanStays(words[k]); }
    SplitLine(words);
  }

  function Lines(es: seq<seq<string>>): (r: seq<string>)
    ensures |r| == |es|
  {
    if es == [] then [] else [Line(es[0])] + Lines(es[1..])
  }

  lemma LinesFirst(es: seq<seq<string>>)
    requires es != []
    ensures Text(Lines(es)) == Line(es[0]) + "\n" + Text(Lines(es[1..]))
  {
    assert Lines(es)[1..] == Lines(es[1..]);
  }

  lemma NothingSaved(es: seq<seq<string>>)
    requires es == []
    ensures Loaded(Text(Lines(es))) == []
  {
    NothingToTrim("", " \t\r\n");
    assert Split("", '\n') == [""];
    assert Entries([""]) == [] + Entries([""][1..]);
  }

  lemma LoadedFirst(line: string, rest: string)
    requires '\n' !in line && Trim(line, " \t\r\n") == line != ""
    ensures Loaded(line + "\n" + rest) == [Arguments(line)] + Loaded(rest)
  {
    hide Split, Trim, Arguments;
    FirstWord(line, rest, '\n');
    var lines := Split(rest, '\n');
    assert ([line] + lines)[0] == line && ([line] + lines)[1..] == lines;
  }

  /** Saved and loaded, the words of all lines come back. */
  lemma {:induction false} SavedLoads(es: seq<seq<string>>)
    requires forall i :: 0 <= i < |es| ==> Writable(es[i])
    ensures Loaded(Text(Lines(es))) == es
  {
    hide *;
    if es == [] {
      NothingSaved(es);
    } else {
      LinesFirst(es);
      LineStays(es[0]);
      ArgumentsBack(es[0]);
      LoadedFirst(Line(es[0]), Text(Lines(es[1..])));
      SavedLoads(es[1..]);
    }
  }

  // ------------------------------------------------------------------
  // Where an untidy rule comes from
  // ------------------------------------------------------------------

  /** All names of the table are tidy. */
  ghost predicate TidyTable(t: Table) {
    (forall i :: 0 <= i < |t.cmds| ==> Tidy(t.cmds[i].name)) && AllTidy(t.cats)
  }

  ghost predicate TidySubs(u: User) { forall id :: id in u.subs ==> AllTidy(u.subs[id]) }

  lemma {:induction false} CategoryTidy(u: User, cmds: seq<Cmd>, cat: string, v: bool)
    requires TidySubs(u)
    ensures TidySubs(SetCategory(u, cmds, cat, v))
    decreases |cmds|
  {
    if cmds != [] {
      var c := cmds[0];
      CategoryTidy(if !c.loaded && cat in c.cats then SetCommand(u, c.id, v) else u, cmds[1..], cat, v);
    }
  }

  lemma AddSubTidy(u: User, id: nat, sub: string)
    requires TidySubs(u) && Tidy(sub)
    ensures TidySubs(AddSub(u, id, sub))
  {
    hide Fold, Tidy;
  }

  /** A tidy rule leaves the subcommands tidy. */
  lemma RuleTidy(t: Table, u: User, op: string)
    requires TidySubs(u) && Tidy(op) && SetUser(t, u, op).Ok?
    ensures TidySubs(SetUser(t, u, op).user)
  {
    hide Fold, Lookup, SetCategory, AddSub, TidySubs, Tidy;
    AnyTidy(u);
    if |op| > 1 && op[1] == '@' {
      CategoryTidy(u, t.cmds, Fold(op[2..]), op[0] == '+');
    } else if op != "" {
      var bar := Find(op, '|');
      var c := Lookup(t.cmds, op[1..]);
      if c.Some? { SetTidy(u, c.value.id, false); }
      if bar >= 1 {
        var d := Lookup(t.cmds, op[1..bar]);
        if d.Some? {
          SetTidy(u, d.value.id, true);
          if bar < |op| {
            TidyTail(op, bar + 1);
            AddSubTidy(u, d.value.id, op[bar + 1..]);
          }
        }
      }
    }
  }

  lemma AnyTidy(u: User)
    ensures TidySubs(User(seq(|u.bits|, _ => true), true, map[]))
    ensures TidySubs(User(seq(|u.bits|, _ => false), false, map[]))
  {}

  lemma SetTidy(u: User, id: nat, v: bool)
    requires TidySubs(u)
    ensures TidySubs(SetCommand(u, id, v))
  {}

  /** So do many. */
  lemma {:induction false} RulesTidy(t: Table, rules: seq<string>)
    requires AllTidy(rules) && Replay(t, Fresh(), rules).Ok?
    ensures TidySubs(Replay(t, Fresh(), rules).user)
  {
    if rules != [] {
      var init := rules[..|rules| - 1];
      RulesTidy(t, init);
      hide SetUser, TidySubs, Tidy;
      RuleTidy(t, Replay(t, Fresh(), init).user, rules[|rules| - 1]);
    }
  }
}
