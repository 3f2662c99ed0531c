/** ACL SAVE and ACL LOAD: the users of a file, and when loading what was saved gives the same permissions. */
module AclFile {
  import opened Common
  import opened Acl
  import opened AclDescribe
  import opened AclLine
  import opened AclRoundTrip

  predicate IsSpace(c: char) { c as int == 0 || 9 <= c as int <= 13 || c == ' ' }

  /** ACLStringHasSpaces. */
  predicate HasSpaces(s: string) { exists i :: 0 <= i < |s| && IsSpace(s[i]) }

  // ------------------------------------------------------------------
  // Loading
  // ------------------------------------------------------------------

  /** ACLInitDefaultUser. */
  function Initial(): map<string, User> { map["default" := User(seq(BITS, _ => true), true, map[])] }

  /** A line is refused as a whole when it does not name a user or when one of its rules fails. */
  function LoadOne(t: Table, users: map<string, User>, e: seq<string>): Option<map<string, User>> {
    if |e| < 2 || e[0] != "user" || HasSpaces(e[1]) then None
    else
      var r := Replay(t, Fresh(), e[2..]);
      if r.Ok? then Some(users[e[1] := r.user]) else None
  }

  /** The lines one after the other. One that is refused makes the whole file fail. */
  function Load(t: Table, es: seq<seq<string>>): Option<map<string, User>> {
    if es == [] then Some(Initial())
    else
      var r := Load(t, es[..|es| - 1]);
      if r.Some? then LoadOne(t, r.value, es[|es| - 1]) else None
  }

  lemma LoadMore(t: Table, es: seq<seq<string>>, e: seq<string>)
    ensures Load(t, es + [e]) == var r := Load(t, es); if r.Some? then LoadOne(t, r.value, e) else None
  {
    hide LoadOne;
    assert (es + [e])[..|es|] == es;
  }

  /** A line that names a user and has only good rules. */
  ghost predicate GoodLine(t: Table, e: seq<string>) {
    |e| >= 2 && e[0] == "user" && (forall i :: 0 <= i < |e[1]| ==> !IsSpace(e[1][i])) && Replay(t, Fresh(), e[2..]).Ok?
  }

  /** The last line that names the user is this one. */
  ghost predicate LastFor(es: seq<seq<string>>, i: nat, name: string) {
    i < |es| && |es[i]| >= 2 && es[i][1] == name && forall j :: i < j < |es| && |es[j]| >= 2 ==> es[j][1] != name
  }

  /** The users are as the last lines that name them say, and the default user as at first if no line names it. */
  ghost predicate AsLastLines(t: Table, es: seq<seq<string>>, users: map<string, User>) {
    && (forall i: nat, name :: LastFor(es, i, name) ==>
          name in users && Ok(users[name]) == Replay(t, Fresh(), es[i][2..]))
    && (forall name :: name in users && (forall i: nat :: !LastFor(es, i, name)) ==>
          name == "default" && users[name] == User(seq(BITS, _ => true), true, map[]))
  }

  lemma LastForMore(es: seq<seq<string>>, i: nat, name: string)
    requires es != []
    ensures var n := |es| - 1;
            LastFor(es, i, name)
            <==> if i == n then |es[n]| >= 2 && es[n][1] == name
                 else LastFor(es[..n], i, name) && (|es[n]| >= 2 ==> es[n][1] != name)
  {}

  lemma OneLineMore(t: Table, es: seq<seq<string>>, users: map<string, User>)
    requires es != [] && AsLastLines(t, es[..|es| - 1], users) && GoodLine(t, es[|es| - 1])
    ensures var e := es[|es| - 1]; AsLastLines(t, es, users[e[1] := Replay(t, Fresh(), e[2..]).user])
  {
    hide Replay, IsSpace;
    var n := |es| - 1;
    var e, init := es[n], es[..n];
    var users' := users[e[1] := Replay(t, Fresh(), e[2..]).user];
    forall i: nat, name | LastFor(es, i, name)
      ensures name in users' && Ok(users'[name]) == Replay(t, Fresh(), es[i][2..])
    {
      LastForMore(es, i, name);
      if i != n { LastForIs(init, i, name); }
    }
    forall name | name in users' && (forall i: nat :: !LastFor(es, i, name))
      ensures name == "default" && users'[name] == User(seq(BITS, _ => true), true, map[])
    {
      LastForMore(es, n, name);
      forall i: nat ensures !LastFor(init, i, name) {
        LastForMore(es, i, name);
        if LastFor(init, i, name) { LastForIs(init, i, name); }
      }
    }
  }

  lemma LastForIs(es: seq<seq<string>>, i: nat, name: string)
    requires LastFor(es, i, name)
    ensures i < |es| && |es[i]| >= 2 && es[i][1] == name
  {}

  /** A file is loaded exactly when all its lines are good. Then every user that it names is as its last line says, and
      the default user is as at first if no line names it. */
  lemma {:induction false} LoadIff(t: Table, es: seq<seq<string>>)
    ensures Load(t, es).Some? <==> forall i :: 0 <= i < |es| ==> GoodLine(t, es[i])
    ensures Load(t, es).Some? ==> AsLastLines(t, es, Load(t, es).value)
  {
    if es == [] {
      assert forall i: nat, name :: !LastFor(es, i, name);
    } else {
      var n := |es| - 1;
      LoadIff(t, es[..n]);
      GoodLineIff(t, es[n]);
      hide GoodLine, AsLastLines, LoadOne;
      assert forall i :: 0 <= i < n ==> es[..n][i] == es[i];
      if Load(t, es[..n]).Some? && GoodLine(t, es[n]) { OneLineMore(t, es, Load(t, es[..n]).value); }
    }
  }

  lemma GoodLineIff(t: Table, e: seq<string>)
    ensures forall users :: LoadOne(t, users, e)
                            == if GoodLine(t, e) then Some(users[e[1] := Replay(t, Fresh(), e[2..]).user]) else None
  {
    hide Replay, IsSpace;
  }

  lemma {:induction false} EntriesMore(lines: seq<string>, line: string)
    ensures Entries(lines + [line]) == Entries(lines) + Entry(Trim(line, " \t\r\n"))
  {
    hide Trim, Entry;
    if lines == [] {
      assert lines + [line] == [line] && [line][1..] == [];
    } else {
      assert (lines + [line])[0] == lines[0] && (lines + [line])[1..] == lines[1..] + [line];
      EntriesMore(lines[1..], line);
    }
  }

  /** Rules applied one after the other to a new user; those behind one that fails are still applied. */
  method ApplyRules(t: Table, argv: seq<string>) returns (ok: bool, user: User)
    requires |argv| >= 2
    ensures ok <==> Replay(t, Fresh(), argv[2..]).Ok?
    ensures ok ==> Replay(t, Fresh(), argv[2..]) == Ok(user)
  {
    hide SetUser;
    var u := new AclUser();
    ok := true;
    assert argv[2..2] == [];
    for j := 2 to |argv|
      invariant fresh(u) && fresh(u.bits)
      invariant ok <==> Replay(t, Fresh(), argv[2..j]).Ok?
      invariant ok ==> Replay(t, Fresh(), argv[2..j]) == Ok(u.Abs())
    {
      assert argv[2..j + 1] == argv[2..j] + [argv[j]];
      ReplayOne(t, Fresh(), argv[2..j], argv[j]);
      var status := u.Rule(t, argv[j]);
      if !status.Success? { ok := false; }
    }
    assert argv[2..|argv|] == argv[2..];
    user := User(u.bits[..], u.all, u.subs);
  }

  /** One line that is not blank. The rules are tried on a user of their own first, so applying them cannot fail. */
  method LoadLine(t: Table, argv: seq<string>, users: map<string, User>, failed: bool)
    returns (ok: bool, users': map<string, User>, panics: bool)
    requires argv != []
    ensures !panics && (ok <==> LoadOne(t, users, argv).Some?)
    ensures users' == if ok && !failed then LoadOne(t, users, argv).value else users
  {
    hide SetUser;
    users', panics := users, false;
    if argv[0] != "user" || |argv| < 2 { return false, users', panics; }
    if HasSpaces(argv[1]) { return false, users', panics; }
    var tried;
    ok, tried := ApplyRules(t, argv);
    if !ok || failed { return; }
    var applied, user := ApplyRules(t, argv);
    panics := !applied;
    users' := users[argv[1] := user];
  }

  /** ACLLoadFromFile, with the text of the file. Either all of it is loaded or nothing. */
  method LoadFromFile(t: Table, text: string) returns (r: Option<map<string, User>>, panics: bool)
    ensures r == Load(t, Loaded(text)) && !panics
  {
    hide Split, Trim, LoadOne, Entries, SetUser;
    var lines := Split(text, '\n');
    var errors, users := false, Initial();
    panics := false;
    NoEntries(t, lines);
    for i := 0 to |lines|
      invariant !panics
      invariant Load(t, Entries(lines[..i])) == if errors then None else Some(users)
    {
      var line := Trim(lines[i], " \t\r\n");
      OneLine(t, lines, i);
      if line == "" { continue; }
      var ok, fails;
      ok, users, fails := LoadLine(t, Arguments(line), users, errors);
      if !ok { errors := true; }
      panics := panics || fails;
    }
    assert lines[..|lines|] == lines;
    r := if errors then None else Some(users);
  }

  lemma NoEntries(t: Table, lines: seq<string>)
    ensures Load(t, Entries(lines[..0])) == Some(Initial())
  {}

  lemma OneLine(t: Table, lines: seq<string>, i: nat)
    requires i < |lines|
    ensures var line, r := Trim(lines[i], " \t\r\n"), Load(t, Entries(lines[..i]));
            && Arguments(line) != []
            && Load(t, Entries(lines[..i + 1]))
            == if line == "" then r else if r.Some? then LoadOne(t, r.value, Arguments(line)) else None
  {
    hide Load, LoadOne, Entries, Trim;
    var line := Trim(lines[i], " \t\r\n");
    assert lines[..i + 1] == lines[..i] + [lines[i]];
    EntriesMore(lines[..i], lines[i]);
    assert Entries(lines[..i]) + [] == Entries(lines[..i]);
    LoadMore(t, Entries(lines[..i]), Arguments(line));
  }

  // ------------------------------------------------------------------
  // Saving
  // ------------------------------------------------------------------

  /** A user with a name, the rules that are not about commands, and the permissions. */
  datatype Account = Account(name: string, other: seq<string>, user: User)

  /** A rule that is not about commands. */
  predicate OfOtherKind(w: string) {
    w == "" || (w[0] != '+' && w[0] != '-' && Fold(w) !in {"allcommands", "nocommands", "reset"})
  }

  /** What ACLSetUser and ACL SETUSER allow: no white space in names, keys and channels; passwords are hashes. */
  ghost predicate AccountOk(t: Table, a: Account) {
    && !HasSpaces(a.name) && UserOk(t, a.user)
    && forall k :: 0 <= k < |a.other| ==> Clean(a.other[k]) && OfOtherKind(a.other[k])
  }

  function Words(a: Account, rules: seq<string>): seq<string> { ["user", a.name] + a.other + rules }

  function AllWords(accounts: seq<Account>, rules: seq<seq<string>>): (es: seq<seq<string>>)
    requires |rules| == |accounts|
    ensures |es| == |accounts|
  {
    seq(|accounts|, i requires 0 <= i < |accounts| => Words(accounts[i], rules[i]))
  }

  /** ACLDescribeUser and the text of one line. */
  method SaveUser(t: Table, name: string, other: seq<string>, u: AclUser) returns (line: string, rules: seq<string>)
    requires TableOk(t) && TidyTable(t) && UserOk(t, u.Abs())
    ensures Described(t, u.Abs(), rules) && line == Line(Words(Account(name, other, u.Abs()), rules))
  {
    hide Described, Replay, AllClean, TidySubs, UserOk, TableOk, TidyTable, Line, Words, AllSet;
    var panics;
    rules, panics := Describe(t, u);
    DescribedIs(t, u.Abs(), rules);
    line := Line(["user", name] + other + rules);
    WordsIs(Account(name, other, u.Abs()), rules);
  }

  /** The users of the file as they are now. */
  ghost function Accounts(names: seq<string>, others: seq<seq<string>>, us: seq<AclUser>): (r: seq<Account>)
    requires |names| == |others| == |us|
    reads us, set u | u in us :: u.bits
    ensures |r| == |us|
  {
    seq(|us|, i requires 0 <= i < |us| reads us, set u | u in us :: u.bits => Account(names[i], others[i], us[i].Abs()))
  }

  /** ACLSaveToFile, up to the writing of the file. */
  method SaveToFile(t: Table, names: seq<string>, others: seq<seq<string>>, us: seq<AclUser>)
    returns (text: string, rules: seq<seq<string>>)
    requires TableOk(t) && TidyTable(t) && |names| == |others| == |us|
    requires forall i :: 0 <= i < |us| ==> UserOk(t, us[i].Abs())
    ensures |rules| == |us| && forall i :: 0 <= i < |us| ==> Described(t, us[i].Abs(), rules[i])
    ensures text == Text(Lines(AllWords(Accounts(names, others, us), rules)))
  {
    hide TableOk, TidyTable, UserOk, Described, Line, Words, Text, Lines, AllWords;
    text, rules := "", [];
    ghost var accounts := Accounts(names, others, us);
    NothingYet(accounts);
    for i := 0 to |us|
      invariant |rules| == i && forall k :: 0 <= k < i ==> Described(t, us[k].Abs(), rules[k])
      invariant text == Text(Lines(AllWords(accounts[..i], rules)))
    {
      var line, more := SaveUser(t, names[i], others[i], us[i]);
      SavedMore(accounts, i, rules, more);
      text, rules := text + line + "\n", rules + [more];
    }
    assert accounts[..|us|] == accounts;
  }

  lemma NothingYet(accounts: seq<Account>)
    ensures Text(Lines(AllWords(accounts[..0], []))) == ""
  {}

  lemma SavedMore(accounts: seq<Account>, i: nat, rules: seq<seq<string>>, more: seq<string>)
    requires i < |accounts| && |rules| == i
    ensures Text(Lines(AllWords(accounts[..i + 1], rules + [more])))
         == Text(Lines(AllWords(accounts[..i], rules))) + Line(Words(accounts[i], more)) + "\n"
  {
    hide *;
    assert accounts[..i + 1][..i] == accounts[..i] && (rules + [more])[..i] == rules;
    AllWordsMore(accounts[..i + 1], rules + [more]);
    TextMore(AllWords(accounts[..i], rules), Words(accounts[i], more));
  }

  lemma {:induction false} TextMore(es: seq<seq<string>>, e: seq<string>)
    ensures Text(Lines(es + [e])) == Text(Lines(es)) + Line(e) + "\n"
  {
    hide Line;
    if es == [] {
      assert es + [e] == [e];
      assert Lines([e]) == [Line(e)] + [];
    } else {
      assert (es + [e])[0] == es[0] && (es + [e])[1..] == es[1..] + [e];
      TextMore(es[1..], e);
      LinesFirst(es);
      LinesFirst(es + [e]);
    }
  }

  lemma WordsIs(a: Account, rules: seq<string>)
    ensures Words(a, rules) == ["user", a.name] + a.other + rules
  {}

  lemma DescribedIs(t: Table, u: User, rules: seq<string>)
    requires rules != [] && Replay(t, Fresh(), rules).Ok? && (AllClean(rules) <==> TidySubs(u))
    requires var r := Replay(t, Fresh(), rules).user; r.bits == u.bits && r.subs == u.subs
    ensures Described(t, u, rules)
  {
    hide AllClean, TidySubs, Replay;
  }

  /** Rules are trimmed, the name is not: one with a tab in it is refused with its line. */
  lemma NameAsWritten(t: Table, users: map<string, User>, name: string, rest: string)
    requires ' ' !in name
    ensures var e := Arguments("user " + name + " " + rest);
            && |e| > 2 && e[0] == "user" && e[1] == name
            && (HasSpaces(name) ==> LoadOne(t, users, e) == None)
  {
    NamedLine(name, rest);
    hide Split, Trim;
  }

  lemma NamedLine(name: string, rest: string)
    requires ' ' !in name
    ensures Split("user " + name + " " + rest, ' ') == ["user", name] + Split(rest, ' ')
  {
    FirstWord("user", name + [' '] + rest, ' ');
    FirstWord(name, rest, ' ');
    hide Split;
    UserSpace(name, rest);
    TwoThen("user", name, Split(rest, ' '));
  }

  lemma UserSpace(name: string, rest: string)
    ensures "user" + [' '] + (name + [' '] + rest) == "user " + name + " " + rest
  {}

  lemma TwoThen<T>(a: T, b: T, s: seq<T>)
    ensures [a] + ([b] + s) == [a, b] + s
  {}

  /** What a saved user looks like. */
  lemma SavedExample(u: User)
    ensures Text(Lines(AllWords([Account("bob", ["on"], u)], [["+get"]]))) == "user bob on +get\n"
  {
    var words := ["user", "bob", "on", "+get"];
    assert Words(Account("bob", ["on"], u), ["+get"]) == words;
    assert AllWords([Account("bob", ["on"], u)], [["+get"]]) == [words];
    LineExample();
    hide Line;
    assert Lines([words]) == [Line(words)] + Lines([words][1..]) == [Line(words)];
    assert Text([Line(words)]) == Line(words) + "\n" + Text([Line(words)][1..]);
  }

  lemma LineExample()
    ensures Line(["user", "bob", "on", "+get"]) == "user bob on +get"
  {
    var a, b, c := ["user", "bob", "on", "+get"], ["bob", "on", "+get"], ["on", "+get"];
    assert a[1..] == b && b[1..] == c && c[1..] == ["+get"];
    hide Line;
    LineIs(["+get"]);
    LineIs(c);
    assert Line(c) == "on +get";
    LineIs(b);
    assert Line(b) == "bob on +get";
    LineIs(a);
  }

  // ------------------------------------------------------------------
  // There and back
  // ------------------------------------------------------------------

  lemma {:induction false} ReplayOther(t: Table, u: User, other: seq<string>)
    requires forall k :: 0 <= k < |other| ==> OfOtherKind(other[k])
    ensures Replay(t, u, other) == Ok(u)
  {
    if other != [] {
      var w := other[|other| - 1];
      ReplayOther(t, u, other[..|other| - 1]);
      OtherRule(t, u, w);
      hide SetUser, OfOtherKind;
    }
  }

  lemma OtherRule(t: Table, u: User, w: string)
    requires OfOtherKind(w)
    ensures SetUser(t, u, w) == Ok(u)
  {
    if w != "" {
      assert Fold(w)[0] == Lower(w[0]);
      assert "+@all"[0] == '+' && "-@all"[0] == '-';
    }
  }

  lemma {:induction false} ReplayConcat(t: Table, u: User, a: seq<string>, b: seq<string>)
    requires Replay(t, u, a).Ok?
    ensures Replay(t, u, a + b) == Replay(t, Replay(t, u, a).user, b)
    decreases |b|
  {
    hide SetUser;
    if b == [] {
      assert a + b == a;
    } else {
      assert (a + b)[..|a + b| - 1] == a + b[..|b| - 1];
      ReplayConcat(t, u, a, b[..|b| - 1]);
    }
  }

  /** A line of clean words makes the user it was saved for. */
  lemma WordsLoad(t: Table, users: map<string, User>, a: Account, rules: seq<string>)
    requires AccountOk(t, a) && Described(t, a.user, rules)
    ensures var r := Replay(t, Fresh(), rules);
            r.Ok? && LoadOne(t, users, Words(a, rules)) == Some(users[a.name := r.user]) && Same(r.user, a.user)
  {
    hide HasSpaces, UserOk, Replay, OfOtherKind, Clean, AllClean, TidySubs;
    var e := Words(a, rules);
    assert e[0] == "user" && e[1] == a.name && e[2..] == a.other + rules;
    ReplayOther(t, Fresh(), a.other);
    ReplayConcat(t, Fresh(), a.other, rules);
  }

  lemma NameClean(name: string)
    requires !HasSpaces(name)
    ensures Clean(name)
  {
    assert forall i :: 0 <= i < |name| ==> !IsSpace(name[i]);
  }

  lemma WordsWritable(t: Table, a: Account, rules: seq<string>)
    requires AccountOk(t, a) && rules != [] && AllClean(rules)
    ensures Writable(Words(a, rules))
  {
    NameClean(a.name);
    assert Clean("user");
    hide Clean, HasSpaces, UserOk, OfOtherKind;
    var e, n := Words(a, rules), |a.other|;
    assert e[|e| - 1] == rules[|rules| - 1];
    forall k | 0 <= k < |e| ensures Clean(e[k]) {
      if 2 <= k < 2 + n { assert e[k] == a.other[k - 2]; }
      if k >= 2 + n { assert e[k] == rules[k - 2 - n]; }
    }
  }

  ghost predicate Distinct(accounts: seq<Account>) {
    forall i, j :: 0 <= i < j < |accounts| ==> accounts[i].name != accounts[j].name
  }

  /** Every account is there with its permissions. */
  ghost predicate Restored(users: map<string, User>, accounts: seq<Account>) {
    forall i :: 0 <= i < |accounts| ==> accounts[i].name in users && Same(users[accounts[i].name], accounts[i].user)
  }

  ghost function Names(accounts: seq<Account>): set<string> { set i | 0 <= i < |accounts| :: accounts[i].name }

  /** What is asked of the accounts and of the rules printed for them. */
  ghost predicate Printed(t: Table, accounts: seq<Account>, rules: seq<seq<string>>) {
    && |rules| == |accounts| && Distinct(accounts)
    && forall i :: 0 <= i < |accounts| ==> AccountOk(t, accounts[i]) && Described(t, accounts[i].user, rules[i])
  }

  lemma PrintedFewer(t: Table, accounts: seq<Account>, rules: seq<seq<string>>)
    requires Printed(t, accounts, rules) && accounts != []
    ensures var n := |accounts| - 1;
            && |rules| == n + 1 && Printed(t, accounts[..n], rules[..n]) && Distinct(accounts)
            && AccountOk(t, accounts[n]) && Described(t, accounts[n].user, rules[n])
  {
    hide AccountOk, Described;
  }

  lemma {:induction false} LoadWords(t: Table, accounts: seq<Account>, rules: seq<seq<string>>)
    requires Printed(t, accounts, rules)
    ensures var r := Load(t, AllWords(accounts, rules));
            r.Some? && Restored(r.value, accounts) && r.value.Keys == {"default"} + Names(accounts)
  {
    hide AccountOk, Described, Same, Words, LoadOne, Replay;
    if accounts == [] {
      assert Initial().Keys == {"default"};
    } else {
      var n := |accounts| - 1;
      PrintedFewer(t, accounts, rules);
      hide Load, Initial, Restored, Names, AllWords, Printed, Distinct;
      AllWordsMore(accounts, rules);
      LoadWords(t, accounts[..n], rules[..n]);
      var es := AllWords(accounts[..n], rules[..n]);
      LoadMore(t, es, Words(accounts[n], rules[n]));
      WordsLoad(t, Load(t, es).value, accounts[n], rules[n]);
      RestoredMore(Load(t, es).value, accounts, Replay(t, Fresh(), rules[n]).user);
      NamesMore(accounts);
    }
  }

  lemma AllWordsMore(accounts: seq<Account>, rules: seq<seq<string>>)
    requires accounts != [] && |rules| == |accounts|
    ensures var n := |accounts| - 1;
            AllWords(accounts, rules) == AllWords(accounts[..n], rules[..n]) + [Words(accounts[n], rules[n])]
  {
    hide Words;
  }

  lemma NamesMore(accounts: seq<Account>)
    requires accounts != []
    ensures Names(accounts) == Names(accounts[..|accounts| - 1]) + {accounts[|accounts| - 1].name}
  {
    var n := |accounts| - 1;
    forall i | 0 <= i < |accounts| ensures accounts[i].name in Names(accounts[..n]) + {accounts[n].name} {
      if i < n { assert accounts[..n][i] == accounts[i]; }
    }
    forall i | 0 <= i < n ensures accounts[..n][i].name in Names(accounts) { assert accounts[..n][i] == accounts[i]; }
  }

  lemma RestoredMore(users: map<string, User>, accounts: seq<Account>, r: User)
    requires accounts != [] && Distinct(accounts) && Restored(users, accounts[..|accounts| - 1])
    requires Same(r, accounts[|accounts| - 1].user)
    ensures Restored(users[accounts[|accounts| - 1].name := r], accounts)
  {
    hide Same;
    var n := |accounts| - 1;
    forall i | 0 <= i < n ensures accounts[i].name in users && Same(users[accounts[i].name], accounts[i].user) {
      assert accounts[..n][i] == accounts[i];
    }
  }

  /** Users that are loaded from tidy rules have tidy subcommands. */
  lemma {:induction false} LoadTidy(t: Table, es: seq<seq<string>>)
    requires (forall e :: e in es ==> TidyRules(e)) && Load(t, es).Some?
    ensures forall name :: name in Load(t, es).value ==> TidySubs(Load(t, es).value[name])
  {
    if es != [] {
      var init, e := es[..|es| - 1], es[|es| - 1];
      LoadTidy(t, init);
      hide SetUser, TidySubs;
      assert TidyRules(e);
      assert AllTidy(e[2..]) by { hide Tidy; }
      RulesTidy(t, e[2..]);
    }
  }

  /** Loading the file that was saved brings every account back with its permissions if and only if all subcommands
      are tidy: no blank and no newline in them, and no tab or carriage return at their end. */
  lemma SaveLoad(t: Table, accounts: seq<Account>, rules: seq<seq<string>>)
    requires Printed(t, accounts, rules)
    ensures var r := Load(t, Loaded(Text(Lines(AllWords(accounts, rules)))));
            && (r.Some? && Restored(r.value, accounts)
                <==> forall i :: 0 <= i < |accounts| ==> TidySubs(accounts[i].user))
            && (r.Some? && Restored(r.value, accounts) ==> r.value.Keys == {"default"} + Names(accounts))
  {
    var es := AllWords(accounts, rules);
    var loaded := Loaded(Text(Lines(es)));
    LoadWords(t, accounts, rules);
    LoadedTidy(Text(Lines(es)));
    hide Load, Loaded, Text, Lines, AllWords, TidySubs, Names;
    if Load(t, loaded).Some? && Restored(Load(t, loaded).value, accounts) {
      LoadTidy(t, loaded);
      forall i | 0 <= i < |accounts| ensures TidySubs(accounts[i].user) {
        SameTidy(Load(t, loaded).value[accounts[i].name], accounts[i].user);
      }
    }
    if forall i :: 0 <= i < |accounts| ==> TidySubs(accounts[i].user) { TidySaved(t, accounts, rules); }
  }

  lemma SameTidy(r: User, u: User)
    requires Same(r, u) && TidySubs(r)
    ensures TidySubs(u)
  {}

  lemma TidySaved(t: Table, accounts: seq<Account>, rules: seq<seq<string>>)
    requires Printed(t, accounts, rules) && forall i :: 0 <= i < |accounts| ==> TidySubs(accounts[i].user)
    ensures Loaded(Text(Lines(AllWords(accounts, rules)))) == AllWords(accounts, rules)
  {
    var es := AllWords(accounts, rules);
    hide AccountOk, TidySubs, AllClean, Writable, Loaded, Text, Lines, Words;
    forall i | 0 <= i < |es| ensures Writable(es[i]) { WordsWritable(t, accounts[i], rules[i]); }
    SavedLoads(es);
  }
}
