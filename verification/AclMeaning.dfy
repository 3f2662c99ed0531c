/** What ACL rules mean: which commands a user may run, as the texts of its rules say. */
module AclMeaning {
  import opened Common
  import opened Acl
  import opened AclDescribe
  import opened AclRoundTrip

  // ------------------------------------------------------------------
  // Rules
  // ------------------------------------------------------------------

  /** All commands, those of a category, one command, one of its subcommands, or something else than commands. */
  datatype Rule =
    | All(v: bool)
    | Category(cat: string, v: bool)
    | Command(i: nat, v: bool)
    | Sub(i: nat, sub: string)
    | Other

  function Sign(v: bool): string { if v then "+" else "-" }

  /** The words for all and for none, in lower case. */
  predicate ForAll(word: string, v: bool) {
    if v then word == "allcommands" || word == "+@all" else word == "nocommands" || word == "-@all" || word == "reset"
  }

  /** The text `op` is the rule, names in any case. */
  ghost predicate Spells(t: Table, op: string, rule: Rule) {
    match rule
    case All(v) => ForAll(Fold(op), v)
    case Category(cat, v) =>
      && cat in t.cats && !ForAll(Fold(op), true) && !ForAll(Fold(op), false)
      && |op| >= 2 && op[..2] == Sign(v) + "@" && Fold(op[2..]) == cat
    case Command(i, v) => i < |t.cmds| && op != "" && op[..1] == Sign(v) && Fold(op[1..]) == t.cmds[i].name
    case Sub(i, sub) =>
      && i < |t.cmds| && sub != "" && |op| == 1 + |t.cmds[i].name| + 1 + |sub|
      && op[0] == '+' && Fold(op[1..|t.cmds[i].name| + 1]) == t.cmds[i].name
      && op[|t.cmds[i].name| + 1] == '|' && op[|t.cmds[i].name| + 2..] == sub
    case Other => (op == "" || (op[0] != '+' && op[0] != '-')) && !ForAll(Fold(op), true) && !ForAll(Fold(op), false)
  }

  /** A command of the category that no module brought has this ID. */
  ghost predicate InCategory(cmds: seq<Cmd>, cat: string, id: nat) {
    exists i :: 0 <= i < |cmds| && cmds[i].id == id && !cmds[i].loaded && cat in cmds[i].cats
  }

  /** What a rule says about the command with this ID, if anything. */
  ghost function Says(t: Table, rule: Rule, id: nat): Option<bool> {
    match rule
    case All(v) => Some(v)
    case Category(cat, v) => if InCategory(t.cmds, cat, id) then Some(v) else None
    case Command(i, v) => if i < |t.cmds| && t.cmds[i].id == id then Some(v) else None
    case Sub(_, _) => None
    case Other => None
  }

  /** The rule adds a subcommand to this command. */
  ghost predicate Adds(t: Table, rule: Rule, id: nat) { rule.Sub? && rule.i < |t.cmds| && t.cmds[rule.i].id == id }

  /** The bits of exactly those commands that the rule speaks of are as it says, and their subcommands are gone. A
      subcommand is added, once, to a command that is off. The flag stays unless the rule takes something away. */
  ghost predicate Means(t: Table, rule: Rule, u: User, r: User) {
    && |r.bits| == |u.bits|
    && (forall id :: 0 <= id < |u.bits| ==>
          r.bits[id] == if Says(t, rule, id).Some? then Says(t, rule, id).value else u.bits[id])
    && (forall id :: id in r.subs <==> Says(t, rule, id).None? && (id in u.subs || (Adds(t, rule, id) && !Bit(u, id))))
    && (forall id :: id in r.subs ==>
          r.subs[id] == if Adds(t, rule, id) && !Bit(u, id) && !HasSub(SubsOf(u, id), rule.sub)
                        then SubsOf(u, id) + [rule.sub] else SubsOf(u, id))
    && (r.all <==> rule == All(true) || (u.all && !TakesAway(t, rule)))
  }

  ghost predicate TakesAway(t: Table, rule: Rule) {
    match rule
    case All(v) => !v
    case Category(cat, v) => !v && exists i :: 0 <= i < |t.cmds| && !t.cmds[i].loaded && cat in t.cmds[i].cats
    case Command(_, v) => !v
    case Sub(_, _) => false
    case Other => false
  }

  // ------------------------------------------------------------------
  // Every rule does what it says
  // ------------------------------------------------------------------

  /** `r` is `u` with what a category says. */
  ghost predicate ByCategory(cmds: seq<Cmd>, cat: string, v: bool, u: User, r: User) {
    && |r.bits| == |u.bits|
    && (forall id :: 0 <= id < |u.bits| ==> r.bits[id] == if InCategory(cmds, cat, id) then v else u.bits[id])
    && r.subs == (map id | id in u.subs && !InCategory(cmds, cat, id) :: u.subs[id])
    && (r.all <==> u.all && (v || forall i :: 0 <= i < |cmds| ==> cmds[i].loaded || cat !in cmds[i].cats))
  }

  lemma InCategoryCons(cmds: seq<Cmd>, cat: string, id: nat)
    requires cmds != []
    ensures InCategory(cmds, cat, id)
            <==> (cmds[0].id == id && !cmds[0].loaded && cat in cmds[0].cats) || InCategory(cmds[1..], cat, id)
  {
    if i :| 0 <= i < |cmds| && cmds[i].id == id && !cmds[i].loaded && cat in cmds[i].cats {
      if i > 0 { assert cmds[1..][i - 1] == cmds[i]; }
    }
    if i :| 0 <= i < |cmds[1..]| && cmds[1..][i].id == id && !cmds[1..][i].loaded && cat in cmds[1..][i].cats {
      assert cmds[i + 1] == cmds[1..][i];
    }
  }

  /** One command more in front. */
  lemma ByCategoryCons(cmds: seq<Cmd>, cat: string, v: bool, u: User, w: User, r: User)
    requires cmds != [] && cmds[0].id < |u.bits| && ByCategory(cmds[1..], cat, v, w, r)
    requires w == if !cmds[0].loaded && cat in cmds[0].cats then SetCommand(u, cmds[0].id, v) else u
    ensures ByCategory(cmds, cat, v, u, r)
  {
    var c := cmds[0];
    forall id: nat
      ensures InCategory(cmds, cat, id)
              <==> (c.id == id && !c.loaded && cat in c.cats) || InCategory(cmds[1..], cat, id)
    {
      InCategoryCons(cmds, cat, id);
    }
    assert forall i :: 0 < i < |cmds| ==> cmds[i] == cmds[1..][i - 1];
    hide InCategory;
    assert r.subs == (map id | id in u.subs && !InCategory(cmds, cat, id) :: u.subs[id]);
  }

  lemma {:induction false} CategoryMeans(cmds: seq<Cmd>, cat: string, v: bool, u: User)
    requires forall i :: 0 <= i < |cmds| ==> cmds[i].id < |u.bits|
    ensures ByCategory(cmds, cat, v, u, SetCategory(u, cmds, cat, v))
    decreases |cmds|
  {
    if cmds == [] {
      assert SetCategory(u, cmds, cat, v) == u;
    } else {
      var c := cmds[0];
      var w := if !c.loaded && cat in c.cats then SetCommand(u, c.id, v) else u;
      assert |w.bits| == |u.bits| && forall i :: 0 <= i < |cmds[1..]| ==> cmds[1..][i] == cmds[i + 1];
      CategoryMeans(cmds[1..], cat, v, w);
      hide ByCategory, SetCommand;
      ByCategoryCons(cmds, cat, v, u, w, SetCategory(u, cmds, cat, v));
    }
  }

  /** A name is found in any case. */
  lemma FoundByName(t: Table, x: string, i: nat)
    requires TableOk(t) && i < |t.cmds| && Fold(x) == t.cmds[i].name
    ensures Lookup(t.cmds, x) == Some(t.cmds[i])
  {
    hide Fold, Lookup, NameOk;
    var c := Lookup(t.cmds, x);
    if c.Some? {
      var j :| 0 <= j < |t.cmds| && t.cmds[j] == c.value;
      assert j == i;
    }
  }

  /** A name of the table has no bar and does not begin with an at sign, in any case. */
  lemma NameInText(x: string, name: string)
    requires NameOk(name) && Fold(x) == name
    ensures x != "" && x[0] != '@' && '|' !in x && |x| == |name|
  {
    forall k | 0 <= k < |x| ensures x[k] != '|' { assert name[k] == Lower(x[k]) && name[k] in name; }
    assert name[0] == Lower(x[0]);
  }

  /** The words for all and none begin otherwise than a rule for one command. */
  lemma NotForAll(op: string)
    requires op != "" && (op[0] == '+' || op[0] == '-') && (|op| > 1 ==> op[1] != '@')
    ensures !ForAll(Fold(op), true) && !ForAll(Fold(op), false)
  {
    assert Fold(op)[0] == op[0];
    if |op| > 1 { assert Fold(op)[1] == Lower(op[1]) != '@'; }
  }

  lemma CommandMeans(t: Table, u: User, op: string, rule: Rule)
    requires TableOk(t) && |u.bits| == BITS && rule.Command? && Spells(t, op, rule)
    ensures SetUser(t, u, op) == Ok(SetCommand(u, t.cmds[rule.i].id, rule.v))
  {
    var x, name := op[1..], t.cmds[rule.i].name;
    assert NameOk(name);
    NameInText(x, name);
    FoundByName(t, x, rule.i);
    assert op == Sign(rule.v) + x && op[1] == x[0] && op[1..|op|] == x;
    NotForAll(op);
    FindIs(op, '|', |op|);
    hide Fold, Lookup, SetCommand, Find, TableOk;
  }

  lemma SubMeans(t: Table, u: User, op: string, rule: Rule)
    requires TableOk(t) && |u.bits| == BITS && rule.Sub? && Spells(t, op, rule)
    ensures var id := t.cmds[rule.i].id;
            SetUser(t, u, op) == Ok(if Bit(u, id) then u else AddSub(u, id, rule.sub))
  {
    var name := t.cmds[rule.i].name;
    var bar := |name| + 1;
    var x := op[1..bar];
    assert NameOk(name);
    NameInText(x, name);
    FoundByName(t, x, rule.i);
    assert op[1] == x[0] && forall k :: 1 <= k < bar ==> op[k] == x[k - 1];
    NotForAll(op);
    FindIs(op, '|', bar);
    hide Fold, Lookup, AddSub, Find, TableOk;
  }

  lemma CategoryRuleMeans(t: Table, u: User, op: string, rule: Rule)
    requires TableOk(t) && |u.bits| == BITS && rule.Category? && Spells(t, op, rule)
    ensures SetUser(t, u, op) == Ok(SetCategory(u, t.cmds, rule.cat, rule.v))
  {
    assert op[..2][0] == op[0] && op[..2][1] == op[1];
    hide Fold, SetCategory, TableOk;
  }

  /** Every rule has exactly the effect that its text names: on all bits, all subcommands and the flag. */
  lemma RuleMeans(t: Table, u: User, op: string, rule: Rule)
    requires TableOk(t) && |u.bits| == BITS && Spells(t, op, rule)
    ensures SetUser(t, u, op).Ok? && Means(t, rule, u, SetUser(t, u, op).user)
  {
    hide *;
    match rule
    case All(v) => AllMeans(t, u, op, v);
    case Category(cat, v) =>
      CategoryRuleMeans(t, u, op, rule);
      IdsFit(t, op, rule);
      CategoryMeans(t.cmds, cat, v, u);
      ByCategoryMeans(t, u, SetCategory(u, t.cmds, cat, v), rule);
    case Command(i, v) =>
      CommandMeans(t, u, op, rule);
      IdsFit(t, op, rule);
      SetCommandMeans(t, u, rule);
    case Sub(i, sub) =>
      SubMeans(t, u, op, rule);
      IdsFit(t, op, rule);
      AddSubMeans(t, u, rule);
    case Other => OtherMeans(t, u, op);
  }

  lemma IdsFit(t: Table, op: string, rule: Rule)
    requires TableOk(t) && Spells(t, op, rule)
    ensures forall i :: 0 <= i < |t.cmds| ==> t.cmds[i].id < BITS
    ensures rule.Command? || rule.Sub? ==> rule.i < |t.cmds|
  {
    hide Fold, NameOk;
  }

  lemma AllMeans(t: Table, u: User, op: string, v: bool)
    requires Spells(t, op, All(v))
    ensures SetUser(t, u, op).Ok? && Means(t, All(v), u, SetUser(t, u, op).user)
  {
    hide Fold;
  }

  lemma OtherMeans(t: Table, u: User, op: string)
    requires Spells(t, op, Other)
    ensures SetUser(t, u, op).Ok? && Means(t, Other, u, SetUser(t, u, op).user)
  {
    hide Fold;
  }

  lemma ByCategoryMeans(t: Table, u: User, r: User, rule: Rule)
    requires rule.Category? && ByCategory(t.cmds, rule.cat, rule.v, u, r)
    ensures Means(t, rule, u, r)
  {
    hide InCategory;
  }

  lemma SetCommandMeans(t: Table, u: User, rule: Rule)
    requires rule.Command? && rule.i < |t.cmds| && t.cmds[rule.i].id < |u.bits|
    ensures Means(t, rule, u, SetCommand(u, t.cmds[rule.i].id, rule.v))
  {}

  lemma AddSubMeans(t: Table, u: User, rule: Rule)
    requires rule.Sub? && rule.i < |t.cmds|
    ensures var id := t.cmds[rule.i].id;
            Means(t, rule, u, if Bit(u, id) then u else AddSub(u, id, rule.sub))
  {
    NoSub(rule.sub);
    hide HasSub, Fold;
  }

  /** And a text that is no rule is refused. */
  lemma Spelled(t: Table, u: User, op: string) returns (rule: Rule)
    requires SetUser(t, u, op).Ok?
    ensures Spells(t, op, rule)
  {
    hide Fold, Lookup, SetCategory, SetCommand, AddSub, Find;
    if ForAll(Fold(op), true) {
      rule := All(true);
    } else if ForAll(Fold(op), false) {
      rule := All(false);
    } else if op == "" || (op[0] != '+' && op[0] != '-') {
      rule := Other;
    } else {
      var v := op[0] == '+';
      assert op[..1] == Sign(v);
      if |op| > 1 && op[1] == '@' {
        rule := Category(Fold(op[2..]), v);
        assert op[..2] == Sign(v) + "@";
      } else {
        var bar := if v then Find(op, '|') else |op|;
        assert op[1..|op|] == op[1..];
        var c := Lookup(t.cmds, op[1..bar]).value;
        var i :| 0 <= i < |t.cmds| && t.cmds[i] == c;
        rule := if bar == |op| then Command(i, v) else Sub(i, op[bar + 1..]);
        assert |Fold(op[1..bar])| == bar - 1;
      }
    }
  }

  // ------------------------------------------------------------------
  // Many rules
  // ------------------------------------------------------------------

  /** What the last rule that speaks of the command says. */
  ghost function Decided(t: Table, rules: seq<Rule>, id: nat): Option<bool> {
    if rules == [] then None
    else if Says(t, rules[|rules| - 1], id).Some? then Says(t, rules[|rules| - 1], id)
    else Decided(t, rules[..|rules| - 1], id)
  }

  /** Since then a rule has added the subcommand. */
  ghost predicate NamedSince(t: Table, rules: seq<Rule>, id: nat, sub: string) {
    rules != [] &&
    var last := rules[|rules| - 1];
    && Says(t, last, id).None?
    && ((Adds(t, last, id) && Fold(last.sub) == Fold(sub)) || NamedSince(t, rules[..|rules| - 1], id, sub))
  }

  ghost predicate AllSpelled(t: Table, ops: seq<string>, rules: seq<Rule>) {
    |ops| == |rules| && forall k :: 0 <= k < |ops| ==> Spells(t, ops[k], rules[k])
  }

  lemma HasSubMore(subs: seq<string>, more: string, sub: string)
    ensures HasSub(subs + [more], sub) <==> HasSub(subs, sub) || Fold(more) == Fold(sub)
  {
    hide Fold;
    if HasSub(subs, sub) {
      var i :| 0 <= i < |subs| && Fold(subs[i]) == Fold(sub);
      assert (subs + [more])[i] == subs[i];
    }
    if Fold(more) == Fold(sub) { assert (subs + [more])[|subs|] == more; }
  }

  lemma HasSubFold(subs: seq<string>, a: string, b: string)
    requires Fold(a) == Fold(b)
    ensures HasSub(subs, a) <==> HasSub(subs, b)
  {
    hide Fold;
  }

  /** One rule more. */
  lemma MeansNext(t: Table, rules: seq<Rule>, u: User, r: User, id: nat, sub: string)
    requires rules != [] && id < |u.bits| && Means(t, rules[|rules| - 1], u, r)
    requires var init := rules[..|rules| - 1];
             && (Bit(u, id) <==> Decided(t, init, id) == Some(true))
             && (!Bit(u, id) ==> (HasSub(SubsOf(u, id), sub) <==> NamedSince(t, init, id, sub)))
    ensures Bit(r, id) <==> Decided(t, rules, id) == Some(true)
    ensures !Bit(r, id) ==> (HasSub(SubsOf(r, id), sub) <==> NamedSince(t, rules, id, sub))
  {
    var last := rules[|rules| - 1];
    hide Fold, Says;
    if Says(t, last, id).None? && !Bit(u, id) && Adds(t, last, id) {
      HasSubMore(SubsOf(u, id), last.sub, sub);
      if Fold(last.sub) == Fold(sub) { HasSubFold(SubsOf(u, id), last.sub, sub); }
      hide HasSub;
    } else {
      assert !Bit(r, id) && Says(t, last, id).Some? ==> SubsOf(r, id) == [];
      assert Says(t, last, id).None? ==> SubsOf(r, id) == SubsOf(u, id);
    }
  }

  lemma {:induction false} RulesMean(t: Table, ops: seq<string>, rules: seq<Rule>, id: nat, sub: string)
    requires TableOk(t) && AllSpelled(t, ops, rules) && id < BITS
    ensures var r := Replay(t, Fresh(), ops);
            && r.Ok? && |r.user.bits| == BITS
            && (Bit(r.user, id) <==> Decided(t, rules, id) == Some(true))
            && (!Bit(r.user, id) ==> (HasSub(SubsOf(r.user, id), sub) <==> NamedSince(t, rules, id, sub)))
  {
    hide TableOk, SetUser, Spells, HasSub;
    if ops == [] {
      NoSub(sub);
    } else {
      var n := |ops| - 1;
      RulesMean(t, ops[..n], rules[..n], id, sub);
      var u := Replay(t, Fresh(), ops[..n]).user;
      RuleMeans(t, u, ops[n], rules[n]);
      var r := SetUser(t, u, ops[n]).user;
      assert |r.bits| == BITS;
      hide Means, Decided, NamedSince;
      MeansNext(t, rules, u, r, id, sub);
    }
  }

  lemma NoSub(sub: string)
    ensures !HasSub([], sub)
  {}

  // ------------------------------------------------------------------
  // Who may run what
  // ------------------------------------------------------------------

  /** The part of ACLCheckCommandPerm about commands. `noAuth` is the flag of commands that need no authentication. */
  method CheckCommandPerm(u: AclUser, id: nat, argv: seq<string>, noAuth: bool) returns (allowed: bool)
    requires id < u.bits.Length
    ensures allowed <==> noAuth || u.all || u.bits[id] || (|argv| >= 2 && HasSub(SubsOf(u.Abs(), id), argv[1]))
  {
    if !u.all && !noAuth && !u.bits[id] {
      if |argv| < 2 || id !in u.subs { return false; }
      var subs := u.subs[id];
      var i := 0;
      while i < |subs|
        invariant i <= |subs| && forall k :: 0 <= k < i ==> Fold(subs[k]) != Fold(argv[1])
      {
        if Fold(argv[1]) == Fold(subs[i]) { return true; }
        i := i + 1;
      }
      return false;
    }
    return true;
  }

  ghost predicate Allows(u: User, id: nat, argv: seq<string>) {
    u.all || Bit(u, id) || (|argv| >= 2 && HasSub(SubsOf(u, id), argv[1]))
  }

  /** A user may run a command exactly when the last of its rules that speaks of the command grants it, or when a rule
      since then has added the subcommand that is called. */
  lemma AllowedByRules(t: Table, ops: seq<string>, rules: seq<Rule>, id: nat, argv: seq<string>)
    requires TableOk(t) && AllSpelled(t, ops, rules) && id < BITS
    ensures var r := Replay(t, Fresh(), ops);
            && r.Ok?
            && (Allows(r.user, id, argv)
                <==> Decided(t, rules, id) == Some(true) || (|argv| >= 2 && NamedSince(t, rules, id, argv[1])))
  {
    RulesMean(t, ops, rules, id, if |argv| >= 2 then argv[1] else "");
    ReplayKeeps(t, ops);
    var u := Replay(t, Fresh(), ops).user;
    assert UserOk(t, u);
    assert u.all ==> u.bits[id];
    hide UserOk, Replay, HasSub, NamedSince, Decided, AllSpelled, TableOk;
  }

  /** The flag decides nothing: users with the same bits and subcommands may run the same commands. */
  lemma SameAllows(t: Table, u: User, v: User, id: nat, argv: seq<string>)
    requires UserOk(t, u) && UserOk(t, v) && Same(u, v) && id < BITS
    ensures Allows(u, id, argv) <==> Allows(v, id, argv)
  {
    hide HasSub;
  }
}
