/** ACLDescribeUserCommandRules: the rules it prints make the same permissions again. */
module AclRoundTrip {
  import opened Acl
  import opened AclDescribe
  import opened AclLine

  // ------------------------------------------------------------------
  // What replaying keeps
  // ------------------------------------------------------------------

  lemma FreshOk(t: Table)
    ensures UserOk(t, Fresh())
  {}

  lemma {:induction false} ReplayKeeps(t: Table, rules: seq<string>)
    requires TableOk(t) && Replay(t, Fresh(), rules).Ok?
    ensures UserOk(t, Replay(t, Fresh(), rules).user)
  {
    if rules == [] {
      FreshOk(t);
    } else {
      var init := rules[..|rules| - 1];
      hide UserOk, SetUser, TableOk;
      ReplayKeeps(t, init);
      SetUserKeeps(t, Replay(t, Fresh(), init).user, rules[|rules| - 1]);
    }
  }

  lemma {:induction false} SetCategoryShape(u: User, cmds: seq<Cmd>, cat: string, v: bool)
    requires |u.bits| == BITS && forall i :: 0 <= i < |cmds| ==> cmds[i].id < FUTURE
    ensures var w := SetCategory(u, cmds, cat, v);
            |w.bits| == BITS && w.bits[FUTURE] == u.bits[FUTURE] && (u.subs == map[] ==> w.subs == map[])
    decreases |cmds|
  {
    if cmds != [] {
      var c := cmds[0];
      SetCategoryShape(if !c.loaded && cat in c.cats then SetCommand(u, c.id, v) else u, cmds[1..], cat, v);
    }
  }

  ghost predicate AllSet(bits: seq<bool>) { forall id :: 0 <= id < |bits| ==> bits[id] }

  /** Distinct IDs below the reserved one: there are not many commands. */
  lemma FewCommands(t: Table)
    requires TableOk(t)
    ensures |t.cmds| < INT_MAX
  {
    Pigeonhole(t.cmds, FUTURE);
  }

  lemma {:induction false} Pigeonhole(cmds: seq<Cmd>, n: nat)
    requires forall i :: 0 <= i < |cmds| ==> cmds[i].id < n
    requires forall i, j :: 0 <= i < j < |cmds| ==> cmds[i].id != cmds[j].id
    ensures |cmds| <= n
  {
    if cmds != [] {
      assert cmds[0].id < n;
      if exists i :: 0 <= i < |cmds| && cmds[i].id == n - 1 {
        var i :| 0 <= i < |cmds| && cmds[i].id == n - 1;
        Pigeonhole(cmds[..i] + cmds[i + 1..], n - 1);
      } else {
        Pigeonhole(cmds[1..], n - 1);
      }
    }
  }

  lemma {:induction false} NoneOff(u: User, cmds: seq<Cmd>, cat: string)
    requires |u.bits| == BITS && AllSet(u.bits) && forall i :: 0 <= i < |cmds| ==> cmds[i].id < BITS
    ensures CountBits(u, cmds, cat, false) == 0
  {
    if cmds != [] { NoneOff(u, cmds[..|cmds| - 1], cat); }
  }

  /** A user that may run everything is not described by categories. */
  lemma NothingToRemove(t: Table, u: User)
    requires TableOk(t) && |u.bits| == BITS && AllSet(u.bits)
    ensures forall j :: 0 <= j < |t.cats| ==> !Fits(u, t, false, j)
  {
    forall j | 0 <= j < |t.cats| ensures !Fits(u, t, false, j) { NoneOff(u, t.cmds, t.cats[j]); }
  }

  // ------------------------------------------------------------------
  // The last pass, command by command
  // ------------------------------------------------------------------

  ghost predicate IdIn(cmds: seq<Cmd>, id: nat) { exists k :: 0 <= k < |cmds| && cmds[k].id == id }

  ghost function SubsBefore(t: Table, u: User, i: nat): map<nat, seq<string>>
    requires i <= |t.cmds|
  {
    map id | id in u.subs && IdIn(t.cmds[..i], id) :: u.subs[id]
  }

  /** The bits of `f` are those of `u`, but for the commands from the i-th on. */
  ghost predicate SameBits(t: Table, u: User, f: User, i: nat)
    requires i <= |t.cmds|
  {
    |f.bits| == |u.bits| == BITS && forall id :: 0 <= id < BITS && !IdIn(t.cmds[i..], id) ==> f.bits[id] == u.bits[id]
  }

  ghost predicate Fixed(t: Table, u: User, f: User, i: nat)
    requires i <= |t.cmds|
  {
    SameBits(t, u, f, i) && f.subs == SubsBefore(t, u, i)
  }

  lemma StartFixed(t: Table, u: User, f: User)
    requires UserOk(t, u) && UserOk(t, f) && f.bits[FUTURE] == u.bits[FUTURE] && f.subs == map[]
    ensures Fixed(t, u, f, 0)
  {
    assert t.cmds[0..] == t.cmds && t.cmds[..0] == [];
    forall id | 0 <= id < BITS && !IdIn(t.cmds[0..], id) ensures f.bits[id] == u.bits[id] {
      assert !IsId(t, id);
    }
  }

  lemma EndFixed(t: Table, u: User, f: User)
    requires UserOk(t, u) && Fixed(t, u, f, |t.cmds|)
    ensures f.bits == u.bits && f.subs == u.subs
  {
    assert t.cmds[|t.cmds|..] == [] && t.cmds[..|t.cmds|] == t.cmds;
    forall id | id in u.subs ensures IdIn(t.cmds, id) { assert SubsOk(t, u, id); }
  }

  lemma IdNext(t: Table, i: nat, id: nat)
    requires i < |t.cmds|
    ensures IdIn(t.cmds[i..], id) <==> id == t.cmds[i].id || IdIn(t.cmds[i + 1..], id)
    ensures IdIn(t.cmds[..i + 1], id) <==> id == t.cmds[i].id || IdIn(t.cmds[..i], id)
  {
    var a, b := t.cmds[i..], t.cmds[i + 1..];
    if IdIn(a, id) {
      var k :| 0 <= k < |a| && a[k].id == id;
      if k > 0 { assert b[k - 1].id == id; }
    }
    if IdIn(b, id) {
      var k :| 0 <= k < |b| && b[k].id == id;
      assert a[k + 1].id == id;
    }
    if id == t.cmds[i].id { assert a[0].id == id && t.cmds[..i + 1][i].id == id; }
    if IdIn(t.cmds[..i], id) {
      var k :| 0 <= k < i && t.cmds[..i][k].id == id;
      assert t.cmds[..i + 1][k].id == id;
    }
    if IdIn(t.cmds[..i + 1], id) {
      var k :| 0 <= k < i + 1 && t.cmds[..i + 1][k].id == id;
      if k < i { assert t.cmds[..i][k].id == id; }
    }
  }

  lemma NotBefore(t: Table, i: nat)
    requires TableOk(t) && i < |t.cmds|
    ensures !IdIn(t.cmds[..i], t.cmds[i].id)
  {
    forall k | 0 <= k < i ensures t.cmds[..i][k].id != t.cmds[i].id {}
  }

  /** The rule for the command itself, if one is needed. */
  lemma FixBit(t: Table, u: User, f: User, i: nat)
    requires TableOk(t) && i < |t.cmds| && Fixed(t, u, f, i)
    ensures var id := t.cmds[i].id;
            var g := if f.bits[id] != u.bits[id] then SetCommand(f, id, u.bits[id]) else f;
            SameBits(t, u, g, i + 1) && g.subs == SubsBefore(t, u, i)
  {
    var id := t.cmds[i].id;
    NotBefore(t, i);
    forall d | 0 <= d < BITS && d != id && !IdIn(t.cmds[i + 1..], d) ensures f.bits[d] == u.bits[d] {
      IdNext(t, i, d);
    }
    hide IdIn;
  }

  /** `f` with the first `j` of the subcommands of a command. */
  ghost function WithSubs(f: User, id: nat, subs: seq<string>, j: nat): User
    requires j <= |subs|
  {
    if j == 0 then f else f.(subs := f.subs[id := subs[..j]])
  }

  lemma NextSub(f: User, id: nat, subs: seq<string>, j: nat)
    requires j < |subs| && NoRepeats(subs) && id !in f.subs
    ensures AddSub(WithSubs(f, id, subs, j), id, subs[j]) == WithSubs(f, id, subs, j + 1)
  {
    hide Fold;
    assert subs[..j + 1] == subs[..j] + [subs[j]];
  }

  lemma AllSubs(t: Table, u: User, f: User, i: nat)
    requires TableOk(t) && i < |t.cmds| && UserOk(t, u) && SameBits(t, u, f, i + 1) && f.subs == SubsBefore(t, u, i)
    ensures Fixed(t, u, WithSubs(f, t.cmds[i].id, SubsOf(u, t.cmds[i].id), |SubsOf(u, t.cmds[i].id)|), i + 1)
  {
    var id, subs := t.cmds[i].id, SubsOf(u, t.cmds[i].id);
    var g := WithSubs(f, id, subs, |subs|);
    if id in u.subs { assert SubsOk(t, u, id); }
    hide UserOk, TableOk, IdIn, SameBits;
    NextSubs(t, u, f, i);
    assert SameBits(t, u, g, i + 1) by { SameBitsAs(t, u, f, g, i + 1); }
  }

  lemma SameBitsAs(t: Table, u: User, f: User, g: User, i: nat)
    requires i <= |t.cmds| && SameBits(t, u, f, i) && g.bits == f.bits
    ensures SameBits(t, u, g, i)
  {
    hide IdIn;
  }

  lemma NextSubs(t: Table, u: User, f: User, i: nat)
    requires i < |t.cmds| && f.subs == SubsBefore(t, u, i) && (t.cmds[i].id in u.subs ==> u.subs[t.cmds[i].id] != [])
    ensures var id, subs := t.cmds[i].id, SubsOf(u, t.cmds[i].id);
            WithSubs(f, id, subs, |subs|).subs == SubsBefore(t, u, i + 1)
  {
    var id, subs := t.cmds[i].id, SubsOf(u, t.cmds[i].id);
    var g := WithSubs(f, id, subs, |subs|);
    assert subs[..|subs|] == subs;
    hide IdIn;
    forall d ensures d in g.subs <==> d in u.subs && IdIn(t.cmds[..i + 1], d) { IdNext(t, i, d); }
  }

  // ------------------------------------------------------------------
  // The printer
  // ------------------------------------------------------------------

  /** Replaying `rules` on a fresh user gives `r`. */
  ghost predicate Gives(t: Table, rules: seq<string>, r: User) { Replay(t, Fresh(), rules) == Ok(r) }

  lemma GivesMore(t: Table, rules: seq<string>, r: User, op: string, r': User)
    requires Gives(t, rules, r) && SetUser(t, r, op) == Ok(r')
    ensures Gives(t, rules + [op], r')
  {
    hide SetUser;
    ReplayOne(t, Fresh(), rules, op);
  }

  lemma TidySubRule(t: Table, i: nat, subs: seq<string>, j: nat, rules: seq<string>)
    requires TidyTable(t) && AllTidy(subs) && AllClean(rules) && i < |t.cmds| && j < |subs|
    ensures AllClean(rules + ["+" + t.cmds[i].name + "|" + subs[j]])
  {
    var name := t.cmds[i].name;
    assert Clean("+") && Tidy("|");
    hide Clean, Tidy;
    CleanConcat("+", name);
    CleanConcat("+" + name, "|");
    CleanConcat("+" + name + "|", subs[j]);
    CleanMore(rules, "+" + name + "|" + subs[j]);
  }

  lemma TidyRule(rules: seq<string>, sign: string, name: string)
    requires AllClean(rules) && Clean(sign) && sign != "" && Tidy(name)
    ensures AllClean(rules + [sign + name])
  {
    hide Clean, Tidy;
    CleanConcat(sign, name);
    CleanMore(rules, sign + name);
  }

  lemma TidyNames(t: Table)
    requires TidyTable(t)
    ensures forall i :: 0 <= i < |t.cmds| ==> Tidy(t.cmds[i].name)
    ensures forall j :: 0 <= j < |t.cats| ==> Tidy(t.cats[j])
    ensures Clean("+") && Clean("-") && Clean("+@") && Clean("-@")
  {
    assert Clean("+") && Clean("-") && Clean("+@") && Clean("-@");
    hide Tidy;
  }

  /** The subcommands of one command. */
  method DescribeSubs(t: Table, i: nat, subs: seq<string>, rules: seq<string>, ghost r: User)
    returns (rules': seq<string>)
    requires TableOk(t) && i < |t.cmds| && Gives(t, rules, r) && !Bit(r, t.cmds[i].id) && t.cmds[i].id !in r.subs
    requires NoRepeats(subs) && forall j :: 0 <= j < |subs| ==> subs[j] != ""
    ensures Gives(t, rules', WithSubs(r, t.cmds[i].id, subs, |subs|)) && rules <= rules'
    ensures subs == [] ==> rules' == rules
    ensures TidyTable(t) && AllTidy(subs) && AllClean(rules) ==> AllClean(rules')
  {
    hide Gives, NoRepeats, SetUser, AddSub, AllClean, TidyTable;
    rules' := rules;
    for j := 0 to |subs|
      invariant Gives(t, rules', WithSubs(r, t.cmds[i].id, subs, j)) && rules <= rules' && (j == 0 ==> rules' == rules)
      invariant TidyTable(t) && AllTidy(subs) && AllClean(rules) ==> AllClean(rules')
    {
      if TidyTable(t) && AllTidy(subs) && AllClean(rules) { TidySubRule(t, i, subs, j, rules'); }
      ghost var f := WithSubs(r, t.cmds[i].id, subs, j);
      SubRule(t, f, i, subs[j]);
      NextSub(r, t.cmds[i].id, subs, j);
      GivesMore(t, rules', f, "+" + t.cmds[i].name + "|" + subs[j], AddSub(f, t.cmds[i].id, subs[j]));
      rules' := rules' + ["+" + t.cmds[i].name + "|" + subs[j]];
    }
  }

  /** `f` with the bit of a command set as `v`. */
  ghost function Corrected(f: User, id: nat, v: bool): User { if Bit(f, id) != v then SetCommand(f, id, v) else f }

  /** The rule for the i-th command, if its bit is wrong. */
  method DescribeBit(t: Table, fake: AclUser, i: nat, v: bool, rules: seq<string>, ghost r: User)
    returns (more: seq<string>)
    requires TableOk(t) && i < |t.cmds| && Gives(t, rules, r) && fake.bits[..] == r.bits && |r.bits| == BITS
    modifies fake, fake.bits
    ensures Gives(t, more, Corrected(r, t.cmds[i].id, v)) && rules <= more
    ensures fake.bits[..] == Corrected(r, t.cmds[i].id, v).bits
    ensures Bit(r, t.cmds[i].id) == v ==> more == rules
    ensures TidyTable(t) && AllClean(rules) ==> AllClean(more)
  {
    hide Gives, SetUser, AllClean, TidyTable;
    more := rules;
    var c := t.cmds[i];
    if fake.bits[c.id] != v {
      if TidyTable(t) && AllClean(rules) {
        TidyNames(t);
        TidyRule(rules, if v then "+" else "-", c.name);
      }
      CommandRule(t, r, i, v);
      GivesMore(t, rules, r, (if v then "+" else "-") + c.name, SetCommand(r, c.id, v));
      more := rules + [(if v then "+" else "-") + c.name];
      fake.SetCommandBit(c.id, v);
    }
  }

  lemma SubsFacts(t: Table, u: User, i: nat)
    requires TableOk(t) && UserOk(t, u) && i < |t.cmds|
    ensures var subs := SubsOf(u, t.cmds[i].id);
            NoRepeats(subs) && (Bit(u, t.cmds[i].id) ==> subs == []) && forall j :: 0 <= j < |subs| ==> subs[j] != ""
  {
    var id := t.cmds[i].id;
    if id in u.subs { assert SubsOk(t, u, id); }
  }

  lemma CorrectedFacts(t: Table, u: User, r: User, i: nat)
    requires TableOk(t) && i < |t.cmds| && UserOk(t, u) && Fixed(t, u, r, i)
    ensures var id := t.cmds[i].id;
            var f := Corrected(r, id, Bit(u, id));
            && id < |r.bits| == |u.bits| == BITS && id !in f.subs && Bit(f, id) == Bit(u, id)
            && Fixed(t, u, WithSubs(f, id, SubsOf(u, id), |SubsOf(u, id)|), i + 1)
            && (Bit(r, id) == Bit(u, id) ==> f == r)
  {
    FixBit(t, u, r, i);
    NotBefore(t, i);
    AllSubs(t, u, Corrected(r, t.cmds[i].id, Bit(u, t.cmds[i].id)), i);
    hide IdIn;
  }

  lemma TidySubsOf(u: User, id: nat)
    ensures TidySubs(u) ==> AllTidy(SubsOf(u, id))
  {}

  /** The turn of the i-th command in the last pass. */
  method DescribeCommand(t: Table, u: AclUser, fake: AclUser, i: nat, rules: seq<string>, ghost r: User)
    returns (more: seq<string>, ghost f: User)
    requires TableOk(t) && UserOk(t, u.Abs()) && fake != u && fake.bits != u.bits && i < |t.cmds|
    requires Gives(t, rules, r) && Fixed(t, u.Abs(), r, i) && fake.bits[..] == r.bits
    modifies fake, fake.bits
    ensures Gives(t, more, f) && Fixed(t, u.Abs(), f, i + 1) && fake.bits[..] == f.bits && rules <= more
    ensures AllSet(u.bits[..]) && AllSet(r.bits) ==> more == rules && f.bits == r.bits
    ensures TidyTable(t) && TidySubs(u.Abs()) && AllClean(rules) ==> AllClean(more)
  {
    TidySubsOf(u.Abs(), t.cmds[i].id);
    var id := t.cmds[i].id;
    CorrectedFacts(t, u.Abs(), r, i);
    SubsFacts(t, u.Abs(), i);
    hide Gives, Fixed, UserOk, NoRepeats, Corrected, TableOk, AllClean, TidyTable, TidySubs;
    var userbit := u.bits[id];
    more := DescribeBit(t, fake, i, userbit, rules, r);
    f := Corrected(r, id, userbit);
    var subs := if id in u.subs then u.subs[id] else [];
    if !userbit { more := DescribeSubs(t, i, subs, more, f); }
    f := WithSubs(f, id, subs, |subs|);
  }

  /** The scratch user of the search: the bits of `u`. */
  method CopyBits(u: AclUser) returns (temp: AclUser)
    requires u.bits.Length == BITS
    ensures fresh(temp) && fresh(temp.bits) && temp.bits[..] == u.bits[..]
  {
    temp := new AclUser();
    assert |temp.Abs().bits| == BITS;
    for i := 0 to BITS
      invariant temp.bits.Length == BITS
      invariant forall k :: 0 <= k < i ==> temp.bits[k] == u.bits[k]
    {
      temp.bits[i] := u.bits[i];
    }
  }

  ghost function Unapplied(applied: array<bool>): set<nat>
    reads applied
  {
    set j: nat | j < applied.Length && !applied[j]
  }

  /** The fake user is what the rules so far give, without subcommands and with the last bit of `u`. */
  ghost predicate Leads(t: Table, rules: seq<string>, f: User, future: bool) {
    Gives(t, rules, f) && |f.bits| == BITS && f.bits[FUTURE] == future && f.subs == map[]
  }

  lemma CategoryLeads(t: Table, rules: seq<string>, f: User, future: bool, j: nat, v: bool)
    requires TableOk(t) && j < |t.cats| && Leads(t, rules, f, future)
    ensures var op := (if v then "+@" else "-@") + t.cats[j];
            SetUser(t, f, op).Ok? && Leads(t, rules + [op], SetUser(t, f, op).user, future)
  {
    var op := (if v then "+@" else "-@") + t.cats[j];
    CategoryRule(t, f, j, v);
    SetCategoryShape(f, t.cmds, t.cats[j], v);
    hide SetUser, SetCategory, Gives;
    GivesMore(t, rules, f, op, SetUser(t, f, op).user);
  }

  /** One category is printed, given to the fake user and taken from the scratch user. */
  method ApplyCategory(t: Table, fake: AclUser, temp: AclUser, j: nat, additive: bool, rules: seq<string>,
                       ghost future: bool)
    returns (more: seq<string>)
    requires TableOk(t) && j < |t.cats| && Leads(t, rules, fake.Abs(), future)
    requires fake != temp && fake.bits != temp.bits
    modifies fake, fake.bits, temp, temp.bits
    ensures Leads(t, more, fake.Abs(), future) && rules <= more
    ensures TidyTable(t) && AllClean(rules) ==> AllClean(more)
  {
    hide Leads, SetUser, TableOk, TidyTable, AllClean;
    CategoryLeads(t, rules, fake.Abs(), future, j, additive);
    var op := (if additive then "+@" else "-@") + t.cats[j];
    if TidyTable(t) && AllClean(rules) {
      TidyNames(t);
      TidyRule(rules, if additive then "+@" else "-@", t.cats[j]);
    }
    var status := fake.Rule(t, op);
    var undo := temp.Rule(t, (if additive then "-@" else "+@") + t.cats[j]);
    more := rules + [op];
  }

  /** The greedy search for categories. Each is applied once, so the search ends. */
  method DescribeCategories(t: Table, u: AclUser, fake: AclUser, start: string, additive: bool)
    returns (rules: seq<string>)
    requires TableOk(t) && u.bits.Length == BITS && fake != u && fake.bits != u.bits
    requires Leads(t, [start], fake.Abs(), u.bits[FUTURE]) && additive == !u.bits[FUTURE]
    modifies fake, fake.bits
    ensures Leads(t, rules, fake.Abs(), u.bits[FUTURE]) && rules != [] && rules[0] == start
    ensures AllSet(u.bits[..]) ==> rules == [start] && fake.bits[..] == old(fake.bits[..])
    ensures TidyTable(t) && AllClean([start]) ==> AllClean(rules)
  {
    FewCommands(t);
    rules := [start];
    var temp := CopyBits(u);
    var applied := new bool[|t.cats|](_ => false);
    assert AllSet(u.bits[..]) ==> !additive;
    hide Leads, SetUser, AllSet, Fits, Better, TableOk, TidyTable, AllClean;
    while true
      modifies fake, fake.bits, temp, temp.bits, applied
      invariant Leads(t, rules, fake.Abs(), u.bits[FUTURE]) && rules != [] && rules[0] == start
      invariant AllSet(u.bits[..]) ==> rules == [start] && fake.bits[..] == old(fake.bits[..])
      invariant AllSet(u.bits[..]) ==> temp.bits[..] == u.bits[..]
      invariant TidyTable(t) && AllClean([start]) ==> AllClean(rules)
      decreases Unapplied(applied)
    {
      if AllSet(u.bits[..]) { NothingToRemove(t, temp.Abs()); }
      var best := FindBest(temp, t, applied, additive);
      if best == -1 { break; }
      assert best in Unapplied(applied);
      rules := ApplyCategory(t, fake, temp, best, additive, rules, u.bits[FUTURE]);
      ghost var left := Unapplied(applied);
      applied[best] := true;
      assert Unapplied(applied) == left - {best as nat};
    }
  }

  lemma FirstRule(t: Table, additive: bool)
    ensures var op := if additive then "-@all" else "+@all";
            && SetUser(t, Fresh(), op) == Ok(User(seq(BITS, _ => !additive), !additive, map[]))
            && Leads(t, [op], User(seq(BITS, _ => !additive), !additive, map[]), !additive)
  {
    var op := if additive then "-@all" else "+@all";
    assert Fold(op) == op;
    assert [] + [op] == [op];
    ReplayOne(t, Fresh(), [], op);
  }

  lemma LeadsFixed(t: Table, rules: seq<string>, u: User, r: User)
    requires TableOk(t) && UserOk(t, u) && Leads(t, rules, r, u.bits[FUTURE])
    ensures Gives(t, rules, r) && Fixed(t, u, r, 0)
  {
    ReplayKeeps(t, rules);
    hide TableOk, SetUser;
    StartFixed(t, u, r);
  }

  lemma FlagIs(t: Table, rules: seq<string>, r: User)
    requires TableOk(t) && Gives(t, rules, r)
    ensures r.all ==> AllSet(r.bits)
    ensures rules == ["+@all"] ==> r.all
  {
    ReplayKeeps(t, rules);
    FirstRule(t, false);
    hide TableOk, SetUser;
  }

  /** The last pass: single commands and subcommands. */
  method DescribeCommands(t: Table, u: AclUser, fake: AclUser, start: seq<string>, ghost r: User)
    returns (rules: seq<string>, ghost f: User)
    requires TableOk(t) && UserOk(t, u.Abs()) && fake != u && fake.bits != u.bits && start != []
    requires Gives(t, start, r) && Fixed(t, u.Abs(), r, 0) && fake.bits[..] == r.bits
    modifies fake, fake.bits
    ensures Gives(t, rules, f) && Fixed(t, u.Abs(), f, |t.cmds|) && fake.bits[..] == f.bits
    ensures rules != [] && rules[0] == start[0]
    ensures AllSet(u.bits[..]) && AllSet(r.bits) ==> rules == start
    ensures TidyTable(t) && TidySubs(u.Abs()) && AllClean(start) ==> AllClean(rules)
  {
    hide Gives, UserOk, TableOk, AllSet, Fixed, TidyTable, TidySubs, AllClean;
    rules, f := start, r;
    ghost var v := u.Abs();
    for i := 0 to |t.cmds|
      modifies fake, fake.bits
      invariant u.Abs() == v && fake.bits[..] == f.bits
      invariant Gives(t, rules, f) && Fixed(t, v, f, i)
      invariant start <= rules
      invariant AllSet(v.bits) && AllSet(r.bits) ==> rules == start && f.bits == r.bits
      invariant TidyTable(t) && TidySubs(v) && AllClean(start) ==> AllClean(rules)
    {
      rules, f := DescribeCommand(t, u, fake, i, rules, f);
    }
  }

  lemma TidyBack(t: Table, rules: seq<string>, r: User, u: User)
    requires Gives(t, rules, r) && AllClean(rules) && r.subs == u.subs
    ensures TidySubs(u)
  {
    CleanTidy(rules);
    hide SetUser, AllClean, AllTidy;
    RulesTidy(t, rules);
  }

  /** ACLDescribeUserCommandRules. Replayed on a fresh user, the rules give the same bitmap and the same subcommands,
      so the check at the end never panics. The ALLCOMMANDS flag comes back exactly when every bit is set. */
  method Describe(t: Table, u: AclUser) returns (rules: seq<string>, panics: bool)
    requires TableOk(t) && UserOk(t, u.Abs())
    ensures !panics && Replay(t, Fresh(), rules).Ok?
    ensures var r := Replay(t, Fresh(), rules).user;
            r.bits == u.bits[..] && r.subs == u.subs && (r.all <==> AllSet(u.bits[..]))
    ensures rules != [] && rules[0] == if u.bits[FUTURE] then "+@all" else "-@all"
    ensures TidyTable(t) ==> (AllClean(rules) <==> TidySubs(u.Abs()))
  {
    var additive := !u.bits[FUTURE];
    assert AllSet(u.bits[..]) ==> !additive;
    var start := if additive then "-@all" else "+@all";
    var fake := new AclUser();
    FirstRule(t, additive);
    assert !additive ==> AllSet(seq(BITS, _ => !additive));
    assert Clean(start) && AllClean([start]);
    hide SetUser, Leads, SubsBefore, SameBits, AllSet, TidyTable, TidySubs, AllClean;
    var status := fake.Rule(t, start);
    var first := DescribeCategories(t, u, fake, start, additive);
    LeadsFixed(t, first, u.Abs(), fake.Abs());
    ghost var r;
    rules, r := DescribeCommands(t, u, fake, first, fake.Abs());
    EndFixed(t, u.Abs(), r);
    FlagIs(t, rules, r);
    if AllClean(rules) { TidyBack(t, rules, r, u.Abs()); }
    panics := fake.bits[..] != u.bits[..];
  }

  /** Rules as they are printed for `u`: they make its permissions, and are clean words unless a subcommand is not. */
  ghost predicate Described(t: Table, u: User, rules: seq<string>) {
    && rules != [] && Replay(t, Fresh(), rules).Ok?
    && Same(Replay(t, Fresh(), rules).user, u)
    && (AllClean(rules) <==> TidySubs(u))
  }

  /** The same permissions: what the rules describe. */
  ghost predicate Same(r: User, u: User) { r.bits == u.bits && r.subs == u.subs }

  // ------------------------------------------------------------------
  // The users there are
  // ------------------------------------------------------------------

  /** The user that a history of ACL SETUSER rules has made; a rule that fails changes nothing. */
  ghost function Made(t: Table, ops: seq<string>): User {
    if ops == [] then Fresh()
    else
      var u := Made(t, ops[..|ops| - 1]);
      var r := SetUser(t, u, ops[|ops| - 1]);
      if r.Ok? then r.user else u
  }

  /** Every user that rules can make meets what Describe asks for. */
  lemma {:induction false} MadeOk(t: Table, ops: seq<string>)
    requires TableOk(t)
    ensures UserOk(t, Made(t, ops))
  {
    hide UserOk, TableOk, SetUser;
    if ops == [] {
      FreshOk(t);
    } else {
      var u := Made(t, ops[..|ops| - 1]);
      MadeOk(t, ops[..|ops| - 1]);
      if SetUser(t, u, ops[|ops| - 1]).Ok? { SetUserKeeps(t, u, ops[|ops| - 1]); }
    }
  }

  lemma MadeOne(t: Table, ops: seq<string>, op: string)
    ensures Made(t, ops + [op])
         == var r := SetUser(t, Made(t, ops), op); if r.Ok? then r.user else Made(t, ops)
  {
    assert (ops + [op])[..|ops|] == ops;
  }

  /** There are users whose rules are not clean words: a subcommand may be any string that is not empty. */
  lemma UntidySubcommand(t: Table, i: nat, sub: string)
    requires TableOk(t) && i < |t.cmds| && sub != "" && !Tidy(sub)
    ensures !TidySubs(Made(t, ["+" + t.cmds[i].name + "|" + sub]))
  {
    var id, op := t.cmds[i].id, "+" + t.cmds[i].name + "|" + sub;
    assert [] + [op] == [op];
    MadeOne(t, [], op);
    assert Made(t, []) == Fresh();
    hide Made, Tidy;
    SubRule(t, Fresh(), i, sub);
    hide SetUser, Fold;
    var u := AddSub(Fresh(), id, sub);
    assert u.subs[id] == [sub] by { assert [] + [sub] == [sub]; }
    assert !Tidy(u.subs[id][0]);
  }

  /** The flag is not always what the rules bring back: taking a command away from a user that may run everything,
      and giving it back, sets every bit but leaves the flag off. */
  lemma FlagNotPrinted(t: Table, i: nat)
    requires TableOk(t) && i < |t.cmds|
    ensures var name := t.cmds[i].name;
            var u := Made(t, ["+@all", "-" + name, "+" + name]);
            AllSet(u.bits) && !u.all
  {
    var name := t.cmds[i].name;
    var a, b, c := ["+@all"], ["+@all", "-" + name], ["+@all", "-" + name, "+" + name];
    assert [] + ["+@all"] == a && a + ["-" + name] == b && b + ["+" + name] == c;
    FirstRule(t, false);
    MadeOne(t, [], "+@all");
    MadeOne(t, a, "-" + name);
    MadeOne(t, b, "+" + name);
    CommandRule(t, Made(t, a), i, false);
    CommandRule(t, Made(t, b), i, true);
    hide SetUser, Made;
  }
}
