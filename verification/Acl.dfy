/** The command permissions of an ACL user, and the rules of ACL SETUSER that change them. */
module Acl {
  import opened Common

  /** USER_COMMAND_BITS_COUNT; the last bit is never given to a command and stands for commands yet to come. */
  const BITS: nat := 1024
  const FUTURE: nat := BITS - 1

  // ------------------------------------------------------------------
  // Names
  // ------------------------------------------------------------------

  function Fold(s: string): (r: string)
    ensures |r| == |s| && forall i :: 0 <= i < |s| ==> r[i] == Lower(s[i])
  {
    seq(|s|, i requires 0 <= i < |s| => Lower(s[i]))
  }

  /** A command of the table: its lower-case name, its ID, its categories, and whether a module brought it. */
  datatype Cmd = Cmd(name: string, id: nat, cats: set<string>, loaded: bool)

  /** server.orig_commands in the order of iteration, and the names of ACLCommandCategories. */
  datatype Table = Table(cmds: seq<Cmd>, cats: seq<string>)

  ghost predicate NameOk(name: string) {
    name != "" && name[0] != '@' && '|' !in name && Fold(name) == name
  }

  ghost predicate TableOk(t: Table) {
    && (forall i :: 0 <= i < |t.cmds| ==> NameOk(t.cmds[i].name) && t.cmds[i].id < FUTURE)
    && (forall i, j :: 0 <= i < j < |t.cmds| ==> t.cmds[i].name != t.cmds[j].name && t.cmds[i].id != t.cmds[j].id)
    && (forall i :: 0 <= i < |t.cats| ==> Fold(t.cats[i]) == t.cats[i] && t.cats[i] != "all")
  }

  /** ACLLookupCommand and ACLGetCommandID: names are looked up in any case. */
  function Lookup(cmds: seq<Cmd>, name: string): (r: Option<Cmd>)
    ensures r.Some? ==> r.value in cmds && r.value.name == Fold(name)
    ensures r.None? ==> forall i :: 0 <= i < |cmds| ==> cmds[i].name != Fold(name)
  {
    if cmds == [] then None else if cmds[0].name == Fold(name) then Some(cmds[0]) else Lookup(cmds[1..], name)
  }

  // ------------------------------------------------------------------
  // Users
  // ------------------------------------------------------------------

  /** The bitmap, the ALLCOMMANDS flag, and the allowed subcommands of commands that are off. */
  datatype User = User(bits: seq<bool>, all: bool, subs: map<nat, seq<string>>)

  /** What ACLCreateUser makes. */
  function Fresh(): User { User(seq(BITS, _ => false), false, map[]) }

  function SetBit(u: User, id: nat, v: bool): User {
    if id >= |u.bits| then u else u.(bits := u.bits[id := v], all := u.all && v)
  }

  function ResetSubs(u: User, id: nat): User { u.(subs := u.subs - {id}) }

  function SetCommand(u: User, id: nat, v: bool): User { ResetSubs(SetBit(u, id, v), id) }

  function SubsOf(u: User, id: nat): seq<string> { if id in u.subs then u.subs[id] else [] }

  predicate HasSub(subs: seq<string>, sub: string) { exists i :: 0 <= i < |subs| && Fold(subs[i]) == Fold(sub) }

  /** ACLAddAllowedSubcommand. */
  function AddSub(u: User, id: nat, sub: string): User {
    if HasSub(SubsOf(u, id), sub) then u else u.(subs := u.subs[id := SubsOf(u, id) + [sub]])
  }

  /** ACLSetUserCommandBitsForCategory, over the commands that are left. Commands of modules stay as they are. */
  function SetCategory(u: User, cmds: seq<Cmd>, cat: string, v: bool): User
    decreases |cmds|
  {
    if cmds == [] then u
    else
      var c := cmds[0];
      SetCategory(if !c.loaded && cat in c.cats then SetCommand(u, c.id, v) else u, cmds[1..], cat, v)
  }

  datatype Result = Ok(user: User) | NoSuchName | Syntax

  /** ACLSetUser as far as commands go; a rule of another kind changes nothing here. */
  function SetUser(t: Table, u: User, op: string): Result {
    if op == "" then Ok(u)
    else if Fold(op) == "allcommands" || Fold(op) == "+@all" then Ok(User(seq(|u.bits|, _ => true), true, map[]))
    else if Fold(op) == "nocommands" || Fold(op) == "-@all" || Fold(op) == "reset" then
      Ok(User(seq(|u.bits|, _ => false), false, map[]))
    else if op[0] != '+' && op[0] != '-' then Ok(u)
    else if |op| > 1 && op[1] == '@' then
      if Fold(op[2..]) !in t.cats then NoSuchName
      else Ok(SetCategory(u, t.cmds, Fold(op[2..]), op[0] == '+'))
    else if op[0] == '-' then
      var c := Lookup(t.cmds, op[1..]);
      if c.None? then NoSuchName else Ok(SetCommand(u, c.value.id, false))
    else
      var bar := Find(op, '|');
      var c := Lookup(t.cmds, op[1..bar]);
      if c.None? then NoSuchName
      else if bar == |op| then Ok(SetCommand(u, c.value.id, true))
      else if bar + 1 == |op| then Syntax
      else if Bit(u, c.value.id) then Ok(u)
      else Ok(AddSub(u, c.value.id, op[bar + 1..]))
  }

  /** ACLGetUserCommandBit. */
  predicate Bit(u: User, id: nat) { id < |u.bits| && u.bits[id] }

  /** Rules one after the other; none may fail. */
  function Replay(t: Table, u: User, rules: seq<string>): Result {
    if rules == [] then Ok(u)
    else
      var r := Replay(t, u, rules[..|rules| - 1]);
      if r.Ok? then SetUser(t, r.user, rules[|rules| - 1]) else r
  }

  // ------------------------------------------------------------------
  // What every rule keeps
  // ------------------------------------------------------------------

  ghost predicate IsId(t: Table, id: nat) { exists i :: 0 <= i < |t.cmds| && t.cmds[i].id == id }

  ghost predicate NoRepeats(subs: seq<string>) {
    forall i, j :: 0 <= i < j < |subs| ==> Fold(subs[i]) != Fold(subs[j])
  }

  /** Bits that no command has agree with the last one; subcommands are kept only for commands that are off, without
      repetition; and the flag promises that every bit is set. */
  ghost predicate UserOk(t: Table, u: User) {
    && |u.bits| == BITS
    && (forall id :: 0 <= id < BITS && !IsId(t, id) ==> u.bits[id] == u.bits[FUTURE])
    && (forall id :: id in u.subs ==> SubsOk(t, u, id))
    && (u.all ==> forall id :: 0 <= id < BITS ==> u.bits[id])
  }

  ghost predicate SubsOk(t: Table, u: User, id: nat) {
    && id in u.subs && IsId(t, id) && !Bit(u, id) && u.subs[id] != [] && NoRepeats(u.subs[id])
    && forall i :: 0 <= i < |u.subs[id]| ==> u.subs[id][i] != ""
  }

  lemma SetCommandKeeps(t: Table, u: User, id: nat, v: bool)
    requires UserOk(t, u) && IsId(t, id) && id < FUTURE
    ensures UserOk(t, SetCommand(u, id, v))
  {
    hide IsId, NoRepeats;
    var u' := SetCommand(u, id, v);
    forall i | i in u'.subs ensures SubsOk(t, u', i) { assert SubsOk(t, u, i); }
  }

  lemma {:induction false} SetCategoryKeeps(t: Table, u: User, cmds: seq<Cmd>, cat: string, v: bool)
    requires UserOk(t, u) && forall i :: 0 <= i < |cmds| ==> IsId(t, cmds[i].id) && cmds[i].id < FUTURE
    ensures UserOk(t, SetCategory(u, cmds, cat, v))
    decreases |cmds|
  {
    if cmds != [] {
      var c := cmds[0];
      assert IsId(t, c.id);
      SetCommandKeeps(t, u, c.id, v);
      hide UserOk, IsId, SetCommand;
      SetCategoryKeeps(t, if !c.loaded && cat in c.cats then SetCommand(u, c.id, v) else u, cmds[1..], cat, v);
    }
  }

  lemma AddSubKeeps(t: Table, u: User, id: nat, sub: string)
    requires UserOk(t, u) && IsId(t, id) && !Bit(u, id) && sub != ""
    ensures UserOk(t, AddSub(u, id, sub))
  {
    hide IsId, Fold;
    var u' := AddSub(u, id, sub);
    if id in u.subs { assert SubsOk(t, u, id); }
    forall i | i in u'.subs ensures SubsOk(t, u', i) {
      if i != id { assert SubsOk(t, u, i); }
    }
  }

  lemma AllOrNothing(t: Table, u: User)
    requires UserOk(t, u)
    ensures UserOk(t, User(seq(|u.bits|, _ => true), true, map[]))
    ensures UserOk(t, User(seq(|u.bits|, _ => false), false, map[]))
  {
    hide IsId;
  }

  lemma TableIds(t: Table)
    requires TableOk(t)
    ensures forall i :: 0 <= i < |t.cmds| ==> IsId(t, t.cmds[i].id) && t.cmds[i].id < FUTURE
  {
    hide NameOk, Fold;
    forall i | 0 <= i < |t.cmds| ensures IsId(t, t.cmds[i].id) && t.cmds[i].id < FUTURE {}
  }

  /** Every user that rules can make is a proper one. */
  lemma SetUserKeeps(t: Table, u: User, op: string)
    requires TableOk(t) && UserOk(t, u) && SetUser(t, u, op).Ok?
    ensures UserOk(t, SetUser(t, u, op).user)
  {
    AllOrNothing(t, u);
    TableIds(t);
    hide Fold, Lookup, SetCategory, SetCommand, AddSub, UserOk, IsId, TableOk;
    if |op| > 1 && (op[0] == '+' || op[0] == '-') {
      if op[1] == '@' {
        SetCategoryKeeps(t, u, t.cmds, Fold(op[2..]), op[0] == '+');
      } else {
        var bar := if op[0] == '+' then Find(op, '|') else |op|;
        var c := Lookup(t.cmds, op[1..bar]);
        assert op[1..|op|] == op[1..];
        if c.Some? {
          SetCommandKeeps(t, u, c.value.id, op[0] == '+');
          if bar + 1 < |op| && !Bit(u, c.value.id) { AddSubKeeps(t, u, c.value.id, op[bar + 1..]); }
        }
      }
    }
  }
}
