/** ACL users as acl.c stores them, and the printer that finds rules for a user's permissions. */
module AclDescribe {
  import opened Common
  import opened Acl

  // ------------------------------------------------------------------
  // The text of rules
  // ------------------------------------------------------------------

  lemma {:induction false} LookupSelf(cmds: seq<Cmd>, i: nat)
    requires i < |cmds| && Fold(cmds[i].name) == cmds[i].name
    requires forall j, k :: 0 <= j < k < |cmds| ==> cmds[j].name != cmds[k].name
    ensures Lookup(cmds, cmds[i].name) == Some(cmds[i])
  {
    if i > 0 {
      LookupSelf(cmds[1..], i - 1);
    }
  }

  lemma FindIs(s: string, c: char, i: nat)
    requires i <= |s| && (i < |s| ==> s[i] == c) && forall k :: 0 <= k < i ==> s[k] != c
    ensures Find(s, c) == i
  {}

  lemma CommandRule(t: Table, u: User, i: nat, v: bool)
    requires TableOk(t) && i < |t.cmds|
    ensures SetUser(t, u, (if v then "+" else "-") + t.cmds[i].name) == Ok(SetCommand(u, t.cmds[i].id, v))
  {
    var name := t.cmds[i].name;
    var op := (if v then "+" else "-") + name;
    LookupSelf(t.cmds, i);
    assert NameOk(name);
    assert op[1..] == name && op[1..|op|] == name && Fold(op)[0] == op[0] && Fold(op)[1] != '@';
    FindIs(op, '|', |op|);
    hide Fold, Lookup, SetCommand, Find;
  }

  lemma SubRule(t: Table, u: User, i: nat, sub: string)
    requires TableOk(t) && i < |t.cmds| && sub != "" && !Bit(u, t.cmds[i].id)
    ensures SetUser(t, u, "+" + t.cmds[i].name + "|" + sub) == Ok(AddSub(u, t.cmds[i].id, sub))
  {
    var name := t.cmds[i].name;
    LookupSelf(t.cmds, i);
    assert NameOk(name);
    SubText(name, sub);
    hide Fold, Lookup, AddSub, Find, NameOk, TableOk;
  }

  /** How a subcommand rule is read. */
  lemma SubText(name: string, sub: string)
    requires NameOk(name) && sub != ""
    ensures var op, bar := "+" + name + "|" + sub, |name| + 1;
            && |op| > bar + 1 && op[0] == '+' && op[1] != '@' && op[1..bar] == name && op[bar + 1..] == sub
            && Find(op, '|') == bar && Fold(op)[0] == '+' && Fold(op)[1] != '@'
  {
    var op, bar := "+" + name + "|" + sub, |name| + 1;
    assert op[bar] == '|' && op[1..bar] == name && op[bar + 1..] == sub && op[1] == name[0];
    hide Find;
    FindIs(op, '|', bar);
  }

  lemma CategoryRule(t: Table, u: User, j: nat, v: bool)
    requires TableOk(t) && j < |t.cats|
    ensures SetUser(t, u, (if v then "+@" else "-@") + t.cats[j]) == Ok(SetCategory(u, t.cmds, t.cats[j], v))
  {
    var cat := t.cats[j];
    var op := (if v then "+@" else "-@") + cat;
    assert op[2..] == cat && Fold(op)[0] == op[0] && Fold(op)[1] == '@';
    assert Fold(op)[2..] == Fold(cat);
    assert "+@all"[2..] == "all" && "-@all"[2..] == "all";
    hide Fold, SetCategory;
  }

  lemma ReplayOne(t: Table, u: User, rules: seq<string>, op: string)
    ensures Replay(t, u, rules + [op])
         == var r := Replay(t, u, rules); if r.Ok? then SetUser(t, r.user, op) else r
  {
    assert (rules + [op])[..|rules|] == rules;
  }

  // ------------------------------------------------------------------
  // Users in place
  // ------------------------------------------------------------------

  /** user: allowed_commands, the ALLCOMMANDS flag and allowed_subcommands. */
  class AclUser {
    const bits: array<bool>
    var all: bool
    var subs: map<nat, seq<string>>

    ghost function Abs(): User
      reads this, bits
    {
      User(bits[..], all, subs)
    }

    constructor ()
      ensures Abs() == Fresh() && fresh(bits)
    {
      bits := new bool[BITS](_ => false);
      all, subs := false, map[];
      new;
      assert bits[..] == Fresh().bits;
    }

    /** ACLSetUserCommandBit. */
    method SetCommandBit(id: nat, v: bool)
      modifies this`all, bits
      ensures Abs() == SetBit(old(Abs()), id, v)
    {
      if id >= bits.Length { return; }
      bits[id] := v;
      if !v { all := false; }
      assert bits[..] == old(bits[..])[id := v];
    }

    /** ACLSetUserCommandBit and ACLResetSubcommandsForCommand. */
    method SetWholeCommand(id: nat, v: bool)
      modifies this, bits
      ensures Abs() == SetCommand(old(Abs()), id, v)
    {
      SetCommandBit(id, v);
      subs := subs - {id};
    }

    /** ACLAddAllowedSubcommand. */
    method AddAllowedSubcommand(id: nat, sub: string)
      modifies this`subs
      ensures Abs() == AddSub(old(Abs()), id, sub)
    {
      var list := if id in subs then subs[id] else [];
      for i := 0 to |list|
        invariant forall k :: 0 <= k < i ==> Fold(list[k]) != Fold(sub)
      {
        if Fold(list[i]) == Fold(sub) { return; }
      }
      subs := subs[id := list + [sub]];
    }

    /** ACLSetUserCommandBitsForCategory. */
    method SetCommandBitsForCategory(t: Table, cat: string, v: bool) returns (ok: bool)
      modifies this, bits
      ensures ok <==> Fold(cat) in t.cats
      ensures Abs() == if ok then SetCategory(old(Abs()), t.cmds, Fold(cat), v) else old(Abs())
    {
      if Fold(cat) !in t.cats { return false; }
      ghost var goal := SetCategory(Abs(), t.cmds, Fold(cat), v);
      assert t.cmds[0..] == t.cmds;
      hide SetCommand;
      for i := 0 to |t.cmds|
        invariant SetCategory(Abs(), t.cmds[i..], Fold(cat), v) == goal
      {
        var c := t.cmds[i];
        assert t.cmds[i..][0] == c && t.cmds[i..][1..] == t.cmds[i + 1..];
        if !c.loaded && Fold(cat) in c.cats { SetWholeCommand(c.id, v); }
      }
      return true;
    }

    /** The rules +@all and -@all. */
    method SetAll(v: bool)
      modifies this, bits
      ensures Abs() == User(seq(bits.Length, _ => v), v, map[])
    {
      for i := 0 to bits.Length
        invariant forall k :: 0 <= k < i ==> bits[k] == v
      {
        bits[i] := v;
      }
      all, subs := v, map[];
      assert bits[..] == seq(bits.Length, _ => v);
    }

    /** The rules that name one command, with or without a subcommand. */
    method CommandRuleOf(t: Table, op: string) returns (status: Status)
      requires op != "" && (op[0] == '+' || op[0] == '-') && (|op| > 1 ==> op[1] != '@')
      requires Fold(op) !in {"allcommands", "+@all", "nocommands", "-@all", "reset"}
      modifies this, bits
      ensures Outcome(SetUser(t, old(Abs()), op), old(Abs()), status, Abs())
    {
      hide Fold, Lookup, SetCommand, AddSub, Find;
      if op[0] == '-' {
        var c := Lookup(t.cmds, op[1..]);
        if c.None? { return Unknown; }
        SetWholeCommand(c.value.id, false);
        return Success;
      }
      var bar := Find(op, '|');
      var c := Lookup(t.cmds, op[1..bar]);
      if c.None? { return Unknown; }
      var id := c.value.id;
      if bar == |op| {
        SetWholeCommand(id, true);
        return Success;
      }
      if bar + 1 == |op| { return Invalid; }
      if !(id < bits.Length && bits[id]) { AddAllowedSubcommand(id, op[bar + 1..]); }
      return Success;
    }

    /** ACLSetUser, for the rules about commands. */
    method Rule(t: Table, op: string) returns (status: Status)
      modifies this, bits
      ensures Outcome(SetUser(t, old(Abs()), op), old(Abs()), status, Abs())
    {
      hide Fold, SetCategory;
      if op == "" { return Success; }
      if Fold(op) == "allcommands" || Fold(op) == "+@all" {
        SetAll(true);
        return Success;
      }
      if Fold(op) == "nocommands" || Fold(op) == "-@all" || Fold(op) == "reset" {
        SetAll(false);
        return Success;
      }
      if op[0] != '+' && op[0] != '-' { return Success; }
      if |op| > 1 && op[1] == '@' {
        var ok := SetCommandBitsForCategory(t, op[2..], op[0] == '+');
        return if ok then Success else Unknown;
      }
      status := CommandRuleOf(t, op);
    }
  }

  /** C_OK, and the errors ENOENT and EINVAL. */
  datatype Status = Success | Unknown | Invalid

  /** An error changes nothing. */
  ghost predicate Outcome(r: Result, before: User, status: Status, after: User) {
    match r
    case Ok(u) => status == Success && after == u
    case NoSuchName => status == Unknown && after == before
    case Syntax => status == Invalid && after == before
  }

  // ------------------------------------------------------------------
  // The best category
  // ------------------------------------------------------------------

  /** How many commands of a category have their bit equal to `v`. */
  function CountBits(u: User, cmds: seq<Cmd>, cat: string, v: bool): (n: nat)
    ensures n <= |cmds|
  {
    if cmds == [] then 0
    else
      var c := cmds[|cmds| - 1];
      CountBits(u, cmds[..|cmds| - 1], cat, v) + (if cat in c.cats && Bit(u, c.id) == v then 1 else 0)
  }

  /** ACLCountCategoryBitsForUser; commands of modules are counted. */
  method CountCategoryBits(u: AclUser, t: Table, cat: string) returns (on: nat, off: nat)
    ensures on == CountBits(u.Abs(), t.cmds, cat, true) && off == CountBits(u.Abs(), t.cmds, cat, false)
  {
    on, off := 0, 0;
    for i := 0 to |t.cmds|
      invariant on == CountBits(u.Abs(), t.cmds[..i], cat, true) && off == CountBits(u.Abs(), t.cmds[..i], cat, false)
    {
      assert t.cmds[..i + 1][..i] == t.cmds[..i];
      var c := t.cmds[i];
      if cat in c.cats {
        if c.id < u.bits.Length && u.bits[c.id] { on := on + 1; } else { off := off + 1; }
      }
    }
    assert t.cmds[..|t.cmds|] == t.cmds;
  }

  const INT_MAX: int := 0x7fff_ffff

  /** A category fits when more of its commands agree with the user than differ. */
  ghost predicate Fits(u: User, t: Table, additive: bool, j: nat)
    requires j < |t.cats|
  {
    CountBits(u, t.cmds, t.cats[j], additive) > CountBits(u, t.cmds, t.cats[j], !additive)
  }

  /** Fewer differences are better, and with as many differences, more agreement. */
  ghost predicate Better(u: User, t: Table, additive: bool, j: nat, k: nat)
    requires j < |t.cats| && k < |t.cats|
  {
    var dj, dk := CountBits(u, t.cmds, t.cats[j], !additive), CountBits(u, t.cmds, t.cats[k], !additive);
    dj < dk || (dj == dk && CountBits(u, t.cmds, t.cats[j], additive) >= CountBits(u, t.cmds, t.cats[k], additive))
  }

  /** One round of the search: the best of the categories that fit and have not been applied, or -1. */
  method FindBest(u: AclUser, t: Table, applied: array<bool>, additive: bool) returns (best: int)
    requires applied.Length == |t.cats| && |t.cmds| < INT_MAX
    ensures -1 <= best < |t.cats|
    ensures best == -1 ==> forall j :: 0 <= j < |t.cats| && !applied[j] ==> !Fits(u.Abs(), t, additive, j)
    ensures best >= 0 ==> !applied[best] && Fits(u.Abs(), t, additive, best)
    ensures best >= 0 ==> forall j :: 0 <= j < |t.cats| && !applied[j] && Fits(u.Abs(), t, additive, j) ==>
                                      Better(u.Abs(), t, additive, best, j)
  {
    best := -1;
    var mindiff, maxsame := INT_MAX, 0;
    ghost var v := u.Abs();
    hide CountBits;
    for j := 0 to |t.cats|
      invariant -1 <= best < j
      invariant best == -1 ==> mindiff == INT_MAX && forall k :: 0 <= k < j && !applied[k] ==> !Fits(v, t, additive, k)
      invariant best >= 0 ==> !applied[best] && Fits(v, t, additive, best)
      invariant best >= 0 ==> && mindiff == CountBits(v, t.cmds, t.cats[best], !additive)
                              && maxsame == CountBits(v, t.cmds, t.cats[best], additive)
      invariant best >= 0 ==> forall k :: 0 <= k < j && !applied[k] && Fits(v, t, additive, k) ==>
                                          Better(v, t, additive, best, k)
    {
      if applied[j] { continue; }
      var on, off := CountCategoryBits(u, t, t.cats[j]);
      var diff, same := if additive then off else on, if additive then on else off;
      if same > diff && (diff < mindiff || (diff == mindiff && same > maxsame)) {
        best, mindiff, maxsame := j, diff, same;
      }
    }
  }
}
