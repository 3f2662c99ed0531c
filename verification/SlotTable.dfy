/** The slot table of one node in its two forms: the owner of every slot, and for
    every node a bitmap with a count. Every operation of cluster.c that changes
    one form changes the other. */
module SlotTable {
  import opened Common
  import opened ClusterNode

  /** What the table keeps per node. */
  datatype Entry = Entry(bitmap: seq<bool>, numslots: int, configEpoch: nat)

  function Count(bits: seq<bool>): nat {
    if bits == [] then 0 else Count(bits[..|bits|-1]) + (if bits[|bits|-1] then 1 else 0)
  }

  lemma {:induction false} CountUpdate(bits: seq<bool>, j: nat, b: bool)
    requires j < |bits|
    ensures Count(bits[j := b]) == Count(bits) - (if bits[j] then 1 else 0) + (if b then 1 else 0)
  {
    var k := |bits| - 1;
    if j == k {
      assert bits[j := b][..k] == bits[..k];
    } else {
      assert bits[j := b][..k] == bits[..k][j := b];
      CountUpdate(bits[..k], j, b);
    }
  }

  lemma {:induction false} CountZero(bits: seq<bool>)
    ensures Count(bits) == 0 <==> forall j :: 0 <= j < |bits| ==> !bits[j]
    ensures Count(bits) <= |bits|
  {
    if bits != [] {
      CountZero(bits[..|bits|-1]);
    }
  }

  /** The bitmap that the owner array implies for `n`. */
  ghost function BitmapOf(owner: seq<Option<Id>>, n: Id): (b: seq<bool>)
    ensures |b| == |owner| && forall j :: 0 <= j < |owner| ==> (b[j] <==> owner[j] == Some(n))
  {
    seq(|owner|, j requires 0 <= j < |owner| => owner[j] == Some(n))
  }

  /** The two forms agree: bit `j` of `n` is set exactly when slot `j` belongs to `n`, and counts count. */
  ghost predicate Coherent(owner: seq<Option<Id>>, nodes: map<Id, Entry>) {
    && (forall j :: 0 <= j < |owner| && owner[j].Some? ==> owner[j].value in nodes)
    && (forall n :: n in nodes ==> EntryOk(owner, n, nodes[n]))
  }

  ghost predicate EntryOk(owner: seq<Option<Id>>, n: Id, e: Entry) {
    e.bitmap == BitmapOf(owner, n) && e.numslots == Count(e.bitmap)
  }

  class Table {
    const me: Id
    var owner: array<Option<Id>>
    var importing: array<Option<Id>>
    var migrating: array<Option<Id>>
    var nodes: map<Id, Entry>

    ghost predicate Valid()
      reads this, owner, importing, migrating
    {
      && importing.Length == owner.Length && migrating.Length == owner.Length
      && owner != importing && owner != migrating && importing != migrating
      && me in nodes && Coherent(owner[..], nodes)
    }

    /** A table that knows only this node and assigns nothing. */
    constructor (me: Id, slots: nat)
      ensures Valid() && this.me == me && owner.Length == slots && nodes.Keys == {me}
      ensures forall j :: 0 <= j < slots ==> owner[j] == None && importing[j] == None && migrating[j] == None
    {
      this.me := me;
      this.nodes := map[me := Entry(seq(slots, _ => false), 0, 0)];
      this.owner := new Option<Id>[slots](_ => None);
      this.importing := new Option<Id>[slots](_ => None);
      this.migrating := new Option<Id>[slots](_ => None);
      new;
      CountZero(nodes[me].bitmap);
      assert nodes[me].bitmap == BitmapOf(owner[..], me);
    }

    /** clusterNodeSetSlotBit. */
    method SetSlotBit(n: Id, slot: nat) returns (was: bool)
      requires n in nodes && slot < |nodes[n].bitmap|
      modifies this`nodes
      ensures was == old(nodes)[n].bitmap[slot]
      ensures nodes == old(nodes)[n := old(nodes)[n].(bitmap := old(nodes)[n].bitmap[slot := true],
                                    numslots := old(nodes)[n].numslots + (if was then 0 else 1))]
    {
      var e := nodes[n];
      was := e.bitmap[slot];
      e := e.(bitmap := e.bitmap[slot := true]);
      if !was { e := e.(numslots := e.numslots + 1); }
      nodes := nodes[n := e];
    }

    /** clusterNodeClearSlotBit. */
    method ClearSlotBit(n: Id, slot: nat) returns (was: bool)
      requires n in nodes && slot < |nodes[n].bitmap|
      modifies this`nodes
      ensures was == old(nodes)[n].bitmap[slot]
      ensures nodes == old(nodes)[n := old(nodes)[n].(bitmap := old(nodes)[n].bitmap[slot := false],
                                    numslots := old(nodes)[n].numslots - (if was then 1 else 0))]
    {
      var e := nodes[n];
      was := e.bitmap[slot];
      e := e.(bitmap := e.bitmap[slot := false]);
      if was { e := e.(numslots := e.numslots - 1); }
      nodes := nodes[n := e];
    }

    /** clusterAddSlot: refuses a slot that has an owner. */
    method AddSlot(n: Id, slot: nat) returns (ok: bool)
      requires Valid() && n in nodes && slot < owner.Length
      modifies this`nodes, owner
      ensures Valid() && SameNodes(old(nodes), nodes)
      ensures ok == old(owner[slot]).None?
      ensures owner[..] == if ok then old(owner[..])[slot := Some(n)] else old(owner[..])
      ensures nodes == if ok then Gain(old(nodes), n, slot) else old(nodes)
    {
      hide Coherent;
      if owner[slot].Some? { return false; }
      AssignKeeps(owner[..], nodes, slot, n);
      var was := SetSlotBit(n, slot);
      owner[slot] := Some(n);
      assert owner[..] == old(owner[..])[slot := Some(n)];
      return true;
    }

    /** clusterDelSlot: the bit it clears is always set, so its assertion never fires. */
    method DelSlot(slot: nat) returns (ok: bool)
      requires Valid() && slot < owner.Length
      modifies this`nodes, owner
      ensures Valid() && SameNodes(old(nodes), nodes)
      ensures ok == old(owner[slot]).Some?
      ensures owner[..] == old(owner[..])[slot := None]
      ensures nodes == if ok then Lose(old(nodes), old(owner[slot]).value, slot) else old(nodes)
    {
      hide Coherent;
      var n := owner[slot];
      if n.None? {
        assert owner[..] == old(owner[..])[slot := None];
        return false;
      }
      OwnerKnown(owner[..], nodes, slot);
      ReleaseKeeps(owner[..], nodes, slot, n.value);
      var was := ClearSlotBit(n.value, slot);
      assert was;
      owner[slot] := None;
      assert owner[..] == old(owner[..])[slot := None];
      return true;
    }

    /** clusterDelNodeSlots: every slot of `n`, found by its bitmap, is released, and no other. */
    method DelNodeSlots(n: Id) returns (deleted: nat)
      requires Valid() && n in nodes
      modifies this`nodes, owner
      ensures Valid() && SameNodes(old(nodes), nodes)
      ensures owner[..] == Moved(old(owner[..]), n, None)
      ensures deleted == old(nodes)[n].numslots && nodes[n].numslots == 0
    {
      hide Coherent, Moved;
      deleted := 0;
      for j := 0 to owner.Length
        invariant Valid() && SameNodes(old(nodes), nodes)
        invariant forall i :: 0 <= i < j ==> owner[i] == Move(old(owner[i]), n, None)
        invariant forall i :: j <= i < owner.Length ==> owner[i] == old(owner[i])
        invariant deleted + nodes[n].numslots == old(nodes)[n].numslots
      {
        BitIsOwnership(owner[..], nodes, n, j);
        if nodes[n].bitmap[j] {
          var ok := DelSlot(j);
          deleted := deleted + 1;
        }
      }
      NoneOwned(owner[..], nodes, n);
      assert owner[..] == Moved(old(owner[..]), n, None);
    }

    /** clusterFailoverReplaceYourMaster: this node takes every slot of its former master, and no other. */
    method TakeOver(former: Id)
      requires Valid() && former in nodes
      modifies this`nodes, owner
      ensures Valid() && SameNodes(old(nodes), nodes)
      ensures owner[..] == Moved(old(owner[..]), former, Some(me))
    {
      hide Coherent, Moved;
      for j := 0 to owner.Length
        invariant Valid() && SameNodes(old(nodes), nodes)
        invariant forall i :: 0 <= i < j ==> owner[i] == Move(old(owner[i]), former, Some(me))
        invariant forall i :: j <= i < owner.Length ==> owner[i] == old(owner[i])
      {
        BitIsOwnership(owner[..], nodes, former, j);
        if nodes[former].bitmap[j] {
          var deleted := DelSlot(j);
          var added := AddSlot(me, j);
        }
      }
      assert owner[..] == Moved(old(owner[..]), former, Some(me));
    }

    /** clusterDelNode: the slots of the node are released, those in transit from or to it are forgotten, and so is the
        node. */
    method DelNode(n: Id)
      requires Valid() && n in nodes && n != me
      modifies this`nodes, owner, importing, migrating
      ensures Valid() && nodes.Keys == old(nodes).Keys - {n}
      ensures owner[..] == Moved(old(owner[..]), n, None)
      ensures importing[..] == Moved(old(importing[..]), n, None)
      ensures migrating[..] == Moved(old(migrating[..]), n, None)
    {
      hide Coherent, Moved;
      for j := 0 to owner.Length
        invariant Valid() && SameNodes(old(nodes), nodes)
        invariant forall i :: 0 <= i < j ==> owner[i] == Move(old(owner[i]), n, None)
        invariant forall i :: 0 <= i < j ==> importing[i] == Move(old(importing[i]), n, None)
        invariant forall i :: 0 <= i < j ==> migrating[i] == Move(old(migrating[i]), n, None)
        invariant forall i :: j <= i < owner.Length ==> owner[i] == old(owner[i])
        invariant forall i :: j <= i < owner.Length ==>
          importing[i] == old(importing[i]) && migrating[i] == old(migrating[i])
      {
        if importing[j] == Some(n) { importing[j] := None; }
        if migrating[j] == Some(n) { migrating[j] := None; }
        if owner[j] == Some(n) { var ok := DelSlot(j); }
      }
      assert owner[..] == Moved(old(owner[..]), n, None);
      assert importing[..] == Moved(old(importing[..]), n, None);
      assert migrating[..] == Moved(old(migrating[..]), n, None);
      ForgetKeeps(owner[..], nodes, n);
      nodes := nodes - {n};
    }

    /** The epoch recorded for the owner of slot `j`, if it has one. */
    ghost function Epochs(): map<Id, nat>
      reads this
    {
      EpochsOf(nodes)
    }

    /** The body of the loop of clusterUpdateSlotsConfigWith for one claimed slot. */
    method ClaimSlot(sender: Id, epoch: nat, j: nat) returns (taken: bool)
      requires Valid() && sender in nodes && j < owner.Length
      modifies this`nodes, owner
      ensures Valid() && SameNodes(old(nodes), nodes)
      ensures taken <==> && old(owner[j]) != Some(sender) && importing[j].None?
                         && (old(owner[j]).Some? ==>
                               && old(owner[j]).value in old(nodes)
                               && old(nodes)[old(owner[j]).value].configEpoch < epoch)
      ensures owner[..] == if taken then old(owner[..])[j := Some(sender)] else old(owner[..])
      ensures old(owner[j]).Some? ==> old(owner[j]).value in old(nodes)
    {
      hide Coherent;
      if owner[j].Some? { OwnerKnown(owner[..], nodes, j); }
      if owner[j] == Some(sender) || importing[j].Some? { return false; }
      if owner[j].Some? && nodes[owner[j].value].configEpoch >= epoch { return false; }
      var deleted := DelSlot(j);
      var added := AddSlot(sender, j);
      return true;
    }

    /** clusterUpdateSlotsConfigWith: `demoted` tells the caller to become a replica of the sender. `redirect` is false
        when a module disabled redirections. A claim about this node itself is discarded. */
    method UpdateSlotsConfigWith(sender: Id, epoch: nat, claimed: seq<bool>, current: Id, migration: bool,
                                 redirect: bool)
      returns (demoted: bool)
      requires Valid() && sender in nodes && current in nodes && |claimed| == owner.Length
      modifies this`nodes, owner
      ensures Valid() && SameNodes(old(nodes), nodes)
      ensures sender == me ==> owner[..] == old(owner[..]) && nodes == old(nodes) && !demoted
      ensures sender != me ==>
              var claim := Claim(sender, epoch, claimed);
              && owner[..] == Rebind(old(owner[..]), old(importing[..]), old(Epochs()), claim)
              && var lost := LostBits(old(owner[..]), old(importing[..]), old(Epochs()), claim, current);
                 demoted <==> && redirect && Count(lost) > 0
                              && (forall j :: 0 <= j < owner.Length ==> owner[j] != Some(current))
                              && (migration || Count(claimed) == Count(lost))
    {
      hide Coherent, Rebind, LostBits;
      if sender == me { return false; }
      var senderSlots, migrated := ClaimSlots(sender, epoch, claimed, current);
      NoneOwned(owner[..], nodes, current);
      demoted := redirect && migrated > 0 && nodes[current].numslots == 0 && (migration || senderSlots == migrated);
    }

    /** The loop of clusterUpdateSlotsConfigWith, and how many slots were claimed and taken from `current`. */
    method ClaimSlots(sender: Id, epoch: nat, claimed: seq<bool>, current: Id) returns (senderSlots: nat, migrated: nat)
      requires Valid() && sender in nodes && current in nodes && |claimed| == owner.Length
      modifies this`nodes, owner
      ensures Valid() && SameNodes(old(nodes), nodes)
      ensures var claim := Claim(sender, epoch, claimed);
              && owner[..] == Rebind(old(owner[..]), old(importing[..]), old(Epochs()), claim)
              && migrated == Count(LostBits(old(owner[..]), old(importing[..]), old(Epochs()), claim, current))
              && senderSlots == Count(claimed)
    {
      hide Coherent, Rebind, LostBits;
      ghost var claim := Claim(sender, epoch, claimed);
      ghost var lost := LostBits(owner[..], importing[..], Epochs(), claim, current);
      senderSlots, migrated := 0, 0;
      for j := 0 to owner.Length
        invariant Valid() && SameNodes(old(nodes), nodes)
        invariant forall i :: 0 <= i < j ==>
          owner[i] == RebindSlot(old(owner[..]), importing[..], old(Epochs()), claim, i)
        invariant forall i :: j <= i < owner.Length ==> owner[i] == old(owner[i])
        invariant senderSlots == Count(claimed[..j]) && migrated == Count(lost[..j])
      {
        CountNext(claimed, j);
        CountNext(lost, j);
        LostBit(old(owner[..]), importing[..], old(Epochs()), claim, current, j);
        if claimed[j] {
          senderSlots := senderSlots + 1;
          var former := owner[j];
          var taken := ClaimSlot(sender, epoch, j);
          if taken && former == Some(current) { migrated := migrated + 1; }
        }
      }
      assert claimed[..owner.Length] == claimed && lost[..owner.Length] == lost;
      RebindIs(old(owner[..]), importing[..], old(Epochs()), claim, owner[..]);
    }

    /** CLUSTER ADDSLOTS and DELSLOTS: either every named slot changes hands or nothing does, and the error
        is the one of the first offending argument. */
    method ChangeSlots(args: seq<int>, del: bool) returns (error: Option<SlotError>)
      requires Valid()
      modifies this`nodes, owner, importing
      ensures Valid() && SameNodes(old(nodes), nodes)
      ensures error.None? <==> forall k :: 0 <= k < |args| ==> ErrorAt(old(owner[..]), args, k, del).None?
      ensures error.Some? ==> exists k :: 0 <= k < |args| && ErrorAt(old(owner[..]), args, k, del) == error
                                          && forall i :: 0 <= i < k ==> ErrorAt(old(owner[..]), args, i, del).None?
      ensures error.Some? ==> owner[..] == old(owner[..]) && nodes == old(nodes) && importing[..] == old(importing[..])
      ensures error.None? ==> forall j :: 0 <= j < owner.Length ==>
                owner[j] == (if j in args then (if del then None else Some(me)) else old(owner[j])) &&
                importing[j] == (if j in args then None else old(importing[j]))
    {
      hide Coherent;
      ghost var before := owner[..];
      var named := new bool[owner.Length](_ => false);
      for k := 0 to |args|
        modifies named
        invariant Valid()
        invariant forall i :: 0 <= i < k ==> ErrorAt(before, args, i, del).None?
        invariant forall j :: 0 <= j < owner.Length ==> (named[j] <==> j in args[..k])
      {
        var slot := args[k];
        ghost var wrong := ErrorAt(before, args, k, del);
        if slot < 0 || slot >= owner.Length { return Some(InvalidSlot); }
        if del && owner[slot].None? { return Some(Unassigned(slot)); }
        if !del && owner[slot].Some? { return Some(Busy(slot)); }
        if named[slot] { return Some(Repeated(slot)); }
        named[slot] := true;
        assert args[..k + 1] == args[..k] + [slot];
      }
      assert args[..|args|] == args;
      forall j | 0 <= j < owner.Length && named[j] ensures owner[j].Some? == del {
        var i :| 0 <= i < |args| && args[i] == j;
        assert ErrorAt(before, args, i, del).None?;
      }
      ApplyNamed(named, del);
      error := None;
    }

    /** The second loop of ADDSLOTS and DELSLOTS. */
    method ApplyNamed(named: array<bool>, del: bool)
      requires Valid() && named.Length == owner.Length
      requires forall j :: 0 <= j < owner.Length && named[j] ==> owner[j].Some? == del
      modifies this`nodes, owner, importing
      ensures Valid() && SameNodes(old(nodes), nodes)
      ensures forall j :: 0 <= j < owner.Length ==>
                owner[j] == (if named[j] then (if del then None else Some(me)) else old(owner[j])) &&
                importing[j] == (if named[j] then None else old(importing[j]))
    {
      hide Coherent;
      for j := 0 to owner.Length
        invariant Valid() && SameNodes(old(nodes), nodes)
        invariant forall i :: 0 <= i < j ==>
          owner[i] == (if named[i] then (if del then None else Some(me)) else old(owner[i]))
        invariant forall i :: 0 <= i < j ==> importing[i] == (if named[i] then None else old(importing[i]))
        invariant forall i :: j <= i < owner.Length ==> owner[i] == old(owner[i]) && importing[i] == old(importing[i])
      {
        if named[j] {
          if importing[j].Some? { importing[j] := None; }
          var ok;
          if del { ok := DelSlot(j); } else { ok := AddSlot(me, j); }
          assert ok;
        }
      }
    }

    /** CLUSTER SETSLOT NODE. A slot that still holds keys here is not given away; `bumped` asks for a new epoch
        because an imported slot was closed. */
    method SetSlotNode(slot: nat, n: Id, keys: nat) returns (ok: bool, bumped: bool)
      requires Valid() && slot < owner.Length && n in nodes
      modifies this`nodes, owner, importing, migrating
      ensures Valid() && SameNodes(old(nodes), nodes)
      ensures !ok <==> old(owner[slot]) == Some(me) && n != me && keys != 0
      ensures owner[..] == if ok then old(owner[..])[slot := Some(n)] else old(owner[..])
      ensures bumped <==> ok && n == me && old(importing[slot]).Some?
      ensures importing[..] == if bumped then old(importing[..])[slot := None] else old(importing[..])
      ensures migrating[..] == if ok && keys == 0 then old(migrating[..])[slot := None] else old(migrating[..])
    {
      hide Coherent;
      if owner[slot] == Some(me) && n != me && keys != 0 { return false, false; }
      if keys == 0 && migrating[slot].Some? { migrating[slot] := None; }
      var deleted := DelSlot(slot);
      var added := AddSlot(n, slot);
      bumped := n == me && importing[slot].Some?;
      if bumped { importing[slot] := None; }
      ok := true;
    }
  }

  /** `n` gains a slot. */
  function Gain(nodes: map<Id, Entry>, n: Id, slot: nat): map<Id, Entry> {
    if n !in nodes || slot >= |nodes[n].bitmap| then nodes else
    nodes[n := nodes[n].(bitmap := nodes[n].bitmap[slot := true], numslots := nodes[n].numslots + 1)]
  }

  /** `n` loses a slot. */
  function Lose(nodes: map<Id, Entry>, n: Id, slot: nat): map<Id, Entry> {
    if n !in nodes || slot >= |nodes[n].bitmap| then nodes else
    nodes[n := nodes[n].(bitmap := nodes[n].bitmap[slot := false], numslots := nodes[n].numslots - 1)]
  }

  /** The same nodes with the same epochs; bitmaps and counts may differ. */
  ghost predicate SameNodes(a: map<Id, Entry>, b: map<Id, Entry>) {
    b.Keys == a.Keys && forall n :: n in a ==> b[n].configEpoch == a[n].configEpoch
  }

  /** A node that neither loses nor gains the slot is not affected. */
  lemma OtherEntry(owner: seq<Option<Id>>, slot: nat, v: Option<Id>, m: Id, e: Entry)
    requires slot < |owner| && EntryOk(owner, m, e) && owner[slot] != Some(m) && v != Some(m)
    ensures EntryOk(owner[slot := v], m, e)
  {
    assert BitmapOf(owner[slot := v], m) == BitmapOf(owner, m);
  }

  lemma GainedEntry(owner: seq<Option<Id>>, slot: nat, n: Id, e: Entry)
    requires slot < |owner| && EntryOk(owner, n, e) && owner[slot].None?
    ensures slot < |e.bitmap| && !e.bitmap[slot]
    ensures EntryOk(owner[slot := Some(n)], n, e.(bitmap := e.bitmap[slot := true], numslots := e.numslots + 1))
  {
    CountUpdate(e.bitmap, slot, true);
    assert BitmapOf(owner[slot := Some(n)], n) == e.bitmap[slot := true];
  }

  lemma LostEntry(owner: seq<Option<Id>>, slot: nat, n: Id, e: Entry)
    requires slot < |owner| && EntryOk(owner, n, e) && owner[slot] == Some(n)
    ensures slot < |e.bitmap| && e.bitmap[slot]
    ensures EntryOk(owner[slot := None], n, e.(bitmap := e.bitmap[slot := false], numslots := e.numslots - 1))
  {
    CountUpdate(e.bitmap, slot, false);
    assert BitmapOf(owner[slot := None], n) == e.bitmap[slot := false];
  }

  lemma AssignKeeps(owner: seq<Option<Id>>, a: map<Id, Entry>, slot: nat, n: Id)
    requires Coherent(owner, a) && slot < |owner| && owner[slot].None? && n in a
    ensures slot < |a[n].bitmap| && !a[n].bitmap[slot]
    ensures Coherent(owner[slot := Some(n)], Gain(a, n, slot))
  {
    hide EntryOk;
    GainedEntry(owner, slot, n, a[n]);
    forall m | m in a && m != n ensures EntryOk(owner[slot := Some(n)], m, a[m]) {
      OtherEntry(owner, slot, Some(n), m, a[m]);
    }
  }

  lemma ReleaseKeeps(owner: seq<Option<Id>>, a: map<Id, Entry>, slot: nat, n: Id)
    requires Coherent(owner, a) && slot < |owner| && owner[slot] == Some(n) && n in a
    ensures slot < |a[n].bitmap| && a[n].bitmap[slot]
    ensures Coherent(owner[slot := None], Lose(a, n, slot))
  {
    hide EntryOk;
    LostEntry(owner, slot, n, a[n]);
    forall m | m in a && m != n ensures EntryOk(owner[slot := None], m, a[m]) {
      OtherEntry(owner, slot, None, m, a[m]);
    }
  }

  /** Slot owner `o`, with `a` replaced by `b`. */
  function Move(o: Option<Id>, a: Id, b: Option<Id>): Option<Id> { if o == Some(a) then b else o }

  function Moved(owner: seq<Option<Id>>, a: Id, b: Option<Id>): (r: seq<Option<Id>>)
    ensures |r| == |owner| && forall j :: 0 <= j < |owner| ==> r[j] == Move(owner[j], a, b)
  {
    seq(|owner|, j requires 0 <= j < |owner| => Move(owner[j], a, b))
  }

  lemma BitIsOwnership(owner: seq<Option<Id>>, nodes: map<Id, Entry>, n: Id, j: nat)
    requires Coherent(owner, nodes) && n in nodes && j < |owner|
    ensures |nodes[n].bitmap| == |owner| && (nodes[n].bitmap[j] <==> owner[j] == Some(n))
  {
    assert EntryOk(owner, n, nodes[n]);
  }

  lemma OwnerKnown(owner: seq<Option<Id>>, nodes: map<Id, Entry>, j: nat)
    requires Coherent(owner, nodes) && j < |owner| && owner[j].Some?
    ensures owner[j].value in nodes
  {}

  lemma NoneOwned(owner: seq<Option<Id>>, nodes: map<Id, Entry>, n: Id)
    requires Coherent(owner, nodes) && n in nodes
    ensures nodes[n].numslots == 0 <==> forall j :: 0 <= j < |owner| ==> owner[j] != Some(n)
  {
    assert EntryOk(owner, n, nodes[n]);
    CountZero(nodes[n].bitmap);
  }

  lemma ForgetKeeps(owner: seq<Option<Id>>, nodes: map<Id, Entry>, n: Id)
    requires Coherent(owner, nodes) && forall j :: 0 <= j < |owner| ==> owner[j] != Some(n)
    ensures Coherent(owner, nodes - {n})
  {}

  // ------------------------------------------------------------------
  // Claims
  // ------------------------------------------------------------------

  /** A master's claim: under this epoch it serves these slots. */
  datatype Claim = Claim(sender: Id, epoch: nat, slots: seq<bool>)

  ghost function EpochsOf(nodes: map<Id, Entry>): map<Id, nat> {
    map n | n in nodes :: nodes[n].configEpoch
  }

  /** Does the claim take slot `j`? */
  predicate Takes(owner: seq<Option<Id>>, importing: seq<Option<Id>>, epochs: map<Id, nat>, c: Claim, j: nat)
    requires j < |owner|
  {
    && j < |c.slots| && c.slots[j]
    && owner[j] != Some(c.sender)
    && (j < |importing| ==> importing[j].None?)
    && (owner[j].Some? && owner[j].value in epochs ==> epochs[owner[j].value] < c.epoch)
  }

  function RebindSlot(owner: seq<Option<Id>>, importing: seq<Option<Id>>, epochs: map<Id, nat>, c: Claim,
                      j: nat): Option<Id>
    requires j < |owner|
  {
    if Takes(owner, importing, epochs, c, j) then Some(c.sender) else owner[j]
  }

  /** The owner array after a claim was processed. */
  function Rebind(owner: seq<Option<Id>>, importing: seq<Option<Id>>, epochs: map<Id, nat>,
                  c: Claim): (r: seq<Option<Id>>)
    ensures |r| == |owner|
    ensures forall j :: 0 <= j < |owner| ==> r[j] == RebindSlot(owner, importing, epochs, c, j)
  {
    seq(|owner|, j requires 0 <= j < |owner| => RebindSlot(owner, importing, epochs, c, j))
  }

  lemma RebindIs(owner: seq<Option<Id>>, importing: seq<Option<Id>>, epochs: map<Id, nat>, c: Claim, r: seq<Option<Id>>)
    requires |r| == |owner| && forall j :: 0 <= j < |owner| ==> r[j] == RebindSlot(owner, importing, epochs, c, j)
    ensures r == Rebind(owner, importing, epochs, c)
  {}

  /** The slots a claim takes from `current`. */
  function LostBits(owner: seq<Option<Id>>, importing: seq<Option<Id>>, epochs: map<Id, nat>, c: Claim,
                    current: Id): (b: seq<bool>)
    ensures |b| == |owner|
  {
    seq(|owner|, j requires 0 <= j < |owner| => Takes(owner, importing, epochs, c, j) && owner[j] == Some(current))
  }

  lemma LostBit(owner: seq<Option<Id>>, importing: seq<Option<Id>>, epochs: map<Id, nat>, c: Claim, current: Id, j: nat)
    requires j < |owner|
    ensures LostBits(owner, importing, epochs, c, current)[j]
         <==> Takes(owner, importing, epochs, c, j) && owner[j] == Some(current)
  {}

  lemma CountNext(bits: seq<bool>, j: nat)
    requires j < |bits|
    ensures Count(bits[..j + 1]) == Count(bits[..j]) + (if bits[j] then 1 else 0)
  {
    assert bits[..j + 1][..j] == bits[..j];
  }

  datatype SlotError = InvalidSlot | Unassigned(slot: int) | Busy(slot: int) | Repeated(slot: int)

  /** What ADDSLOTS or DELSLOTS finds wrong with argument `k`. */
  function ErrorAt(owner: seq<Option<Id>>, args: seq<int>, k: nat, del: bool): Option<SlotError>
    requires k < |args|
  {
    var slot := args[k];
    if slot < 0 || slot >= |owner| then Some(InvalidSlot)
    else if del && owner[slot].None? then Some(Unassigned(slot))
    else if !del && owner[slot].Some? then Some(Busy(slot))
    else if slot in args[..k] then Some(Repeated(slot))
    else None
  }
}
