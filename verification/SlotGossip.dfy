/** A node that hears PINGs ends up with the slot table that the claims in them amount to. */
module SlotGossip {
  import opened Common
  import opened ClusterNode
  import opened ClusterPromises
  import opened SlotTable
  import opened SlotClaims

  /** The node sees the view: it has its owners and the epochs of all claimants, makes no claim itself, and imports no
      slot. */
  ghost predicate Sees(n: Node, claims: map<Id, Claim>, slots: nat, v: View) {
    && n.Valid() && n.importing == {} && n.me !in claims && claims.Keys <= n.peers.Keys
    && |v.owner| == slots && n.owner == OwnerMap(v.owner)
    && (forall p :: p in claims ==> p in v.epochs && v.epochs[p] == n.peers[p].configEpoch)
    && (forall j :: 0 <= j < slots && v.owner[j].Some? ==> v.owner[j].value in claims)
  }

  /** The header of a PING that makes a claim. */
  ghost function Says(c: Claim, currentEpoch: nat): Header {
    Header(c.sender, currentEpoch, c.epoch, Master, SlotSet(c.slots))
  }

  /** Rebinding by claims and by what the node records is the same. */
  lemma ReboundIs(n: Node, claims: map<Id, Claim>, slots: nat, v: View, c: Claim)
    requires Sees(n, claims, slots, v) && c.sender in claims && |c.slots| == slots
    ensures Rebound(n, c.sender, c.epoch, SlotSet(c.slots)) == OwnerMap(Rebind(v.owner, [], v.epochs, c))
  {
    var r := Rebind(v.owner, [], v.epochs, c);
    var m := Rebound(n, c.sender, c.epoch, SlotSet(c.slots));
    forall j: nat | j < |v.owner|
      ensures (j in m <==> r[j].Some?) && (r[j].Some? ==> m[j] == r[j].value)
    {
      assert r[j] == RebindSlot(v.owner, [], v.epochs, c, j);
      assert v.owner[j].Some? ==> j in n.owner && v.owner[j].value in claims;
    }
  }

  /** A claim of exactly what is recorded takes nothing. */
  lemma NotDirty(n: Node, p: Id, epoch: nat, claimed: set<Slot>)
    requires n.Valid() && p in n.peers && n.SlotsOf(p) == claimed
    ensures Rebound(n, p, epoch, claimed) == n.owner
  {
    assert forall j :: j in claimed ==> j in n.owner && n.owner[j] == p;
  }

  /** The epochs of a header are recorded as a delivery records them. */
  lemma RoleSees(n: Node, claims: map<Id, Claim>, slots: nat, v: View, p: Id, currentEpoch: nat)
    requires Sees(n, claims, slots, v) && p in claims && claims[p].sender == p && |claims[p].slots| == slots
    ensures var r, h := AfterRole(n, Says(claims[p], currentEpoch)), Says(claims[p], currentEpoch);
            && Sees(r, claims, slots, v.(epochs := v.epochs[p := Max(v.epochs[p], claims[p].epoch)]))
            && r.IsMaster(p) && r.me == n.me
  {}

  /** One PING is one delivery: the owners and the epochs of all claimants change alike. */
  lemma PingDelivers(n: Node, claims: map<Id, Claim>, slots: nat, v: View, p: Id, currentEpoch: nat, migration: bool,
                     redirect: bool)
    requires Sees(n, claims, slots, v) && p in claims && claims[p].sender == p && |claims[p].slots| == slots
    ensures var r := ProcessPing(n, Says(claims[p], currentEpoch), migration, redirect);
            Sees(r, claims, slots, Deliver(claims, v, p))
  {
    var c, h := claims[p], Says(claims[p], currentEpoch);
    var r, a := AfterRole(n, h), AfterSlots(n, h, migration, redirect);
    var d := Deliver(claims, v, p);
    var v' := v.(epochs := d.epochs);
    RoleSees(n, claims, slots, v, p, currentEpoch);
    ReboundIs(r, claims, slots, v', c);
    OwnersClaim(claims, slots, v', c);
    hide AfterRole, Rebind, Rebound, UpdateSlots, HandleCollision, OwnerMap, SlotSet, Sees;
    SlotsSees(r, claims, slots, v', h, migration, redirect, d.owner);
    CollisionSees(a, claims, slots, d, p);
  }

  lemma OwnersClaim(claims: map<Id, Claim>, slots: nat, v: View, c: Claim)
    requires c.sender in claims && |v.owner| == slots
    requires forall j :: 0 <= j < slots && v.owner[j].Some? ==> v.owner[j].value in claims
    ensures forall j :: 0 <= j < slots && Rebind(v.owner, [], v.epochs, c)[j].Some? ==>
              Rebind(v.owner, [], v.epochs, c)[j].value in claims
  {}

  lemma SlotsSees(n: Node, claims: map<Id, Claim>, slots: nat, v: View, h: Header, migration: bool, redirect: bool,
                  owner: seq<Option<Id>>)
    requires Sees(n, claims, slots, v) && h.sender in claims && n.IsMaster(h.sender) && |owner| == slots
    requires Rebound(n, h.sender, h.configEpoch, h.slots) == OwnerMap(owner)
    requires forall j :: 0 <= j < slots && owner[j].Some? ==> owner[j].value in claims
    ensures var r := if Dirty(n, h) then UpdateSlots(n, h.sender, h.configEpoch, h.slots, migration, redirect) else n;
            Sees(r, claims, slots, View(owner, v.epochs))
  {
    if Dirty(n, h) {
      UpdateSees(n, claims, slots, v, h.sender, h.configEpoch, h.slots, migration, redirect, owner);
    } else {
      NotDirty(n, h.sender, h.configEpoch, h.slots);
    }
    hide Rebound, UpdateSlots;
  }

  lemma UpdateSees(n: Node, claims: map<Id, Claim>, slots: nat, v: View, p: Id, epoch: nat, claimed: set<Slot>,
                   migration: bool, redirect: bool, owner: seq<Option<Id>>)
    requires Sees(n, claims, slots, v) && p in claims && |owner| == slots
    requires Rebound(n, p, epoch, claimed) == OwnerMap(owner)
    requires forall j :: 0 <= j < slots && owner[j].Some? ==> owner[j].value in claims
    ensures Sees(UpdateSlots(n, p, epoch, claimed, migration, redirect), claims, slots, View(owner, v.epochs))
  {
    UpdateSlotsOwner(n, p, epoch, claimed, migration, redirect);
    hide Rebound, Taken;
  }

  lemma CollisionSees(n: Node, claims: map<Id, Claim>, slots: nat, v: View, p: Id)
    requires Sees(n, claims, slots, v) && p in claims
    ensures Sees(HandleCollision(n, p), claims, slots, v)
  {}

  /** PINGs one after the other. */
  ghost function Hears(n: Node, claims: map<Id, Claim>, order: seq<Id>, currentEpoch: nat, migration: bool,
                       redirect: bool): Node
    requires n.Valid() && claims.Keys <= n.peers.Keys
    requires forall p :: p in order ==> p in claims && claims[p].sender == p
    ensures Keeps(n, Hears(n, claims, order, currentEpoch, migration, redirect))
  {
    if order == [] then n
    else
      var r := Hears(n, claims, order[..|order| - 1], currentEpoch, migration, redirect);
      ProcessPing(r, Says(claims[order[|order| - 1]], currentEpoch), migration, redirect)
  }

  lemma {:induction false} HearsSees(n: Node, claims: map<Id, Claim>, slots: nat, v: View, order: seq<Id>,
                                     currentEpoch: nat,
                                     migration: bool, redirect: bool)
    requires Sees(n, claims, slots, v) && ClaimsOk(claims, slots) && forall p :: p in order ==> p in claims
    ensures var r := Hears(n, claims, order, currentEpoch, migration, redirect);
            Sees(r, claims, slots, DeliverAll(claims, v, order))
  {
    if order != [] {
      var k := |order| - 1;
      HearsSees(n, claims, slots, v, order[..k], currentEpoch, migration, redirect);
      var r, w := Hears(n, claims, order[..k], currentEpoch, migration, redirect), DeliverAll(claims, v, order[..k]);
      hide Sees, ProcessPing, Deliver;
      PingDelivers(r, claims, slots, w, order[k], currentEpoch, migration, redirect);
    }
  }

  /** The owner of a slot as a node sees it. */
  ghost function OwnerAt(n: Node, j: Slot): Option<Id> { if j in n.owner then Some(n.owner[j]) else None }

  lemma SeesOwner(n: Node, claims: map<Id, Claim>, slots: nat, v: View, j: nat)
    requires Sees(n, claims, slots, v) && j < slots
    ensures OwnerAt(n, j) == v.owner[j]
  {}

  /** A node that makes no claim itself gives every slot to the claimant with the greatest epoch among those heard. */
  lemma NodeSettles(n: Node, claims: map<Id, Claim>, slots: nat, v: View, order: seq<Id>, currentEpoch: nat,
                    migration: bool, redirect: bool)
    requires Sees(n, claims, slots, v) && ClaimsOk(claims, slots) && SlotClaims.Unassigned(claims, slots, v)
    requires forall p :: p in order ==> p in claims
    ensures var r := Hears(n, claims, order, currentEpoch, migration, redirect);
            forall j: nat :: j < slots ==> Greatest(claims, Heard(order), j, OwnerAt(r, j))
  {
    hide Hears, DeliverAll, Greatest, SlotClaims.Unassigned, OwnerAt;
    var r, d := Hears(n, claims, order, currentEpoch, migration, redirect), DeliverAll(claims, v, order);
    hide Sees;
    HearsSees(n, claims, slots, v, order, currentEpoch, migration, redirect);
    GreatestEpochWins(claims, slots, v, order);
    forall j: nat | j < slots ensures Greatest(claims, Heard(order), j, OwnerAt(r, j)) {
      SeesOwner(r, claims, slots, d, j);
    }
  }

  /** Two such nodes that heard the same masters, in any order and however often, agree on all slots. */
  lemma NodesAgree(n: Node, m: Node, claims: map<Id, Claim>, slots: nat, v: View, w: View, order: seq<Id>,
                   order': seq<Id>,
                   currentEpoch: nat, migration: bool, redirect: bool)
    requires Sees(n, claims, slots, v) && Sees(m, claims, slots, w) && ClaimsOk(claims, slots)
    requires SlotClaims.Unassigned(claims, slots, v) && SlotClaims.Unassigned(claims, slots, w)
    requires (forall p :: p in order ==> p in claims) && (forall p :: p in order' ==> p in claims)
    requires Heard(order) == Heard(order')
    ensures Hears(n, claims, order, currentEpoch, migration, redirect).owner
         == Hears(m, claims, order', currentEpoch, migration, redirect).owner
  {
    hide Hears, DeliverAll, SlotClaims.Unassigned, OwnerMap;
    HearsSees(n, claims, slots, v, order, currentEpoch, migration, redirect);
    HearsSees(m, claims, slots, w, order', currentEpoch, migration, redirect);
    OrderDoesNotMatter(claims, slots, v, w, order, order');
  }
}
