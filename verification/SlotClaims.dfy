/** What the slot table amounts to over many claims. */
module SlotClaims {
  import opened Common
  import opened ClusterNode
  import opened SlotTable

  // ------------------------------------------------------------------
  // A claim that changes nothing; counts that add up
  // ------------------------------------------------------------------

  /** Skipping the update when the claimed bitmap equals the recorded one loses nothing. */
  lemma UnchangedClaim(owner: seq<Option<Id>>, importing: seq<Option<Id>>, nodes: map<Id, Entry>, c: Claim)
    requires Coherent(owner, nodes) && c.sender in nodes && c.slots == nodes[c.sender].bitmap
    ensures Rebind(owner, importing, EpochsOf(nodes), c) == owner
  {
    assert EntryOk(owner, c.sender, nodes[c.sender]);
  }

  /** The number of slots owned by someone in `ids`. */
  ghost function OwnedBy(owner: seq<Option<Id>>, ids: set<Id>): nat {
    if owner == [] then 0
    else OwnedBy(owner[..|owner|-1], ids) + (if owner[|owner|-1].Some? && owner[|owner|-1].value in ids then 1 else 0)
  }

  ghost function TotalSlots(nodes: map<Id, Entry>, ids: set<Id>): int
    requires ids <= nodes.Keys
    decreases |ids|
  {
    if ids == {} then 0 else
    var n :| n in ids;
    nodes[n].numslots + TotalSlots(nodes, ids - {n})
  }

  lemma {:induction false} OwnedByOneMore(owner: seq<Option<Id>>, ids: set<Id>, n: Id)
    requires n in ids
    ensures OwnedBy(owner, ids) == OwnedBy(owner, ids - {n}) + Count(BitmapOf(owner, n))
  {
    if owner != [] {
      var k := |owner| - 1;
      OwnedByOneMore(owner[..k], ids, n);
      assert BitmapOf(owner, n)[..k] == BitmapOf(owner[..k], n);
    }
  }

  lemma {:induction false} NobodyOwns(owner: seq<Option<Id>>)
    ensures OwnedBy(owner, {}) == 0
  {
    if owner != [] { NobodyOwns(owner[..|owner|-1]); }
  }

  lemma {:induction false} CountsAddUp(owner: seq<Option<Id>>, nodes: map<Id, Entry>, ids: set<Id>)
    requires Coherent(owner, nodes) && ids <= nodes.Keys
    ensures TotalSlots(nodes, ids) == OwnedBy(owner, ids)
    decreases |ids|
  {
    if ids == {} {
      NobodyOwns(owner);
    } else {
      var n :| n in ids && TotalSlots(nodes, ids) == nodes[n].numslots + TotalSlots(nodes, ids - {n});
      assert EntryOk(owner, n, nodes[n]);
      OwnedByOneMore(owner, ids, n);
      CountsAddUp(owner, nodes, ids - {n});
    }
  }

  /** The number of slots that have an owner. */
  ghost function Assigned(owner: seq<Option<Id>>): nat {
    if owner == [] then 0 else Assigned(owner[..|owner|-1]) + (if owner[|owner|-1].Some? then 1 else 0)
  }

  lemma {:induction false} EverySlotCounted(owner: seq<Option<Id>>, ids: set<Id>)
    requires forall j :: 0 <= j < |owner| && owner[j].Some? ==> owner[j].value in ids
    ensures OwnedBy(owner, ids) == Assigned(owner)
  {
    if owner != [] { EverySlotCounted(owner[..|owner|-1], ids); }
  }

  /** The counts of all nodes add up to the number of assigned slots. */
  lemma NumslotsSumToAssigned(owner: seq<Option<Id>>, nodes: map<Id, Entry>)
    requires Coherent(owner, nodes)
    ensures TotalSlots(nodes, nodes.Keys) == Assigned(owner)
  {
    CountsAddUp(owner, nodes, nodes.Keys);
    EverySlotCounted(owner, nodes.Keys);
  }

  // ------------------------------------------------------------------
  // Claims converge
  // ------------------------------------------------------------------

  /** A receiver's view: the owner of every slot and the epoch recorded for every master. */
  datatype View = View(owner: seq<Option<Id>>, epochs: map<Id, nat>)

  /** One claim per master, all about the same slots, no two under the same epoch. */
  ghost predicate ClaimsOk(claims: map<Id, Claim>, slots: nat) {
    && (forall n :: n in claims ==> claims[n].sender == n && |claims[n].slots| == slots)
    && (forall n, m :: n in claims && m in claims && n != m ==> claims[n].epoch != claims[m].epoch)
  }

  /** Delivery of the claim of `n`: its epoch is recorded, then its slots are looked at. */
  function Deliver(claims: map<Id, Claim>, v: View, n: Id): View
    requires n in claims
  {
    var epochs := v.epochs[n := Max(if n in v.epochs then v.epochs[n] else 0, claims[n].epoch)];
    View(Rebind(v.owner, [], epochs, claims[n]), epochs)
  }

  function DeliverAll(claims: map<Id, Claim>, v: View, order: seq<Id>): View
    requires forall n :: n in order ==> n in claims
  {
    if order == [] then v
    else Deliver(claims, DeliverAll(claims, v, order[..|order|-1]), order[|order|-1])
  }

  ghost predicate ClaimsSlot(claims: map<Id, Claim>, n: Id, j: nat) {
    n in claims && j < |claims[n].slots| && claims[n].slots[j]
  }

  /** `o` is the claimant of slot `j` with the greatest epoch among the masters heard of. */
  ghost predicate Greatest(claims: map<Id, Claim>, heard: set<Id>, j: nat, o: Option<Id>) {
    match o
    case None => forall n :: n in heard ==> !ClaimsSlot(claims, n, j)
    case Some(w) =>
      && w in heard && ClaimsSlot(claims, w, j)
      && forall n :: n in heard && ClaimsSlot(claims, n, j) ==> claims[n].epoch <= claims[w].epoch
  }

  ghost predicate ViewOk(claims: map<Id, Claim>, slots: nat, heard: set<Id>, v: View) {
    && |v.owner| == slots && heard <= claims.Keys
    && (forall j :: 0 <= j < slots ==> Greatest(claims, heard, j, v.owner[j]))
    && (forall n :: n in claims && n in v.epochs ==> v.epochs[n] <= claims[n].epoch)
    && (forall n :: n in heard ==> n in v.epochs && v.epochs[n] == claims[n].epoch)
  }

  lemma GreatestAfter(claims: map<Id, Claim>, slots: nat, heard: set<Id>, v: View, n: Id, j: nat)
    requires ClaimsOk(claims, slots) && ViewOk(claims, slots, heard, v) && n in claims && j < slots
    ensures Greatest(claims, heard + {n}, j, Deliver(claims, v, n).owner[j])
  {
    assert Greatest(claims, heard, j, v.owner[j]);
    var d := Deliver(claims, v, n);
    assert d.owner[j] == RebindSlot(v.owner, [], d.epochs, claims[n], j);
  }

  lemma DeliverKeepsView(claims: map<Id, Claim>, slots: nat, heard: set<Id>, v: View, n: Id)
    requires ClaimsOk(claims, slots) && ViewOk(claims, slots, heard, v) && n in claims
    ensures ViewOk(claims, slots, heard + {n}, Deliver(claims, v, n))
  {
    hide Greatest, RebindSlot;
    var d := Deliver(claims, v, n);
    forall j | 0 <= j < slots ensures Greatest(claims, heard + {n}, j, d.owner[j]) {
      GreatestAfter(claims, slots, heard, v, n, j);
    }
  }

  ghost predicate Unassigned(claims: map<Id, Claim>, slots: nat, v: View) {
    && |v.owner| == slots && (forall j :: 0 <= j < slots ==> v.owner[j] == None)
    && (forall n :: n in claims && n in v.epochs ==> v.epochs[n] <= claims[n].epoch)
  }

  ghost function Heard(order: seq<Id>): set<Id> { set n | n in order }

  /** After any deliveries, in any order and however often repeated, every slot belongs to the claimant with the
      greatest epoch among those heard. */
  lemma {:induction false} GreatestEpochWins(claims: map<Id, Claim>, slots: nat, v: View, order: seq<Id>)
    requires ClaimsOk(claims, slots) && Unassigned(claims, slots, v) && forall n :: n in order ==> n in claims
    ensures ViewOk(claims, slots, Heard(order), DeliverAll(claims, v, order))
  {
    if order != [] {
      var k := |order| - 1;
      GreatestEpochWins(claims, slots, v, order[..k]);
      assert Heard(order) == Heard(order[..k]) + {order[k]} by { assert order == order[..k] + [order[k]]; }
      hide ViewOk, Deliver;
      DeliverKeepsView(claims, slots, Heard(order[..k]), DeliverAll(claims, v, order[..k]), order[k]);
    }
  }

  lemma GreatestUnique(claims: map<Id, Claim>, slots: nat, heard: set<Id>, j: nat, a: Option<Id>, b: Option<Id>)
    requires ClaimsOk(claims, slots) && heard <= claims.Keys
    requires Greatest(claims, heard, j, a) && Greatest(claims, heard, j, b)
    ensures a == b
  {}

  /** Two receivers that heard the same masters agree on every slot, whatever the order. */
  lemma OrderDoesNotMatter(claims: map<Id, Claim>, slots: nat, v: View, w: View, order: seq<Id>, order': seq<Id>)
    requires ClaimsOk(claims, slots) && Unassigned(claims, slots, v) && Unassigned(claims, slots, w)
    requires (forall n :: n in order ==> n in claims) && (forall n :: n in order' ==> n in claims)
    requires Heard(order) == Heard(order')
    ensures DeliverAll(claims, v, order).owner == DeliverAll(claims, w, order').owner
  {
    GreatestEpochWins(claims, slots, v, order);
    GreatestEpochWins(claims, slots, w, order');
    var a, b := DeliverAll(claims, v, order).owner, DeliverAll(claims, w, order').owner;
    hide Greatest;
    forall j | 0 <= j < slots ensures a[j] == b[j] {
      GreatestUnique(claims, slots, Heard(order), j, a[j], b[j]);
    }
  }

  // ------------------------------------------------------------------
  // The table refines the protocol's view of it
  // ------------------------------------------------------------------

  ghost function OwnerMap(owner: seq<Option<Id>>): map<Slot, Id> {
    map j: nat | j < |owner| && owner[j].Some? :: owner[j].value
  }

  ghost function SlotSet(bits: seq<bool>): set<Slot> { set j: nat | j < |bits| && bits[j] }

  /** The loop over the owner array does what the packet handler of the protocol model assumes. */
  lemma RebindRefines(n: Node, owner: seq<Option<Id>>, importing: seq<Option<Id>>, epochs: map<Id, nat>, c: Claim)
    requires n.Valid() && c.sender in n.peers && |importing| == |owner| == |c.slots|
    requires n.owner == OwnerMap(owner) && n.importing == (set j: nat | j < |importing| && importing[j].Some?)
    requires epochs.Keys == n.peers.Keys && forall p :: p in epochs ==> epochs[p] == n.peers[p].configEpoch
    ensures OwnerMap(Rebind(owner, importing, epochs, c)) == Rebound(n, c.sender, c.epoch, SlotSet(c.slots))
  {
    var r := Rebind(owner, importing, epochs, c);
    var m := Rebound(n, c.sender, c.epoch, SlotSet(c.slots));
    forall j: nat | j < |owner|
      ensures (j in m <==> r[j].Some?) && (r[j].Some? ==> m[j] == r[j].value)
    {
      assert r[j] == RebindSlot(owner, importing, epochs, c, j);
      assert owner[j].Some? ==> j in n.owner && owner[j].value in n.peers;
    }
  }
}
