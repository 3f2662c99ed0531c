/** What the handlers of one node promise each other: headers commute, a collision moves one of two masters, a vote
    shuts out every other vote of its epoch, and so on. */
module ClusterPromises {
  import opened Common
  import opened ClusterNode

  /** Nothing but the epochs of `p` and the current one may differ. */
  ghost predicate OnlyEpochOf(n: Node, r: Node, p: Id) {
    && r == n.(currentEpoch := r.currentEpoch, peers := r.peers) && r.peers.Keys == n.peers.Keys
    && forall q :: q in n.peers ==>
         r.peers[q] == if q == p then n.peers[q].(configEpoch := r.peers[q].configEpoch) else n.peers[q]
  }

  /** A header raises both epochs to the greater value and touches nothing else. */
  lemma AbsorbRaises(n: Node, h: Header)
    requires n.Valid() && h.sender in n.peers
    ensures var r := Absorb(n, h);
            && OnlyEpochOf(n, r, h.sender)
            && n.currentEpoch <= r.currentEpoch && h.currentEpoch <= r.currentEpoch
            && (r.currentEpoch == n.currentEpoch || r.currentEpoch == h.currentEpoch)
            && var before, after := n.peers[h.sender].configEpoch, r.peers[h.sender].configEpoch;
               before <= after && h.configEpoch <= after && (after == before || after == h.configEpoch)
  {}

  /** Headers may come in any order and more than once. */
  lemma AbsorbCommutes(n: Node, h: Header, g: Header)
    requires n.Valid() && h.sender in n.peers && g.sender in n.peers
    ensures Absorb(Absorb(n, h), g) == Absorb(Absorb(n, g), h)
    ensures Absorb(Absorb(n, h), h) == Absorb(n, h)
  {
    hide Node.Valid;
    assert Absorb(Absorb(n, h), g).peers == Absorb(Absorb(n, g), h).peers;
    assert Absorb(Absorb(n, h), h).peers == Absorb(n, h).peers;
  }

  /** `n` records itself and `p` as masters of one and the same configuration epoch. */
  ghost predicate Collides(n: Node, p: Id)
    requires n.Valid() && p in n.peers
  {
    n.IsMaster(n.me) && n.IsMaster(p) && n.peers[p].configEpoch == n.peers[n.me].configEpoch
  }

  /** Who moves and to which epoch: the smaller name, to one above the current epoch. */
  lemma CollisionMoves(n: Node, p: Id)
    requires n.Valid() && p in n.peers
    ensures var r := HandleCollision(n, p);
            && (r != n <==> Collides(n, p) && n.me < p)
            && (r != n ==> OnlyEpochOf(n, r, n.me) && r.peers[n.me].configEpoch == r.currentEpoch == n.currentEpoch + 1)
  {}

  /** Of two masters that see each other's collision exactly one moves. */
  lemma CollisionMovesOne(a: Node, b: Node)
    requires a.Valid() && b.Valid() && b.me in a.peers && a.me in b.peers && a.me != b.me
    requires Collides(a, b.me) && Collides(b, a.me)
    ensures HandleCollision(a, b.me) == a <==> HandleCollision(b, a.me) != b
  {
    CollisionMoves(a, b.me);
    CollisionMoves(b, a.me);
  }

  /** CLUSTER SET-CONFIG-EPOCH takes effect exactly on a node that is alone and has no epoch yet, and leaves its epoch
      no higher than the current one. */
  lemma SetConfigEpochAlone(n: Node, epoch: nat)
    requires n.Valid()
    ensures var r := SetConfigEpoch(n, epoch);
            var alone := n.peers.Keys == {n.me} && n.peers[n.me].configEpoch == 0;
            if alone
            then OnlyEpochOf(n, r, n.me) && r.peers[n.me].configEpoch == epoch <= r.currentEpoch
                 && n.currentEpoch <= r.currentEpoch && (r.currentEpoch == n.currentEpoch || r.currentEpoch == epoch)
            else r == n
  {
    if n.peers.Keys != {n.me} && |n.peers| <= 1 {
      var q :| q in n.peers && q != n.me;
      SubsetSize({n.me, q}, n.peers.Keys);
    }
    assert |n.peers| == |n.peers.Keys|;
  }

  /** A report takes a slot that it claims, that is not being imported, and that has no owner of this epoch or newer. */
  ghost predicate Takes(n: Node, epoch: nat, slots: set<Slot>, j: Slot)
    requires n.Valid()
  {
    j in slots && j !in n.importing && (j !in n.owner || n.peers[n.owner[j]].configEpoch < epoch)
  }

  /** `r` has the slots of `n`, but `p` has those that the report takes. */
  ghost predicate Installed(n: Node, r: Node, p: Id, epoch: nat, slots: set<Slot>)
    requires n.Valid()
  {
    forall j: Slot ::
      && (Takes(n, epoch, slots, j) ==> j in r.owner && r.owner[j] == p)
      && (!Takes(n, epoch, slots, j) ==>
            (j in r.owner <==> j in n.owner) && (j in n.owner ==> r.owner[j] == n.owner[j]))
  }

  lemma ReboundInstalls(n: Node, n1: Node, r: Node, p: Id, epoch: nat, slots: set<Slot>)
    requires n.Valid() && n1.Valid() && p in n.peers && n.peers[p].configEpoch < epoch
    requires n1.owner == n.owner && n1.importing == n.importing && n1.peers.Keys == n.peers.Keys
    requires n1.peers[p].configEpoch == epoch && forall q :: q in n.peers && q != p ==> n1.peers[q] == n.peers[q]
    requires r.owner == Rebound(n1, p, epoch, slots)
    ensures Installed(n, r, p, epoch, slots)
  {}

  lemma UpdateSlotsOwner(n: Node, p: Id, epoch: nat, slots: set<Slot>, migration: bool, redirect: bool)
    requires n.Valid() && p in n.peers
    ensures var r := UpdateSlots(n, p, epoch, slots, migration, redirect);
            && r.owner == (if p == n.me then n.owner else Rebound(n, p, epoch, slots))
            && r.peers[p] == n.peers[p]
  {
    hide Rebound, Taken;
  }

  /** An UPDATE about a known node with a newer epoch makes it a master with that epoch and gives it exactly the slots
      that the report takes; about this node itself it gives none; any other UPDATE changes nothing. */
  lemma UpdateInstalls(n: Node, about: Id, epoch: nat, slots: set<Slot>, migration: bool, redirect: bool)
    requires n.Valid()
    ensures var r := ProcessUpdate(n, about, epoch, slots, migration, redirect);
            if about !in n.peers || n.peers[about].configEpoch >= epoch then r == n
            else
              && r.peers[about].role.Master? && r.peers[about].configEpoch == epoch
              && (about == n.me ==> r.owner == n.owner)
              && (about != n.me ==> Installed(n, r, about, epoch, slots))
  {
    if about in n.peers && n.peers[about].configEpoch < epoch {
      var n1 := n.(peers := n.peers[about := n.peers[about].(role := Master, configEpoch := epoch)]);
      assert n1.Valid();
      hide UpdateSlots, Rebound, Installed;
      UpdateSlotsOwner(n1, about, epoch, slots, migration, redirect);
      var r := ProcessUpdate(n, about, epoch, slots, migration, redirect);
      if about != n.me { ReboundInstalls(n, n1, r, about, epoch, slots); }
    }
  }

  /** After a vote every other request of the same epoch is refused, and so is every request by a replica of the same
      master until twice the node timeout has passed. */
  lemma VoteShutsOut(n: Node, h: Header, g: Header, forced: bool, nodeTimeout: nat, elapsed: nat)
    requires n.Valid() && h.sender in n.peers && n.peers[h.sender].role.Replica? && n.peers[h.sender].role.of.Some?
    requires g.sender in n.peers
    ensures var later := CastVote(n, h).(now := n.now + elapsed);
            && later.Valid() && g.sender in later.peers
            && var seen := Absorb(later, g);
               && (seen.currentEpoch == n.currentEpoch ==> !GrantsVote(seen, g, forced, nodeTimeout))
               && (n.peers[g.sender].role == n.peers[h.sender].role && elapsed < 2 * nodeTimeout ==>
                     !GrantsVote(seen, g, forced, nodeTimeout))
  {
    var v := CastVote(n, h);
    var later := v.(now := n.now + elapsed);
    assert v.Valid() && later.Valid();
    var seen := Absorb(later, g);
    assert seen.lastVoteEpoch == n.currentEpoch;
    var m := n.peers[h.sender].role.of.value;
    assert seen.peers[m].votedTime == n.now;
    assert seen.peers[g.sender].role == n.peers[g.sender].role;
  }

  /** Winning an election makes this node the master of its former master's slots besides its own, under an epoch no
      lower than that of the election; every other node keeps exactly what it had. */
  lemma WinTakesSlots(n: Node, i: FailoverInput, nodeTimeout: nat)
    requires n.Valid() && FailoverDecision(n, i, nodeTimeout) == Won
    ensures n.peers[n.me].role.Replica? && n.peers[n.me].role.of.Some?
    ensures var r, former := HandleFailover(n, i, nodeTimeout), n.peers[n.me].role.of.value;
            && r.IsMaster(n.me) && n.authEpoch <= r.peers[n.me].configEpoch
            && (former != n.me ==> r.SlotsOf(former) == {} && r.SlotsOf(n.me) == n.SlotsOf(n.me) + n.SlotsOf(former))
            && forall p :: p != n.me && p != former ==>
                 r.SlotsOf(p) == n.SlotsOf(p) && (p in n.peers ==> r.peers[p] == n.peers[p])
  {
    var r, former := HandleFailover(n, i, nodeTimeout), n.peers[n.me].role.of.value;
    assert forall j :: j in r.owner <==> j in n.owner;
    assert forall j :: j in n.owner ==> r.owner[j] == if n.owner[j] == former then n.me else n.owner[j];
  }
}
