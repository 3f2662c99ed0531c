/** Where a node would stop: the assertion of clusterSetMaster that a replica to be owns no slot, and the pointer to its
    master that clusterUpdateSlotsConfigWith follows. */
module ClusterFaults {
  import opened Common
  import opened ClusterNode
  import opened ClusterBus

  datatype Fault = Fine | NullMaster | OwnsSlots

  /** server.cluster->slots[j]. */
  function OwnerOf(n: Node, j: Slot): Option<Id> { if j in n.owner then Some(n.owner[j]) else None }

  /** curmaster. */
  function CurrentMaster(n: Node): Option<Id>
    requires n.Valid()
  {
    if n.IsMaster(n.me) then Some(n.me) else n.peers[n.me].role.of
  }

  /** The slots for which the loop of clusterUpdateSlotsConfigWith sets newmaster: two null pointers are equal too. */
  function Migrated(n: Node, sender: Id, epoch: nat, claimed: set<Slot>): set<Slot>
    requires n.Valid()
  {
    set j | j in claimed && Rebinds(n, sender, epoch, j) && OwnerOf(n, j) == CurrentMaster(n)
  }

  /** How a call of clusterUpdateSlotsConfigWith ends. */
  function UpdateFault(n: Node, sender: Id, epoch: nat, claimed: set<Slot>, migration: bool, redirect: bool): Fault
    requires n.Valid() && sender in n.peers
  {
    var moved, current := Migrated(n, sender, epoch, claimed), CurrentMaster(n);
    if sender == n.me || !redirect || moved == {} then Fine
    else if current.None? then NullMaster
    else
      var n' := n.(owner := Rebound(n, sender, epoch, claimed));
      if n'.SlotsOf(current.value) != {} || (!migration && claimed != moved) then Fine
      else if n'.SlotsOf(n.me) != {} then OwnsSlots else Fine
  }

  /** The null pointer is followed exactly on a replica that knows no master and is told of a slot that nobody has. */
  lemma NullMasterIff(n: Node, sender: Id, epoch: nat, claimed: set<Slot>, migration: bool, redirect: bool)
    requires n.Valid() && sender in n.peers
    ensures UpdateFault(n, sender, epoch, claimed, migration, redirect) == NullMaster
            <==> && n.peers[n.me].role == Replica(None) && sender != n.me && redirect
                 && exists j :: j in claimed && j !in n.importing && j !in n.owner
  {
    hide Rebound, Node.SlotsOf;
    if n.peers[n.me].role == Replica(None) {
      if j :| j in claimed && j !in n.importing && j !in n.owner {
        assert j in Migrated(n, sender, epoch, claimed);
      } else {
        assert Migrated(n, sender, epoch, claimed) == {};
      }
    }
  }

  /** Slots that a claim takes from a node under an older epoch. */
  ghost predicate LosesAll(n: Node, p: Id, epoch: nat, claimed: set<Slot>)
    requires n.Valid() && p in n.peers
  {
    n.SlotsOf(p) <= claimed - n.importing && n.peers[p].configEpoch < epoch
  }

  /** The assertion fails exactly on a replica whose master loses all it has to the sender while some slot of its own
      stays with it. A master never fails it. */
  lemma OwnsSlotsIff(n: Node, sender: Id, epoch: nat, claimed: set<Slot>, migration: bool, redirect: bool)
    requires n.Valid() && sender in n.peers
    ensures UpdateFault(n, sender, epoch, claimed, migration, redirect) == OwnsSlots
            <==> && !n.IsMaster(n.me) && redirect && sender != n.me && n.SlotsOf(n.me) != {}
                 && !LosesAll(n, n.me, epoch, claimed)
                 && var m := n.peers[n.me].role.of;
                    && m.Some? && m.value != sender && n.SlotsOf(m.value) != {}
                    && LosesAll(n, m.value, epoch, claimed) && (migration || claimed == n.SlotsOf(m.value))
  {
    if sender != n.me && CurrentMaster(n).Some? {
      var m := CurrentMaster(n).value;
      MigratedIs(n, sender, epoch, claimed, m);
      LeftWithout(n, sender, epoch, claimed, n.me);
      if m != sender { LeftWithout(n, sender, epoch, claimed, m); }
      hide Rebound, Node.SlotsOf, Migrated, Taken, LosesAll;
    }
  }

  lemma LeftWithout(n: Node, sender: Id, epoch: nat, claimed: set<Slot>, p: Id)
    requires n.Valid() && sender in n.peers && p in n.peers && p != sender
    ensures var n' := n.(owner := Rebound(n, sender, epoch, claimed));
            && (n'.SlotsOf(p) == {} <==> n.SlotsOf(p) == {} || LosesAll(n, p, epoch, claimed))
            && (n'.SlotsOf(p) == {} ==> Taken(n, sender, epoch, claimed, p) == n.SlotsOf(p))
  {
    var n' := n.(owner := Rebound(n, sender, epoch, claimed));
    var taken := Taken(n, sender, epoch, claimed, p);
    assert n'.SlotsOf(p) == n.SlotsOf(p) - taken;
    assert taken == if n.peers[p].configEpoch < epoch then n.SlotsOf(p) * (claimed - n.importing) else {};
    hide Rebound, Taken, Node.SlotsOf;
    if n'.SlotsOf(p) == {} {
      forall j | j in n.SlotsOf(p) ensures j in taken { assert j !in n.SlotsOf(p) - taken; }
    }
  }

  lemma MigratedIs(n: Node, sender: Id, epoch: nat, claimed: set<Slot>, m: Id)
    requires n.Valid() && sender in n.peers && CurrentMaster(n) == Some(m)
    ensures Migrated(n, sender, epoch, claimed) == Taken(n, sender, epoch, claimed, m) <= n.SlotsOf(m)
    ensures m == sender ==> Taken(n, sender, epoch, claimed, m) == {}
  {}

  /** A node turns to the sender exactly when its master, or itself if it is one, loses all it has to the sender, and
      with cluster-allow-replica-migration off only if the sender claims nothing else. Other roles stay. */
  lemma TurnsIff(n: Node, sender: Id, epoch: nat, claimed: set<Slot>, migration: bool, redirect: bool)
    requires n.Valid() && sender in n.peers
    ensures var r, m := UpdateSlots(n, sender, epoch, claimed, migration, redirect), CurrentMaster(n);
            var turns := && sender != n.me && redirect && m.Some? && m.value != sender && n.SlotsOf(m.value) != {}
                         && LosesAll(n, m.value, epoch, claimed) && (migration || claimed == n.SlotsOf(m.value));
            && r.peers == (if turns then n.peers[n.me := n.peers[n.me].(role := Replica(Some(sender)))] else n.peers)
            && r.importing == if turns && n.IsMaster(n.me) then {} else n.importing
  {
    if sender != n.me && CurrentMaster(n).Some? {
      var m := CurrentMaster(n).value;
      MigratedIs(n, sender, epoch, claimed, m);
      if m != sender { LeftWithout(n, sender, epoch, claimed, m); }
      hide Rebound, Node.SlotsOf, Migrated, Taken, LosesAll;
    }
  }

  // ------------------------------------------------------------------
  // Over whole runs
  // ------------------------------------------------------------------

  /** This node is a master, or a replica that knows its master and owns no slot. */
  ghost predicate Settled(n: Node) {
    n.Valid() && n.peers[n.me].role != Replica(None) && (n.IsMaster(n.me) || n.SlotsOf(n.me) == {})
  }

  lemma SettledFine(n: Node, sender: Id, epoch: nat, claimed: set<Slot>, migration: bool, redirect: bool)
    requires Settled(n) && sender in n.peers
    ensures UpdateFault(n, sender, epoch, claimed, migration, redirect) == Fine
  {
    NullMasterIff(n, sender, epoch, claimed, migration, redirect);
    OwnsSlotsIff(n, sender, epoch, claimed, migration, redirect);
    hide UpdateFault;
  }

  lemma UpdateSettled(n: Node, sender: Id, epoch: nat, claimed: set<Slot>, migration: bool, redirect: bool)
    requires Settled(n) && sender in n.peers
    ensures Settled(UpdateSlots(n, sender, epoch, claimed, migration, redirect))
  {
    var n' := n.(owner := Rebound(n, sender, epoch, claimed));
    if sender != n.me {
      assert n'.SlotsOf(n.me) <= n.SlotsOf(n.me);
    }
    hide Rebound, Taken;
  }

  /** Only what a node records about others may differ, and its own slots only get fewer. */
  ghost predicate SameSelf(n: Node, r: Node) {
    && n.Valid() && r.Valid() && r.me == n.me && r.peers[r.me].role == n.peers[n.me].role
    && forall j :: j in r.owner && r.owner[j] == r.me ==> j in n.owner && n.owner[j] == n.me
  }

  lemma SameSelfSettled(n: Node, r: Node)
    requires Settled(n) && SameSelf(n, r)
    ensures Settled(r)
  {
    assert r.SlotsOf(r.me) <= n.SlotsOf(n.me);
  }

  /** The call of clusterUpdateSlotsConfigWith that a packet leads to, if any. */
  function PacketFault(s: Settings, n: Node, p: Packet, redirect: bool): Fault
    requires n.Valid() && p.hdr.sender in n.peers
  {
    match p.body
    case Ping(_) =>
      var r := AfterRole(n, p.hdr);
      if r.IsMaster(p.hdr.sender) && Dirty(r, p.hdr)
      then UpdateFault(r, p.hdr.sender, p.hdr.configEpoch, p.hdr.slots, s.migration, redirect) else Fine
    case Update(about, epoch, slots) =>
      var a := Absorb(n, p.hdr);
      if about !in a.peers || a.peers[about].configEpoch >= epoch then Fine
      else UpdateFault(Reported(a, about, epoch), about, epoch, slots, s.migration, redirect)
    case AuthRequest(_, _) => Fine
    case AuthAck(_) => Fine
  }

  function Reported(n: Node, about: Id, epoch: nat): Node
    requires about in n.peers
  {
    n.(peers := n.peers[about := n.peers[about].(role := Master, configEpoch := epoch)])
  }

  lemma PingSettled(s: Settings, n: Node, p: Packet, redirect: bool)
    requires Settled(n) && p.hdr.sender in n.peers && p.hdr.sender != n.me && p.body.Ping?
    ensures PacketFault(s, n, p, redirect) == Fine && Settled(ProcessPing(n, p.hdr, s.migration, redirect))
  {
    hide AfterRole, Dirty, UpdateFault, UpdateSlots, Settled, HandleCollision;
    var h := p.hdr;
    SettledValid(n);
    RoleSettled(n, h);
    var r := AfterRole(n, h);
    SettledFine(r, h.sender, h.configEpoch, h.slots, s.migration, redirect);
    UpdateSettled(r, h.sender, h.configEpoch, h.slots, s.migration, redirect);
    CollisionSettled(AfterSlots(n, h, s.migration, redirect), h.sender);
  }

  lemma SettledValid(n: Node)
    requires Settled(n)
    ensures n.Valid()
  {}

  lemma RoleSettled(n: Node, h: Header)
    requires Settled(n) && h.sender in n.peers && h.sender != n.me
    ensures Settled(AfterRole(n, h))
  {
    hide Absorb, SwitchRole;
    AbsorbSettled(n, h);
    SwitchSettled(Absorb(n, h), h);
  }

  lemma AbsorbSettled(n: Node, h: Header)
    requires Settled(n) && h.sender in n.peers
    ensures Settled(Absorb(n, h))
  {
    SameSelfSettled(n, Absorb(n, h));
  }

  lemma SwitchSettled(n: Node, h: Header)
    requires Settled(n) && h.sender in n.peers && h.sender != n.me
    ensures Settled(SwitchRole(n, h))
  {
    var r := SwitchRole(n, h);
    assert r.me == n.me && r.peers[n.me] == n.peers[n.me];
    assert forall j :: j in r.owner ==> j in n.owner && r.owner[j] == n.owner[j];
    hide SwitchRole;
    SameSelfSettled(n, r);
  }

  lemma CollisionSettled(n: Node, sender: Id)
    requires Settled(n) && sender in n.peers
    ensures Settled(HandleCollision(n, sender))
  {
    SameSelfSettled(n, HandleCollision(n, sender));
  }

  function ByUpdate(s: Settings, n: Node, p: Packet, redirect: bool): Node
    requires n.Valid() && p.hdr.sender in n.peers && p.body.Update?
  {
    ProcessUpdate(Absorb(n, p.hdr), p.body.about, p.body.configEpoch, p.body.slots, s.migration, redirect)
  }

  lemma ReportSettled(s: Settings, n: Node, p: Packet, redirect: bool)
    requires Settled(n) && p.hdr.sender in n.peers && p.body.Update?
    ensures PacketFault(s, n, p, redirect) == Fine && Settled(ByUpdate(s, n, p, redirect))
  {
    var u, a := p.body, Absorb(n, p.hdr);
    AbsorbSettled(n, p.hdr);
    if u.about in a.peers && a.peers[u.about].configEpoch < u.configEpoch {
      var r := Reported(a, u.about, u.configEpoch);
      assert r.Valid();
      if u.about == a.me { assert r.IsMaster(r.me); } else { SameSelfSettled(a, r); }
      SettledFine(r, u.about, u.configEpoch, u.slots, s.migration, redirect);
      UpdateSettled(r, u.about, u.configEpoch, u.slots, s.migration, redirect);
    }
    hide UpdateFault, UpdateSlots;
  }

  lemma FailoverSettled(n: Node, i: FailoverInput, nodeTimeout: nat)
    requires Settled(n)
    ensures Settled(HandleFailover(n, i, nodeTimeout))
  {
    var r := HandleFailover(n, i, nodeTimeout);
    if !r.IsMaster(r.me) { SameSelfSettled(n, r); }
  }

  /** What the commands refuse does not happen, packets come from other nodes, and slots are not assigned to a replica,
      which the code does not see to. */
  ghost predicate Guarded(c: Cluster, e: Event)
    requires WellFormed(c)
  {
    match e
    case Local(n, AssignSlots(owner, _)) => n in c.nodes ==> c.nodes[n].IsMaster(n) || n !in owner.Values
    case Local(n, Replicate(m)) => n in c.nodes ==> m != n && (c.nodes[n].IsMaster(n) ==> c.nodes[n].SlotsOf(n) == {})
    case Deliver(p, _, _) => p.hdr.sender != p.to
    case _ => true
  }

  /** How an event ends. */
  ghost function EventFault(s: Settings, voters: nat -> set<Id>, c: Cluster, e: Event): Fault
    requires WellFormed(c) && Enabled(s, voters, c, e)
  {
    match e
    case Local(n, Replicate(_)) => if c.nodes[n].SlotsOf(n) != {} then OwnsSlots else Fine
    case Deliver(p, redirect, _) => PacketFault(s, c.nodes[p.to], p, redirect)
    case _ => Fine
  }

  ghost predicate AllSettled(c: Cluster) { forall n :: n in c.nodes ==> Settled(c.nodes[n]) }

  lemma DoSettled(n: Node, op: LocalOp)
    requires Settled(n) && CanDo(n, op)
    requires op.AssignSlots? ==> n.IsMaster(n.me) || n.me !in op.owner.Values
    requires op.Replicate? ==> op.master != n.me && (n.IsMaster(n.me) ==> n.SlotsOf(n.me) == {})
    ensures Settled(Do(n, op))
    ensures op.Replicate? ==> n.SlotsOf(n.me) == {}
  {
    var r := Do(n, op);
    if op.AssignSlots? && !n.IsMaster(n.me) {
      forall j | j in r.owner ensures r.owner[j] != n.me { assert r.owner[j] in op.owner.Values; }
    }
    if !op.AssignSlots? { assert r.SlotsOf(r.me) == n.SlotsOf(n.me); }
  }

  lemma DeliverSettled(s: Settings, voters: nat -> set<Id>, c: Cluster, p: Packet, redirect: bool, first: Option<Slot>)
    requires WellFormed(c) && CanDeliver(s, voters, c, p, redirect, first) && p.hdr.sender != p.to
    requires Settled(c.nodes[p.to])
    ensures PacketFault(s, c.nodes[p.to], p, redirect) == Fine
    ensures OnlyChanges(c, NextDeliver(s, voters, c, p, redirect, first), p.to)
    ensures Settled(NextDeliver(s, voters, c, p, redirect, first).nodes[p.to])
  {
    hide *;
    CanDeliverTo(s, voters, c, p, redirect, first);
    var n := c.nodes[p.to];
    match p.body
    case Ping(_) =>
      PingSettled(s, n, p, redirect);
      NextDeliverPing(s, voters, c, p, redirect, first);
      PutChanges(c, p.to, ProcessPing(n, p.hdr, s.migration, redirect), {p}, PingReplies(s, c, p, n, redirect, first));
    case Update(_, _, _) =>
      ReportSettled(s, n, p, redirect);
      NextDeliverOther(s, voters, c, p, redirect, first);
      PutChanges(c, p.to, ByUpdate(s, n, p, redirect), {p}, {});
    case AuthRequest(_, _) =>
      NextDeliverOther(s, voters, c, p, redirect, first);
      RequestSettled(s, c, p, n);
    case AuthAck(_) =>
      NextDeliverOther(s, voters, c, p, redirect, first);
      AckSettled(c, p, n);
  }

  lemma CanDeliverTo(s: Settings, voters: nat -> set<Id>, c: Cluster, p: Packet, redirect: bool, first: Option<Slot>)
    requires WellFormed(c) && CanDeliver(s, voters, c, p, redirect, first)
    ensures p.to in c.nodes && c.nodes[p.to].Valid() && c.nodes[p.to].me == p.to && p.to in c.counted
    ensures p.hdr.sender in c.nodes[p.to].peers
  {}

  lemma PutChanges(c: Cluster, n: Id, node: Node, consumed: set<Packet>, sent: set<Packet>)
    requires Settled(node)
    ensures OnlyChanges(c, Put(c, n, node, consumed, sent), n) && Settled(Put(c, n, node, consumed, sent).nodes[n])
  {
    hide Settled;
  }

  lemma NextDeliverPing(s: Settings, voters: nat -> set<Id>, c: Cluster, p: Packet, redirect: bool, first: Option<Slot>)
    requires WellFormed(c) && CanDeliver(s, voters, c, p, redirect, first) && p.body.Ping?
    ensures p.to in c.nodes && c.nodes[p.to].Valid() && p.hdr.sender in c.nodes[p.to].peers
    ensures first.Some? ==> first.value in AfterSlots(c.nodes[p.to], p.hdr, s.migration, redirect).owner
    ensures var n, r := c.nodes[p.to], NextDeliver(s, voters, c, p, redirect, first);
            var sent := PingReplies(s, c, p, n, redirect, first);
            r == Put(c, p.to, ProcessPing(n, p.hdr, s.migration, redirect), {p}, sent)
  {
    hide AfterSlots, AfterRole, Dirty, ProcessPing, PingReplies, Put;
  }

  lemma NextDeliverOther(s: Settings, voters: nat -> set<Id>, c: Cluster, p: Packet, redirect: bool,
                         first: Option<Slot>)
    requires WellFormed(c) && CanDeliver(s, voters, c, p, redirect, first) && !p.body.Ping?
    ensures !p.body.Update? ==> PacketFault(s, c.nodes[p.to], p, redirect) == Fine
    ensures var n, r := c.nodes[p.to], NextDeliver(s, voters, c, p, redirect, first);
            && (p.body.AuthRequest? ==> r == NextRequest(s, c, p, n))
            && (p.body.AuthAck? ==> r == NextAck(c, p, n))
            && (p.body.Update? ==> r == Put(c, p.to, ByUpdate(s, n, p, redirect), {p}, {}))
  {
    hide NextRequest, NextAck, ProcessUpdate, Absorb, Put, UpdateFault, GrantsVote;
  }

  lemma RequestSettled(s: Settings, c: Cluster, p: Packet, n: Node)
    requires Settled(n) && p.hdr.sender in n.peers && p.body.AuthRequest?
    ensures OnlyChanges(c, NextRequest(s, c, p, n), p.to) && Settled(NextRequest(s, c, p, n).nodes[p.to])
  {
    hide Absorb, CastVote, HeaderOf, Settled;
    SettledValid(n);
    VoteSettled(n, p);
  }

  lemma AckSettled(c: Cluster, p: Packet, n: Node)
    requires Settled(n) && p.hdr.sender in n.peers && p.to in c.counted
    ensures OnlyChanges(c, NextAck(c, p, n), p.to) && Settled(NextAck(c, p, n).nodes[p.to])
  {
    hide Absorb, CountVote, CountsVote, Settled;
    SettledValid(n);
    VoteSettled(n, p);
  }

  ghost predicate OnlyChanges(c: Cluster, d: Cluster, n: Id) {
    d.nodes.Keys == c.nodes.Keys + {n} && forall m :: m in c.nodes && m != n ==> d.nodes[m] == c.nodes[m]
  }

  lemma VoteSettled(n: Node, p: Packet)
    requires Settled(n) && p.hdr.sender in n.peers
    ensures var a := Absorb(n, p.hdr);
            && Settled(a) && Settled(CountVote(a))
            && var role := a.peers[p.hdr.sender].role;
               role.Replica? && role.of.Some? ==> Settled(CastVote(a, p.hdr))
  {
    var a := Absorb(n, p.hdr);
    AbsorbSettled(n, p.hdr);
    hide Absorb;
    SameSelfSettled(a, CountVote(a));
    if a.peers[p.hdr.sender].role.Replica? && a.peers[p.hdr.sender].role.of.Some? {
      SameSelfSettled(a, CastVote(a, p.hdr));
    }
  }

  /** No guarded event meets a fault in a settled cluster, and it stays settled. */
  lemma NextSettled(s: Settings, voters: nat -> set<Id>, c: Cluster, e: Event)
    requires WellFormed(c) && Enabled(s, voters, c, e) && Guarded(c, e) && AllSettled(c)
    ensures EventFault(s, voters, c, e) == Fine && AllSettled(Next(s, voters, c, e))
  {
    hide Settled, CanDeliver, CanDo, PacketFault, NextDeliver, Do, NextFailover, FailoverDecision, Put, AllSettled;
    var d := Next(s, voters, c, e);
    match e
    case Local(n, op) =>
      OneSettled(c, n);
      DoSettled(c.nodes[n], op);
      PutChanges(c, n, Do(c.nodes[n], op), {}, {});
      StaySettled(c, d, n);
    case SendPing(n, to, wantsPong) =>
      OneSettled(c, n);
      PutChanges(c, n, c.nodes[n], {}, {Packet(c.serial, to, HeaderOf(c.nodes[n]), Ping(wantsPong))});
      StaySettled(c, d, n);
    case Deliver(p, redirect, first) =>
      CanDeliverTo(s, voters, c, p, redirect, first);
      OneSettled(c, p.to);
      DeliverSettled(s, voters, c, p, redirect, first);
      StaySettled(c, d, p.to);
    case Failover(n, i) =>
      OneSettled(c, n);
      FailoverSettled(c.nodes[n], i, s.nodeTimeout);
      FailoverChanges(s, c, n, i);
      StaySettled(c, d, n);
    case Drop(p) => SameNodes(c, d);
  }

  lemma OneSettled(c: Cluster, n: Id)
    requires AllSettled(c) && n in c.nodes
    ensures Settled(c.nodes[n])
  {}

  lemma StaySettled(c: Cluster, d: Cluster, n: Id)
    requires AllSettled(c) && OnlyChanges(c, d, n) && Settled(d.nodes[n])
    ensures AllSettled(d)
  {
    hide Settled;
  }

  lemma SameNodes(c: Cluster, d: Cluster)
    requires AllSettled(c) && d.nodes == c.nodes
    ensures AllSettled(d)
  {
    hide Settled;
  }

  lemma FailoverChanges(s: Settings, c: Cluster, n: Id, i: FailoverInput)
    requires n in c.nodes && c.nodes[n].Valid() && n in c.counted
    ensures var d := NextFailover(s, c, n, i);
            OnlyChanges(c, d, n) && d.nodes[n] == HandleFailover(c.nodes[n], i, s.nodeTimeout)
  {
    hide HandleFailover, FailoverDecision, Requests;
  }

  /** Over any run from settled nodes no assertion of clusterSetMaster fails and no null pointer is followed, as long as
      nobody assigns slots to a replica and no packet bears the name of its receiver. */
  lemma {:induction false} RunSettled(s: Settings, voters: nat -> set<Id>, cs: seq<Cluster>, es: seq<Event>, i: nat)
    requires Run(s, voters, cs, es) && i < |cs| && AllSettled(cs[0])
    requires forall k :: 0 <= k < |es| ==> WellFormed(cs[k]) && Guarded(cs[k], es[k])
    ensures AllSettled(cs[i])
    ensures i < |es| ==> WellFormed(cs[i]) && Enabled(s, voters, cs[i], es[i])
    ensures i < |es| ==> EventFault(s, voters, cs[i], es[i]) == Fine
  {
    hide AllSettled, WellFormed, Enabled, Next, Guarded, EventFault, Init;
    if i > 0 {
      RunSettled(s, voters, cs, es, i - 1);
      assert Step(s, voters, cs[i - 1], es[i - 1], cs[i]);
      NextSettled(s, voters, cs[i - 1], es[i - 1]);
    }
    if i < |es| {
      assert Step(s, voters, cs[i], es[i], cs[i + 1]);
      NextSettled(s, voters, cs[i], es[i]);
    }
  }

  // ------------------------------------------------------------------
  // The faults can be met
  // ------------------------------------------------------------------

  /** A replica of node 2 is given slot 1 by CLUSTER ADDSLOTS. When node 3 takes the only slot of node 2, it stops. */
  lemma ReplicaWithSlot(migration: bool) returns (n: Node, slots: map<Slot, Id>)
    ensures Settled(n) && CanDo(n, AssignSlots(slots, {})) && slots == n.owner[1 := n.me] && 1 !in n.owner
    ensures 3 in n.peers
    ensures UpdateFault(Do(n, AssignSlots(slots, {})), 3, 1, {0}, migration, true) == OwnsSlots
  {
    var peer := Peer(0, Master, false, 0);
    var peers := map[1 := peer.(role := Replica(Some(2))), 2 := peer, 3 := peer];
    n := Node(1, 0, 1, 0, peers, map[0 := 2], {}, 0, false, 0, 0);
    slots := map[0 := 2, 1 := 1];
    assert slots == n.owner[1 := n.me];
    var r := Do(n, AssignSlots(slots, {}));
    assert n.SlotsOf(1) == {} && r.SlotsOf(1) == {1} && r.SlotsOf(2) == {0};
    assert !LosesAll(r, 1, 1, {0}) by { assert 1 in r.SlotsOf(1); }
    OwnsSlotsIff(r, 3, 1, {0}, migration, true);
  }

  /** A replica that knows no master is told of a slot that nobody has. */
  lemma ReplicaOfNobody(migration: bool) returns (n: Node)
    ensures n.Valid() && 3 in n.peers && UpdateFault(n, 3, 1, {0}, migration, true) == NullMaster
  {
    var peer := Peer(0, Master, false, 0);
    n := Node(1, 0, 1, 0, map[1 := peer.(role := Replica(None)), 3 := peer], map[], {}, 0, false, 0, 0);
    NullMasterIff(n, 3, 1, {0}, migration, true);
    assert 0 in {0} && 0 !in n.importing && 0 !in n.owner;
  }
}
