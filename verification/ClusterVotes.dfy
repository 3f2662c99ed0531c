/** When a node votes, when a vote counts, when a replica starts an election, and what a PING tells. */
module ClusterVotes {
  import opened Common
  import opened ClusterNode
  import opened ClusterBus
  import opened ClusterPromises
  import ClusterFaults

  // ------------------------------------------------------------------
  // Voting
  // ------------------------------------------------------------------

  /** Some claimed slot is held under a newer configuration than the one that the header names. */
  ghost predicate ClaimsStale(n: Node, h: Header)
    requires n.Valid()
  {
    exists j :: j in h.slots && j in n.owner && n.peers[n.owner[j]].configEpoch > h.configEpoch
  }

  /** The master whose place the sender asks for. */
  ghost function MasterOf(n: Node, h: Header): Option<Id>
    requires h.sender in n.peers
  {
    if n.peers[h.sender].role.Replica? then n.peers[h.sender].role.of else None
  }

  /** The request leaves no trace but the epochs of its header. */
  ghost predicate NoVote(c: Cluster, d: Cluster, p: Packet, n: Node) {
    && d.votes == c.votes && d.net == c.net - {p} && p.to in d.nodes
    && d.nodes[p.to].lastVoteEpoch == n.lastVoteEpoch
    && d.nodes[p.to].peers.Keys == n.peers.Keys
    && forall q :: q in n.peers ==> d.nodes[p.to].peers[q].votedTime == n.peers[q].votedTime
  }

  /** The request adds one vote and its ACK, and both are remembered. */
  ghost predicate OneVote(c: Cluster, d: Cluster, p: Packet, n: Node, m: Id)
    requires p.body.AuthRequest?
  {
    && d.votes == c.votes + {Vote(n.me, p.hdr.currentEpoch, p.hdr.sender)}
    && p.to in d.nodes && d.nodes[p.to].lastVoteEpoch == p.hdr.currentEpoch == d.nodes[p.to].currentEpoch
    && d.nodes[p.to].peers.Keys == n.peers.Keys && m in n.peers
    && (forall q :: q in n.peers ==>
          d.nodes[p.to].peers[q].votedTime == if q == m then n.now else n.peers[q].votedTime)
    && d.nodes[p.to].Valid()
    && d.net == c.net - {p} + {Packet(c.serial, p.hdr.sender, HeaderOf(d.nodes[p.to]), AuthAck(p.body.stamp))}
  }

  /** A node votes exactly when it is a master with slots, the request is of its epoch or newer, it has not voted in
      that epoch, the sender is a replica of a known master that has failed unless the request is forced, it has not
      voted about this master for twice the node timeout, and no claimed slot is held under a newer configuration. */
  lemma VoteIff(s: Settings, c: Cluster, p: Packet, n: Node)
    requires n.Valid() && p.hdr.sender in n.peers && p.body.AuthRequest?
    ensures var h, d, m := p.hdr, NextRequest(s, c, p, n), MasterOf(n, p.hdr);
            if && n.IsMaster(n.me) && n.SlotsOf(n.me) != {} && n.currentEpoch <= h.currentEpoch
               && n.lastVoteEpoch != h.currentEpoch && m.Some? && (n.peers[m.value].failed || p.body.forced)
               && n.now - n.peers[m.value].votedTime >= 2 * s.nodeTimeout && !ClaimsStale(n, h)
            then OneVote(c, d, p, n, m.value) else NoVote(c, d, p, n)
  {
    hide *;
    GrantIff(n, p.hdr, p.body.forced, s.nodeTimeout);
    VoteLeaves(s, c, p, n);
  }

  /** The conditions, before the epochs of the header are recorded. */
  lemma GrantIff(n: Node, h: Header, forced: bool, nodeTimeout: nat)
    requires n.Valid() && h.sender in n.peers
    ensures var m := MasterOf(n, h);
            GrantsVote(Absorb(n, h), h, forced, nodeTimeout)
            <==> && n.IsMaster(n.me) && n.SlotsOf(n.me) != {} && n.currentEpoch <= h.currentEpoch
                 && n.lastVoteEpoch != h.currentEpoch && m.Some? && (n.peers[m.value].failed || forced)
                 && n.now - n.peers[m.value].votedTime >= 2 * nodeTimeout && !ClaimsStale(n, h)
    ensures MasterOf(n, h).Some? ==> MasterOf(n, h).value in n.peers
  {
    var a := Absorb(n, h);
    assert a.IsMaster(n.me) == n.IsMaster(n.me) && a.SlotsOf(n.me) == n.SlotsOf(n.me);
    StaleSame(n, h);
    hide Node.SlotsOf, ClaimsStale;
  }

  /** What a vote leaves behind, and what a refusal. */
  lemma VoteLeaves(s: Settings, c: Cluster, p: Packet, n: Node)
    requires n.Valid() && p.hdr.sender in n.peers && p.body.AuthRequest?
    ensures var d, m := NextRequest(s, c, p, n), MasterOf(n, p.hdr);
            if GrantsVote(Absorb(n, p.hdr), p.hdr, p.body.forced, s.nodeTimeout)
            then m.Some? && n.currentEpoch <= p.hdr.currentEpoch && OneVote(c, d, p, n, m.value)
            else NoVote(c, d, p, n)
  {
    hide Node.SlotsOf, HeaderOf;
  }

  lemma StaleSame(n: Node, h: Header)
    requires n.Valid() && h.sender in n.peers
    ensures var a := Absorb(n, h);
            ClaimsStale(n, h)
            <==> !(forall j :: j in h.slots && j in a.owner ==> a.peers[a.owner[j]].configEpoch <= h.configEpoch)
  {
    var a := Absorb(n, h);
    assert forall j :: j in n.owner ==>
      (n.peers[n.owner[j]].configEpoch <= h.configEpoch <==> a.peers[a.owner[j]].configEpoch <= h.configEpoch);
  }

  /** Nobody gets a vote against a master that is not flagged as failed, unless by force. */
  lemma NoVoteAgainstHealthy(s: Settings, c: Cluster, p: Packet, n: Node)
    requires n.Valid() && p.hdr.sender in n.peers && p.body.AuthRequest?
    requires !p.body.forced && MasterOf(n, p.hdr).Some? && !n.peers[MasterOf(n, p.hdr).value].failed
    ensures NoVote(c, NextRequest(s, c, p, n), p, n)
  {
    VoteIff(s, c, p, n);
    hide NextRequest, NoVote, OneVote, ClaimsStale;
  }

  /** Nobody gets a vote who claims a slot that is held under a newer configuration. */
  lemma NoVoteForStale(s: Settings, c: Cluster, p: Packet, n: Node)
    requires n.Valid() && p.hdr.sender in n.peers && p.body.AuthRequest?
    requires ClaimsStale(n, p.hdr)
    ensures NoVote(c, NextRequest(s, c, p, n), p, n)
  {
    VoteIff(s, c, p, n);
    hide NextRequest, NoVote, OneVote, ClaimsStale;
  }

  /** A vote counts exactly when it comes from a master with slots and is of the epoch of the election or newer. */
  lemma CountIff(c: Cluster, p: Packet, n: Node)
    requires n.Valid() && p.hdr.sender in n.peers && p.to in c.counted
    ensures var h, d := p.hdr, NextAck(c, p, n);
            var counts := n.IsMaster(h.sender) && n.SlotsOf(h.sender) != {} && n.authEpoch <= h.currentEpoch;
            && p.to in d.nodes && d.nodes[p.to].authCount == n.authCount + (if counts then 1 else 0)
            && d.counted == if counts then c.counted[p.to := c.counted[p.to] + {h.sender}] else c.counted
  {
    var a := Absorb(n, p.hdr);
    assert a.SlotsOf(p.hdr.sender) == n.SlotsOf(p.hdr.sender);
    hide Node.SlotsOf;
  }

  // ------------------------------------------------------------------
  // Elections
  // ------------------------------------------------------------------

  /** A replica whose master has slots. */
  ghost predicate Follows(n: Node, m: Id) {
    n.Valid() && n.peers[n.me].role == Replica(Some(m)) && m in n.peers && n.SlotsOf(m) != {}
  }

  /** As long as its master is not flagged as failed, and no manual failover may start, a replica does nothing. */
  lemma NoElectionAgainstHealthy(n: Node, m: Id, i: FailoverInput, nodeTimeout: nat)
    requires n.Valid() && n.peers[n.me].role == Replica(Some(m)) && !n.peers[m].failed && !(i.mfEnd && i.mfCanStart)
    ensures HandleFailover(n, i, nodeTimeout) == n && FailoverDecision(n, i, nodeTimeout) == Nothing
  {}

  /** Neither does a master, nor a replica whose master has no slots. */
  lemma NoElectionWithoutCause(n: Node, i: FailoverInput, nodeTimeout: nat)
    requires n.Valid()
    requires n.IsMaster(n.me) || (n.peers[n.me].role.of.Some? && n.SlotsOf(n.peers[n.me].role.of.value) == {})
    ensures HandleFailover(n, i, nodeTimeout) == n && FailoverDecision(n, i, nodeTimeout) == Nothing
  {
    hide Node.SlotsOf;
  }

  /** Nor does one that is told not to, or whose data is too old, unless a manual failover may start. */
  lemma NoElectionWhenHeldBack(n: Node, i: FailoverInput, nodeTimeout: nat)
    requires n.Valid() && (i.noFailover || i.dataTooOld) && !(i.mfEnd && i.mfCanStart)
    ensures HandleFailover(n, i, nodeTimeout) == n && FailoverDecision(n, i, nodeTimeout) == Nothing
  {
    hide Node.SlotsOf;
  }

  /** The time for votes in milliseconds. */
  function VoteTime(nodeTimeout: nat): nat { if nodeTimeout < 1000 then 2000 else 2 * nodeTimeout }

  /** What a replica of a failed master with slots does, unless it is told not to or its data is too old: it schedules
      an election when the last one is long over, asks for votes once its time has come, and takes over with the votes
      of more than half of the masters. */
  lemma ElectionRuns(n: Node, m: Id, i: FailoverInput, nodeTimeout: nat)
    requires Follows(n, m) && m != n.me && n.peers[m].failed && !i.noFailover && !i.dataTooOld && !i.mfEnd
    ensures var r, age := HandleFailover(n, i, nodeTimeout), n.now - n.authTime;
            var starts := if n.authSent then n.authTime else n.authTime + i.addedDelay;
            if age > 2 * VoteTime(nodeTimeout) then
              r == n.(authTime := n.now + i.delay, authCount := 0, authSent := false)
            else if n.now < starts || age > VoteTime(nodeTimeout) then r == n.(authTime := starts)
            else if !n.authSent then
              r == n.(authTime := starts, currentEpoch := n.currentEpoch + 1, authEpoch := n.currentEpoch + 1,
                      authSent := true)
            else if 2 * n.authCount <= i.size then r == n
            else
              && r.IsMaster(n.me) && n.authEpoch <= r.peers[n.me].configEpoch
              && r.SlotsOf(n.me) == n.SlotsOf(n.me) + n.SlotsOf(m) && r.SlotsOf(m) == {}
  {
    assert MayFailover(n, i) && StartDelay(i) == i.delay;
    assert AuthTimeout(nodeTimeout) == VoteTime(nodeTimeout);
    if FailoverDecision(n, i, nodeTimeout) == Won { WinTakesSlots(n, i, nodeTimeout); }
    hide Node.SlotsOf, MayFailover, ReplaceMaster;
  }

  /** A manual failover needs no failed master, ignores the age of the data, and starts at once. */
  lemma ManualElection(n: Node, m: Id, i: FailoverInput, nodeTimeout: nat)
    requires Follows(n, m) && i.mfEnd && i.mfCanStart && n.now - n.authTime > 2 * VoteTime(nodeTimeout)
    ensures HandleFailover(n, i, nodeTimeout) == n.(authTime := n.now, authCount := 0, authSent := false)
  {
    hide Node.SlotsOf;
  }

  // ------------------------------------------------------------------
  // Epochs
  // ------------------------------------------------------------------

  /** CLUSTER BUMPEPOCH leaves the node with the greatest epoch that it knows, and changes nothing if it had it. */
  lemma BumpMakesGreatest(n: Node, max: nat)
    requires n.Valid() && IsMaxEpoch(n, max) && EpochsBounded(n)
    ensures var r := BumpEpoch(n, max);
            var mine := n.peers[n.me].configEpoch;
            && (forall p :: p in r.peers ==> r.peers[p].configEpoch <= r.peers[n.me].configEpoch)
            && r.peers[n.me].configEpoch == r.currentEpoch > 0
            && (r == n <==> mine > 0 && mine == n.currentEpoch)
            && (r != n ==> OnlyEpochOf(n, r, n.me) && r.currentEpoch == n.currentEpoch + 1)
  {}

  // ------------------------------------------------------------------
  // What a PING tells
  // ------------------------------------------------------------------

  /** A master publishes its own slots and epoch, a replica those of its master. */
  lemma HeaderTells(n: Node)
    requires n.Valid()
    ensures var h, role := HeaderOf(n), n.peers[n.me].role;
            var p := if role.Replica? && role.of.Some? then role.of.value else n.me;
            && h.sender == n.me && h.currentEpoch == n.currentEpoch && h.role == role
            && h.configEpoch == n.peers[p].configEpoch
            && forall j :: j in h.slots <==> j in n.owner && n.owner[j] == p
  {}

  /** What the receiver records of the sender's role. A master that says it has become a replica loses its slots. */
  lemma RoleIsHeard(n: Node, h: Header)
    requires n.Valid() && h.sender in n.peers
    ensures var r, was := AfterRole(n, h), n.peers[h.sender].role;
            var now := r.peers[h.sender].role;
            match h.role
            case Replica(Some(m)) =>
              && (now == if m in n.peers then Replica(Some(m)) else if was.Master? then Replica(None) else was)
              && (was.Master? ==> r.SlotsOf(h.sender) == {})
              && (was.Replica? ==> r.owner == n.owner)
              && forall p :: p != h.sender ==> r.SlotsOf(p) == n.SlotsOf(p)
            case _ => now == Master && r.owner == n.owner
  {
    var a := Absorb(n, h);
    assert a.peers[h.sender].role == n.peers[h.sender].role && a.owner == n.owner && a.peers.Keys == n.peers.Keys;
    SameSlots(n, a);
    hide Absorb, Node.SlotsOf;
    RoleSwitched(a, h);
  }

  lemma SameSlots(n: Node, r: Node)
    requires r.owner == n.owner
    ensures forall p :: r.SlotsOf(p) == n.SlotsOf(p)
  {}

  lemma RoleSwitched(n: Node, h: Header)
    requires n.Valid() && h.sender in n.peers
    ensures var r, was := SwitchRole(n, h), n.peers[h.sender].role;
            var now := r.peers[h.sender].role;
            match h.role
            case Replica(Some(m)) =>
              && (now == if m in n.peers then Replica(Some(m)) else if was.Master? then Replica(None) else was)
              && (was.Master? ==> r.SlotsOf(h.sender) == {})
              && (was.Replica? ==> r.owner == n.owner)
              && forall p :: p != h.sender ==> r.SlotsOf(p) == n.SlotsOf(p)
            case _ => now == Master && r.owner == n.owner
  {
    var r := SwitchRole(n, h);
    if h.role.Replica? && h.role.of.Some? {
      var d := if n.IsMaster(h.sender) then Demote(n, h.sender) else n;
      if n.IsMaster(h.sender) { DemotedSlots(n, h.sender); }
      SameSlots(d, r);
    }
    hide Demote, Node.SlotsOf, Node.Valid;
  }

  lemma DemotedSlots(n: Node, p: Id)
    requires n.Valid() && p in n.peers
    ensures var d := Demote(n, p);
            && d.peers == n.peers[p := n.peers[p].(role := Replica(None))]
            && d.SlotsOf(p) == {} && forall q :: q != p ==> d.SlotsOf(q) == n.SlotsOf(q)
  {}

  /** A PING of a master gives it, at the receiver, every slot it claims that is not being imported there and that
      nobody owns under its epoch or a newer one; it loses none, and both epochs are heard. */
  lemma PingSpreads(a: Node, b: Node, migration: bool, redirect: bool)
    requires a.Valid() && b.Valid() && a.IsMaster(a.me) && a.me in b.peers && b.me != a.me
    ensures var r := ProcessPing(b, HeaderOf(a), migration, redirect);
            && r.IsMaster(a.me) && a.currentEpoch <= r.currentEpoch
            && a.peers[a.me].configEpoch <= r.peers[a.me].configEpoch
            && (forall j :: j in b.owner && b.owner[j] == a.me ==> j in r.owner && r.owner[j] == a.me)
            && forall j :: j in a.SlotsOf(a.me) && j !in b.importing
                           && (j in b.owner ==> b.peers[b.owner[j]].configEpoch < a.peers[a.me].configEpoch) ==>
                 j in r.owner && r.owner[j] == a.me
  {
    var h := HeaderOf(a);
    HeaderTells(a);
    assert h.slots == a.SlotsOf(a.me);
    hide HeaderOf, Node.SlotsOf, AfterRole, UpdateSlots, Dirty, HandleCollision, Gains, Node.Valid;
    MasterHeard(b, h);
    SlotsSpread(AfterRole(b, h), h, migration, redirect);
    HeardGains(b, AfterRole(b, h), AfterSlots(b, h, migration, redirect), h);
    PingEnds(b, h, migration, redirect);
    hide ProcessPing;
  }

  /** A PING of a replica gives no slot to anybody: owners can only go. */
  lemma ReplicaTakesNothing(n: Node, h: Header, migration: bool, redirect: bool)
    requires n.Valid() && h.sender in n.peers && h.role.Replica? && h.role.of.Some?
    ensures var r := ProcessPing(n, h, migration, redirect);
            forall j :: j in r.owner ==> j in n.owner && r.owner[j] == n.owner[j]
  {
    RoleIsHeard(n, h);
    PingEnds(n, h, migration, redirect);
    var x := AfterRole(n, h);
    assert !x.IsMaster(h.sender);
    assert forall j :: j in x.owner ==> j in x.SlotsOf(x.owner[j]);
    assert forall j, p :: j in n.SlotsOf(p) <==> j in n.owner && n.owner[j] == p;
    hide AfterRole, ProcessPing, Node.SlotsOf;
  }

  /** A PING, and no PONG, is answered, with the epochs that it brought. */
  lemma PingAnswered(s: Settings, c: Cluster, p: Packet, n: Node, redirect: bool, first: Option<Slot>)
    requires n.Valid() && p.body.Ping? && p.hdr.sender in n.peers
    requires first.Some? ==> first.value in AfterSlots(n, p.hdr, s.migration, redirect).owner
    ensures var d := NextPing(s, c, p, n, redirect, first);
            var pong := Packet(c.serial, p.hdr.sender, HeaderOf(Absorb(n, p.hdr)), Ping(false));
            && (p.body.wantsPong ==> pong in d.net)
            && (!p.body.wantsPong ==> forall q :: q in d.net && q.body.Ping? ==> q in c.net)
  {
    hide AfterSlots, ProcessPing, HeaderOf, Absorb, Node.SlotsOf;
  }

  /** The last part of the handler only raises epochs. */
  lemma PingEnds(n: Node, h: Header, migration: bool, redirect: bool)
    requires n.Valid() && h.sender in n.peers
    ensures var y, r := AfterSlots(n, h, migration, redirect), ProcessPing(n, h, migration, redirect);
            && r.owner == y.owner && r.IsMaster(h.sender) == y.IsMaster(h.sender) && y.currentEpoch <= r.currentEpoch
            && (h.sender != n.me ==> r.peers[h.sender] == y.peers[h.sender])
  {
    hide AfterSlots;
  }

  /** The sender of `h` has what it had in `n` and what it takes there. */
  ghost predicate Gains(n: Node, r: Node, h: Header)
    requires n.Valid()
  {
    forall j ::
      (j in n.owner && n.owner[j] == h.sender)
      || (&& j in h.slots && j !in n.importing
          && (j in n.owner ==> n.owner[j] != h.sender && n.peers[n.owner[j]].configEpoch < h.configEpoch)) ==>
        j in r.owner && r.owner[j] == h.sender
  }

  lemma SlotsSpread(n: Node, h: Header, migration: bool, redirect: bool)
    requires n.Valid() && h.sender in n.peers && n.IsMaster(h.sender) && h.sender != n.me
    ensures var r := if Dirty(n, h) then UpdateSlots(n, h.sender, h.configEpoch, h.slots, migration, redirect) else n;
            && r.Valid() && h.sender in r.peers && r.IsMaster(h.sender) && r.me == n.me && Gains(n, r, h)
            && r.peers[h.sender] == n.peers[h.sender] && r.currentEpoch == n.currentEpoch
  {
    if Dirty(n, h) {
      UpdateSlotsOwner(n, h.sender, h.configEpoch, h.slots, migration, redirect);
      StillMaster(n, h.sender, h.configEpoch, h.slots, migration, redirect);
    } else {
      assert forall j :: j in h.slots <==> j in n.SlotsOf(h.sender);
    }
    hide UpdateSlots, Dirty;
  }

  /** The epochs that the header raises are the sender's own. */
  lemma HeardGains(n: Node, x: Node, r: Node, h: Header)
    requires n.Valid() && x.Valid() && Gains(x, r, h) && x.owner == n.owner && x.importing == n.importing
    requires x.peers.Keys == n.peers.Keys && forall p :: p in n.peers && p != h.sender ==> x.peers[p] == n.peers[p]
    ensures forall j :: j in n.owner && n.owner[j] == h.sender ==> j in r.owner && r.owner[j] == h.sender
    ensures forall j :: j in h.slots && j !in n.importing
                        && (j in n.owner ==> n.peers[n.owner[j]].configEpoch < h.configEpoch) ==>
              j in r.owner && r.owner[j] == h.sender
  {}

  lemma MasterHeard(n: Node, h: Header)
    requires n.Valid() && h.sender in n.peers && h.role.Master? && h.sender != n.me
    ensures var x := AfterRole(n, h);
            && x.Valid() && x.me == n.me && x.IsMaster(h.sender) && x.owner == n.owner && x.importing == n.importing
            && h.currentEpoch <= x.currentEpoch && h.configEpoch <= x.peers[h.sender].configEpoch
            && x.peers.Keys == n.peers.Keys
            && forall p :: p in n.peers && p != h.sender ==> x.peers[p] == n.peers[p]
  {}

  lemma StillMaster(n: Node, p: Id, epoch: nat, slots: set<Slot>, migration: bool, redirect: bool)
    requires n.Valid() && p in n.peers && n.IsMaster(p) && p != n.me
    ensures var r := UpdateSlots(n, p, epoch, slots, migration, redirect);
            r.IsMaster(p) && r.peers[p] == n.peers[p] && r.currentEpoch == n.currentEpoch
  {
    hide Rebound, Taken;
  }

  // ------------------------------------------------------------------
  // What an UPDATE tells
  // ------------------------------------------------------------------

  /** The header claims a slot that another node is known to own under a newer epoch. */
  ghost predicate Outdated(n: Node, h: Header, j: Slot)
    requires n.Valid()
  {
    j in h.slots && j in n.owner && n.owner[j] != h.sender && h.configEpoch < n.peers[n.owner[j]].configEpoch
  }

  /** A sender whose claim has changed and names a slot of a newer configuration is told of the owner of the first such
      slot, with all its slots; any other is not. */
  lemma StaleIsTold(s: Settings, voters: nat -> set<Id>, c: Cluster, p: Packet, redirect: bool, first: Option<Slot>)
    requires WellFormed(c) && CanDeliver(s, voters, c, p, redirect, first) && p.body.Ping?
    ensures var n, h, d := c.nodes[p.to], p.hdr, NextDeliver(s, voters, c, p, redirect, first);
            var a := AfterSlots(n, h, s.migration, redirect);
            if Dirty(AfterRole(n, h), h) && exists j :: Outdated(a, h, j)
            then
              && first.Some? && Outdated(a, h, first.value) && (forall j :: Outdated(a, h, j) ==> first.value <= j)
              && Told(c, h, a, a.owner[first.value]) in d.net
            else forall q :: q in d.net && q.body.Update? ==> q in c.net
  {
    hide *;
    ClusterFaults.NextDeliverPing(s, voters, c, p, redirect, first);
    FirstIs(s, voters, c, p, redirect, first);
    var n := c.nodes[p.to];
    RepliesTell(s, c, p, n, redirect, first);
    PutNet(c, p.to, ProcessPing(n, p.hdr, s.migration, redirect), {p}, PingReplies(s, c, p, n, redirect, first));
  }

  /** The UPDATE about `o`. */
  ghost function Told(c: Cluster, h: Header, a: Node, o: Id): Packet
    requires a.Valid() && o in a.peers
  {
    Packet(c.serial + 1, h.sender, HeaderOf(a), Update(o, a.peers[o].configEpoch, a.SlotsOf(o)))
  }

  lemma FirstIs(s: Settings, voters: nat -> set<Id>, c: Cluster, p: Packet, redirect: bool, first: Option<Slot>)
    requires WellFormed(c) && CanDeliver(s, voters, c, p, redirect, first) && p.body.Ping?
    ensures p.to in c.nodes && c.nodes[p.to].Valid() && p.hdr.sender in c.nodes[p.to].peers
    ensures var n, h := c.nodes[p.to], p.hdr;
            var a := AfterSlots(n, h, s.migration, redirect);
            && a.Valid()
            && (first.Some? <==> Dirty(AfterRole(n, h), h) && exists j :: Outdated(a, h, j))
            && (first.Some? ==> Outdated(a, h, first.value) && forall j :: Outdated(a, h, j) ==> first.value <= j)
            && (first.Some? ==> first.value in a.owner && a.owner[first.value] in a.peers)
  {
    hide AfterSlots, AfterRole, Dirty;
    var a := AfterSlots(c.nodes[p.to], p.hdr, s.migration, redirect);
    assert forall j :: Outdated(a, p.hdr, j) <==> j in p.hdr.slots && StaleClaim(a, p.hdr, j);
  }

  lemma RepliesTell(s: Settings, c: Cluster, p: Packet, n: Node, redirect: bool, first: Option<Slot>)
    requires n.Valid() && p.body.Ping? && p.hdr.sender in n.peers
    requires var a := AfterSlots(n, p.hdr, s.migration, redirect);
             a.Valid() && (first.Some? ==> first.value in a.owner && a.owner[first.value] in a.peers)
    ensures var a, sent := AfterSlots(n, p.hdr, s.migration, redirect), PingReplies(s, c, p, n, redirect, first);
            && (first.Some? ==> Told(c, p.hdr, a, a.owner[first.value]) in sent)
            && (first.None? ==> forall q :: q in sent ==> !q.body.Update?)
  {
    hide AfterSlots, HeaderOf, Absorb, Node.SlotsOf, Node.Valid;
  }

  lemma PutNet(c: Cluster, n: Id, node: Node, consumed: set<Packet>, sent: set<Packet>)
    ensures Put(c, n, node, consumed, sent).net == c.net - consumed + sent
  {}

  /** A master that still holds a slot under an older epoch gives it up on an UPDATE exactly when the owner it is told
      of is not yet recorded with that epoch. The header is recorded first, so a master that tells of itself is not
      heard this way: only its own PING can take the slot. */
  lemma UpdateHeardIff(n: Node, h: Header, o: Id, epoch: nat, slots: set<Slot>, j: Slot, migration: bool,
                       redirect: bool)
    requires n.Valid() && h.sender in n.peers && h.sender != n.me && o in n.peers && o != n.me
    requires j in slots && j !in n.importing && j in n.owner && n.owner[j] == n.me && n.peers[n.me].configEpoch < epoch
    ensures var r := ProcessUpdate(Absorb(n, h), o, epoch, slots, migration, redirect);
            && j in r.owner
            && var news := n.peers[o].configEpoch < epoch && (o == h.sender ==> h.configEpoch < epoch);
               r.owner[j] == if news then o else n.me
  {
    var a := Absorb(n, h);
    assert a.Valid() && a.owner == n.owner && a.importing == n.importing && a.me == n.me;
    assert a.peers[n.me] == n.peers[n.me];
    UpdateInstalls(a, o, epoch, slots, migration, redirect);
    hide ProcessUpdate, Node.Valid;
    if a.peers[o].configEpoch < epoch { assert Takes(a, epoch, slots, j); }
  }
}
