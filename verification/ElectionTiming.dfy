/** Election safety needs its premise: a run in which two replicas win the same epoch.

    A vote that arrives after its election was given up, but before the next one is requested, is counted for the
    next one: the counter is reset when an election is scheduled, not when its epoch is taken. */
module ElectionTiming {
  import opened Common
  import opened ClusterNode
  import opened ClusterBus
  import Election

  const LATE: Settings := Settings(0, true)

  /** A manual failover that may start, in a cluster of one voting master. */
  const MANUAL: FailoverInput := FailoverInput(true, true, false, false, 0, 0, 1)

  /** The only master votes in every epoch. */
  function Voters(epoch: nat): set<Id> { {0} }

  /** What everybody records at first: node 0 is the master of 1 and 2. */
  function Peers(): map<Id, Peer> {
    map[0 := Peer(0, Master, false, 0),
        1 := Peer(0, Replica(Some(0)), false, 0),
        2 := Peer(0, Replica(Some(0)), false, 0)]
  }

  function MasterNode(currentEpoch: nat, lastVoteEpoch: nat): Node {
    Node(0, 0, currentEpoch, lastVoteEpoch, Peers(), map[0 := 0], {}, 0, false, 0, 0)
  }

  function ReplicaNode(me: Id, now: int, currentEpoch: nat, authTime: int, sent: bool, count: nat,
                       authEpoch: nat): Node
  {
    Node(me, now, currentEpoch, 0, Peers(), map[0 := 0], {}, authTime, sent, count, authEpoch)
  }

  // ------------------------------------------------------------------
  // Single nodes
  // ------------------------------------------------------------------

  function FromMaster(epoch: nat): Header { Header(0, epoch, 0, Master, {0}) }

  function FromReplica(me: Id, epoch: nat): Header { Header(me, epoch, 0, Replica(Some(0)), {0}) }

  lemma MasterShape(e: nat, v: nat)
    ensures var m := MasterNode(e, v); m.Valid() && m.SlotsOf(0) == {0} && HeaderOf(m) == FromMaster(e)
  {}

  lemma ReplicaShape(me: Id, now: int, e: nat, at: int, sent: bool, count: nat, ae: nat)
    requires me == 1 || me == 2
    ensures var r := ReplicaNode(me, now, e, at, sent, count, ae);
            r.Valid() && r.SlotsOf(0) == {0} && HeaderOf(r) == FromReplica(me, e)
  {}

  lemma MasterHears(e: nat, v: nat, from: Id, epoch: nat)
    requires (from == 1 || from == 2) && e <= epoch
    ensures var m := MasterNode(e, v); m.Valid() && Absorb(m, FromReplica(from, epoch)) == MasterNode(epoch, v)
  {
    MasterShape(e, v);
    assert Absorb(MasterNode(e, v), FromReplica(from, epoch)).peers == Peers();
  }

  lemma MasterVotes(e: nat, v: nat, from: Id)
    requires (from == 1 || from == 2) && v != e
    ensures var m, h := MasterNode(e, v), FromReplica(from, e);
            m.Valid() && GrantsVote(m, h, true, 0) && CastVote(m, h) == MasterNode(e, e)
  {
    MasterShape(e, v);
    assert CastVote(MasterNode(e, v), FromReplica(from, e)).peers == Peers();
  }

  lemma ReplicaHears(me: Id, now: int, e: nat, at: int, sent: bool, count: nat, ae: nat, h: Header)
    requires (me == 1 || me == 2) && h.sender in Peers() && h.configEpoch == 0 && e <= h.currentEpoch
    ensures var r := ReplicaNode(me, now, e, at, sent, count, ae);
            r.Valid() && Absorb(r, h) == ReplicaNode(me, now, h.currentEpoch, at, sent, count, ae)
  {
    ReplicaShape(me, now, e, at, sent, count, ae);
    assert Absorb(ReplicaNode(me, now, e, at, sent, count, ae), h).peers == Peers();
  }

  lemma ReplicaCounts(me: Id, now: int, e: nat, at: int, sent: bool, count: nat, ae: nat)
    requires (me == 1 || me == 2) && ae <= e
    ensures var r := ReplicaNode(me, now, e, at, sent, count, ae);
            && r.Valid() && CountsVote(r, FromMaster(e))
            && CountVote(r) == ReplicaNode(me, now, e, at, sent, count + 1, ae)
  {
    ReplicaShape(me, now, e, at, sent, count, ae);
  }

  lemma ReplicaRequests(me: Id, now: int, e: nat, count: nat, ae: nat)
    requires me == 1 || me == 2
    ensures var r := ReplicaNode(me, now, e, now, false, count, ae);
            && r.Valid() && FailoverDecision(r, MANUAL, 0) == Requested
            && HandleFailover(r, MANUAL, 0) == ReplicaNode(me, now, e + 1, now, true, count, e + 1)
  {
    ReplicaShape(me, now, e, now, false, count, ae);
  }

  lemma ReplicaSchedules(now: int, e: nat, ae: nat)
    requires now > 4000
    ensures var r := ReplicaNode(1, now, e, 0, true, 0, ae);
            && r.Valid() && FailoverDecision(r, MANUAL, 0) == Scheduled
            && HandleFailover(r, MANUAL, 0) == ReplicaNode(1, now, e, now, false, 0, ae)
  {
    ReplicaShape(1, now, e, 0, true, 0, ae);
  }

  lemma ReplicaWins(me: Id, now: int, e: nat, ae: nat)
    requires me == 1 || me == 2
    ensures var r := ReplicaNode(me, now, e, now, true, 1, ae); r.Valid() && FailoverDecision(r, MANUAL, 0) == Won
  {
    ReplicaShape(me, now, e, now, true, 1, ae);
  }

  // ------------------------------------------------------------------
  // Single steps
  // ------------------------------------------------------------------

  /** From `c` an event leads to `d`, in which node `n` is `node` and nothing else about nodes has changed. */
  ghost predicate Leads(c: Cluster, e: Event, d: Cluster, n: Id, node: Node) {
    && EpochInv(c) && EpochInv(d) && Step(LATE, Voters, c, e, d)
    && d.nodes == c.nodes[n := node] && d.counted.Keys == c.counted.Keys && c.wins <= d.wins
  }

  lemma PutFacts(c: Cluster, n: Id, node: Node, consumed: set<Packet>, sent: set<Packet>)
    ensures var d := Put(c, n, node, consumed, sent);
            && d.nodes == c.nodes[n := node] && d.counted == c.counted && d.wins == c.wins
            && c.net - consumed <= d.net && sent <= d.net && (consumed == {} ==> c.net <= d.net)
  {}

  lemma RequestNext(c: Cluster, me: Id, now: int, e: nat, count: nat, ae: nat, r: Node)
    requires WellFormed(c) && (me == 1 || me == 2) && me in c.nodes
    requires c.nodes[me] == ReplicaNode(me, now, e, now, false, count, ae)
    requires r == ReplicaNode(me, now, e + 1, now, true, count, e + 1)
    ensures r.Valid() && Enabled(LATE, Voters, c, Failover(me, MANUAL))
    ensures Next(LATE, Voters, c, Failover(me, MANUAL)) == Put(c, me, r, {}, Requests(c, r, true))
  {
    ReplicaRequests(me, now, e, count, ae);
    ReplicaShape(me, now, e + 1, now, true, count, e + 1);
    hide FailoverDecision, HandleFailover, Put, Requests, ReplicaNode, Node.Valid, Voters;
  }

  lemma RequestSent(c: Cluster, me: Id, now: int, e: nat, count: nat, r: Node)
    requires (me == 1 || me == 2) && r == ReplicaNode(me, now, e, now, true, count, e) && r.Valid()
    ensures forall q :: q in Peers() && q != me ==>
              Packet(c.serial, q, FromReplica(me, e), AuthRequest(true, now)) in Requests(c, r, true)
  {
    ReplicaShape(me, now, e, now, true, count, e);
    hide HeaderOf, Node.Valid;
    forall q | q in Peers() && q != me
      ensures Packet(c.serial, q, FromReplica(me, e), AuthRequest(true, now)) in Requests(c, r, true)
    {
      assert Packet(c.serial, q, HeaderOf(r), AuthRequest(true, now)) in Requests(c, r, true);
    }
  }

  lemma RequestStep(c: Cluster, me: Id, now: int, e: nat, count: nat, ae: nat) returns (d: Cluster)
    requires EpochInv(c) && (me == 1 || me == 2) && me in c.nodes
    requires c.nodes[me] == ReplicaNode(me, now, e, now, false, count, ae)
    ensures Leads(c, Failover(me, MANUAL), d, me, ReplicaNode(me, now, e + 1, now, true, count, e + 1))
    ensures c.net <= d.net
    ensures forall q :: q in Peers() && q != me ==>
              Packet(c.serial, q, FromReplica(me, e + 1), AuthRequest(true, now)) in d.net
  {
    var ev := Failover(me, MANUAL);
    var r := ReplicaNode(me, now, e + 1, now, true, count, e + 1);
    assert WellFormed(c);
    hide EpochInv, WellFormed, Enabled, Next, Put, Requests, ReplicaNode, Node.Valid, Peers, FromReplica;
    RequestNext(c, me, now, e, count, ae, r);
    PutFacts(c, me, r, {}, Requests(c, r, true));
    NextKeepsEpochs(LATE, Voters, c, ev);
    d := Next(LATE, Voters, c, ev);
    RequestSent(c, me, now, e + 1, count, r);
  }

  lemma ScheduleStep(c: Cluster, now: int, e: nat, ae: nat) returns (d: Cluster)
    requires EpochInv(c) && 1 in c.nodes && c.nodes[1] == ReplicaNode(1, now, e, 0, true, 0, ae) && now > 4000
    ensures Leads(c, Failover(1, MANUAL), d, 1, ReplicaNode(1, now, e, now, false, 0, ae)) && c.net <= d.net
  {
    var ev := Failover(1, MANUAL);
    assert WellFormed(c);
    hide EpochInv, Node.Valid;
    ReplicaSchedules(now, e, ae);
    var r := ReplicaNode(1, now, e, now, false, 0, ae);
    PutFacts(c, 1, r, {}, {});
    hide FailoverDecision, HandleFailover, Put;
    d := Next(LATE, Voters, c, ev);
    NextKeepsEpochs(LATE, Voters, c, ev);
    assert d == Put(c, 1, r, {}, {}).(counted := c.counted[1 := {}]);
    hide Next, NextFailover;
  }

  lemma WinNext(c: Cluster, me: Id, now: int, e: nat, ae: nat)
    requires WellFormed(c) && (me == 1 || me == 2) && me in c.nodes
    requires c.nodes[me] == ReplicaNode(me, now, e, now, true, 1, ae)
    ensures Enabled(LATE, Voters, c, Failover(me, MANUAL)) && c.nodes[me].Valid() && me in c.counted
    ensures Next(LATE, Voters, c, Failover(me, MANUAL))
         == Put(c, me, HandleFailover(c.nodes[me], MANUAL, 0), {}, {}).(wins := c.wins + {Win(me, ae, c.counted[me])})
  {
    ReplicaWins(me, now, e, ae);
    assert |Voters(ae)| == 1;
    hide FailoverDecision, HandleFailover, Voters, Put;
  }

  lemma WinStep(c: Cluster, me: Id, now: int, e: nat, ae: nat) returns (d: Cluster, node: Node)
    requires EpochInv(c) && (me == 1 || me == 2) && me in c.nodes
    requires c.nodes[me] == ReplicaNode(me, now, e, now, true, 1, ae)
    ensures Leads(c, Failover(me, MANUAL), d, me, node) && c.net <= d.net
    ensures me in c.counted && Win(me, ae, c.counted[me]) in d.wins
  {
    var ev := Failover(me, MANUAL);
    assert WellFormed(c);
    hide EpochInv, WellFormed, Enabled, Next, Put, HandleFailover, ReplicaNode;
    WinNext(c, me, now, e, ae);
    node := HandleFailover(c.nodes[me], MANUAL, 0);
    PutFacts(c, me, node, {}, {});
    NextKeepsEpochs(LATE, Voters, c, ev);
    d := Next(LATE, Voters, c, ev);
  }

  lemma TickNext(c: Cluster, n: Id, elapsed: nat)
    requires WellFormed(c) && n in c.nodes
    ensures Enabled(LATE, Voters, c, Local(n, Tick(elapsed)))
    ensures Next(LATE, Voters, c, Local(n, Tick(elapsed)))
         == Put(c, n, c.nodes[n].(now := c.nodes[n].now + elapsed), {}, {})
  {
    hide Put;
  }

  lemma TickStep(c: Cluster, n: Id, elapsed: nat) returns (d: Cluster)
    requires EpochInv(c) && n in c.nodes
    ensures Leads(c, Local(n, Tick(elapsed)), d, n, c.nodes[n].(now := c.nodes[n].now + elapsed)) && c.net <= d.net
  {
    var ev := Local(n, Tick(elapsed));
    assert WellFormed(c);
    hide EpochInv, WellFormed, Enabled, Next, Put;
    TickNext(c, n, elapsed);
    PutFacts(c, n, c.nodes[n].(now := c.nodes[n].now + elapsed), {}, {});
    NextKeepsEpochs(LATE, Voters, c, ev);
    d := Next(LATE, Voters, c, ev);
  }

  lemma VoteNext(c: Cluster, p: Packet, from: Id, e0: nat, v: nat, e: nat, stamp: int)
    requires WellFormed(c) && (from == 1 || from == 2) && e0 <= e && v != e
    requires p in c.net && p.to == 0 && p.hdr == FromReplica(from, e) && p.body == AuthRequest(true, stamp)
    requires 0 in c.nodes && c.nodes[0] == MasterNode(e0, v)
    ensures Enabled(LATE, Voters, c, Deliver(p, true, None))
    ensures Next(LATE, Voters, c, Deliver(p, true, None))
         == Put(c, 0, MasterNode(e, e), {p}, {Packet(c.serial, from, FromMaster(e), AuthAck(stamp))})
            .(votes := c.votes + {Vote(0, e, from)})
  {
    MasterHears(e0, v, from, e);
    MasterVotes(e, v, from);
    MasterShape(e, e);
    assert 0 in Voters(e) && from in c.nodes[0].peers && c.nodes[0].me == 0 && MasterNode(e, v).currentEpoch == e;
    hide GrantsVote, Absorb, CastVote, HeaderOf, Voters, Put, Node.Valid, MasterNode;
  }

  lemma VoteStep(c: Cluster, p: Packet, from: Id, e0: nat, v: nat, e: nat, stamp: int) returns (d: Cluster)
    requires EpochInv(c) && (from == 1 || from == 2) && e0 <= e && v != e
    requires p in c.net && p.to == 0 && p.hdr == FromReplica(from, e) && p.body == AuthRequest(true, stamp)
    requires 0 in c.nodes && c.nodes[0] == MasterNode(e0, v)
    ensures Leads(c, Deliver(p, true, None), d, 0, MasterNode(e, e)) && c.net - {p} <= d.net
    ensures Packet(c.serial, from, FromMaster(e), AuthAck(stamp)) in d.net
  {
    var ev := Deliver(p, true, None);
    assert WellFormed(c);
    hide EpochInv, WellFormed, Enabled, Next, Put, MasterNode;
    var ack := Packet(c.serial, from, FromMaster(e), AuthAck(stamp));
    VoteNext(c, p, from, e0, v, e, stamp);
    PutFacts(c, 0, MasterNode(e, e), {p}, {ack});
    NextKeepsEpochs(LATE, Voters, c, ev);
    d := Next(LATE, Voters, c, ev);
  }

  /** A request reaches a node that is no master: it only learns the epoch. */
  lemma HearStep(c: Cluster, p: Packet, from: Id, me: Id, now: int, e0: nat, e: nat, stamp: int) returns (d: Cluster)
    requires EpochInv(c) && from == 1 && me == 2 && e0 <= e
    requires p in c.net && p.to == me && p.hdr == FromReplica(from, e) && p.body == AuthRequest(true, stamp)
    requires me in c.nodes && c.nodes[me] == ReplicaNode(me, now, e0, now, false, 0, 0)
    ensures Leads(c, Deliver(p, true, None), d, me, ReplicaNode(me, now, e, now, false, 0, 0)) && c.net - {p} <= d.net
  {
    var ev := Deliver(p, true, None);
    assert WellFormed(c);
    hide EpochInv, Node.Valid;
    ReplicaHears(me, now, e0, now, false, 0, 0, p.hdr);
    assert !GrantsVote(ReplicaNode(me, now, e, now, false, 0, 0), p.hdr, true, 0);
    hide GrantsVote, Absorb, CastVote, HeaderOf, Voters;
    d := Next(LATE, Voters, c, ev);
    NextKeepsEpochs(LATE, Voters, c, ev);
  }

  lemma CountStep(c: Cluster, p: Packet, me: Id, now: int, e: nat, at: int, sent: bool, ae: nat, stamp: int)
    returns (d: Cluster)
    requires EpochInv(c) && (me == 1 || me == 2) && ae <= e
    requires p in c.net && p.to == me && p.hdr == FromMaster(e) && p.body == AuthAck(stamp)
    requires me in c.nodes && c.nodes[me] == ReplicaNode(me, now, e, at, sent, 0, ae)
    ensures Leads(c, Deliver(p, true, None), d, me, ReplicaNode(me, now, e, at, sent, 1, ae)) && c.net - {p} <= d.net
  {
    var ev := Deliver(p, true, None);
    assert WellFormed(c);
    hide EpochInv, Node.Valid;
    ReplicaHears(me, now, e, at, sent, 0, ae, p.hdr);
    ReplicaCounts(me, now, e, at, sent, 0, ae);
    hide CountsVote, Absorb, CountVote, Voters;
    d := Next(LATE, Voters, c, ev);
    NextKeepsEpochs(LATE, Voters, c, ev);
  }

  // ------------------------------------------------------------------
  // The run
  // ------------------------------------------------------------------

  /** Some run of `k` steps ends in `c`. */
  ghost predicate Reached(c: Cluster, k: nat) {
    exists cs: seq<Cluster>, es: seq<Event> :: Run(LATE, Voters, cs, es) && |es| == k && cs[k] == c
  }

  ghost function Start(): Cluster {
    Cluster(map[0 := MasterNode(0, 0),
                1 := ReplicaNode(1, 0, 0, 0, false, 0, 0),
                2 := ReplicaNode(2, 0, 0, 0, false, 0, 0)],
            {}, 0, {}, map[0 := {}, 1 := {}, 2 := {}], {})
  }

  /** A node that is at rest. */
  ghost predicate AtRest(n: Node, me: Id) { NodeOk(n) && n.Valid() && n.me == me && n.authCount == 0 && !n.authSent }

  lemma StartNodes()
    ensures AtRest(MasterNode(0, 0), 0)
    ensures AtRest(ReplicaNode(1, 0, 0, 0, false, 0, 0), 1) && AtRest(ReplicaNode(2, 0, 0, 0, false, 0, 0), 2)
  {
    MasterShape(0, 0);
    ReplicaShape(1, 0, 0, 0, false, 0, 0);
    ReplicaShape(2, 0, 0, 0, false, 0, 0);
  }

  lemma InitOf(c: Cluster, a: Node, b: Node, d: Node)
    requires AtRest(a, 0) && AtRest(b, 1) && AtRest(d, 2)
    requires c.nodes == map[0 := a, 1 := b, 2 := d] && c.counted == map[0 := {}, 1 := {}, 2 := {}]
    requires c.net == {} && c.votes == {} && c.wins == {}
    ensures Init(c) && Has(c, a, b, d)
  {
    hide NodeOk, PacketOk, Node.Valid;
    forall n | n in c.nodes
      ensures NodeOk(c.nodes[n]) && c.nodes[n].me == n && c.nodes[n].Valid() && c.counted[n] == {}
    {
      assert n == 0 || n == 1 || n == 2;
    }
    assert c.counted.Keys == c.nodes.Keys == {0, 1, 2};
  }

  lemma StartReached()
    ensures Reached(Start(), 0)
    ensures Has(Start(), MasterNode(0, 0), ReplicaNode(1, 0, 0, 0, false, 0, 0), ReplicaNode(2, 0, 0, 0, false, 0, 0))
  {
    StartNodes();
    hide AtRest, Init, Has, MasterNode, ReplicaNode, Step;
    InitOf(Start(), MasterNode(0, 0), ReplicaNode(1, 0, 0, 0, false, 0, 0), ReplicaNode(2, 0, 0, 0, false, 0, 0));
    var cs, es: seq<Event> := [Start()], [];
    assert Run(LATE, Voters, cs, es) && |es| == 0 && cs[0] == Start();
  }

  /** The nodes of a cluster that a run can reach, one by one. */
  ghost predicate Has(c: Cluster, a: Node, b: Node, d: Node) {
    EpochInv(c) && c.nodes.Keys == {0, 1, 2} && c.nodes[0] == a && c.nodes[1] == b && c.nodes[2] == d
  }

  lemma Moves(k: nat, c: Cluster, e: Event, d: Cluster, n: Id, node: Node, a: Node, b: Node, r: Node)
    requires Reached(c, k) && Has(c, a, b, r) && Leads(c, e, d, n, node) && n in {0, 1, 2}
    ensures Reached(d, k + 1)
    ensures Has(d, if n == 0 then node else a, if n == 1 then node else b, if n == 2 then node else r)
    ensures c.wins <= d.wins
  {
    hide EpochInv, Step, Init;
    var cs: seq<Cluster>, es: seq<Event> :| Run(LATE, Voters, cs, es) && |es| == k && cs[k] == c;
    var cs', es' := cs + [d], es + [e];
    forall i | 0 <= i < |es'| ensures Step(LATE, Voters, cs'[i], es'[i], cs'[i + 1]) {
      if i < |es| { assert Step(LATE, Voters, cs[i], es[i], cs[i + 1]); }
    }
    assert Run(LATE, Voters, cs', es') && |es'| == k + 1 && cs'[k + 1] == d;
  }

  function R1(now: int, e: nat, at: int, sent: bool, count: nat, ae: nat): Node {
    ReplicaNode(1, now, e, at, sent, count, ae)
  }

  function R2(e: nat, sent: bool, count: nat, ae: nat): Node { ReplicaNode(2, 0, e, 0, sent, count, ae) }

  /** Node 1 asks for votes in epoch 1; node 0 votes for it, and node 2 hears of the epoch. */
  lemma AskedForVotes() returns (c: Cluster, ack: Packet)
    ensures Reached(c, 3) && Has(c, MasterNode(1, 1), R1(0, 1, 0, true, 0, 1), R2(1, false, 0, 0))
    ensures ack in c.net && ack.to == 1 && ack.hdr == FromMaster(1) && ack.body == AuthAck(0)
  {
    StartReached();
    hide Reached, Leads, EpochInv, MasterNode, ReplicaNode;
    var c0 := Start();
    var c1 := RequestStep(c0, 1, 0, 0, 0, 0);
    Moves(0, c0, Failover(1, MANUAL), c1, 1, R1(0, 1, 0, true, 0, 1),
          MasterNode(0, 0), R1(0, 0, 0, false, 0, 0), R2(0, false, 0, 0));
    assert 0 in Peers() && 2 in Peers();
    var p0 := Packet(c0.serial, 0, FromReplica(1, 1), AuthRequest(true, 0));
    var p2 := Packet(c0.serial, 2, FromReplica(1, 1), AuthRequest(true, 0));
    var c2 := VoteStep(c1, p0, 1, 0, 0, 1, 0);
    Moves(1, c1, Deliver(p0, true, None), c2, 0, MasterNode(1, 1),
          MasterNode(0, 0), R1(0, 1, 0, true, 0, 1), R2(0, false, 0, 0));
    ack := Packet(c1.serial, 1, FromMaster(1), AuthAck(0));
    c := HearStep(c2, p2, 1, 2, 0, 0, 1, 0);
    Moves(2, c2, Deliver(p2, true, None), c, 2, R2(1, false, 0, 0),
          MasterNode(1, 1), R1(0, 1, 0, true, 0, 1), R2(0, false, 0, 0));
  }

  lemma Later()
    ensures R1(0, 1, 0, true, 0, 1).now == 0
    ensures R1(0, 1, 0, true, 0, 1).(now := 4001) == R1(4001, 1, 0, true, 0, 1)
  {}

  /** Node 1 gives that election up and schedules another; only now the vote arrives, and it is counted. */
  lemma CountedLate() returns (c: Cluster)
    ensures Reached(c, 6) && Has(c, MasterNode(1, 1), R1(4001, 1, 4001, false, 1, 1), R2(1, false, 0, 0))
  {
    var c3, ack := AskedForVotes();
    hide Reached, Leads, EpochInv, MasterNode, ReplicaNode;
    Later();
    var c4 := TickStep(c3, 1, 4001);
    Moves(3, c3, Local(1, Tick(4001)), c4, 1, R1(4001, 1, 0, true, 0, 1),
          MasterNode(1, 1), R1(0, 1, 0, true, 0, 1), R2(1, false, 0, 0));
    var c5 := ScheduleStep(c4, 4001, 1, 1);
    Moves(4, c4, Failover(1, MANUAL), c5, 1, R1(4001, 1, 4001, false, 0, 1),
          MasterNode(1, 1), R1(4001, 1, 0, true, 0, 1), R2(1, false, 0, 0));
    c := CountStep(c5, ack, 1, 4001, 1, 4001, false, 1, 0);
    Moves(5, c5, Deliver(ack, true, None), c, 1, R1(4001, 1, 4001, false, 1, 1),
          MasterNode(1, 1), R1(4001, 1, 4001, false, 0, 1), R2(1, false, 0, 0));
  }

  /** Node 1 asks for votes in epoch 2 and wins at once, although nobody has voted in epoch 2. */
  lemma WonWithoutVote() returns (c: Cluster, won: Node, w: Win)
    ensures Reached(c, 8) && Has(c, MasterNode(1, 1), won, R2(1, false, 0, 0))
    ensures w in c.wins && w.winner == 1 && w.epoch == 2
  {
    var c6 := CountedLate();
    hide Reached, Leads, EpochInv, MasterNode, ReplicaNode;
    var c7 := RequestStep(c6, 1, 4001, 1, 1, 1);
    Moves(6, c6, Failover(1, MANUAL), c7, 1, R1(4001, 2, 4001, true, 1, 2),
          MasterNode(1, 1), R1(4001, 1, 4001, false, 1, 1), R2(1, false, 0, 0));
    c, won := WinStep(c7, 1, 4001, 2, 2);
    w := Win(1, 2, c7.counted[1]);
    Moves(7, c7, Failover(1, MANUAL), c, 1, won, MasterNode(1, 1), R1(4001, 2, 4001, true, 1, 2), R2(1, false, 0, 0));
  }

  /** Election safety is not unconditional: node 2 wins epoch 2 as well, with the vote of node 0. The run makes a
      request with a vote on the counter, as by Election.AtMostOneWinner it must. */
  lemma TwoWinners() returns (cs: seq<Cluster>, es: seq<Event>, w: Win, x: Win)
    ensures Run(LATE, Voters, cs, es) && |es| == 12 && w in cs[|es|].wins && x in cs[|es|].wins
    ensures w.epoch == x.epoch == 2 && w.winner == 1 && x.winner == 2
    ensures !Election.AllFromZero(LATE, cs, es)
  {
    var c8, won: Node;
    c8, won, w := WonWithoutVote();
    hide Reached, Leads, EpochInv, MasterNode, ReplicaNode;
    var c9 := RequestStep(c8, 2, 0, 1, 0, 0);
    Moves(8, c8, Failover(2, MANUAL), c9, 2, R2(2, true, 0, 2), MasterNode(1, 1), won, R2(1, false, 0, 0));
    assert 0 in Peers();
    var p := Packet(c8.serial, 0, FromReplica(2, 2), AuthRequest(true, 0));
    var c10 := VoteStep(c9, p, 2, 1, 1, 2, 0);
    Moves(9, c9, Deliver(p, true, None), c10, 0, MasterNode(2, 2), MasterNode(1, 1), won, R2(2, true, 0, 2));
    var ack := Packet(c9.serial, 2, FromMaster(2), AuthAck(0));
    var c11 := CountStep(c10, ack, 2, 0, 2, 0, true, 2, 0);
    Moves(10, c10, Deliver(ack, true, None), c11, 2, R2(2, true, 1, 2), MasterNode(2, 2), won, R2(2, true, 0, 2));
    var c12, won' := WinStep(c11, 2, 0, 2, 2);
    x := Win(2, 2, c11.counted[2]);
    Moves(11, c11, Failover(2, MANUAL), c12, 2, won', MasterNode(2, 2), won, R2(2, true, 1, 2));
    assert w in c12.wins && x in c12.wins;
    cs, es := RunOf(c12, 12);
    Unsafe(cs, es, w, x);
  }

  lemma Unsafe(cs: seq<Cluster>, es: seq<Event>, w: Win, x: Win)
    requires Run(LATE, Voters, cs, es) && w in cs[|es|].wins && x in cs[|es|].wins
    requires w.epoch == x.epoch && w.winner != x.winner
    ensures !Election.AllFromZero(LATE, cs, es)
  {
    hide Step, Init, Election.FromZero;
    if Election.AllFromZero(LATE, cs, es) { Election.AtMostOneWinner(LATE, Voters, cs, es, |es|, w, x); }
  }

  lemma RunOf(c: Cluster, k: nat) returns (cs: seq<Cluster>, es: seq<Event>)
    requires Reached(c, k)
    ensures Run(LATE, Voters, cs, es) && |es| == k && cs[k] == c
  {
    cs, es :| Run(LATE, Voters, cs, es) && |es| == k && cs[k] == c;
  }
}
