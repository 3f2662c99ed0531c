/** A failover succeeds: from a replica whose master has failed to the votes of a majority and the takeover. */
module ClusterFailover {
  import opened Common
  import opened ClusterNode
  import opened ClusterBus
  import opened ClusterPromises
  import opened ClusterVotes

  // ------------------------------------------------------------------
  // Paths
  // ------------------------------------------------------------------

  ghost predicate Path(s: Settings, voters: nat -> set<Id>, cs: seq<Cluster>, es: seq<Event>) {
    |cs| == |es| + 1 && forall i :: 0 <= i < |es| ==> Step(s, voters, cs[i], es[i], cs[i + 1])
  }

  /** Some events lead from `c` to `d`. */
  ghost predicate Reaches(s: Settings, voters: nat -> set<Id>, c: Cluster, d: Cluster) {
    exists cs: seq<Cluster>, es: seq<Event> :: Path(s, voters, cs, es) && cs[0] == c && cs[|es|] == d
  }

  lemma ReachesSelf(s: Settings, voters: nat -> set<Id>, c: Cluster)
    ensures Reaches(s, voters, c, c)
  {
    var cs: seq<Cluster>, es: seq<Event> := [c], [];
    assert Path(s, voters, cs, es) && cs[0] == c && cs[|es|] == c;
  }

  lemma ReachesOn(s: Settings, voters: nat -> set<Id>, c: Cluster, d: Cluster, e: Event, f: Cluster)
    requires Reaches(s, voters, c, d) && Step(s, voters, d, e, f)
    ensures Reaches(s, voters, c, f)
  {
    hide Step;
    var cs: seq<Cluster>, es: seq<Event> :| Path(s, voters, cs, es) && cs[0] == c && cs[|es|] == d;
    var cs', es' := cs + [f], es + [e];
    forall i | 0 <= i < |es'| ensures Step(s, voters, cs'[i], es'[i], cs'[i + 1]) {
      if i < |es| { assert Step(s, voters, cs[i], es[i], cs[i + 1]); }
    }
    assert Path(s, voters, cs', es') && cs'[0] == c && cs'[|es'|] == f;
  }

  // ------------------------------------------------------------------
  // The candidate and its voters
  // ------------------------------------------------------------------

  /** An automatic failover with recent data and a rank that stays. */
  function Auto(delay: nat, size: nat): FailoverInput { FailoverInput(false, false, false, false, delay, 0, size) }

  /** A replica of the failed master `m`, which has slots. */
  ghost predicate Bereft(n: Node, r: Id, m: Id) { Follows(n, m) && n.me == r && m != r && n.peers[m].failed }

  /** It has asked for votes in epoch `e` just now, and counted `k`. */
  ghost predicate Stands(n: Node, r: Id, m: Id, e: nat, at: int, k: nat) {
    && Bereft(n, r, m) && n.currentEpoch == e == n.authEpoch && n.authSent && n.now == at == n.authTime
    && n.authCount == k
  }

  /** The header that its request bears. */
  ghost function Ballot(n: Node, m: Id): Header {
    Header(n.me, n.currentEpoch + 1, if m in n.peers then n.peers[m].configEpoch else 0, Replica(Some(m)), n.SlotsOf(m))
  }

  /** A master that has every reason to vote for the sender of `h`. */
  ghost predicate WillVote(n: Node, h: Header, m: Id, nodeTimeout: nat) {
    && n.Valid() && n.IsMaster(n.me) && n.SlotsOf(n.me) != {}
    && h.sender in n.peers && n.peers[h.sender].role == Replica(Some(m)) && m in n.peers && n.peers[m].failed
    && n.currentEpoch <= h.currentEpoch && n.lastVoteEpoch != h.currentEpoch
    && n.now - n.peers[m].votedTime >= 2 * nodeTimeout && !ClaimsStale(n, h)
  }

  /** The candidate will count a vote of `v`. */
  ghost predicate Trusts(n: Node, v: Id) { v in n.peers && n.IsMaster(v) && n.SlotsOf(v) != {} }

  /** The candidate knows `v` as a master, and `v` will vote when it gets the request. */
  ghost predicate Supports(s: Settings, voters: nat -> set<Id>, c: Cluster, h: Header, m: Id, v: Id) {
    && h.sender in c.nodes && v != h.sender && v in c.nodes && WillVote(c.nodes[v], h, m, s.nodeTimeout)
    && Trusts(c.nodes[h.sender], v) && v in voters(h.currentEpoch)
  }

  /** The request for `v`. */
  function Asking(serial: nat, v: Id, h: Header, at: int): Packet { Packet(serial, v, h, AuthRequest(false, at)) }

  /** The votes of `done` are counted, those of `rest` are still to come. */
  ghost predicate Poll(s: Settings, voters: nat -> set<Id>, c: Cluster, h: Header, m: Id, at: int, serial: nat,
                       done: set<Id>, rest: set<Id>)
  {
    && WellFormed(c) && h.sender in c.nodes && c.counted[h.sender] == done && done !! rest
    && Stands(c.nodes[h.sender], h.sender, m, h.currentEpoch, at, |done|)
    && forall v :: v in rest ==> Supports(s, voters, c, h, m, v) && Asking(serial, v, h, at) in c.net
  }

  // ------------------------------------------------------------------
  // One vote
  // ------------------------------------------------------------------

  /** Nothing but node `n` and the packets differ. */
  ghost predicate Touches(c: Cluster, d: Cluster, n: Id, node: Node, gone: Packet, sent: set<Packet>) {
    && d.nodes == c.nodes[n := node] && d.net == c.net - {gone} + sent && d.wins == c.wins
  }

  /** A request can always be delivered to a voter of its epoch that knows the sender. */
  lemma RequestStep(s: Settings, voters: nat -> set<Id>, c: Cluster, p: Packet)
    requires WellFormed(c) && p in c.net && p.to in c.nodes && p.body.AuthRequest?
    requires p.hdr.sender in c.nodes[p.to].peers
    requires c.nodes[p.to].currentEpoch <= p.hdr.currentEpoch && p.to in voters(p.hdr.currentEpoch)
    ensures Step(s, voters, c, Deliver(p, true, None), NextRequest(s, c, p, c.nodes[p.to]))
  {
    var n := c.nodes[p.to];
    assert Absorb(n, p.hdr).currentEpoch == p.hdr.currentEpoch;
    hide GrantsVote, NextRequest, Absorb;
  }

  lemma AckStep(s: Settings, voters: nat -> set<Id>, c: Cluster, p: Packet)
    requires WellFormed(c) && p in c.net && p.to in c.nodes && p.body.AuthAck? && p.hdr.sender in c.nodes[p.to].peers
    ensures p.to in c.counted && Step(s, voters, c, Deliver(p, true, None), NextAck(c, p, c.nodes[p.to]))
  {
    hide NextAck;
  }

  lemma NodesOf(c: Cluster, p: Id)
    requires WellFormed(c) && p in c.nodes
    ensures c.nodes[p].Valid() && c.nodes[p].me == p && p in c.counted
  {}

  /** A cluster stays well formed when one node changes to a valid one. */
  lemma StillFormed(c: Cluster, d: Cluster, n: Id)
    requires WellFormed(c) && n in c.nodes && n in d.nodes && d.nodes == c.nodes[n := d.nodes[n]]
    requires d.nodes[n].Valid() && d.nodes[n].me == n && d.counted.Keys == c.counted.Keys
    ensures WellFormed(d)
  {
    hide Node.Valid;
    assert d.nodes.Keys == c.nodes.Keys;
  }

  lemma RequestShape(s: Settings, c: Cluster, p: Packet, n: Node)
    requires n.Valid() && p.hdr.sender in n.peers && p.body.AuthRequest?
    ensures var d := NextRequest(s, c, p, n);
            && p.to in d.nodes && d.nodes == c.nodes[p.to := d.nodes[p.to]]
            && d.wins == c.wins && d.counted == c.counted
            && d.nodes[p.to].me == n.me && d.nodes[p.to].Valid()
  {
    hide HeaderOf, Node.SlotsOf;
  }

  lemma AckShape(c: Cluster, p: Packet, n: Node)
    requires n.Valid() && p.hdr.sender in n.peers && p.to in c.counted
    ensures var d, a := NextAck(c, p, n), Absorb(n, p.hdr);
            && p.to in d.nodes && d.nodes == c.nodes[p.to := d.nodes[p.to]] && d.wins == c.wins && d.net == c.net - {p}
            && d.nodes[p.to] == a.(authCount := d.nodes[p.to].authCount) && d.nodes[p.to].Valid()
  {
    var a := Absorb(n, p.hdr);
    hide Absorb, Node.SlotsOf;
  }

  lemma WillVoteIs(n: Node, h: Header, m: Id, nodeTimeout: nat)
    requires WillVote(n, h, m, nodeTimeout)
    ensures n.Valid() && h.sender in n.peers && n.currentEpoch <= h.currentEpoch && MasterOf(n, h) == Some(m)
    ensures && n.IsMaster(n.me) && n.SlotsOf(n.me) != {} && n.lastVoteEpoch != h.currentEpoch && m in n.peers
            && n.peers[m].failed && n.now - n.peers[m].votedTime >= 2 * nodeTimeout && !ClaimsStale(n, h)
  {}

  /** The request arrives and is granted. */
  lemma RequestArrives(s: Settings, voters: nat -> set<Id>, c: Cluster, p: Packet, m: Id)
    returns (d: Cluster, ack: Packet)
    requires WellFormed(c) && p in c.net && p.to in c.nodes && p.body.AuthRequest?
    requires WillVote(c.nodes[p.to], p.hdr, m, s.nodeTimeout) && p.to in voters(p.hdr.currentEpoch)
    ensures Step(s, voters, c, Deliver(p, true, None), d) && WellFormed(d) && d.counted == c.counted
    ensures p.to in d.nodes && Touches(c, d, p.to, d.nodes[p.to], p, {ack})
    ensures ack.to == p.hdr.sender && ack.body.AuthAck? && ack.hdr.sender == p.to
    ensures ack.hdr.currentEpoch == p.hdr.currentEpoch
  {
    hide *;
    var n := c.nodes[p.to];
    NodesOf(c, p.to);
    WillVoteIs(n, p.hdr, m, s.nodeTimeout);
    RequestStep(s, voters, c, p);
    VoteIff(s, c, p, n);
    d := NextRequest(s, c, p, n);
    RequestShape(s, c, p, n);
    StillFormed(c, d, p.to);
    HeaderTells(d.nodes[p.to]);
    ack := Packet(c.serial, p.hdr.sender, HeaderOf(d.nodes[p.to]), AuthAck(p.body.stamp));
    OneVoteIs(c, d, p, n, m);
    TouchesIs(c, d, p.to, d.nodes[p.to], p, {ack});
  }

  lemma OneVoteIs(c: Cluster, d: Cluster, p: Packet, n: Node, m: Id)
    requires p.body.AuthRequest? && OneVote(c, d, p, n, m)
    ensures p.to in d.nodes && d.nodes[p.to].Valid() && d.nodes[p.to].currentEpoch == p.hdr.currentEpoch
    ensures d.net == c.net - {p} + {Packet(c.serial, p.hdr.sender, HeaderOf(d.nodes[p.to]), AuthAck(p.body.stamp))}
  {}

  lemma TouchesIs(c: Cluster, d: Cluster, n: Id, node: Node, gone: Packet, sent: set<Packet>)
    requires d.nodes == c.nodes[n := node] && d.net == c.net - {gone} + sent && d.wins == c.wins
    ensures Touches(c, d, n, node, gone, sent)
  {}

  /** The vote arrives and is counted. */
  lemma AckArrives(s: Settings, voters: nat -> set<Id>, c: Cluster, p: Packet, m: Id, at: int, k: nat)
    returns (d: Cluster)
    requires WellFormed(c) && p in c.net && p.to in c.nodes && p.body.AuthAck? && p.hdr.sender != p.to
    requires Stands(c.nodes[p.to], p.to, m, p.hdr.currentEpoch, at, k) && Trusts(c.nodes[p.to], p.hdr.sender)
    ensures Step(s, voters, c, Deliver(p, true, None), d) && WellFormed(d)
    ensures p.to in d.nodes && Touches(c, d, p.to, d.nodes[p.to], p, {}) && p.to in c.counted
    ensures d.counted == c.counted[p.to := c.counted[p.to] + {p.hdr.sender}]
    ensures Stands(d.nodes[p.to], p.to, m, p.hdr.currentEpoch, at, k + 1)
    ensures forall v :: Trusts(c.nodes[p.to], v) ==> Trusts(d.nodes[p.to], v)
  {
    hide *;
    var n := c.nodes[p.to];
    NodesOf(c, p.to);
    TrustsIs(n, p.hdr.sender);
    StandsIs(n, p.to, m, p.hdr.currentEpoch, at, k);
    AckStep(s, voters, c, p);
    d := NextAck(c, p, n);
    CountIff(c, p, n);
    AckShape(c, p, n);
    AbsorbStands(n, p.hdr, p.to, m, at, k, d.nodes[p.to]);
    assert d.net == c.net - {p} + {};
    TouchesIs(c, d, p.to, d.nodes[p.to], p, {});
    assert d.counted.Keys == c.counted.Keys;
    StillFormed(c, d, p.to);
  }

  lemma TrustsIs(n: Node, v: Id)
    requires Trusts(n, v)
    ensures v in n.peers && n.IsMaster(v) && n.SlotsOf(v) != {}
  {}

  lemma StandsIs(n: Node, r: Id, m: Id, e: nat, at: int, k: nat)
    requires Stands(n, r, m, e, at, k)
    ensures n.authEpoch == e && n.authCount == k
  {}

  /** The header of a vote raises only the epoch of its sender. */
  lemma AbsorbStands(n: Node, h: Header, r: Id, m: Id, at: int, k: nat, d: Node)
    requires Stands(n, r, m, h.currentEpoch, at, k) && h.sender in n.peers && h.sender != r
    requires d == Absorb(n, h).(authCount := k + 1)
    ensures d.me == r && Stands(d, r, m, h.currentEpoch, at, k + 1)
    ensures forall v :: Trusts(n, v) ==> Trusts(d, v)
  {
    assert forall p :: d.SlotsOf(p) == n.SlotsOf(p);
    hide Node.SlotsOf;
  }

  // ------------------------------------------------------------------
  // All votes
  // ------------------------------------------------------------------

  /** Two nodes change and one packet goes: the others still support the candidate. */
  lemma OthersSupport(s: Settings, voters: nat -> set<Id>, c: Cluster, d: Cluster, h: Header, m: Id, v: Id, w: Id)
    requires h.sender in c.nodes && h.sender in d.nodes && w != v && w in d.nodes
    requires Supports(s, voters, c, h, m, w) && d.nodes[w] == c.nodes[w]
    requires Trusts(c.nodes[h.sender], w) ==> Trusts(d.nodes[h.sender], w)
    ensures Supports(s, voters, d, h, m, w)
  {
    hide WillVote, Trusts;
  }

  /** Nobody changes but the candidate, which keeps its view of the slots, and some voters. */
  ghost predicate Spares(c: Cluster, d: Cluster, r: Id, some: set<Id>) {
    && d.nodes.Keys == c.nodes.Keys && r in c.nodes && d.nodes[r].owner == c.nodes[r].owner
    && forall w :: w in c.nodes && w !in some && w != r ==> d.nodes[w] == c.nodes[w]
  }

  lemma SparesNone(c: Cluster, r: Id)
    requires r in c.nodes
    ensures Spares(c, c, r, {})
  {}

  lemma SparesOn(c: Cluster, d: Cluster, e: Cluster, r: Id, v: Id, some: set<Id>)
    requires Spares(c, d, r, {v}) && Spares(d, e, r, some - {v}) && v in some
    ensures Spares(c, e, r, some)
  {}

  /** One voter after the other. */
  lemma OneMoreVote(s: Settings, voters: nat -> set<Id>, c: Cluster, h: Header, m: Id, at: int, serial: nat,
                    done: set<Id>, rest: set<Id>, v: Id)
    returns (d: Cluster, e1: Event, c1: Cluster, e2: Event)
    requires Poll(s, voters, c, h, m, at, serial, done, rest) && v in rest
    ensures Step(s, voters, c, e1, c1) && Step(s, voters, c1, e2, d)
    ensures Poll(s, voters, d, h, m, at, serial, done + {v}, rest - {v}) && Spares(c, d, h.sender, {v})
  {
    hide WellFormed, Stands, WillVote, Trusts, Step;
    var r, p := h.sender, Asking(serial, v, h, at);
    e1 := Deliver(p, true, None);
    var ack;
    c1, ack := RequestArrives(s, voters, c, p, m);
    assert c1.nodes[r] == c.nodes[r];
    e2 := Deliver(ack, true, None);
    d := AckArrives(s, voters, c1, ack, m, at, |done|);
    SameOwner(c1.nodes[r], ack.hdr, d.nodes[r], s, voters, c1, ack, d);
    assert |done + {v}| == |done| + 1;
    forall w | w in rest - {v} ensures Supports(s, voters, d, h, m, w) && Asking(serial, w, h, at) in d.net {
      assert Supports(s, voters, c, h, m, w);
      OthersSupport(s, voters, c, d, h, m, v, w);
    }
  }

  lemma SameOwner(n: Node, h: Header, r: Node, s: Settings, voters: nat -> set<Id>, c: Cluster, p: Packet, d: Cluster)
    requires WellFormed(c) && p.to in c.nodes && c.nodes[p.to] == n && p.hdr == h && p.body.AuthAck?
    requires Step(s, voters, c, Deliver(p, true, None), d) && p.to in d.nodes && d.nodes[p.to] == r
    ensures r.owner == n.owner
  {
    hide Node.SlotsOf, Node.Valid;
  }

  lemma {:induction false} AllVote(s: Settings, voters: nat -> set<Id>, c: Cluster, h: Header, m: Id, at: int,
                                   serial: nat,
                                   done: set<Id>, rest: set<Id>, first: Cluster)
    returns (d: Cluster)
    requires Poll(s, voters, c, h, m, at, serial, done, rest) && Reaches(s, voters, first, c)
    ensures Reaches(s, voters, first, d) && Poll(s, voters, d, h, m, at, serial, done + rest, {})
    ensures Spares(c, d, h.sender, rest)
    decreases rest
  {
    hide *;
    if rest == {} {
      assert done + rest == done;
      PollIs(s, voters, c, h, m, at, serial, done, rest);
      SparesNone(c, h.sender);
      d := c;
    } else {
      var v :| v in rest;
      var d1, e1, c1, e2 := OneMoreVote(s, voters, c, h, m, at, serial, done, rest, v);
      ReachesOn(s, voters, first, c, e1, c1);
      ReachesOn(s, voters, first, c1, e2, d1);
      d := AllVote(s, voters, d1, h, m, at, serial, done + {v}, rest - {v}, first);
      assert done + {v} + (rest - {v}) == done + rest;
      SparesOn(c, d1, d, h.sender, v, rest);
    }
  }

  // ------------------------------------------------------------------
  // Before and after the votes
  // ------------------------------------------------------------------

  lemma FailoverStep(s: Settings, voters: nat -> set<Id>, c: Cluster, r: Id, i: FailoverInput)
    requires WellFormed(c) && r in c.nodes
    requires FailoverDecision(c.nodes[r], i, s.nodeTimeout).Won? ==> i.size == |voters(c.nodes[r].authEpoch)|
    ensures r in c.counted && Step(s, voters, c, Failover(r, i), NextFailover(s, c, r, i))
  {
    hide FailoverDecision, NextFailover;
  }

  lemma TickStep(s: Settings, voters: nat -> set<Id>, c: Cluster, r: Id, elapsed: nat)
    requires WellFormed(c) && r in c.nodes
    ensures var d := Put(c, r, c.nodes[r].(now := c.nodes[r].now + elapsed), {}, {});
            Step(s, voters, c, Local(r, Tick(elapsed)), d) && WellFormed(d)
  {
    hide *;
    var n := c.nodes[r];
    var n' := n.(now := n.now + elapsed);
    NodesOf(c, r);
    TickIs(s, voters, c, r, elapsed);
    ValidLater(n, n');
    PutFormed(c, r, n');
  }

  lemma PutFormed(c: Cluster, n: Id, node: Node)
    requires WellFormed(c) && n in c.nodes && node.Valid() && node.me == n
    ensures WellFormed(Put(c, n, node, {}, {}))
  {
    hide Node.Valid;
  }

  lemma TickIs(s: Settings, voters: nat -> set<Id>, c: Cluster, r: Id, elapsed: nat)
    requires WellFormed(c) && r in c.nodes && c.nodes[r].Valid()
    ensures Step(s, voters, c, Local(r, Tick(elapsed)), Put(c, r, c.nodes[r].(now := c.nodes[r].now + elapsed), {}, {}))
  {
    hide WellFormed, Node.Valid, Put, CanDeliver, NextDeliver, NextFailover, FailoverDecision, IsMaxEpoch;
  }

  /** What the timer decides at each of the three calls. */
  lemma Decisions(n: Node, r: Id, m: Id, delay: nat, size: nat, nodeTimeout: nat)
    requires Bereft(n, r, m)
    ensures var i, age := Auto(delay, size), n.now - n.authTime;
            && (age > 2 * VoteTime(nodeTimeout) ==> FailoverDecision(n, i, nodeTimeout) == Scheduled)
            && (age == 0 && !n.authSent ==> FailoverDecision(n, i, nodeTimeout) == Requested)
            && (age == 0 && n.authSent && 2 * n.authCount > size ==> FailoverDecision(n, i, nodeTimeout) == Won)
  {
    hide Node.SlotsOf;
  }

  /** The election is scheduled, its time comes, and votes are asked for. */
  lemma Asks(s: Settings, voters: nat -> set<Id>, c: Cluster, r: Id, m: Id, delay: nat, size: nat)
    returns (d: Cluster, serial: nat, at: int)
    requires WellFormed(c) && r in c.nodes && Bereft(c.nodes[r], r, m)
    requires c.nodes[r].now - c.nodes[r].authTime > 2 * VoteTime(s.nodeTimeout)
    ensures Reaches(s, voters, c, d) && WellFormed(d) && d.wins == c.wins
    ensures r in d.nodes && d.nodes == c.nodes[r := d.nodes[r]] && d.counted == c.counted[r := {}]
    ensures Stands(d.nodes[r], r, m, c.nodes[r].currentEpoch + 1, at, 0)
    ensures d.nodes[r].owner == c.nodes[r].owner && d.nodes[r].peers == c.nodes[r].peers
    ensures forall q :: q in c.nodes[r].peers && q != r ==> Asking(serial, q, Ballot(c.nodes[r], m), at) in d.net
  {
    hide *;
    var i, n := Auto(delay, size), c.nodes[r];
    NodesOf(c, r);
    ReachesSelf(s, voters, c);
    Decisions(n, r, m, delay, size, s.nodeTimeout);
    FailoverStep(s, voters, c, r, i);
    var c1 := NextFailover(s, c, r, i);
    var n1 := n.(authTime := n.now + delay, authCount := 0, authSent := false);
    ScheduleIs(s, c, r, m, delay, size);
    ReachesOn(s, voters, c, c, Failover(r, i), c1);
    TickStep(s, voters, c1, r, delay);
    var n2 := n1.(now := n.now + delay);
    var c2 := Put(c1, r, n2, {}, {});
    PutIs(c1, r, n2);
    BereftLater(n1, n2, r, m);
    ReachesOn(s, voters, c, c1, Local(r, Tick(delay)), c2);
    NodesOf(c2, r);
    Decisions(n2, r, m, delay, size, s.nodeTimeout);
    FailoverStep(s, voters, c2, r, i);
    d, serial, at := NextFailover(s, c2, r, i), c2.serial, n2.now;
    RequestIs(s, c2, r, m, delay, size);
    ReachesOn(s, voters, c, c2, Failover(r, i), d);
    SameBallot(n, n2, m);
  }

  lemma PutIs(c: Cluster, n: Id, node: Node)
    ensures var d := Put(c, n, node, {}, {});
            d.nodes == c.nodes[n := node] && d.net == c.net && d.wins == c.wins && d.counted == c.counted
  {}

  lemma BereftLater(n: Node, n': Node, r: Id, m: Id)
    requires Bereft(n, r, m) && n'.me == n.me && n'.peers == n.peers && n'.owner == n.owner
    ensures Bereft(n', r, m)
  {
    assert n'.SlotsOf(m) == n.SlotsOf(m);
    hide Node.SlotsOf;
  }

  lemma SameBallot(n: Node, n': Node, m: Id)
    requires n'.me == n.me && n'.peers == n.peers && n'.owner == n.owner && n'.currentEpoch == n.currentEpoch
    ensures Ballot(n', m) == Ballot(n, m)
  {}

  lemma ScheduleIs(s: Settings, c: Cluster, r: Id, m: Id, delay: nat, size: nat)
    requires WellFormed(c) && r in c.nodes && Bereft(c.nodes[r], r, m)
    requires FailoverDecision(c.nodes[r], Auto(delay, size), s.nodeTimeout) == Scheduled
    ensures r in c.counted
    ensures var n, d := c.nodes[r], NextFailover(s, c, r, Auto(delay, size));
            var n1 := n.(authTime := n.now + delay, authCount := 0, authSent := false);
            && d.nodes == c.nodes[r := n1] && d.net == c.net && d.wins == c.wins && d.counted == c.counted[r := {}]
            && WellFormed(d) && Bereft(n1, r, m)
  {
    hide FailoverDecision, Node.SlotsOf, Bereft, WellFormed, Node.Valid, HandleFailover, Requests;
    NodesOf(c, r);
    var n, d := c.nodes[r], NextFailover(s, c, r, Auto(delay, size));
    var n1 := n.(authTime := n.now + delay, authCount := 0, authSent := false);
    ScheduledNode(n, delay, size, s.nodeTimeout);
    BereftLater(n, n1, r, m);
    ValidLater(n, n1);
    assert d.nodes[r] == n1;
    StillFormed(c, d, r);
  }

  lemma ScheduledNode(n: Node, delay: nat, size: nat, nodeTimeout: nat)
    requires n.Valid() && FailoverDecision(n, Auto(delay, size), nodeTimeout) == Scheduled
    ensures HandleFailover(n, Auto(delay, size), nodeTimeout)
         == n.(authTime := n.now + delay, authCount := 0, authSent := false)
  {
    hide FailoverDecision;
  }

  lemma ValidLater(n: Node, n': Node)
    requires n.Valid() && n'.me == n.me && n'.peers == n.peers && n'.owner == n.owner
    ensures n'.Valid()
  {}

  lemma RequestIs(s: Settings, c: Cluster, r: Id, m: Id, delay: nat, size: nat)
    requires WellFormed(c) && r in c.nodes && Bereft(c.nodes[r], r, m) && c.nodes[r].now == c.nodes[r].authTime
    requires FailoverDecision(c.nodes[r], Auto(delay, size), s.nodeTimeout) == Requested
    ensures r in c.counted
    ensures var n, d := c.nodes[r], NextFailover(s, c, r, Auto(delay, size));
            && r in d.nodes && d.nodes == c.nodes[r := d.nodes[r]] && d.wins == c.wins && d.counted == c.counted
            && WellFormed(d) && Stands(d.nodes[r], r, m, n.currentEpoch + 1, n.now, n.authCount)
            && d.nodes[r].owner == n.owner && d.nodes[r].peers == n.peers
            && forall q :: q in n.peers && q != r ==> Asking(c.serial, q, Ballot(n, m), n.now) in d.net
  {
    var n, d := c.nodes[r], NextFailover(s, c, r, Auto(delay, size));
    var n1 := n.(currentEpoch := n.currentEpoch + 1, authEpoch := n.currentEpoch + 1, authSent := true);
    assert n1.Valid() && n1.SlotsOf(m) == n.SlotsOf(m);
    assert !n.authSent && HandleFailover(n, Auto(delay, size), s.nodeTimeout) == n1;
    assert HeaderOf(n1) == Ballot(n, m);
    hide FailoverDecision, Node.SlotsOf, HeaderOf;
    StillFormed(c, d, r);
    forall q | q in n.peers && q != r ensures Asking(c.serial, q, Ballot(n, m), n.now) in d.net {
      assert Asking(c.serial, q, HeaderOf(n1), n.now) in Requests(c, n1, false);
    }
  }

  /** With more than half of the votes the candidate takes over. */
  lemma Wins(s: Settings, voters: nat -> set<Id>, c: Cluster, r: Id, m: Id, e: nat, at: int, quorum: set<Id>)
    returns (d: Cluster)
    requires WellFormed(c) && r in c.nodes && c.counted[r] == quorum
    requires Stands(c.nodes[r], r, m, e, at, |quorum|) && 2 * |quorum| > |voters(e)|
    ensures Step(s, voters, c, Failover(r, Auto(0, |voters(e)|)), d)
    ensures r in d.nodes && d.nodes == c.nodes[r := d.nodes[r]] && Win(r, e, quorum) in d.wins
    ensures TookOver(c.nodes[r], d.nodes[r], r, m, e)
  {
    var n, i := c.nodes[r], Auto(0, |voters(e)|);
    Decisions(n, r, m, 0, |voters(e)|, s.nodeTimeout);
    FailoverStep(s, voters, c, r, i);
    d := NextFailover(s, c, r, i);
    WinTakesSlots(n, i, s.nodeTimeout);
    hide FailoverDecision, HandleFailover, Node.SlotsOf, Step;
  }

  /** `r` is master of its own slots and those of `m`, under epoch `e` or a newer one. */
  ghost predicate TookOver(n: Node, n': Node, r: Id, m: Id, e: nat) {
    && r in n'.peers && n'.IsMaster(r) && n'.peers[r].configEpoch >= e
    && n'.SlotsOf(r) == n.SlotsOf(r) + n.SlotsOf(m)
  }

  // ------------------------------------------------------------------
  // The theorem
  // ------------------------------------------------------------------

  /** From any state in which a replica of a failed master with slots is supported by more than half of the voters of
      the next epoch, events lead to one in which it is master, under that epoch or a newer one, of all slots of its
      former master besides its own. Nobody but it and its voters takes part. */
  lemma FailoverSucceeds(s: Settings, voters: nat -> set<Id>, c: Cluster, r: Id, m: Id, delay: nat, quorum: set<Id>)
    returns (d: Cluster)
    requires WellFormed(c) && r in c.nodes && Bereft(c.nodes[r], r, m)
    requires c.nodes[r].now - c.nodes[r].authTime > 2 * VoteTime(s.nodeTimeout)
    requires forall v :: v in quorum ==> Supports(s, voters, c, Ballot(c.nodes[r], m), m, v)
    requires 2 * |quorum| > |voters(c.nodes[r].currentEpoch + 1)|
    ensures Reaches(s, voters, c, d) && r in d.nodes
    ensures var e := c.nodes[r].currentEpoch + 1;
            TookOver(c.nodes[r], d.nodes[r], r, m, e) && Win(r, e, quorum) in d.wins
    ensures forall w :: w in c.nodes && w !in quorum && w != r ==> w in d.nodes && d.nodes[w] == c.nodes[w]
  {
    hide *;
    var h, e := Ballot(c.nodes[r], m), c.nodes[r].currentEpoch + 1;
    BallotIs(c.nodes[r], r, m);
    var c1, serial, at := Asks(s, voters, c, r, m, delay, 0);
    PollOpens(s, voters, c, c1, h, m, at, serial, quorum);
    var c2 := AllVote(s, voters, c1, h, m, at, serial, {}, quorum, c);
    assert {} + quorum == quorum;
    PollIs(s, voters, c2, h, m, at, serial, quorum, {});
    SparesIs(c1, c2, r, quorum);
    d := Wins(s, voters, c2, r, m, e, at, quorum);
    ReachesOn(s, voters, c, c2, Failover(r, Auto(0, |voters(e)|)), d);
    TookOverSame(c.nodes[r], c2.nodes[r], d.nodes[r], r, m, e);
  }

  lemma SparesIs(c: Cluster, d: Cluster, r: Id, some: set<Id>)
    requires Spares(c, d, r, some)
    ensures d.nodes.Keys == c.nodes.Keys && r in c.nodes && d.nodes[r].owner == c.nodes[r].owner
    ensures forall w :: w in c.nodes && w !in some && w != r ==> d.nodes[w] == c.nodes[w]
  {}

  lemma BallotIs(n: Node, r: Id, m: Id)
    requires Bereft(n, r, m)
    ensures Ballot(n, m).sender == r && Ballot(n, m).currentEpoch == n.currentEpoch + 1
  {}

  lemma TookOverSame(n: Node, n1: Node, n': Node, r: Id, m: Id, e: nat)
    requires TookOver(n1, n', r, m, e) && n1.owner == n.owner
    ensures TookOver(n, n', r, m, e)
  {
    SameSlots(n, n1);
  }

  /** The first state of the poll. */
  lemma PollOpens(s: Settings, voters: nat -> set<Id>, c: Cluster, d: Cluster, h: Header, m: Id, at: int, serial: nat,
                  quorum: set<Id>)
    requires WellFormed(d) && h.sender in c.nodes && h.sender in d.nodes
    requires d.nodes == c.nodes[h.sender := d.nodes[h.sender]]
    requires h.sender in d.counted && d.counted[h.sender] == {}
    requires Stands(d.nodes[h.sender], h.sender, m, h.currentEpoch, at, 0)
    requires d.nodes[h.sender].owner == c.nodes[h.sender].owner && d.nodes[h.sender].peers == c.nodes[h.sender].peers
    requires forall q :: q in c.nodes[h.sender].peers && q != h.sender ==> Asking(serial, q, h, at) in d.net
    requires forall v :: v in quorum ==> Supports(s, voters, c, h, m, v)
    ensures Poll(s, voters, d, h, m, at, serial, {}, quorum)
  {
    hide WellFormed, Stands, WillVote;
    var r := h.sender;
    forall v | v in quorum ensures Supports(s, voters, d, h, m, v) && Asking(serial, v, h, at) in d.net {
      assert Supports(s, voters, c, h, m, v);
      StillTrusts(c.nodes[r], d.nodes[r], v);
    }
  }

  lemma StillTrusts(n: Node, r: Node, v: Id)
    requires Trusts(n, v) && r.owner == n.owner && r.peers == n.peers
    ensures Trusts(r, v)
  {}

  lemma PollIs(s: Settings, voters: nat -> set<Id>, c: Cluster, h: Header, m: Id, at: int, serial: nat, done: set<Id>,
               rest: set<Id>)
    requires Poll(s, voters, c, h, m, at, serial, done, rest)
    ensures WellFormed(c) && h.sender in c.nodes && h.sender in c.counted && c.counted[h.sender] == done
    ensures Stands(c.nodes[h.sender], h.sender, m, h.currentEpoch, at, |done|)
  {}

  // ------------------------------------------------------------------
  // There are such states
  // ------------------------------------------------------------------

  /** Masters 2 and 3, the failed master 9, and its replica 1, as each of them sees the cluster. */
  function Seen(me: Id): Node {
    var peers := map[1 := Peer(1, Replica(Some(9)), false, 0), 2 := Peer(2, Master, false, 0),
                     3 := Peer(3, Master, false, 0), 9 := Peer(1, Master, true, 0)];
    Node(me, 100000, 5, 0, peers, map[0 := 9, 2 := 2, 3 := 3], {}, 0, false, 0, 0)
  }

  function Masters(e: nat): set<Id> { {2, 3, 9} }

  ghost function Orphaned(): Cluster {
    Cluster(map[1 := Seen(1), 2 := Seen(2), 3 := Seen(3)], {}, 0, {}, map[1 := {}, 2 := {}, 3 := {}], {})
  }

  lemma SeenFacts(me: Id)
    requires me in {1, 2, 3}
    ensures Seen(me).Valid() && Seen(me).SlotsOf(9) == {0} && Seen(me).SlotsOf(2) == {2} && Seen(me).SlotsOf(3) == {3}
  {
    var n := Seen(me);
    assert 0 in n.SlotsOf(9) && 2 in n.SlotsOf(2) && 3 in n.SlotsOf(3);
  }

  lemma SeenSupport(v: Id)
    requires v == 2 || v == 3
    ensures WillVote(Seen(v), Ballot(Seen(1), 9), 9, 15000) && Trusts(Seen(1), v) && Bereft(Seen(1), 1, 9)
  {
    SeenFacts(v);
    SeenFacts(1);
    hide Node.SlotsOf;
  }

  lemma OrphanedIs()
    ensures var c := Orphaned();
            && WellFormed(c) && c.nodes.Keys == {1, 2, 3} && c.nodes[1] == Seen(1) && c.nodes[2] == Seen(2)
            && c.nodes[3] == Seen(3) && Seen(1).currentEpoch == 5 && Seen(1).now == 100000 && Seen(1).authTime == 0
  {
    SeenFacts(1);
    SeenFacts(2);
    SeenFacts(3);
    assert Seen(1).me == 1 && Seen(2).me == 2 && Seen(3).me == 3;
    assert Seen(1).currentEpoch == 5 && Seen(1).now == 100000 && Seen(1).authTime == 0;
    hide Node.Valid, Node.SlotsOf, Seen;
    var c := Orphaned();
    assert c.nodes.Keys == {1, 2, 3} == c.counted.Keys;
  }

  lemma OrphanedSupport(v: Id)
    requires v == 2 || v == 3
    ensures Supports(Settings(15000, true), Masters, Orphaned(), Ballot(Seen(1), 9), 9, v)
  {
    SeenSupport(v);
    OrphanedIs();
    BallotIs(Seen(1), 1, 9);
    hide WillVote, Trusts, WellFormed, Seen, Orphaned, Bereft, Ballot;
  }

  /** Replica 1 can take over the slot of master 9 with the votes of 2 and 3. */
  lemma OrphanedSucceeds() returns (d: Cluster)
    ensures Reaches(Settings(15000, true), Masters, Orphaned(), d)
    ensures 1 in d.nodes && TookOver(Seen(1), d.nodes[1], 1, 9, 6)
  {
    assert VoteTime(15000) == 30000 && |Masters(6)| == 3;
    hide *;
    OrphanedIs();
    SeenSupport(2);
    forall v | v in {2, 3} ensures Supports(Settings(15000, true), Masters, Orphaned(), Ballot(Seen(1), 9), 9, v) {
      OrphanedSupport(v);
    }
    d := FailoverSucceeds(Settings(15000, true), Masters, Orphaned(), 1, 9, 0, {2, 3});
  }
}
