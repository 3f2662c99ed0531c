/** Repair of configEpoch collisions among a fixed group of masters that ping
    each other. Pings may be delayed, reordered or lost, and nothing else creates
    epochs. */
module Collision {
  import opened Common
  import opened ClusterNode

  /** `held[n]` are the configEpochs master `n` ever had, `left[n]` those it moved away from. */
  datatype Masters = Masters(
    nodes: map<Id, Node>,
    net: set<Packet>,
    serial: nat,
    held: map<Id, set<nat>>,
    left: map<Id, set<nat>>,
    moves: nat)

  datatype Event = SendPing(n: Id, to: Id) | Deliver(p: Packet) | Lose(p: Packet)

  /** The configEpoch a node has given itself. */
  function Own(n: Node): nat { Recorded(n, n.me) }

  /** The configEpoch a node records for `p`; zero, as for a new node, when it does not know it. */
  function Recorded(n: Node, p: Id): nat {
    if p in n.peers then n.peers[p].configEpoch else 0
  }

  /** What a PING from a master does to the epochs of a master. */
  function Collide(n: Node, h: Header): (r: Node)
    requires n.Valid() && h.sender in n.peers
    ensures Keeps(n, r)
  {
    var a := Absorb(n, h);
    if h.configEpoch == Own(a) then HandleCollision(a, h.sender) else a
  }

  /** It is what the packet handler does to the epochs, unless the claim makes this node a replica; and it is all that
      the handler does as long as the sender's slots are the recorded ones. */
  lemma PingCollides(n: Node, h: Header, migration: bool, redirect: bool)
    requires n.Valid() && h.sender in n.peers && h.role.Master? && n.IsMaster(n.me) && n.IsMaster(h.sender)
    ensures n.SlotsOf(h.sender) == h.slots ==> ProcessPing(n, h, migration, redirect) == Collide(n, h)
    ensures var stays := AfterSlots(n, h, migration, redirect).IsMaster(n.me);
            LikeEpochs(ProcessPing(n, h, migration, redirect), if stays then Collide(n, h) else Absorb(n, h))
  {
    hide *;
    SlotsStay(n, h, migration, redirect);
    PingIs(n, h, migration, redirect);
    CollisionLike(Absorb(n, h), AfterSlots(n, h, migration, redirect), h.sender);
  }

  lemma PingIs(n: Node, h: Header, migration: bool, redirect: bool)
    requires n.Valid() && h.sender in n.peers
    ensures var s, a := AfterSlots(n, h, migration, redirect), Absorb(n, h);
            && s.Valid() && h.sender in s.peers && a.Valid() && h.sender in a.peers
            && (ProcessPing(n, h, migration, redirect)
                == if s.IsMaster(s.me) && s.IsMaster(h.sender) && h.configEpoch == Own(s)
                   then HandleCollision(s, h.sender) else s)
            && Collide(n, h) == if h.configEpoch == Own(a) then HandleCollision(a, h.sender) else a
  {
    hide AfterSlots, HandleCollision, Absorb;
  }

  /** The slots do not matter for the epochs and for the sender. */
  lemma SlotsStay(n: Node, h: Header, migration: bool, redirect: bool)
    requires n.Valid() && h.sender in n.peers && h.role.Master? && n.IsMaster(n.me) && n.IsMaster(h.sender)
    ensures var a, s := Absorb(n, h), AfterSlots(n, h, migration, redirect);
            && a.Valid() && a.me == n.me && h.sender in a.peers && a.IsMaster(n.me) && a.IsMaster(h.sender)
            && s.Valid() && s.me == n.me && h.sender in s.peers && s.IsMaster(h.sender) && LikeEpochs(s, a)
            && (n.SlotsOf(h.sender) == h.slots ==> s == a)
  {
    var a := Absorb(n, h);
    MasterStays(n, h);
    LikeItself(a);
    UpdateStays(a, h.sender, h.configEpoch, h.slots, migration, redirect);
    hide Absorb, AfterRole, Node.SlotsOf, UpdateSlots, LikeEpochs;
  }

  lemma MasterStays(n: Node, h: Header)
    requires n.Valid() && h.sender in n.peers && h.role.Master? && n.IsMaster(n.me) && n.IsMaster(h.sender)
    ensures var a := Absorb(n, h);
            && AfterRole(n, h) == a && a.IsMaster(n.me) && a.IsMaster(h.sender)
            && a.SlotsOf(h.sender) == n.SlotsOf(h.sender)
  {
    var a := Absorb(n, h);
    assert a.peers[h.sender := a.peers[h.sender].(role := Master)] == a.peers;
  }

  lemma LikeItself(n: Node)
    ensures LikeEpochs(n, n)
  {}

  lemma CollisionLike(a: Node, s: Node, sender: Id)
    requires a.Valid() && s.Valid() && s.me == a.me && sender in a.peers && LikeEpochs(s, a)
    requires a.IsMaster(a.me) && a.IsMaster(sender) && sender in s.peers && s.IsMaster(sender)
    ensures Own(s) == Own(a)
    ensures s.IsMaster(s.me) ==> LikeEpochs(HandleCollision(s, sender), HandleCollision(a, sender))
  {}

  /** The same epochs of the same nodes. */
  ghost predicate LikeEpochs(r: Node, k: Node) {
    && r.currentEpoch == k.currentEpoch && r.peers.Keys == k.peers.Keys
    && forall p :: p in r.peers ==> r.peers[p].configEpoch == k.peers[p].configEpoch
  }

  lemma UpdateStays(n: Node, sender: Id, epoch: nat, claimed: set<Slot>, migration: bool, redirect: bool)
    requires n.Valid() && sender in n.peers && n.IsMaster(sender)
    ensures var r := UpdateSlots(n, sender, epoch, claimed, migration, redirect);
            LikeEpochs(r, n) && r.IsMaster(sender) && r.me == n.me
  {
    hide Rebound, Taken;
  }

  ghost predicate AllMasters(n: Node) {
    n.Valid() && forall p :: p in n.peers ==> n.IsMaster(p)
  }

  ghost predicate WellFormed(c: Masters) {
    && (forall n :: n in c.nodes ==> c.nodes[n].me == n && AllMasters(c.nodes[n]))
    && c.held.Keys == c.nodes.Keys && c.left.Keys == c.nodes.Keys
  }

  ghost predicate Enabled(c: Masters, e: Event)
    requires WellFormed(c)
  {
    match e
    case SendPing(n, to) => n in c.nodes && to != n
    case Deliver(p) => p in c.net && p.to in c.nodes && p.hdr.sender in c.nodes[p.to].peers
    case Lose(_) => true
  }

  ghost function Next(c: Masters, e: Event): Masters
    requires WellFormed(c) && Enabled(c, e)
  {
    match e
    case SendPing(n, to) =>
      c.(net := c.net + {Packet(c.serial, to, HeaderOf(c.nodes[n]), Ping(true))}, serial := c.serial + 1)
    case Deliver(p) => Delivered(c.(net := c.net - {p}), p.to, p.hdr)
    case Lose(p) => c.(net := c.net - {p})
  }

  /** The state after node `n` handled a ping with header `h`. */
  function Delivered(c: Masters, n: Id, h: Header): Masters
    requires n in c.nodes && n in c.held && n in c.left && c.nodes[n].Valid() && h.sender in c.nodes[n].peers
  {
    var before := c.nodes[n];
    var after := Collide(before, h);
    var d := c.(nodes := c.nodes[n := after]);
    if Own(after) == Own(before) then d
    else d.(held := c.held[n := c.held[n] + {Own(after)}],
            left := c.left[n := c.left[n] + {Own(before)}],
            moves := c.moves + 1)
  }

  // ------------------------------------------------------------------
  // Invariant
  // ------------------------------------------------------------------

  /** The epochs held by masters with a greater name. */
  ghost function HeldAbove(c: Masters, n: Id): set<nat> {
    set s, e | s in c.held && s > n && e in c.held[s] :: e
  }

  ghost predicate MasterOk(c: Masters, n: Id) {
    && n in c.nodes && n in c.held && n in c.left
    && var own := Own(c.nodes[n]);
    && own <= c.nodes[n].currentEpoch
    && own in c.held[n] && (forall e :: e in c.held[n] ==> e <= own)
    && (forall e :: e in c.left[n] ==> e < own)
    && c.left[n] <= HeldAbove(c, n)
    && |c.held[n]| <= |c.left[n]| + 1
    && (forall p :: p in c.nodes ==> Recorded(c.nodes[n], p) <= Own(c.nodes[p]))
  }

  ghost predicate PingOk(c: Masters, p: Packet) {
    p.hdr.sender in c.held && p.hdr.sender != p.to && p.hdr.configEpoch in c.held[p.hdr.sender]
  }

  ghost predicate Inv(c: Masters) {
    && WellFormed(c)
    && (forall n :: n in c.nodes ==> MasterOk(c, n))
    && (forall p :: p in c.net ==> PingOk(c, p))
    && c.moves == TotalLeft(c, c.nodes.Keys)
  }

  ghost function Least(a: set<Id>): (m: Id)
    requires a != {}
    ensures m in a && forall x :: x in a ==> m <= x
  {
    LeastExists(a);
    var m :| IsLeast(a, m);
    m
  }

  ghost predicate IsLeast(a: set<Id>, m: Id) { m in a && forall x :: x in a ==> m <= x }

  lemma {:induction false} LeastExists(a: set<Id>)
    requires a != {}
    ensures exists m :: IsLeast(a, m)
  {
    var y :| y in a;
    var b := a - {y};
    if b == {} {
      assert a == {y};
      assert IsLeast(a, y);
    } else {
      LeastExists(b);
      var m :| IsLeast(b, m);
      LeastWith(a, y, m);
    }
  }

  lemma LeastWith(a: set<Id>, y: Id, m: Id)
    requires y in a && IsLeast(a - {y}, m)
    ensures IsLeast(a, if m <= y then m else y)
  {
    forall x | x in a ensures (if m <= y then m else y) <= x {
      if x != y { assert x in a - {y}; }
    }
  }

  /** The number of epochs left by the masters in `a`. */
  ghost function TotalLeft(c: Masters, a: set<Id>): nat
    requires a <= c.left.Keys
    decreases |a|
  {
    if a == {} then 0 else
    var m := Least(a);
    |c.left[m]| + TotalLeft(c, a - {m})
  }

  // ------------------------------------------------------------------
  // Every step keeps it
  // ------------------------------------------------------------------

  /** A ping moves the receiver's epoch only from an epoch the sender advertised under a greater name, and
      always upwards. */
  lemma CollideShape(n: Node, h: Header)
    requires AllMasters(n) && h.sender in n.peers && h.sender != n.me && Own(n) <= n.currentEpoch
    ensures var r := Collide(n, h);
            && AllMasters(r) && Own(r) <= r.currentEpoch && Own(n) <= Own(r)
            && (forall p :: p != n.me && p != h.sender ==> Recorded(r, p) == Recorded(n, p))
            && Recorded(r, h.sender) == Max(Recorded(n, h.sender), h.configEpoch)
            && (Own(r) != Own(n) ==> h.configEpoch == Own(n) && h.sender > n.me)
  {}

  lemma {:induction false} TotalUnchanged(c: Masters, d: Masters, a: set<Id>)
    requires a <= c.left.Keys && a <= d.left.Keys && forall n :: n in a ==> c.left[n] == d.left[n]
    ensures TotalLeft(c, a) == TotalLeft(d, a)
    decreases |a|
  {
    if a != {} {
      TotalUnchanged(c, d, a - {Least(a)});
    }
  }

  lemma {:induction false} TotalGrows(c: Masters, d: Masters, a: set<Id>, n: Id)
    requires a <= c.left.Keys && a <= d.left.Keys && n in a
    requires forall m :: m in a && m != n ==> c.left[m] == d.left[m]
    requires |d.left[n]| == |c.left[n]| + 1
    ensures TotalLeft(d, a) == TotalLeft(c, a) + 1
    decreases |a|
  {
    var m := Least(a);
    if m == n {
      TotalUnchanged(c, d, a - {m});
    } else {
      TotalGrows(c, d, a - {m}, n);
    }
  }

  lemma HeldAboveGrows(c: Masters, d: Masters, n: Id)
    requires c.held.Keys == d.held.Keys && forall m :: m in c.held ==> c.held[m] <= d.held[m]
    ensures HeldAbove(c, n) <= HeldAbove(d, n)
  {
    forall e | e in HeldAbove(c, n) ensures e in HeldAbove(d, n) {
      var s :| s in c.held && s > n && e in c.held[s];
      assert s in d.held && e in d.held[s];
    }
  }

  /** A master whose own epoch did not move keeps its part of the invariant when others only move up. */
  lemma OtherMasterOk(c: Masters, d: Masters, m: Id)
    requires m in c.nodes && MasterOk(c, m) && m in d.left
    requires d.nodes.Keys == c.nodes.Keys && d.held.Keys == c.held.Keys
    requires d.nodes[m] == c.nodes[m] && d.held[m] == c.held[m] && d.left[m] == c.left[m]
    requires forall x :: x in c.held ==> c.held[x] <= d.held[x]
    requires forall x :: x in c.nodes ==> Own(c.nodes[x]) <= Own(d.nodes[x])
    ensures MasterOk(d, m)
  {
    hide Own, HeldAbove, Recorded;
    HeldAboveGrows(c, d, m);
  }

  /** Node `n` was replaced by a node that records no epoch ahead of its owner's. */
  ghost predicate Replaced(c: Masters, d: Masters, n: Id) {
    && WellFormed(d) && n in c.nodes && d.nodes.Keys == c.nodes.Keys && d.net == c.net
    && d.nodes[n].me == n && c.nodes[n].me == n
    && (forall m :: m in c.nodes && m != n ==> d.nodes[m] == c.nodes[m])
    && Own(d.nodes[n]) <= d.nodes[n].currentEpoch
    && (forall p :: p in c.nodes && p != n ==> Recorded(d.nodes[n], p) <= Own(c.nodes[p]))
  }

  lemma StayKeeps(c: Masters, d: Masters, n: Id)
    requires Inv(c) && Replaced(c, d, n) && Own(d.nodes[n]) == Own(c.nodes[n])
    requires d.held == c.held && d.left == c.left && d.moves == c.moves
    ensures Inv(d)
  {
    hide AllMasters, MasterOk;
    forall m | m in d.nodes ensures MasterOk(d, m) {
      assert MasterOk(c, m);
      StayedOk(c, d, n, m);
    }
    forall p | p in d.net ensures PingOk(d, p) { assert PingOk(c, p); }
    TotalUnchanged(c, d, c.nodes.Keys);
  }

  lemma OwnIsRecorded(n: Node)
    ensures Own(n) == Recorded(n, n.me)
  {}

  lemma StayedOk(c: Masters, d: Masters, n: Id, m: Id)
    requires MasterOk(c, m) && Replaced(c, d, n) && Own(d.nodes[n]) == Own(c.nodes[n])
    requires d.held == c.held && d.left == c.left
    ensures MasterOk(d, m)
  {
    hide WellFormed, Own, HeldAbove, Recorded;
    OwnIsRecorded(d.nodes[n]);
    SameHeldAbove(c, d, m);
  }

  lemma MoveKeeps(c: Masters, d: Masters, n: Id)
    requires Inv(c) && Replaced(c, d, n) && Own(c.nodes[n]) < Own(d.nodes[n]) && Own(c.nodes[n]) in HeldAbove(c, n)
    requires d.held == c.held[n := c.held[n] + {Own(d.nodes[n])}]
    requires d.left == c.left[n := c.left[n] + {Own(c.nodes[n])}] && d.moves == c.moves + 1
    ensures Inv(d)
  {
    hide AllMasters, MasterOk, HeldAbove, Own, TotalLeft, Recorded;
    assert MasterOk(c, n);
    MovedOk(c, d, n);
    FreshLeft(c, n);
    TotalGrows(c, d, c.nodes.Keys, n);
    forall m | m in d.nodes && m != n ensures MasterOk(d, m) {
      assert MasterOk(c, m);
      OtherMasterOk(c, d, m);
    }
    forall p | p in d.net ensures PingOk(d, p) { assert PingOk(c, p); }
  }

  lemma FreshLeft(c: Masters, n: Id)
    requires MasterOk(c, n)
    ensures Own(c.nodes[n]) !in c.left[n]
  {}

  lemma MovedOk(c: Masters, d: Masters, n: Id)
    requires Replaced(c, d, n) && MasterOk(c, n)
    requires Own(c.nodes[n]) < Own(d.nodes[n]) && Own(c.nodes[n]) in HeldAbove(c, n)
    requires d.held == c.held[n := c.held[n] + {Own(d.nodes[n])}]
    requires d.left == c.left[n := c.left[n] + {Own(c.nodes[n])}]
    ensures MasterOk(d, n)
  {
    hide WellFormed, Own, HeldAbove, Recorded;
    OwnIsRecorded(d.nodes[n]);
    HeldAboveGrows(c, d, n);
  }

  lemma DeliveredKeeps(c: Masters, n: Id, h: Header)
    requires Inv(c) && n in c.nodes && h.sender in c.nodes[n].peers && h.sender != n
    requires h.sender in c.nodes && h.configEpoch in c.held[h.sender]
    ensures Inv(Delivered(c, n, h))
  {
    var d := Delivered(c, n, h);
    assert MasterOk(c, h.sender) && MasterOk(c, n);
    CollideShape(c.nodes[n], h);
    hide Collide, AllMasters, HeldAbove;
    ReplacedByDelivery(c, n, h);
    if Own(d.nodes[n]) == Own(c.nodes[n]) {
      StayKeeps(c, d, n);
    } else {
      AdvertisedAbove(c, n, h);
      MoveKeeps(c, d, n);
    }
  }

  lemma AdvertisedAbove(c: Masters, n: Id, h: Header)
    requires h.sender in c.held && h.sender > n && h.configEpoch in c.held[h.sender]
    ensures h.configEpoch in HeldAbove(c, n)
  {}

  lemma ReplacedByDelivery(c: Masters, n: Id, h: Header)
    requires WellFormed(c) && n in c.nodes && MasterOk(c, n) && h.sender in c.nodes[n].peers && h.sender != n
    requires h.sender in c.nodes && h.configEpoch <= Own(c.nodes[h.sender])
    ensures Replaced(c, Delivered(c, n, h), n)
  {
    hide *;
    DeliveredShape(c, n, h);
    MasterFacts(c, n);
    CollideShape(c.nodes[n], h);
    StaysBelow(c, n, h);
    PutMaster(c, Delivered(c, n, h), n, Collide(c.nodes[n], h));
  }

  lemma MasterFacts(c: Masters, n: Id)
    requires WellFormed(c) && n in c.nodes && MasterOk(c, n)
    ensures AllMasters(c.nodes[n]) && c.nodes[n].me == n && Own(c.nodes[n]) <= c.nodes[n].currentEpoch
    ensures forall p :: p in c.nodes ==> Recorded(c.nodes[n], p) <= Own(c.nodes[p])
  {
    hide AllMasters, Own, Recorded, HeldAbove;
  }

  lemma StaysBelow(c: Masters, n: Id, h: Header)
    requires n in c.nodes && c.nodes[n].me == n && AllMasters(c.nodes[n])
    requires h.sender in c.nodes[n].peers && h.sender != n
    requires Own(c.nodes[n]) <= c.nodes[n].currentEpoch
    requires h.sender in c.nodes && h.configEpoch <= Own(c.nodes[h.sender])
    requires forall p :: p in c.nodes ==> Recorded(c.nodes[n], p) <= Own(c.nodes[p])
    ensures Collide(c.nodes[n], h).me == n
    ensures forall p :: p in c.nodes && p != n ==> Recorded(Collide(c.nodes[n], h), p) <= Own(c.nodes[p])
  {
    CollideShape(c.nodes[n], h);
    hide AllMasters, Own, Recorded, Collide;
  }

  lemma DeliveredShape(c: Masters, n: Id, h: Header)
    requires WellFormed(c) && n in c.nodes && h.sender in c.nodes[n].peers
    ensures c.nodes[n].Valid() && n in c.held && n in c.left
    ensures var d := Delivered(c, n, h);
            && d.nodes == c.nodes[n := Collide(c.nodes[n], h)] && d.net == c.net
            && d.held.Keys == c.held.Keys && d.left.Keys == c.left.Keys
  {
    assert AllMasters(c.nodes[n]);
    assert c.nodes[n].Valid();
    hide Collide, Own, AllMasters, Node.Valid, Keeps;
  }

  lemma PutMaster(c: Masters, d: Masters, n: Id, after: Node)
    requires WellFormed(c) && n in c.nodes && AllMasters(after) && after.me == n && Own(after) <= after.currentEpoch
    requires d.nodes == c.nodes[n := after] && d.net == c.net
    requires d.held.Keys == c.held.Keys && d.left.Keys == c.left.Keys
    requires forall p :: p in c.nodes && p != n ==> Recorded(after, p) <= Own(c.nodes[p])
    ensures Replaced(c, d, n)
  {
    hide AllMasters, Own, Recorded;
  }

  lemma NextKeeps(c: Masters, e: Event)
    requires Inv(c) && Enabled(c, e)
    ensures Inv(Next(c, e))
  {
    match e
    case SendPing(n, to) =>
      SendKeeps(c, n, to);
    case Deliver(p) =>
      assert PingOk(c, p);
      var c' := c.(net := c.net - {p});
      LoseKeeps(c, p);
      hide *;
      DeliverNext(c, p);
      DeliveredKeeps(c', p.to, p.hdr);
    case Lose(p) => LoseKeeps(c, p);
  }

  lemma SendKeeps(c: Masters, n: Id, to: Id)
    requires Inv(c) && Enabled(c, SendPing(n, to))
    ensures Inv(Next(c, SendPing(n, to)))
  {
    var d := Next(c, SendPing(n, to));
    assert MasterOk(c, n);
    hide *;
    SendShape(c, n, to);
    NetOnly(c, d);
  }

  lemma SendShape(c: Masters, n: Id, to: Id)
    requires WellFormed(c) && Enabled(c, SendPing(n, to)) && MasterOk(c, n)
    ensures var d := Next(c, SendPing(n, to));
            && d.nodes == c.nodes && d.held == c.held && d.left == c.left && d.moves == c.moves
            && forall q :: q in d.net ==> q in c.net || PingOk(d, q)
  {
    assert AllMasters(c.nodes[n]) && c.nodes[n].me == n;
    OwnHeader(c.nodes[n]);
    hide AllMasters, Own, HeaderOf, Recorded, HeldAbove;
  }

  lemma OwnHeader(n: Node)
    requires AllMasters(n)
    ensures HeaderOf(n).sender == n.me && HeaderOf(n).configEpoch == Own(n)
  {
    assert n.IsMaster(n.me);
  }

  lemma NetOnly(c: Masters, d: Masters)
    requires Inv(c) && d.nodes == c.nodes && d.held == c.held && d.left == c.left && d.moves == c.moves
    requires forall q :: q in d.net ==> q in c.net || PingOk(d, q)
    ensures Inv(d)
  {
    hide AllMasters, MasterOk;
    forall m | m in d.nodes ensures MasterOk(d, m) { assert MasterOk(c, m); SameMaster(c, d, m); }
    forall q | q in d.net ensures PingOk(d, q) { assert q in c.net ==> PingOk(c, q); }
    TotalUnchanged(c, d, c.nodes.Keys);
  }

  lemma SameMaster(c: Masters, d: Masters, m: Id)
    requires MasterOk(c, m) && d.nodes == c.nodes && d.held == c.held && d.left == c.left
    ensures MasterOk(d, m)
  {
    SameHeldAbove(c, d, m);
  }

  lemma DeliverNext(c: Masters, p: Packet)
    requires WellFormed(c) && Enabled(c, Deliver(p))
    ensures WellFormed(c.(net := c.net - {p})) && p.to in c.nodes && p.hdr.sender in c.nodes[p.to].peers
    ensures Next(c, Deliver(p)) == Delivered(c.(net := c.net - {p}), p.to, p.hdr)
  {}

  lemma SameHeldAbove(c: Masters, d: Masters, n: Id)
    requires c.held == d.held
    ensures HeldAbove(c, n) == HeldAbove(d, n)
  {}

  lemma LoseKeeps(c: Masters, p: Packet)
    requires Inv(c)
    ensures Inv(c.(net := c.net - {p}))
  {
    NetOnly(c, c.(net := c.net - {p}));
  }

  // ------------------------------------------------------------------
  // The bound
  // ------------------------------------------------------------------

  /** The masters with a name greater than `n`. */
  ghost function Above(c: Masters, n: Id): set<Id> {
    set s | s in c.nodes && s > n
  }

  ghost function HeldBy(c: Masters, a: set<Id>): set<nat> {
    set s, e | s in a && s in c.held && e in c.held[s] :: e
  }

  ghost predicate UpwardClosed(c: Masters, a: set<Id>) {
    a <= c.nodes.Keys && forall s, t :: s in a && t in c.nodes && s < t ==> t in a
  }

  lemma UnionSize(a: set<nat>, b: set<nat>, u: set<nat>)
    requires u == a + b
    ensures |u| <= |a| + |b|
  {
    assert u == a + (b - a);
    assert |b - a| <= |b| by { assert b == (b - a) + (b * a); }
  }

  lemma RemoveLeast(c: Masters, a: set<Id>, m: Id)
    requires Inv(c) && UpwardClosed(c, a) && a != {} && m == Least(a)
    ensures UpwardClosed(c, a - {m}) && |a - {m}| == |a| - 1
    ensures HeldBy(c, a) == HeldBy(c, a - {m}) + c.held[m]
    ensures HeldAbove(c, m) == HeldBy(c, a - {m})
  {
    hide MasterOk, PingOk, AllMasters;
    assert forall s :: s in c.nodes ==> (s > m <==> s in a - {m});
  }

  /** The `k` masters with the greatest names hold fewer than `2^k` epochs between them. */
  lemma {:induction false} HeldBound(c: Masters, a: set<Id>)
    requires Inv(c) && UpwardClosed(c, a)
    ensures |HeldBy(c, a)| <= Pow2(|a|) - 1
    decreases |a|
  {
    if a == {} {
      assert HeldBy(c, a) == {};
    } else {
      var m := Least(a);
      assert MasterOk(c, m);
      RemoveLeast(c, a, m);
      var b := a - {m};
      hide HeldBy, HeldAbove, MasterOk, PingOk, AllMasters;
      HeldBound(c, b);
      LeftBound(c, m, b);
      UnionSize(HeldBy(c, b), c.held[m], HeldBy(c, a));
    }
  }

  lemma LeftBound(c: Masters, m: Id, b: set<Id>)
    requires Inv(c) && m in c.nodes && HeldAbove(c, m) == HeldBy(c, b)
    ensures |c.left[m]| <= |HeldBy(c, b)| && |c.held[m]| <= |HeldBy(c, b)| + 1
  {
    assert MasterOk(c, m);
    SubsetSize(c.left[m], HeldBy(c, b));
  }

  lemma {:induction false} TotalBound(c: Masters, a: set<Id>)
    requires Inv(c) && UpwardClosed(c, a)
    ensures TotalLeft(c, a) <= Pow2(|a|) - |a| - 1
    decreases |a|
  {
    if a != {} {
      var m := Least(a);
      RemoveLeast(c, a, m);
      hide HeldBy, HeldAbove, MasterOk, PingOk, AllMasters;
      TotalBound(c, a - {m});
      HeldBound(c, a - {m});
      LeftBound(c, m, a - {m});
    }
  }

  // ------------------------------------------------------------------
  // Runs
  // ------------------------------------------------------------------

  /** Any epochs, colliding or not, and nothing in flight. */
  ghost predicate Init(c: Masters) {
    && WellFormed(c) && c.net == {} && c.moves == 0
    && (forall n :: n in c.nodes ==> Own(c.nodes[n]) <= c.nodes[n].currentEpoch)
    && (forall n :: n in c.nodes ==> c.left[n] == {} && c.held[n] == {Own(c.nodes[n])})
    && (forall n, p :: n in c.nodes && p in c.nodes ==> Recorded(c.nodes[n], p) <= Own(c.nodes[p]))
  }

  ghost predicate Run(cs: seq<Masters>, es: seq<Event>) {
    && |cs| == |es| + 1 && Init(cs[0])
    && forall i :: 0 <= i < |es| ==> WellFormed(cs[i]) && Enabled(cs[i], es[i]) && cs[i + 1] == Next(cs[i], es[i])
  }

  lemma {:induction false} NothingLeft(c: Masters, a: set<Id>)
    requires a <= c.left.Keys && forall n :: n in a ==> c.left[n] == {}
    ensures TotalLeft(c, a) == 0
    decreases |a|
  {
    if a != {} { NothingLeft(c, a - {Least(a)}); }
  }

  lemma {:induction false} RunKeeps(cs: seq<Masters>, es: seq<Event>, i: nat)
    requires Run(cs, es) && i < |cs|
    ensures Inv(cs[i]) && cs[i].nodes.Keys == cs[0].nodes.Keys
  {
    hide WellFormed, Enabled, Next, Inv, Init;
    if i == 0 {
      InitHolds(cs[0]);
    } else {
      RunKeeps(cs, es, i - 1);
      NextKeeps(cs[i - 1], es[i - 1]);
      SameNames(cs[i - 1], es[i - 1]);
    }
  }

  lemma InitHolds(c: Masters)
    requires Init(c)
    ensures Inv(c)
  {
    NothingLeft(c, c.nodes.Keys);
    hide TotalLeft, AllMasters, Own, Recorded, HeldAbove;
    forall n | n in c.nodes ensures MasterOk(c, n) { InitMaster(c, n); }
    hide MasterOk;
  }

  lemma InitMaster(c: Masters, n: Id)
    requires Init(c) && n in c.nodes
    ensures MasterOk(c, n)
  {
    hide AllMasters, Own, Recorded, HeldAbove;
  }

  lemma SameNames(c: Masters, e: Event)
    requires WellFormed(c) && Enabled(c, e)
    ensures Next(c, e).nodes.Keys == c.nodes.Keys
  {
    hide Collide;
  }

  /** The master with the `k`-th greatest name moves fewer than `2^(k-1)` times, in any run. */
  lemma MovesOfOne(cs: seq<Masters>, es: seq<Event>, i: nat, n: Id)
    requires Run(cs, es) && i < |cs| && n in cs[i].nodes && n in cs[i].left
    ensures |cs[i].left[n]| <= Pow2(|Above(cs[i], n)|) - 1
  {
    var c := cs[i];
    RunKeeps(cs, es, i);
    AboveIsUpward(c, n);
    hide *;
    HeldBound(c, Above(c, n));
    LeftBound(c, n, Above(c, n));
  }

  lemma AboveIsUpward(c: Masters, n: Id)
    requires Inv(c) && n in c.nodes
    ensures UpwardClosed(c, Above(c, n)) && HeldAbove(c, n) == HeldBy(c, Above(c, n))
  {
    hide MasterOk, PingOk, AllMasters, TotalLeft;
  }

  /** Collision repair terminates: with `N` masters no run moves an epoch more than `2^N - N - 1` times. */
  lemma MovesOfAll(cs: seq<Masters>, es: seq<Event>, i: nat)
    requires Run(cs, es) && i < |cs|
    ensures cs[i].moves <= Pow2(|cs[0].nodes|) - |cs[0].nodes| - 1
  {
    RunKeeps(cs, es, i);
    TotalBound(cs[i], cs[i].nodes.Keys);
    assert |cs[0].nodes| == |cs[0].nodes.Keys|;
  }

  /** A fresh ping from `s` would move `r`. */
  ghost predicate FreshPingMoves(c: Masters, s: Id, r: Id)
    requires WellFormed(c) && s in c.nodes && r in c.nodes && s in c.nodes[r].peers
  {
    Own(Collide(c.nodes[r], HeaderOf(c.nodes[s]))) != Own(c.nodes[r])
  }

  ghost predicate Distinct(c: Masters) {
    forall s, r :: s in c.nodes && r in c.nodes && s != r ==> Own(c.nodes[s]) != Own(c.nodes[r])
  }

  ghost predicate KnowEachOther(c: Masters) {
    forall s, r :: s in c.nodes && r in c.nodes ==> s in c.nodes[r].peers
  }

  lemma FreshPingBetween(c: Masters, s: Id, r: Id)
    requires Inv(c) && s in c.nodes && r in c.nodes && s in c.nodes[r].peers && s != r
    ensures FreshPingMoves(c, s, r) <==> s > r && Own(c.nodes[s]) == Own(c.nodes[r])
  {
    assert MasterOk(c, r);
    OwnHeader(c.nodes[s]);
    var n, h := c.nodes[r], HeaderOf(c.nodes[s]);
    assert AllMasters(n) && n.me == r && Recorded(n, s) <= Own(c.nodes[s]) && Own(n) <= n.currentEpoch;
    hide MasterOk, Inv, HeaderOf, WellFormed;
    FreshPing(n, h);
  }

  lemma FreshPing(n: Node, h: Header)
    requires AllMasters(n) && h.sender in n.peers && h.sender != n.me
    requires Own(n) <= n.currentEpoch && Recorded(n, h.sender) <= h.configEpoch
    ensures Own(Collide(n, h)) != Own(n) <==> h.sender > n.me && h.configEpoch == Own(n)
  {}

  /** Repair is complete exactly when no fresh ping would move anyone. */
  lemma QuietMeansDistinct(cs: seq<Masters>, es: seq<Event>, i: nat)
    requires Run(cs, es) && i < |cs| && KnowEachOther(cs[i]) && WellFormed(cs[i])
    ensures (forall s, r :: s in cs[i].nodes && r in cs[i].nodes && s != r ==> !FreshPingMoves(cs[i], s, r))
            <==> Distinct(cs[i])
  {
    var c := cs[i];
    RunKeeps(cs, es, i);
    forall s, r | s in c.nodes && r in c.nodes && s != r
      ensures FreshPingMoves(c, s, r) <==> s > r && Own(c.nodes[s]) == Own(c.nodes[r])
    {
      FreshPingBetween(c, s, r);
    }
    hide *;
    QuietIffDistinct(c);
  }

  lemma QuietIffDistinct(c: Masters)
    requires WellFormed(c) && KnowEachOther(c)
    requires forall s, r :: s in c.nodes && r in c.nodes && s != r ==>
               (FreshPingMoves(c, s, r) <==> s > r && Own(c.nodes[s]) == Own(c.nodes[r]))
    ensures (forall s, r :: s in c.nodes && r in c.nodes && s != r ==> !FreshPingMoves(c, s, r)) <==> Distinct(c)
  {
    hide FreshPingMoves, Own, AllMasters;
    if forall s, r :: s in c.nodes && r in c.nodes && s != r ==> !FreshPingMoves(c, s, r) {
      forall s, r | s in c.nodes && r in c.nodes && s != r ensures Own(c.nodes[s]) != Own(c.nodes[r]) {
        if s > r { assert !FreshPingMoves(c, s, r); } else { assert !FreshPingMoves(c, r, s); }
      }
    }
  }

  // ------------------------------------------------------------------
  // Deliveries are pings
  // ------------------------------------------------------------------

  /** A node sees the slots of `p` as `p` itself does. */
  ghost predicate SeesSlots(c: Masters, n: Id, p: Id)
    requires n in c.nodes && p in c.nodes
  {
    c.nodes[n].SlotsOf(p) == c.nodes[p].SlotsOf(p)
  }

  /** The masters agree about their slots, and so do the pings in flight. */
  ghost predicate SlotsAgree(c: Masters) {
    && (forall n, p :: n in c.nodes && p in c.nodes ==> SeesSlots(c, n, p))
    && (forall q :: q in c.net ==> HeaderAgrees(c, q.hdr))
  }

  ghost predicate HeaderAgrees(c: Masters, h: Header) {
    h.sender in c.nodes && h.role.Master? && h.slots == c.nodes[h.sender].SlotsOf(h.sender)
  }

  lemma CollideKeepsSlots(n: Node, h: Header)
    requires n.Valid() && h.sender in n.peers
    ensures Collide(n, h).owner == n.owner
  {}

  /** Only epochs move. */
  ghost predicate SameSlots(c: Masters, d: Masters) {
    d.nodes.Keys == c.nodes.Keys && forall n :: n in c.nodes ==> d.nodes[n].owner == c.nodes[n].owner
  }

  lemma AgreeKept(c: Masters, d: Masters)
    requires SlotsAgree(c) && SameSlots(c, d) && forall q :: q in d.net ==> q in c.net || HeaderAgrees(c, q.hdr)
    ensures SlotsAgree(d)
  {
    forall n, p | n in d.nodes && p in d.nodes ensures SeesSlots(d, n, p) {
      assert SeesSlots(c, n, p);
    }
    forall q | q in d.net ensures HeaderAgrees(d, q.hdr) {
      assert HeaderAgrees(c, q.hdr);
    }
  }

  lemma OwnHeaderAgrees(c: Masters, n: Id)
    requires WellFormed(c) && n in c.nodes
    ensures HeaderAgrees(c, HeaderOf(c.nodes[n]))
  {
    assert AllMasters(c.nodes[n]);
  }

  lemma NextSlots(c: Masters, e: Event)
    requires WellFormed(c) && Enabled(c, e)
    ensures SameSlots(c, Next(c, e))
  {
    match e
    case SendPing(_, _) =>
    case Lose(_) =>
    case Deliver(p) =>
      var c' := c.(net := c.net - {p});
      hide AllMasters, Delivered, Collide;
      DeliveredShape(c', p.to, p.hdr);
      CollideKeepsSlots(c.nodes[p.to], p.hdr);
      PutSlots(c', Delivered(c', p.to, p.hdr), p.to, Collide(c.nodes[p.to], p.hdr));
  }

  lemma PutSlots(c: Masters, d: Masters, n: Id, after: Node)
    requires n in c.nodes && d.nodes == c.nodes[n := after] && after.owner == c.nodes[n].owner
    ensures SameSlots(c, d)
  {}

  lemma NextAgrees(c: Masters, e: Event)
    requires WellFormed(c) && Enabled(c, e) && SlotsAgree(c)
    ensures SlotsAgree(Next(c, e))
  {
    NextSlots(c, e);
    if e.SendPing? { OwnHeaderAgrees(c, e.n); }
    hide SlotsAgree, SameSlots, HeaderAgrees, Collide, Own, HeaderOf, AllMasters;
    AgreeKept(c, Next(c, e));
  }

  lemma {:induction false} RunAgrees(cs: seq<Masters>, es: seq<Event>, i: nat)
    requires Run(cs, es) && i < |cs| && SlotsAgree(cs[0])
    ensures SlotsAgree(cs[i])
  {
    hide WellFormed, Enabled, Next, SlotsAgree, Init;
    if i > 0 {
      RunAgrees(cs, es, i - 1);
      NextAgrees(cs[i - 1], es[i - 1]);
    }
  }

  /** In a run of masters that agree about their slots at first, every delivery does to its receiver what the handler
      of pings does, whatever its settings. */
  lemma DeliveriesArePings(cs: seq<Masters>, es: seq<Event>, i: nat, migration: bool, redirect: bool)
    requires Run(cs, es) && i < |es| && SlotsAgree(cs[0]) && es[i].Deliver?
    ensures var p := es[i].p;
            && p.to in cs[i].nodes && p.to in cs[i + 1].nodes
            && cs[i].nodes[p.to].Valid() && p.hdr.sender in cs[i].nodes[p.to].peers
            && cs[i + 1].nodes[p.to] == ProcessPing(cs[i].nodes[p.to], p.hdr, migration, redirect)
  {
    RunAgrees(cs, es, i);
    DeliveryIsPing(cs[i], es[i], migration, redirect);
  }

  lemma DeliveryIsPing(c: Masters, e: Event, migration: bool, redirect: bool)
    requires WellFormed(c) && Enabled(c, e) && e.Deliver? && SlotsAgree(c)
    ensures c.nodes[e.p.to].Valid() && e.p.to in Next(c, e).nodes
    ensures Next(c, e).nodes[e.p.to] == ProcessPing(c.nodes[e.p.to], e.p.hdr, migration, redirect)
  {
    var n, h := c.nodes[e.p.to], e.p.hdr;
    assert HeaderAgrees(c, h) && SeesSlots(c, e.p.to, h.sender);
    assert AllMasters(n) && n.me == e.p.to;
    assert n.IsMaster(n.me) && n.IsMaster(h.sender);
    var c' := c.(net := c.net - {e.p});
    hide ProcessPing, Collide, AllMasters, Delivered, SlotsAgree, Node.Valid, Node.SlotsOf;
    DeliveredShape(c', e.p.to, h);
    PingCollides(n, h, migration, redirect);
  }
}
