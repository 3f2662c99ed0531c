/** Who blocked first. A pass over the waiters of a key, for a list or a sorted set, serves those of its own kind and
    moves the others to the tail, so a pass that stops early can put waiters of another kind out of order. This module
    follows the queues over whole runs and says exactly when they keep the order in which the clients blocked. */
module BlockedOrder {
  import opened Common
  import opened Blocked
  import opened BlockedFair

  // ------------------------------------------------------------------
  // Queues in order of blocking
  // ------------------------------------------------------------------

  /** The blocked clients and the waiters of every key. */
  datatype Queues = Queues(clients: map<Client, Wait>, waiting: map<Key, seq<Client>>)

  ghost predicate Ok(q: Queues) { Index(q.clients, q.waiting) }

  ghost predicate Waits(clients: map<Client, Wait>, c: Client, kind: Kind) { c in clients && clients[c].kind == kind }

  /** When a client blocked. */
  ghost function At(since: map<Client, nat>, c: Client): nat { if c in since then since[c] else 0 }

  /** `c` comes before all of `ws` that are of the kind. */
  ghost predicate First(clients: map<Client, Wait>, since: map<Client, nat>, kind: Kind, c: Client, ws: seq<Client>) {
    Waits(clients, c, kind) ==> forall d :: d in ws && Waits(clients, d, kind) ==> At(since, c) < At(since, d)
  }

  /** Those of the kind stand in the order in which they blocked. */
  ghost predicate OrderedSeq(clients: map<Client, Wait>, since: map<Client, nat>, kind: Kind, ws: seq<Client>) {
    ws == [] || (First(clients, since, kind, ws[0], ws[1..]) && OrderedSeq(clients, since, kind, ws[1..]))
  }

  ghost predicate Ordered(q: Queues, since: map<Client, nat>, kind: Kind) {
    forall k :: k in q.waiting ==> OrderedSeq(q.clients, since, kind, q.waiting[k])
  }

  /** Everyone of `a` comes before everyone of `b`, within the kind. */
  ghost predicate Before(clients: map<Client, Wait>, since: map<Client, nat>, kind: Kind, a: seq<Client>,
                         b: seq<Client>)
  {
    forall c, d :: c in a && d in b && Waits(clients, c, kind) && Waits(clients, d, kind) ==>
      At(since, c) < At(since, d)
  }

  lemma {:induction false} OrderedConcat(clients: map<Client, Wait>, since: map<Client, nat>, kind: Kind,
                                         a: seq<Client>, b: seq<Client>)
    ensures OrderedSeq(clients, since, kind, a + b)
            <==> && OrderedSeq(clients, since, kind, a) && OrderedSeq(clients, since, kind, b)
                 && Before(clients, since, kind, a, b)
  {
    hide Waits, At;
    if a == [] {
      assert a + b == b;
    } else {
      assert (a + b)[0] == a[0] && (a + b)[1..] == a[1..] + b;
      OrderedConcat(clients, since, kind, a[1..], b);
      FirstConcat(clients, since, kind, a, b);
      hide First, Before;
    }
  }

  lemma FirstConcat(clients: map<Client, Wait>, since: map<Client, nat>, kind: Kind, a: seq<Client>, b: seq<Client>)
    requires a != []
    ensures First(clients, since, kind, a[0], a[1..] + b) && Before(clients, since, kind, a[1..], b)
            <==> First(clients, since, kind, a[0], a[1..]) && Before(clients, since, kind, a, b)
  {
    hide Waits, At;
    assert forall d :: d in a[1..] + b <==> d in a[1..] || d in b;
    assert forall c :: c in a <==> c == a[0] || c in a[1..];
  }

  /** A part of the clients, later times for the others: what is in order stays so. */
  lemma {:induction false} OrderedStill(clients: map<Client, Wait>, since: map<Client, nat>, clients': map<Client,
                                        Wait>,
                                        since': map<Client, nat>, kind: Kind, ws: seq<Client>)
    requires OrderedSeq(clients, since, kind, ws)
    requires forall c :: c in ws && Waits(clients', c, kind) ==>
               Waits(clients, c, kind) && At(since', c) == At(since, c)
    ensures OrderedSeq(clients', since', kind, ws)
  {
    if ws != [] {
      assert forall d :: d in ws[1..] ==> d in ws;
      hide Waits, At;
      OrderedStill(clients, since, clients', since', kind, ws[1..]);
    }
  }

  lemma {:induction false} OrderedWithout(clients: map<Client, Wait>, since: map<Client, nat>, kind: Kind,
                                          ws: seq<Client>, c: Client)
    requires OrderedSeq(clients, since, kind, ws)
    ensures OrderedSeq(clients, since, kind, Without(ws, c))
    ensures forall d :: d in Without(ws, c) ==> d in ws
  {
    hide Waits, At;
    if ws != [] {
      OrderedWithout(clients, since, kind, ws[1..], c);
      if ws[0] != c { assert Without(ws, c)[1..] == Without(ws[1..], c); }
    }
  }

  // ------------------------------------------------------------------
  // What happens to the queues
  // ------------------------------------------------------------------

  ghost function QueuesOf(s: State): Queues { Queues(s.clients, s.waiting) }

  ghost function Arrives(q: Queues, c: Client, w: Wait): Queues {
    Queues(q.clients[c := w], Queue(q.waiting, c, w.keys))
  }

  ghost function Leaves(q: Queues, c: Client): Queues
    requires c in q.clients
  {
    Queues(q.clients - {c}, Released(q.waiting, c, q.clients[c].keys))
  }

  ghost predicate HasHead(q: Queues, key: Key) {
    key in q.waiting && q.waiting[key] != [] && q.waiting[key][0] in q.clients
  }

  ghost function Rotates(q: Queues, key: Key): Queues
    requires HasHead(q, key)
  {
    q.(waiting := q.waiting[key := q.waiting[key][1..] + [q.waiting[key][0]]])
  }

  /** One turn of a pass that serves the clients of one kind. */
  ghost function Step(q: Queues, key: Key, kind: Kind): Queues
    requires HasHead(q, key)
  {
    var c := q.waiting[key][0];
    if q.clients[c].kind == kind then Leaves(q, c) else Rotates(q, key)
  }

  /** The first `v` turns of such a pass. */
  ghost function Visit(q: Queues, key: Key, kind: Kind, v: nat): Queues
    decreases v
  {
    if v == 0 || !HasHead(q, key) then q else Visit(Step(q, key, kind), key, kind, v - 1)
  }

  lemma HeadOk(q: Queues, key: Key)
    requires Ok(q) && Listed(q.waiting, key) != []
    ensures HasHead(q, key) && q.waiting[key][0] !in q.waiting[key][1..]
  {
    assert q.waiting[key][0] in q.waiting[key];
  }

  lemma RotatesOk(q: Queues, key: Key)
    requires Ok(q) && HasHead(q, key)
    ensures Ok(Rotates(q, key))
  {
    var ws, r := q.waiting[key], Rotates(q, key);
    NoRepeatsSnoc(ws[1..], ws[0]);
    assert ws == [ws[0]] + ws[1..];
    hide NoRepeats;
    assert forall k, c :: k in q.waiting ==> (c in r.waiting[k] <==> c in q.waiting[k]);
  }

  lemma LeavesOk(q: Queues, c: Client)
    requires Ok(q) && c in q.clients
    ensures Ok(Leaves(q, c))
  {
    ReleaseKeeps(q.clients, q.waiting, c);
  }

  lemma StepOk(q: Queues, key: Key, kind: Kind)
    requires Ok(q) && HasHead(q, key)
    ensures Ok(Step(q, key, kind))
  {
    hide Ok, Rotates, Leaves;
    RotatesOk(q, key);
    LeavesOk(q, q.waiting[key][0]);
  }

  /** A part of the clients, with the same waits. */
  ghost predicate Within(clients': map<Client, Wait>, clients: map<Client, Wait>) {
    forall c :: c in clients' ==> c in clients && clients'[c] == clients[c]
  }

  /** Those of `ws` that are not of the kind. */
  ghost function Others(clients: map<Client, Wait>, kind: Kind, ws: seq<Client>): seq<Client> {
    if ws == [] then []
    else (if Waits(clients, ws[0], kind) then [] else [ws[0]]) + Others(clients, kind, ws[1..])
  }

  lemma {:induction false} OthersSame(clients: map<Client, Wait>, clients': map<Client, Wait>, kind: Kind,
                                      ws: seq<Client>)
    requires forall c :: c in ws ==> (Waits(clients, c, kind) <==> Waits(clients', c, kind))
    ensures Others(clients, kind, ws) == Others(clients', kind, ws)
  {
    if ws != [] {
      assert forall c :: c in ws[1..] ==> c in ws;
      assert ws[0] in ws;
      OthersSame(clients, clients', kind, ws[1..]);
    }
  }

  lemma {:induction false} OthersHas(clients: map<Client, Wait>, kind: Kind, ws: seq<Client>, c: Client)
    ensures c in Others(clients, kind, ws) <==> c in ws && !Waits(clients, c, kind)
  {
    hide Waits;
    if ws != [] {
      OthersHas(clients, kind, ws[1..], c);
      assert c in ws <==> c == ws[0] || c in ws[1..];
    }
  }

  lemma {:induction false} OthersOrdered(clients: map<Client, Wait>, since: map<Client, nat>, kind: Kind, p: Kind,
                                         ws: seq<Client>)
    requires OrderedSeq(clients, since, kind, ws)
    ensures OrderedSeq(clients, since, kind, Others(clients, p, ws))
  {
    if ws != [] {
      var rest := Others(clients, p, ws[1..]);
      OthersOrdered(clients, since, kind, p, ws[1..]);
      forall d | d in rest ensures d in ws[1..] { OthersHas(clients, p, ws[1..], d); }
      hide Waits, At;
      assert [] + rest == rest && ([ws[0]] + rest)[1..] == rest;
    }
  }

  lemma StepList(q: Queues, key: Key, kind: Kind)
    requires Ok(q) && HasHead(q, key)
    ensures var ws, r := q.waiting[key], Step(q, key, kind);
            && Within(r.clients, q.clients)
            && Listed(r.waiting, key) == ws[1..] + (if Waits(q.clients, ws[0], kind) then [] else [ws[0]])
            && (forall c :: c in ws[1..] ==> (Waits(r.clients, c, kind) <==> Waits(q.clients, c, kind)))
            && ws[0] in q.clients && ws[0] !in ws[1..]
  {
    var ws := q.waiting[key];
    HeadOk(q, key);
    assert ws[0] in ws && key in q.clients[ws[0]].keys;
    assert Without(ws, ws[0]) == ws[1..];
    assert ws[1..] + [] == ws[1..];
    hide NoRepeats, Without;
  }

  /** After `v` turns the others stand behind those not yet visited. */
  lemma {:induction false} VisitList(q: Queues, key: Key, kind: Kind, v: nat)
    requires Ok(q) && v <= |Listed(q.waiting, key)|
    ensures var ws, r := Listed(q.waiting, key), Visit(q, key, kind, v);
            && Ok(r) && Within(r.clients, q.clients)
            && Listed(r.waiting, key) == ws[v..] + Others(q.clients, kind, ws[..v])
    decreases v
  {
    var ws := Listed(q.waiting, key);
    if v == 0 {
      assert ws[0..] + [] == ws;
    } else {
      HeadOk(q, key);
      StepOk(q, key, kind);
      StepList(q, key, kind);
      var r, c := Step(q, key, kind), ws[0];
      var tail := if Waits(q.clients, c, kind) then [] else [c];
      hide Ok, Step, Waits;
      VisitList(r, key, kind, v - 1);
      Turned(q, r, kind, ws, c, tail, v);
    }
  }

  /** The sequences of one turn, put together. */
  lemma Turned(q: Queues, r: Queues, kind: Kind, ws: seq<Client>, c: Client, tail: seq<Client>, v: nat)
    requires 0 < v <= |ws| && c == ws[0] && tail == (if Waits(q.clients, c, kind) then [] else [c])
    requires forall d :: d in ws[1..] ==> (Waits(r.clients, d, kind) <==> Waits(q.clients, d, kind))
    ensures v - 1 <= |ws[1..] + tail|
    ensures (ws[1..] + tail)[v - 1..] + Others(r.clients, kind, (ws[1..] + tail)[..v - 1])
         == ws[v..] + Others(q.clients, kind, ws[..v])
  {
    var next := ws[1..] + tail;
    assert next[..v - 1] == ws[1..v] && next[v - 1..] == ws[v..] + tail;
    assert ws[..v][0] == c && ws[..v][1..] == ws[1..v];
    assert forall d :: d in ws[1..v] ==> d in ws[1..];
    OthersSame(r.clients, q.clients, kind, ws[1..v]);
    hide Waits;
    assert Others(q.clients, kind, ws[..v]) == tail + Others(q.clients, kind, ws[1..v]);
  }

  /** A waiter of the kind is among the first `v` and another is behind them. */
  ghost predicate Splits(clients: map<Client, Wait>, ws: seq<Client>, v: nat, kind: Kind)
    requires v <= |ws|
  {
    exists c, d :: c in ws[..v] && d in ws[v..] && Waits(clients, c, kind) && Waits(clients, d, kind)
  }

  /** A pass for `p` over `v` waiters keeps the order of a kind exactly when it is its own or is not split. */
  lemma PassOrder(clients: map<Client, Wait>, since: map<Client, nat>, kind: Kind, p: Kind, ws: seq<Client>, v: nat)
    requires OrderedSeq(clients, since, kind, ws) && v <= |ws|
    ensures OrderedSeq(clients, since, kind, ws[v..] + Others(clients, p, ws[..v]))
            <==> kind == p || !Splits(clients, ws, v, kind)
  {
    var a, b := ws[..v], ws[v..];
    var others := Others(clients, p, a);
    assert ws == a + b;
    OrderedConcat(clients, since, kind, a, b);
    OthersOrdered(clients, since, kind, p, a);
    OrderedConcat(clients, since, kind, b, others);
    forall c ensures c in others <==> c in a && !Waits(clients, c, p) { OthersHas(clients, p, a, c); }
    hide OrderedSeq, Others, At;
    if Splits(clients, ws, v, kind) && kind != p {
      var c, d :| c in a && d in b && Waits(clients, c, kind) && Waits(clients, d, kind);
      assert c in others && At(since, c) < At(since, d);
      assert !Before(clients, since, kind, b, others);
    }
  }

  /** All queues but one. */
  ghost predicate OrderedBut(q: Queues, since: map<Client, nat>, kind: Kind, key: Key) {
    forall k :: k in q.waiting && k != key ==> OrderedSeq(q.clients, since, kind, q.waiting[k])
  }

  lemma LeavesList(q: Queues, since: map<Client, nat>, kind: Kind, c: Client, k: Key)
    requires c in q.clients && k in Leaves(q, c).waiting && OrderedSeq(q.clients, since, kind, q.waiting[k])
    ensures OrderedSeq(Leaves(q, c).clients, since, kind, Leaves(q, c).waiting[k])
  {
    var ws := Leaves(q, c).waiting[k];
    OrderedWithout(q.clients, since, kind, q.waiting[k], c);
    hide OrderedSeq;
    OrderedStill(q.clients, since, q.clients - {c}, since, kind, ws);
  }

  lemma StepBut(q: Queues, since: map<Client, nat>, key: Key, kind: Kind, p: Kind)
    requires Ok(q) && HasHead(q, key) && OrderedBut(q, since, kind, key)
    ensures OrderedBut(Step(q, key, p), since, kind, key)
  {
    var c := q.waiting[key][0];
    hide OrderedSeq;
    if q.clients[c].kind == p {
      forall k | k in Leaves(q, c).waiting && k != key
        ensures OrderedSeq(Leaves(q, c).clients, since, kind, Leaves(q, c).waiting[k])
      {
        LeavesList(q, since, kind, c, k);
      }
    }
  }

  lemma {:induction false} VisitBut(q: Queues, since: map<Client, nat>, key: Key, kind: Kind, p: Kind, v: nat)
    requires Ok(q) && OrderedBut(q, since, kind, key)
    ensures OrderedBut(Visit(q, key, p, v), since, kind, key)
    decreases v
  {
    hide Ok, Step, OrderedBut, HasHead;
    if v > 0 && HasHead(q, key) {
      StepOk(q, key, p);
      StepBut(q, since, key, kind, p);
      VisitBut(Step(q, key, p), since, key, kind, p, v - 1);
    }
  }

  /** A queue that is in order for the clients of now is so for those of before, if all of it is still blocked. */
  lemma SameKinds(q: Queues, r: Queues, since: map<Client, nat>, kind: Kind, key: Key)
    requires Ok(r) && Within(r.clients, q.clients)
    ensures OrderedSeq(r.clients, since, kind, Listed(r.waiting, key))
            <==> OrderedSeq(q.clients, since, kind, Listed(r.waiting, key))
  {
    var ws := Listed(r.waiting, key);
    assert forall c :: c in ws ==> c in r.clients;
    hide OrderedSeq, Index;
    if OrderedSeq(q.clients, since, kind, ws) { OrderedStill(q.clients, since, r.clients, since, kind, ws); }
    if OrderedSeq(r.clients, since, kind, ws) { OrderedStill(r.clients, since, q.clients, since, kind, ws); }
  }

  /** A pass keeps all queues in order exactly when it serves that kind itself or does not split it at its key. */
  lemma VisitIff(q: Queues, since: map<Client, nat>, key: Key, kind: Kind, p: Kind, v: nat)
    requires Ok(q) && Ordered(q, since, kind) && v <= |Listed(q.waiting, key)|
    ensures Ordered(Visit(q, key, p, v), since, kind)
            <==> kind == p || !Splits(q.clients, Listed(q.waiting, key), v, kind)
  {
    hide *;
    var ws, r := Listed(q.waiting, key), Visit(q, key, p, v);
    OrderedAll(q, since, kind, key);
    OrderedAll(r, since, kind, key);
    VisitList(q, key, p, v);
    VisitBut(q, since, key, kind, p, v);
    SameKinds(q, r, since, kind, key);
    PassOrder(q.clients, since, kind, p, ws, v);
  }

  lemma OrderedAll(q: Queues, since: map<Client, nat>, kind: Kind, key: Key)
    ensures Ordered(q, since, kind)
            <==> OrderedBut(q, since, kind, key) && OrderedSeq(q.clients, since, kind, Listed(q.waiting, key))
  {
    assert OrderedSeq(q.clients, since, kind, []);
    hide OrderedSeq;
  }

  // ------------------------------------------------------------------
  // Runs
  // ------------------------------------------------------------------

  /** The queues, when each client blocked, and the clock. */
  datatype Line = Line(q: Queues, since: map<Client, nat>, clock: nat)

  /** A client blocks, or leaves for any reason of its own, or a pass for lists or sorted sets visits waiters of a key.
      A pass for streams or modules moves nobody or everybody, so it is no more than clients that leave. */
  datatype Event = Arrive(c: Client, w: Wait) | Leave(c: Client) | Pass(key: Key, kind: Kind, visits: nat)

  ghost predicate Enabled(l: Line, e: Event) {
    match e
    case Arrive(c, w) => c !in l.q.clients && w.keys != {}
    case Leave(c) => c in l.q.clients
    case Pass(key, kind, v) => (kind == OnList || kind == OnZset) && v <= |Listed(l.q.waiting, key)|
  }

  ghost function Next(l: Line, e: Event): Line
    requires Enabled(l, e)
  {
    match e
    case Arrive(c, w) => Line(Arrives(l.q, c, w), l.since[c := l.clock], l.clock + 1)
    case Leave(c) => l.(q := Leaves(l.q, c))
    case Pass(key, kind, v) => l.(q := Visit(l.q, key, kind, v))
  }

  ghost predicate LineOk(l: Line) {
    Ok(l.q) && forall c :: c in l.q.clients ==> c in l.since && l.since[c] < l.clock
  }

  lemma NextOk(l: Line, e: Event)
    requires LineOk(l) && Enabled(l, e)
    ensures LineOk(Next(l, e))
  {
    match e
    case Arrive(c, w) => QueueKeeps(l.q.clients, l.q.waiting, c, w); hide Index;
    case Leave(c) => LeavesOk(l.q, c); hide Index, Released;
    case Pass(key, kind, v) => VisitList(l.q, key, kind, v); hide Index, Visit;
  }

  lemma ArriveList(l: Line, c: Client, w: Wait, kind: Kind, k: Key)
    requires LineOk(l) && c !in l.q.clients && k in Arrives(l.q, c, w).waiting
    requires OrderedSeq(l.q.clients, l.since, kind, Listed(l.q.waiting, k))
    ensures OrderedSeq(l.q.clients[c := w], l.since[c := l.clock], kind, Arrives(l.q, c, w).waiting[k])
  {
    var ws, clients, since := Listed(l.q.waiting, k), l.q.clients[c := w], l.since[c := l.clock];
    assert forall d :: d in ws ==> d in l.q.clients;
    hide Index;
    OrderedStill(l.q.clients, l.since, clients, since, kind, ws);
    OrderedConcat(clients, since, kind, ws, [c]);
    assert OrderedSeq(clients, since, kind, [c]);
    hide OrderedSeq;
  }

  lemma ArriveKeeps(l: Line, c: Client, w: Wait, kind: Kind)
    requires LineOk(l) && Enabled(l, Arrive(c, w)) && Ordered(l.q, l.since, kind)
    ensures Ordered(Next(l, Arrive(c, w)).q, Next(l, Arrive(c, w)).since, kind)
  {
    var r := Arrives(l.q, c, w);
    forall k | k in r.waiting ensures OrderedSeq(r.clients, l.since[c := l.clock], kind, r.waiting[k]) {
      OrderedAll(l.q, l.since, kind, k);
      ArriveList(l, c, w, kind, k);
    }
    hide OrderedSeq;
  }

  lemma LeaveKeeps(q: Queues, since: map<Client, nat>, c: Client, kind: Kind)
    requires c in q.clients && Ordered(q, since, kind)
    ensures Ordered(Leaves(q, c), since, kind)
  {
    hide OrderedSeq;
    var r := Leaves(q, c);
    forall k | k in r.waiting ensures OrderedSeq(r.clients, since, kind, r.waiting[k]) {
      LeavesList(q, since, kind, c, k);
    }
  }

  /** The event is not a pass for another kind that stops between two waiters of this one. */
  ghost predicate Fair(l: Line, e: Event, kind: Kind)
    requires Enabled(l, e)
  {
    e.Pass? ==> e.kind == kind || !Splits(l.q.clients, Listed(l.q.waiting, e.key), e.visits, kind)
  }

  lemma NextIffFair(l: Line, e: Event, kind: Kind)
    requires LineOk(l) && Enabled(l, e) && Ordered(l.q, l.since, kind)
    ensures Ordered(Next(l, e).q, Next(l, e).since, kind) <==> Fair(l, e, kind)
  {
    hide Ordered, Splits, Visit, Ok, Arrives, Leaves;
    match e
    case Arrive(c, w) => ArriveKeeps(l, c, w, kind);
    case Leave(c) => LeaveKeeps(l.q, l.since, c, kind);
    case Pass(key, p, v) => VisitIff(l.q, l.since, key, kind, p, v);
  }

  ghost predicate Run(ls: seq<Line>, es: seq<Event>) {
    && |ls| == |es| + 1 && ls[0].q == Queues(map[], map[])
    && forall i :: 0 <= i < |es| ==> Enabled(ls[i], es[i]) && ls[i + 1] == Next(ls[i], es[i])
  }

  lemma EmptyOk(l: Line, kind: Kind)
    requires l.q == Queues(map[], map[])
    ensures LineOk(l) && Ordered(l.q, l.since, kind)
  {}

  lemma {:induction false} RunOk(ls: seq<Line>, es: seq<Event>, i: nat)
    requires Run(ls, es) && i < |ls|
    ensures LineOk(ls[i])
  {
    hide LineOk, Enabled, Next;
    if i == 0 {
      EmptyOk(ls[0], OnList);
    } else {
      RunOk(ls, es, i - 1);
      NextOk(ls[i - 1], es[i - 1]);
    }
  }

  ghost predicate AllFair(ls: seq<Line>, es: seq<Event>, kind: Kind) {
    forall i :: 0 <= i < |es| && i < |ls| && Enabled(ls[i], es[i]) ==> Fair(ls[i], es[i], kind)
  }

  lemma {:induction false} FairRunOrdered(ls: seq<Line>, es: seq<Event>, kind: Kind, i: nat)
    requires Run(ls, es) && AllFair(ls, es, kind) && i < |ls|
    ensures Ordered(ls[i].q, ls[i].since, kind)
  {
    hide LineOk, Enabled, Next, Ordered, Fair;
    if i == 0 {
      EmptyOk(ls[0], kind);
    } else {
      FairRunOrdered(ls, es, kind, i - 1);
      RunOk(ls, es, i - 1);
      NextIffFair(ls[i - 1], es[i - 1], kind);
    }
  }

  /** In a run the waiters of a kind stand in the order in which they blocked, at every key and in every state, if and
      only if no pass for another kind stops between two of them. */
  lemma RunIffFair(ls: seq<Line>, es: seq<Event>, kind: Kind)
    requires Run(ls, es)
    ensures (forall i :: 0 <= i < |ls| ==> Ordered(ls[i].q, ls[i].since, kind)) <==> AllFair(ls, es, kind)
  {
    hide LineOk, Enabled, Next, Ordered, Fair;
    if AllFair(ls, es, kind) {
      forall i | 0 <= i < |ls| ensures Ordered(ls[i].q, ls[i].since, kind) { FairRunOrdered(ls, es, kind, i); }
    }
    if forall i :: 0 <= i < |ls| ==> Ordered(ls[i].q, ls[i].since, kind) {
      forall i | 0 <= i < |es| && Enabled(ls[i], es[i]) ensures Fair(ls[i], es[i], kind) {
        RunOk(ls, es, i);
        assert Ordered(ls[i].q, ls[i].since, kind) && Ordered(ls[i + 1].q, ls[i + 1].since, kind);
        NextIffFair(ls[i], es[i], kind);
      }
    }
  }

  /** No key has waiters of the kind when a pass for another kind visits it. */
  ghost predicate SingleKind(l: Line, e: Event, kind: Kind) {
    e.Pass? && e.kind != kind ==> forall c :: c in Listed(l.q.waiting, e.key) ==> !Waits(l.q.clients, c, kind)
  }

  /** Clients that keep to one kind of value per key are treated fairly. */
  lemma SingleKindIsFair(ls: seq<Line>, es: seq<Event>, kind: Kind)
    requires Run(ls, es) && forall i :: 0 <= i < |es| ==> SingleKind(ls[i], es[i], kind)
    ensures AllFair(ls, es, kind)
  {
    hide Enabled, Next, Waits;
    forall i | 0 <= i < |es| && Enabled(ls[i], es[i]) ensures Fair(ls[i], es[i], kind) {
      assert SingleKind(ls[i], es[i], kind);
      SingleIsFair(ls[i], es[i], kind);
    }
  }

  lemma SingleIsFair(l: Line, e: Event, kind: Kind)
    requires Enabled(l, e) && SingleKind(l, e, kind)
    ensures Fair(l, e, kind)
  {
    hide Waits;
  }

  // ------------------------------------------------------------------
  // Passes of the program
  // ------------------------------------------------------------------

  lemma ServeClientLeaves(s: State, key: Key, c: Client)
    requires c in s.clients && key in s.db && s.db[key].ListOf? && s.db[key].elems != []
    ensures QueuesOf(ServeClient(s, key, c)) == Leaves(QueuesOf(s), c)
  {
    var w := s.clients[c];
    var (e, rest) := Pop(s.db[key].elems, w.from);
    var popped := s.(db := s.db[key := ListOf(rest)]);
    if w.target.Some? && CanServe(popped, w) { PushToShape(popped, w.target.value, e, w.to); }
    hide Released, PushTo, Push, Pop;
  }

  lemma TurnIsStep(s: State, key: Key)
    requires Turn(s, key).Some?
    ensures HasHead(QueuesOf(s), key) && QueuesOf(Turn(s, key).value) == Step(QueuesOf(s), key, OnList)
  {
    var c := s.waiting[key][0];
    hide ServeClient, Leaves;
    if s.clients[c].kind == OnList { ServeClientLeaves(s, key, c); }
  }

  /** The loop over the waiters for a list is a pass for lists. */
  lemma {:induction false} ServeLoopVisits(s: State, key: Key, n: nat) returns (v: nat)
    requires Ok(QueuesOf(s)) && n <= |Listed(s.waiting, key)|
    ensures v <= n && QueuesOf(ServeLoop(s, key, n)) == Visit(QueuesOf(s), key, OnList, v)
    decreases n
  {
    hide *;
    v := 0;
    NoVisit(QueuesOf(s), key, OnList);
    LoopIs(s, key, n);
    if n > 0 && Turn(s, key).Some? {
      TurnIsStep(s, key);
      StepLess(s, key);
      var w := ServeLoopVisits(Turn(s, key).value, key, n - 1);
      OneVisitMore(QueuesOf(s), key, OnList, w);
      v := w + 1;
    }
  }

  lemma LoopIs(s: State, key: Key, n: nat)
    ensures ServeLoop(s, key, n)
         == if n == 0 || Turn(s, key).None? then s else ServeLoop(Turn(s, key).value, key, n - 1)
  {
    hide Turn;
  }

  lemma NoVisit(q: Queues, key: Key, kind: Kind)
    ensures Visit(q, key, kind, 0) == q
  {}

  lemma OneVisitMore(q: Queues, key: Key, kind: Kind, v: nat)
    requires HasHead(q, key)
    ensures Visit(q, key, kind, v + 1) == Visit(Step(q, key, kind), key, kind, v)
  {
    hide Step, HasHead;
  }

  lemma StepLess(s: State, key: Key)
    requires Ok(QueuesOf(s)) && Turn(s, key).Some?
    ensures Ok(QueuesOf(Turn(s, key).value))
    ensures |Listed(s.waiting, key)| <= |Listed(Turn(s, key).value.waiting, key)| + 1
  {
    TurnIsStep(s, key);
    hide Turn, Ok, Step, Waits;
    StepOk(QueuesOf(s), key, OnList);
    StepList(QueuesOf(s), key, OnList);
  }

  /** So is the whole of serveClientsBlockedOnListKey. */
  lemma ServeKeyVisits(s: State, key: Key) returns (v: nat)
    requires Ok(QueuesOf(s))
    ensures v <= |Listed(s.waiting, key)| && QueuesOf(ServeKey(s, key)) == Visit(QueuesOf(s), key, OnList, v)
  {
    hide Ok, Visit, ServeLoop;
    v := ServeLoopVisits(s, key, |Listed(s.waiting, key)|);
  }

  /** What the program does to the queues are events: blockForKeys, unblockClient, serveClientsBlockedOnListKey. */
  lemma ProgramEvents(l: Line, s: State, c: Client, w: Wait, key: Key) returns (v: nat)
    requires LineOk(l) && l.q == QueuesOf(s)
    ensures c !in s.clients && w.keys != {} ==>
              Enabled(l, Arrive(c, w)) && Next(l, Arrive(c, w)).q == QueuesOf(Block(s, c, w))
    ensures c in s.clients ==> Enabled(l, Leave(c)) && Next(l, Leave(c)).q == QueuesOf(Unblock(s, c))
    ensures Enabled(l, Pass(key, OnList, v)) && Next(l, Pass(key, OnList, v)).q == QueuesOf(ServeKey(s, key))
  {
    hide Visit, ServeKey, Index, Queue, Released;
    v := ServeKeyVisits(s, key);
  }

  /** How many waiters a pass over a sorted set with `card` elements visits: it ends with the last element. */
  ghost function SortedSetVisits(clients: map<Client, Wait>, ws: seq<Client>, card: nat): (v: nat)
    ensures v <= |ws|
  {
    if ws == [] || card == 0 then 0
    else 1 + SortedSetVisits(clients, ws[1..], if Waits(clients, ws[0], OnZset) then card - 1 else card)
  }

  lemma {:induction false} SortedSetVisitsSame(clients: map<Client, Wait>, clients': map<Client, Wait>,
                                               ws: seq<Client>, card: nat)
    requires forall c :: c in ws ==> (Waits(clients, c, OnZset) <==> Waits(clients', c, OnZset))
    ensures SortedSetVisits(clients, ws, card) == SortedSetVisits(clients', ws, card)
  {
    hide Waits;
    if ws != [] && card != 0 {
      assert forall c :: c in ws[1..] ==> c in ws;
      assert ws[0] in ws;
      SortedSetVisitsSame(clients, clients', ws[1..], if Waits(clients, ws[0], OnZset) then card - 1 else card);
    }
  }

  /** The pass over a sorted set with `card` elements and `n` waiters to go. */
  ghost function SortedSetPass(q: Queues, key: Key, n: nat, card: nat): Queues
    requires n <= |Listed(q.waiting, key)|
  {
    Visit(q, key, OnZset, SortedSetVisits(q.clients, Listed(q.waiting, key)[..n], card))
  }

  lemma SortedSetTurn(q: Queues, key: Key, n: nat, card: nat)
    requires Ok(q) && 0 < n <= |Listed(q.waiting, key)| && card > 0
    ensures HasHead(q, key) && Ok(Step(q, key, OnZset))
    ensures var r := Step(q, key, OnZset);
            && n - 1 <= |Listed(r.waiting, key)|
            && SortedSetPass(q, key, n, card)
            == SortedSetPass(r, key, n - 1, if Waits(q.clients, q.waiting[key][0], OnZset) then card - 1 else card)
  {
    hide Ok, Step, Waits, Visit;
    HeadOk(q, key);
    StepOk(q, key, OnZset);
    StepList(q, key, OnZset);
    var ws, r := q.waiting[key], Step(q, key, OnZset);
    var rest := ws[..n][1..];
    assert Listed(r.waiting, key)[..n - 1] == rest;
    assert forall c :: c in rest ==> c in ws[1..];
    var left := if Waits(q.clients, ws[0], OnZset) then card - 1 else card;
    SortedSetVisitsSame(q.clients, r.clients, rest, left);
    OneVisitMore(q, key, OnZset, SortedSetVisits(q.clients, rest, left));
  }

  lemma SortedSetWhole(q: Queues, key: Key, card: nat)
    ensures SortedSetPass(q, key, |Listed(q.waiting, key)|, card)
         == Visit(q, key, OnZset, SortedSetVisits(q.clients, Listed(q.waiting, key), card))
    ensures key in q.waiting ==> Listed(q.waiting, key) == q.waiting[key]
    ensures key !in q.waiting ==> Visit(q, key, OnZset, SortedSetVisits(q.clients, Listed(q.waiting, key), card)) == q
  {
    var ws := Listed(q.waiting, key);
    assert ws[..|ws|] == ws;
  }

  lemma SortedSetDone(q: Queues, key: Key, n: nat, card: nat)
    requires n <= |Listed(q.waiting, key)| && (n == 0 || card == 0)
    ensures SortedSetPass(q, key, n, card) == q
  {}

  // ------------------------------------------------------------------
  // First come, first served
  // ------------------------------------------------------------------

  /** Strictly in the order of blocking. */
  ghost predicate Increasing(since: map<Client, nat>, cs: seq<Client>) {
    forall i, j :: 0 <= i < j < |cs| ==> At(since, cs[i]) < At(since, cs[j])
  }

  lemma {:induction false} ForListHas(clients: map<Client, Wait>, ws: seq<Client>, c: Client)
    ensures c in ForList(clients, ws) <==> c in ws && Waits(clients, c, OnList)
  {
    if ws != [] {
      ForListHas(clients, ws[1..], c);
      assert c in ws <==> c == ws[0] || c in ws[1..];
    }
  }

  lemma {:induction false} ForListIncreasing(clients: map<Client, Wait>, since: map<Client, nat>, ws: seq<Client>)
    requires OrderedSeq(clients, since, OnList, ws)
    ensures Increasing(since, ForList(clients, ws))
  {
    if ws != [] {
      var rest := ForList(clients, ws[1..]);
      ForListIncreasing(clients, since, ws[1..]);
      if Waits(clients, ws[0], OnList) {
        forall d | d in rest ensures At(since, ws[0]) < At(since, d) { ForListHas(clients, ws[1..], d); }
        hide *;
        FrontIncreasing(since, ws[0], rest);
        FrontOfList(clients, ws);
      } else {
        assert [] + rest == rest;
      }
    }
  }

  lemma FrontOfList(clients: map<Client, Wait>, ws: seq<Client>)
    requires ws != [] && Waits(clients, ws[0], OnList)
    ensures ForList(clients, ws) == [ws[0]] + ForList(clients, ws[1..])
  {}

  lemma FrontIncreasing(since: map<Client, nat>, c: Client, rest: seq<Client>)
    requires Increasing(since, rest) && forall d :: d in rest ==> At(since, c) < At(since, d)
    ensures Increasing(since, [c] + rest)
  {
    hide At;
    var cs := [c] + rest;
    forall i, j | 0 <= i < j < |cs| ensures At(since, cs[i]) < At(since, cs[j]) {
      assert cs[j] == rest[j - 1] && rest[j - 1] in rest;
    }
  }

  /** In a run without such a stop, a pass for lists serves the clients that wait for a list at its key in the order in
      which they blocked, and nobody who blocked later before one who blocked earlier. */
  lemma FirstComeFirstServed(ls: seq<Line>, es: seq<Event>, i: nat, s: State, key: Key, l: seq<Key>)
    requires Run(ls, es) && AllFair(ls, es, OnList) && i < |ls| && ls[i].q == QueuesOf(s)
    requires Sound(s, Some(key), l) && key in s.db && s.db[key].ListOf?
    ensures var t := ServeKey(s, key);
            && s.replies <= t.replies
            && var served := Receivers(t.replies[|s.replies|..]);
               && Increasing(ls[i].since, served)
               && forall c, d :: c in served && d in Listed(s.waiting, key) && Waits(s.clients, d, OnList) ==>
                    d in served || At(ls[i].since, c) < At(ls[i].since, d)
  {
    var ws, since, t := Listed(s.waiting, key), ls[i].since, ServeKey(s, key);
    FairRunOrdered(ls, es, OnList, i);
    OrderedAll(ls[i].q, since, OnList, key);
    ForListIncreasing(s.clients, since, ws);
    ServeKeyFifo(s, key, l);
    var queue, served := ForList(s.clients, ws), Receivers(t.replies[|s.replies|..]);
    forall d | d in ws && Waits(s.clients, d, OnList) && d !in served
      ensures forall c :: c in served ==> At(since, c) < At(since, d)
    {
      ForListHas(s.clients, ws, d);
      LeftLater(since, queue, served, d);
    }
  }

  lemma LeftLater(since: map<Client, nat>, queue: seq<Client>, served: seq<Client>, d: Client)
    requires Increasing(since, queue) && served <= queue && d in queue && d !in served
    ensures forall c :: c in served ==> At(since, c) < At(since, d)
  {
    hide At;
    var j :| 0 <= j < |queue| && queue[j] == d;
    forall m | 0 <= m < |served| ensures queue[m] != d { assert served[m] == queue[m] && served[m] in served; }
    forall c | c in served ensures At(since, c) < At(since, d) {
      var i :| 0 <= i < |served| && served[i] == c;
      assert queue[i] == c;
    }
  }

  // ------------------------------------------------------------------
  // It can go wrong
  // ------------------------------------------------------------------

  function For(kind: Kind): Wait { Wait(kind, {"k"}, None, Head, Head) }

  /** Three clients blocked at one key one after the other, the second for a sorted set. */
  ghost function After(n: nat): Line
    requires n <= 3
  {
    match n
    case 0 => Line(Queues(map[], map[]), map[], 0)
    case 1 => Line(Queues(map[0 := For(OnList)], map["k" := [0]]), map[0 := 0], 1)
    case 2 => Line(Queues(map[0 := For(OnList), 1 := For(OnZset)], map["k" := [0, 1]]), map[0 := 0, 1 := 1], 2)
    case _ => Line(Queues(map[0 := For(OnList), 1 := For(OnZset), 2 := For(OnList)], map["k" := [0, 1, 2]]),
                   map[0 := 0, 1 := 1, 2 := 2], 3)
  }

  function Arrival(n: nat): Event { Arrive(n, For(if n == 1 then OnZset else OnList)) }

  lemma ArrivalIs(n: nat)
    requires n < 3
    ensures Enabled(After(n), Arrival(n)) && Next(After(n), Arrival(n)) == After(n + 1)
  {
    assert [] + [0] == [0] && [0] + [1] == [0, 1] && [0, 1] + [2] == [0, 1, 2];
    assert Next(After(n), Arrival(n)).q.waiting == After(n + 1).q.waiting;
    assert Next(After(n), Arrival(n)).q.clients == After(n + 1).q.clients;
  }

  lemma NoneYet()
    ensures Run([After(0)], [])
  {}

  lemma Arrived()
    ensures Run([After(0), After(1), After(2), After(3)], [Arrival(0), Arrival(1), Arrival(2)])
  {
    hide *;
    var ls, es := [After(0)], [];
    NoneYet();
    ArrivalIs(0);
    Longer(ls, es, Arrival(0));
    ArrivalIs(1);
    Longer(ls + [After(1)], es + [Arrival(0)], Arrival(1));
    ArrivalIs(2);
    Longer(ls + [After(1)] + [After(2)], es + [Arrival(0)] + [Arrival(1)], Arrival(2));
    assert ls + [After(1)] + [After(2)] + [After(3)] == [After(0), After(1), After(2), After(3)];
    assert es + [Arrival(0)] + [Arrival(1)] + [Arrival(2)] == [Arrival(0), Arrival(1), Arrival(2)];
  }

  /** Two of the three are visited. */
  lemma TwoVisited(clients: map<Client, Wait>)
    requires clients == After(3).q.clients
    ensures SortedSetVisits(clients, [0, 1, 2], 1) == 2 && Others(clients, OnZset, [0, 1]) == [0]
    ensures Waits(clients, 0, OnList) && Waits(clients, 2, OnList) && Splits(clients, [0, 1, 2], 2, OnList)
  {
    assert !Waits(clients, 0, OnZset) && Waits(clients, 1, OnZset);
    assert Waits(clients, 0, OnList) && Waits(clients, 2, OnList);
    hide Waits;
    assert [0, 1, 2][1..] == [1, 2] && [1, 2][1..] == [2] && [0, 1][1..] == [1] && [1][1..] == [];
    assert SortedSetVisits(clients, [2], 0) == 0 && SortedSetVisits(clients, [1, 2], 1) == 1;
    assert Others(clients, OnZset, [1]) == [];
    assert [0, 1, 2][..2] == [0, 1] && 0 in [0, 1] && [0, 1, 2][2..] == [2] && 2 in [2];
  }

  lemma Swapped(q: Queues)
    requires Ok(q) && Listed(q.waiting, "k") == [0, 1, 2] && Others(q.clients, OnZset, [0, 1]) == [0]
    requires Waits(q.clients, 0, OnList) && Waits(q.clients, 2, OnList)
    ensures var r := Visit(q, "k", OnZset, 2);
            Listed(r.waiting, "k") == [2, 0] && Waits(r.clients, 0, OnList) && Waits(r.clients, 2, OnList)
  {
    hide Ok, Visit, Others, Listed, NoRepeats;
    var r, ws := Visit(q, "k", OnZset, 2), [0, 1, 2];
    VisitList(q, "k", OnZset, 2);
    assert ws[..2] == [0, 1] && ws[2..] == [2] && [2] + [0] == [2, 0];
    assert Listed(r.waiting, "k") == [2, 0];
    assert 0 in Listed(r.waiting, "k") && 2 in Listed(r.waiting, "k");
    ListedKnown(r, "k");
  }

  lemma ListedKnown(q: Queues, key: Key)
    requires Ok(q)
    ensures forall c :: c in Listed(q.waiting, key) ==> c in q.clients
  {}

  /** Clients 0 and 2 wait for a list and 1 for a sorted set, at one key. A sorted set with one element is stored there,
      and then client 2 stands before client 0. */
  lemma OutOfOrder() returns (ls: seq<Line>, es: seq<Event>)
    ensures Run(ls, es) && |es| == 4
    ensures es[3] == Pass("k", OnZset, SortedSetVisits(ls[3].q.clients, Listed(ls[3].q.waiting, "k"), 1))
    ensures Listed(ls[3].q.waiting, "k") == [0, 1, 2] && Listed(ls[4].q.waiting, "k") == [2, 0]
    ensures Waits(ls[4].q.clients, 0, OnList) && Waits(ls[4].q.clients, 2, OnList)
    ensures At(ls[4].since, 0) < At(ls[4].since, 2) && !AllFair(ls, es, OnList)
  {
    ls, es := [After(0), After(1), After(2), After(3)], [Arrival(0), Arrival(1), Arrival(2)];
    Arrived();
    RunOk(ls, es, 3);
    LastPass();
    hide *;
    var l, e := After(3), Pass("k", OnZset, 2);
    assert ls[3] == l;
    Longer(ls, es, e);
    ls, es := ls + [Next(l, e)], es + [e];
    assert ls[3] == l && ls[4] == Next(l, e) && es[3] == e;
    Unfair(ls, es, 3, OnList);
  }

  /** The pass that puts them out of order. */
  lemma LastPass()
    requires LineOk(After(3))
    ensures var l, e := After(3), Pass("k", OnZset, 2);
            && Enabled(l, e) && !Fair(l, e, OnList) && At(Next(l, e).since, 0) < At(Next(l, e).since, 2)
            && Listed(l.q.waiting, "k") == [0, 1, 2] && Listed(Next(l, e).q.waiting, "k") == [2, 0]
            && Waits(Next(l, e).q.clients, 0, OnList) && Waits(Next(l, e).q.clients, 2, OnList)
            && SortedSetVisits(l.q.clients, Listed(l.q.waiting, "k"), 1) == 2
  {
    var l := After(3);
    assert Listed(l.q.waiting, "k") == [0, 1, 2] && At(l.since, 0) < At(l.since, 2);
    hide *;
    TwoVisited(l.q.clients);
    AfterPass(l, Pass("k", OnZset, 2));
    Swapped(l.q);
  }

  lemma AfterPass(l: Line, e: Event)
    requires e == Pass("k", OnZset, 2) && LineOk(l) && Listed(l.q.waiting, "k") == [0, 1, 2]
    requires Splits(l.q.clients, [0, 1, 2], 2, OnList)
    ensures Ok(l.q) && Enabled(l, e) && !Fair(l, e, OnList) && Next(l, e) == l.(q := Visit(l.q, "k", OnZset, 2))
  {
    hide Ok, Splits, Visit, Listed;
  }

  lemma Unfair(ls: seq<Line>, es: seq<Event>, i: nat, kind: Kind)
    requires i < |es| && i < |ls| && Enabled(ls[i], es[i]) && !Fair(ls[i], es[i], kind)
    ensures !AllFair(ls, es, kind)
  {
    hide Enabled, Fair;
  }

  lemma Longer(ls: seq<Line>, es: seq<Event>, e: Event)
    requires Run(ls, es) && Enabled(ls[|es|], e)
    ensures Run(ls + [Next(ls[|es|], e)], es + [e])
  {
    hide Next, Enabled;
  }
}
