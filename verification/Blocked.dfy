/** Clients that wait for lists: blocking, signalling a key as ready, and serving the waiters. */
module Blocked {
  import opened Common

  type Key = string
  type Elem = string
  type Client = nat

  /** What a client is blocked for. */
  datatype Kind = OnList | OnZset | OnStream | OnModule

  datatype End = Head | Tail

  /** A blocked client: its kind, its keys, and for BLMOVE where the element goes. */
  datatype Wait = Wait(kind: Kind, keys: set<Key>, target: Option<Key>, from: End, to: End)

  /** A stored value: a list, or something that is not a list. */
  datatype Value = ListOf(elems: seq<Elem>) | Other

  // ------------------------------------------------------------------
  // The two sides of the index
  // ------------------------------------------------------------------

  ghost predicate NoRepeats(ws: seq<Client>) { ws == [] || (ws[0] !in ws[1..] && NoRepeats(ws[1..])) }

  /** A client is listed under a key exactly when it waits for it, and once; and it waits for some key. */
  ghost predicate Index(clients: map<Client, Wait>, waiting: map<Key, seq<Client>>) {
    && (forall c :: c in clients ==> clients[c].keys != {})
    && (forall k :: k in waiting ==> waiting[k] != [] && NoRepeats(waiting[k]))
    && (forall k, c :: k in waiting && c in waiting[k] ==> c in clients && k in clients[c].keys)
    && (forall k, c :: c in clients && k in clients[c].keys ==> k in waiting && c in waiting[k])
  }

  function Without(ws: seq<Client>, c: Client): (r: seq<Client>)
    ensures |r| <= |ws|
  {
    if ws == [] then [] else if ws[0] == c then ws[1..] else [ws[0]] + Without(ws[1..], c)
  }

  lemma {:induction false} WithoutHas(ws: seq<Client>, c: Client, d: Client)
    requires NoRepeats(ws)
    ensures d in Without(ws, c) <==> d in ws && d != c
  {
    if ws != [] { WithoutHas(ws[1..], c, d); }
  }

  lemma {:induction false} WithoutKeeps(ws: seq<Client>, c: Client)
    requires NoRepeats(ws)
    ensures NoRepeats(Without(ws, c))
  {
    if ws != [] && ws[0] != c {
      WithoutKeeps(ws[1..], c);
      WithoutHas(ws[1..], c, ws[0]);
      assert Without(ws, c)[1..] == Without(ws[1..], c);
    }
  }

  /** The lists of waiters once `c` is taken off those of `keys`; an empty one goes. */
  ghost function Released(waiting: map<Key, seq<Client>>, c: Client, keys: set<Key>): map<Key, seq<Client>> {
    map k | k in waiting && (k in keys ==> Without(waiting[k], c) != []) ::
      if k in keys then Without(waiting[k], c) else waiting[k]
  }

  lemma ReleaseKeeps(clients: map<Client, Wait>, waiting: map<Key, seq<Client>>, c: Client)
    requires Index(clients, waiting) && c in clients
    ensures Index(clients - {c}, Released(waiting, c, clients[c].keys))
  {
    var waiting' := Released(waiting, c, clients[c].keys);
    hide Without, NoRepeats, Released;
    forall k | k in waiting' ensures waiting'[k] != [] && NoRepeats(waiting'[k]) {
      ReleasedList(clients, waiting, c, k);
    }
    forall k, d | k in waiting' && d in waiting'[k] ensures d in clients && d != c && k in clients[d].keys {
      ReleasedHas(clients, waiting, c, k, d);
    }
    forall k, d | d in clients && d != c && k in clients[d].keys ensures k in waiting' && d in waiting'[k] {
      ReleasedHas(clients, waiting, c, k, d);
    }
  }

  lemma ReleasedList(clients: map<Client, Wait>, waiting: map<Key, seq<Client>>, c: Client, k: Key)
    requires Index(clients, waiting) && c in clients && k in Released(waiting, c, clients[c].keys)
    ensures var l := Released(waiting, c, clients[c].keys)[k]; l != [] && NoRepeats(l)
  {
    assert k in waiting && waiting[k] != [] && NoRepeats(waiting[k]);
    hide Without, NoRepeats, Index;
    WithoutKeeps(waiting[k], c);
  }

  /** A client still waits for a key exactly when it did and is not the one released. */
  lemma ReleasedHas(clients: map<Client, Wait>, waiting: map<Key, seq<Client>>, c: Client, k: Key, d: Client)
    requires Index(clients, waiting) && c in clients
    ensures k in Released(waiting, c, clients[c].keys) && d in Released(waiting, c, clients[c].keys)[k]
            <==> d in clients && d != c && k in clients[d].keys
  {
    assert d in clients && k in clients[d].keys <==> k in waiting && d in waiting[k];
    assert c in clients && k in clients[c].keys <==> k in waiting && c in waiting[k];
    if k in waiting {
      assert NoRepeats(waiting[k]);
      WithoutHas(waiting[k], c, d);
    }
    hide Without, NoRepeats, Index;
  }

  // ------------------------------------------------------------------
  // Counters
  // ------------------------------------------------------------------

  ghost function OfKind(clients: map<Client, Wait>, kind: Kind): set<Client> {
    set c | c in clients && clients[c].kind == kind
  }

  ghost predicate Counted(clients: map<Client, Wait>, byKind: map<Kind, nat>) {
    forall kind :: kind in byKind && byKind[kind] == |OfKind(clients, kind)|
  }

  lemma CountedLess(clients: map<Client, Wait>, byKind: map<Kind, nat>, c: Client)
    requires Counted(clients, byKind) && c in clients
    ensures byKind[clients[c].kind] > 0
    ensures Counted(clients - {c}, byKind[clients[c].kind := byKind[clients[c].kind] - 1])
  {
    var kind := clients[c].kind;
    assert c in OfKind(clients, kind);
    var byKind' := byKind[kind := byKind[kind] - 1];
    hide OfKind;
    forall other ensures other in byKind' && byKind'[other] == |OfKind(clients - {c}, other)| {
      assert other in byKind && byKind[other] == |OfKind(clients, other)|;
      OfKindLess(clients, c, other);
    }
  }

  lemma OfKindLess(clients: map<Client, Wait>, c: Client, kind: Kind)
    requires c in clients
    ensures |OfKind(clients - {c}, kind)| == |OfKind(clients, kind)| - (if clients[c].kind == kind then 1 else 0)
  {
    var rest, all := OfKind(clients - {c}, kind), OfKind(clients, kind);
    assert c in all <==> clients[c].kind == kind;
    forall x ensures x in rest <==> x in all && x != c {}
    hide OfKind;
    if c in all {
      assert all == rest + {c};
    } else {
      assert all == rest;
    }
  }

  lemma CountedMore(clients: map<Client, Wait>, byKind: map<Kind, nat>, c: Client, w: Wait)
    requires Counted(clients, byKind) && c !in clients
    ensures Counted(clients[c := w], byKind[w.kind := byKind[w.kind] + 1])
  {
    var byKind' := byKind[w.kind := byKind[w.kind] + 1];
    hide OfKind;
    forall kind ensures kind in byKind' && byKind'[kind] == |OfKind(clients[c := w], kind)| {
      assert kind in byKind && byKind[kind] == |OfKind(clients, kind)|;
      OfKindMore(clients, c, w, kind);
    }
  }

  lemma OfKindMore(clients: map<Client, Wait>, c: Client, w: Wait, kind: Kind)
    requires c !in clients
    ensures |OfKind(clients[c := w], kind)| == |OfKind(clients, kind)| + (if kind == w.kind then 1 else 0)
  {
    var more, all := OfKind(clients[c := w], kind), OfKind(clients, kind);
    assert c !in all;
    forall x ensures x in more <==> x in all || (x == c && kind == w.kind) {}
    hide OfKind;
    if kind == w.kind {
      assert more == all + {c};
    } else {
      assert more == all;
    }
  }

  // ------------------------------------------------------------------
  // The server
  // ------------------------------------------------------------------

  /** What a served client is told. */
  datatype Reply =
    | Popped(client: Client, key: Key, elem: Elem)
    | Moved(client: Client, key: Key, target: Key, elem: Elem)
    | WrongType(client: Client)

  /** What is propagated to the append only file and the replicas: LPOP and RPOP, LMOVE and RPOPLPUSH. */
  datatype Order = PopOf(key: Key, from: End) | MoveOf(key: Key, target: Key, from: End, to: End)

  /** `ready` is server.ready_keys and `signalled` db->ready_keys. */
  datatype State = State(db: map<Key, Value>, clients: map<Client, Wait>, waiting: map<Key, seq<Client>>,
                         byKind: map<Kind, nat>, ready: seq<Key>, signalled: set<Key>,
                         unblocked: seq<Client>, replies: seq<Reply>, propagated: seq<Order>)

  function Get(m: map<Kind, nat>, k: Kind): nat { if k in m then m[k] else 0 }

  function Listed(w: map<Key, seq<Client>>, k: Key): seq<Client> { if k in w then w[k] else [] }

  function Push(elems: seq<Elem>, e: Elem, at: End): seq<Elem> { if at == Head then [e] + elems else elems + [e] }

  function Pop(elems: seq<Elem>, at: End): (r: (Elem, seq<Elem>))
    requires elems != []
    ensures Push(r.1, r.0, at) == elems
  {
    if at == Head then (elems[0], elems[1..]) else (elems[|elems| - 1], elems[..|elems| - 1])
  }

  /** unblockClient. */
  ghost function Unblock(s: State, c: Client): State
    requires c in s.clients
  {
    var w := s.clients[c];
    s.(clients := s.clients - {c}, waiting := Released(s.waiting, c, w.keys),
       byKind := s.byKind[w.kind := if Get(s.byKind, w.kind) == 0 then 0 else Get(s.byKind, w.kind) - 1],
       unblocked := if c in s.unblocked then s.unblocked else s.unblocked + [c])
  }

  /** signalKeyAsReady for a value of the given kind. */
  function Signal(s: State, key: Key, kind: Kind): State {
    if (Get(s.byKind, kind) == 0 && Get(s.byKind, OnModule) == 0) || key !in s.waiting || key in s.signalled then s
    else s.(ready := s.ready + [key], signalled := s.signalled + {key})
  }

  /** lmoveHandlePush: a destination that does not exist is created, and signalled. */
  function PushTo(s: State, key: Key, e: Elem, at: End): State
    requires key in s.db ==> s.db[key].ListOf?
  {
    var t := if key in s.db then s else Signal(s.(db := s.db[key := ListOf([])]), key, OnList);
    t.(db := t.db[key := ListOf(Push(t.db[key].elems, e, at))])
  }

  /** serveClientBlockedOnList: whether it succeeds. */
  predicate CanServe(s: State, w: Wait) {
    w.target.None? || w.target.value !in s.db || s.db[w.target.value].ListOf?
  }

  function Give(s: State, c: Client, key: Key, e: Elem): State
    requires c in s.clients
  {
    var w := s.clients[c];
    if w.target.None? then
      s.(replies := s.replies + [Popped(c, key, e)], propagated := s.propagated + [PopOf(key, w.from)])
    else if CanServe(s, w) then
      var target := w.target.value;
      PushTo(s, target, e, w.to).(replies := s.replies + [Moved(c, key, target, e)],
                                  propagated := s.propagated + [MoveOf(key, target, w.from, w.to)])
    else s.(replies := s.replies + [WrongType(c)])
  }

  /** One turn of the loop for a client that waits for a list: the element is popped, and put back if the client
      cannot be served; the client is unblocked in any case. */
  ghost function ServeClient(s: State, key: Key, c: Client): State
    requires c in s.clients && key in s.db && s.db[key].ListOf? && s.db[key].elems != []
  {
    var w := s.clients[c];
    var (e, rest) := Pop(s.db[key].elems, w.from);
    var popped := s.(db := s.db[key := ListOf(rest)]);
    var given := Give(popped, c, key, e);
    var t := if CanServe(popped, w) then given
             else given.(db := given.db[key := ListOf(Push(rest, e, w.from))]);
    Unblock(t, c)
  }

  function Rotate(s: State, key: Key): State
    requires key in s.waiting && s.waiting[key] != []
  {
    s.(waiting := s.waiting[key := s.waiting[key][1..] + [s.waiting[key][0]]])
  }

  /** The key holds a list and its first waiter is known. */
  predicate Ready(s: State, key: Key) {
    && key in s.db && s.db[key].ListOf?
    && key in s.waiting && s.waiting[key] != [] && s.waiting[key][0] in s.clients
  }

  /** One turn of the loop: a waiter of another kind goes to the tail, and without elements the loop ends. */
  ghost function Turn(s: State, key: Key): Option<State> {
    if !Ready(s, key) then None
    else
      var c := s.waiting[key][0];
      if s.clients[c].kind != OnList then Some(Rotate(s, key))
      else if s.db[key].elems == [] then None
      else Some(ServeClient(s, key, c))
  }

  /** The loop over the clients of a key, with `n` turns left. */
  ghost function ServeLoop(s: State, key: Key, n: nat): State
    decreases n
  {
    if n == 0 || Turn(s, key).None? then s else ServeLoop(Turn(s, key).value, key, n - 1)
  }

  /** serveClientsBlockedOnListKey. */
  ghost function ServeKey(s: State, key: Key): State {
    var t := ServeLoop(s, key, |Listed(s.waiting, key)|);
    if key in t.db && t.db[key] == ListOf([]) then t.(db := t.db - {key}) else t
  }

  /** The inner loop of handleClientsBlockedOnKeys. */
  ghost function Drain(s: State, l: seq<Key>): State
    decreases |l|
  {
    if l == [] then s
    else
      var t := s.(signalled := s.signalled - {l[0]});
      Drain(if l[0] in t.db && t.db[l[0]].ListOf? then ServeKey(t, l[0]) else t, l[1..])
  }

  // ------------------------------------------------------------------
  // Progress: a key is queued only when a client has been served
  // ------------------------------------------------------------------

  /** Clients only leave, and if none left no key was queued. */
  ghost predicate Progress(s: State, t: State) {
    && t.clients.Keys <= s.clients.Keys
    && (t.clients.Keys == s.clients.Keys ==> t.ready == s.ready)
  }

  lemma ServeClientProgress(s: State, key: Key, c: Client)
    requires c in s.clients && key in s.db && s.db[key].ListOf? && s.db[key].elems != []
    ensures ServeClient(s, key, c).clients == s.clients - {c}
  {
    hide Push, Pop, Released;
  }

  lemma TurnProgress(s: State, key: Key)
    requires Turn(s, key).Some?
    ensures Progress(s, Turn(s, key).value)
  {
    var c := s.waiting[key][0];
    hide Released, ServeClient;
    if s.clients[c].kind == OnList { ServeClientProgress(s, key, c); }
  }

  lemma ProgressOn(s: State, t: State, u: State)
    requires Progress(s, t) && Progress(t, u)
    ensures Progress(s, u)
  {}

  lemma {:induction false} ServeLoopProgress(s: State, key: Key, n: nat)
    ensures Progress(s, ServeLoop(s, key, n))
    decreases n
  {
    hide Turn;
    if n > 0 && Turn(s, key).Some? {
      var t := Turn(s, key).value;
      TurnProgress(s, key);
      ServeLoopProgress(t, key, n - 1);
      ProgressOn(s, t, ServeLoop(t, key, n - 1));
    }
  }

  lemma {:induction false} DrainProgress(s: State, l: seq<Key>)
    ensures Progress(s, Drain(s, l))
    decreases |l|
  {
    if l != [] {
      var t := s.(signalled := s.signalled - {l[0]});
      ServeLoopProgress(t, l[0], |Listed(t.waiting, l[0])|);
      hide ServeLoop;
      DrainProgress(if l[0] in t.db && t.db[l[0]].ListOf? then ServeKey(t, l[0]) else t, l[1..]);
    }
  }

  lemma DrainDecreases(s: State)
    requires s.ready != []
    ensures var t := Drain(s.(ready := []), s.ready);
            |t.clients| < |s.clients| || (|t.clients| == |s.clients| && t.ready == [])
  {
    DrainProgress(s.(ready := []), s.ready);
    var t := Drain(s.(ready := []), s.ready);
    SubsetSize(t.clients.Keys, s.clients.Keys);
    assert |t.clients.Keys| == |t.clients| && |s.clients.Keys| == |s.clients|;
  }

  /** handleClientsBlockedOnKeys: the queue is refilled while it is drained, and still it ends. */
  ghost function Handle(s: State): State
    decreases |s.clients|, |s.ready|
  {
    if s.ready == [] then s
    else
      DrainDecreases(s);
      Handle(Drain(s.(ready := []), s.ready))
  }

  // ------------------------------------------------------------------
  // What serving keeps
  // ------------------------------------------------------------------

  ghost predicate Full(db: map<Key, Value>, k: Key) { k in db && db[k].ListOf? && db[k].elems != [] }

  /** `c` waits for a list at `k`. */
  ghost predicate WaitsForList(s: State, k: Key, c: Client) {
    c in Listed(s.waiting, k) && c in s.clients && s.clients[c].kind == OnList
  }

  /** Every list that somebody waits for and that is not empty is queued; the key `but` need not be. */
  ghost predicate QueuedBut(s: State, but: Option<Key>) {
    forall k, c :: Some(k) != but && Full(s.db, k) && WaitsForList(s, k, c) ==> k in s.signalled
  }

  /** No list is empty, but for the one at `but`. */
  ghost predicate NoHollow(db: map<Key, Value>, but: Option<Key>) {
    forall k :: k in db && db[k].ListOf? && Some(k) != but ==> db[k].elems != []
  }

  /** Keys are queued in `ready` or still in `l`. */
  ghost predicate Traced(s: State, l: seq<Key>) { forall k :: k in s.signalled ==> k in s.ready || k in l }

  ghost predicate Sound(s: State, but: Option<Key>, l: seq<Key>) {
    && Index(s.clients, s.waiting) && Counted(s.clients, s.byKind)
    && QueuedBut(s, but) && NoHollow(s.db, but) && Traced(s, l)
  }

  lemma ReleasedHead(s: State, key: Key)
    requires Index(s.clients, s.waiting) && key in s.waiting
    ensures var c := s.waiting[key][0];
            c in s.clients && Listed(Released(s.waiting, c, s.clients[c].keys), key) == s.waiting[key][1..]
  {
    hide NoRepeats;
    assert s.waiting[key][0] in s.waiting[key];
  }

  lemma ReleasedSub(w: map<Key, seq<Client>>, c: Client, keys: set<Key>, k: Key, d: Client)
    requires k in w ==> NoRepeats(w[k])
    requires d in Listed(Released(w, c, keys), k)
    ensures d in Listed(w, k)
  {
    WithoutHas(w[k], c, d);
  }

  lemma PushToShape(s: State, key: Key, e: Elem, at: End)
    requires key in s.db ==> s.db[key].ListOf?
    ensures var t := PushTo(s, key, e, at);
            && Full(t.db, key) && t.db == s.db[key := t.db[key]]
            && t.clients == s.clients && t.waiting == s.waiting && t.byKind == s.byKind && t.replies == s.replies
            && t.propagated == s.propagated
            && ((t.ready == s.ready && t.signalled == s.signalled) ||
                (t.ready == s.ready + [key] && t.signalled == s.signalled + {key}))
            && (key !in s.db && Get(s.byKind, OnList) > 0 && key in s.waiting ==> key in t.signalled)
  {}

  /** Creating the destination signals it if anybody waits there. */
  lemma PushToKeeps(s: State, but: Option<Key>, l: seq<Key>, key: Key, e: Elem, at: End)
    requires Sound(s, but, l) && (key in s.db ==> s.db[key].ListOf?)
    ensures Sound(PushTo(s, key, e, at), but, l)
  {
    var t := PushTo(s, key, e, at);
    PushToShape(s, key, e, at);
    hide Index, OfKind, PushTo;
    forall k, c | Some(k) != but && Full(t.db, k) && WaitsForList(t, k, c) ensures k in t.signalled {
      assert WaitsForList(s, k, c);
      SomeForList(s, k, c);
      if k in s.db { assert Full(s.db, k); }
    }
    hide Counted;
  }

  lemma SomeForList(s: State, k: Key, c: Client)
    requires Counted(s.clients, s.byKind) && WaitsForList(s, k, c)
    ensures Get(s.byKind, OnList) > 0
  {
    assert c in OfKind(s.clients, OnList);
  }

  lemma UnblockKeeps(s: State, but: Option<Key>, l: seq<Key>, c: Client)
    requires Sound(s, but, l) && c in s.clients
    ensures Sound(Unblock(s, c), but, l)
  {
    var t, keys := Unblock(s, c), s.clients[c].keys;
    ReleaseKeeps(s.clients, s.waiting, c);
    CountedLess(s.clients, s.byKind, c);
    forall k, d | Some(k) != but && Full(t.db, k) && WaitsForList(t, k, d) ensures k in t.signalled {
      ReleasedSub(s.waiting, c, keys, k, d);
      assert WaitsForList(s, k, d);
    }
    hide Index, Counted, Released;
  }

  /** The list at the exempt key may change at will. */
  lemma Exempt(s: State, key: Key, l: seq<Key>, v: Value)
    requires Sound(s, Some(key), l)
    ensures Sound(s.(db := s.db[key := v]), Some(key), l)
  {
    hide Index, Counted;
    var t := s.(db := s.db[key := v]);
    forall k, c | k != key && Full(t.db, k) && WaitsForList(t, k, c) ensures k in t.signalled {
      assert Full(s.db, k) && WaitsForList(s, k, c);
    }
  }

  /** Replies and what is propagated are not looked at. */
  lemma Told(s: State, but: Option<Key>, l: seq<Key>, rs: seq<Reply>, os: seq<Order>)
    requires Sound(s, but, l)
    ensures Sound(s.(replies := rs, propagated := os), but, l)
  {
    var t := s.(replies := rs, propagated := os);
    hide Index, Counted;
    forall k, c | Some(k) != but && Full(t.db, k) && WaitsForList(t, k, c) ensures k in t.signalled {
      assert WaitsForList(s, k, c);
    }
  }

  lemma ServeClientKeeps(s: State, key: Key, c: Client, l: seq<Key>)
    requires c in s.clients && key in s.db && s.db[key].ListOf? && s.db[key].elems != []
    requires Sound(s, Some(key), l) && s.clients[c].kind == OnList
    ensures var t := ServeClient(s, key, c); Sound(t, Some(key), l) && key in t.db && t.db[key].ListOf?
  {
    var w := s.clients[c];
    var (e, rest) := Pop(s.db[key].elems, w.from);
    var popped := s.(db := s.db[key := ListOf(rest)]);
    var given := Give(popped, c, key, e);
    hide Sound, Released, Signal, Push, Pop;
    Exempt(s, key, l, ListOf(rest));
    if CanServe(popped, w) {
      if w.target.Some? {
        var pushed := PushTo(popped, w.target.value, e, w.to);
        PushToKeeps(popped, Some(key), l, w.target.value, e, w.to);
        PushToShape(popped, w.target.value, e, w.to);
        hide PushTo;
        Told(pushed, Some(key), l, given.replies, given.propagated);
      } else {
        Told(popped, Some(key), l, given.replies, given.propagated);
      }
      UnblockKeeps(given, Some(key), l, c);
    } else {
      Told(popped, Some(key), l, given.replies, given.propagated);
      Exempt(given, key, l, ListOf(Push(rest, e, w.from)));
      UnblockKeeps(given.(db := given.db[key := ListOf(Push(rest, e, w.from))]), Some(key), l, c);
    }
  }

  lemma {:induction false} NoRepeatsSnoc(ws: seq<Client>, c: Client)
    requires NoRepeats(ws) && c !in ws
    ensures NoRepeats(ws + [c])
  {
    if ws != [] {
      NoRepeatsSnoc(ws[1..], c);
      assert (ws + [c])[1..] == ws[1..] + [c];
    }
  }

  lemma RotateKeeps(s: State, key: Key, but: Option<Key>, l: seq<Key>)
    requires Sound(s, but, l) && key in s.waiting
    ensures Sound(Rotate(s, key), but, l)
  {
    var ws, t := s.waiting[key], Rotate(s, key);
    NoRepeatsSnoc(ws[1..], ws[0]);
    assert ws == [ws[0]] + ws[1..];
    hide NoRepeats, Counted;
    assert forall k, c :: c in Listed(t.waiting, k) <==> c in Listed(s.waiting, k);
    forall k, c | Some(k) != but && Full(t.db, k) && WaitsForList(t, k, c) ensures k in t.signalled {
      assert WaitsForList(s, k, c);
    }
  }

  /** The waiters from position `n` on do not wait for a list. */
  ghost predicate Passed(s: State, key: Key, n: nat) {
    var ws := Listed(s.waiting, key);
    forall i :: n <= i < |ws| ==> ws[i] in s.clients && s.clients[ws[i]].kind != OnList
  }

  lemma ServeClientTail(s: State, key: Key)
    requires Index(s.clients, s.waiting) && key in s.waiting
    requires key in s.db && s.db[key].ListOf? && s.db[key].elems != []
    ensures var c := s.waiting[key][0];
            && c in s.clients && Listed(ServeClient(s, key, c).waiting, key) == s.waiting[key][1..]
            && c !in s.waiting[key][1..]
  {
    var c := s.waiting[key][0];
    ReleasedHead(s, key);
    var w := s.clients[c];
    var (e, rest) := Pop(s.db[key].elems, w.from);
    var popped := s.(db := s.db[key := ListOf(rest)]);
    if w.target.Some? && CanServe(popped, w) { PushToShape(popped, w.target.value, e, w.to); }
    hide Released, PushTo, Push, Pop, Index;
  }

  lemma RotatePassed(s: State, key: Key, n: nat)
    requires key in s.waiting && 0 < n <= |s.waiting[key]| && Passed(s, key, n)
    requires s.waiting[key][0] in s.clients && s.clients[s.waiting[key][0]].kind != OnList
    ensures Passed(Rotate(s, key), key, n - 1) && |Listed(Rotate(s, key).waiting, key)| == |s.waiting[key]|
  {
    var ws, rotated := Listed(s.waiting, key), s.waiting[key][1..] + [s.waiting[key][0]];
    forall i | n - 1 <= i < |ws| ensures rotated[i] in s.clients && s.clients[rotated[i]].kind != OnList {
      if i + 1 < |ws| { assert rotated[i] == ws[i + 1]; }
    }
  }

  lemma ServePassed(s: State, t: State, key: Key, n: nat)
    requires key in s.waiting && 0 < n <= |s.waiting[key]| && Passed(s, key, n)
    requires t.clients == s.clients - {s.waiting[key][0]} && Listed(t.waiting, key) == s.waiting[key][1..]
    requires s.waiting[key][0] !in s.waiting[key][1..]
    ensures Passed(t, key, n - 1)
  {
    var ws := Listed(s.waiting, key);
    forall i | n - 1 <= i < |ws| - 1 ensures ws[1..][i] in t.clients && t.clients[ws[1..][i]].kind != OnList {
      assert ws[1..][i] == ws[i + 1] && ws[i + 1] in ws[1..];
    }
  }

  lemma FirstKnown(s: State, key: Key)
    requires Index(s.clients, s.waiting) && key in s.db && s.db[key].ListOf? && Listed(s.waiting, key) != []
    ensures Ready(s, key)
  {
    assert s.waiting[key][0] in s.waiting[key];
  }

  /** What holds before each turn of the loop: `n` waiters are still to come. */
  ghost predicate Turning(s: State, key: Key, n: nat, l: seq<Key>) {
    Sound(s, Some(key), l) && key in s.db && s.db[key].ListOf? && n <= |Listed(s.waiting, key)| && Passed(s, key, n)
  }

  lemma RotateTurning(s: State, key: Key, n: nat, l: seq<Key>)
    requires Turning(s, key, n, l) && n > 0 && Ready(s, key) && s.clients[s.waiting[key][0]].kind != OnList
    ensures Turning(Rotate(s, key), key, n - 1, l)
  {
    hide Sound, Passed;
    RotateKeeps(s, key, Some(key), l);
    RotatePassed(s, key, n);
  }

  lemma ServeTurning(s: State, key: Key, n: nat, l: seq<Key>)
    requires Turning(s, key, n, l) && n > 0 && Ready(s, key) && s.clients[s.waiting[key][0]].kind == OnList
    requires s.db[key].elems != []
    ensures Turning(ServeClient(s, key, s.waiting[key][0]), key, n - 1, l)
  {
    var c := s.waiting[key][0];
    assert Index(s.clients, s.waiting);
    hide Sound, Passed, Index, ServeClient;
    ServeClientKeeps(s, key, c, l);
    ServeClientTail(s, key);
    ServeClientProgress(s, key, c);
    ServePassed(s, ServeClient(s, key, c), key, n);
  }

  /** A turn serves or passes over one waiter; without one the list has run out. */
  lemma TurnSound(s: State, key: Key, n: nat, l: seq<Key>)
    requires Turning(s, key, n, l) && n > 0
    ensures Turn(s, key).Some? ==> Turning(Turn(s, key).value, key, n - 1, l)
    ensures Turn(s, key).None? ==> s.db[key].elems == []
  {
    FirstKnown(s, key);
    hide Sound, Turning, Passed, Rotate, ServeClient;
    if s.clients[s.waiting[key][0]].kind != OnList {
      RotateTurning(s, key, n, l);
    } else if s.db[key].elems != [] {
      ServeTurning(s, key, n, l);
    }
  }

  lemma {:induction false} ServeLoopTurning(s: State, key: Key, n: nat, l: seq<Key>) returns (m: nat)
    requires Turning(s, key, n, l)
    ensures var t := ServeLoop(s, key, n); Turning(t, key, m, l) && (t.db[key].elems == [] || m == 0)
    decreases n
  {
    hide Turn;
    m := n;
    if n > 0 {
      TurnSound(s, key, n, l);
      hide Turning;
      if Turn(s, key).Some? { m := ServeLoopTurning(Turn(s, key).value, key, n - 1, l); }
    }
  }

  lemma ServeLoopKeeps(s: State, key: Key, n: nat, l: seq<Key>)
    requires Sound(s, Some(key), l) && key in s.db && s.db[key].ListOf?
    requires n <= |Listed(s.waiting, key)| && Passed(s, key, n)
    ensures var t := ServeLoop(s, key, n);
            Sound(t, Some(key), l) && key in t.db && t.db[key].ListOf? && (t.db[key].elems == [] || Passed(t, key, 0))
  {
    hide ServeLoop, Sound, Passed;
    var m := ServeLoopTurning(s, key, n, l);
  }

  lemma ServeKeyKeeps(s: State, key: Key, l: seq<Key>)
    requires Sound(s, Some(key), l) && key in s.db && s.db[key].ListOf?
    ensures Sound(ServeKey(s, key), None, l)
  {
    var n := |Listed(s.waiting, key)|;
    ServeLoopKeeps(s, key, n, l);
    var t, u := ServeLoop(s, key, n), ServeKey(s, key);
    hide ServeLoop, Index, Counted;
    forall k, c | Full(u.db, k) && WaitsForList(u, k, c) ensures k in u.signalled {
      assert Full(t.db, k) && WaitsForList(t, k, c);
    }
  }

  lemma {:induction false} DrainKeeps(s: State, l: seq<Key>)
    requires Sound(s, None, l)
    ensures Sound(Drain(s, l), None, [])
    decreases |l|
  {
    if l != [] {
      var key := l[0];
      var t := s.(signalled := s.signalled - {key});
      var u := if key in t.db && t.db[key].ListOf? then ServeKey(t, key) else t;
      assert Sound(t, Some(key), l[1..]) by { Unqueued(s, l); }
      if key in t.db && t.db[key].ListOf? {
        ServeKeyKeeps(t, key, l[1..]);
      } else {
        NotAList(t, key, l[1..]);
      }
      hide Sound, ServeKey;
      DrainKeeps(u, l[1..]);
    }
  }

  lemma Unqueued(s: State, l: seq<Key>)
    requires Sound(s, None, l) && l != []
    ensures Sound(s.(signalled := s.signalled - {l[0]}), Some(l[0]), l[1..])
  {
    var t := s.(signalled := s.signalled - {l[0]});
    hide Index, Counted;
    assert l == [l[0]] + l[1..];
    forall k, c | k != l[0] && Full(t.db, k) && WaitsForList(t, k, c) ensures k in t.signalled {
      assert WaitsForList(s, k, c);
    }
  }

  lemma NotAList(s: State, key: Key, l: seq<Key>)
    requires Sound(s, Some(key), l) && !(key in s.db && s.db[key].ListOf?)
    ensures Sound(s, None, l)
  {
    hide Index, Counted;
    forall k, c | Full(s.db, k) && WaitsForList(s, k, c) ensures k in s.signalled {
      assert k != key;
    }
  }

  /** The whole handler: the index and the counters stay right, and nobody is left waiting for a list that has
      elements. */
  lemma {:induction false} HandleKeeps(s: State)
    requires Sound(s, None, [])
    ensures var t := Handle(s);
            && Sound(t, None, []) && t.ready == []
            && forall k, c :: Full(t.db, k) ==> !WaitsForList(t, k, c)
    decreases |s.clients|, |s.ready|
  {
    if s.ready != [] {
      var t := s.(ready := []);
      assert Sound(t, None, s.ready) by { Taken(s); }
      DrainKeeps(t, s.ready);
      DrainDecreases(s);
      hide Sound, Drain;
      HandleKeeps(Drain(t, s.ready));
    } else {
      assert s.signalled == {};
    }
  }

  lemma Taken(s: State)
    requires Sound(s, None, [])
    ensures Sound(s.(ready := []), None, s.ready)
  {
    hide Index, Counted;
    var t := s.(ready := []);
    forall k, c | Full(t.db, k) && WaitsForList(t, k, c) ensures k in t.signalled {
      assert WaitsForList(s, k, c);
    }
  }

  // ------------------------------------------------------------------
  // Blocking
  // ------------------------------------------------------------------

  /** The lists of waiters once `c` is put at the end of those of `keys`. */
  ghost function Queue(waiting: map<Key, seq<Client>>, c: Client, keys: set<Key>): map<Key, seq<Client>> {
    map k | k in waiting.Keys + keys :: if k in keys then Listed(waiting, k) + [c] else waiting[k]
  }

  /** blockForKeys. */
  ghost function Block(s: State, c: Client, w: Wait): State {
    s.(clients := s.clients[c := w], waiting := Queue(s.waiting, c, w.keys),
       byKind := s.byKind[w.kind := Get(s.byKind, w.kind) + 1])
  }

  lemma QueueKeeps(clients: map<Client, Wait>, waiting: map<Key, seq<Client>>, c: Client, w: Wait)
    requires Index(clients, waiting) && c !in clients && w.keys != {}
    ensures Index(clients[c := w], Queue(waiting, c, w.keys))
  {
    var waiting' := Queue(waiting, c, w.keys);
    forall k | k in waiting' ensures NoRepeats(waiting'[k]) {
      if k in w.keys { NoRepeatsSnoc(Listed(waiting, k), c); }
    }
    hide NoRepeats;
  }

  /** A client may block for a list only where there is no element. */
  lemma BlockKeeps(s: State, c: Client, w: Wait, l: seq<Key>)
    requires Sound(s, None, l) && c !in s.clients && w.keys != {}
    requires w.kind == OnList ==> forall k :: k in w.keys ==> !Full(s.db, k)
    ensures Sound(Block(s, c, w), None, l)
  {
    var t := Block(s, c, w);
    QueueKeeps(s.clients, s.waiting, c, w);
    CountedMore(s.clients, s.byKind, c, w);
    forall k, d | Full(t.db, k) && WaitsForList(t, k, d) ensures k in t.signalled {
      if d != c { assert WaitsForList(s, k, d); }
    }
    hide Index, Counted;
  }
}
