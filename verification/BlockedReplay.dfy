/** What a served client gets, and what the commands that are propagated for it do elsewhere. */
module BlockedReplay {
  import opened Common
  import opened Blocked
  import opened BlockedFair

  // ------------------------------------------------------------------
  // One client
  // ------------------------------------------------------------------

  ghost function ElemAt(elems: seq<Elem>, at: End): Elem
    requires elems != []
  {
    if at == Head then elems[0] else elems[|elems| - 1]
  }

  ghost function RestAt(elems: seq<Elem>, at: End): seq<Elem>
    requires elems != []
  {
    if at == Head then elems[1..] else elems[..|elems| - 1]
  }

  ghost function Added(elems: seq<Elem>, e: Elem, at: End): seq<Elem> {
    if at == Head then [e] + elems else elems + [e]
  }

  /** The list at a key; a missing one is empty. */
  ghost function ElemsAt(db: map<Key, Value>, k: Key): seq<Elem> {
    if k in db && db[k].ListOf? then db[k].elems else []
  }

  /** A client gets the element of the end that it asked for, and its key and destination are named in the reply. BLMOVE
      adds the element at the end of the destination that it asked for, which may be the same list. If the destination
      is no list, nothing changes. */
  lemma ServedAsAsked(s: State, key: Key, c: Client)
    requires c in s.clients && key in s.db && s.db[key].ListOf? && s.db[key].elems != []
    ensures var w, elems, t := s.clients[c], s.db[key].elems, ServeClient(s, key, c);
            var e, popped := ElemAt(elems, w.from), s.db[key := ListOf(RestAt(elems, w.from))];
            match w.target
            case None =>
              && t.db == popped && t.replies == s.replies + [Popped(c, key, e)]
              && t.propagated == s.propagated + [PopOf(key, w.from)]
            case Some(d) =>
              if d in s.db && !s.db[d].ListOf?
              then t.db == s.db && t.replies == s.replies + [WrongType(c)] && t.propagated == s.propagated
              else
                && t.db == popped[d := ListOf(Added(ElemsAt(popped, d), e, w.to))]
                && t.replies == s.replies + [Moved(c, key, d, e)]
                && t.propagated == s.propagated + [MoveOf(key, d, w.from, w.to)]
  {
    var w, elems := s.clients[c], s.db[key].elems;
    var (e, rest) := Pop(elems, w.from);
    var popped := s.(db := s.db[key := ListOf(rest)]);
    assert e == ElemAt(elems, w.from) && rest == RestAt(elems, w.from);
    if w.target.Some? {
      if CanServe(popped, w) {
        PushedTo(popped, w.target.value, e, w.to);
      } else {
        assert popped.db[key := ListOf(elems)] == s.db;
      }
    }
    hide Released, PushTo, Pop, ElemAt, RestAt;
  }

  lemma PushedTo(s: State, d: Key, e: Elem, at: End)
    requires d in s.db ==> s.db[d].ListOf?
    ensures var t := PushTo(s, d, e, at);
            t.db == s.db[d := ListOf(Added(ElemsAt(s.db, d), e, at))] && t.clients == s.clients
            && t.replies == s.replies && t.propagated == s.propagated
  {
    PushToShape(s, d, e, at);
  }

  // ------------------------------------------------------------------
  // What the commands do elsewhere
  // ------------------------------------------------------------------

  /** A list that has become empty is deleted. */
  ghost function Stores(db: map<Key, Value>, k: Key, elems: seq<Elem>): map<Key, Value> {
    if elems == [] then db - {k} else db[k := ListOf(elems)]
  }

  /** LPOP, RPOP, LMOVE and RPOPLPUSH, as a replica or the loader of the append only file runs them. */
  ghost function Execute(db: map<Key, Value>, o: Order): map<Key, Value> {
    var elems := ElemsAt(db, o.key);
    if elems == [] then db
    else match o
      case PopOf(k, from) => Stores(db, k, RestAt(elems, from))
      case MoveOf(k, d, from, to) =>
        if d in db && !db[d].ListOf? then db
        else
          var popped := Stores(db, k, RestAt(elems, from));
          Stores(popped, d, Added(ElemsAt(popped, d), ElemAt(elems, from), to))
  }

  ghost function ExecuteAll(db: map<Key, Value>, os: seq<Order>): map<Key, Value> {
    if os == [] then db else Execute(ExecuteAll(db, os[..|os| - 1]), os[|os| - 1])
  }

  /** What a client can see: a list that has just become empty is as good as deleted. */
  ghost function Visible(db: map<Key, Value>): map<Key, Value> { map k | k in db && db[k] != ListOf([]) :: db[k] }

  lemma VisibleStores(db: map<Key, Value>, k: Key, elems: seq<Elem>)
    ensures Visible(db[k := ListOf(elems)]) == Stores(Visible(db), k, elems)
    ensures ElemsAt(Visible(db), k) == ElemsAt(db, k)
    ensures (k in Visible(db) && !Visible(db)[k].ListOf?) <==> (k in db && !db[k].ListOf?)
  {}

  /** Elsewhere the same lists are left, client by client. */
  lemma ClientReplays(s: State, key: Key, c: Client)
    requires c in s.clients && key in s.db && s.db[key].ListOf? && s.db[key].elems != []
    ensures var t := ServeClient(s, key, c);
            && s.propagated <= t.propagated
            && Visible(t.db) == ExecuteAll(Visible(s.db), t.propagated[|s.propagated|..])
  {
    ServedAsAsked(s, key, c);
    var w, elems, t := s.clients[c], s.db[key].elems, ServeClient(s, key, c);
    var rest := RestAt(elems, w.from);
    var popped := s.db[key := ListOf(rest)];
    VisibleStores(s.db, key, rest);
    var os := t.propagated[|s.propagated|..];
    hide ServeClient, Visible, Stores;
    if w.target.None? {
      assert os == [PopOf(key, w.from)];
      OneOrder(Visible(s.db), os[0]);
    } else if CanServe(s, w) {
      var d := w.target.value;
      assert os == [MoveOf(key, d, w.from, w.to)];
      OneOrder(Visible(s.db), os[0]);
      VisibleStores(s.db, d, rest);
      VisibleStores(popped, d, Added(ElemsAt(popped, d), ElemAt(elems, w.from), w.to));
    } else {
      assert os == [];
    }
  }

  lemma OneOrder(db: map<Key, Value>, o: Order)
    ensures ExecuteAll(db, [o]) == Execute(db, o)
  {
    assert [o][..0] == [];
    assert ExecuteAll(db, []) == db;
  }

  // ------------------------------------------------------------------
  // The whole handler
  // ------------------------------------------------------------------

  /** Running what was propagated from `s` to `t` on the lists of `s` gives those of `t`. */
  ghost predicate Replays(s: State, t: State) {
    && s.propagated <= t.propagated
    && Visible(t.db) == ExecuteAll(Visible(s.db), t.propagated[|s.propagated|..])
  }

  lemma {:induction false} ExecuteConcat(db: map<Key, Value>, a: seq<Order>, b: seq<Order>)
    ensures ExecuteAll(db, a + b) == ExecuteAll(ExecuteAll(db, a), b)
    decreases |b|
  {
    hide Execute;
    if b == [] {
      assert a + b == a;
    } else {
      var init := b[..|b| - 1];
      assert (a + b)[..|a + b| - 1] == a + init;
      ExecuteConcat(db, a, init);
    }
  }

  lemma ReplaysOn(s: State, t: State, u: State)
    requires Replays(s, t) && Replays(t, u)
    ensures Replays(s, u)
  {
    hide Visible, ExecuteAll;
    var a, b := t.propagated[|s.propagated|..], u.propagated[|t.propagated|..];
    assert u.propagated[|s.propagated|..] == a + b;
    ExecuteConcat(Visible(s.db), a, b);
  }

  lemma ReplaysSame(s: State, t: State)
    requires Visible(t.db) == Visible(s.db) && t.propagated == s.propagated
    ensures Replays(s, t)
  {
    assert t.propagated[|s.propagated|..] == [];
  }

  lemma TurnReplays(s: State, key: Key)
    requires Turn(s, key).Some?
    ensures Replays(s, Turn(s, key).value)
  {
    hide ServeClient, Visible, ExecuteAll;
    var c := s.waiting[key][0];
    if s.clients[c].kind == OnList { ClientReplays(s, key, c); } else { ReplaysSame(s, Rotate(s, key)); }
  }

  lemma {:induction false} LoopReplays(s: State, key: Key, n: nat)
    ensures Replays(s, ServeLoop(s, key, n))
    decreases n
  {
    hide Replays, Turn;
    if n > 0 && Turn(s, key).Some? {
      TurnReplays(s, key);
      LoopReplays(Turn(s, key).value, key, n - 1);
      ReplaysOn(s, Turn(s, key).value, ServeLoop(s, key, n));
    } else {
      ReplaysSame(s, s);
    }
  }

  lemma KeyReplays(s: State, key: Key)
    ensures Replays(s, ServeKey(s, key))
  {
    var t := ServeLoop(s, key, |Listed(s.waiting, key)|);
    LoopReplays(s, key, |Listed(s.waiting, key)|);
    assert key in t.db && t.db[key] == ListOf([]) ==> Visible(t.db - {key}) == Visible(t.db);
    hide Replays, ServeLoop, Visible;
    ReplaysSame(t, ServeKey(s, key));
    ReplaysOn(s, t, ServeKey(s, key));
  }

  lemma {:induction false} DrainReplays(s: State, l: seq<Key>)
    ensures Replays(s, Drain(s, l))
    decreases |l|
  {
    hide Replays, ServeKey;
    if l == [] {
      ReplaysSame(s, s);
    } else {
      var t := s.(signalled := s.signalled - {l[0]});
      var u := if l[0] in t.db && t.db[l[0]].ListOf? then ServeKey(t, l[0]) else t;
      ReplaysSame(s, t);
      ReplaysSame(t, t);
      KeyReplays(t, l[0]);
      ReplaysOn(s, t, u);
      DrainReplays(u, l[1..]);
      ReplaysOn(s, u, Drain(s, l));
    }
  }

  /** A replica that runs what is propagated, and a server that loads it, have the lists that the handler leaves: the
      same elements in the same order at every key, however many clients it serves, undoes, or wakes on its way. */
  lemma {:induction false} HandleReplays(s: State)
    ensures Replays(s, Handle(s))
    decreases |s.clients|, |s.ready|
  {
    hide Replays, Drain;
    if s.ready == [] {
      ReplaysSame(s, s);
    } else {
      var t := s.(ready := []);
      DrainDecreases(s);
      ReplaysSame(s, t);
      DrainReplays(t, s.ready);
      ReplaysOn(s, t, Drain(t, s.ready));
      HandleReplays(Drain(t, s.ready));
      ReplaysOn(s, Drain(t, s.ready), Handle(s));
    }
  }

  // ------------------------------------------------------------------
  // Clients that all take from the head
  // ------------------------------------------------------------------

  /** Those of `ws` that wait for a list use BLPOP. */
  ghost predicate FromHead(clients: map<Client, Wait>, ws: seq<Client>) {
    forall c :: c in ws && c in clients && clients[c].kind == OnList ==>
      clients[c].target == None && clients[c].from == Head
  }

  /** The elements that were replied. */
  ghost function Given(rs: seq<Reply>): seq<Elem> {
    if rs == [] then [] else (if rs[0].WrongType? then [] else [rs[0].elem]) + Given(rs[1..])
  }

  lemma {:induction false} GivenConcat(a: seq<Reply>, b: seq<Reply>)
    ensures Given(a + b) == Given(a) + Given(b)
  {
    if a == [] {
      assert a + b == b;
    } else {
      assert (a + b)[0] == a[0] && (a + b)[1..] == a[1..] + b;
      GivenConcat(a[1..], b);
    }
  }

  /** From `s` to `t` elements were given away from the head of the list, in order. */
  ghost predicate TakesPrefix(s: State, t: State, key: Key) {
    && s.replies <= t.replies && key in t.db && t.db[key].ListOf?
    && Given(t.replies[|s.replies|..]) + ElemsAt(t.db, key) == ElemsAt(s.db, key)
  }

  lemma TakesOn(s: State, t: State, u: State, key: Key)
    requires TakesPrefix(s, t, key) && TakesPrefix(t, u, key)
    ensures TakesPrefix(s, u, key)
  {
    var a, b := t.replies[|s.replies|..], u.replies[|t.replies|..];
    assert u.replies[|s.replies|..] == a + b;
    GivenConcat(a, b);
    assert Given(a) + (Given(b) + ElemsAt(u.db, key)) == Given(a) + Given(b) + ElemsAt(u.db, key);
  }

  lemma ClientTakes(s: State, key: Key, c: Client)
    requires c in s.clients && key in s.db && s.db[key].ListOf? && s.db[key].elems != []
    requires s.clients[c].target == None && s.clients[c].from == Head
    ensures TakesPrefix(s, ServeClient(s, key, c), key)
  {
    ServedAsAsked(s, key, c);
    var t, elems := ServeClient(s, key, c), s.db[key].elems;
    hide ServeClient;
    assert t.replies[|s.replies|..] == [Popped(c, key, elems[0])];
    assert Given(t.replies[|s.replies|..]) == [elems[0]];
  }

  lemma TurnTakes(s: State, key: Key)
    requires Index(s.clients, s.waiting) && Turn(s, key).Some? && FromHead(s.clients, Listed(s.waiting, key))
    ensures var t := Turn(s, key).value;
            TakesPrefix(s, t, key) && Index(t.clients, t.waiting) && FromHead(t.clients, Listed(t.waiting, key))
  {
    var c := s.waiting[key][0];
    if s.clients[c].kind == OnList {
      ClientTakes(s, key, c);
      ServeClientTail(s, key);
      ServeClientProgress(s, key, c);
      IndexKept(s, key, c);
      hide ServeClient, Index, TakesPrefix;
    } else {
      RotatesIndex(s, key);
      hide Index;
      assert s.replies[|s.replies|..] == [];
      assert [] + s.db[key].elems == s.db[key].elems;
    }
  }

  lemma IndexKept(s: State, key: Key, c: Client)
    requires Index(s.clients, s.waiting) && c in s.clients && key in s.db && s.db[key].ListOf? && s.db[key].elems != []
    ensures var t := ServeClient(s, key, c); t.clients == s.clients - {c} && Index(t.clients, t.waiting)
  {
    ReleaseKeeps(s.clients, s.waiting, c);
    var w := s.clients[c];
    var (e, rest) := Pop(s.db[key].elems, w.from);
    var popped := s.(db := s.db[key := ListOf(rest)]);
    if w.target.Some? && CanServe(popped, w) { PushToShape(popped, w.target.value, e, w.to); }
    hide Released, PushTo, Push, Pop, Index;
  }

  lemma RotatesIndex(s: State, key: Key)
    requires Index(s.clients, s.waiting) && key in s.waiting && s.waiting[key] != []
    ensures Index(s.clients, Rotate(s, key).waiting)
    ensures forall c :: c in Listed(Rotate(s, key).waiting, key) <==> c in Listed(s.waiting, key)
  {
    var ws, t := s.waiting[key], Rotate(s, key);
    NoRepeatsSnoc(ws[1..], ws[0]);
    assert ws == [ws[0]] + ws[1..];
    hide NoRepeats;
    assert forall k, c :: c in Listed(t.waiting, k) <==> c in Listed(s.waiting, k);
  }

  /** When all who wait for the list use BLPOP, a pass gives its first elements away in order and leaves the others. */
  lemma {:induction false} LoopTakes(s: State, key: Key, n: nat)
    requires Index(s.clients, s.waiting) && FromHead(s.clients, Listed(s.waiting, key))
    requires key in s.db && s.db[key].ListOf?
    ensures TakesPrefix(s, ServeLoop(s, key, n), key)
    decreases n
  {
    hide Turn, Index, FromHead;
    if n > 0 && Turn(s, key).Some? {
      TurnTakes(s, key);
      LoopTakes(Turn(s, key).value, key, n - 1);
      hide TakesPrefix;
      TakesOn(s, Turn(s, key).value, ServeLoop(s, key, n), key);
    } else {
      assert s.replies[|s.replies|..] == [];
      assert [] + ElemsAt(s.db, key) == ElemsAt(s.db, key);
    }
  }

  lemma KeyTakes(s: State, key: Key)
    requires Index(s.clients, s.waiting) && FromHead(s.clients, Listed(s.waiting, key))
    requires key in s.db && s.db[key].ListOf?
    ensures var t := ServeKey(s, key);
            s.replies <= t.replies && Given(t.replies[|s.replies|..]) + ElemsAt(t.db, key) == s.db[key].elems
  {
    LoopTakes(s, key, |Listed(s.waiting, key)|);
    hide ServeLoop, Index, FromHead, Given;
  }

  // ------------------------------------------------------------------
  // Clients that are served go on
  // ------------------------------------------------------------------

  /** Clients are only taken away, and those who are gone are in the list of clients to be processed again. */
  ghost predicate Frees(s: State, t: State) {
    && s.unblocked <= t.unblocked && t.clients.Keys <= s.clients.Keys
    && forall c :: c in s.clients && c !in t.clients ==> c in t.unblocked
  }

  lemma FreesOn(s: State, t: State, u: State)
    requires Frees(s, t) && Frees(t, u)
    ensures Frees(s, u)
  {
    assert forall c :: c in t.unblocked ==> c in u.unblocked;
  }

  lemma TurnFrees(s: State, key: Key)
    requires Turn(s, key).Some?
    ensures Frees(s, Turn(s, key).value)
  {
    var c := s.waiting[key][0];
    if s.clients[c].kind == OnList {
      var w := s.clients[c];
      var (e, rest) := Pop(s.db[key].elems, w.from);
      var popped := s.(db := s.db[key := ListOf(rest)]);
      if w.target.Some? && CanServe(popped, w) { PushedFrees(popped, w.target.value, e, w.to); }
      hide Released, PushTo, Push, Pop;
    }
  }

  lemma PushedFrees(s: State, d: Key, e: Elem, at: End)
    requires d in s.db ==> s.db[d].ListOf?
    ensures PushTo(s, d, e, at).clients == s.clients && PushTo(s, d, e, at).unblocked == s.unblocked
  {}

  lemma {:induction false} LoopFrees(s: State, key: Key, n: nat)
    ensures Frees(s, ServeLoop(s, key, n))
    decreases n
  {
    hide Turn;
    if n > 0 && Turn(s, key).Some? {
      TurnFrees(s, key);
      LoopFrees(Turn(s, key).value, key, n - 1);
      hide Frees;
      FreesOn(s, Turn(s, key).value, ServeLoop(s, key, n));
    }
  }

  lemma {:induction false} DrainFrees(s: State, l: seq<Key>)
    ensures Frees(s, Drain(s, l))
    decreases |l|
  {
    hide ServeLoop;
    if l != [] {
      var t := s.(signalled := s.signalled - {l[0]});
      var u := if l[0] in t.db && t.db[l[0]].ListOf? then ServeKey(t, l[0]) else t;
      LoopFrees(t, l[0], |Listed(t.waiting, l[0])|);
      assert Frees(s, u);
      hide ServeKey, Frees;
      DrainFrees(u, l[1..]);
      FreesOn(s, u, Drain(s, l));
    }
  }

  /** Whoever the handler unblocks will be processed again. */
  lemma {:induction false} HandleFrees(s: State)
    ensures Frees(s, Handle(s))
    decreases |s.clients|, |s.ready|
  {
    if s.ready != [] {
      var t := s.(ready := []);
      DrainDecreases(s);
      DrainFrees(t, s.ready);
      assert Frees(s, Drain(t, s.ready));
      hide Drain, Frees;
      HandleFrees(Drain(t, s.ready));
      FreesOn(s, Drain(t, s.ready), Handle(s));
    }
  }
}
