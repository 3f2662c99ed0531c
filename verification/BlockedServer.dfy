/** blocked.c as it runs: the dictionaries, lists and counters that its loops update in place. */
module BlockedServer {
  import opened Common
  import opened Blocked
  import opened BlockedOrder

  class Server {
    var db: map<Key, Value>
    var clients: map<Client, Wait>
    var waiting: map<Key, seq<Client>>
    var byKind: map<Kind, nat>
    var ready: seq<Key>
    var signalled: set<Key>
    var unblocked: seq<Client>
    var replies: seq<Reply>
    var propagated: seq<Order>

    ghost function Abs(): State
      reads this
    {
      State(db, clients, waiting, byKind, ready, signalled, unblocked, replies, propagated)
    }

    /** Between commands: the index and the counters are right, no list is empty, and every list with elements that
        somebody waits for is queued. */
    ghost predicate Valid()
      reads this
    {
      Sound(Abs(), None, [])
    }

    constructor ()
      ensures Valid() && db == map[] && clients == map[] && ready == [] && replies == [] && propagated == []
    {
      db, clients, waiting, ready, signalled, unblocked, replies := map[], map[], map[], [], {}, [], [];
      propagated := [];
      byKind := map[OnList := 0, OnZset := 0, OnStream := 0, OnModule := 0];
      new;
      EmptySound(Abs());
    }

    /** The loop of blockForKeys: a key that is named twice counts once. */
    method QueueClient(c: Client, keys: seq<Key>) returns (mine: set<Key>)
      modifies this`waiting
      ensures mine == (set k | k in keys) && waiting == Queue(old(waiting), c, mine)
      ensures (keys != [] ==> mine != {}) && forall k :: k in mine ==> k in keys
    {
      mine := {};
      assert waiting == Queue(waiting, c, {});
      for j := 0 to |keys|
        invariant mine == (set k | k in keys[..j]) && waiting == Queue(old(waiting), c, mine)
      {
        assert keys[..j + 1] == keys[..j] + [keys[j]];
        if keys[j] !in mine {
          QueueOne(old(waiting), c, mine, keys[j]);
          waiting := waiting[keys[j] := Listed(waiting, keys[j]) + [c]];
          mine := mine + {keys[j]};
        }
      }
      assert keys[..|keys|] == keys;
      assert keys != [] ==> keys[0] in mine;
    }

    /** blockForKeys. */
    method BlockForKeys(c: Client, kind: Kind, keys: seq<Key>, target: Option<Key>, from: End, to: End)
      requires Valid() && c !in clients && keys != []
      requires kind == OnList ==> forall k :: k in keys ==> !Full(db, k)
      modifies this`clients, this`waiting, this`byKind
      ensures Valid()
      ensures Abs() == Block(old(Abs()), c, Wait(kind, (set k | k in keys), target, from, to))
    {
      ghost var s := Abs();
      hide Sound, Queue, Full;
      var mine := QueueClient(c, keys);
      var w := Wait(kind, mine, target, from, to);
      BlockKeeps(s, c, w, []);
      clients := clients[c := w];
      byKind := byKind[kind := Get(byKind, kind) + 1];
    }

    /** unblockClientWaitingData: the client leaves the list of each of its keys; that list is always there. */
    method UnblockWaitingData(c: Client)
      requires Index(clients, waiting) && c in clients
      modifies this`waiting
      ensures waiting == Released(old(waiting), c, clients[c].keys)
    {
      assert clients[c].keys != {};
      var rest := clients[c].keys;
      ghost var before, keys := waiting, clients[c].keys;
      ReleasedNone(before, c);
      assert keys - rest == {};
      assert forall k :: k in keys ==> k in before && c in before[k];
      hide Index, Released, Without;
      while rest != {}
        invariant rest <= keys && waiting == Released(before, c, keys - rest)
      {
        var k :| k in rest;
        ReleasedOne(before, c, keys - rest, k);
        var l := Without(waiting[k], c);
        if l == [] { waiting := waiting - {k}; } else { waiting := waiting[k := l]; }
        assert keys - (rest - {k}) == keys - rest + {k};
        rest := rest - {k};
      }
      assert keys - {} == keys;
    }

    /** unblockClient for a client that waits for keys. */
    method UnblockClient(c: Client)
      requires Index(clients, waiting) && Counted(clients, byKind) && c in clients
      modifies this
      ensures Abs() == Unblock(old(Abs()), c)
    {
      var w := clients[c];
      KindCounted(clients, byKind, c);
      UnblockIs(Abs(), c);
      hide Released, Index, Counted, Unblock;
      UnblockWaitingData(c);
      byKind := byKind[w.kind := byKind[w.kind] - 1];
      clients := clients - {c};
      if c !in unblocked { unblocked := unblocked + [c]; }
    }

    /** signalKeyAsReady. */
    method SignalKeyAsReady(key: Key, kind: Kind)
      requires kind in byKind && OnModule in byKind
      modifies this`ready, this`signalled
      ensures Abs() == Signal(old(Abs()), key, kind)
    {
      if byKind[kind] == 0 && byKind[OnModule] == 0 { return; }
      if key !in waiting { return; }
      if key in signalled { return; }
      ready := ready + [key];
      signalled := signalled + {key};
    }

    /** lmoveHandlePush, and any other push of one element. */
    method PushElem(key: Key, e: Elem, at: End)
      requires (key in db ==> db[key].ListOf?) && OnList in byKind && OnModule in byKind
      modifies this`db, this`ready, this`signalled
      ensures Abs() == PushTo(old(Abs()), key, e, at)
    {
      if key !in db {
        db := db[key := ListOf([])];
        SignalKeyAsReady(key, OnList);
      }
      db := db[key := ListOf(Push(db[key].elems, e, at))];
    }

    /** A push command: refused if the key holds something else. */
    method PushCommand(key: Key, e: Elem, at: End) returns (ok: bool)
      requires Valid()
      modifies this`db, this`ready, this`signalled
      ensures Valid() && (ok <==> old(key in db ==> db[key].ListOf?))
      ensures Abs() == if ok then PushTo(old(Abs()), key, e, at) else old(Abs())
    {
      if key in db && !db[key].ListOf? { return false; }
      PushToKeeps(Abs(), None, [], key, e, at);
      hide Index, NoHollow, QueuedBut;
      PushElem(key, e, at);
      return true;
    }

    /** serveClientBlockedOnList. */
    method ServeClientBlockedOnList(c: Client, key: Key, e: Elem) returns (ok: bool)
      requires c in clients && OnList in byKind && OnModule in byKind
      modifies this`db, this`ready, this`signalled, this`replies, this`propagated
      ensures ok == CanServe(old(Abs()), clients[c]) && Abs() == Give(old(Abs()), c, key, e)
    {
      var w := clients[c];
      if w.target.None? {
        propagated := propagated + [PopOf(key, w.from)];
        replies := replies + [Popped(c, key, e)];
        return true;
      }
      var dst := w.target.value;
      if dst in db && !db[dst].ListOf? {
        replies := replies + [WrongType(c)];
        return false;
      }
      PushElem(dst, e, w.to);
      replies := replies + [Moved(c, key, dst, e)];
      propagated := propagated + [MoveOf(key, dst, w.from, w.to)];
      return true;
    }

    /** The turn of one client in serveClientsBlockedOnListKey. */
    method ServeReceiver(key: Key, c: Client)
      requires Index(clients, waiting) && Counted(clients, byKind)
      requires c in clients && key in db && db[key].ListOf? && db[key].elems != []
      modifies this
      ensures Abs() == ServeClient(old(Abs()), key, c)
    {
      hide Index, Push, Pop, PushTo, Released;
      var w := clients[c];
      var (e, rest) := Pop(db[key].elems, w.from);
      db := db[key := ListOf(rest)];
      ghost var popped := Abs();
      assert OnList in byKind && OnModule in byKind;
      hide Counted;
      var ok := ServeClientBlockedOnList(c, key, e);
      if !ok { db := db[key := ListOf(Push(rest, e, w.from))]; }
      GiveKeeps(popped, c, key, e);
      UnblockClient(c);
    }

    /** The loop of serveClientsBlockedOnListKey. The list of waiters is never empty while there are turns left. */
    method ServeTurns(key: Key, ghost l: seq<Key>)
      requires Sound(Abs(), Some(key), l) && key in db && db[key].ListOf? && key in waiting
      modifies this
      ensures Abs() == ServeLoop(old(Abs()), key, |old(waiting)[key]|)
    {
      hide Sound, Index, Counted, ServeLoop, ServeClient, Rotate;
      var numclients: nat := |waiting[key]|;
      ghost var goal := ServeLoop(Abs(), key, numclients);
      while numclients > 0
        invariant Sound(Abs(), Some(key), l) && key in db && db[key].ListOf?
        invariant numclients <= |Listed(waiting, key)| && ServeLoop(Abs(), key, numclients) == goal
      {
        TurnKeeps(Abs(), key, numclients, l);
        numclients := numclients - 1;
        var receiver := waiting[key][0];
        if clients[receiver].kind != OnList {
          RotateIs(Abs(), key);
          waiting := waiting[key := waiting[key][1..] + [receiver]];
          continue;
        }
        if db[key].elems == [] { return; }
        ServeReceiver(key, receiver);
      }
      NoTurns(Abs(), key);
    }

    /** serveClientsBlockedOnListKey: a list that has become empty is deleted. */
    method ServeClientsBlockedOnListKey(key: Key, ghost l: seq<Key>)
      requires Sound(Abs(), Some(key), l) && key in db && db[key].ListOf?
      modifies this
      ensures Abs() == ServeKey(old(Abs()), key)
    {
      ServeLoopStays(Abs(), key, l);
      hide Sound, ServeLoop;
      if key in waiting { ServeTurns(key, l); }
      if db[key].elems == [] { db := db - {key}; }
    }

    /** serveClientsBlockedOnSortedSetKey for a sorted set of `card` elements: one element for each waiter. */
    method ServeClientsBlockedOnSortedSetKey(key: Key, card: nat)
      requires Index(clients, waiting) && Counted(clients, byKind)
      modifies this
      ensures Index(clients, waiting) && Counted(clients, byKind)
      ensures var q, ws := old(QueuesOf(Abs())), old(Listed(waiting, key));
              QueuesOf(Abs()) == Visit(q, key, OnZset, SortedSetVisits(q.clients, ws, card))
      ensures db == old(db) && ready == old(ready) && signalled == old(signalled) && replies == old(replies)
    {
      hide Counted, SortedSetVisits, Visit, SortedSetPass, Index, Unblock, Rotate, Listed;
      SortedSetWhole(QueuesOf(Abs()), key, card);
      if key !in waiting { return; }
      var numclients: nat, zcard := |waiting[key]|, card;
      ghost var goal := SortedSetPass(QueuesOf(Abs()), key, numclients, zcard);
      while numclients > 0 && zcard > 0
        invariant Index(clients, waiting) && Counted(clients, byKind) && numclients <= |Listed(waiting, key)|
        invariant SortedSetPass(QueuesOf(Abs()), key, numclients, zcard) == goal
        invariant db == old(db) && ready == old(ready) && signalled == old(signalled) && replies == old(replies)
      {
        SortedSetTurnKeeps(Abs(), key, numclients, zcard);
        numclients := numclients - 1;
        var receiver := waiting[key][0];
        if clients[receiver].kind != OnZset {
          RotateIs(Abs(), key);
          waiting := waiting[key := waiting[key][1..] + [receiver]];
          continue;
        }
        UnblockClient(receiver);
        zcard := zcard - 1;
      }
      SortedSetDone(QueuesOf(Abs()), key, numclients, zcard);
    }

    /** handleClientsBlockedOnKeys. */
    method HandleClientsBlockedOnKeys()
      requires Valid()
      modifies this
      ensures Valid() && Abs() == Handle(old(Abs()))
      ensures ready == [] && forall k, c :: Full(db, k) ==> !WaitsForList(Abs(), k, c)
    {
      ghost var goal := Handle(Abs());
      HandleKeeps(Abs());
      hide Sound, Drain;
      while ready != []
        invariant Valid() && Handle(Abs()) == goal
        decreases |clients|, |ready|
      {
        ghost var s := Abs();
        DrainDecreases(s);
        Taken(s);
        DrainKeeps(s.(ready := []), ready);
        var l := ready;
        ready := [];
        DrainKeys(l);
      }
    }

    /** The inner loop of handleClientsBlockedOnKeys. */
    method DrainKeys(keys: seq<Key>)
      requires Sound(Abs(), None, keys)
      modifies this
      ensures Abs() == Drain(old(Abs()), keys)
    {
      ghost var goal := Drain(Abs(), keys);
      hide Sound, ServeKey;
      var l := keys;
      while l != []
        invariant Sound(Abs(), None, l) && Drain(Abs(), l) == goal
        decreases |l|
      {
        var key := l[0];
        DrainTurn(Abs(), l);
        signalled := signalled - {key};
        if key in db && db[key].ListOf? { ServeClientsBlockedOnListKey(key, l[1..]); }
        l := l[1..];
      }
    }
  }

  lemma EmptySound(s: State)
    requires s.db == map[] && s.clients == map[] && s.waiting == map[] && s.signalled == {}
    requires s.byKind == map[OnList := 0, OnZset := 0, OnStream := 0, OnModule := 0]
    ensures Sound(s, None, [])
  {
    forall kind ensures kind in s.byKind && s.byKind[kind] == |OfKind(s.clients, kind)| {
      assert OfKind(s.clients, kind) == {};
      match kind case OnList => case OnZset => case OnStream => case OnModule =>
    }
  }

  lemma QueueOne(w: map<Key, seq<Client>>, c: Client, mine: set<Key>, k: Key)
    requires k !in mine
    ensures var q := Queue(w, c, mine); Queue(w, c, mine + {k}) == q[k := Listed(q, k) + [c]]
  {}

  lemma ReleasedNone(w: map<Key, seq<Client>>, c: Client)
    ensures Released(w, c, {}) == w
  {}

  lemma ReleasedOne(w: map<Key, seq<Client>>, c: Client, keys: set<Key>, k: Key)
    requires k in w && k !in keys
    ensures var r, l := Released(w, c, keys), Without(w[k], c);
            && k in r && r[k] == w[k]
            && Released(w, c, keys + {k}) == if l == [] then r - {k} else r[k := l]
  {}

  lemma KindCounted(clients: map<Client, Wait>, byKind: map<Kind, nat>, c: Client)
    requires Counted(clients, byKind) && c in clients
    ensures clients[c].kind in byKind && byKind[clients[c].kind] > 0
  {
    CountedLess(clients, byKind, c);
  }

  lemma UnblockIs(s: State, c: Client)
    requires c in s.clients && s.clients[c].kind in s.byKind && s.byKind[s.clients[c].kind] > 0
    ensures var w := s.clients[c];
            Unblock(s, c) == s.(clients := s.clients - {c}, waiting := Released(s.waiting, c, w.keys),
                                byKind := s.byKind[w.kind := s.byKind[w.kind] - 1],
                                unblocked := if c in s.unblocked then s.unblocked else s.unblocked + [c])
  {}

  /** What one turn of the loop finds and leaves. */
  lemma TurnKeeps(s: State, key: Key, n: nat, l: seq<Key>)
    requires Sound(s, Some(key), l) && key in s.db && s.db[key].ListOf? && 0 < n <= |Listed(s.waiting, key)|
    ensures Ready(s, key) && Index(s.clients, s.waiting) && Counted(s.clients, s.byKind)
    ensures var c, r := s.waiting[key][0], Rotate(s, key);
            && (s.clients[c].kind != OnList ==>
                  && ServeLoop(s, key, n) == ServeLoop(r, key, n - 1)
                  && Sound(r, Some(key), l) && n - 1 <= |Listed(r.waiting, key)|)
            && (s.clients[c].kind == OnList && s.db[key].elems == [] ==> ServeLoop(s, key, n) == s)
            && (s.clients[c].kind == OnList && s.db[key].elems != [] ==>
                  var t := ServeClient(s, key, c);
                  && ServeLoop(s, key, n) == ServeLoop(t, key, n - 1)
                  && Sound(t, Some(key), l) && key in t.db && t.db[key].ListOf? && n - 1 <= |Listed(t.waiting, key)|)
  {
    FirstKnown(s, key);
    RotateKeeps(s, key, Some(key), l);
    var c := s.waiting[key][0];
    if s.clients[c].kind == OnList && s.db[key].elems != [] {
      ServeClientKeeps(s, key, c, l);
      ServeClientTail(s, key);
    }
    hide ServeClient, Index, Counted;
  }

  /** What one turn of the loop over a sorted set finds and leaves. */
  lemma SortedSetTurnKeeps(s: State, key: Key, n: nat, card: nat)
    requires Index(s.clients, s.waiting) && Counted(s.clients, s.byKind)
    requires 0 < n <= |Listed(s.waiting, key)| && card > 0
    ensures key in s.waiting && s.waiting[key] != [] && s.waiting[key][0] in s.clients
    ensures var c, r := s.waiting[key][0], Rotate(s, key);
            && (s.clients[c].kind != OnZset ==>
                  && Index(r.clients, r.waiting) && n - 1 <= |Listed(r.waiting, key)|
                  && SortedSetPass(QueuesOf(s), key, n, card) == SortedSetPass(QueuesOf(r), key, n - 1, card))
            && (s.clients[c].kind == OnZset ==>
                  var t := Unblock(s, c);
                  && Index(t.clients, t.waiting) && Counted(t.clients, t.byKind) && n - 1 <= |Listed(t.waiting, key)|
                  && SortedSetPass(QueuesOf(s), key, n, card) == SortedSetPass(QueuesOf(t), key, n - 1, card - 1)
                  && t.db == s.db && t.ready == s.ready && t.signalled == s.signalled && t.replies == s.replies)
  {
    SortedSetTurn(QueuesOf(s), key, n, card);
    CountedLess(s.clients, s.byKind, s.waiting[key][0]);
    KindCounted(s.clients, s.byKind, s.waiting[key][0]);
    UnblockIs(s, s.waiting[key][0]);
    hide SortedSetPass, Index, Counted, Unblock;
  }

  lemma NoTurns(s: State, key: Key)
    ensures ServeLoop(s, key, 0) == s
  {}

  lemma ServeLoopStays(s: State, key: Key, l: seq<Key>)
    requires Sound(s, Some(key), l) && key in s.db && s.db[key].ListOf?
    ensures var t := ServeLoop(s, key, |Listed(s.waiting, key)|); key in t.db && t.db[key].ListOf?
    ensures key !in s.waiting ==> ServeLoop(s, key, |Listed(s.waiting, key)|) == s
  {
    ServeLoopKeeps(s, key, |Listed(s.waiting, key)|, l);
  }

  lemma RotateIs(s: State, key: Key)
    requires key in s.waiting && s.waiting[key] != []
    ensures Rotate(s, key) == s.(waiting := s.waiting[key := s.waiting[key][1..] + [s.waiting[key][0]]])
  {}

  lemma DrainTurn(s: State, l: seq<Key>)
    requires Sound(s, None, l) && l != []
    ensures var t := s.(signalled := s.signalled - {l[0]});
            && Sound(t, Some(l[0]), l[1..])
            && (l[0] in t.db && t.db[l[0]].ListOf? ==> Sound(ServeKey(t, l[0]), None, l[1..]))
            && (!(l[0] in t.db && t.db[l[0]].ListOf?) ==> Sound(t, None, l[1..]))
  {
    var t := s.(signalled := s.signalled - {l[0]});
    Unqueued(s, l);
    if l[0] in t.db && t.db[l[0]].ListOf? { ServeKeyKeeps(t, l[0], l[1..]); } else { NotAList(t, l[0], l[1..]); }
  }

  lemma GiveKeeps(s: State, c: Client, key: Key, e: Elem)
    requires c in s.clients
    ensures var t := Give(s, c, key, e);
            t.clients == s.clients && t.waiting == s.waiting && t.byKind == s.byKind
  {
    var w := s.clients[c];
    if w.target.Some? && CanServe(s, w) { PushToShape(s, w.target.value, e, w.to); }
    hide PushTo;
  }
}
