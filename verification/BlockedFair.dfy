/** Serving waiters follows the queue and loses nothing: clients are served in the order in which they stand in the
    queue of the key, and every element ends up in one list or with one client. */
module BlockedFair {
  import opened Common
  import opened Blocked

  // ------------------------------------------------------------------
  // Order
  // ------------------------------------------------------------------

  /** Those of `ws` that wait for a list, in order. */
  ghost function ForList(clients: map<Client, Wait>, ws: seq<Client>): seq<Client> {
    if ws == [] then []
    else (if ws[0] in clients && clients[ws[0]].kind == OnList then [ws[0]] else []) + ForList(clients, ws[1..])
  }

  ghost function Receivers(rs: seq<Reply>): (cs: seq<Client>)
    ensures |cs| == |rs|
  {
    seq(|rs|, i requires 0 <= i < |rs| => rs[i].client)
  }

  /** The replies since `s` went to the first ones of `queue`, in order. */
  ghost predicate InOrder(s: State, t: State, queue: seq<Client>) {
    s.replies <= t.replies && Receivers(t.replies[|s.replies|..]) <= queue
  }

  ghost predicate AllServed(s: State, t: State, queue: seq<Client>) {
    s.replies <= t.replies && Receivers(t.replies[|s.replies|..]) == queue
  }

  lemma {:induction false} ForListLess(clients: map<Client, Wait>, c: Client, ws: seq<Client>)
    requires c !in ws
    ensures ForList(clients - {c}, ws) == ForList(clients, ws)
  {
    if ws != [] {
      assert ws == [ws[0]] + ws[1..];
      ForListLess(clients, c, ws[1..]);
    }
  }

  lemma ServeClientReply(s: State, key: Key, c: Client)
    requires c in s.clients && key in s.db && s.db[key].ListOf? && s.db[key].elems != []
    ensures var t := ServeClient(s, key, c);
            |t.replies| == |s.replies| + 1 && s.replies <= t.replies && t.replies[|s.replies|].client == c
            && key in t.db && t.db[key].ListOf?
  {
    var w := s.clients[c];
    var (e, rest) := Pop(s.db[key].elems, w.from);
    var popped := s.(db := s.db[key := ListOf(rest)]);
    if w.target.Some? && CanServe(popped, w) { PushToShape(popped, w.target.value, e, w.to); }
    hide Released, PushTo, Push, Pop;
  }

  lemma NextInLine(clients: map<Client, Wait>, ws: seq<Client>, n: nat)
    requires 0 < n <= |ws|
    ensures ForList(clients, ws[..n])
         == (if ws[0] in clients && clients[ws[0]].kind == OnList then [ws[0]] else [])
            + ForList(clients, ws[1..][..n - 1])
  {
    assert ws[..n][1..] == ws[1..][..n - 1];
  }

  /** Those for whom the next `n` turns are. */
  ghost function InLine(s: State, key: Key, n: nat): seq<Client>
    requires n <= |Listed(s.waiting, key)|
  {
    ForList(s.clients, Listed(s.waiting, key)[..n])
  }

  /** From `s` to `t` exactly `one` was served. */
  ghost predicate Serves(s: State, t: State, one: seq<Client>) {
    s.replies <= t.replies && Receivers(t.replies[|s.replies|..]) == one
  }

  lemma RotateFifo(s: State, key: Key, n: nat)
    requires 0 < n <= |Listed(s.waiting, key)| && Ready(s, key) && s.clients[s.waiting[key][0]].kind != OnList
    ensures var t := Rotate(s, key);
            n - 1 <= |Listed(t.waiting, key)| && InLine(s, key, n) == InLine(t, key, n - 1) && t.replies == s.replies
  {
    var ws := s.waiting[key];
    NextInLine(s.clients, ws, n);
    hide ForList;
    assert (ws[1..] + [ws[0]])[..n - 1] == ws[1..][..n - 1];
    assert [] + ForList(s.clients, ws[1..][..n - 1]) == ForList(s.clients, ws[1..][..n - 1]);
  }

  lemma ServeFifo(s: State, key: Key, n: nat)
    requires Index(s.clients, s.waiting) && 0 < n <= |Listed(s.waiting, key)| && Ready(s, key)
    requires s.clients[s.waiting[key][0]].kind == OnList && s.db[key].elems != []
    ensures var c := s.waiting[key][0];
            var t := ServeClient(s, key, c);
            n - 1 <= |Listed(t.waiting, key)| && InLine(s, key, n) == [c] + InLine(t, key, n - 1) && Serves(s, t, [c])
  {
    var ws, c := s.waiting[key], s.waiting[key][0];
    var t := ServeClient(s, key, c);
    ServeClientTail(s, key);
    ServeClientProgress(s, key, c);
    ServeClientReply(s, key, c);
    hide ServeClient, Index;
    NextInLine(s.clients, ws, n);
    ForListLess(s.clients, c, ws[1..][..n - 1]);
    hide ForList;
    assert t.replies[|s.replies|..] == [t.replies[|s.replies|]];
  }

  /** A turn serves the first in line, or nobody. */
  lemma TurnFifo(s: State, key: Key, n: nat, l: seq<Key>) returns (one: seq<Client>)
    requires Turning(s, key, n, l) && n > 0 && Turn(s, key).Some?
    ensures var t := Turn(s, key).value;
            n - 1 <= |Listed(t.waiting, key)| && InLine(s, key, n) == one + InLine(t, key, n - 1) && Serves(s, t, one)
  {
    assert Index(s.clients, s.waiting);
    hide Sound, Index, ServeClient, Rotate, InLine;
    if s.clients[s.waiting[key][0]].kind != OnList {
      one := [];
      RotateFifo(s, key, n);
      assert s.replies[|s.replies|..] == [];
    } else {
      one := [s.waiting[key][0]];
      ServeFifo(s, key, n);
    }
  }

  lemma ServesFirst(s: State, t: State, u: State, one: seq<Client>, queue: seq<Client>)
    requires Serves(s, t, one)
    ensures InOrder(t, u, queue) ==> InOrder(s, u, one + queue)
    ensures AllServed(t, u, queue) ==> AllServed(s, u, one + queue)
  {
    if t.replies <= u.replies {
      assert u.replies[|s.replies|..] == t.replies[|s.replies|..] + u.replies[|t.replies|..];
      assert Receivers(u.replies[|s.replies|..]) == one + Receivers(u.replies[|t.replies|..]);
    }
  }

  /** The loop serves those who wait for a list in the order of the queue, and stops early only when the list is
      empty. */
  lemma {:induction false} ServeLoopFifo(s: State, key: Key, n: nat, l: seq<Key>)
    requires Turning(s, key, n, l)
    ensures var t, queue := ServeLoop(s, key, n), InLine(s, key, n);
            && InOrder(s, t, queue) && key in t.db && t.db[key].ListOf?
            && (t.db[key].elems != [] ==> AllServed(s, t, queue))
    decreases n
  {
    hide Turn, Sound, Passed, InOrder, AllServed, ForList, Serves;
    NobodyYet(s, InLine(s, key, n));
    if n > 0 {
      TurnSound(s, key, n, l);
      if Turn(s, key).Some? {
        var t := Turn(s, key).value;
        var one := TurnFifo(s, key, n, l);
        ServeLoopFifo(t, key, n - 1, l);
        hide InLine, Turning;
        ServesFirst(s, t, ServeLoop(s, key, n), one, InLine(t, key, n - 1));
      }
    } else {
      NobodyInLine(s, key);
    }
  }

  lemma NobodyInLine(s: State, key: Key)
    ensures InLine(s, key, 0) == []
  {}

  lemma NobodyYet(s: State, queue: seq<Client>)
    ensures InOrder(s, s, queue) && (queue == [] ==> AllServed(s, s, queue))
  {
    assert s.replies[|s.replies|..] == [];
  }

  /** The waiters of a key that becomes ready are served in the order of its queue. */
  lemma ServeKeyFifo(s: State, key: Key, l: seq<Key>)
    requires Sound(s, Some(key), l) && key in s.db && s.db[key].ListOf?
    ensures var t, queue := ServeKey(s, key), ForList(s.clients, Listed(s.waiting, key));
            InOrder(s, t, queue) && (key in t.db ==> AllServed(s, t, queue))
  {
    var ws := Listed(s.waiting, key);
    assert ws[..|ws|] == ws;
    hide ServeLoop, Sound, InOrder, AllServed;
    ServeLoopFifo(s, key, |ws|, l);
  }

  // ------------------------------------------------------------------
  // Conservation
  // ------------------------------------------------------------------

  /** How often `x` occurs. */
  ghost function Occ(elems: seq<Elem>, x: Elem): nat {
    if elems == [] then 0 else Is(elems[0], x) + Occ(elems[1..], x)
  }

  ghost function Is(e: Elem, x: Elem): nat { if e == x then 1 else 0 }

  ghost function InValue(v: Value, x: Elem): nat { if v.ListOf? then Occ(v.elems, x) else 0 }

  /** How often `x` is stored, in all lists. */
  ghost function Stored(db: map<Key, Value>, x: Elem): nat
    decreases |db|
  {
    if db == map[] then 0 else var k :| k in db; InValue(db[k], x) + Stored(db - {k}, x)
  }

  /** Any key can be taken out first. */
  lemma {:induction false} StoredSplit(db: map<Key, Value>, k: Key, x: Elem)
    requires k in db
    ensures Stored(db, x) == InValue(db[k], x) + Stored(db - {k}, x)
    decreases |db|
  {
    var j :| j in db && Stored(db, x) == InValue(db[j], x) + Stored(db - {j}, x);
    hide InValue;
    if j != k {
      StoredSplit(db - {j}, k, x);
      StoredSplit(db - {k}, j, x);
      assert db - {j} - {k} == db - {k} - {j};
    }
  }

  lemma StoredPut(db: map<Key, Value>, k: Key, v: Value, x: Elem)
    ensures Stored(db[k := v], x) == InValue(v, x) + Stored(db - {k}, x)
  {
    hide InValue;
    StoredSplit(db[k := v], k, x);
    assert db[k := v] - {k} == db - {k};
  }

  /** How often `x` went to a client. */
  ghost function Sent(rs: seq<Reply>, x: Elem): nat {
    if rs == [] then 0 else Sent(rs[..|rs| - 1], x) + SentBy(rs[|rs| - 1], x)
  }

  ghost function SentBy(r: Reply, x: Elem): nat { if r.Popped? then Is(r.elem, x) else 0 }

  ghost function Total(s: State, x: Elem): nat { Stored(s.db, x) + Sent(s.replies, x) }

  lemma SentOne(rs: seq<Reply>, r: Reply, x: Elem)
    ensures Sent(rs + [r], x) == Sent(rs, x) + SentBy(r, x)
  {
    assert (rs + [r])[..|rs|] == rs;
  }

  lemma {:induction false} OccSnoc(elems: seq<Elem>, e: Elem, x: Elem)
    ensures Occ(elems + [e], x) == Occ(elems, x) + Is(e, x)
  {
    hide Is;
    if elems == [] {
      assert [] + [e] == [e] && [e][1..] == [];
    } else {
      assert (elems + [e])[0] == elems[0] && (elems + [e])[1..] == elems[1..] + [e];
      OccSnoc(elems[1..], e, x);
    }
  }

  lemma PushOcc(elems: seq<Elem>, e: Elem, at: End, x: Elem)
    ensures Occ(Push(elems, e, at), x) == Occ(elems, x) + Is(e, x)
  {
    OccSnoc(elems, e, x);
    assert ([e] + elems)[1..] == elems;
  }

  lemma PushToTotal(s: State, key: Key, e: Elem, at: End, x: Elem)
    requires key in s.db ==> s.db[key].ListOf?
    ensures Stored(PushTo(s, key, e, at).db, x) == Stored(s.db, x) + Is(e, x)
  {
    var elems := if key in s.db then s.db[key].elems else [];
    PushToDb(s, key, e, at);
    PushOcc(elems, e, at, x);
    StoredPut(s.db, key, ListOf(Push(elems, e, at)), x);
    hide PushTo, Push, Stored, Occ, Is;
    if key in s.db {
      StoredSplit(s.db, key, x);
    } else {
      assert s.db - {key} == s.db && Occ([], x) == 0 by { NoOcc(x); }
    }
  }

  lemma NoOcc(x: Elem)
    ensures Occ([], x) == 0
  {}

  lemma PushToDb(s: State, key: Key, e: Elem, at: End)
    requires key in s.db ==> s.db[key].ListOf?
    ensures PushTo(s, key, e, at).db == s.db[key := ListOf(Push(if key in s.db then s.db[key].elems else [], e, at))]
  {
    hide Push;
  }

  lemma PopTotal(db: map<Key, Value>, key: Key, at: End, x: Elem)
    requires key in db && db[key].ListOf? && db[key].elems != []
    ensures var (e, rest) := Pop(db[key].elems, at); Stored(db, x) == Stored(db[key := ListOf(rest)], x) + Is(e, x)
  {
    var (e, rest) := Pop(db[key].elems, at);
    PushOcc(rest, e, at, x);
    hide Push, Pop, Stored, Occ, Is;
    StoredSplit(db, key, x);
    StoredPut(db, key, ListOf(rest), x);
  }

  lemma ServeClientTotal(s: State, key: Key, c: Client, x: Elem)
    requires c in s.clients && key in s.db && s.db[key].ListOf? && s.db[key].elems != []
    ensures Total(ServeClient(s, key, c), x) == Total(s, x)
  {
    var w := s.clients[c];
    var (e, rest) := Pop(s.db[key].elems, w.from);
    var popped := s.(db := s.db[key := ListOf(rest)]);
    PopTotal(s.db, key, w.from, x);
    hide Released, Stored, Sent, Push, Pop, Is, PushTo;
    if w.target.None? {
      SentOne(s.replies, Popped(c, key, e), x);
    } else if CanServe(popped, w) {
      PushToTotal(popped, w.target.value, e, w.to, x);
      SentOne(s.replies, Moved(c, key, w.target.value, e), x);
    } else {
      SentOne(s.replies, WrongType(c), x);
      assert popped.db[key := s.db[key]] == s.db;
    }
  }

  lemma TurnTotal(s: State, key: Key, x: Elem)
    requires Turn(s, key).Some?
    ensures Total(Turn(s, key).value, x) == Total(s, x)
  {
    var c := s.waiting[key][0];
    SameTotal(s, Rotate(s, key), x);
    hide Total, ServeClient, Rotate;
    if s.clients[c].kind == OnList { ServeClientTotal(s, key, c, x); }
  }

  lemma {:induction false} ServeLoopTotal(s: State, key: Key, n: nat, x: Elem)
    ensures Total(ServeLoop(s, key, n), x) == Total(s, x)
    decreases n
  {
    hide Turn, Total;
    if n > 0 && Turn(s, key).Some? {
      TurnTotal(s, key, x);
      ServeLoopTotal(Turn(s, key).value, key, n - 1, x);
    }
  }

  lemma SameTotal(s: State, t: State, x: Elem)
    requires s.db == t.db && s.replies == t.replies
    ensures Total(s, x) == Total(t, x)
  {}

  lemma ServeKeyTotal(s: State, key: Key, x: Elem)
    ensures Total(ServeKey(s, key), x) == Total(s, x)
  {
    var n := |Listed(s.waiting, key)|;
    ServeLoopTotal(s, key, n, x);
    var t := ServeLoop(s, key, n);
    hide ServeLoop;
    if key in t.db && t.db[key] == ListOf([]) { StoredSplit(t.db, key, x); }
  }

  lemma {:induction false} DrainTotal(s: State, l: seq<Key>, x: Elem)
    ensures Total(Drain(s, l), x) == Total(s, x)
    decreases |l|
  {
    if l != [] {
      var t := s.(signalled := s.signalled - {l[0]});
      SameTotal(s, t, x);
      hide Total, ServeKey;
      ServeKeyTotal(t, l[0], x);
      DrainTotal(if l[0] in t.db && t.db[l[0]].ListOf? then ServeKey(t, l[0]) else t, l[1..], x);
    }
  }

  /** The whole handler loses and invents no element. */
  lemma {:induction false} HandleTotal(s: State, x: Elem)
    ensures Total(Handle(s), x) == Total(s, x)
    decreases |s.clients|, |s.ready|
  {
    if s.ready != [] {
      DrainDecreases(s);
      DrainTotal(s.(ready := []), s.ready, x);
      SameTotal(s, s.(ready := []), x);
      hide Total, Drain;
      HandleTotal(Drain(s.(ready := []), s.ready), x);
    }
  }
}
