/** The slots of a node as the ranges that nodes.conf and CLUSTER NODES print. */
module SlotRanges {
  import opened Common
  import opened ClusterNode
  import opened SlotTable
  import opened Decimal

  /** One printed item: `start-stop`, or just `start` when both are the same. */
  datatype Range = Range(start: int, stop: int)

  ghost predicate Within(r: Range, j: int) { r.start <= j <= r.stop }

  ghost predicate Covered(rs: seq<Range>, j: int) { exists k :: 0 <= k < |rs| && Within(rs[k], j) }

  /** `rs` are the maximal runs of set bits, in order: they cover exactly the set bits and no two touch. */
  ghost predicate Describes(bits: seq<bool>, rs: seq<Range>) {
    && (forall k :: 0 <= k < |rs| ==> 0 <= rs[k].start <= rs[k].stop < |bits|)
    && (forall k, l :: 0 <= k < l < |rs| ==> rs[k].stop + 1 < rs[l].start)
    && (forall j :: 0 <= j < |bits| ==> (bits[j] <==> Covered(rs, j)))
  }

  lemma ExtendClear(bits: seq<bool>, more: seq<bool>, rs: seq<Range>)
    requires Describes(bits, rs) && forall i :: 0 <= i < |more| ==> !more[i]
    ensures Describes(bits + more, rs)
  {
    forall j | |bits| <= j < |bits + more| ensures !Covered(rs, j) {}
  }

  lemma ExtendRun(bits: seq<bool>, more: seq<bool>, rs: seq<Range>, r: Range)
    requires Describes(bits, rs) && (bits != [] ==> !bits[|bits| - 1])
    requires |more| > 0 && forall i :: 0 <= i < |more| ==> more[i]
    requires r == Range(|bits|, |bits| + |more| - 1)
    ensures Describes(bits + more, rs + [r])
  {
    var rs' := rs + [r];
    forall k | 0 <= k < |rs| ensures rs[k].stop + 1 < r.start {
      if rs[k].stop == |bits| - 1 { assert Within(rs[k], |bits| - 1); }
    }
    forall j | 0 <= j < |bits + more| ensures (bits + more)[j] <==> Covered(rs', j) {
      if j < |bits| {
        if Covered(rs, j) {
          var k :| 0 <= k < |rs| && Within(rs[k], j);
          assert Within(rs'[k], j);
        }
        if Covered(rs', j) {
          var k :| 0 <= k < |rs'| && Within(rs'[k], j);
          assert k < |rs| && Within(rs[k], j);
        }
      } else {
        assert Within(rs'[|rs|], j);
      }
    }
  }

  /** A set of slots has only one such description. */
  lemma {:induction false} DescriptionUnique(bits: seq<bool>, a: seq<Range>, b: seq<Range>, k: nat)
    requires Describes(bits, a) && Describes(bits, b) && k <= |a| && k <= |b| && a[..k] == b[..k]
    ensures a == b
    decreases |a| - k
  {
    if k < |a| && k < |b| {
      SameRange(bits, a, b, k);
      assert a[..k + 1] == a[..k] + [a[k]] && b[..k + 1] == b[..k] + [b[k]];
      DescriptionUnique(bits, a, b, k + 1);
    } else {
      if k == |b| { NoExtra(bits, a, b); } else { NoExtra(bits, b, a); }
    }
  }

  lemma BeforeRange(rs: seq<Range>, k: nat, l: nat, bits: seq<bool>)
    requires Describes(bits, rs) && l < k < |rs|
    ensures !Within(rs[l], rs[k].start)
  {}

  lemma NoExtra(bits: seq<bool>, a: seq<Range>, b: seq<Range>)
    requires Describes(bits, a) && Describes(bits, b) && |b| <= |a| && a[..|b|] == b
    ensures a == b
  {
    var k := |b|;
    if k < |a| {
      var j := a[k].start;
      assert Within(a[k], j);
      assert Covered(b, j);
      forall l | 0 <= l < |b| ensures !Within(b[l], j) { BeforeRange(a, k, l, bits); }
      assert false;
    }
  }

  lemma StartsNoLater(bits: seq<bool>, a: seq<Range>, b: seq<Range>, k: nat)
    requires Describes(bits, a) && Describes(bits, b) && k < |a| && k < |b| && a[..k] == b[..k]
    ensures b[k].start <= a[k].start
  {
    var j := a[k].start;
    assert Within(a[k], j);
    assert Covered(b, j);
    forall l | 0 <= l < k ensures !Within(b[l], j) {
      assert b[l] == b[..k][l] == a[..k][l] == a[l];
      BeforeRange(a, k, l, bits);
    }
  }

  lemma GapAfter(rs: seq<Range>, k: nat, bits: seq<bool>)
    requires Describes(bits, rs) && k < |rs|
    ensures !Covered(rs, rs[k].stop + 1)
  {
    forall l | 0 <= l < |rs| ensures !Within(rs[l], rs[k].stop + 1) {}
  }

  lemma StopsNoLater(bits: seq<bool>, a: seq<Range>, b: seq<Range>, k: nat)
    requires Describes(bits, a) && Describes(bits, b) && k < |a| && k < |b| && a[k].start == b[k].start
    ensures a[k].stop <= b[k].stop
  {
    var j := b[k].stop + 1;
    GapAfter(b, k, bits);
    assert !Within(a[k], j) by {
      assert j < |bits| ==> !Covered(a, j);
    }
  }

  lemma SameRange(bits: seq<bool>, a: seq<Range>, b: seq<Range>, k: nat)
    requires Describes(bits, a) && Describes(bits, b) && k < |a| && k < |b| && a[..k] == b[..k]
    ensures a[k] == b[k]
  {
    StartsNoLater(bits, a, b, k); StartsNoLater(bits, b, a, k);
    StopsNoLater(bits, a, b, k); StopsNoLater(bits, b, a, k);
  }

  // ------------------------------------------------------------------
  // The two generators
  // ------------------------------------------------------------------

  /** clusterGenNodeDescription: one scan of a node's bitmap. */
  method DescribeNode(bits: seq<bool>) returns (rs: seq<Range>)
    ensures Describes(bits, rs)
  {
    rs := [];
    assert Describes(bits[..0], rs);
    hide Describes;
    var start := -1;
    var j := 0;
    while j < |bits|
      invariant 0 <= j <= |bits| && -1 <= start < j
      invariant start == -1 ==> Describes(bits[..j], rs) && (0 < j < |bits| ==> !bits[j - 1])
      invariant start != -1 ==> j < |bits| && OpenRun(bits, rs, start, j)
      decreases |bits| - j
    {
      var bit := bits[j];
      if bit && start == -1 { start := j; }
      if start != -1 && (!bit || j == |bits| - 1) {
        if bit && j == |bits| - 1 { j := j + 1; }
        CloseRun(bits, rs, start, j);
        rs := rs + [Range(start, j - 1)];
        start := -1;
      }
      if j < |bits| {
        if start == -1 { PassClear(bits, rs, j); }
        j := j + 1;
      }
    }
    assert bits[..|bits|] == bits;
  }

  /** The bits from `start` up to `j` are set, and those before are described. */
  ghost predicate OpenRun(bits: seq<bool>, rs: seq<Range>, start: int, j: int) {
    && 0 <= start <= j <= |bits| && Describes(bits[..start], rs) && (start > 0 ==> !bits[start - 1])
    && forall i :: start <= i < j ==> bits[i]
  }

  lemma CloseRun(bits: seq<bool>, rs: seq<Range>, start: int, j: int)
    requires start < j && OpenRun(bits, rs, start, j)
    ensures Describes(bits[..j], rs + [Range(start, j - 1)])
  {
    hide Describes;
    assert bits[..j] == bits[..start] + bits[start..j];
    ExtendRun(bits[..start], bits[start..j], rs, Range(start, j - 1));
  }

  lemma PassClear(bits: seq<bool>, rs: seq<Range>, j: nat)
    requires j < |bits| && !bits[j] && Describes(bits[..j], rs)
    ensures Describes(bits[..j + 1], rs)
  {
    hide Describes;
    assert bits[..j + 1] == bits[..j] + [bits[j]];
    ExtendClear(bits[..j], [bits[j]], rs);
  }

  /** What has been printed so far for each node. */
  ghost predicate AllDescribed(owner: seq<Option<Id>>, hidden: set<Id>, info: map<Id, seq<Range>>) {
    forall n :: n !in hidden ==> Describes(BitmapOf(owner, n), InfoOf(info, n))
  }

  function InfoOf(info: map<Id, seq<Range>>, n: Id): seq<Range> { if n in info then info[n] else [] }

  lemma BitmapSplit(owner: seq<Option<Id>>, a: nat, b: nat, n: Id)
    requires a <= b <= |owner|
    ensures BitmapOf(owner[..b], n) == BitmapOf(owner[..a], n) + BitmapOf(owner[a..b], n)
  {
    assert owner[..b] == owner[..a] + owner[a..b];
  }

  /** A run of slots of one owner was printed, or a run of unowned slots was passed over. */
  lemma NextRun(owner: seq<Option<Id>>, hidden: set<Id>, info: map<Id, seq<Range>>, a: nat, b: nat, o: Option<Id>)
    requires a < b <= |owner| && AllDescribed(owner[..a], hidden, info)
    requires (forall i :: a <= i < b ==> owner[i] == o) && (a > 0 ==> owner[a - 1] != o || o.None?)
    ensures AllDescribed(owner[..b], hidden,
              if o.None? || o.value in hidden then info
              else info[o.value := InfoOf(info, o.value) + [Range(a, b - 1)]])
  {
    var info' :=
      if o.None? || o.value in hidden then info else info[o.value := InfoOf(info, o.value) + [Range(a, b - 1)]];
    forall n | n !in hidden ensures Describes(BitmapOf(owner[..b], n), InfoOf(info', n)) {
      BitmapSplit(owner, a, b, n);
      var bits, more := BitmapOf(owner[..a], n), BitmapOf(owner[a..b], n);
      hide Describes;
      if o == Some(n) {
        ExtendRun(bits, more, InfoOf(info, n), Range(a, b - 1));
      } else {
        ExtendClear(bits, more, InfoOf(info, n));
      }
    }
  }

  lemma SameBitmaps(owner: seq<Option<Id>>, hidden: set<Id>, info: map<Id, seq<Range>>)
    requires AllDescribed(owner[..|owner|], hidden, info)
    ensures AllDescribed(owner, hidden, info)
  {
    assert owner[..|owner|] == owner;
  }

  /** clusterGenNodesSlotsInfo: one pass over the owner array prints, for every node, the ranges its own bitmap
      scan would print. */
  method DescribeAll(owner: seq<Option<Id>>, hidden: set<Id>) returns (info: map<Id, seq<Range>>)
    ensures AllDescribed(owner, hidden, info)
  {
    hide AllDescribed;
    info := map[];
    var n: Option<Id> := None;
    var start: nat, i: nat := 0, 0;
    NothingDescribed(owner, hidden);
    while i <= |owner|
      invariant start <= i <= |owner|
      invariant n.None? && i > 0 ==> owner[i - 1].None?
      invariant n.None? ==> AllDescribed(owner[..i], hidden, info)
      invariant n.Some? ==> RunSince(owner, n, start, i) && AllDescribed(owner[..start], hidden, info)
      decreases |owner| - i
    {
      if n.None? {
        if i == |owner| { break; }
        n := owner[i];
        start := i;
      } else if i == |owner| || n != owner[i] {
        NextRun(owner, hidden, info, start, i, n);
        if n.value !in hidden {
          info := info[n.value := InfoOf(info, n.value) + [Range(start, i - 1)]];
        }
        if i == |owner| { break; }
        n := owner[i];
        start := i;
      }
      if n.None? { NextRun(owner, hidden, info, i, i + 1, None); }
      i := i + 1;
    }
    SameBitmaps(owner, hidden, info);
  }

  /** The slots from `start` to `i` have owner `n`, and the one before has not. */
  ghost predicate RunSince(owner: seq<Option<Id>>, n: Option<Id>, start: nat, i: nat)
    requires i <= |owner|
  {
    && start < i && (forall k :: start <= k < i ==> owner[k] == n)
    && (start > 0 ==> owner[start - 1] != n)
  }

  lemma NothingDescribed(owner: seq<Option<Id>>, hidden: set<Id>)
    ensures AllDescribed(owner[..0], hidden, map[])
  {}

  /** The single pass and the scan of one bitmap print the same ranges. */
  lemma GeneratorsAgree(owner: seq<Option<Id>>, nodes: map<Id, Entry>, hidden: set<Id>, info: map<Id, seq<Range>>,
                        n: Id, rs: seq<Range>)
    requires Coherent(owner, nodes) && n in nodes && n !in hidden
    requires AllDescribed(owner, hidden, info) && Describes(nodes[n].bitmap, rs)
    ensures InfoOf(info, n) == rs
  {
    assert EntryOk(owner, n, nodes[n]);
    DescriptionUnique(nodes[n].bitmap, InfoOf(info, n), rs, 0);
  }

  // ------------------------------------------------------------------
  // Loading
  // ------------------------------------------------------------------

  function PrintRange(r: Range): string
    requires 0 <= r.start <= r.stop
  {
    if r.start == r.stop then Digits(r.start) else Digits(r.start) + "-" + Digits(r.stop)
  }

  /** How clusterLoadConfig reads one word of slots. */
  function ReadRange(word: string): Range {
    var p := Find(word, '-');
    if p < |word| then Range(ReadNumber(word[..p]), ReadNumber(word[p + 1..]))
    else Range(ReadNumber(word), ReadNumber(word))
  }

  /** Every printed range is read back as itself. */
  lemma RangeText(r: Range)
    requires 0 <= r.start <= r.stop
    ensures ReadRange(PrintRange(r)) == r
  {
    var word, p := PrintRange(r), Find(PrintRange(r), '-');
    ReadPrinted(r.start, []);
    assert Digits(r.start) + [] == Digits(r.start);
    if r.start != r.stop {
      ReadPrinted(r.stop, []);
      assert Digits(r.stop) + [] == Digits(r.stop);
      assert p == |Digits(r.start)| by { assert word[|Digits(r.start)|] == '-'; }
      assert word[..p] == Digits(r.start) && word[p + 1..] == Digits(r.stop);
    }
  }

  /** A slot of a range goes to `n` unless it is taken. */
  ghost function LoadedSlot(o: Option<Id>, n: Id, r: Range, j: int): Option<Id> {
    if o.None? && Within(r, j) then Some(n) else o
  }

  /** What two ranges look like in nodes.conf. */
  lemma RangeExamples()
    ensures PrintRange(Range(0, 5460)) == "0-5460" && PrintRange(Range(7, 7)) == "7"
  {
    assert Digits(0) == "0" && Digits(7) == "7" && Digits(5) == "5";
    assert Digits(54) == Digits(5) + "4" && Digits(546) == Digits(54) + "6" && Digits(5460) == Digits(546) + "0";
  }

  /** One word of slots: clusterAddSlot on each slot of the range, or a format error. */
  method LoadRange(t: Table, n: Id, word: string) returns (ok: bool)
    requires t.Valid() && n in t.nodes
    modifies t`nodes, t.owner
    ensures t.Valid() && SameNodes(old(t.nodes), t.nodes)
    ensures var r := ReadRange(word);
            && (ok <==> 0 <= r.start < t.owner.Length && 0 <= r.stop < t.owner.Length)
            && forall j :: 0 <= j < t.owner.Length ==>
                 t.owner[j] == if ok then LoadedSlot(old(t.owner[j]), n, r, j) else old(t.owner[j])
  {
    hide Coherent, ReadRange;
    var r := ReadRange(word);
    if r.start < 0 || r.start >= t.owner.Length || r.stop < 0 || r.stop >= t.owner.Length { return false; }
    var start := r.start;
    while start <= r.stop
      invariant t.Valid() && SameNodes(old(t.nodes), t.nodes) && r.start <= start
      invariant forall j :: 0 <= j < t.owner.Length ==>
                  t.owner[j] == if j < start then LoadedSlot(old(t.owner[j]), n, r, j) else old(t.owner[j])
    {
      ghost var before := t.owner[..];
      var added := t.AddSlot(n, start);
      start := start + 1;
    }
    return true;
  }

  /** The line of a node in nodes.conf: its name and its words of slots. */
  datatype Line = Line(node: Id, words: seq<string>)

  /** `line` is the printed description of its node in a table. */
  ghost predicate Printed(line: Line, nodes: map<Id, Entry>) {
    && line.node in nodes
    && exists rs :: Describes(nodes[line.node].bitmap, rs) && Words(rs, line.words)
  }

  ghost predicate Words(rs: seq<Range>, words: seq<string>) {
    && |words| == |rs|
    && forall k :: 0 <= k < |rs| ==> 0 <= rs[k].start <= rs[k].stop && words[k] == PrintRange(rs[k])
  }

  /** The owner of a slot once the lines of the nodes in `seen` have been loaded. */
  ghost function Restored(o: Option<Id>, seen: set<Id>): Option<Id> {
    if o.Some? && o.value in seen then o else None
  }

  /** All the slot words of one line. */
  method LoadLine(t: Table, n: Id, words: seq<string>, ghost rs: seq<Range>) returns (ok: bool)
    requires t.Valid() && n in t.nodes && Words(rs, words)
    requires forall k :: 0 <= k < |rs| ==> rs[k].stop < t.owner.Length
    modifies t`nodes, t.owner
    ensures ok && t.Valid() && SameNodes(old(t.nodes), t.nodes)
    ensures forall j :: 0 <= j < t.owner.Length ==> t.owner[j] == LoadedSlots(old(t.owner[j]), n, rs, j)
  {
    hide Coherent, ReadRange, PrintRange, Covered;
    NoneCovered(rs[..0]);
    for k := 0 to |words|
      invariant t.Valid() && SameNodes(old(t.nodes), t.nodes)
      invariant forall j :: 0 <= j < t.owner.Length ==> t.owner[j] == LoadedSlots(old(t.owner[j]), n, rs[..k], j)
    {
      RangeText(rs[k]);
      CoveredNext(rs, k);
      var loaded := LoadRange(t, n, words[k]);
      if !loaded { return false; }
    }
    assert rs[..|words|] == rs;
    ok := true;
  }

  lemma NoneCovered(rs: seq<Range>)
    requires rs == []
    ensures forall j :: !Covered(rs, j)
  {}

  ghost function LoadedSlots(o: Option<Id>, n: Id, rs: seq<Range>, j: int): Option<Id> {
    if o.None? && Covered(rs, j) then Some(n) else o
  }

  lemma LineRestored(owner: seq<Option<Id>>, nodes: map<Id, Entry>, n: Id, rs: seq<Range>, seen: set<Id>)
    requires Coherent(owner, nodes) && n in nodes && Describes(nodes[n].bitmap, rs)
    ensures forall j :: 0 <= j < |owner| ==>
              LoadedSlots(Restored(owner[j], seen), n, rs, j) == Restored(owner[j], seen + {n})
    ensures forall k :: 0 <= k < |rs| ==> rs[k].stop < |owner|
  {
    assert EntryOk(owner, n, nodes[n]);
  }

  lemma CoveredNext(rs: seq<Range>, k: nat)
    requires k < |rs|
    ensures forall j :: Covered(rs[..k + 1], j) <==> Covered(rs[..k], j) || Within(rs[k], j)
  {
    forall j ensures Covered(rs[..k + 1], j) <==> Covered(rs[..k], j) || Within(rs[k], j) {
      if Covered(rs[..k], j) {
        var l :| 0 <= l < k && Within(rs[..k][l], j);
        assert Within(rs[..k + 1][l], j);
      }
      if Within(rs[k], j) { assert Within(rs[..k + 1][k], j); }
      if Covered(rs[..k + 1], j) {
        var l :| 0 <= l <= k && Within(rs[..k + 1][l], j);
        if l < k { assert Within(rs[..k][l], j); }
      }
    }
  }

  ghost function Seen(lines: seq<Line>): (s: set<Id>) { set line | line in lines :: line.node }

  lemma OwnersDecide(owner: seq<Option<Id>>, a: map<Id, Entry>, b: map<Id, Entry>, n: Id)
    requires Coherent(owner, a) && Coherent(owner, b) && n in a && n in b
    ensures a[n].bitmap == b[n].bitmap && a[n].numslots == b[n].numslots
  {
    assert EntryOk(owner, n, a[n]) && EntryOk(owner, n, b[n]);
  }

  /** clusterLoadConfig on the printed lines of a table, in any order: the same owners, and every node gets its
      bitmap and its count back. */
  method Load(t: Table, lines: seq<Line>, ghost owner: seq<Option<Id>>, ghost nodes: map<Id, Entry>) returns (ok: bool)
    requires t.Valid() && t.owner.Length == |owner| && forall j :: 0 <= j < |owner| ==> t.owner[j] == None
    requires Coherent(owner, nodes) && forall line :: line in lines ==> Printed(line, nodes) && line.node in t.nodes
    requires forall j :: 0 <= j < |owner| && owner[j].Some? ==> owner[j].value in Seen(lines)
    modifies t`nodes, t.owner
    ensures ok && t.Valid() && SameNodes(old(t.nodes), t.nodes) && t.owner[..] == owner
    ensures forall n :: n in nodes && n in t.nodes ==>
              t.nodes[n].bitmap == nodes[n].bitmap && t.nodes[n].numslots == nodes[n].numslots
  {
    hide Coherent, Describes, Words;
    for k := 0 to |lines|
      invariant t.Valid() && SameNodes(old(t.nodes), t.nodes)
      invariant forall j :: 0 <= j < |owner| ==> t.owner[j] == Restored(owner[j], Seen(lines[..k]))
    {
      assert Seen(lines[..k + 1]) == Seen(lines[..k]) + {lines[k].node} by {
        assert lines[..k + 1] == lines[..k] + [lines[k]];
      }
      ghost var rs :| Describes(nodes[lines[k].node].bitmap, rs) && Words(rs, lines[k].words);
      LineRestored(owner, nodes, lines[k].node, rs, Seen(lines[..k]));
      var loaded := LoadLine(t, lines[k].node, lines[k].words, rs);
    }
    assert lines[..|lines|] == lines;
    assert t.owner[..] == owner;
    forall n | n in nodes && n in t.nodes
      ensures t.nodes[n].bitmap == nodes[n].bitmap && t.nodes[n].numslots == nodes[n].numslots
    {
      OwnersDecide(owner, nodes, t.nodes, n);
    }
    ok := true;
  }
}
