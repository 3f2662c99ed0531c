/** The append only file against the events of a run alone: what the file holds is told by the snapshot of the last
    rewrite that succeeded and by the commands that were fed since that rewrite began. */
module AofEvents {
  import opened Common
  import opened AofFormat
  import opened AofHistory

  /** The commands that the events feed, with their databases. */
  ghost function FedBy(events: seq<Event>): Targeted {
    if events == [] then [] else FedBy(events[..|events| - 1]) + FedByOne(events[|events| - 1])
  }

  ghost function FedByOne(e: Event): Targeted { if e.Feed? then [(e.db, e.c)] else [] }

  /** What the events from `i` to before `j` feed. */
  ghost function FedFrom(events: seq<Event>, i: nat, j: nat): Targeted
    requires i <= j <= |events|
  {
    FedBy(events[i..j])
  }

  lemma OneMoreEvent(events: seq<Event>, i: nat, j: nat)
    requires i <= j < |events|
    ensures FedFrom(events, i, j + 1) == FedFrom(events, i, j) + FedByOne(events[j])
  {
    assert events[i..j + 1][..j - i] == events[i..j];
  }

  lemma NoEvents(events: seq<Event>, j: nat)
    requires j <= |events|
    ensures FedFrom(events, j, j) == []
  {}

  /** A child is forked to write `Snapshot(e)`. */
  predicate Starts(e: Event) { e.Fork? || (e.SwitchOn? && e.start.Some?) }

  function Snapshot(e: Event): string
    requires Starts(e)
  {
    if e.Fork? then e.snapshot else e.start.value
  }

  /** No child is left, or a new one. */
  predicate Ends(e: Event) { e.Done? || e.Kill? || e.SwitchOff? || e.SwitchOn? }

  /** A rewrite succeeds: the file is replaced. */
  predicate Renews(s: Server, e: Event) { e == Done(true) && InPhase(s, Exited(0)) }

  // ------------------------------------------------------------------
  // One event
  // ------------------------------------------------------------------

  /** A child that writes `snapshot` runs, and `commands` were fed since it was forked. */
  ghost predicate ChildIs(s: Server, snapshot: string, commands: Targeted, mode: Mode) {
    s.child.Some? && s.child.value.snapshot == snapshot && s.forked.commands == commands && s.mode == mode
  }

  /** The mode in which a rewrite runs that `e` starts. */
  function ModeOf(s: Server, e: Event): Mode { if e.SwitchOn? then Waiting else s.mode }

  /** Switching on waits for the rewrite that it starts; the file stays until that rewrite is done. */
  lemma StartStep(s: Server, e: Event)
    requires Enabled(s, e) && Starts(e)
    ensures ChildIs(Next(s, e), Snapshot(e), [], ModeOf(s, e)) && Next(s, e).log.file == s.log.file
  {}

  lemma ChildStep(s: Server, e: Event, snapshot: string, commands: Targeted, mode: Mode)
    requires Enabled(s, e) && !Ends(e) && ChildIs(s, snapshot, commands, mode)
    ensures ChildIs(Next(s, e), snapshot, commands + FedByOne(e), mode)
  {
    hide PrintAll, FeedRecords, FlushStep;
    if !e.Feed? { assert commands + [] == commands; }
  }

  /** The file began with `base`, and `commands` were fed since. */
  ghost predicate FedIs(s: Server, base: string, commands: Targeted) { s.base == base && s.fed.commands == commands }

  lemma FedStep(s: Server, e: Event, base: string, commands: Targeted)
    requires Enabled(s, e) && !Renews(s, e) && FedIs(s, base, commands)
    ensures FedIs(Next(s, e), base, commands + FedByOne(e))
  {
    hide PrintAll, FeedRecords, FlushStep;
    if !e.Feed? { assert commands + [] == commands; }
  }

  lemma RenewStep(s: Server, e: Event, snapshot: string, commands: Targeted, mode: Mode)
    requires Enabled(s, e) && Renews(s, e) && ChildIs(s, snapshot, commands, mode)
    ensures FedIs(Next(s, e), snapshot, commands + FedByOne(e)) && (mode != Off ==> Next(s, e).mode == On)
  {
    assert commands + [] == commands;
  }

  // ------------------------------------------------------------------
  // Runs
  // ------------------------------------------------------------------

  /** Event `i` starts a rewrite that nothing ends before event `j`. */
  ghost predicate Rewriting(events: seq<Event>, i: nat, j: nat) {
    i < j <= |events| && Starts(events[i]) && forall k :: i < k < j ==> !Ends(events[k])
  }

  /** Until it ends, the rewrite that event `i` starts is the one that runs, and what was fed since is known. */
  lemma {:induction false} ChildRuns(states: seq<Server>, events: seq<Event>, i: nat, j: nat)
    requires Run(states, events) && Rewriting(events, i, j)
    ensures ChildIs(states[j], Snapshot(events[i]), FedFrom(events, i + 1, j), ModeOf(states[i], events[i]))
    decreases j
  {
    hide Run, Enabled, Next, FedFrom, ChildIs;
    StepIs(states, events, j - 1);
    if j == i + 1 {
      StartStep(states[i], events[i]);
      NoEvents(events, j);
    } else {
      assert Rewriting(events, i, j - 1) && !Ends(events[j - 1]);
      hide Rewriting, Starts, Ends, ModeOf, Snapshot;
      ChildRuns(states, events, i, j - 1);
      ChildStep(states[j - 1], events[j - 1], Snapshot(events[i]), FedFrom(events, i + 1, j - 1),
                ModeOf(states[i], events[i]));
      OneMoreEvent(events, i + 1, j - 1);
    }
  }

  /** No rewrite succeeds from `j` to before `k`. */
  ghost predicate NoRenewal(states: seq<Server>, events: seq<Event>, j: nat, k: nat) {
    k <= |events| && |states| == |events| + 1 && forall m :: j <= m < k ==> !Renews(states[m], events[m])
  }

  /** Without one, the history grows by what the events feed. */
  lemma {:induction false} FedRuns(states: seq<Server>, events: seq<Event>, i: nat, j: nat, k: nat, base: string)
    requires Run(states, events) && NoRenewal(states, events, j, k) && i <= j <= k
    requires FedIs(states[j], base, FedFrom(events, i, j))
    ensures FedIs(states[k], base, FedFrom(events, i, k))
    decreases k
  {
    hide Run, Enabled, Next, FedFrom, FedIs, Renews;
    if j < k {
      StepIs(states, events, k - 1);
      assert NoRenewal(states, events, j, k - 1) && !Renews(states[k - 1], events[k - 1]);
      hide NoRenewal;
      FedRuns(states, events, i, j, k - 1, base);
      FedStep(states[k - 1], events[k - 1], base, FedFrom(events, i, k - 1));
      OneMoreEvent(events, i, k - 1);
    }
  }

  /** The file and what waits to be written are `base` and records that replay as `commands`, in their databases. */
  ghost predicate Holds(s: Server, base: string, commands: Targeted) {
    && s.log.file + s.log.buf == base + PrintAll(s.fed.records) && s.log.size == |s.log.file|
    && forall db: int :: Targets(s.fed.records, db) == commands
  }

  lemma HoldsNow(states: seq<Server>, events: seq<Event>, k: nat, base: string, commands: Targeted)
    requires Run(states, events) && k < |states| && states[k].mode == On && FedIs(states[k], base, commands)
    ensures Holds(states[k], base, commands)
  {
    LogIsHistory(states, events, k);
  }

  /** Until a rewrite succeeds, the file is what the server found, followed by every command of the run. */
  lemma HistoryFromStart(states: seq<Server>, events: seq<Event>, k: nat)
    requires Run(states, events) && NoRenewal(states, events, 0, k) && states[k].mode == On
    ensures Holds(states[k], states[0].log.file, FedFrom(events, 0, k))
  {
    var base := states[0].log.file;
    NoEvents(events, 0);
    assert FedIs(states[0], base, FedFrom(events, 0, 0));
    hide Run, FedFrom, FedIs, Holds;
    FedRuns(states, events, 0, 0, k, base);
    HoldsNow(states, events, k, base, FedFrom(events, 0, k));
  }

  lemma Renewed(states: seq<Server>, events: seq<Event>, i: nat, j: nat)
    requires Run(states, events) && Rewriting(events, i, j) && j < |events| && Renews(states[j], events[j])
    ensures FedIs(states[j + 1], Snapshot(events[i]), FedFrom(events, i + 1, j + 1))
    ensures ModeOf(states[i], events[i]) != Off ==> states[j + 1].mode == On
  {
    hide Run, Enabled, Next, FedFrom, FedIs, ChildIs, ModeOf, Snapshot, Renews;
    StepIs(states, events, j);
    ChildRuns(states, events, i, j);
    RenewStep(states[j], events[j], Snapshot(events[i]), FedFrom(events, i + 1, j), ModeOf(states[i], events[i]));
    OneMoreEvent(events, i + 1, j);
  }

  /** A rewrite begun by event `i` and done by event `j`, with the file on or switched on by event `i`, turns the file
      on. At any later moment, as long as no other rewrite has succeeded and the file is on, the file is the snapshot
      followed by every command fed since event `i`, in order and each in its database. */
  lemma HistorySinceRewrite(states: seq<Server>, events: seq<Event>, i: nat, j: nat, k: nat)
    requires Run(states, events) && Rewriting(events, i, j) && j < k <= |events| && Renews(states[j], events[j])
    requires NoRenewal(states, events, j + 1, k)
    ensures ModeOf(states[i], events[i]) != Off ==> states[j + 1].mode == On
    ensures states[k].mode == On ==> Holds(states[k], Snapshot(events[i]), FedFrom(events, i + 1, k))
  {
    hide Run, FedFrom, FedIs, ModeOf, Snapshot, Renews, Holds;
    Renewed(states, events, i, j);
    var base := Snapshot(events[i]);
    FedRuns(states, events, i + 1, j + 1, k, base);
    if states[k].mode == On { HoldsNow(states, events, k, base, FedFrom(events, i + 1, k)); }
  }
}
