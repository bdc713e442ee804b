/**
 Commit, checkpoint, publish, restart and WAL reclamation as one machine over
 any number of tablets sharing any number of WAL lanes.

 A tablet's committed history is `log`; `live` is what the running tablet holds.
 The installed checkpoint is the one the process builds on; `current` and
 `previous` are the two the catalog retains on disk.
 */
module Recovery {
  import opened Options
  import opened Bands

  type Objects = map<Key, int>
  type TabletId = int
  type Lane = int

  datatype Change = Put(value: int) | Delete
  type Changes = map<Key, Change>

  function Apply(o: Objects, c: Changes): Objects {
    map k | k in o.Keys + c.Keys && (k in c ==> c[k].Put?) :: if k in c then c[k].value else o[k]
  }

  /** Replays a history onto a state, oldest record first. */
  function Replay(o: Objects, log: seq<Changes>): Objects
    decreases |log|
  {
    if log == [] then o else Apply(Replay(o, log[..|log| - 1]), log[|log| - 1])
  }

  function State(log: seq<Changes>): Objects {
    Replay(map[], log)
  }

  datatype Checkpoint = Checkpoint(cut: nat, objects: Objects)
  datatype Snapshot = Snapshot(cut: nat, objects: Objects, dirty: set<nat>)

  datatype Tablet = Tablet(
    log: seq<Changes>,
    live: Objects,
    dirty: set<nat>,
    capture: Option<Snapshot>,
    installed: Option<Checkpoint>,
    promise: Option<nat>,
    current: Option<Checkpoint>,
    previous: Option<Checkpoint>)

  /** A WAL segment: the records it holds, by tablet and commit position. */
  datatype Segment = Segment(records: map<(TabletId, nat), Changes>)

  /** The retained segments of every lane, oldest first; the last one is active. */
  datatype Node = Node(tablets: map<TabletId, Tablet>, wal: Wal)

  type Wal = map<Lane, seq<Segment>>

  predicate KeptAt(wal: Wal, lane: Lane, i: nat, t: TabletId, c: nat) {
    lane in wal && i < |wal[lane]| && (t, c) in wal[lane][i].records
  }

  ghost predicate Kept(wal: Wal, t: TabletId, c: nat) {
    exists lane, i: nat :: KeptAt(wal, lane, i, t, c)
  }

  /** The changes stored for a kept position. */
  ghost function RecordAt(wal: Wal, t: TabletId, c: nat): Changes
    requires Kept(wal, t, c)
  {
    var lane, i: nat :| KeptAt(wal, lane, i, t, c);
    wal[lane][i].records[(t, c)]
  }

  /** The positions the WAL keeps of a tablet. */
  ghost function Positions(wal: Wal, t: TabletId): set<nat> {
    set lane <- wal, i | 0 <= i < |wal[lane]|, e <- wal[lane][i].records | e.0 == t :: e.1
  }

  ghost function Highest(s: set<nat>): (h: nat)
    ensures forall c <- s :: c <= h
    ensures h in s || h == 0
    decreases |s|
  {
    if forall c: nat :: c !in s then 0
    else
      var c :| c in s;
      var rest := Highest(s - {c});
      assert forall x <- s :: x == c || x in s - {c};
      if c <= rest then rest else c
  }

  function BandsOf(c: Changes): set<nat> {
    set k | k in c :: BandOf(k)
  }

  /** The content of an incremental checkpoint: dirty bands from the snapshot, the others from the base. */
  function Incremental(base: Option<Checkpoint>, snap: Snapshot): Objects {
    if base.None? then snap.objects
    else (map k | k in snap.objects && BandOf(k) in snap.dirty :: snap.objects[k])
         + (map k | k in base.value.objects && BandOf(k) !in snap.dirty :: base.value.objects[k])
  }

  // ----- Loading and replaying -----

  datatype Loaded = Loaded(objects: Objects, cut: nat)

  /** What `load_installed` starts recovery from: the current chain, or the retained previous one. */
  function Load(tab: Tablet, fellBack: bool): Loaded {
    var from := if fellBack then tab.previous else tab.current;
    if from.None? then Loaded(map[], 0) else Loaded(from.value.objects, from.value.cut)
  }

  /**
   Replays the records stored above the cut in commit order, up to the highest position the
   WAL keeps of the tablet. A missing position is a chain break (`None`).
   */
  ghost function ReplayKept(wal: Wal, t: TabletId, o: Objects, at: nat, last: nat): Option<Objects>
    decreases last - at
  {
    if at >= last then Some(o)
    else if !Kept(wal, t, at + 1) then None
    else ReplayKept(wal, t, Apply(o, RecordAt(wal, t, at + 1)), at + 1, last)
  }

  ghost function Recover(node: Node, t: TabletId, fellBack: bool): Option<Objects>
    requires t in node.tablets
  {
    var start := Load(node.tablets[t], fellBack);
    ReplayKept(node.wal, t, start.objects, start.cut, Highest(Positions(node.wal, t)))
  }

  // ----- The machine -----

  datatype Step =
    | Commit(lane: Lane, t: TabletId, changes: Changes)
    | Seal(lane: Lane)
    | Capture(t: TabletId)
    | Publish(t: TabletId)
    | FailBuild(t: TabletId)
    | Restart(fellBack: set<TabletId>)
    | Reclaim(lane: Lane, count: nat)

  /** Every record of the segment sits at or below its tablet's recovery promise. */
  predicate Covered(node: Node, s: Segment) {
    forall e <- s.records ::
      e.0 in node.tablets && node.tablets[e.0].promise.Some? && e.1 <= node.tablets[e.0].promise.value
  }

  ghost predicate CanRestart(node: Node, fellBack: set<TabletId>) {
    forall t <- node.tablets ::
      (t in fellBack ==> node.tablets[t].previous.Some?) && Recover(node, t, t in fellBack).Some?
  }

  ghost predicate Enabled(node: Node, s: Step) {
    match s
    case Commit(lane, t, changes) => t in node.tablets && lane in node.wal && node.wal[lane] != []
    case Seal(lane) => lane in node.wal
    case Capture(t) => t in node.tablets && node.tablets[t].capture.None?
    case Publish(t) =>
      t in node.tablets && node.tablets[t].capture.Some? &&
      (node.tablets[t].installed.Some? ==> node.tablets[t].installed.value.cut <= node.tablets[t].capture.value.cut)
    case FailBuild(t) => t in node.tablets && node.tablets[t].capture.Some?
    case Restart(fellBack) => CanRestart(node, fellBack)
    case Reclaim(lane, count) =>
      lane in node.wal && count < |node.wal[lane]| && forall i :: 0 <= i < count ==> Covered(node, node.wal[lane][i])
  }

  function Built(tab: Tablet): Checkpoint
    requires tab.capture.Some?
  {
    Checkpoint(tab.capture.value.cut, Incremental(tab.installed, tab.capture.value))
  }

  function Published(tab: Tablet): Tablet
    requires tab.capture.Some?
  {
    tab.(capture := None, installed := Some(Built(tab)),
         promise := if tab.installed.Some? then Some(tab.installed.value.cut) else None,
         current := Some(Built(tab)), previous := tab.installed)
  }

  /** Restart: the loaded checkpoint is installed, and dirty tracking starts from a clean slate after replay. */
  ghost function Restarted(node: Node, t: TabletId, fellBack: bool): Tablet
    requires t in node.tablets && Recover(node, t, fellBack).Some?
  {
    var tab := node.tablets[t];
    tab.(live := Recover(node, t, fellBack).value, dirty := {}, capture := None,
         installed := if fellBack then tab.previous else tab.current,
         promise := if fellBack || tab.previous.None? then None else Some(tab.previous.value.cut))
  }

  ghost function Next(node: Node, s: Step): Node
    requires Enabled(node, s)
  {
    match s
    case Commit(lane, t, changes) =>
      var tab := node.tablets[t];
      var segs := node.wal[lane];
      var active := |segs| - 1;
      var seg := Segment(segs[active].records[(t, |tab.log| + 1) := changes]);
      Node(node.tablets[t := tab.(log := tab.log + [changes], live := Apply(tab.live, changes),
                                  dirty := tab.dirty + BandsOf(changes))],
           node.wal[lane := segs[active := seg]])
    case Seal(lane) => node.(wal := node.wal[lane := node.wal[lane] + [Segment(map[])]])
    case Capture(t) =>
      var tab := node.tablets[t];
      node.(tablets := node.tablets[t := tab.(capture := Some(Snapshot(|tab.log|, tab.live, tab.dirty)), dirty := {})])
    case Publish(t) => node.(tablets := node.tablets[t := Published(node.tablets[t])])
    case FailBuild(t) => node.(tablets := node.tablets[t := node.tablets[t].(capture := None)])
    case Restart(fellBack) =>
      node.(tablets := map t | t in node.tablets :: Restarted(node, t, t in fellBack))
    case Reclaim(lane, count) => node.(wal := node.wal[lane := node.wal[lane][count..]])
  }

  ghost predicate Legal(node: Node, run: seq<Step>)
    decreases |run|
  {
    run == [] || (Enabled(node, run[0]) && Legal(Next(node, run[0]), run[1..]))
  }

  ghost function Exec(node: Node, run: seq<Step>): Node
    requires Legal(node, run)
    decreases |run|
  {
    if run == [] then node else Exec(Next(node, run[0]), run[1..])
  }

  const FreshTablet := Tablet([], map[], {}, None, None, None, None, None)

  ghost predicate Fresh(node: Node) {
    && (forall t <- node.tablets :: node.tablets[t] == FreshTablet)
    && (forall lane <- node.wal :: node.wal[lane] == [Segment(map[])])
  }

  // ----- What is promised -----

  ghost predicate Exact(tab: Tablet, c: Option<Checkpoint>) {
    c.Some? ==> c.value.cut <= |tab.log| && c.value.objects == State(tab.log[..c.value.cut])
  }

  /** Both retained checkpoints hold exactly the history up to their cut. */
  ghost predicate CheckpointsExact(node: Node) {
    forall t <- node.tablets :: Exact(node.tablets[t], node.tablets[t].current)
      && Exact(node.tablets[t], node.tablets[t].previous) && Exact(node.tablets[t], node.tablets[t].installed)
  }

  /** Recovery from the current or from the retained previous checkpoint gives the full committed state. */
  ghost predicate Lossless(node: Node) {
    forall t <- node.tablets ::
      && Recover(node, t, false) == Some(State(node.tablets[t].log))
      && (node.tablets[t].previous.Some? ==> Recover(node, t, true) == Some(State(node.tablets[t].log)))
  }

  function CutOf(c: Option<Checkpoint>): nat {
    if c.None? then 0 else c.value.cut
  }

  /** The oldest cut recovery may be asked to start from. */
  function Oldest(tab: Tablet): nat {
    if tab.previous.None? then 0 else tab.previous.value.cut
  }

  /** The bookkeeping half of the invariant: cuts are ordered and the WAL keeps every record above the oldest cut. */
  ghost predicate CutsInv(tab: Tablet) {
    && Oldest(tab) <= CutOf(tab.installed) && Oldest(tab) <= CutOf(tab.current)
    && CutOf(tab.installed) <= |tab.log| && CutOf(tab.current) <= |tab.log|
    && (tab.current.None? ==> tab.previous.None? && tab.installed.None?)
    && (tab.installed.None? ==> tab.current.None?)
    && (tab.promise.Some? ==> tab.promise.value <= Oldest(tab))
    && (tab.capture.Some? ==> tab.capture.value.cut <= |tab.log| && CutOf(tab.installed) <= tab.capture.value.cut)
  }

  ghost predicate RetentionInv(node: Node) {
    && (forall t, c: nat :: t in node.tablets && Oldest(node.tablets[t]) < c <= |node.tablets[t].log| ==> Kept(node.wal, t, c))
    && (forall lane <- node.wal :: node.wal[lane] != [])
  }

  /** Every stored record is the one its tablet committed at that position. */
  ghost predicate WalInv(node: Node) {
    forall lane, i: nat, t, c: nat | KeptAt(node.wal, lane, i, t, c) ::
      && t in node.tablets && 0 < c <= |node.tablets[t].log|
      && node.wal[lane][i].records[(t, c)] == node.tablets[t].log[c - 1]
  }

  /** The tablet's live state and its capture are what its history says. */
  ghost predicate LiveExact(tab: Tablet) {
    && tab.live == State(tab.log)
    && (tab.capture.Some? ==>
          && tab.capture.value.cut <= |tab.log|
          && tab.capture.value.objects == State(tab.log[..tab.capture.value.cut]))
  }

  ghost predicate ContentInv(node: Node) {
    CheckpointsExact(node) && forall t <- node.tablets :: LiveExact(node.tablets[t])
  }

  ghost predicate Inv(node: Node) {
    RetentionInv(node) && WalInv(node) && (forall t <- node.tablets :: CutsInv(node.tablets[t])) && ContentInv(node)
  }

  // ----- Recovery is lossless whenever the invariant holds -----

  lemma EmptyState()
    ensures State([]) == map[]
  {
  }

  lemma StateStep(log: seq<Changes>, n: nat)
    requires n < |log|
    ensures State(log[..n + 1]) == Apply(State(log[..n]), log[n])
  {
    assert log[..n + 1][..n] == log[..n];
  }

  lemma KeptIsAPosition(wal: Wal, t: TabletId, c: nat)
    ensures c in Positions(wal, t) <==> Kept(wal, t, c)
  {
    if c in Positions(wal, t) {
      var lane, i, e :| lane in wal && 0 <= i < |wal[lane]| && e in wal[lane][i].records && e.0 == t && e.1 == c;
      assert KeptAt(wal, lane, i, t, c);
    }
    if Kept(wal, t, c) {
      var lane, i: nat :| KeptAt(wal, lane, i, t, c);
      assert (t, c) in wal[lane][i].records;
    }
  }

  /** What is stored for a kept position is what was committed there. */
  lemma RecordIsCommitted(node: Node, t: TabletId, c: nat)
    requires WalInv(node) && Kept(node.wal, t, c)
    ensures t in node.tablets && 0 < c <= |node.tablets[t].log| && RecordAt(node.wal, t, c) == node.tablets[t].log[c - 1]
  {
    var lane, i: nat :| KeptAt(node.wal, lane, i, t, c) && RecordAt(node.wal, t, c) == node.wal[lane][i].records[(t, c)];
  }

  /** The WAL of a tablet ends where its history does, as soon as the last record is kept. */
  lemma HighestIsLast(node: Node, t: TabletId)
    requires WalInv(node) && t in node.tablets
    ensures Highest(Positions(node.wal, t)) <= |node.tablets[t].log|
    ensures Kept(node.wal, t, |node.tablets[t].log|) ==> Highest(Positions(node.wal, t)) == |node.tablets[t].log|
  {
    var h := Highest(Positions(node.wal, t));
    KeptIsAPosition(node.wal, t, h);
    if Kept(node.wal, t, h) {
      RecordIsCommitted(node, t, h);
    }
    KeptIsAPosition(node.wal, t, |node.tablets[t].log|);
  }

  lemma {:induction false} ReplayReachesTheEnd(node: Node, t: TabletId, at: nat)
    requires WalInv(node) && t in node.tablets && at <= |node.tablets[t].log|
    requires forall c: nat :: at < c <= |node.tablets[t].log| ==> Kept(node.wal, t, c)
    ensures ReplayKept(node.wal, t, State(node.tablets[t].log[..at]), at, Highest(Positions(node.wal, t)))
            == Some(State(node.tablets[t].log))
    decreases |node.tablets[t].log| - at
  {
    hide State, Highest, Positions, WalInv, RecordAt;
    var log := node.tablets[t].log;
    HighestIsLast(node, t);
    if at < |log| {
      assert Kept(node.wal, t, |log|);
      StateStep(log, at);
      RecordIsCommitted(node, t, at + 1);
      ReplayReachesTheEnd(node, t, at + 1);
    } else {
      assert log[..at] == log;
    }
  }

  lemma InvIsLossless(node: Node)
    requires Inv(node)
    ensures Lossless(node)
  {
    hide ReplayKept, WalInv, Highest, Positions, Replay;
    assert State([]) == map[] by { EmptyState(); }
    forall t <- node.tablets
      ensures Recover(node, t, false) == Some(State(node.tablets[t].log))
      ensures node.tablets[t].previous.Some? ==> Recover(node, t, true) == Some(State(node.tablets[t].log))
    {
      var tab := node.tablets[t];
      assert CutsInv(tab);
      assert tab.log[..0] == [];
      ReplayReachesTheEnd(node, t, Load(tab, false).cut);
      if tab.previous.Some? {
        ReplayReachesTheEnd(node, t, Load(tab, true).cut);
      }
    }
  }

  // ----- Which steps keep it -----

  predicate DiffersAt(a: Objects, b: Objects, k: Key) {
    (k in a) != (k in b) || (k in a && a[k] != b[k])
  }

  lemma SameObjects(a: Objects, b: Objects)
    ensures a == b <==> forall k :: !DiffersAt(a, b, k)
  {
    if forall k :: !DiffersAt(a, b, k) {
      forall k ensures (k in a <==> k in b) && (k in a ==> a[k] == b[k]) {
        assert !DiffersAt(a, b, k);
      }
    }
  }

  /** Every object that changed since the installed checkpoint lies in a captured dirty band. */
  ghost predicate PublishCovers(tab: Tablet) {
    tab.capture.Some? && tab.installed.Some? ==>
      forall k :: DiffersAt(tab.installed.value.objects, tab.capture.value.objects, k) ==>
        BandOf(k) in tab.capture.value.dirty
  }

  /** The published content is the captured one exactly when the dirty bands cover the changes. */
  lemma BuiltExactIff(tab: Tablet)
    requires tab.capture.Some?
    ensures Built(tab).objects == tab.capture.value.objects <==> PublishCovers(tab)
  {
    if tab.installed.Some? {
      var built, snap := Built(tab).objects, tab.capture.value;
      forall k ensures DiffersAt(built, snap.objects, k) <==>
        BandOf(k) !in snap.dirty && DiffersAt(tab.installed.value.objects, snap.objects, k) {}
      SameObjects(built, snap.objects);
    }
  }

  /** Committing stores one more record and touches no other. */
  lemma CommitStores(node: Node, lane: Lane, t: TabletId, changes: Changes, l: Lane, i: nat, u: TabletId, c: nat)
    requires Enabled(node, Commit(lane, t, changes))
    ensures var n, wal' := |node.tablets[t].log|, Next(node, Commit(lane, t, changes)).wal;
      && (KeptAt(wal', l, i, u, c) <==>
            KeptAt(node.wal, l, i, u, c) || (l == lane && i == |node.wal[lane]| - 1 && u == t && c == n + 1))
      && (KeptAt(wal', l, i, u, c) ==>
            && (KeptAt(node.wal, l, i, u, c) && (u, c) != (t, n + 1) ==>
                  wal'[l][i].records[(u, c)] == node.wal[l][i].records[(u, c)])
            && (l == lane && i == |node.wal[lane]| - 1 && (u, c) == (t, n + 1) ==> wal'[l][i].records[(u, c)] == changes))
  {
  }

  lemma CommitRetains(node: Node, lane: Lane, t: TabletId, changes: Changes)
    requires RetentionInv(node) && Enabled(node, Commit(lane, t, changes))
    ensures RetentionInv(Next(node, Commit(lane, t, changes)))
  {
    hide KeptAt;
    var node' := Next(node, Commit(lane, t, changes));
    var n := |node.tablets[t].log|;
    forall u, c: nat | u in node'.tablets && Oldest(node'.tablets[u]) < c <= |node'.tablets[u].log|
      ensures Kept(node'.wal, u, c)
    {
      if u == t && c == n + 1 {
        CommitStores(node, lane, t, changes, lane, |node.wal[lane]| - 1, u, c);
      } else {
        assert Kept(node.wal, u, c);
        var l, i: nat :| KeptAt(node.wal, l, i, u, c);
        CommitStores(node, lane, t, changes, l, i, u, c);
      }
    }
  }

  lemma CommitIsFaithful(node: Node, lane: Lane, t: TabletId, changes: Changes)
    requires WalInv(node) && Enabled(node, Commit(lane, t, changes))
    ensures WalInv(Next(node, Commit(lane, t, changes)))
  {
    hide KeptAt;
    var node' := Next(node, Commit(lane, t, changes));
    forall l, i: nat, u, c: nat | KeptAt(node'.wal, l, i, u, c)
      ensures u in node'.tablets && 0 < c <= |node'.tablets[u].log|
      ensures l in node'.wal && i < |node'.wal[l]| && (u, c) in node'.wal[l][i].records
      ensures node'.wal[l][i].records[(u, c)] == node'.tablets[u].log[c - 1]
    {
      CommitStores(node, lane, t, changes, l, i, u, c);
      KeptIsThere(node'.wal, l, i, u, c);
    }
  }

  lemma KeptIsThere(wal: Wal, l: Lane, i: nat, t: TabletId, c: nat)
    requires KeptAt(wal, l, i, t, c)
    ensures l in wal && i < |wal[l]| && (t, c) in wal[l][i].records
  {
  }

  lemma CommitContent(node: Node, lane: Lane, t: TabletId, changes: Changes)
    requires ContentInv(node) && (forall u <- node.tablets :: CutsInv(node.tablets[u]))
    requires Enabled(node, Commit(lane, t, changes))
    ensures ContentInv(Next(node, Commit(lane, t, changes)))
    ensures forall u <- node.tablets :: CutsInv(Next(node, Commit(lane, t, changes)).tablets[u])
  {
    hide State, Apply;
    var node' := Next(node, Commit(lane, t, changes));
    var tab, tab' := node.tablets[t], node'.tablets[t];
    assert CutsInv(tab);
    assert forall n: nat :: n <= |tab.log| ==> tab'.log[..n] == tab.log[..n];
    StateStep(tab'.log, |tab.log|);
    assert tab'.log[..|tab'.log|] == tab'.log && tab.log[..|tab.log|] == tab.log;
    forall u <- node'.tablets ensures CutsInv(node'.tablets[u]) {
      assert CutsInv(node.tablets[u]);
    }
    assert CheckpointsExact(node');
  }

  lemma CommitKeeps(node: Node, lane: Lane, t: TabletId, changes: Changes)
    requires Inv(node) && Enabled(node, Commit(lane, t, changes))
    ensures Inv(Next(node, Commit(lane, t, changes)))
  {
    CommitRetains(node, lane, t, changes);
    CommitIsFaithful(node, lane, t, changes);
    CommitContent(node, lane, t, changes);
    hide RetentionInv, WalInv, CutsInv, ContentInv;
  }

  predicate SameRecord(was: Wal, now: Wal, lane: Lane, i: nat, j: nat, t: TabletId, c: nat) {
    && KeptAt(now, lane, i, t, c) && KeptAt(was, lane, j, t, c)
    && now[lane][i].records[(t, c)] == was[lane][j].records[(t, c)]
  }

  /** The WAL stays faithful wherever it only loses records and no history changes. */
  lemma FaithfulFrame(node: Node, node': Node)
    requires WalInv(node) && node'.tablets.Keys == node.tablets.Keys
    requires forall t <- node.tablets :: node'.tablets[t].log == node.tablets[t].log
    requires forall lane, i: nat, t, c: nat | KeptAt(node'.wal, lane, i, t, c) ::
      exists j: nat :: SameRecord(node.wal, node'.wal, lane, i, j, t, c)
    ensures WalInv(node')
  {
    forall lane, i: nat, t, c: nat | KeptAt(node'.wal, lane, i, t, c)
      ensures t in node'.tablets && 0 < c <= |node'.tablets[t].log|
      ensures node'.wal[lane][i].records[(t, c)] == node'.tablets[t].log[c - 1]
    {
      var j: nat :| SameRecord(node.wal, node'.wal, lane, i, j, t, c);
      assert KeptAt(node.wal, lane, j, t, c);
    }
  }

  lemma SameWalIsFaithful(node: Node, node': Node)
    requires WalInv(node) && node'.wal == node.wal && node'.tablets.Keys == node.tablets.Keys
    requires forall t <- node.tablets :: node'.tablets[t].log == node.tablets[t].log
    ensures WalInv(node')
  {
    forall lane, i: nat, t, c: nat | KeptAt(node'.wal, lane, i, t, c)
      ensures t in node'.tablets && 0 < c <= |node'.tablets[t].log|
      ensures node'.wal[lane][i].records[(t, c)] == node'.tablets[t].log[c - 1]
    {
      assert KeptAt(node.wal, lane, i, t, c);
    }
  }

  lemma SameCutsRetain(node: Node, node': Node)
    requires RetentionInv(node) && node'.wal == node.wal && node'.tablets.Keys == node.tablets.Keys
    requires forall t <- node.tablets ::
      node'.tablets[t].log == node.tablets[t].log && Oldest(node.tablets[t]) <= Oldest(node'.tablets[t])
    ensures RetentionInv(node')
  {
  }

  lemma SealKeeps(node: Node, lane: Lane)
    requires Inv(node) && lane in node.wal
    ensures Inv(Next(node, Seal(lane)))
  {
    hide ContentInv, CutsInv, WalInv;
    var node' := Next(node, Seal(lane));
    forall u, c: nat | u in node'.tablets && Oldest(node'.tablets[u]) < c <= |node'.tablets[u].log|
      ensures Kept(node'.wal, u, c)
    {
      assert Kept(node.wal, u, c);
      var l, i: nat :| KeptAt(node.wal, l, i, u, c);
      assert KeptAt(node'.wal, l, i, u, c);
    }
    SealIsFaithful(node, lane);
    SameTablets(node, node');
  }

  lemma SealIsFaithful(node: Node, lane: Lane)
    requires WalInv(node) && lane in node.wal
    ensures WalInv(Next(node, Seal(lane)))
  {
    hide WalInv;
    var node' := Next(node, Seal(lane));
    forall l, i: nat, u, c: nat | KeptAt(node'.wal, l, i, u, c)
      ensures exists j: nat :: SameRecord(node.wal, node'.wal, l, i, j, u, c)
    {
      assert SameRecord(node.wal, node'.wal, l, i, i, u, c);
    }
    FaithfulFrame(node, node');
  }

  lemma SameTablets(node: Node, node': Node)
    requires ContentInv(node) && node'.tablets == node.tablets
    ensures ContentInv(node')
  {
  }

  /** Reclamation drops only records that neither retained checkpoint needs. */
  lemma ReclaimKeeps(node: Node, lane: Lane, count: nat)
    requires Inv(node) && Enabled(node, Reclaim(lane, count))
    ensures Inv(Next(node, Reclaim(lane, count)))
  {
    hide ContentInv, WalInv;
    var node' := Next(node, Reclaim(lane, count));
    forall u, c: nat | u in node'.tablets && Oldest(node'.tablets[u]) < c <= |node'.tablets[u].log|
      ensures Kept(node'.wal, u, c)
    {
      assert Kept(node.wal, u, c) && CutsInv(node.tablets[u]);
      var l, i: nat :| KeptAt(node.wal, l, i, u, c);
      if l == lane {
        assert forall j :: 0 <= j < count ==> Covered(node, node.wal[lane][j]);
        assert i >= count;
        assert KeptAt(node'.wal, l, i - count, u, c);
      } else {
        assert KeptAt(node'.wal, l, i, u, c);
      }
    }
    ReclaimIsFaithful(node, lane, count);
    SameTablets(node, node');
  }

  lemma ReclaimIsFaithful(node: Node, lane: Lane, count: nat)
    requires WalInv(node) && Enabled(node, Reclaim(lane, count))
    ensures WalInv(Next(node, Reclaim(lane, count)))
  {
    hide WalInv;
    var node' := Next(node, Reclaim(lane, count));
    forall l, i: nat, u, c: nat | KeptAt(node'.wal, l, i, u, c)
      ensures exists j: nat :: SameRecord(node.wal, node'.wal, l, i, j, u, c)
    {
      var j: nat := if l == lane then i + count else i;
      assert SameRecord(node.wal, node'.wal, l, i, j, u, c);
    }
    FaithfulFrame(node, node');
  }

  lemma CaptureKeeps(node: Node, t: TabletId)
    requires Inv(node) && Enabled(node, Capture(t))
    ensures Inv(Next(node, Capture(t)))
  {
    hide State, WalInv, RetentionInv, Recover;
    var node' := Next(node, Capture(t));
    var tab := node.tablets[t];
    assert tab.log[..|tab.log|] == tab.log;
    SameWalIsFaithful(node, node');
    SameCutsRetain(node, node');
    forall u <- node'.tablets
      ensures CutsInv(node'.tablets[u]) && LiveExact(node'.tablets[u])
      ensures Exact(node'.tablets[u], node'.tablets[u].current) && Exact(node'.tablets[u], node'.tablets[u].previous)
      ensures Exact(node'.tablets[u], node'.tablets[u].installed)
    {
      assert CutsInv(node.tablets[u]) && LiveExact(node.tablets[u]);
    }
  }

  lemma PublishKeepsCuts(node: Node, t: TabletId)
    requires Inv(node) && Enabled(node, Publish(t))
    ensures RetentionInv(Next(node, Publish(t))) && WalInv(Next(node, Publish(t)))
    ensures forall u <- Next(node, Publish(t)).tablets :: CutsInv(Next(node, Publish(t)).tablets[u])
  {
    hide WalInv;
    assert CutsInv(node.tablets[t]);
    SameWalIsFaithful(node, Next(node, Publish(t)));
  }

  lemma PublishKeepsContentIff(node: Node, t: TabletId)
    requires Inv(node) && Enabled(node, Publish(t))
    ensures CheckpointsExact(Next(node, Publish(t))) <==> PublishCovers(node.tablets[t])
    ensures PublishCovers(node.tablets[t]) ==> ContentInv(Next(node, Publish(t)))
  {
    var tab := node.tablets[t];
    var node' := Next(node, Publish(t));
    assert CutsInv(tab);
    BuiltExactIff(tab);
    if CheckpointsExact(node') {
      assert Exact(node'.tablets[t], node'.tablets[t].current);
    }
  }

  lemma RestartKeeps(node: Node, fellBack: set<TabletId>)
    requires Inv(node) && Enabled(node, Restart(fellBack))
    ensures Inv(Next(node, Restart(fellBack)))
  {
    hide Recover, State, WalInv, RetentionInv;
    InvIsLossless(node);
    var node' := Next(node, Restart(fellBack));
    forall t <- node'.tablets ensures CutsInv(node'.tablets[t]) {
      assert CutsInv(node.tablets[t]);
    }
    SameWalIsFaithful(node, node');
    SameCutsRetain(node, node');
  }

  lemma FailBuildKeeps(node: Node, t: TabletId)
    requires Inv(node) && Enabled(node, FailBuild(t))
    ensures Inv(Next(node, FailBuild(t)))
  {
    hide State, WalInv, RetentionInv, Recover;
    var node' := Next(node, FailBuild(t));
    SameWalIsFaithful(node, node');
    SameCutsRetain(node, node');
    forall u <- node'.tablets
      ensures CutsInv(node'.tablets[u]) && LiveExact(node'.tablets[u])
      ensures Exact(node'.tablets[u], node'.tablets[u].current) && Exact(node'.tablets[u], node'.tablets[u].previous)
      ensures Exact(node'.tablets[u], node'.tablets[u].installed)
    {
      assert CutsInv(node.tablets[u]) && LiveExact(node.tablets[u]);
    }
  }

  /** Every step keeps the invariant, a publish exactly when its dirty bands cover the changes. */
  lemma StepKeepsIff(node: Node, s: Step)
    requires Inv(node) && Enabled(node, s)
    ensures (s.Publish? ==> PublishCovers(node.tablets[s.t])) ==> Inv(Next(node, s))
    ensures s.Publish? && !PublishCovers(node.tablets[s.t]) ==> !CheckpointsExact(Next(node, s))
  {
    match s
    case Commit(lane, t, changes) => CommitKeeps(node, lane, t, changes);
    case Seal(lane) => SealKeeps(node, lane);
    case Capture(t) => CaptureKeeps(node, t);
    case Publish(t) =>
      PublishKeepsCuts(node, t);
      PublishKeepsContentIff(node, t);
    case FailBuild(t) => FailBuildKeeps(node, t);
    case Restart(fellBack) => RestartKeeps(node, fellBack);
    case Reclaim(lane, count) => ReclaimKeeps(node, lane, count);
  }

  // ----- Whole runs -----

  ghost predicate PublishesCover(node: Node, run: seq<Step>)
    requires Legal(node, run)
    decreases |run|
  {
    run == [] || ((run[0].Publish? ==> PublishCovers(node.tablets[run[0].t])) && PublishesCover(Next(node, run[0]), run[1..]))
  }

  ghost predicate AlwaysExact(node: Node, run: seq<Step>)
    requires Legal(node, run)
    decreases |run|
  {
    CheckpointsExact(node) && (run == [] || AlwaysExact(Next(node, run[0]), run[1..]))
  }

  lemma {:induction false} RunExactIff(node: Node, run: seq<Step>)
    requires Inv(node) && Legal(node, run)
    ensures AlwaysExact(node, run) <==> PublishesCover(node, run)
    ensures PublishesCover(node, run) ==> Inv(Exec(node, run))
    decreases |run|
  {
    if run != [] {
      StepKeepsIff(node, run[0]);
      if run[0].Publish? ==> PublishCovers(node.tablets[run[0].t]) {
        RunExactIff(Next(node, run[0]), run[1..]);
      } else {
        assert !CheckpointsExact(Next(node, run[0]));
      }
    }
  }

  /** Every step of every run, covering or not, keeps the WAL faithful. */
  lemma StepIsFaithful(node: Node, s: Step)
    requires WalInv(node) && Enabled(node, s)
    ensures WalInv(Next(node, s))
  {
    hide WalInv, Recover, KeptAt;
    match s
    case Commit(lane, t, changes) => CommitIsFaithful(node, lane, t, changes);
    case Seal(lane) => SealIsFaithful(node, lane);
    case Reclaim(lane, count) => ReclaimIsFaithful(node, lane, count);
    case Capture(t) => SameWalIsFaithful(node, Next(node, s));
    case Publish(t) => SameWalIsFaithful(node, Next(node, s));
    case FailBuild(t) => SameWalIsFaithful(node, Next(node, s));
    case Restart(fellBack) => SameWalIsFaithful(node, Next(node, s));
  }

  lemma {:induction false} RunIsFaithful(node: Node, run: seq<Step>)
    requires WalInv(node) && Legal(node, run)
    ensures WalInv(Exec(node, run))
    decreases |run|
  {
    hide WalInv, Next, Enabled;
    if run != [] {
      StepIsFaithful(node, run[0]);
      RunIsFaithful(Next(node, run[0]), run[1..]);
    }
  }

  lemma FreshIsInv(node: Node)
    requires Fresh(node)
    ensures Inv(node)
  {
  }

  /**
   The retained checkpoints hold exactly the committed history at every moment of a
   run if and only if every publish covers what changed since the checkpoint it
   builds on; and then no run loses a committed record: recovery from either
   retained checkpoint and the kept WAL gives the full committed state.
   */
  lemma NoCommittedRecordIsLost(node: Node, run: seq<Step>)
    requires Fresh(node) && Legal(node, run)
    ensures AlwaysExact(node, run) <==> PublishesCover(node, run)
    ensures PublishesCover(node, run) ==> Lossless(Exec(node, run))
  {
    FreshIsInv(node);
    RunExactIff(node, run);
    if PublishesCover(node, run) {
      InvIsLossless(Exec(node, run));
    }
  }
}
