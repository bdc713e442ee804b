/**
 When dirty tracking is exact: on every run whose restarts replay nothing and whose
 failed builds leave every captured band dirty again, and on no other run.
 */
module Tracking {
  import opened Options
  import opened Bands
  import opened Recovery

  /** The bands touched by the records of a history between two positions. */
  ghost function Touched(log: seq<Changes>, from: nat, upto: nat): set<nat>
    requires from <= upto <= |log|
  {
    set i, k | from <= i < upto && k in log[i] :: BandOf(k)
  }

  lemma {:induction false} UntouchedIsUnchanged(log: seq<Changes>, from: nat, upto: nat, k: Key)
    requires from <= upto <= |log| && BandOf(k) !in Touched(log, from, upto)
    ensures !DiffersAt(State(log[..from]), State(log[..upto]), k)
    decreases upto
  {
    if from < upto {
      assert forall b <- Touched(log, from, upto - 1) :: b in Touched(log, from, upto);
      UntouchedIsUnchanged(log, from, upto - 1, k);
      StateStep(log, upto - 1);
      assert forall other <- log[upto - 1] :: BandOf(other) in Touched(log, from, upto);
    }
  }

  /** The tracker, or the capture under way and the tracker, knows exactly the bands touched since the installed cut. */
  ghost predicate Tracked(tab: Tablet) {
    CutsInv(tab) &&
    if tab.capture.None? then Touched(tab.log, CutOf(tab.installed), |tab.log|) == tab.dirty
    else
      && Touched(tab.log, CutOf(tab.installed), tab.capture.value.cut) == tab.capture.value.dirty
      && Touched(tab.log, tab.capture.value.cut, |tab.log|) == tab.dirty
  }

  lemma TrackedCovers(node: Node, t: TabletId)
    requires Inv(node) && t in node.tablets && Tracked(node.tablets[t])
    ensures PublishCovers(node.tablets[t])
  {
    var tab := node.tablets[t];
    if tab.capture.Some? && tab.installed.Some? {
      forall k | DiffersAt(tab.installed.value.objects, tab.capture.value.objects, k)
        ensures BandOf(k) in tab.capture.value.dirty
      {
        if BandOf(k) !in tab.capture.value.dirty {
          UntouchedIsUnchanged(tab.log, CutOf(tab.installed), tab.capture.value.cut, k);
        }
      }
    }
  }

  /** What keeps tracking exact: restarts with nothing to replay, failed builds whose captured bands are dirty again. */
  ghost predicate Careful(node: Node, s: Step) {
    match s
    case Restart(fellBack) =>
      forall t <- node.tablets ::
        var cut := Load(node.tablets[t], t in fellBack).cut;
        cut <= |node.tablets[t].log| && Touched(node.tablets[t].log, cut, |node.tablets[t].log|) == {}
    case FailBuild(t) =>
      t in node.tablets && node.tablets[t].capture.Some? && node.tablets[t].capture.value.dirty <= node.tablets[t].dirty
    case _ => true
  }

  ghost predicate AllTracked(node: Node) {
    forall t <- node.tablets :: Tracked(node.tablets[t])
  }

  lemma TouchedSplits(log: seq<Changes>, from: nat, mid: nat, upto: nat)
    requires from <= mid <= upto <= |log|
    ensures Touched(log, from, upto) == Touched(log, from, mid) + Touched(log, mid, upto)
  {
    forall b
      ensures b in Touched(log, from, upto) <==> b in Touched(log, from, mid) || b in Touched(log, mid, upto)
    {
      if b in Touched(log, from, upto) {
        var i, k :| from <= i < upto && k in log[i] && BandOf(k) == b;
        if i < mid {
          assert b in Touched(log, from, mid);
        } else {
          assert b in Touched(log, mid, upto);
        }
      }
    }
  }

  lemma TouchedMore(log: seq<Changes>, changes: Changes, from: nat)
    requires from <= |log|
    ensures Touched(log + [changes], from, |log| + 1) == Touched(log, from, |log|) + BandsOf(changes)
    ensures forall upto: nat | from <= upto <= |log| :: Touched(log + [changes], from, upto) == Touched(log, from, upto)
  {
    var more := log + [changes];
    forall upto: nat | from <= upto <= |log|
      ensures Touched(more, from, upto) == Touched(log, from, upto)
    {
      assert forall i :: 0 <= i < upto ==> more[i] == log[i];
    }
    TouchedSplits(more, from, |log|, |log| + 1);
    assert more[|log|] == changes;
    assert Touched(more, |log|, |log| + 1) == BandsOf(changes) by {
      forall b | b in BandsOf(changes)
        ensures b in Touched(more, |log|, |log| + 1)
      {
        var k :| k in changes && BandOf(k) == b;
        assert k in more[|log|];
      }
    }
  }

  lemma CommitTracks(node: Node, lane: Lane, t: TabletId, changes: Changes)
    requires Inv(node) && AllTracked(node) && Enabled(node, Commit(lane, t, changes))
    ensures AllTracked(Next(node, Commit(lane, t, changes)))
  {
    hide Touched;
    CommitKeeps(node, lane, t, changes);
    var tab := node.tablets[t];
    TouchedMore(tab.log, changes, CutOf(tab.installed));
    if tab.capture.Some? {
      TouchedMore(tab.log, changes, tab.capture.value.cut);
    }
  }

  lemma RestartTracksIff(node: Node, fellBack: set<TabletId>)
    requires Inv(node) && Enabled(node, Restart(fellBack))
    ensures AllTracked(Next(node, Restart(fellBack))) <==> Careful(node, Restart(fellBack))
  {
    hide Touched, Recover;
    RestartKeeps(node, fellBack);
    var node' := Next(node, Restart(fellBack));
    forall t <- node.tablets
      ensures CutsInv(node'.tablets[t]) && node'.tablets[t].log == node.tablets[t].log && node'.tablets[t].dirty == {}
      ensures node'.tablets[t].capture.None? && CutOf(node'.tablets[t].installed) == Load(node.tablets[t], t in fellBack).cut
    {
    }
  }

  lemma FailBuildTracksIff(node: Node, t: TabletId)
    requires Inv(node) && AllTracked(node) && Enabled(node, FailBuild(t))
    ensures AllTracked(Next(node, FailBuild(t))) <==> Careful(node, FailBuild(t))
  {
    hide Touched;
    var tab := node.tablets[t];
    var node' := Next(node, FailBuild(t));
    assert Tracked(tab) && CutsInv(tab);
    TouchedSplits(tab.log, CutOf(tab.installed), tab.capture.value.cut, |tab.log|);
    assert AllTracked(node') ==> Tracked(node'.tablets[t]);
  }

  lemma CaptureTracks(node: Node, t: TabletId)
    requires Inv(node) && AllTracked(node) && Enabled(node, Capture(t))
    ensures AllTracked(Next(node, Capture(t)))
  {
    CaptureKeeps(node, t);
    assert Tracked(node.tablets[t]);
  }

  lemma PublishTracks(node: Node, t: TabletId)
    requires Inv(node) && AllTracked(node) && Enabled(node, Publish(t))
    ensures AllTracked(Next(node, Publish(t)))
  {
    hide Touched;
    PublishKeepsCuts(node, t);
    assert Tracked(node.tablets[t]);
  }

  /** One step keeps tracking exact if and only if it is careful, and a careful step keeps the invariant. */
  lemma StepTracksIff(node: Node, s: Step)
    requires Inv(node) && AllTracked(node) && Enabled(node, s)
    ensures AllTracked(Next(node, s)) <==> Careful(node, s)
    ensures Inv(Next(node, s))
  {
    hide Touched, Recover;
    if s.Publish? {
      TrackedCovers(node, s.t);
    }
    StepKeepsIff(node, s);
    match s
    case Commit(lane, t, changes) => CommitTracks(node, lane, t, changes);
    case Restart(fellBack) => RestartTracksIff(node, fellBack);
    case Capture(t) => CaptureTracks(node, t);
    case Publish(t) => PublishTracks(node, t);
    case FailBuild(t) => FailBuildTracksIff(node, t);
    case Seal(lane) =>
    case Reclaim(lane, count) =>
  }

  ghost predicate AllCareful(node: Node, run: seq<Step>)
    requires Legal(node, run)
    decreases |run|
  {
    run == [] || (Careful(node, run[0]) && AllCareful(Next(node, run[0]), run[1..]))
  }

  ghost predicate AlwaysTracked(node: Node, run: seq<Step>)
    requires Legal(node, run)
    decreases |run|
  {
    AllTracked(node) && (run == [] || AlwaysTracked(Next(node, run[0]), run[1..]))
  }

  lemma {:induction false} RunTracksIff(node: Node, run: seq<Step>)
    requires Inv(node) && AllTracked(node) && Legal(node, run)
    ensures AlwaysTracked(node, run) <==> AllCareful(node, run)
    ensures AllCareful(node, run) ==> Inv(Exec(node, run)) && AllTracked(Exec(node, run))
    decreases |run|
  {
    hide Inv, AllTracked, Careful, Next, Enabled;
    if run != [] {
      StepTracksIff(node, run[0]);
      var node' := Next(node, run[0]);
      if AllTracked(node') {
        RunTracksIff(node', run[1..]);
      }
    }
  }

  lemma FreshIsTracked(node: Node)
    requires Fresh(node)
    ensures AllTracked(node)
  {
  }

  /** Over every run of a fresh node, tracking is exact at every point if and only if every step is careful. */
  lemma TrackingIff(node: Node, run: seq<Step>)
    requires Fresh(node) && Legal(node, run)
    ensures AlwaysTracked(node, run) <==> AllCareful(node, run)
  {
    FreshIsInv(node);
    FreshIsTracked(node);
    RunTracksIff(node, run);
  }

  /** Every careful run is lossless, and the next checkpoint it takes will be exact too. */
  lemma CarefulRunsAreLossless(node: Node, run: seq<Step>)
    requires Fresh(node) && Legal(node, run) && AllCareful(node, run)
    ensures Lossless(Exec(node, run)) && CheckpointsExact(Exec(node, run)) && AllTracked(Exec(node, run))
  {
    FreshIsInv(node);
    FreshIsTracked(node);
    RunTracksIff(node, run);
    InvIsLossless(Exec(node, run));
  }

  // ----- What an uncareful step costs -----

  const A := Key(0, 0)
  const B := Key(BAND_WIDTH, 0)
  const Start := Node(map[1 := FreshTablet], map[0 := [Segment(map[])]])

  lemma TwoBands()
    ensures BandOf(A) == 0 && BandOf(B) == 1
    ensures forall v: int :: BandsOf(map[A := Put(v)]) == {0} && BandsOf(map[B := Put(v)]) == {1}
  {
    forall v: int ensures BandsOf(map[A := Put(v)]) == {0} && BandsOf(map[B := Put(v)]) == {1} {
      assert A in map[A := Put(v)] && B in map[B := Put(v)];
    }
  }

  lemma Grow(run: seq<Step>, node: Node, s: Step) returns (run': seq<Step>, node': Node)
    requires Legal(Start, run) && node == Exec(Start, run) && Enabled(node, s)
    ensures run' == run + [s] && Legal(Start, run') && node' == Exec(Start, run') && node' == Next(node, s)
  {
    run', node' := run + [s], Next(node, s);
    LegalAppend(Start, run, s);
  }

  lemma {:induction false} LegalAppend(node: Node, run: seq<Step>, s: Step)
    requires Legal(node, run) && Enabled(Exec(node, run), s)
    ensures Legal(node, run + [s]) && Exec(node, run + [s]) == Next(Exec(node, run), s)
    decreases |run|
  {
    if run == [] {
      assert [s][1..] == [] && run + [s] == [s];
    } else {
      assert (run + [s])[0] == run[0] && (run + [s])[1..] == run[1..] + [s];
      LegalAppend(Next(node, run[0]), run[1..], s);
    }
  }

  /** A first checkpoint holds A = 1. */
  lemma FirstA() returns (run: seq<Step>, node: Node)
    ensures Legal(Start, run) && node == Exec(Start, run) && node.tablets.Keys == {1}
    ensures node.wal == map[0 := [Segment(map[(1, 1) := map[A := Put(1)]])]]
    ensures node.tablets[1] == Tablet([map[A := Put(1)]], map[A := 1], {}, None, Some(Checkpoint(1, map[A := 1])), None,
                                      Some(Checkpoint(1, map[A := 1])), None)
  {
    assert Legal(Start, []) && Exec(Start, []) == Start;
    hide Legal, Exec, Recover;
    run, node := Grow([], Start, Commit(0, 1, map[A := Put(1)]));
    assert node.tablets[1].live == map[A := 1];
    assert node.wal[0] == [Segment(map[(1, 1) := map[A := Put(1)]])];
    run, node := Grow(run, node, Capture(1));
    run, node := Grow(run, node, Publish(1));
  }

  /** A first checkpoint holds A = 1; then A = 2 is committed. */
  lemma StaleA() returns (run: seq<Step>, node: Node)
    ensures Legal(Start, run) && node == Exec(Start, run) && node.tablets.Keys == {1} && node.wal.Keys == {0}
    ensures node.wal[0] != [] && Kept(node.wal, 1, 2)
    ensures node.tablets[1] == Tablet([map[A := Put(1)], map[A := Put(2)]], map[A := 2], {0}, None,
                                      Some(Checkpoint(1, map[A := 1])), None, Some(Checkpoint(1, map[A := 1])), None)
  {
    hide Legal, Exec, Recover;
    TwoBands();
    run, node := FirstA();
    run, node := Grow(run, node, Commit(0, 1, map[A := Put(2)]));
    assert node.tablets[1].live == map[A := 2];
    assert KeptAt(node.wal, 0, 0, 1, 2);
  }

  const History := [map[A := Put(1)], map[A := Put(2)], map[B := Put(5)]]

  lemma HistoryState()
    ensures State(History) == map[A := 2, B := 5]
  {
    StateStep(History, 0);
    StateStep(History, 1);
    StateStep(History, 2);
    assert History[..3] == History && History[..0] == [];
    assert Apply(map[], map[A := Put(1)]) == map[A := 1];
    assert Apply(map[A := 1], map[A := Put(2)]) == map[A := 2];
    assert Apply(map[A := 2], map[B := Put(5)]) == map[A := 2, B := 5];
  }

  lemma StaleContent(snap: Snapshot)
    requires snap.objects == map[A := 2, B := 5] && snap.dirty == {1}
    ensures Incremental(Some(Checkpoint(1, map[A := 1])), snap) == map[A := 1, B := 5]
  {
    TwoBands();
    assert (map k | k in snap.objects && BandOf(k) in snap.dirty :: snap.objects[k]) == map[B := 5];
    assert (map k | k in map[A := 1] && BandOf(k) !in snap.dirty :: map[A := 1][k]) == map[A := 1];
  }

  /** After the tracker forgot band 0, committing B and checkpointing publishes the stale A; recovery then returns A = 1. */
  lemma ForgottenBandIsLost(run: seq<Step>, node: Node) returns (run': seq<Step>, node': Node)
    requires Legal(Start, run) && node == Exec(Start, run) && node.tablets.Keys == {1} && node.wal.Keys == {0}
    requires node.wal[0] != []
    requires var tab := node.tablets[1];
      && tab.log == [map[A := Put(1)], map[A := Put(2)]] && tab.live == map[A := 2]
      && tab.installed == Some(Checkpoint(1, map[A := 1])) && tab.capture.None? && tab.dirty == {}
    ensures Legal(Start, run') && node' == Exec(Start, run') && 1 in node'.tablets && !Lossless(node')
    ensures Recover(node', 1, false) == Some(map[A := 1, B := 5]) && State(node'.tablets[1].log) == map[A := 2, B := 5]
  {
    hide Legal, Exec, Highest, Positions, WalInv, Kept, State;
    TwoBands();
    run', node' := Grow(run, node, Commit(0, 1, map[B := Put(5)]));
    assert node'.tablets[1].live == map[A := 2, B := 5];
    assert BandsOf(map[B := Put(5)]) == {1};
    assert node'.tablets[1].log == History;
    run', node' := Grow(run', node', Capture(1));
    StaleContent(node'.tablets[1].capture.value);
    run', node' := Grow(run', node', Publish(1));
    HistoryState();
    StartIsFaithful(run');
    HighestIsLast(node', 1);
  }

  lemma StartIsFaithful(run: seq<Step>)
    requires Legal(Start, run)
    ensures WalInv(Exec(Start, run))
  {
    assert Fresh(Start);
    FreshIsInv(Start);
    RunIsFaithful(Start, run);
  }

  /** Recovery of the stale checkpoint replays the second record from the WAL. */
  lemma TailIsReplayed(run: seq<Step>, node: Node)
    requires Legal(Start, run) && node == Exec(Start, run) && 1 in node.tablets && Kept(node.wal, 1, 2)
    requires node.tablets[1].log == [map[A := Put(1)], map[A := Put(2)]]
    requires node.tablets[1].current == Some(Checkpoint(1, map[A := 1]))
    ensures Recover(node, 1, false) == Some(map[A := 2])
  {
    hide Legal, Exec, Highest, Positions, WalInv, RecordAt;
    StartIsFaithful(run);
    HighestIsLast(node, 1);
    RecordIsCommitted(node, 1, 2);
    assert Apply(map[A := 1], map[A := Put(2)]) == map[A := 2];
    assert ReplayKept(node.wal, 1, map[A := 2], 2, 2) == Some(map[A := 2]);
  }

  /** A restart that replays a tail, then one incremental checkpoint: a committed write is gone. */
  lemma ReplayedTailIsLost()
    ensures exists run :: Legal(Start, run) && Fresh(Start) && !Lossless(Exec(Start, run))
  {
    assert Fresh(Start);
    hide Legal, Exec, Recover, Lossless, State;
    var run, node := StaleA();
    TailIsReplayed(run, node);
    run, node := Grow(run, node, Restart({}));
    run, node := ForgottenBandIsLost(run, node);
  }

  /** A build that fails after capture, then one incremental checkpoint: a committed write is gone. */
  lemma FailedBuildIsLost()
    ensures exists run :: Legal(Start, run) && Fresh(Start) && !Lossless(Exec(Start, run))
  {
    assert Fresh(Start);
    hide Legal, Exec, Recover, Lossless, State;
    var run, node := StaleA();
    run, node := Grow(run, node, Capture(1));
    run, node := Grow(run, node, FailBuild(1));
    run, node := ForgottenBandIsLost(run, node);
  }

  // ----- The band files refine the checkpoint content used above -----

  ghost function RecordsOf(o: Objects): set<BandRecord> {
    set k | k in o :: BandRecord(k, o[k])
  }

  lemma InRecordsOf(o: Objects, r: BandRecord)
    ensures r in RecordsOf(o) <==> r.key in o && o[r.key] == r.value
  {
  }

  /** The files `BuildTablet` returns hold exactly the records of the incremental content. */
  lemma BuildRefinesIncremental(base: Option<Checkpoint>, baseFiles: BandFiles, snap: Snapshot,
                                snapshot: seq<BandRecord>, built: BandFiles)
    requires base.Some? ==> WellPlaced(baseFiles) && AllRecords(baseFiles) == RecordsOf(base.value.objects)
    requires Members(snapshot) == RecordsOf(snap.objects)
    requires BuiltFrom(snapshot, snap.dirty, if base.Some? then Ok(baseFiles) else Err, built)
    ensures AllRecords(built) == RecordsOf(Incremental(base, snap)) && WellPlaced(built)
  {
    var from := if base.Some? then Ok(baseFiles) else Err;
    BuiltIsWellPlaced(snapshot, snap.dirty, from, built);
    forall r ensures r in AllRecords(built) <==> r in RecordsOf(Incremental(base, snap)) {
      BuiltHolds(snapshot, snap.dirty, from, built, r);
      InRecordsOf(Incremental(base, snap), r);
      InRecordsOf(snap.objects, r);
      if base.Some? {
        InRecordsOf(base.value.objects, r);
      }
    }
  }

  /** A record among the first `b` bands, or the first `i` records of the next one. */
  ghost predicate Reached(bands: BandFiles, b: nat, i: nat, r: BandRecord)
    requires b < BANDS && i <= |bands[b]|
  {
    (exists c :: 0 <= c < b && r in bands[c]) || r in bands[b][..i]
  }

  ghost predicate Restored(bands: BandFiles, b: nat, i: nat, objects: Objects)
    requires b < BANDS && i <= |bands[b]|
  {
    && (forall k <- objects :: Reached(bands, b, i, BandRecord(k, objects[k])))
    && (forall r | Reached(bands, b, i, r) :: r.key in objects && objects[r.key] == r.value)
  }

  lemma RestoredMore(bands: BandFiles, b: nat, i: nat, objects: Objects)
    requires WellPlaced(bands) && b < BANDS && i < |bands[b]| && Restored(bands, b, i, objects)
    ensures var r := bands[b][i]; Restored(bands, b, i + 1, objects[r.key := r.value])
  {
    hide BandOf;
    var r := bands[b][i];
    assert bands[b][..i + 1] == bands[b][..i] + [r];
    forall q | Reached(bands, b, i, q)
      ensures q.key != r.key
    {
      Unlike(bands, b, i, q);
    }
    assert forall q :: Reached(bands, b, i + 1, q) <==> Reached(bands, b, i, q) || q == r;
  }

  /** A key that was reached does not come again. */
  lemma Unlike(bands: BandFiles, b: nat, i: nat, q: BandRecord)
    requires WellPlaced(bands) && b < BANDS && i < |bands[b]| && Reached(bands, b, i, q)
    ensures q.key != bands[b][i].key
  {
    hide BandOf;
    assert bands[b][i] in bands[b] && StrictlySorted(bands[b]);
    if q in bands[b][..i] {
      var j :| 0 <= j < i && bands[b][j] == q;
      assert Before(bands[b][j].key, bands[b][i].key);
    }
  }

  lemma RestoredBand(bands: BandFiles, b: nat, objects: Objects)
    requires b + 1 < BANDS && Restored(bands, b, |bands[b]|, objects)
    ensures Restored(bands, b + 1, 0, objects)
  {
    assert bands[b][..|bands[b]|] == bands[b];
    assert forall q :: Reached(bands, b + 1, 0, q) <==> Reached(bands, b, |bands[b]|, q);
  }

  lemma RestoredAll(bands: BandFiles, objects: Objects)
    requires WellPlaced(bands) && Restored(bands, BANDS - 1, |bands[BANDS - 1]|, objects)
    ensures RecordsOf(objects) == AllRecords(bands)
  {
    var last := bands[BANDS - 1];
    assert last[..|last|] == last;
    forall r ensures r in RecordsOf(objects) <==> r in AllRecords(bands) {
      InRecordsOf(objects, r);
      OwnBandOnly(bands, r);
      if r in AllRecords(bands) {
        assert Reached(bands, BANDS - 1, |last|, r);
      }
    }
  }

  /** Installing the loaded bands: every record of every band goes into the store. */
  method Restore(bands: BandFiles) returns (objects: Objects)
    requires WellPlaced(bands)
    ensures RecordsOf(objects) == AllRecords(bands)
  {
    hide WellPlaced, RecordsOf, AllRecords;
    objects := map[];
    var b := 0;
    while b < BANDS
      invariant 0 <= b <= BANDS
      invariant b < BANDS ==> Restored(bands, b, 0, objects)
      invariant b == BANDS ==> Restored(bands, BANDS - 1, |bands[BANDS - 1]|, objects)
    {
      for i := 0 to |bands[b]|
        invariant Restored(bands, b, i, objects)
      {
        hide Restored;
        RestoredMore(bands, b, i, objects);
        var r := bands[b][i];
        objects := objects[r.key := r.value];
      }
      if b + 1 < BANDS {
        RestoredBand(bands, b, objects);
      }
      b := b + 1;
    }
    RestoredAll(bands, objects);
  }
}
