/** WAL reclamation planning: which sealed segments of a lane may go, and where recovery resumes. */
module Reclaim {
  import opened Options
  import opened Recovery

  /** What a strict scan of one sealed segment reports. */
  datatype Summary = Summary(segment: nat, firstBatch: Option<nat>, records: seq<(TabletId, nat)>, fabric: set<nat>)

  /** Where recovery of the lane resumes. */
  datatype LaneFloor = LaneFloor(firstSegment: nat, firstBatch: nat, nextBatch: nat)

  predicate AllCovered(records: seq<(TabletId, nat)>, floors: map<TabletId, nat>) {
    forall r <- records :: r.0 in floors && r.1 <= floors[r.0]
  }

  predicate BelowFloors(highest: map<TabletId, nat>, floors: map<TabletId, nat>) {
    forall t <- highest :: t in floors && highest[t] <= floors[t]
  }

  /** `segment_covered`: the highest commit of each tablet against that tablet's floor. */
  method SegmentCovered(records: seq<(TabletId, nat)>, floors: map<TabletId, nat>) returns (covered: bool)
    ensures covered <==> AllCovered(records, floors)
  {
    var highest: map<TabletId, nat> := map[];
    for i := 0 to |records|
      invariant forall j :: 0 <= j < i ==> records[j].0 in highest && records[j].1 <= highest[records[j].0]
      invariant forall t <- highest :: (t, highest[t]) in records[..i]
    {
      var (tablet, commit) := records[i];
      assert records[..i + 1] == records[..i] + [(tablet, commit)];
      if tablet !in highest || highest[tablet] < commit {
        highest := highest[tablet := commit];
      }
    }
    assert records[..|records|] == records;
    covered := BelowFloors(highest, floors);
    if covered {
      forall r <- records ensures r.0 in floors && r.1 <= floors[r.0] {
        var j :| 0 <= j < |records| && records[j] == r;
        var t: TabletId := records[j].0;
        assert t in highest && t in floors;
      }
    }
    if AllCovered(records, floors) {
      forall t <- highest ensures t in floors && highest[t] <= floors[t] {
        assert (t, highest[t]) in records;
      }
    }
  }

  /** `holds_live_fabric`: an unknown live set pins every segment that holds bulk bytes. */
  predicate HoldsLiveFabric(s: Summary, live: Option<set<nat>>) {
    s.fabric != {} && (live.None? || exists id <- s.fabric :: id in live.value)
  }

  predicate Obsolete(s: Summary, active: nat, floors: map<TabletId, nat>, live: Option<set<nat>>) {
    s.segment != active && AllCovered(s.records, floors) && !HoldsLiveFabric(s, live)
  }

  function Max(a: nat, b: nat): nat {
    if a < b then b else a
  }

  function FirstBatch(s: Summary, watermark: nat): nat {
    Max(if s.firstBatch.Some? then s.firstBatch.value else watermark, 1)
  }

  /**
   The plan for one lane: exactly the obsolete segments before the first one that
   must stay, and a floor that names that one (or the active segment).
   */
  method PlanLane(summaries: seq<Summary>, active: nat, activeFirst: nat, watermark: nat,
                  floors: map<TabletId, nat>, live: Option<set<nat>>)
    returns (obsolete: seq<nat>, floor: LaneFloor)
    ensures |obsolete| <= |summaries|
    ensures forall i :: 0 <= i < |obsolete| ==>
      obsolete[i] == summaries[i].segment && Obsolete(summaries[i], active, floors, live)
    ensures |obsolete| < |summaries| ==> !Obsolete(summaries[|obsolete|], active, floors, live)
    ensures floor == if |obsolete| < |summaries|
      then LaneFloor(summaries[|obsolete|].segment, FirstBatch(summaries[|obsolete|], Max(watermark, 1)), Max(watermark, 1))
      else LaneFloor(Max(active, 1), Max(activeFirst, 1), Max(watermark, 1))
  {
    obsolete := [];
    var next := Max(watermark, 1);
    for i := 0 to |summaries|
      invariant |obsolete| == i
      invariant forall j :: 0 <= j < i ==>
        obsolete[j] == summaries[j].segment && Obsolete(summaries[j], active, floors, live)
    {
      var covered := SegmentCovered(summaries[i].records, floors);
      if summaries[i].segment == active || !covered || HoldsLiveFabric(summaries[i], live) {
        return obsolete, LaneFloor(summaries[i].segment, FirstBatch(summaries[i], next), next);
      }
      obsolete := obsolete + [summaries[i].segment];
    }
    floor := LaneFloor(Max(active, 1), Max(activeFirst, 1), next);
  }

  ghost predicate Describes(s: Summary, seg: Segment) {
    forall e :: e in seg.records <==> e in s.records
  }

  /** The floors handed to the planner: the recovery promise of every tablet that has one. */
  function Floors(node: Node): map<TabletId, nat> {
    map t | t in node.tablets && node.tablets[t].promise.Some? :: node.tablets[t].promise.value
  }

  /**
   Carrying out a plan made from the sealed segments and the current promises is a
   reclamation step of the recovery machine, so it never costs a committed record.
   */
  lemma PlanIsSafe(node: Node, lane: Lane, summaries: seq<Summary>, active: nat, live: Option<set<nat>>, count: nat)
    requires lane in node.wal && |node.wal[lane]| == |summaries| + 1 && count <= |summaries|
    requires forall i :: 0 <= i < |summaries| ==> Describes(summaries[i], node.wal[lane][i])
    requires forall i :: 0 <= i < count ==> Obsolete(summaries[i], active, Floors(node), live)
    ensures Enabled(node, Reclaim(lane, count))
    ensures Inv(node) ==> Lossless(Next(node, Reclaim(lane, count)))
  {
    forall i | 0 <= i < count ensures Covered(node, node.wal[lane][i]) {
      assert Describes(summaries[i], node.wal[lane][i]);
      forall e <- node.wal[lane][i].records
        ensures e.0 in node.tablets && node.tablets[e.0].promise.Some? && e.1 <= node.tablets[e.0].promise.value
      {
        assert e in summaries[i].records;
      }
    }
    if Inv(node) {
      ReclaimKeeps(node, lane, count);
      InvIsLossless(Next(node, Reclaim(lane, count)));
    }
  }
}
