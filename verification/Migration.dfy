/**
 Replica migration: the pure step function of the reconciler, the effect of each step, and
 every run of passes that may crash between a step's effect and the plan's next phase.
 */
module Migration {
  import opened Options

  const CATCH_UP_LAG_THRESHOLD: nat := 5000

  type Node = int

  datatype Phase =
    | Planned
    | TargetStarting
    | LearnerAdded
    | Ready
    | MembershipChanging
    | Committed
    | SourceRetiring
    | Completed
    | Failed

  /** The transitions the control state accepts. */
  predicate CanAdvance(a: Phase, b: Phase) {
    a == b || match a
      case Planned => b.TargetStarting? || b.Failed?
      case TargetStarting => b.LearnerAdded? || b.Failed?
      case LearnerAdded => b.Ready? || b.Failed?
      case Ready => b.MembershipChanging? || b.Failed?
      case MembershipChanging => b.Committed? || b.Failed?
      case Committed => b.SourceRetiring? || b.Failed?
      case SourceRetiring => b.Completed? || b.Failed?
      case _ => false
  }

  datatype Plan = Plan(source: Node, target: Node, desired: seq<Node>)

  /** What a pass observes of the tablet's group. An unknown lag never qualifies. */
  datatype Group = Group(voters: set<Node>, learners: set<Node>, joint: bool, leader: Option<Node>, lag: map<Node, nat>) {
    predicate Close(n: Node) {
      n in lag && lag[n] <= CATCH_UP_LAG_THRESHOLD
    }
  }

  predicate CaughtUp(g: Group, n: Node) {
    n in g.voters || (n in g.learners && g.Close(n))
  }

  datatype Action =
    | EnsureTargetReplica
    | AddLearner
    | WaitCatchUp
    | ChangeMembership
    | WaitJoint
    | TransferLeadership(node: Node)
    | RetireSource
    | AdvancePlan(phase: Phase)
    | Done

  // ----- The successor of a leading source -----

  predicate Eligible(p: Plan, g: Group, n: Node) {
    n != p.source && n in g.voters && g.Close(n)
  }

  /** The closest eligible node of a suffix of the desired list, the first of those as close. */
  function Best(p: Plan, g: Group, i: nat): (r: Option<Node>)
    requires i <= |p.desired|
    ensures r.Some? ==> Eligible(p, g, r.value)
    decreases |p.desired| - i
  {
    if i == |p.desired| then None
    else
      var rest := Best(p, g, i + 1);
      var n := p.desired[i];
      if Eligible(p, g, n) && (rest.None? || g.lag[n] <= g.lag[rest.value]) then Some(n) else rest
  }

  /** `handoff_successor` */
  function Handoff(p: Plan, g: Group): Option<Node> {
    Best(p, g, 0)
  }

  lemma {:induction false} BestIsClosest(p: Plan, g: Group, i: nat, j: nat)
    requires i <= j < |p.desired| && Eligible(p, g, p.desired[j])
    ensures Best(p, g, i).Some? && g.lag[Best(p, g, i).value] <= g.lag[p.desired[j]]
    decreases |p.desired| - i
  {
    if i < j {
      BestIsClosest(p, g, i + 1, j);
    }
  }

  /** The node at `j` is as close as any eligible one from `i` on, and closer than those before it. */
  predicate FirstClosest(p: Plan, g: Group, i: nat, j: nat) {
    && i <= j < |p.desired| && Eligible(p, g, p.desired[j])
    && (forall k | i <= k < j :: Eligible(p, g, p.desired[k]) ==> g.lag[p.desired[j]] < g.lag[p.desired[k]])
    && (forall k | j <= k < |p.desired| :: Eligible(p, g, p.desired[k]) ==> g.lag[p.desired[j]] <= g.lag[p.desired[k]])
  }

  lemma NoneEligible(p: Plan, g: Group, i: nat)
    requires i <= |p.desired| && Best(p, g, i).None?
    ensures forall k | i <= k < |p.desired| :: !Eligible(p, g, p.desired[k])
  {
    forall k | i <= k < |p.desired|
      ensures !Eligible(p, g, p.desired[k])
    {
      if Eligible(p, g, p.desired[k]) {
        BestIsClosest(p, g, i, k);
      }
    }
  }

  lemma {:induction false} BestIsFirst(p: Plan, g: Group, i: nat) returns (j: nat)
    requires i <= |p.desired| && Best(p, g, i).Some?
    ensures FirstClosest(p, g, i, j) && p.desired[j] == Best(p, g, i).value
    decreases |p.desired| - i
  {
    var n := p.desired[i];
    var rest := Best(p, g, i + 1);
    if rest.None? {
      j := i;
      NoneEligible(p, g, i + 1);
    } else {
      j := BestIsFirst(p, g, i + 1);
      if Eligible(p, g, n) && g.lag[n] <= g.lag[rest.value] {
        j := i;
        forall k | i < k < |p.desired| && Eligible(p, g, p.desired[k])
          ensures g.lag[n] <= g.lag[p.desired[k]]
        {
          BestIsClosest(p, g, i + 1, k);
        }
      }
    }
  }

  /**
   The handoff goes to a retained voter that no other eligible one is closer than, the first of
   those in the desired order, and fails only without an eligible one.
   */
  lemma HandoffIsClosest(p: Plan, g: Group)
    ensures Handoff(p, g).None? <==> forall n | n in p.desired :: !Eligible(p, g, n)
    ensures Handoff(p, g).Some? ==> exists j: nat :: FirstClosest(p, g, 0, j) && p.desired[j] == Handoff(p, g).value
  {
    forall n | n in p.desired && Eligible(p, g, n)
      ensures Handoff(p, g).Some?
    {
      var j :| 0 <= j < |p.desired| && p.desired[j] == n;
      BestIsClosest(p, g, 0, j);
    }
    if Handoff(p, g).Some? {
      var j := BestIsFirst(p, g, 0);
    }
  }

  // ----- The step function -----

  function FirstOther(desired: seq<Node>, source: Node): Option<Node> {
    if desired == [] then None else if desired[0] != source then Some(desired[0]) else FirstOther(desired[1..], source)
  }

  /** `next_step` */
  function NextAction(p: Plan, phase: Phase, g: Group): Action {
    var sourceLeads := g.leader == Some(p.source);
    if phase.Completed? || phase.Failed? then Done
    else if g.joint then WaitJoint
    else match phase
      case Planned => EnsureTargetReplica
      case TargetStarting =>
        if p.target in g.voters || p.target in g.learners then AdvancePlan(LearnerAdded) else AddLearner
      case LearnerAdded =>
        if p.target in g.voters then AdvancePlan(Committed) else if p.target in g.learners then WaitCatchUp else AddLearner
      case Ready =>
        if p.target in g.voters then AdvancePlan(Committed)
        else if sourceLeads && Handoff(p, g).Some? then TransferLeadership(Handoff(p, g).value)
        else ChangeMembership
      case MembershipChanging =>
        if p.source !in g.voters && p.target in g.voters then AdvancePlan(Committed)
        else if sourceLeads && Handoff(p, g).Some? then TransferLeadership(Handoff(p, g).value)
        else ChangeMembership
      case Committed =>
        if p.source in g.voters && sourceLeads then
          var other := FirstOther(p.desired, p.source);
          if other.Some? then TransferLeadership(other.value) else RetireSource
        else if p.source in g.voters then ChangeMembership
        else RetireSource
      case SourceRetiring => if p.source in g.voters then ChangeMembership else RetireSource
  }

  // ----- One pass -----

  datatype World = World(phase: Phase, g: Group, replica: bool, retired: bool)

  /** How far a membership change gets in one pass: not at all, to its joint entry, or to the uniform one. */
  datatype Reach = Nothing | JointOnly | Uniform

  datatype Step =
    | Pass(reach: Reach, advance: bool, gone: bool)
    | Flatten
    | Lag(lag: map<Node, nat>)
    | Elect(leader: Option<Node>)

  function Desired(p: Plan): set<Node> {
    set n | n in p.desired
  }

  /** `exec_members`: a committed joint goes straight to its uniform successor. */
  function Changed(p: Plan, g: Group, reach: Reach): Group {
    var d := Desired(p);
    if reach.Nothing? then g
    else if reach.JointOnly? && !g.joint then g.(voters := g.voters + d, joint := true)
    else g.(voters := d, learners := g.learners - d, joint := false,
            leader := if g.leader.Some? && g.leader.value in d then g.leader else None)
  }

  /** A phase change is refused unless the control state accepts the transition. */
  function Moved(w: World, advance: bool, phase: Phase): World {
    if advance && CanAdvance(w.phase, phase) then w.(phase := phase) else w
  }

  /** `drive_plan`: the step's effect, then the phase, either of which may be lost. */
  function Passed(p: Plan, w: World, s: Step): World
    requires s.Pass?
  {
    var did := !s.reach.Nothing?;
    match NextAction(p, w.phase, w.g)
    case EnsureTargetReplica => if did then Moved(w.(replica := true), s.advance, TargetStarting) else w
    case AddLearner =>
      if did then Moved(w.(g := w.g.(learners := w.g.learners + {p.target})), s.advance, LearnerAdded) else w
    case WaitCatchUp => if CaughtUp(w.g, p.target) then Moved(w, s.advance, Ready) else w
    case ChangeMembership =>
      if did && (p.source in w.g.voters || p.target !in w.g.voters) then
        Moved(w.(g := Changed(p, w.g, s.reach)), s.advance, MembershipChanging)
      else w
    case WaitJoint => w.(g := Changed(p, w.g, s.reach))
    case TransferLeadership(n) => if did then w.(g := w.g.(leader := Some(n))) else w
    case RetireSource =>
      if w.phase.SourceRetiring? && (s.gone || p.source !in w.g.voters) then Moved(w, s.advance, Completed)
      else if s.gone then Moved(w, s.advance, SourceRetiring)
      else if did then Moved(w.(retired := true), s.advance, SourceRetiring)
      else w
    case AdvancePlan(phase) => Moved(w, s.advance, phase)
    case Done => w
  }

  function Next(p: Plan, w: World, s: Step): World {
    match s
    case Pass(_, _, _) => Passed(p, w, s)
    case Flatten => if w.g.joint then w.(g := Changed(p, w.g, Uniform)) else w
    case Lag(lag) => w.(g := w.g.(lag := lag))
    case Elect(leader) => w.(g := w.g.(leader := leader))
  }

  function Exec(p: Plan, w: World, run: seq<Step>): World
    decreases |run|
  {
    if run == [] then w else Exec(p, Next(p, w, run[0]), run[1..])
  }

  // ----- Safety -----

  /** A one-for-one move over the voters the tablet had. */
  predicate Proper(p: Plan, before: set<Node>) {
    p.source in before && p.target !in before && Desired(p) == before - {p.source} + {p.target}
  }

  function Start(before: set<Node>, leader: Option<Node>): World {
    World(Planned, Group(before, {}, false, leader, map[]), false, false)
  }

  predicate Late(phase: Phase) {
    phase.Committed? || phase.SourceRetiring? || phase.Completed?
  }

  predicate Inv(p: Plan, before: set<Node>, w: World) {
    && (w.g.joint ==> w.g.voters == before + Desired(p))
    && (!w.g.joint ==> w.g.voters == before || w.g.voters == Desired(p))
    && (w.phase.Planned? || w.phase.TargetStarting? || w.phase.LearnerAdded? ==> !w.g.joint && w.g.voters == before)
    && (w.phase.MembershipChanging? ==> w.g.joint || w.g.voters == Desired(p))
    && (Late(w.phase) ==> !w.g.joint && w.g.voters == Desired(p))
    && (w.retired ==> Late(w.phase))
    && !w.phase.Failed?
  }

  lemma StepKeeps(p: Plan, before: set<Node>, w: World, s: Step)
    requires Proper(p, before) && Inv(p, before, w)
    ensures Inv(p, before, Next(p, w, s))
  {
    hide Handoff, FirstOther, CaughtUp;
  }

  lemma {:induction false} RunKeeps(p: Plan, before: set<Node>, w: World, run: seq<Step>)
    requires Proper(p, before) && Inv(p, before, w)
    ensures Inv(p, before, Exec(p, w, run))
    decreases |run|
  {
    hide Inv, Next, Proper;
    if run != [] {
      StepKeeps(p, before, w, run[0]);
      RunKeeps(p, before, Next(p, w, run[0]), run[1..]);
    }
  }

  /**
   In every run, the source is retired, and the plan completed, only where the source no
   longer votes, the target does, and no joint configuration is open.
   */
  lemma RetiresOnlyAfterHandover(p: Plan, before: set<Node>, leader: Option<Node>, run: seq<Step>)
    requires Proper(p, before)
    ensures var w := Exec(p, Start(before, leader), run);
      w.retired || w.phase.Completed? ==> p.source !in w.g.voters && p.target in w.g.voters && !w.g.joint
  {
    RunKeeps(p, before, Start(before, leader), run);
  }

  /** Nothing but the same change is ever proposed over a joint configuration, in any phase. */
  lemma JointIsWaitedOut(p: Plan, w: World, s: Step)
    requires w.g.joint && s.Pass? && !w.phase.Completed? && !w.phase.Failed?
    ensures var w' := Next(p, w, s);
      w'.phase == w.phase && w'.retired == w.retired && (w'.g == w.g || (w'.g.voters == Desired(p) && !w'.g.joint))
  {
  }

  predicate TargetNeverVotes(p: Plan, w: World) {
    p.target !in w.g.voters && !Late(w.phase) && !w.retired
  }

  lemma WithoutTargetKeeps(p: Plan, w: World, s: Step)
    requires p.target !in p.desired && TargetNeverVotes(p, w)
    ensures TargetNeverVotes(p, Next(p, w, s))
  {
    hide Handoff, FirstOther, CaughtUp;
  }

  lemma {:induction false} WithoutTargetRun(p: Plan, w: World, run: seq<Step>)
    requires p.target !in p.desired && TargetNeverVotes(p, w)
    ensures TargetNeverVotes(p, Exec(p, w, run))
    decreases |run|
  {
    hide Next, TargetNeverVotes;
    if run != [] {
      WithoutTargetKeeps(p, w, run[0]);
      WithoutTargetRun(p, Next(p, w, run[0]), run[1..]);
    }
  }

  /**
   A plan whose desired voters leave out a target that did not vote before is harmless: no run
   of it commits, completes or retires anything, one that names the source alone included.
   */
  lemma PlanWithoutItsTargetNeverRetires(p: Plan, before: set<Node>, leader: Option<Node>, run: seq<Step>)
    requires p.target !in p.desired && p.target !in before
    ensures var w := Exec(p, Start(before, leader), run); !w.retired && !Late(w.phase)
  {
    WithoutTargetRun(p, Start(before, leader), run);
  }

  // ----- Convergence -----

  /** The change went through, or is under way, while the plan still says Ready. */
  predicate Stranded(p: Plan, w: World) {
    w.phase.Ready? && (w.g.joint || w.g.voters == Desired(p))
  }

  /** The reconciler then asks for a transition the control state refuses, in every later pass. */
  lemma StrandedStays(p: Plan, before: set<Node>, w: World, s: Step)
    requires Proper(p, before) && Inv(p, before, w) && Stranded(p, w)
    ensures Stranded(p, Next(p, w, s))
  {
    hide Handoff, FirstOther, CaughtUp;
    assert p.target in Desired(p);
  }

  lemma {:induction false} StrandedForever(p: Plan, before: set<Node>, w: World, run: seq<Step>)
    requires Proper(p, before) && Inv(p, before, w) && Stranded(p, w)
    ensures Stranded(p, Exec(p, w, run))
    decreases |run|
  {
    hide Inv, Next, Proper, Stranded;
    if run != [] {
      StepKeeps(p, before, w, run[0]);
      StrandedStays(p, before, w, run[0]);
      StrandedForever(p, before, Next(p, w, run[0]), run[1..]);
    }
  }

  /** One lost phase write after the change is enough, from every ready plan the source does not lead. */
  lemma LostPhaseWriteStrands(p: Plan, before: set<Node>, w: World, reach: Reach)
    requires Proper(p, before) && Inv(p, before, w) && w.phase.Ready? && !Stranded(p, w) && !reach.Nothing?
    requires w.g.leader != Some(p.source)
    ensures Stranded(p, Next(p, w, Pass(reach, false, false)))
  {
    hide Handoff, FirstOther, CaughtUp;
  }

  function Rank(phase: Phase): nat {
    match phase
    case Planned => 7
    case TargetStarting => 6
    case LearnerAdded => 5
    case Ready => 4
    case MembershipChanging => 3
    case Committed => 2
    case SourceRetiring => 1
    case _ => 0
  }

  /** Two steps that move an unstranded plan to a later phase. */
  function Onward(p: Plan, w: World): seq<Step> {
    var go := Pass(Uniform, true, false);
    match w.phase
    case LearnerAdded => if p.target in w.g.learners then [Lag(map[p.target := 0]), go] else [go, Lag(map[p.target := 0]), go]
    case Ready => [Elect(None), go]
    case MembershipChanging => [Flatten, go]
    case _ => [go]
  }

  lemma OnwardMoves(p: Plan, before: set<Node>, w: World)
    requires Proper(p, before) && Inv(p, before, w) && !Stranded(p, w) && !w.phase.Completed?
    ensures var w' := Exec(p, w, Onward(p, w)); Rank(w'.phase) < Rank(w.phase) && !Stranded(p, w')
  {
    hide Handoff, FirstOther;
    var run := Onward(p, w);
    assert p.source !in Desired(p) && p.target in Desired(p);
    assert Exec(p, w, run) == Exec(p, Next(p, w, run[0]), run[1..]);
    if |run| >= 2 {
      var w1 := Next(p, w, run[0]);
      assert Exec(p, w1, run[1..]) == Exec(p, Next(p, w1, run[1]), run[2..]) by {
        assert run[1..][0] == run[1] && run[1..][1..] == run[2..];
      }
      if |run| == 3 {
        var w2 := Next(p, w1, run[1]);
        assert Exec(p, w2, run[2..]) == Next(p, w2, run[2]) by {
          assert run[2..][0] == run[2] && run[2..][1..] == [];
        }
      }
    }
  }

  lemma {:induction false} ExecAppend(p: Plan, w: World, a: seq<Step>, b: seq<Step>)
    ensures Exec(p, w, a + b) == Exec(p, Exec(p, w, a), b)
    decreases |a|
  {
    hide Next;
    if a == [] {
      assert a + b == b;
    } else {
      assert (a + b)[1..] == a[1..] + b;
      ExecAppend(p, Next(p, w, a[0]), a[1..], b);
    }
  }

  lemma {:induction false} UnstrandedCompletes(p: Plan, before: set<Node>, w: World) returns (run: seq<Step>)
    requires Proper(p, before) && Inv(p, before, w) && !Stranded(p, w)
    ensures Exec(p, w, run).phase.Completed?
    decreases Rank(w.phase)
  {
    hide Next, Stranded, Proper, Onward;
    run := [];
    if !w.phase.Completed? {
      var first := Onward(p, w);
      OnwardMoves(p, before, w);
      RunKeeps(p, before, w, first);
      var rest := UnstrandedCompletes(p, before, Exec(p, w, first));
      run := first + rest;
      ExecAppend(p, w, first, rest);
    }
  }

  /** From every reachable state, the plan can still complete exactly when it is not stranded. */
  lemma CompletesIff(p: Plan, before: set<Node>, leader: Option<Node>, done: seq<Step>)
    requires Proper(p, before)
    ensures var w := Exec(p, Start(before, leader), done);
      (exists run :: Exec(p, w, run).phase.Completed?) <==> !Stranded(p, w)
  {
    hide Next, Onward;
    RunKeeps(p, before, Start(before, leader), done);
    var w := Exec(p, Start(before, leader), done);
    if Stranded(p, w) {
      forall run
        ensures !Exec(p, w, run).phase.Completed?
      {
        StrandedForever(p, before, w, run);
      }
    } else {
      var run := UnstrandedCompletes(p, before, w);
      assert Exec(p, w, run).phase.Completed?;
    }
  }

  // ----- Progress of every run -----

  /** The phases left, an open joint configuration counting as half a phase. */
  function Remaining(w: World): nat {
    2 * Rank(w.phase) + if w.g.joint then 1 else 0
  }

  /** A step strands the plan exactly when it changes the membership and loses the phase write. */
  lemma StrandsIff(p: Plan, before: set<Node>, w: World, s: Step)
    requires Proper(p, before) && Inv(p, before, w) && !Stranded(p, w)
    ensures Stranded(p, Next(p, w, s)) <==>
      s.Pass? && w.phase.Ready? && NextAction(p, w.phase, w.g).ChangeMembership? && !s.reach.Nothing? && !s.advance
  {
    hide Handoff, FirstOther, CaughtUp;
    assert p.source !in Desired(p) && p.target in Desired(p);
  }

  /** No step of any run sends a plan back, stranded or not. */
  lemma RankNeverRises(p: Plan, w: World, s: Step)
    ensures Rank(Next(p, w, s).phase) <= Rank(w.phase)
  {
    hide NextAction, Changed, CaughtUp;
  }

  /** Short of stranding, no step undoes progress. */
  lemma RemainingNeverRises(p: Plan, before: set<Node>, w: World, s: Step)
    requires Proper(p, before) && Inv(p, before, w) && !Stranded(p, Next(p, w, s))
    ensures Remaining(Next(p, w, s)) <= Remaining(w)
  {
    hide Handoff, FirstOther, CaughtUp;
    assert p.source !in Desired(p) && p.target in Desired(p);
  }

  /** A pass that does its work and writes its phase, led by another than the source, the target caught up by then. */
  predicate Helpful(p: Plan, w: World, s: Step) {
    && s.Pass? && s.reach.Uniform? && s.advance && w.g.leader != Some(p.source)
    && (w.phase.LearnerAdded? ==> CaughtUp(w.g, p.target))
  }

  lemma HelpfulPassLowers(p: Plan, before: set<Node>, w: World, s: Step)
    requires Proper(p, before) && Inv(p, before, w) && !Stranded(p, w) && !w.phase.Completed? && Helpful(p, w, s)
    ensures Remaining(Next(p, w, s)) < Remaining(w)
  {
    hide Handoff, FirstOther;
    assert p.source !in Desired(p) && p.target in Desired(p);
  }

  function HelpfulPasses(p: Plan, w: World, run: seq<Step>): nat
    decreases |run|
  {
    if run == [] then 0 else (if Helpful(p, w, run[0]) then 1 else 0) + HelpfulPasses(p, Next(p, w, run[0]), run[1..])
  }

  predicate NeverStranded(p: Plan, w: World, run: seq<Step>)
    decreases |run|
  {
    !Stranded(p, w) && (run == [] || NeverStranded(p, Next(p, w, run[0]), run[1..]))
  }

  lemma {:induction false} HelpfulPassesCount(p: Plan, before: set<Node>, w: World, run: seq<Step>)
    requires Proper(p, before) && Inv(p, before, w) && NeverStranded(p, w, run)
    ensures var w' := Exec(p, w, run);
      w'.phase.Completed? || Remaining(w') + HelpfulPasses(p, w, run) <= Remaining(w)
    decreases |run|
  {
    hide Inv, Next, Proper, Stranded, Helpful, Remaining;
    if run != [] {
      var w1 := Next(p, w, run[0]);
      StepKeeps(p, before, w, run[0]);
      HelpfulPassesCount(p, before, w1, run[1..]);
      assert !Stranded(p, w1);
      if w.phase.Completed? {
        CompletedStays(p, w, run);
      } else {
        RemainingNeverRises(p, before, w, run[0]);
        if Helpful(p, w, run[0]) {
          HelpfulPassLowers(p, before, w, run[0]);
        }
      }
    }
  }

  lemma {:induction false} CompletedStays(p: Plan, w: World, run: seq<Step>)
    requires w.phase.Completed?
    ensures Exec(p, w, run).phase.Completed?
    decreases |run|
  {
    if run != [] {
      CompletedStays(p, Next(p, w, run[0]), run[1..]);
    }
  }

  /**
   Every run that never strands and holds fourteen helpful passes, in between whatever other
   passes, elections and losses, has completed the plan.
   */
  lemma EnoughPassesComplete(p: Plan, before: set<Node>, leader: Option<Node>, run: seq<Step>)
    requires Proper(p, before) && NeverStranded(p, Start(before, leader), run)
    requires HelpfulPasses(p, Start(before, leader), run) >= 14
    ensures Exec(p, Start(before, leader), run).phase.Completed?
  {
    HelpfulPassesCount(p, before, Start(before, leader), run);
    RunKeeps(p, before, Start(before, leader), run);
  }
}
