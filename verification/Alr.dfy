/**
 Lazy almost-local reads on one replica: reads batch behind one ordered boundary and then read
 the replica's applied state. Which runs are linearizable is characterised exactly.
 */
module Alr {
  import opened Options

  const U64_MAX: nat := 0xFFFF_FFFF_FFFF_FFFF

  type ReadId = int

  // ----- The coordinator -----

  datatype Role = Initiate(fence: nat) | Join

  class Coordinator {
    var batchSeq: nat
    var inflight: Option<seq<ReadId>>

    constructor ()
      ensures batchSeq == 0 && inflight == None
    {
      batchSeq, inflight := 0, None;
    }

    /** The first read with no batch in flight forms one; every other joins it. */
    method JoinBatch(r: ReadId) returns (role: Role)
      modifies this
      ensures old(inflight).None? ==> role == Initiate(batchSeq) && inflight == Some([])
      ensures old(inflight).None? ==> batchSeq == if old(batchSeq) == U64_MAX then U64_MAX else old(batchSeq) + 1
      ensures old(inflight).Some? ==> role == Join && inflight == Some(old(inflight).value + [r]) && batchSeq == old(batchSeq)
    {
      if inflight.Some? {
        inflight := Some(inflight.value + [r]);
        return Join;
      }
      if batchSeq != U64_MAX {
        batchSeq := batchSeq + 1;
      }
      inflight := Some([]);
      role := Initiate(batchSeq);
    }

    /** Takes the batch out and wakes its waiters: with the result when there is one, with none otherwise. */
    method CompleteBatch(result: Option<nat>) returns (woken: seq<ReadId>, cancelled: seq<ReadId>, served: nat)
      modifies this
      ensures inflight == None && batchSeq == old(batchSeq)
      ensures var waiters := if old(inflight).Some? then old(inflight).value else [];
        && served == |waiters| + 1
        && if result.Some? then woken == waiters && cancelled == [] else woken == [] && cancelled == waiters
    {
      var waiters := if inflight.Some? then inflight.value else [];
      inflight := None;
      served := |waiters| + 1;
      woken, cancelled := [], waiters;
      if result.Some? {
        var i := 0;
        while i < |waiters|
          invariant 0 <= i <= |waiters| && woken == waiters[..i]
        {
          assert waiters[..i + 1] == waiters[..i] + [waiters[i]];
          woken := woken + [waiters[i]];
          i := i + 1;
        }
        assert waiters[..i] == waiters;
        cancelled := [];
      }
    }
  }

  // ----- Reads, writes and boundaries -----

  /**
   `began` is the highest write completed when the read began, and `slot` the last index
   ordered by then; `boundary` is what its batch waited for, and `seen` the state it read.
   */
  datatype Read =
    | Pending(began: nat, slot: nat)
    | Released(began: nat, slot: nat, boundary: nat)
    | Served(began: nat, slot: nat, boundary: nat, seen: nat)
    | FellBack(began: nat, slot: nat)

  datatype Batch = Batch(initiator: ReadId, waiters: seq<ReadId>, formation: Option<nat>, boundary: Option<nat>)

  datatype World = World(tail: nat, completed: nat, applied: nat, batch: Option<Batch>, readers: map<ReadId, Read>)

  const Start := World(0, 0, 0, None, map[])

  datatype Step =
    | Order
    | Complete(index: nat)
    | Apply(index: nat)
    | Begin(r: ReadId)
    | Form
    | Fence
    | Subsume(committed: nat)
    | Finish
    | Fail
    | Serve(r: ReadId)

  predicate Legal(w: World, step: Step) {
    match step
    case Order => true
    case Complete(i) => w.completed < i <= w.tail
    case Apply(i) => w.applied < i <= w.tail
    case Begin(r) => r !in w.readers
    case Form => w.batch.Some? && w.batch.value.formation.None?
    case Fence => w.batch.Some? && w.batch.value.formation.Some? && w.batch.value.boundary.None?
    case Subsume(c) =>
      && w.batch.Some? && w.batch.value.formation.Some? && w.batch.value.boundary.None?
      && w.batch.value.formation.value < c <= w.tail
    case Finish =>
      w.batch.Some? && w.batch.value.boundary.Some? && w.batch.value.formation.Some?
      && w.batch.value.formation.value <= w.batch.value.boundary.value <= w.applied
    case Fail => w.batch.Some?
    case Serve(r) => r in w.readers && w.readers[r].Released?
  }

  /** The reads of a batch, its initiator first. */
  function Members(b: Batch): seq<ReadId> {
    [b.initiator] + b.waiters
  }

  function Next(w: World, step: Step): World
    requires Legal(w, step)
  {
    match step
    case Order => w.(tail := w.tail + 1)
    case Complete(i) => w.(completed := i)
    case Apply(i) => w.(applied := i)
    case Begin(r) =>
      w.(readers := w.readers[r := Pending(w.completed, w.tail)],
         batch := Some(if w.batch.None? then Batch(r, [], None, None)
                       else w.batch.value.(waiters := w.batch.value.waiters + [r])))
    case Form => w.(batch := Some(w.batch.value.(formation := Some(w.applied))))
    case Fence => w.(tail := w.tail + 1, batch := Some(w.batch.value.(boundary := Some(w.tail + 1))))
    case Subsume(c) => w.(batch := Some(w.batch.value.(boundary := Some(c))))
    case Finish =>
      var b := w.batch.value;
      w.(batch := None, readers := map r | r in w.readers ::
        if r in Members(b) then Released(w.readers[r].began, w.readers[r].slot, b.boundary.value) else w.readers[r])
    case Fail =>
      var b := w.batch.value;
      w.(batch := None, readers := map r | r in w.readers ::
        if r in Members(b) then FellBack(w.readers[r].began, w.readers[r].slot) else w.readers[r])
    case Serve(r) =>
      var read := w.readers[r];
      w.(readers := w.readers[r := Served(read.began, read.slot, read.boundary, w.applied)])
  }

  predicate LegalRun(w: World, run: seq<Step>)
    decreases |run|
  {
    run == [] || (Legal(w, run[0]) && LegalRun(Next(w, run[0]), run[1..]))
  }

  function Exec(w: World, run: seq<Step>): World
    requires LegalRun(w, run)
    decreases |run|
  {
    if run == [] then w else Exec(Next(w, run[0]), run[1..])
  }

  // ----- Every waiter is woken exactly once -----

  predicate NoRepeats(s: seq<ReadId>) {
    forall i, j | 0 <= i < j < |s| :: s[i] != s[j]
  }

  /** The pending reads are exactly the members of the batch in flight, each once. */
  predicate Accounted(w: World) {
    && (forall r | r in w.readers && w.readers[r].Pending? :: w.batch.Some? && r in Members(w.batch.value))
    && (w.batch.Some? ==> NoRepeats(Members(w.batch.value)))
    && (w.batch.Some? ==> forall r | r in Members(w.batch.value) :: r in w.readers && w.readers[r].Pending?)
  }

  predicate Ordered(w: World) {
    && w.completed <= w.tail && w.applied <= w.tail
    && (forall r | r in w.readers ::
          w.readers[r].began <= w.completed && w.readers[r].began <= w.readers[r].slot <= w.tail)
    && (forall r | r in w.readers && w.readers[r].Released? :: w.readers[r].boundary <= w.applied)
    && (forall r | r in w.readers && w.readers[r].Served? :: w.readers[r].boundary <= w.readers[r].seen)
  }

  predicate Inv(w: World) {
    Accounted(w) && Ordered(w)
  }

  lemma BeginKeeps(w: World, r: ReadId)
    requires Inv(w) && Legal(w, Begin(r))
    ensures Inv(Next(w, Begin(r)))
  {
    var w' := Next(w, Begin(r));
    if w.batch.Some? {
      var was, now := Members(w.batch.value), Members(w'.batch.value);
      assert now == was + [r];
      assert r !in was;
    }
  }

  lemma StepKeeps(w: World, step: Step)
    requires Inv(w) && Legal(w, step)
    ensures Inv(Next(w, step))
  {
    match step
    case Begin(r) => BeginKeeps(w, r);
    case _ =>
  }

  lemma {:induction false} RunKeeps(w: World, run: seq<Step>)
    requires Inv(w) && LegalRun(w, run)
    ensures Inv(Exec(w, run))
    decreases |run|
  {
    hide Inv, Next, Legal;
    if run != [] {
      StepKeeps(w, run[0]);
      RunKeeps(Next(w, run[0]), run[1..]);
    }
  }

  /** When a batch ends, nobody is left waiting, and only its own members move. */
  lemma EveryWaiterIsReleased(run: seq<Step>, end: Step, r: ReadId)
    requires LegalRun(Start, run) && (end.Finish? || end.Fail?) && Legal(Exec(Start, run), end)
    ensures var w := Exec(Start, run);
      var w' := Next(w, end);
      && (r in w'.readers ==> r in w.readers && !w'.readers[r].Pending?)
      && (r in w.readers && w.readers[r].Pending? ==>
          r in w'.readers && w'.readers[r] == if end.Fail? then FellBack(w.readers[r].began, w.readers[r].slot)
                                          else Released(w.readers[r].began, w.readers[r].slot, w.batch.value.boundary.value))
      && (r in w.readers && !w.readers[r].Pending? ==> r in w'.readers && w'.readers[r] == w.readers[r])
  {
    assert Inv(Start);
    RunKeeps(Start, run);
  }

  // ----- Linearizability -----

  /** Whatever was completed before a read began, the read will see or has seen. */
  predicate Linearizable(w: World) {
    forall r | r in w.readers ::
      && (w.readers[r].Released? ==> w.readers[r].began <= w.readers[r].boundary)
      && (w.readers[r].Served? ==> w.readers[r].began <= w.readers[r].seen)
  }

  predicate AlwaysLinearizable(w: World, run: seq<Step>)
    requires LegalRun(w, run)
    decreases |run|
  {
    Linearizable(w) && (run == [] || AlwaysLinearizable(Next(w, run[0]), run[1..]))
  }

  /**
   The steps that can leave a read behind its batch's boundary, told at the time they are
   taken: joining when more is completed than a boundary already taken, and taking a boundary
   below what some member saw completed.
   */
  predicate Taints(w: World, step: Step) {
    match step
    case Begin(r) => w.batch.Some? && w.batch.value.boundary.Some? && w.batch.value.boundary.value < w.completed
    case Subsume(c) => exists r | r in w.readers :: w.readers[r].Pending? && c < w.readers[r].began
    case _ => false
  }

  /** Whether the batch in flight was tainted, before and after a step. */
  function Mark(w: World, tainted: bool, step: Step): bool {
    !step.Finish? && !step.Fail? && (tainted || Taints(w, step))
  }

  /** No tainted batch finishes; it may still fail, and its reads fall back. */
  predicate CleanFinishes(w: World, tainted: bool, run: seq<Step>)
    requires LegalRun(w, run)
    decreases |run|
  {
    run == [] ||
    ((run[0].Finish? ==> !tainted) && CleanFinishes(Next(w, run[0]), Mark(w, tainted, run[0]), run[1..]))
  }

  /** Some member of the batch saw more completed than the boundary covers. */
  predicate Behind(w: World) {
    && w.batch.Some? && w.batch.value.boundary.Some?
    && exists r | r in w.readers :: w.readers[r].Pending? && w.batch.value.boundary.value < w.readers[r].began
  }

  /** The marks taken step by step tell exactly whether some member is behind. */
  lemma MarkIsBehind(w: World, step: Step)
    requires Inv(w) && Legal(w, step)
    ensures Behind(Next(w, step)) <==> Mark(w, Behind(w), step)
  {
    var w' := Next(w, step);
    match step
    case Begin(r) => BeginMarks(w, r);
    case Subsume(c) =>
      if Taints(w, step) {
        var r :| r in w.readers && w.readers[r].Pending? && c < w.readers[r].began;
        assert w'.readers[r].Pending?;
      }
    case Serve(r) => ServeMarks(w, r);
    case _ =>
  }

  lemma BeginMarks(w: World, r: ReadId)
    requires Inv(w) && Legal(w, Begin(r))
    ensures Behind(Next(w, Begin(r))) <==> Behind(w) || Taints(w, Begin(r))
  {
    var w' := Next(w, Begin(r));
    assert w'.readers[r] == Pending(w.completed, w.tail);
    if Behind(w) {
      var r' :| r' in w.readers && w.readers[r'].Pending? && w.batch.value.boundary.value < w.readers[r'].began;
      assert w'.readers[r'] == w.readers[r'];
    }
    if Behind(w') {
      var r' :| r' in w'.readers && w'.readers[r'].Pending? && w'.batch.value.boundary.value < w'.readers[r'].began;
      assert r' == r || w.readers[r'] == w'.readers[r'];
    }
  }

  lemma ServeMarks(w: World, r: ReadId)
    requires Inv(w) && Legal(w, Serve(r))
    ensures Behind(Next(w, Serve(r))) <==> Behind(w)
  {
    var w' := Next(w, Serve(r));
    assert forall r' | r' in w.readers && r' != r :: w'.readers[r'] == w.readers[r'];
    if Behind(w) {
      var r' :| r' in w.readers && w.readers[r'].Pending? && w.batch.value.boundary.value < w.readers[r'].began;
      assert w'.readers[r'].Pending?;
    }
    if Behind(w') {
      var r' :| r' in w'.readers && w'.readers[r'].Pending? && w'.batch.value.boundary.value < w'.readers[r'].began;
      assert w.readers[r'].Pending?;
    }
  }

  /** Only finishing a batch with a member behind breaks linearizability. */
  lemma StepStays(w: World, step: Step)
    requires Inv(w) && Linearizable(w) && Legal(w, step)
    ensures Linearizable(Next(w, step)) <==> !(step.Finish? && Behind(w))
  {
    var w' := Next(w, step);
    if step.Finish? && Behind(w) {
      var r :| r in w.readers && w.readers[r].Pending? && w.batch.value.boundary.value < w.readers[r].began;
      assert w'.readers[r] == Released(w.readers[r].began, w.readers[r].slot, w.batch.value.boundary.value);
    }
  }

  lemma {:induction false} RunLinearizableIff(w: World, run: seq<Step>)
    requires Inv(w) && Linearizable(w) && LegalRun(w, run)
    ensures AlwaysLinearizable(w, run) <==> CleanFinishes(w, Behind(w), run)
    decreases |run|
  {
    hide Inv, Next, Legal, Linearizable, Behind, Mark;
    if run != [] {
      StepKeeps(w, run[0]);
      StepStays(w, run[0]);
      MarkIsBehind(w, run[0]);
      var w' := Next(w, run[0]);
      if Linearizable(w') {
        RunLinearizableIff(w', run[1..]);
      }
    }
  }

  /** A run is linearizable throughout exactly when no batch finishes that took a tainting step. */
  lemma LinearizableIff(run: seq<Step>)
    requires LegalRun(Start, run)
    ensures AlwaysLinearizable(Start, run) <==> CleanFinishes(Start, false, run)
  {
    RunLinearizableIff(Start, run);
  }

  /** Every read that registered before its batch's boundary took its slot sees all that was completed before it. */
  lemma EarlyJoinerSees(run: seq<Step>, r: ReadId)
    requires LegalRun(Start, run) && r in Exec(Start, run).readers
    ensures var read := Exec(Start, run).readers[r];
      && (read.Released? && read.slot < read.boundary ==> read.began <= read.boundary)
      && (read.Served? && read.slot < read.boundary ==> read.began <= read.seen)
  {
    assert Inv(Start);
    RunKeeps(Start, run);
  }

  /**
   A fence takes its slot behind everyone already in the batch, and an answer that names all
   that is completed covers them too.
   */
  lemma BoundaryCovers(run: seq<Step>, step: Step)
    requires LegalRun(Start, run) && Legal(Exec(Start, run), step)
    requires step.Fence? || (step.Subsume? && Exec(Start, run).completed <= step.committed)
    ensures var w := Exec(Start, run);
      var w' := Next(w, step);
      w'.batch.Some? && w'.batch.value.boundary.Some?
      && forall r | r in w.readers && w.readers[r].Pending? ::
           && w.readers[r].began <= w'.batch.value.boundary.value
           && (step.Fence? ==> w.readers[r].slot < w'.batch.value.boundary.value)
  {
    assert Inv(Start);
    RunKeeps(Start, run);
  }

  // ----- The two behaviours that break it -----

  /**
   What the deployment lets happen.
   `late`: a read may join a batch whose boundary lies below what is completed by then.
   `lagging`: a subsuming answer may come from a member that has not learned of a completed write.
   */
  datatype Discipline = Discipline(late: bool, lagging: bool)

  predicate Permitted(d: Discipline, w: World, step: Step) {
    && (step.Begin? && Taints(w, step) ==> d.late)
    && (step.Subsume? && step.committed < w.completed ==> d.lagging)
  }

  predicate Disciplined(d: Discipline, w: World, run: seq<Step>)
    requires LegalRun(w, run)
    decreases |run|
  {
    run == [] || (Permitted(d, w, run[0]) && Disciplined(d, Next(w, run[0]), run[1..]))
  }

  /** Every disciplined run is linearizable throughout. */
  ghost predicate Linearizes(d: Discipline) {
    forall run | LegalRun(Start, run) && Disciplined(d, Start, run) :: AlwaysLinearizable(Start, run)
  }

  lemma PermittedIsClean(w: World, step: Step)
    requires Inv(w) && Legal(w, step) && Permitted(Discipline(false, false), w, step)
    ensures !Taints(w, step)
  {
  }

  lemma {:induction false} DisciplinedIsClean(w: World, run: seq<Step>)
    requires Inv(w) && LegalRun(w, run) && Disciplined(Discipline(false, false), w, run)
    ensures CleanFinishes(w, false, run)
    decreases |run|
  {
    hide Inv, Next, Legal, Taints, Permitted;
    if run != [] {
      StepKeeps(w, run[0]);
      PermittedIsClean(w, run[0]);
      DisciplinedIsClean(Next(w, run[0]), run[1..]);
    }
  }

  /** Linearizable in every run exactly without late joins and without lagging answers. */
  lemma LinearizesIff(d: Discipline)
    ensures Linearizes(d) <==> !d.late && !d.lagging
  {
    hide Linearizable, LegalRun, Disciplined, CleanFinishes, AlwaysLinearizable;
    if d.late {
      var run := LateJoinerIsStale(d);
    } else if d.lagging {
      var run := LaggingAnswerIsStale(d);
    } else {
      forall run | LegalRun(Start, run) && Disciplined(d, Start, run)
        ensures AlwaysLinearizable(Start, run)
      {
        assert Inv(Start);
        DisciplinedIsClean(Start, run);
        LinearizableIff(run);
      }
    }
  }

  lemma {:induction false} Extend(d: Discipline, w: World, run: seq<Step>, step: Step)
    requires LegalRun(w, run) && Legal(Exec(w, run), step)
    requires Disciplined(d, w, run) && Permitted(d, Exec(w, run), step)
    ensures LegalRun(w, run + [step]) && Exec(w, run + [step]) == Next(Exec(w, run), step)
    ensures Disciplined(d, w, run + [step])
    ensures !Linearizable(Next(Exec(w, run), step)) ==> !AlwaysLinearizable(w, run + [step])
    decreases |run|
  {
    hide Next, Legal, Permitted, Linearizable;
    if run == [] {
      assert run + [step] == [step] && [step][1..] == [];
    } else {
      assert (run + [step])[1..] == run[1..] + [step];
      Extend(d, Next(w, run[0]), run[1..], step);
    }
  }

  lemma Push(d: Discipline, run: seq<Step>, step: Step) returns (longer: seq<Step>)
    requires LegalRun(Start, run) && Legal(Exec(Start, run), step)
    requires Disciplined(d, Start, run) && Permitted(d, Exec(Start, run), step)
    ensures LegalRun(Start, longer) && Exec(Start, longer) == Next(Exec(Start, run), step)
    ensures Disciplined(d, Start, longer) && (!Linearizable(Exec(Start, longer)) ==> !AlwaysLinearizable(Start, longer))
  {
    Extend(d, Start, run, step);
    longer := run + [step];
  }

  /** A batch whose fence took its slot, and a write completed since. */
  lemma FenceThenWrite(d: Discipline) returns (run: seq<Step>)
    ensures LegalRun(Start, run) && Disciplined(d, Start, run)
    ensures Exec(Start, run) == World(2, 2, 0, Some(Batch(1, [], Some(0), Some(1))), map[1 := Pending(0, 0)])
  {
    assert LegalRun(Start, []) && Exec(Start, []) == Start && Disciplined(d, Start, []);
    hide LegalRun, Exec, Disciplined, AlwaysLinearizable, Linearizable;
    run := Push(d, [], Begin(1));
    run := Push(d, run, Form);
    run := Push(d, run, Fence);
    run := Push(d, run, Order);
    run := Push(d, run, Complete(2));
  }

  /** A read that joins after the fence took its slot, behind a write ordered and completed since, is released without it. */
  lemma LateJoinerIsStale(d: Discipline) returns (run: seq<Step>)
    requires d.late
    ensures LegalRun(Start, run) && Disciplined(d, Start, run) && !AlwaysLinearizable(Start, run)
  {
    hide LegalRun, Exec, Disciplined, AlwaysLinearizable;
    run := FenceThenWrite(d);
    run := Push(d, run, Begin(2));
    run := Push(d, run, Apply(1));
    assert Exec(Start, run).readers[2] == Pending(2, 2);
    run := Push(d, run, Finish);
    assert Exec(Start, run).readers[2] == Released(2, 2, 1);
  }

  /** A subsuming answer from a member that has not learned of a completed write leaves even the initiator behind it. */
  lemma LaggingAnswerIsStale(d: Discipline) returns (run: seq<Step>)
    requires d.lagging
    ensures LegalRun(Start, run) && Disciplined(d, Start, run) && !AlwaysLinearizable(Start, run)
  {
    assert LegalRun(Start, []) && Exec(Start, []) == Start && Disciplined(d, Start, []);
    hide LegalRun, Exec, Disciplined, AlwaysLinearizable;
    run := Push(d, [], Order);
    run := Push(d, run, Order);
    run := Push(d, run, Complete(2));
    run := Push(d, run, Begin(1));
    run := Push(d, run, Form);
    run := Push(d, run, Subsume(1));
    run := Push(d, run, Apply(1));
    assert Exec(Start, run).readers[1] == Pending(2, 2);
    run := Push(d, run, Finish);
    assert Exec(Start, run).readers[1] == Released(2, 2, 1);
  }
}
