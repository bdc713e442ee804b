/**
 A client session against one tablet, over every interleaving: allocation, resumption,
 completion, duplicate, late and stray deliveries, batches that persist or fail, checkpoints
 and restarts.
 */
module SessionRuns {
  import opened Sessions

  datatype World = World(
    next: nat,
    acked: nat,
    inFlight: set<nat>,
    sent: set<Msg>,
    dedup: Dedup,
    batch: seq<Msg>,
    log: seq<Msg>,
    cut: nat,
    saved: Dedup)

  const Start := World(1, 0, {}, {}, Unknown, [], [], 0, Unknown)

  datatype Step =
    | Alloc
    | Adopt(seqno: nat)
    | Complete(seqno: nat, floor: nat)
    | Stray(m: Msg)
    | Deliver(m: Msg)
    | Persist
    | Fail
    | Checkpoint
    | Restart(persisted: bool)

  /** The floor a completion leaves: over everything issued that is not in flight, and no further. */
  predicate IsFloor(w: World, inFlight: set<nat>, floor: nat) {
    && w.acked <= floor < w.next && (forall s | w.acked < s <= floor :: s !in inFlight)
    && (floor + 1 == w.next || floor + 1 in inFlight)
  }

  predicate Legal(w: World, step: Step) {
    match step
    case Alloc => w.next < U64_MAX
    case Adopt(s) => 0 < s < U64_MAX
    case Complete(s, floor) => IsFloor(w, w.inFlight - {s}, floor)
    case Deliver(m) => m in w.sent
    case _ => true
  }

  /** Admitted by the gate, not already in the open batch, and within the session's window. */
  predicate Admitted(w: World, m: Msg) {
    && Check(w.dedup, m).Admit? && (forall b | b in w.batch :: b.seqno != m.seqno)
    && |w.dedup.outcomes| + |w.batch| < SESSION_OUTCOME_CAP
  }

  /** Replaying the log from a position over a given state. */
  function Replayed(d: Dedup, log: seq<Msg>, from: nat): Dedup
    requires from <= |log|
    decreases |log| - from
  {
    if from == |log| then d else Replayed(Applied(d, log[from], from), log, from + 1)
  }

  function Next(w: World, step: Step): World
    requires Legal(w, step) && w.cut <= |w.log|
  {
    match step
    case Alloc => w.(next := w.next + 1, inFlight := w.inFlight + {w.next}, sent := w.sent + {Msg(w.next, w.acked)})
    case Adopt(s) =>
      w.(next := Max(w.next, s + 1), inFlight := w.inFlight + {s}, sent := w.sent + {Msg(s, w.acked)})
    case Complete(s, floor) => w.(inFlight := w.inFlight - {s}, acked := floor)
    case Stray(m) => w.(sent := w.sent + {m})
    case Deliver(m) => if Admitted(w, m) then w.(batch := w.batch + [m]) else w
    case Persist => w.(log := w.log + w.batch, dedup := Replayed(w.dedup, w.log + w.batch, |w.log|), batch := [])
    case Fail => w.(batch := [])
    case Checkpoint => if WellFormed(w.dedup) then w.(cut := |w.log|, saved := w.dedup) else w
    case Restart(persisted) =>
      var log := if persisted then w.log + w.batch else w.log;
      w.(log := log, batch := [], dedup := Replayed(w.saved, log, w.cut))
  }

  predicate LegalRun(w: World, run: seq<Step>)
    decreases |run|
  {
    w.cut <= |w.log| && (run == [] || (Legal(w, run[0]) && LegalRun(Next(w, run[0]), run[1..])))
  }

  function Exec(w: World, run: seq<Step>): World
    requires LegalRun(w, run)
    decreases |run|
  {
    if run == [] then w else Exec(Next(w, run[0]), run[1..])
  }

  // ----- The tablet -----

  /** The live state is the log's, the checkpoint is the log's at its cut, and no identity is executed or pending twice. */
  predicate TabletInv(w: World) {
    && w.cut <= |w.log| && w.dedup == Folded(w.log, |w.log|) && w.saved == Folded(w.log, w.cut) && WellFormed(w.saved)
    && Distinct(w.log + w.batch)
  }

  lemma {:induction false} ReplayedIsFolded(log: seq<Msg>, from: nat)
    requires from <= |log|
    ensures Replayed(Folded(log, from), log, from) == Folded(log, |log|)
    decreases |log| - from
  {
    if from < |log| {
      ReplayedIsFolded(log, from + 1);
    }
  }

  lemma PersistKeeps(w: World)
    requires TabletInv(w)
    ensures TabletInv(Next(w, Persist)) && TabletInv(Next(w, Restart(true))) && TabletInv(Next(w, Restart(false)))
    ensures Next(w, Restart(true)) == Next(w, Persist)
    ensures Next(w, Restart(false)) == Next(w, Fail)
  {
    hide Applied, Distinct;
    var log := w.log + w.batch;
    FoldPrefix(w.log, w.batch, |w.log|);
    FoldPrefix(w.log, w.batch, w.cut);
    ReplayedIsFolded(log, |w.log|);
    ReplayedIsFolded(log, w.cut);
    ReplayedIsFolded(w.log, w.cut);
    assert log + [] == log;
    assert Distinct(w.log + []) by { DistinctPrefix(w.log, w.batch); assert w.log + [] == w.log; }
  }

  lemma DistinctPrefix(a: seq<Msg>, b: seq<Msg>)
    requires Distinct(a + b)
    ensures Distinct(a)
  {
    assert forall i | 0 <= i < |a| :: (a + b)[i] == a[i];
  }

  lemma DeliverKeeps(w: World, m: Msg)
    requires TabletInv(w) && Admitted(w, m)
    ensures Distinct(w.log + (w.batch + [m]))
  {
    hide Folded;
    AdmitIsFresh(w.log, m);
    var was, now := w.log + w.batch, w.log + (w.batch + [m]);
    assert now == was + [m];
    forall i | 0 <= i < |was|
      ensures was[i].seqno != m.seqno
    {
      if i >= |w.log| {
        assert was[i] == w.batch[i - |w.log|] && was[i] in w.batch;
      }
    }
  }

  lemma TabletStep(w: World, step: Step)
    requires TabletInv(w) && Legal(w, step)
    ensures TabletInv(Next(w, step))
  {
    hide Folded, Applied;
    match step
    case Deliver(m) =>
      if Admitted(w, m) {
        DeliverKeeps(w, m);
      }
    case Persist => PersistKeeps(w);
    case Restart(persisted) => PersistKeeps(w);
    case Fail => PersistKeeps(w);
    case _ =>
  }

  lemma {:induction false} TabletRun(w: World, run: seq<Step>)
    requires TabletInv(w) && LegalRun(w, run)
    ensures TabletInv(Exec(w, run))
    decreases |run|
  {
    hide TabletInv, Next, Legal;
    if run != [] {
      TabletStep(w, run[0]);
      TabletRun(Next(w, run[0]), run[1..]);
    }
  }

  /** Each identity executes at most once, over every run, whoever sent what. */
  lemma AtMostOnce(run: seq<Step>)
    requires LegalRun(Start, run)
    ensures Distinct(Exec(Start, run).log)
  {
    TabletRun(Start, run);
    var w := Exec(Start, run);
    DistinctPrefix(w.log, w.batch);
  }

  /** A restart resumes exactly the retained state: nothing executed is forgotten, nothing acknowledged comes back. */
  lemma RestartIsInvisible(run: seq<Step>, persisted: bool)
    requires LegalRun(Start, run)
    ensures var w := Exec(Start, run);
      w.cut <= |w.log| && Next(w, Restart(persisted)) == Next(w, if persisted then Persist else Fail)
  {
    TabletRun(Start, run);
    PersistKeeps(Exec(Start, run));
  }

  // ----- The client's floor -----

  /** Resumed identities start above the floor, and nobody else speaks for the session. */
  predicate Careful(w: World, step: Step) {
    match step
    case Adopt(s) => w.acked < s
    case Stray(m) => false
    case _ => true
  }

  predicate CarefulRun(w: World, run: seq<Step>)
    requires LegalRun(w, run)
    decreases |run|
  {
    run == [] || (Careful(w, run[0]) && CarefulRun(Next(w, run[0]), run[1..]))
  }

  predicate ClientInv(w: World) {
    && w.acked < w.next && (forall s | s in w.inFlight :: w.acked < s)
    && (forall m | m in w.sent :: m.ack <= w.acked && m.ack < m.seqno)
    && (forall m | m in w.log :: m in w.sent) && (forall m | m in w.batch :: m in w.sent)
  }

  lemma CarefulStep(w: World, step: Step)
    requires ClientInv(w) && w.cut <= |w.log| && Legal(w, step) && Careful(w, step)
    ensures ClientInv(Next(w, step))
  {
    hide Replayed, Check;
  }

  lemma {:induction false} CarefulRunKeeps(w: World, run: seq<Step>)
    requires ClientInv(w) && TabletInv(w) && LegalRun(w, run) && CarefulRun(w, run)
    ensures ClientInv(Exec(w, run)) && TabletInv(Exec(w, run))
    decreases |run|
  {
    hide TabletInv, ClientInv, Next, Legal, Careful;
    if run != [] {
      assert w.cut <= |w.log|;
      CarefulStep(w, run[0]);
      TabletStep(w, run[0]);
      CarefulRunKeeps(Next(w, run[0]), run[1..]);
    }
  }

  lemma {:induction false} FloorIsAcknowledged(log: seq<Msg>, n: nat, bound: nat)
    requires n <= |log| && forall i | 0 <= i < n :: log[i].ack <= bound
    ensures Folded(log, n).floor <= bound
    decreases n
  {
    if n > 0 {
      FloorIsAcknowledged(log, n - 1, bound);
    }
  }

  lemma StartIsInv()
    ensures TabletInv(Start) && ClientInv(Start)
  {
  }

  /** The tablet's floor never passes the client's. */
  lemma FloorBelow(w: World)
    requires TabletInv(w) && ClientInv(w)
    ensures w.dedup.floor <= w.acked
  {
    hide Folded, Distinct;
    assert forall i | 0 <= i < |w.log| :: w.log[i] in w.log;
    FloorIsAcknowledged(w.log, |w.log|, w.acked);
  }

  /** A live identity is never refused as expired, however often and however late it is retried. */
  lemma LiveRetryNeverExpires(run: seq<Step>, m: Msg)
    requires LegalRun(Start, run) && CarefulRun(Start, run)
    requires var w := Exec(Start, run); m in w.sent && m.seqno in w.inFlight
    ensures !Check(Exec(Start, run).dedup, m).Expired?
  {
    hide TabletInv, Next, Legal, Careful, Folded;
    StartIsInv();
    CarefulRunKeeps(Start, run);
    FloorBelow(Exec(Start, run));
  }

  /**
   Every retry of a live identity gets what it needs: its own outcome if it executed, and
   otherwise admission, unless the session's window is full.
   */
  lemma LiveRetryIsAnswered(run: seq<Step>, m: Msg)
    requires LegalRun(Start, run) && CarefulRun(Start, run)
    requires var w := Exec(Start, run); m in w.sent && m.seqno in w.inFlight
    ensures var w := Exec(Start, run);
      var gate := Check(w.dedup, m);
      if exists i :: 0 <= i < |w.log| && w.log[i].seqno == m.seqno
      then gate.Hit? && gate.commit < |w.log| && w.log[gate.commit].seqno == m.seqno
      else gate == if w.dedup.known && |w.dedup.outcomes| >= SESSION_OUTCOME_CAP then Overloaded else Admit
  {
    hide Next, Legal, Careful, Folded;
    StartIsInv();
    CarefulRunKeeps(Start, run);
    var w := Exec(Start, run);
    FloorBelow(w);
    FoldRemembers(w.log, |w.log|);
    assert w.log[..|w.log|] == w.log;
    LiveIsAboveFloor(w, m);
  }

  lemma LiveIsAboveFloor(w: World, m: Msg)
    requires ClientInv(w) && w.dedup.floor <= w.acked && m in w.sent && m.seqno in w.inFlight
    ensures m.seqno > Max(w.dedup.floor, m.ack)
  {
  }

  /** Where the session is known, a resumed identity is refused for good exactly when it is at or below the client's floor. */
  lemma AdoptedExpiresIff(run: seq<Step>, s: nat)
    requires LegalRun(Start, run) && CarefulRun(Start, run) && Exec(Start, run).dedup.known
    ensures var w := Exec(Start, run); Check(w.dedup, Msg(s, w.acked)).Expired? <==> s <= w.acked
  {
    hide TabletInv, Next, Legal, Careful, Folded;
    StartIsInv();
    CarefulRunKeeps(Start, run);
    FloorBelow(Exec(Start, run));
  }

  // ----- When a checkpoint is taken -----

  /** Over every run, careful or not, a checkpoint is taken exactly when the tablet's log is settled. */
  lemma CheckpointTakenIff(run: seq<Step>)
    requires LegalRun(Start, run)
    ensures var w := Exec(Start, run);
      w.cut <= |w.log| &&
      (var w' := Next(w, Checkpoint); (w'.cut == |w.log| && w'.saved == w.dedup) <==> Settled(w.log, |w.log|))
  {
    StartIsInv();
    hide Folded, Settled, Distinct;
    TabletRun(Start, run);
    var w := Exec(Start, run);
    WellFormedIff(w.log, |w.log|);
    if w.cut == |w.log| {
      assert w.saved == w.dedup;
    }
  }

  /** No batch applied an identity at or below an acknowledgement applied before it. */
  predicate InOrder(log: seq<Msg>) {
    forall i, j | 0 <= j < i < |log| :: log[j].ack < log[i].seqno
  }

  /** The checkpoint builder would accept the state after each commit of the log. */
  ghost predicate AcceptedThroughout(log: seq<Msg>) {
    forall n: nat | n <= |log| :: WellFormed(Folded(log, n))
  }

  lemma {:induction false} AboveAcknowledged(log: seq<Msg>, n: nat, s: nat)
    requires n <= |log| && s > 0
    ensures s > Acknowledged(log, n) <==> forall j | 0 <= j < n :: log[j].ack < s
    decreases n
  {
    if n > 0 {
      AboveAcknowledged(log, n - 1, s);
    }
  }

  /**
   In a careful session the tablet would be accepted after each of its commits exactly when no
   batch applied an identity at or below an acknowledgement applied before it.
   */
  lemma AlwaysAcceptedIff(run: seq<Step>)
    requires LegalRun(Start, run) && CarefulRun(Start, run)
    ensures var log := Exec(Start, run).log;
      AcceptedThroughout(log) <==> InOrder(log)
  {
    hide TabletInv, Next, Legal, Careful, Folded, Settled;
    StartIsInv();
    CarefulRunKeeps(Start, run);
    var w := Exec(Start, run);
    forall i | 0 <= i < |w.log|
      ensures w.log[i].ack < w.log[i].seqno
    {
      assert w.log[i] in w.log;
    }
    AcceptedIff(w.log);
  }

  lemma AcceptedIff(log: seq<Msg>)
    requires forall i | 0 <= i < |log| :: log[i].ack < log[i].seqno
    ensures AcceptedThroughout(log) <==> InOrder(log)
  {
    hide Folded, Settled, WellFormed;
    if AcceptedThroughout(log) {
      forall i, j | 0 <= j < i < |log|
        ensures log[j].ack < log[i].seqno
      {
        assert WellFormed(Folded(log, i + 1));
        WellFormedIff(log, i + 1);
        SettledStep(log, i);
        AboveAcknowledged(log, i, log[i].seqno);
      }
    }
    if InOrder(log) {
      forall n: nat | n <= |log|
        ensures WellFormed(Folded(log, n))
      {
        InOrderIsSettled(log, n);
        WellFormedIff(log, n);
      }
    }
  }

  lemma InOrderIsSettled(log: seq<Msg>, n: nat)
    requires n <= |log| && InOrder(log) && forall i | 0 <= i < |log| :: log[i].ack < log[i].seqno
    ensures Settled(log, n)
  {
    forall i | 0 <= i < n
      ensures log[i].seqno > Acknowledged(log, i)
    {
      AboveAcknowledged(log, i, log[i].seqno);
    }
  }

  // ----- A careful session whose checkpoint is refused -----

  lemma Extend(run: seq<Step>, step: Step)
    requires LegalRun(Start, run) && Legal(Exec(Start, run), step)
    requires CarefulRun(Start, run) && Careful(Exec(Start, run), step)
    ensures LegalRun(Start, run + [step]) && CarefulRun(Start, run + [step])
    ensures var w := Exec(Start, run); w.cut <= |w.log| && Exec(Start, run + [step]) == Next(w, step)
  {
    ExtendFrom(Start, run, step);
  }

  lemma {:induction false} ExtendFrom(w: World, run: seq<Step>, step: Step)
    requires TabletInv(w) && LegalRun(w, run) && Legal(Exec(w, run), step)
    requires CarefulRun(w, run) && Careful(Exec(w, run), step)
    ensures LegalRun(w, run + [step]) && CarefulRun(w, run + [step])
    ensures Exec(w, run).cut <= |Exec(w, run).log| && Exec(w, run + [step]) == Next(Exec(w, run), step)
    decreases |run|
  {
    hide TabletInv, Next, Legal, Careful;
    TabletRun(w, run);
    CutWithin(Exec(w, run));
    if run == [] {
      assert run + [step] == [step] && [step][1..] == [];
      TabletStep(w, step);
      CutWithin(Next(w, step));
    } else {
      assert (run + [step])[1..] == run[1..] + [step] && (run + [step])[0] == run[0];
      TabletStep(w, run[0]);
      ExtendFrom(Next(w, run[0]), run[1..], step);
    }
  }

  lemma CutWithin(w: World)
    requires TabletInv(w)
    ensures w.cut <= |w.log|
  {
  }

  /**
   An abandoned identity and a later one, delivered in the other order into one batch: both
   execute, and the tablet then holds an outcome at its floor, which the checkpoint builder
   refuses.
   */
  lemma CheckpointRefused() returns (run: seq<Step>)
    ensures LegalRun(Start, run) && CarefulRun(Start, run)
    ensures var w := Exec(Start, run); |w.log| == 2 && !WellFormed(w.dedup) && w.cut == 0
  {
    hide LegalRun, CarefulRun, Exec, Replayed, Check;
    var w;
    run, w := BothInOneBatch();
    var a, b := Msg(1, 0), Msg(2, 1);
    assert w.log + w.batch == [b, a];
    BothApplied(a, b);
    run, w := Push(run, w, Persist);
  }

  /** The first identity is issued and abandoned, the second issued. */
  lemma TwoIssued() returns (run: seq<Step>, w: World)
    ensures LegalRun(Start, run) && CarefulRun(Start, run) && w == Exec(Start, run)
    ensures w == World(3, 1, {2}, {Msg(1, 0), Msg(2, 1)}, Unknown, [], [], 0, Unknown)
  {
    hide LegalRun, CarefulRun, Exec, Replayed, Check;
    run, w := Nothing();
    run, w := Push(run, w, Alloc);
    assert w == World(2, 0, {1}, {Msg(1, 0)}, Unknown, [], [], 0, Unknown);
    run, w := Push(run, w, Complete(1, 1));
    run, w := Push(run, w, Alloc);
  }

  lemma BothInOneBatch() returns (run: seq<Step>, w: World)
    ensures LegalRun(Start, run) && CarefulRun(Start, run) && w == Exec(Start, run)
    ensures w == World(3, 1, {2}, {Msg(1, 0), Msg(2, 1)}, Unknown, [Msg(2, 1), Msg(1, 0)], [], 0, Unknown)
  {
    hide LegalRun, CarefulRun, Exec, Replayed;
    run, w := TwoIssued();
    run, w := Push(run, w, Deliver(Msg(2, 1)));
    assert w.batch == [Msg(2, 1)];
    run, w := Push(run, w, Deliver(Msg(1, 0)));
  }

  lemma Nothing() returns (run: seq<Step>, w: World)
    ensures LegalRun(Start, run) && CarefulRun(Start, run) && w == Exec(Start, run) == Start
  {
    run, w := [], Start;
  }

  lemma Push(run: seq<Step>, w: World, step: Step) returns (run': seq<Step>, w': World)
    requires LegalRun(Start, run) && CarefulRun(Start, run) && w == Exec(Start, run) && Legal(w, step) && Careful(w, step)
    ensures w.cut <= |w.log| && w' == Next(w, step)
    ensures LegalRun(Start, run') && CarefulRun(Start, run') && w' == Exec(Start, run')
  {
    hide Next, Legal, Careful;
    Extend(run, step);
    run', w' := run + [step], Exec(Start, run + [step]);
  }

  lemma BothApplied(a: Msg, b: Msg)
    requires a == Msg(1, 0) && b == Msg(2, 1)
    ensures var d := Replayed(Unknown, [b, a], 0); 1 in d.outcomes && d.floor == 1
  {
    var log := [b, a];
    var first := Applied(Unknown, b, 0);
    assert Replayed(Unknown, log, 0) == Replayed(first, log, 1);
    assert Replayed(first, log, 1) == Replayed(Applied(first, a, 1), log, 2);
  }
}
