/**
 The client's 2PC driver, wave by wave, run against the machine of `TwoPhase`.

 Every remote call first lets the rest of the world take any steps it likes
 (`Fate.before`); the request itself may be lost, or served with its answer
 lost, or served by another tablet than the probed one. Each method returns the
 steps it caused, so whatever holds of all runs holds of every drive.
 */
module TwoPhaseDriver {
  import opened TwoPhase
  import opened TwoPhaseRuns

  datatype Fate = Fate(before: seq<Step>, arrives: bool, answered: bool, moved: bool)

  /** The network and everybody else, call by call. */
  type Network = nat -> Fate

  datatype Status = Accepted | Refused | NoAnswer

  /** How one drive of a transaction ends (`BatchAttempt`, or success). */
  datatype DriveResult = Done | TxnAborted | Conflict | Redrive

  function ReplyTo(r: Request): Reply {
    match r
    case PrepareReq(t, k) => Prepared(t, k)
    case DecidePrepareReq(t, d) => DecidePrepared(t, d)
    case DecideFinalizeReq(t, d) => DecideApplied(t, d)
    case FinalizeReq(t, k, commit) => Finalized(t, k, commit)
  }

  /** Whether the server answers a request with success in this state. */
  predicate Serves(plan: Plan, w: World, r: Request) {
    match r
    case PrepareReq(t, k) =>
      !ReservedByOther(w, t, k) && t in plan && k in plan[t] && Takes(plan[t][k], VersionOf(w, k))
    case DecidePrepareReq(t, d) => (t in w.deciders ==> w.deciders[t] == d) && t !in w.records
    case DecideFinalizeReq(t, d) => t in w.deciders ==> w.deciders[t] == d
    case FinalizeReq(t, k, commit) =>
      !ReservedByOther(w, t, k) && !(commit && NeedsLive(plan, t, k) && VersionOf(w, k) == 0)
  }

  predicate Path(plan: Plan, disc: Discipline, w: World, trace: seq<Step>, w': World) {
    Legal(plan, disc, w, trace) && w' == Exec(plan, w, trace)
  }

  /** A call that nobody interferes with and that is served and answered where it was expected. */
  const Calm := Fate([], true, true, false)

  ghost predicate CalmNetwork(net: Network) {
    forall i: nat :: net(i) == Calm
  }

  ghost predicate NoForeignReservation(plan: Plan, w: World, t: TxnId) {
    t in plan && forall k <- plan[t] :: !ReservedByOther(w, t, k)
  }

  /** Every write of `t` that needs a live object has one. */
  ghost predicate AllLive(plan: Plan, w: World, t: TxnId) {
    forall k :: NeedsLive(plan, t, k) ==> VersionOf(w, k) > 0
  }

  /** Nothing stands in the way of `t`: undecided, no foreign reservation, all expectations met. */
  ghost predicate Clear(plan: Plan, w: World, t: TxnId) {
    && NoForeignReservation(plan, w, t) && t !in w.records && t !in w.deciders
    && forall k <- plan[t] :: Takes(plan[t][k], VersionOf(w, k))
  }

  lemma PathJoins(plan: Plan, disc: Discipline, w: World, a: seq<Step>, mid: World, b: seq<Step>, w': World)
    requires Path(plan, disc, w, a, mid) && Path(plan, disc, mid, b, w')
    ensures Path(plan, disc, w, a + b, w')
    ensures w.replies <= mid.replies <= w'.replies && w.decided <= mid.decided <= w'.decided
  {
    RunSplits(plan, disc, w, a, b);
    HistoryGrows(plan, w, a);
    HistoryGrows(plan, mid, b);
  }

  lemma OneStepPath(plan: Plan, disc: Discipline, w: World, s: Step)
    requires Enabled(plan, disc, w, s)
    ensures Path(plan, disc, w, [s], Next(plan, w, s))
  {
    assert [s][1..] == [];
  }

  lemma MaySendGrows(plan: Plan, w: World, w': World, r: Request)
    requires MaySend(plan, w, r) && w.replies <= w'.replies
    ensures MaySend(plan, w', r)
  {
  }

  /** Lets the others run: every step of the schedule that is possible when its turn comes. */
  method Interfere(plan: Plan, disc: Discipline, w: World, schedule: seq<Step>) returns (w': World, trace: seq<Step>)
    ensures Path(plan, disc, w, trace, w') && w.replies <= w'.replies && w.decided <= w'.decided
    ensures schedule == [] ==> w' == w
  {
    w', trace := w, [];
    for i := 0 to |schedule|
      invariant i == 0 ==> w' == w
      invariant Path(plan, disc, w, trace, w') && w.replies <= w'.replies && w.decided <= w'.decided
    {
      if Enabled(plan, disc, w', schedule[i]) {
        OneStepPath(plan, disc, w', schedule[i]);
        PathJoins(plan, disc, w, trace, w', [schedule[i]], Next(plan, w', schedule[i]));
        w', trace := Next(plan, w', schedule[i]), trace + [schedule[i]];
      }
    }
  }

  /** One request: sent, possibly served, possibly answered. */
  method Call(plan: Plan, disc: Discipline, w: World, r: Request, fate: Fate)
    returns (w': World, trace: seq<Step>, status: Status)
    requires MaySend(plan, w, r)
    ensures Path(plan, disc, w, trace, w') && w.replies <= w'.replies && w.decided <= w'.decided
    ensures status.Accepted? ==> ReplyTo(r) in w'.replies
    ensures fate == Calm ==>
      var asked := Next(plan, w, Send(r));
      Enabled(plan, disc, asked, Deliver(r)) ==>
        w' == Next(plan, asked, Deliver(r)) && status == if Serves(plan, asked, r) then Accepted else Refused
  {
    w', trace := Interfere(plan, disc, w, fate.before);
    MaySendGrows(plan, w, w', r);
    OneStepPath(plan, disc, w', Send(r));
    PathJoins(plan, disc, w, trace, w', [Send(r)], Next(plan, w', Send(r)));
    w', trace := Next(plan, w', Send(r)), trace + [Send(r)];
    status := NoAnswer;
    if fate.arrives && Enabled(plan, disc, w', Deliver(r)) {
      var served := Serves(plan, w', r);
      OneStepPath(plan, disc, w', Deliver(r));
      PathJoins(plan, disc, w, trace, w', [Deliver(r)], Next(plan, w', Deliver(r)));
      w', trace := Next(plan, w', Deliver(r)), trace + [Deliver(r)];
      if fate.answered {
        status := if served then Accepted else Refused;
      }
    }
  }

  /** What a read of the coordinator record returns. */
  datatype RecordRead = Unreadable | Absent | Found(d: Decider)

  /** `read_txn_record`. */
  method ReadTxnRecord(plan: Plan, disc: Discipline, w: World, t: TxnId, fate: Fate)
    returns (w': World, trace: seq<Step>, read: RecordRead)
    ensures Path(plan, disc, w, trace, w') && w.replies <= w'.replies && w.decided <= w'.decided
    ensures read.Found? ==> Saw(t, read.d) in w'.replies
    ensures fate == Calm ==>
      w' == Next(plan, w, ReadRecord(t)) && read == if t in w.records then Found(w.records[t]) else Absent
  {
    w', trace := Interfere(plan, disc, w, fate.before);
    if !fate.answered {
      return w', trace, Unreadable;
    }
    if t !in w'.records {
      return w', trace, Absent;
    }
    read := Found(w'.records[t]);
    OneStepPath(plan, disc, w', ReadRecord(t));
    PathJoins(plan, disc, w, trace, w', [ReadRecord(t)], Next(plan, w', ReadRecord(t)));
    w', trace := Next(plan, w', ReadRecord(t)), trace + [ReadRecord(t)];
  }

  datatype WaveResult = AllPrepared | Stopped(why: DriveResult)

  /** `prepare_wave`: the keys in order, stopping at the first failure with the reservations made so far. */
  method PrepareWave(plan: Plan, disc: Discipline, w: World, t: TxnId, keys: seq<Key>, net: Network, at: nat)
    returns (w': World, trace: seq<Step>, prepared: seq<Key>, result: WaveResult)
    requires t in plan && forall k <- keys :: k in plan[t]
    ensures Path(plan, disc, w, trace, w') && w.replies <= w'.replies && w.decided <= w'.decided
    ensures prepared <= keys && forall k <- prepared :: Prepared(t, k) in w'.replies
    ensures result.AllPrepared? ==> prepared == keys
    ensures result.Stopped? ==> result.why in {Conflict, Redrive}
    ensures CalmNetwork(net) && Clear(plan, w, t) ==> result.AllPrepared? && Clear(plan, w', t)
  {
    w', trace, prepared := w, [], [];
    for i := 0 to |keys|
      invariant Path(plan, disc, w, trace, w') && w.replies <= w'.replies && w.decided <= w'.decided
      invariant prepared == keys[..i] && forall k <- prepared :: Prepared(t, k) in w'.replies
      invariant CalmNetwork(net) && Clear(plan, w, t) ==> Clear(plan, w', t)
    {
      var next, steps, status := Call(plan, disc, w', PrepareReq(t, keys[i]), net(at + i));
      PathJoins(plan, disc, w, trace, w', steps, next);
      w', trace := next, trace + steps;
      match status
      case Accepted =>
        prepared := prepared + [keys[i]];
        assert prepared == keys[..i + 1];
        if net(at + i).moved {
          return w', trace, prepared, Stopped(Conflict);
        }
      case Refused => return w', trace, prepared, Stopped(Conflict);
      case NoAnswer => return w', trace, prepared, Stopped(Redrive);
    }
    result := AllPrepared;
  }

  /** `decide_record`: the guarded single-key write of a terminal decision. */
  method DecideRecord(plan: Plan, disc: Discipline, w: World, t: TxnId, d: Decider, net: Network, at: nat)
    returns (w': World, trace: seq<Step>, decided: bool)
    requires MaySend(plan, w, DecidePrepareReq(t, d))
    ensures Path(plan, disc, w, trace, w') && w.replies <= w'.replies && w.decided <= w'.decided
    ensures decided ==> DecideApplied(t, d) in w'.replies
    ensures CalmNetwork(net) && t !in w.records && t !in w.deciders ==>
      decided && w'.records == w.records[t := d] && w'.intents == w.intents && w'.versions == w.versions
  {
    var status;
    w', trace, status := Call(plan, disc, w, DecidePrepareReq(t, d), net(at));
    if !status.Accepted? {
      return w', trace, false;
    }
    var next, steps;
    next, steps, status := Call(plan, disc, w', DecideFinalizeReq(t, d), net(at + 1));
    PathJoins(plan, disc, w, trace, w', steps, next);
    return next, trace + steps, status.Accepted?;
  }

  /**
   `finalize_all` (`checkTablet`) and `finalize_all_recovery`: one commit finalize
   per key. Success means every key answered that it was applied.
   */
  method FinalizeAll(plan: Plan, disc: Discipline, w: World, t: TxnId, keys: seq<Key>, checkTablet: bool,
                     net: Network, at: nat)
    returns (w': World, trace: seq<Step>, result: DriveResult)
    requires t in plan && (forall k <- keys :: k in plan[t]) && Saw(t, CommitDecide) in w.replies
    ensures Path(plan, disc, w, trace, w') && w.replies <= w'.replies && w.decided <= w'.decided
    ensures result.Done? ==> forall k <- keys :: Finalized(t, k, true) in w'.replies
    ensures !result.TxnAborted?
    ensures disc.blind && CalmNetwork(net) && NoForeignReservation(plan, w, t) && AllLive(plan, w, t) ==> result.Done?
  {
    w', trace := w, [];
    for i := 0 to |keys|
      invariant disc.blind && CalmNetwork(net) && NoForeignReservation(plan, w, t) && AllLive(plan, w, t) ==>
        NoForeignReservation(plan, w', t) && AllLive(plan, w', t)
      invariant Path(plan, disc, w, trace, w') && w.replies <= w'.replies && w.decided <= w'.decided
      invariant forall k <- keys[..i] :: Finalized(t, k, true) in w'.replies
    {
      var next, steps, status := Call(plan, disc, w', FinalizeReq(t, keys[i], true), net(at + i));
      PathJoins(plan, disc, w, trace, w', steps, next);
      w', trace := next, trace + steps;
      match status
      case Accepted =>
        if checkTablet && net(at + i).moved {
          return w', trace, Conflict;
        }
      case Refused => return w', trace, Conflict;
      case NoAnswer => return w', trace, Redrive;
    }
    result := Done;
  }

  const MAX_ABORT_WAVES: nat := 8

  /** `finalize_abort_durable`: the same idempotent discard, until it is answered or the waves run out. */
  method FinalizeAbortDurable(plan: Plan, disc: Discipline, w: World, t: TxnId, k: Key, net: Network, at: nat)
    returns (w': World, trace: seq<Step>)
    requires MaySend(plan, w, FinalizeReq(t, k, false))
    ensures Path(plan, disc, w, trace, w') && w.replies <= w'.replies && w.decided <= w'.decided
    ensures CalmNetwork(net) && !ReservedByOther(w, t, k) ==>
      Finalized(t, k, false) in w'.replies && w'.records == w.records && w'.intents == w.intents - {k}
  {
    w', trace := w, [];
    var waves := 0;
    while waves < MAX_ABORT_WAVES
      invariant CalmNetwork(net) && !ReservedByOther(w, t, k) ==> waves == 0 && w' == w
      invariant Path(plan, disc, w, trace, w') && w.replies <= w'.replies && w.decided <= w'.decided
    {
      MaySendGrows(plan, w, w', FinalizeReq(t, k, false));
      var next, steps, status := Call(plan, disc, w', FinalizeReq(t, k, false), net(at + waves));
      PathJoins(plan, disc, w, trace, w', steps, next);
      w', trace := next, trace + steps;
      if !status.NoAnswer? {
        return;
      }
      waves := waves + 1;
    }
  }

  /** `abort_or_commit`: persist the abort and discard, or follow a commit that won the race. */
  method AbortOrCommit(plan: Plan, disc: Discipline, w: World, t: TxnId, keys: seq<Key>, prepared: seq<Key>,
                       aborted: DriveResult, net: Network, at: nat)
    returns (w': World, trace: seq<Step>, result: DriveResult)
    requires t in plan && (forall k <- keys :: k in plan[t]) && (forall k <- prepared :: k in keys)
    requires aborted in {Conflict, Redrive}
    ensures Path(plan, disc, w, trace, w') && w.replies <= w'.replies && w.decided <= w'.decided
    ensures result.Done? ==> forall k <- keys :: Finalized(t, k, true) in w'.replies
    ensures !result.TxnAborted?
    ensures CalmNetwork(net) && NoForeignReservation(plan, w, t) && t !in w.records && t !in w.deciders ==>
      && result == aborted && w'.records == w.records[t := AbortDecide]
      && forall k <- prepared :: Finalized(t, k, false) in w'.replies
  {
    var decided;
    w', trace, decided := DecideRecord(plan, disc, w, t, AbortDecide, net, at);
    if !decided {
      var next, steps, read := ReadTxnRecord(plan, disc, w', t, net(at + 2));
      PathJoins(plan, disc, w, trace, w', steps, next);
      w', trace := next, trace + steps;
      match read
      case Unreadable => return w', trace, Redrive;
      case Absent => return w', trace, aborted;
      case Found(d) =>
        if !d.CommitDecide? {
          return w', trace, aborted;
        }
        next, steps, result := FinalizeAll(plan, disc, w', t, keys, false, net, at + 3);
        PathJoins(plan, disc, w, trace, w', steps, next);
        return next, trace + steps, result;
    }
    for i := 0 to |prepared|
      invariant Path(plan, disc, w, trace, w') && w.replies <= w'.replies && w.decided <= w'.decided
      invariant DecideApplied(t, AbortDecide) in w'.replies
      invariant CalmNetwork(net) && NoForeignReservation(plan, w, t) && t !in w.records && t !in w.deciders ==>
        && NoForeignReservation(plan, w', t) && w'.records == w.records[t := AbortDecide]
        && forall k <- prepared[..i] :: Finalized(t, k, false) in w'.replies
    {
      var next, steps := FinalizeAbortDurable(plan, disc, w', t, prepared[i], net, at + 2 + i * MAX_ABORT_WAVES);
      PathJoins(plan, disc, w, trace, w', steps, next);
      w', trace := next, trace + steps;
    }
    result := aborted;
  }

  /**
   `drive_2pc`: recovery first, then prepare, decide, verify, finalize. Success
   means every key answered a commit finalize; `TxnAborted` means the record was
   seen to hold a driver's abort.
   */
  method Drive(plan: Plan, disc: Discipline, w: World, t: TxnId, keys: seq<Key>, net: Network)
    returns (w': World, trace: seq<Step>, result: DriveResult)
    requires t in plan && plan[t].Keys == (set k <- keys)
    ensures Path(plan, disc, w, trace, w') && w.replies <= w'.replies && w.decided <= w'.decided
    ensures result.Done? ==> forall k <- keys :: Finalized(t, k, true) in w'.replies
    ensures result.TxnAborted? ==> Saw(t, AbortDecide) in w'.replies
    ensures disc.blind && CalmNetwork(net) && Clear(plan, w, t) ==> result.Done?
  {
    var read;
    w', trace, read := ReadTxnRecord(plan, disc, w, t, net(0));
    var next, steps;
    match read {
      case Unreadable => return w', trace, Redrive;
      case Absent =>
      case Found(d) =>
        match d {
          case CommitDecide =>
            next, steps, result := FinalizeAll(plan, disc, w', t, keys, false, net, 1);
            PathJoins(plan, disc, w, trace, w', steps, next);
            return next, trace + steps, result;
          case AbortDecide => return w', trace, TxnAborted;
          case ResolverAbort => return w', trace, Conflict;
        }
    }
    var prepared, wave;
    next, steps, prepared, wave := PrepareWave(plan, disc, w', t, keys, net, 1);
    PathJoins(plan, disc, w, trace, w', steps, next);
    w', trace := next, trace + steps;
    var at := 1 + |keys|;
    if wave.Stopped? {
      next, steps, result := AbortOrCommit(plan, disc, w', t, keys, prepared, wave.why, net, at);
      PathJoins(plan, disc, w, trace, w', steps, next);
      return next, trace + steps, result;
    }
    var decided;
    next, steps, decided := DecideRecord(plan, disc, w', t, CommitDecide, net, at);
    PathJoins(plan, disc, w, trace, w', steps, next);
    w', trace := next, trace + steps;
    next, steps, read := ReadTxnRecord(plan, disc, w', t, net(at + 2));
    PathJoins(plan, disc, w, trace, w', steps, next);
    w', trace := next, trace + steps;
    if read.Unreadable? {
      return w', trace, Redrive;
    }
    if read == Found(CommitDecide) {
      next, steps, result := FinalizeAll(plan, disc, w', t, keys, decided, net, at + 3);
    } else {
      next, steps, result := AbortOrCommit(plan, disc, w', t, keys, prepared, if decided then Conflict else Redrive,
                                           net, at + 3);
    }
    PathJoins(plan, disc, w, trace, w', steps, next);
    return next, trace + steps, result;
  }

  /**
   What a finished drive tells its caller, whatever all other drivers, the
   resolver and the network did before and during it: success means every key
   was applied, and an abort means no key ever is.
   */
  lemma DriveIsTruthful(plan: Plan, disc: Discipline, before: seq<Step>, trace: seq<Step>, after: seq<Step>,
                        t: TxnId, keys: seq<Key>)
    requires Legal(plan, disc, Genesis, before + trace + after) && !disc.reap
    requires t in plan && plan[t].Keys == (set k <- keys)
    ensures (forall k <- keys :: Finalized(t, k, true) in Exec(plan, Genesis, before + trace).replies) ==>
      forall k <- keys :: (t, k) in Exec(plan, Genesis, before + trace).applied
    ensures Saw(t, AbortDecide) in Exec(plan, Genesis, before + trace).replies ==>
      forall k <- keys :: (t, k) !in Exec(plan, Genesis, before + trace + after).applied
  {
    RunSplits(plan, disc, Genesis, before + trace, after);
    UnreapedRunsAreAtomic(plan, disc, before + trace);
    if Saw(t, AbortDecide) in Exec(plan, Genesis, before + trace).replies {
      forall k <- keys ensures (t, k) !in Exec(plan, Genesis, before + trace + after).applied {
        AbortIsFinal(plan, disc, before + trace, after, t, k);
      }
    }
  }

  // ----- Convergence -----

  /** Sends and delivers the commit finalize of one key. */
  function FinalizeKey(t: TxnId, k: Key): seq<Step> {
    [Send(FinalizeReq(t, k, true))] + [Deliver(FinalizeReq(t, k, true))]
  }

  /** A key of a committed transaction that is not yet applied: one finalize is accepted and applies it. */
  lemma FinalizeOne(plan: Plan, disc: Discipline, w: World, t: TxnId, k: Key) returns (w': World)
    requires Inv(plan, w) && Tame(plan, disc) && t in plan && k in plan[t] && (t, k) !in w.applied
    requires t in w.records && w.records[t] == CommitDecide && Saw(t, CommitDecide) in w.replies
    ensures Path(plan, disc, w, FinalizeKey(t, k), w') && Inv(plan, w')
    ensures w'.applied == w.applied + multiset{(t, k)} && w'.records == w.records && w.replies <= w'.replies
  {
    InvIsSafe(plan, w);
    var r := FinalizeReq(t, k, true);
    w' := Next(plan, Next(plan, w, Send(r)), Deliver(r));
    OneStepPath(plan, disc, w, Send(r));
    OneStepPath(plan, disc, Next(plan, w, Send(r)), Deliver(r));
    PathJoins(plan, disc, w, [Send(r)], Next(plan, w, Send(r)), [Deliver(r)], w');
    RunKeeps(plan, disc, w, FinalizeKey(t, k));
  }

  /**
   A seen commit never blocks: at the end of every run, each of its keys is
   applied, or still reserved for it and applied by its next finalize.
   */
  lemma CommitNeverBlocks(plan: Plan, disc: Discipline, run: seq<Step>, t: TxnId, k: Key)
    requires Legal(plan, disc, Genesis, run) && Tame(plan, disc) && t in plan && k in plan[t]
    requires Saw(t, CommitDecide) in Exec(plan, Genesis, run).replies
    ensures var w := Exec(plan, Genesis, run);
      (t, k) in w.applied ||
      (ReservedBy(w, t, k) && Legal(plan, disc, Genesis, run + FinalizeKey(t, k)) &&
       (t, k) in Exec(plan, Genesis, run + FinalizeKey(t, k)).applied)
  {
    TameRunsAreSafe(plan, disc, run);
    var w := Exec(plan, Genesis, run);
    assert (t, CommitDecide) in w.decided;
    assert t in w.records && w.records[t] == CommitDecide;
    if (t, k) !in w.applied {
      var w' := FinalizeOne(plan, disc, w, t, k);
      RunSplits(plan, disc, Genesis, run, FinalizeKey(t, k));
      assert (t, k) in w'.applied;
    }
  }

  /** Every commit finalize that is ever delivered leaves its key applied, whatever else the run does. */
  lemma DeliveredFinalizeApplies(plan: Plan, disc: Discipline, run: seq<Step>, i: nat, t: TxnId, k: Key)
    requires Legal(plan, disc, Genesis, run) && Tame(plan, disc) && t in plan && k in plan[t]
    requires i < |run| && run[i] == Deliver(FinalizeReq(t, k, true))
    ensures (t, k) in Exec(plan, Genesis, run).applied
  {
    hide Inv, Next, Tame;
    var w := Exec(plan, Genesis, run[..i]);
    assert run == run[..i] + run[i..];
    RunSplits(plan, disc, Genesis, run[..i], run[i..]);
    assert run[i..][0] == run[i];
    TameRunsAreSafe(plan, disc, run[..i]);
    AppliesNow(plan, disc, w, t, k);
    HistoryGrows(plan, Next(plan, w, run[i]), run[i..][1..]);
  }

  lemma AppliesNow(plan: Plan, disc: Discipline, w: World, t: TxnId, k: Key)
    requires Inv(plan, w) && Tame(plan, disc) && t in plan && k in plan[t]
    requires Enabled(plan, disc, w, Deliver(FinalizeReq(t, k, true)))
    ensures (t, k) in Next(plan, w, Deliver(FinalizeReq(t, k, true))).applied
  {
    InvIsSafe(plan, w);
    assert (t, CommitDecide) in w.decided;
    assert t in w.records && w.records[t] == CommitDecide;
  }

  /** From any state reached after the commit record is durable, a finalize wave ends with every key applied. */
  lemma {:induction false} CommitConverges(plan: Plan, disc: Discipline, w: World, t: TxnId, keys: seq<Key>)
    returns (run: seq<Step>, w': World)
    requires Inv(plan, w) && Tame(plan, disc) && t in plan && (forall k <- keys :: k in plan[t])
    requires t in w.records && w.records[t] == CommitDecide && Saw(t, CommitDecide) in w.replies
    ensures Path(plan, disc, w, run, w') && Inv(plan, w') && w.applied <= w'.applied
    ensures forall k <- keys :: (t, k) in w'.applied
    decreases |keys|
  {
    if keys == [] {
      run, w' := [], w;
    } else {
      var a, mid := [], w;
      if (t, keys[0]) !in w.applied {
        mid := FinalizeOne(plan, disc, w, t, keys[0]);
        a := FinalizeKey(t, keys[0]);
      }
      var b, end := CommitConverges(plan, disc, mid, t, keys[1..]);
      run, w' := a + b, end;
      PathJoins(plan, disc, w, a, mid, b, end);
    }
  }
}
