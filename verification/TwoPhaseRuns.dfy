/**
 Whole-run results about the two-phase commit machine: exactly which disciplines
 keep every run atomic, what a commit guarantees, and what it does not.
 */
module TwoPhaseRuns {
  import opened TwoPhase

  /** The strictest deployment: none of the behaviours a discipline names ever happens. */
  const Strict := Discipline(false, false, false, false, false, false)

  /** No record takes two values in any run of any plan. */
  ghost predicate DecidesOnce(disc: Discipline) {
    forall plan: Plan, run :: Legal(plan, disc, Genesis, run) ==> SingleDecision(Exec(plan, Genesis, run))
  }

  /** No run of any plan applies one key of a transaction and discards another. */
  ghost predicate Atomic(disc: Discipline) {
    forall plan: Plan, run :: Legal(plan, disc, Genesis, run) ==> AllOrNothing(Exec(plan, Genesis, run))
  }

  /** In no run of any plan does a committed transaction lose a key it still has to apply. */
  ghost predicate HoldsCommits(disc: Discipline) {
    forall plan: Plan, run :: Legal(plan, disc, Genesis, run) ==> CommitHeld(plan, Exec(plan, Genesis, run))
  }

  /** Once an abort is decided, no continuation of the run applies a key. */
  ghost predicate AbortsLast(disc: Discipline) {
    forall plan: Plan, run, more, t, k ::
      Legal(plan, disc, Genesis, run + more) && AbortDecided(Exec(plan, Genesis, run), t) ==>
        (t, k) !in Exec(plan, Genesis, run + more).applied
  }

  /** In every run of every plan, a reserved key is at the version its prepare validated. */
  ghost predicate Pins(disc: Discipline) {
    forall plan: Plan, run :: Legal(plan, disc, Genesis, run) ==> PinInv(plan, Exec(plan, Genesis, run))
  }

  /** A commit finalize that is delivered now meets its own reservation, at the version that was validated. */
  predicate MeetsValidated(plan: Plan, w: World, t: TxnId, k: Key)
    requires t in plan && k in plan[t]
  {
    ReservedBy(w, t, k) && w.intents[k].observed == VersionOf(w, k) && Takes(plan[t][k], VersionOf(w, k))
  }

  /** In every run of every plan, a commit finalize that can first reach a key meets what was validated. */
  ghost predicate AppliesValidated(disc: Discipline) {
    forall plan: Plan, run, t, k | t in plan && k in plan[t] ::
      Legal(plan, disc, Genesis, run) && FirstFinalize(plan, disc, Exec(plan, Genesis, run), t, k) ==>
        MeetsValidated(plan, Exec(plan, Genesis, run), t, k)
  }

  predicate FirstFinalize(plan: Plan, disc: Discipline, w: World, t: TxnId, k: Key) {
    Enabled(plan, disc, w, Deliver(FinalizeReq(t, k, true))) && (t, k) !in w.applied
  }

  /** Without reaping every run decides once, and without disowned reservations it is atomic. */
  lemma UnreapedRunsAreAtomic(plan: Plan, disc: Discipline, run: seq<Step>)
    requires Legal(plan, disc, Genesis, run) && !disc.reap
    ensures var w := Exec(plan, Genesis, run);
      Core(w) && SingleDecision(w) && (!disc.homeless ==> DiscardInv(w) && AllOrNothing(w))
  {
    assert Core(Genesis) && DiscardInv(Genesis);
    RunKeepsCore(plan, disc, Genesis, run);
    CoreDecidesOnce(Exec(plan, Genesis, run));
    if !disc.homeless {
      RunKeepsDiscards(plan, disc, Genesis, run);
      CoreIsAtomic(Exec(plan, Genesis, run));
    }
  }

  /** In a tame deployment every committed key stays held until it is applied. */
  lemma TameRunsAreSafe(plan: Plan, disc: Discipline, run: seq<Step>)
    requires Legal(plan, disc, Genesis, run) && Tame(plan, disc)
    ensures Inv(plan, Exec(plan, Genesis, run)) && Safe(plan, Exec(plan, Genesis, run))
  {
    assert Inv(plan, Genesis);
    RunKeeps(plan, disc, Genesis, run);
    InvIsSafe(plan, Exec(plan, Genesis, run));
  }

  lemma {:induction false} RunSplits(plan: Plan, disc: Discipline, w: World, a: seq<Step>, b: seq<Step>)
    ensures Exec(plan, w, a + b) == Exec(plan, Exec(plan, w, a), b)
    ensures Legal(plan, disc, w, a + b) <==> Legal(plan, disc, w, a) && Legal(plan, disc, Exec(plan, w, a), b)
    decreases |a|
  {
    if a == [] {
      assert a + b == b;
    } else {
      assert (a + b)[0] == a[0] && (a + b)[1..] == a[1..] + b;
      RunSplits(plan, disc, Next(plan, w, a[0]), a[1..], b);
    }
  }

  /** Extends a legal run from genesis by one step. */
  lemma Extend(plan: Plan, disc: Discipline, run: seq<Step>, w: World, s: Step) returns (run': seq<Step>, w': World)
    requires Legal(plan, disc, Genesis, run) && w == Exec(plan, Genesis, run) && Enabled(plan, disc, w, s)
    ensures run' == run + [s] && w' == Next(plan, w, s)
    ensures Legal(plan, disc, Genesis, run') && w' == Exec(plan, Genesis, run')
  {
    run', w' := run + [s], Next(plan, w, s);
    RunSplits(plan, disc, Genesis, run, [s]);
    assert Legal(plan, disc, w, [s]) by { assert [s][1..] == []; }
    assert Exec(plan, w, [s]) == w' by { assert [s][1..] == []; }
  }

  /** Sends one request and delivers it at once. */
  lemma Ask(plan: Plan, disc: Discipline, run: seq<Step>, w: World, r: Request) returns (run': seq<Step>, w': World)
    requires Legal(plan, disc, Genesis, run) && w == Exec(plan, Genesis, run) && MaySend(plan, w, r)
    requires Enabled(plan, disc, w.(sent := w.sent + {r}), Deliver(r))
    ensures w' == Next(plan, w.(sent := w.sent + {r}), Deliver(r)) && run <= run'
    ensures Legal(plan, disc, Genesis, run') && w' == Exec(plan, Genesis, run')
  {
    run', w' := Extend(plan, disc, run, w, Send(r));
    run', w' := Extend(plan, disc, run', w', Deliver(r));
  }

  /** Decides the commit of a transaction whose keys all answered their prepare, and reads its record. */
  lemma DecideCommit(plan: Plan, disc: Discipline, run: seq<Step>, w: World, t: TxnId)
    returns (run': seq<Step>, w': World)
    requires Legal(plan, disc, Genesis, run) && w == Exec(plan, Genesis, run)
    requires t in plan && (forall k <- plan[t] :: Prepared(t, k) in w.replies) && t !in w.deciders && t !in w.records
    ensures Legal(plan, disc, Genesis, run') && w' == Exec(plan, Genesis, run')
    ensures w'.intents == w.intents && w'.versions == w.versions && w'.deciders == w.deciders
    ensures w'.records == w.records[t := CommitDecide] && w'.applied == w.applied && w'.discarded == w.discarded
    ensures w.sent <= w'.sent && w.replies <= w'.replies && Saw(t, CommitDecide) in w'.replies
  {
    hide Exec, Legal;
    run', w' := Ask(plan, disc, run, w, DecidePrepareReq(t, CommitDecide));
    run', w' := Ask(plan, disc, run', w', DecideFinalizeReq(t, CommitDecide));
    assert w'.deciders == w.deciders;
    run', w' := Extend(plan, disc, run', w', ReadRecord(t));
  }

  /** Prepares and decides a one-key transaction up to its durable commit record. */
  lemma CommitOneKey(plan: Plan, disc: Discipline, run: seq<Step>, w: World, t: TxnId, k: Key)
    returns (run': seq<Step>, w': World)
    requires Legal(plan, disc, Genesis, run) && w == Exec(plan, Genesis, run)
    requires t in plan && plan[t].Keys == {k} && Takes(plan[t][k], VersionOf(w, k))
    requires k !in w.intents && t !in w.deciders && t !in w.records
    ensures Legal(plan, disc, Genesis, run') && w' == Exec(plan, Genesis, run')
    ensures w'.intents == w.intents[k := Intent(t, VersionOf(w, k))] && w'.versions == w.versions
    ensures w'.records == w.records[t := CommitDecide] && w'.deciders == w.deciders
    ensures Saw(t, CommitDecide) in w'.replies && w'.applied == w.applied
    ensures w.sent <= w'.sent && w.replies <= w'.replies
  {
    hide Exec, Legal;
    run', w' := Ask(plan, disc, run, w, PrepareReq(t, k));
    run', w' := DecideCommit(plan, disc, run', w', t);
  }

  const OneKey: Plan := map[1 := map[7 := Put]]

  /** Transaction 1 with its key prepared, its commit decide reserved and the decide finalize on the wire. */
  lemma CommitOnTheWire(disc: Discipline) returns (run: seq<Step>, w: World)
    ensures Legal(OneKey, disc, Genesis, run) && w == Exec(OneKey, Genesis, run)
    ensures w.intents == map[7 := Intent(1, 0)] && w.deciders == map[1 := CommitDecide]
    ensures w.records == map[] && w.decided == {} && w.applied == multiset{} && w.discarded == {}
    ensures w.replies == {Prepared(1, 7), DecidePrepared(1, CommitDecide)}
    ensures w.sent == {PrepareReq(1, 7), DecidePrepareReq(1, CommitDecide), DecideFinalizeReq(1, CommitDecide)}
  {
    assert Legal(OneKey, disc, Genesis, []) && Exec(OneKey, Genesis, []) == Genesis;
    hide Exec, Legal;
    run, w := Ask(OneKey, disc, [], Genesis, PrepareReq(1, 7));
    run, w := Ask(OneKey, disc, run, w, DecidePrepareReq(1, CommitDecide));
    run, w := Extend(OneKey, disc, run, w, Send(DecideFinalizeReq(1, CommitDecide)));
  }

  /** The resolver reaps the decide reservation; the abort is decided instead and its key discarded. */
  lemma ReapedAndAborted(disc: Discipline) returns (run: seq<Step>, w: World)
    requires disc.reap
    ensures Legal(OneKey, disc, Genesis, run) && w == Exec(OneKey, Genesis, run)
    ensures w.intents == map[] && w.deciders == map[] && w.records == map[1 := AbortDecide]
    ensures w.decided == {(1, AbortDecide)}
    ensures w.applied == multiset{} && w.discarded == {(1, 7)}
    ensures PrepareReq(1, 7) in w.sent && DecideFinalizeReq(1, CommitDecide) in w.sent
  {
    hide Exec, Legal;
    run, w := CommitOnTheWire(disc);
    run, w := Extend(OneKey, disc, run, w, Reap(1));
    run, w := Ask(OneKey, disc, run, w, DecidePrepareReq(1, AbortDecide));
    run, w := Ask(OneKey, disc, run, w, DecideFinalizeReq(1, AbortDecide));
    run, w := Ask(OneKey, disc, run, w, FinalizeReq(1, 7, false));
  }

  /** The delayed decide finalize overwrites the abort with a commit. */
  lemma FlippedToCommit(disc: Discipline) returns (run: seq<Step>, more: seq<Step>, w: World)
    requires disc.reap
    ensures Legal(OneKey, disc, Genesis, run + more) && w == Exec(OneKey, Genesis, run + more)
    ensures AbortDecided(Exec(OneKey, Genesis, run), 1)
    ensures w.intents == map[] && w.records == map[1 := CommitDecide] && w.applied == multiset{}
    ensures w.decided == {(1, AbortDecide), (1, CommitDecide)} && w.discarded == {(1, 7)}
    ensures PrepareReq(1, 7) in w.sent
  {
    hide Exec, Legal;
    run, w := ReapedAndAborted(disc);
    var all, z := Extend(OneKey, disc, run, w, Deliver(DecideFinalizeReq(1, CommitDecide)));
    more, w := [Deliver(DecideFinalizeReq(1, CommitDecide))], z;
  }

  /** The overwritten transaction goes on to apply the key it discarded. */
  lemma DiscardedThenApplied(disc: Discipline) returns (run: seq<Step>, more: seq<Step>, w: World)
    requires disc.reap
    ensures Legal(OneKey, disc, Genesis, run + more) && w == Exec(OneKey, Genesis, run + more)
    ensures AbortDecided(Exec(OneKey, Genesis, run), 1)
    ensures (1, 7) in w.applied && (1, 7) in w.discarded
  {
    hide Exec, Legal;
    run, more, w := FlippedToCommit(disc);
    var all := run + more;
    all, w := Extend(OneKey, disc, all, w, ReadRecord(1));
    all, w := Extend(OneKey, disc, all, w, Deliver(PrepareReq(1, 7)));
    all, w := Ask(OneKey, disc, all, w, FinalizeReq(1, 7, true));
    assert all == run + all[|run|..];
    more := all[|run|..];
  }

  /** A commit seen for a key that is not reserved: a blind finalize meets nothing that was validated. */
  lemma UnreservedIsNotValidated(plan: Plan, disc: Discipline, run: seq<Step>, w: World, t: TxnId, k: Key)
    requires Legal(plan, disc, Genesis, run) && w == Exec(plan, Genesis, run) && disc.blind
    requires t in plan && k in plan[t] && k !in w.intents && (t, k) !in w.applied && Saw(t, CommitDecide) in w.replies
    ensures !AppliesValidated(disc)
  {
    hide Legal, Exec;
    var run', w' := Extend(plan, disc, run, w, Send(FinalizeReq(t, k, true)));
    assert FirstFinalize(plan, disc, w', t, k) && !MeetsValidated(plan, w', t, k);
  }

  /**
   With lease reaping nothing holds: the record is decided twice, a committed
   key is not held, a discarded key is applied and an abort does not last.
   */
  lemma ReapingFlipsTheRecord(disc: Discipline)
    requires disc.reap
    ensures !DecidesOnce(disc) && !Atomic(disc) && !HoldsCommits(disc) && !AbortsLast(disc)
    ensures disc.blind ==> !AppliesValidated(disc)
  {
    var run, more, w := FlippedToCommit(disc);
    assert (1, AbortDecide) in w.decided && (1, CommitDecide) in w.decided;
    assert !SingleDecision(w);
    assert w.records[1] == CommitDecide && 7 in OneKey[1];
    assert !CommitHeld(OneKey, w);
    var run', more', w' := DiscardedThenApplied(disc);
    assert !AllOrNothing(w');
    assert (1, 7) in Exec(OneKey, Genesis, run' + more').applied;
    if disc.blind {
      var seen, z := Extend(OneKey, disc, run + more, w, ReadRecord(1));
      UnreservedIsNotValidated(OneKey, disc, seen, z, 1, 7);
    }
  }

  // ----- A reservation disowned -----

  /** The resolver aborts a prepared key undecided, and its driver commits the transaction. */
  lemma DisownedAndCommitted(disc: Discipline) returns (run: seq<Step>, w: World)
    requires disc.homeless
    ensures Legal(OneKey, disc, Genesis, run) && w == Exec(OneKey, Genesis, run)
    ensures w.intents == map[] && w.records == map[1 := CommitDecide] && w.applied == multiset{}
    ensures w.discarded == {(1, 7)} && PrepareReq(1, 7) in w.sent && Saw(1, CommitDecide) in w.replies
  {
    assert Legal(OneKey, disc, Genesis, []) && Exec(OneKey, Genesis, []) == Genesis;
    hide Exec, Legal;
    run, w := Ask(OneKey, disc, [], Genesis, PrepareReq(1, 7));
    run, w := Extend(OneKey, disc, run, w, Send(FinalizeReq(1, 7, false)));
    run, w := Extend(OneKey, disc, run, w, Deliver(FinalizeReq(1, 7, false)));
    run, w := Ask(OneKey, disc, run, w, DecidePrepareReq(1, CommitDecide));
    run, w := Ask(OneKey, disc, run, w, DecideFinalizeReq(1, CommitDecide));
    run, w := Extend(OneKey, disc, run, w, ReadRecord(1));
  }

  lemma DisownedThenApplied(disc: Discipline)
    requires disc.homeless
    ensures !Atomic(disc)
  {
    hide Exec, Legal;
    var run, w := DisownedAndCommitted(disc);
    run, w := Extend(OneKey, disc, run, w, Deliver(PrepareReq(1, 7)));
    run, w := Ask(OneKey, disc, run, w, FinalizeReq(1, 7, true));
    assert (1, 7) in w.applied && (1, 7) in w.discarded;
    assert !AllOrNothing(w);
  }

  /** An undecided abort under a live driver: the commit is not held, and its discarded key is applied. */
  lemma DisownedReservationIsLost(disc: Discipline)
    requires disc.homeless
    ensures !Atomic(disc) && !HoldsCommits(disc) && (disc.blind ==> !AppliesValidated(disc))
  {
    hide Exec, Legal, Atomic, AppliesValidated;
    DisownedThenApplied(disc);
    var run, w := DisownedAndCommitted(disc);
    assert w.records[1] == CommitDecide && 7 in OneKey[1];
    assert !CommitHeld(OneKey, w);
    if disc.blind {
      UnreservedIsNotValidated(OneKey, disc, run, w, 1, 7);
    }
  }

  // ----- A reserved key that expires -----

  /** One bounded add: it needs the object it was validated against. */
  const OneAdd: Plan := map[1 := map[7 := Write(Any, true)]]

  /** The key expires between the commit and its finalize. */
  lemma CommittedThenExpired(disc: Discipline) returns (run: seq<Step>, w: World)
    requires disc.expire
    ensures Legal(OneAdd, disc, Genesis, run) && w == Exec(OneAdd, Genesis, run)
    ensures w.intents == map[7 := Intent(1, 1)] && w.versions == map[] && w.records == map[1 := CommitDecide]
    ensures w.applied == multiset{} && Saw(1, CommitDecide) in w.replies
  {
    assert Legal(OneAdd, disc, Genesis, []) && Exec(OneAdd, Genesis, []) == Genesis;
    hide Exec, Legal;
    run, w := Extend(OneAdd, disc, [], Genesis, LocalWrite(7));
    run, w := CommitOneKey(OneAdd, disc, run, w, 1, 7);
    run, w := Extend(OneAdd, disc, run, w, Vanish(7));
  }

  /**
   A reservation does not stop time: the finalize meets another version than the
   validated one, and a write that needs the object is lost after its commit.
   */
  lemma ExpiryUnpins(disc: Discipline)
    requires disc.expire
    ensures !Pins(disc) && !AppliesValidated(disc) && !HoldsCommits(disc)
  {
    var run, w := CommittedThenExpired(disc);
    assert w.intents[7].observed != VersionOf(w, 7);
    assert !PinInv(OneAdd, w);
    hide Exec, Legal;
    run, w := Extend(OneAdd, disc, run, w, Send(FinalizeReq(1, 7, true)));
    assert FirstFinalize(OneAdd, disc, w, 1, 7) && !MeetsValidated(OneAdd, w, 1, 7);
    run, w := Extend(OneAdd, disc, run, w, Deliver(FinalizeReq(1, 7, true)));
    assert w.records[1] == CommitDecide && 7 in OneAdd[1];
    assert !CommitHeld(OneAdd, w);
  }

  const TwoOnOneKey: Plan := map[1 := map[7 := Put], 2 := map[7 := Put]]

  /** Transaction 1 is aborted and its key freed; its abort finalize stays on the wire. */
  lemma AbortedOneKey(disc: Discipline) returns (run: seq<Step>, w: World)
    ensures Legal(TwoOnOneKey, disc, Genesis, run) && w == Exec(TwoOnOneKey, Genesis, run)
    ensures w.intents == map[] && w.deciders == map[] && w.records == map[1 := AbortDecide]
    ensures w.applied == multiset{} && FinalizeReq(1, 7, false) in w.sent
  {
    assert Legal(TwoOnOneKey, disc, Genesis, []) && Exec(TwoOnOneKey, Genesis, []) == Genesis;
    hide Exec, Legal;
    run, w := Ask(TwoOnOneKey, disc, [], Genesis, DecidePrepareReq(1, AbortDecide));
    run, w := Ask(TwoOnOneKey, disc, run, w, DecideFinalizeReq(1, AbortDecide));
    run, w := Ask(TwoOnOneKey, disc, run, w, FinalizeReq(1, 7, false));
  }

  /**
   With late finalizes a commit can find its reservation gone: a second finalize
   of a finished transaction removes the reservation of the next one.
   */
  lemma LateFinalizeStripsAReservation(disc: Discipline)
    requires disc.late
    ensures !HoldsCommits(disc) && (disc.blind ==> !AppliesValidated(disc))
  {
    hide Exec, Legal;
    var run, w := AbortedOneKey(disc);
    run, w := CommitOneKey(TwoOnOneKey, disc, run, w, 2, 7);
    assert ReservedByOther(w, 1, 7);
    run, w := Extend(TwoOnOneKey, disc, run, w, Deliver(FinalizeReq(1, 7, false)));
    assert w.records[2] == CommitDecide && 7 in TwoOnOneKey[2];
    assert !CommitHeld(TwoOnOneKey, w);
    if disc.blind {
      UnreservedIsNotValidated(TwoOnOneKey, disc, run, w, 2, 7);
    }
  }

  /** What each unsafe behaviour costs: which promises of the protocol survive it, exactly. */
  lemma AtomicityIff(disc: Discipline)
    ensures DecidesOnce(disc) <==> !disc.reap
    ensures AbortsLast(disc) <==> !disc.reap
    ensures Atomic(disc) <==> !disc.reap && !disc.homeless
    ensures HoldsCommits(disc) <==> !disc.reap && !disc.late && !disc.homeless && !disc.expire
  {
    if disc.reap {
      ReapingFlipsTheRecord(disc);
    } else {
      AtomicUnreaped(disc);
    }
    if disc.late {
      LateFinalizeStripsAReservation(disc);
    }
    if disc.homeless {
      DisownedReservationIsLost(disc);
    }
    if disc.expire {
      ExpiryUnpins(disc);
    }
    if !disc.reap && !disc.late && !disc.homeless && !disc.expire {
      forall plan: Plan, run | Legal(plan, disc, Genesis, run)
        ensures CommitHeld(plan, Exec(plan, Genesis, run))
      {
        TameRunsAreSafe(plan, disc, run);
      }
    }
  }

  lemma AtomicUnreaped(disc: Discipline)
    requires !disc.reap
    ensures DecidesOnce(disc) && AbortsLast(disc) && (!disc.homeless ==> Atomic(disc))
  {
    forall plan: Plan, run | Legal(plan, disc, Genesis, run)
      ensures SingleDecision(Exec(plan, Genesis, run))
      ensures !disc.homeless ==> AllOrNothing(Exec(plan, Genesis, run))
    {
      UnreapedRunsAreAtomic(plan, disc, run);
    }
    forall plan: Plan, run, more, t, k |
      Legal(plan, disc, Genesis, run + more) && AbortDecided(Exec(plan, Genesis, run), t)
      ensures (t, k) !in Exec(plan, Genesis, run + more).applied
    {
      AbortIsFinal(plan, disc, run, more, t, k);
    }
  }

  // ----- The validated version -----

  lemma RunIsPinned(plan: Plan, disc: Discipline, run: seq<Step>)
    requires Legal(plan, disc, Genesis, run) && !disc.expire
    ensures PinInv(plan, Exec(plan, Genesis, run))
  {
    assert PinInv(plan, Genesis);
    RunKeepsPin(plan, disc, Genesis, run);
  }

  /**
   The write of a committed transaction is first applied to exactly the version
   its prepare validated, and that version meets its expectation.
   */
  lemma CommitAppliesValidatedVersion(plan: Plan, disc: Discipline, run: seq<Step>, t: TxnId, k: Key)
    requires Legal(plan, disc, Genesis, run) && !disc.expire
    requires disc.blind ==> !disc.reap && !disc.late && !disc.homeless
    requires t in plan && k in plan[t] && FirstFinalize(plan, disc, Exec(plan, Genesis, run), t, k)
    ensures MeetsValidated(plan, Exec(plan, Genesis, run), t, k)
  {
    RunIsPinned(plan, disc, run);
    var w := Exec(plan, Genesis, run);
    if disc.blind {
      TameRunsAreSafe(plan, disc, run);
      assert FinalizeReq(t, k, true) in w.sent;
      assert (t, CommitDecide) in w.decided;
      assert t in w.records && w.records[t] == CommitDecide;
    }
  }

  /**
   Reservations pin their versions exactly where no key expires; and commits are then
   applied to what was validated exactly where finalizes find their reservation, be it
   that they are only delivered then, or that nothing else takes it.
   */
  lemma ValidatedIff(disc: Discipline)
    ensures Pins(disc) <==> !disc.expire
    ensures AppliesValidated(disc) <==> !disc.expire && (disc.blind ==> !disc.reap && !disc.late && !disc.homeless)
  {
    if disc.expire {
      ExpiryUnpins(disc);
    } else {
      forall plan: Plan, run | Legal(plan, disc, Genesis, run)
        ensures PinInv(plan, Exec(plan, Genesis, run))
      {
        RunIsPinned(plan, disc, run);
      }
      if disc.blind && disc.reap {
        ReapingFlipsTheRecord(disc);
      } else if disc.blind && disc.late {
        LateFinalizeStripsAReservation(disc);
      } else if disc.blind && disc.homeless {
        DisownedReservationIsLost(disc);
      } else {
        forall plan: Plan, run, t, k | t in plan && k in plan[t]
          && Legal(plan, disc, Genesis, run) && FirstFinalize(plan, disc, Exec(plan, Genesis, run), t, k)
          ensures MeetsValidated(plan, Exec(plan, Genesis, run), t, k)
        {
          CommitAppliesValidatedVersion(plan, disc, run, t, k);
        }
      }
    }
  }

  /** A driver that is told of an abort can rely on it: no key is applied, then or ever after. */
  lemma AbortIsFinal(plan: Plan, disc: Discipline, run: seq<Step>, more: seq<Step>, t: TxnId, k: Key)
    requires Legal(plan, disc, Genesis, run + more) && !disc.reap
    requires AbortDecided(Exec(plan, Genesis, run), t)
    ensures (t, k) !in Exec(plan, Genesis, run + more).applied
  {
    RunSplits(plan, disc, Genesis, run, more);
    UnreapedRunsAreAtomic(plan, disc, run + more);
    HistoryGrows(plan, Exec(plan, Genesis, run), more);
  }

  /** The histories of one world continue those of another. */
  predicate Grows(w: World, w': World) {
    w.replies <= w'.replies && w.decided <= w'.decided && w.applied <= w'.applied
  }

  lemma FinalizeGrows(plan: Plan, w: World, t: TxnId, k: Key, commit: bool)
    ensures Grows(w, DeliverFinalize(plan, w, t, k, commit))
  {
  }

  lemma DecideGrows(w: World, t: TxnId, d: Decider)
    ensures Grows(w, DeliverDecidePrepare(w, t, d)) && Grows(w, DeliverDecideFinalize(w, t, d))
  {
  }

  lemma StepGrows(plan: Plan, w: World, s: Step)
    ensures Grows(w, Next(plan, w, s))
  {
    hide DeliverFinalize, DeliverDecidePrepare, DeliverDecideFinalize;
    match s
    case Deliver(FinalizeReq(t, k, commit)) => FinalizeGrows(plan, w, t, k, commit);
    case Deliver(DecidePrepareReq(t, d)) => DecideGrows(w, t, d);
    case Deliver(DecideFinalizeReq(t, d)) => DecideGrows(w, t, d);
    case _ =>
  }

  lemma {:induction false} HistoryGrows(plan: Plan, w: World, run: seq<Step>)
    ensures w.replies <= Exec(plan, w, run).replies
    ensures w.decided <= Exec(plan, w, run).decided
    ensures w.applied <= Exec(plan, w, run).applied
    decreases |run|
  {
    hide Next;
    if run != [] {
      StepGrows(plan, w, run[0]);
      HistoryGrows(plan, Next(plan, w, run[0]), run[1..]);
    }
  }

  lemma CommitLands(run: seq<Step>, w: World) returns (all: seq<Step>, z: World)
    requires Legal(OneKey, Strict, Genesis, run) && w == Exec(OneKey, Genesis, run)
    requires w.deciders == map[1 := CommitDecide] && w.intents == map[7 := Intent(1, 0)]
    requires DecideFinalizeReq(1, CommitDecide) in w.sent
    ensures Legal(OneKey, Strict, Genesis, all) && z == Exec(OneKey, Genesis, all) && run <= all
    ensures (1, 7) in z.applied
  {
    all, z := Extend(OneKey, Strict, run, w, Deliver(DecideFinalizeReq(1, CommitDecide)));
    all, z := Extend(OneKey, Strict, all, z, ReadRecord(1));
    all, z := Extend(OneKey, Strict, all, z, Send(FinalizeReq(1, 7, true)));
    all, z := Extend(OneKey, Strict, all, z, Deliver(FinalizeReq(1, 7, true)));
  }

  /**
   A failed abort decide that finds no record does not mean the transaction is
   dead: its commit decide may still be on the way.
   */
  lemma RefusedAbortMayStillCommit()
    ensures exists plan: Plan, run, more ::
      && Legal(plan, Strict, Genesis, run + more)
      && (var w := Exec(plan, Genesis, run);
          1 !in w.records && DecidePrepareReq(1, AbortDecide) in w.sent && DecidePrepared(1, AbortDecide) !in w.replies)
      && (1, 7) in Exec(plan, Genesis, run + more).applied
  {
    var run, w := CommitOnTheWire(Strict);
    run, w := Ask(OneKey, Strict, run, w, DecidePrepareReq(1, AbortDecide));
    var all, z := CommitLands(run, w);
    var more := all[|run|..];
    assert all == run + more;
  }
}
