/**
 How often a commit applies a key.

 The server's finalize is not idempotent: it applies a commit whether or not the
 reservation is still there, and a key that was deleted or has expired starts again
 at its first version. This module finds, for every plan, exactly when a key of a
 transaction is applied at most once.
 */
module TwoPhaseOnce {
  import opened TwoPhase
  import opened TwoPhaseRuns

  /** In every run of the plan, `t` applies its write to `k` at most once. */
  ghost predicate AppliedOnce(plan: Plan, disc: Discipline, t: TxnId, k: Key) {
    forall run :: Legal(plan, disc, Genesis, run) ==> Exec(plan, Genesis, run).applied[(t, k)] <= 1
  }

  /** The write can be accepted at some version: it does not ask for a live object and for none. */
  predicate Possible(x: Write) {
    !(x.live && x.expects == Exactly(0))
  }

  predicate CanCommit(plan: Plan, t: TxnId)
    requires t in plan
  {
    forall k <- plan[t] :: Possible(plan[t][k])
  }

  /** A version at which a possible write is accepted. */
  function AcceptedAt(x: Write): (v: nat)
    ensures Possible(x) ==> Takes(x, v)
  {
    if x.expects.Exactly? then x.expects.version else if x.live then 1 else 0
  }

  // ----- A transaction that can never commit -----

  /** Nothing that leads to a commit of `t` has happened, `bad` being one of its impossible keys. */
  ghost predicate Barred(w: World, t: TxnId, bad: Key) {
    && Prepared(t, bad) !in w.replies && DecidePrepareReq(t, CommitDecide) !in w.sent
    && DecidePrepared(t, CommitDecide) !in w.replies && DecideFinalizeReq(t, CommitDecide) !in w.sent
    && (t in w.records ==> w.records[t] != CommitDecide) && Saw(t, CommitDecide) !in w.replies
    && (forall k :: FinalizeReq(t, k, true) !in w.sent && (t, k) !in w.applied)
  }

  lemma BarredFinalize(plan: Plan, w: World, t: TxnId, bad: Key, t': TxnId, k': Key, commit: bool)
    requires Barred(w, t, bad) && FinalizeReq(t', k', commit) in w.sent
    ensures Barred(DeliverFinalize(plan, w, t', k', commit), t, bad)
  {
    var w' := DeliverFinalize(plan, w, t', k', commit);
    assert w'.replies - w.replies <= {Finalized(t', k', commit)};
    assert t' == t ==> !commit;
  }

  lemma BarredStep(plan: Plan, disc: Discipline, w: World, s: Step, t: TxnId, bad: Key)
    requires t in plan && bad in plan[t] && !Possible(plan[t][bad]) && Barred(w, t, bad) && Enabled(plan, disc, w, s)
    ensures Barred(Next(plan, w, s), t, bad)
  {
    match s
    case Send(r) =>
    case Deliver(PrepareReq(t', k')) =>
    case Deliver(FinalizeReq(t', k', commit)) => BarredFinalize(plan, w, t, bad, t', k', commit);
    case Deliver(DecidePrepareReq(t', d)) =>
    case Deliver(DecideFinalizeReq(t', d)) =>
    case ReadRecord(t') =>
    case LocalWrite(k') =>
    case Vanish(k') =>
    case Reap(t') =>
  }

  lemma {:induction false} BarredRun(plan: Plan, disc: Discipline, w: World, run: seq<Step>, t: TxnId, bad: Key, k: Key)
    requires t in plan && bad in plan[t] && !Possible(plan[t][bad]) && Barred(w, t, bad) && Legal(plan, disc, w, run)
    ensures (t, k) !in Exec(plan, w, run).applied
    decreases |run|
  {
    hide Next, Enabled;
    if run != [] {
      BarredStep(plan, disc, w, run[0], t, bad);
      BarredRun(plan, disc, Next(plan, w, run[0]), run[1..], t, bad, k);
    }
  }

  // ----- A guarded commit of an exact expectation applies once while versions only grow -----

  /** Applying moves the key past the only version `t` can reserve. */
  ghost predicate Spent(plan: Plan, w: World, t: TxnId, k: Key)
    requires t in plan && k in plan[t] && plan[t][k].expects.Exactly?
  {
    && PinInv(plan, w)
    && w.applied[(t, k)] <= 1
    && (w.applied[(t, k)] == 1 ==> VersionOf(w, k) > plan[t][k].expects.version)
  }

  lemma SpentFinalize(plan: Plan, w: World, t: TxnId, k: Key, t': TxnId, k': Key, commit: bool)
    requires t in plan && k in plan[t] && plan[t][k].expects.Exactly? && Spent(plan, w, t, k)
    requires commit ==> ReservedBy(w, t', k')
    ensures Spent(plan, DeliverFinalize(plan, w, t', k', commit), t, k)
  {
    FinalizeKeepsPin(plan, w, t', k', commit);
  }

  lemma SpentStep(plan: Plan, disc: Discipline, w: World, s: Step, t: TxnId, k: Key)
    requires t in plan && k in plan[t] && plan[t][k].expects.Exactly? && Spent(plan, w, t, k)
    requires Enabled(plan, disc, w, s) && !disc.blind && !disc.delete && !disc.expire
    ensures Spent(plan, Next(plan, w, s), t, k)
  {
    hide PinInv;
    PinKeeps(plan, disc, w, s);
    match s
    case Send(r) =>
    case Deliver(PrepareReq(t', k')) =>
    case Deliver(FinalizeReq(t', k', commit)) => SpentFinalize(plan, w, t, k, t', k', commit);
    case Deliver(DecidePrepareReq(t', d)) =>
    case Deliver(DecideFinalizeReq(t', d)) =>
    case ReadRecord(t') =>
    case LocalWrite(k') =>
    case Vanish(k') =>
    case Reap(t') =>
  }

  lemma {:induction false} SpentRun(plan: Plan, disc: Discipline, w: World, run: seq<Step>, t: TxnId, k: Key)
    requires t in plan && k in plan[t] && plan[t][k].expects.Exactly? && Spent(plan, w, t, k)
    requires Legal(plan, disc, w, run) && !disc.blind && !disc.delete && !disc.expire
    ensures Exec(plan, w, run).applied[(t, k)] <= 1
    decreases |run|
  {
    if run != [] {
      SpentStep(plan, disc, w, run[0], t, k);
      SpentRun(plan, disc, Next(plan, w, run[0]), run[1..], t, k);
    }
  }

  // ----- Every transaction whose writes are possible can commit -----

  /** Local writes bring an unreserved key to any higher version, and change nothing else. */
  lemma {:induction false} Raise(plan: Plan, disc: Discipline, run: seq<Step>, w: World, k: Key, v: nat)
    returns (run': seq<Step>, w': World)
    requires Legal(plan, disc, Genesis, run) && w == Exec(plan, Genesis, run) && k !in w.intents && VersionOf(w, k) <= v
    ensures Legal(plan, disc, Genesis, run') && w' == Exec(plan, Genesis, run')
    ensures w' == w.(versions := w'.versions) && VersionOf(w', k) == v
    ensures forall k' :: k' != k ==> VersionOf(w', k') == VersionOf(w, k')
    decreases v - VersionOf(w, k)
  {
    hide Legal, Exec;
    run', w' := run, w;
    if VersionOf(w, k) < v {
      run', w' := Extend(plan, disc, run, w, LocalWrite(k));
      run', w' := Raise(plan, disc, run', w', k, v);
    }
  }

  /** A run in which only `t` holds reservations, exactly on `keys`, and nothing is decided. */
  ghost predicate Reserving(plan: Plan, disc: Discipline, run: seq<Step>, w: World, t: TxnId, keys: set<Key>) {
    && Legal(plan, disc, Genesis, run) && w == Exec(plan, Genesis, run)
    && w.intents.Keys == keys && (forall k <- keys :: ReservedBy(w, t, k))
    && (forall k <- keys :: Prepared(t, k) in w.replies && PrepareReq(t, k) in w.sent)
    && (forall k <- keys :: NeedsLive(plan, t, k) ==> VersionOf(w, k) > 0)
    && w.deciders == map[] && w.records == map[] && w.applied == multiset{}
  }

  /** Reserves one more key, whatever its expectation. */
  lemma ReserveOne(plan: Plan, disc: Discipline, run: seq<Step>, w: World, t: TxnId, keys: set<Key>, k: Key)
    returns (run': seq<Step>, w': World)
    requires Reserving(plan, disc, run, w, t, keys) && t in plan && k in plan[t] && k !in keys && VersionOf(w, k) == 0
    requires Possible(plan[t][k])
    ensures Reserving(plan, disc, run', w', t, keys + {k})
    ensures forall k' :: k' != k ==> VersionOf(w', k') == VersionOf(w, k')
  {
    hide Legal, Exec;
    run', w' := Raise(plan, disc, run, w, k, AcceptedAt(plan[t][k]));
    run', w' := Ask(plan, disc, run', w', PrepareReq(t, k));
  }

  lemma {:induction false} ReserveAll(plan: Plan, disc: Discipline, t: TxnId, keys: set<Key>)
    returns (run: seq<Step>, w: World)
    requires t in plan && CanCommit(plan, t) && keys <= plan[t].Keys
    ensures Reserving(plan, disc, run, w, t, keys)
    ensures forall k :: k !in keys ==> VersionOf(w, k) == 0
    decreases |keys|
  {
    if forall k :: k !in keys {
      assert keys == {};
      run, w := [], Genesis;
    } else {
      var k :| k in keys;
      run, w := ReserveAll(plan, disc, t, keys - {k});
      run, w := ReserveOne(plan, disc, run, w, t, keys - {k}, k);
      assert keys - {k} + {k} == keys;
    }
  }

  /** Any such transaction can be decided and its commit finalize applied to any of its keys. */
  lemma AppliedFirst(plan: Plan, disc: Discipline, t: TxnId, k: Key) returns (run: seq<Step>, w: World)
    requires t in plan && k in plan[t] && CanCommit(plan, t)
    ensures Legal(plan, disc, Genesis, run) && w == Exec(plan, Genesis, run)
    ensures k !in w.intents && w.applied == multiset{(t, k)} && VersionOf(w, k) > 0
    ensures FinalizeReq(t, k, true) in w.sent && PrepareReq(t, k) in w.sent
  {
    run, w := ReserveAll(plan, disc, t, plan[t].Keys);
    hide Legal, Exec;
    run, w := DecideCommit(plan, disc, run, w, t);
    run, w := Ask(plan, disc, run, w, FinalizeReq(t, k, true));
  }

  // ----- Three ways to apply again -----

  /** A blind finalize delivered again applies again, whatever the expectation. */
  lemma BlindAppliesTwice(plan: Plan, disc: Discipline, t: TxnId, k: Key)
    requires t in plan && k in plan[t] && CanCommit(plan, t) && disc.blind
    ensures !AppliedOnce(plan, disc, t, k)
  {
    var run, w := AppliedFirst(plan, disc, t, k);
    run, w := Extend(plan, disc, run, w, Deliver(FinalizeReq(t, k, true)));
    assert w.applied[(t, k)] == 2;
  }

  /** A delayed prepare reserves the key again at an accepted version, and even a guarded finalize applies it again. */
  lemma AppliedAgain(plan: Plan, disc: Discipline, run: seq<Step>, w: World, t: TxnId, k: Key)
    requires Legal(plan, disc, Genesis, run) && w == Exec(plan, Genesis, run) && t in plan && k in plan[t]
    requires k !in w.intents && w.applied == multiset{(t, k)} && Takes(plan[t][k], VersionOf(w, k))
    requires FinalizeReq(t, k, true) in w.sent && PrepareReq(t, k) in w.sent
    ensures !AppliedOnce(plan, disc, t, k)
  {
    var run', w' := Extend(plan, disc, run, w, Deliver(PrepareReq(t, k)));
    run', w' := Extend(plan, disc, run', w', Deliver(FinalizeReq(t, k, true)));
    assert w'.applied[(t, k)] == 2;
  }

  /** An unconditional key is accepted again at once. */
  lemma RepreparedAppliesTwice(plan: Plan, disc: Discipline, t: TxnId, k: Key)
    requires t in plan && k in plan[t] && CanCommit(plan, t) && plan[t][k].expects.Any?
    ensures !AppliedOnce(plan, disc, t, k)
  {
    var run, w := AppliedFirst(plan, disc, t, k);
    AppliedAgain(plan, disc, run, w, t, k);
  }

  /** A deleted or expired key starts again, and reaches the one version the write expects once more. */
  lemma RestartedAppliesTwice(plan: Plan, disc: Discipline, t: TxnId, k: Key)
    requires t in plan && k in plan[t] && CanCommit(plan, t) && (disc.delete || disc.expire)
    ensures !AppliedOnce(plan, disc, t, k)
  {
    var run, w := AppliedFirst(plan, disc, t, k);
    run, w := Extend(plan, disc, run, w, Vanish(k));
    run, w := Raise(plan, disc, run, w, k, AcceptedAt(plan[t][k]));
    AppliedAgain(plan, disc, run, w, t, k);
  }

  /**
   For every plan and every key of a transaction that can commit: the key is applied at most
   once in every run exactly when commits are only finalized under their own reservation, no
   key is deleted or expires, and the write expects one exact version.
   */
  lemma AppliedOnceIff(plan: Plan, disc: Discipline, t: TxnId, k: Key)
    requires t in plan && k in plan[t]
    ensures AppliedOnce(plan, disc, t, k) <==>
      !CanCommit(plan, t) || (!disc.blind && !disc.delete && !disc.expire && plan[t][k].expects.Exactly?)
  {
    if !CanCommit(plan, t) {
      NeverApplied(plan, disc, t, k);
    } else if disc.blind {
      BlindAppliesTwice(plan, disc, t, k);
    } else if disc.delete || disc.expire {
      RestartedAppliesTwice(plan, disc, t, k);
    } else if plan[t][k].expects.Any? {
      RepreparedAppliesTwice(plan, disc, t, k);
    } else {
      forall run | Legal(plan, disc, Genesis, run)
        ensures Exec(plan, Genesis, run).applied[(t, k)] <= 1
      {
        SpentRun(plan, disc, Genesis, run, t, k);
      }
    }
  }

  lemma NeverApplied(plan: Plan, disc: Discipline, t: TxnId, k: Key)
    requires t in plan && k in plan[t] && !CanCommit(plan, t)
    ensures AppliedOnce(plan, disc, t, k)
  {
    var bad :| bad in plan[t] && !Possible(plan[t][bad]);
    forall run | Legal(plan, disc, Genesis, run)
      ensures Exec(plan, Genesis, run).applied[(t, k)] <= 1
    {
      BarredRun(plan, disc, Genesis, run, t, bad, k);
    }
  }
}
