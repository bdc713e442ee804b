/**
 Client-driven OCC + 2PC as a state machine over the participants' reservation
 tables, the coordinator records and a soup of requests.

 A request that was sent may be delivered any number of times, at any later
 moment, or never: this covers lost replies, driver crashes, re-drives, several
 drivers of one transaction and the resolver. Drivers keep no state of their
 own here: what a driver may send is decided by the replies it has seen.
 The server steps follow `apply_txn_prepare` and `apply_txn_finalize`; in
 particular a commit finalize applies its write whether or not the reservation
 is still there.
 */
module TwoPhase {
  type TxnId = int
  type Key = int

  /** The OCC expectation of one write; version 0 stands for an absent key. */
  datatype Expect = Any | Exactly(version: nat)

  /** One write of a transaction; bounded adds and escrow shares only apply to a live object. */
  datatype Write = Write(expects: Expect, live: bool)

  const Put := Write(Any, false)

  /** The transactions of a run: each one's write set. */
  type Plan = map<TxnId, map<Key, Write>>

  /**
   What the deployment lets happen.
   `reap`: the resolver may discard a decide reservation whose own driver can
   still send the decide finalize (its lease ran out).
   `late`: a finalize may reach a key that another transaction has reserved.
   `blind`: a commit finalize may reach a key its own reservation has left.
   `homeless`: the resolver may abort a reservation undecided, finding no tablet
   for a record that its driver still decides.
   `delete`: an unreserved key may be deleted. A transactional delete is an
   applied write whose key is deleted at once.
   `expire`: a key may expire at any moment; a reservation does not stop time.
   The server accepts all of them; a discipline without one of them describes a
   deployment where that never happens.
   */
  datatype Discipline = Discipline(reap: bool, late: bool, blind: bool, homeless: bool, delete: bool, expire: bool)

  /**
   The three single-key transactions that write a coordinator record: a driver's
   commit (salt 0), a driver's abort (salt 1) and the resolver's abort (salt 2).
   The record is identified by its writer: the resolver's carries no digest.
   */
  datatype Decider = CommitDecide | AbortDecide | ResolverAbort

  datatype Intent = Intent(txn: TxnId, observed: nat)

  datatype Request =
    | PrepareReq(t: TxnId, k: Key)
    | DecidePrepareReq(t: TxnId, d: Decider)
    | DecideFinalizeReq(t: TxnId, d: Decider)
    | FinalizeReq(t: TxnId, k: Key, commit: bool)

  datatype Reply =
    | Prepared(t: TxnId, k: Key)
    | DecidePrepared(t: TxnId, d: Decider)
    | DecideApplied(t: TxnId, d: Decider)
    | Saw(t: TxnId, d: Decider)
    | Finalized(t: TxnId, k: Key, commit: bool)

  /**
   `decided`, `applied` and `discarded` are histories: every value a record ever
   took, every time a write was applied, every abort finalize carried out.
   */
  datatype World = World(
    intents: map<Key, Intent>,
    versions: map<Key, nat>,
    deciders: map<TxnId, Decider>,
    records: map<TxnId, Decider>,
    sent: set<Request>,
    replies: set<Reply>,
    decided: set<(TxnId, Decider)>,
    applied: multiset<(TxnId, Key)>,
    discarded: set<(TxnId, Key)>)

  const Genesis := World(map[], map[], map[], map[], {}, {}, {}, multiset{}, {})

  function VersionOf(w: World, k: Key): nat {
    if k in w.versions then w.versions[k] else 0
  }

  predicate Holds(e: Expect, version: nat) {
    e.Any? || e.version == version
  }

  /** Whether a write is accepted on a key at this version. */
  predicate Takes(x: Write, version: nat) {
    Holds(x.expects, version) && (x.live ==> version > 0)
  }

  /** The write is one that needs a live object. */
  predicate NeedsLive(plan: Plan, t: TxnId, k: Key) {
    t in plan && k in plan[t] && plan[t][k].live
  }

  predicate ReservedBy(w: World, t: TxnId, k: Key) {
    k in w.intents && w.intents[k].txn == t
  }

  predicate ReservedByOther(w: World, t: TxnId, k: Key) {
    k in w.intents && w.intents[k].txn != t
  }

  datatype Step =
    | Send(r: Request)
    | Deliver(r: Request)
    | ReadRecord(t: TxnId)
    | LocalWrite(k: Key)
    | Vanish(k: Key)
    | Reap(t: TxnId)

  predicate ToldOf(w: World, t: TxnId, d: Decider) {
    Saw(t, d) in w.replies || DecideApplied(t, d) in w.replies
  }

  /** What a driver or the resolver may put on the wire, given what it was told. */
  predicate MaySend(plan: Plan, w: World, r: Request) {
    r.t in plan &&
    match r
    case PrepareReq(t, k) => k in plan[t]
    case DecidePrepareReq(t, d) =>
      d.CommitDecide? ==> forall k <- plan[t] :: Prepared(t, k) in w.replies
    case DecideFinalizeReq(t, d) => DecidePrepared(t, d) in w.replies
    case FinalizeReq(t, k, commit) =>
      k in plan[t] &&
      if commit then Saw(t, CommitDecide) in w.replies
      else ToldOf(w, t, AbortDecide) || ToldOf(w, t, ResolverAbort)
  }

  /** The resolver's abort of a reservation whose record it finds no tablet for. */
  predicate MayDisown(w: World, r: Request) {
    r.FinalizeReq? && !r.commit && ReservedBy(w, r.t, r.k)
  }

  predicate Enabled(plan: Plan, disc: Discipline, w: World, s: Step) {
    match s
    case Send(r) => MaySend(plan, w, r) || (disc.homeless && MayDisown(w, r))
    case Deliver(r) =>
      && r in w.sent
      && (r.FinalizeReq? && !disc.late ==> !ReservedByOther(w, r.t, r.k))
      && (r.FinalizeReq? && r.commit && !disc.blind ==> ReservedBy(w, r.t, r.k))
    case ReadRecord(t) => t in w.records
    case LocalWrite(k) => k !in w.intents
    case Vanish(k) => disc.expire || (disc.delete && k !in w.intents)
    case Reap(t) => disc.reap && t in w.deciders
  }

  /** `apply_txn_prepare` on a user key. */
  function DeliverPrepare(plan: Plan, w: World, t: TxnId, k: Key): World {
    if ReservedByOther(w, t, k) || t !in plan || k !in plan[t] || !Takes(plan[t][k], VersionOf(w, k)) then w
    else w.(intents := w.intents[k := Intent(t, VersionOf(w, k))], replies := w.replies + {Prepared(t, k)})
  }

  /**
   `apply_txn_finalize` on a user key. The reservation goes first; a foreign one, or an
   object that is no longer there for a write that needs it, is an error after that.
   */
  function DeliverFinalize(plan: Plan, w: World, t: TxnId, k: Key, commit: bool): World {
    var freed := w.(intents := w.intents - {k});
    if ReservedByOther(w, t, k) then freed
    else if !commit then
      freed.(discarded := w.discarded + {(t, k)}, replies := w.replies + {Finalized(t, k, false)})
    else if NeedsLive(plan, t, k) && VersionOf(w, k) == 0 then freed
    else
      freed.(versions := w.versions[k := VersionOf(w, k) + 1],
             applied := w.applied + multiset{(t, k)},
             replies := w.replies + {Finalized(t, k, true)})
  }

  /** `apply_txn_prepare` on the record key, under the Absent expectation. */
  function DeliverDecidePrepare(w: World, t: TxnId, d: Decider): World {
    if (t in w.deciders && w.deciders[t] != d) || t in w.records then w
    else w.(deciders := w.deciders[t := d], replies := w.replies + {DecidePrepared(t, d)})
  }

  /** `apply_txn_finalize` on the record key: it writes without reading the record. */
  function DeliverDecideFinalize(w: World, t: TxnId, d: Decider): World {
    var freed := w.(deciders := w.deciders - {t});
    if t in w.deciders && w.deciders[t] != d then freed
    else freed.(records := w.records[t := d],
                decided := w.decided + {(t, d)},
                replies := w.replies + {DecideApplied(t, d)})
  }

  function Next(plan: Plan, w: World, s: Step): World {
    match s
    case Send(r) => w.(sent := w.sent + {r})
    case Deliver(PrepareReq(t, k)) => DeliverPrepare(plan, w, t, k)
    case Deliver(FinalizeReq(t, k, commit)) => DeliverFinalize(plan, w, t, k, commit)
    case Deliver(DecidePrepareReq(t, d)) => DeliverDecidePrepare(w, t, d)
    case Deliver(DecideFinalizeReq(t, d)) => DeliverDecideFinalize(w, t, d)
    case ReadRecord(t) =>
      if t in w.records then w.(replies := w.replies + {Saw(t, w.records[t])}) else w
    case LocalWrite(k) => w.(versions := w.versions[k := VersionOf(w, k) + 1])
    case Vanish(k) => w.(versions := w.versions - {k})
    case Reap(t) => w.(deciders := w.deciders - {t})
  }

  function Exec(plan: Plan, w: World, run: seq<Step>): World
    decreases |run|
  {
    if run == [] then w else Exec(plan, Next(plan, w, run[0]), run[1..])
  }

  predicate Legal(plan: Plan, disc: Discipline, w: World, run: seq<Step>)
    decreases |run|
  {
    run == [] || (Enabled(plan, disc, w, run[0]) && Legal(plan, disc, Next(plan, w, run[0]), run[1..]))
  }

  // ----- What is promised -----

  /** A record never takes two different terminal values. */
  ghost predicate SingleDecision(w: World) {
    forall t, d, d' :: (t, d) in w.decided && (t, d') in w.decided ==> d == d'
  }

  /** No transaction has one key applied and another (or the same) discarded. */
  ghost predicate AllOrNothing(w: World) {
    forall t, k, k' :: !((t, k) in w.applied && (t, k') in w.discarded)
  }

  /** Every key of a committed transaction is still reserved for it or already applied. */
  ghost predicate CommitHeld(plan: Plan, w: World) {
    forall t, k :: t in w.records && w.records[t].CommitDecide? && t in plan && k in plan[t] ==>
      ReservedBy(w, t, k) || (t, k) in w.applied
  }

  ghost predicate Safe(plan: Plan, w: World) {
    SingleDecision(w) && AllOrNothing(w) && CommitHeld(plan, w)
  }

  // ----- The inductive invariant -----

  ghost predicate RecordInv(w: World) {
    && (forall t :: t in w.deciders ==> t !in w.records && DecidePrepareReq(t, w.deciders[t]) in w.sent)
    && (forall t :: t in w.records ==> (t, w.records[t]) in w.decided)
    && (forall t, d :: (t, d) in w.decided ==> t in w.records && w.records[t] == d)
  }

  ghost predicate DecideInv(w: World) {
    && (forall t, d :: DecidePrepared(t, d) in w.replies ==>
          || (t in w.deciders && w.deciders[t] == d)
          || (t in w.records && w.records[t] == d))
    && (forall t, d :: DecideFinalizeReq(t, d) in w.sent ==> DecidePrepared(t, d) in w.replies)
    && (forall t, d :: DecideApplied(t, d) in w.replies ==> (t, d) in w.decided)
    && (forall t, d :: Saw(t, d) in w.replies ==> (t, d) in w.decided)
  }

  ghost predicate CommitInv(plan: Plan, w: World) {
    && (forall t, k :: DecidePrepareReq(t, CommitDecide) in w.sent && t in plan && k in plan[t] ==>
          Prepared(t, k) in w.replies)
    && (forall t :: (t, CommitDecide) in w.decided ==> DecidePrepareReq(t, CommitDecide) in w.sent)
  }

  predicate AbortDecided(w: World, t: TxnId) {
    (t, AbortDecide) in w.decided || (t, ResolverAbort) in w.decided
  }

  /** Commit finalizes and applied writes follow the decision. */
  ghost predicate OutcomeInv(w: World) {
    && (forall t, k :: FinalizeReq(t, k, true) in w.sent ==> (t, CommitDecide) in w.decided)
    && (forall t, k :: (t, k) in w.applied ==> (t, CommitDecide) in w.decided)
    && (forall t, k :: Finalized(t, k, true) in w.replies ==> (t, k) in w.applied)
  }

  /** Abort finalizes and discarded writes follow the decision. */
  ghost predicate DiscardInv(w: World) {
    && (forall t, k :: FinalizeReq(t, k, false) in w.sent ==> AbortDecided(w, t))
    && (forall t, k :: (t, k) in w.discarded ==> AbortDecided(w, t))
  }

  /** A prepared key stays reserved until it is applied or its transaction is aborted. */
  ghost predicate HoldInv(w: World) {
    forall t, k :: Prepared(t, k) in w.replies ==>
      ReservedBy(w, t, k) || (t, k) in w.applied || AbortDecided(w, t)
  }

  /** A reservation pins the version it validated. */
  ghost predicate PinInv(plan: Plan, w: World) {
    forall k :: k in w.intents ==>
      var i := w.intents[k];
      i.observed == VersionOf(w, k) && i.txn in plan && k in plan[i.txn] && Takes(plan[i.txn][k], i.observed)
  }

  /** A key reserved for a write that needs a live object still has one. */
  ghost predicate LiveInv(plan: Plan, w: World) {
    forall k :: k in w.intents && NeedsLive(plan, w.intents[k].txn, k) ==> VersionOf(w, k) > 0
  }

  /** The part that needs nothing but that no decide reservation is reaped. */
  ghost predicate Core(w: World) {
    RecordInv(w) && DecideInv(w) && OutcomeInv(w)
  }

  ghost predicate Inv(plan: Plan, w: World) {
    Core(w) && DiscardInv(w) && CommitInv(plan, w) && HoldInv(w) && LiveInv(plan, w)
  }

  /** No key expires, or no write would notice. */
  ghost predicate Lasting(plan: Plan, disc: Discipline) {
    disc.expire ==> forall t, k :: !NeedsLive(plan, t, k)
  }

  /** Deployments in which a committed key stays held. */
  ghost predicate Tame(plan: Plan, disc: Discipline) {
    !disc.reap && !disc.late && !disc.homeless && Lasting(plan, disc)
  }

  // ----- What each part of the invariant needs of a step -----

  lemma SendKeeps(plan: Plan, w: World, r: Request)
    requires Core(w) && (MaySend(plan, w, r) || MayDisown(w, r))
    ensures Core(w.(sent := w.sent + {r}))
  {
    var w' := w.(sent := w.sent + {r});
    assert RecordInv(w') by { hide DecideInv, OutcomeInv; }
    assert DecideInv(w') by { hide RecordInv, OutcomeInv; }
    assert OutcomeInv(w') by { hide RecordInv; }
  }

  lemma PrepareKeeps(plan: Plan, w: World, t: TxnId, k: Key)
    requires Core(w)
    ensures Core(DeliverPrepare(plan, w, t, k))
  {
  }

  lemma FinalizeKeepsDecide(plan: Plan, w: World, t: TxnId, k: Key, commit: bool)
    requires RecordInv(w) && DecideInv(w)
    ensures RecordInv(DeliverFinalize(plan, w, t, k, commit)) && DecideInv(DeliverFinalize(plan, w, t, k, commit))
  {
    var w' := DeliverFinalize(plan, w, t, k, commit);
    assert w'.replies - w.replies <= {Finalized(t, k, commit)};
  }

  lemma FinalizeKeepsOutcome(plan: Plan, w: World, t: TxnId, k: Key, commit: bool)
    requires OutcomeInv(w) && FinalizeReq(t, k, commit) in w.sent
    ensures OutcomeInv(DeliverFinalize(plan, w, t, k, commit))
  {
  }

  /** A finalize keeps the core whoever holds the key's reservation. */
  lemma FinalizeKeeps(plan: Plan, w: World, t: TxnId, k: Key, commit: bool)
    requires Core(w) && FinalizeReq(t, k, commit) in w.sent
    ensures Core(DeliverFinalize(plan, w, t, k, commit))
  {
    hide RecordInv, DecideInv, OutcomeInv, DeliverFinalize;
    FinalizeKeepsDecide(plan, w, t, k, commit);
    FinalizeKeepsOutcome(plan, w, t, k, commit);
  }

  lemma DecidePrepareKeeps(w: World, t: TxnId, d: Decider)
    requires Core(w) && DecidePrepareReq(t, d) in w.sent
    ensures Core(DeliverDecidePrepare(w, t, d))
  {
    var w' := DeliverDecidePrepare(w, t, d);
    assert RecordInv(w') by { hide DecideInv, OutcomeInv; }
    assert DecideInv(w') by { hide OutcomeInv; }
    assert OutcomeInv(w') by { hide RecordInv, DecideInv; }
  }

  /** The record is written without being read; no reaping means it cannot hold another decision. */
  lemma DecideFinalizeKeeps(w: World, t: TxnId, d: Decider)
    requires Core(w) && DecideFinalizeReq(t, d) in w.sent
    ensures Core(DeliverDecideFinalize(w, t, d))
  {
    assert DecidePrepared(t, d) in w.replies;
    var w' := DeliverDecideFinalize(w, t, d);
    assert RecordInv(w') by { hide OutcomeInv; }
    assert DecideInv(w') by { hide OutcomeInv; }
    assert OutcomeInv(w') by { hide RecordInv, DecideInv; }
  }

  lemma ReadKeeps(plan: Plan, w: World, t: TxnId)
    requires Core(w) && t in w.records
    ensures Core(Next(plan, w, ReadRecord(t)))
  {
    var w' := Next(plan, w, ReadRecord(t));
    assert w'.replies == w.replies + {Saw(t, w.records[t])};
    assert RecordInv(w') by { hide DecideInv, OutcomeInv; }
    assert DecideInv(w') by { hide OutcomeInv; }
    assert OutcomeInv(w') by { hide RecordInv, DecideInv; }
  }

  lemma LocalKeeps(plan: Plan, w: World, k: Key)
    requires Core(w)
    ensures Core(Next(plan, w, LocalWrite(k))) && Core(Next(plan, w, Vanish(k)))
  {
  }

  /** Without reaping every step keeps the core, whatever finalizes, deletes and expiries do. */
  lemma CoreKeeps(plan: Plan, disc: Discipline, w: World, s: Step)
    requires Core(w) && Enabled(plan, disc, w, s) && !disc.reap
    ensures Core(Next(plan, w, s))
  {
    hide Core;
    match s
    case Send(r) => SendKeeps(plan, w, r);
    case Deliver(PrepareReq(t, k)) => PrepareKeeps(plan, w, t, k);
    case Deliver(FinalizeReq(t, k, commit)) => FinalizeKeeps(plan, w, t, k, commit);
    case Deliver(DecidePrepareReq(t, d)) => DecidePrepareKeeps(w, t, d);
    case Deliver(DecideFinalizeReq(t, d)) => DecideFinalizeKeeps(w, t, d);
    case ReadRecord(t) => ReadKeeps(plan, w, t);
    case LocalWrite(k) => LocalKeeps(plan, w, k);
    case Vanish(k) => LocalKeeps(plan, w, k);
    case Reap(t) =>
  }

  lemma DecideFinalizeKeepsCommit(plan: Plan, w: World, t: TxnId, d: Decider)
    requires Core(w) && CommitInv(plan, w) && DecideFinalizeReq(t, d) in w.sent
    ensures CommitInv(plan, DeliverDecideFinalize(w, t, d))
  {
    hide OutcomeInv;
  }

  /** A commit is only ever decided with every key prepared. */
  lemma CommitKeeps(plan: Plan, disc: Discipline, w: World, s: Step)
    requires Core(w) && CommitInv(plan, w) && Enabled(plan, disc, w, s)
    ensures CommitInv(plan, Next(plan, w, s))
  {
    hide Core;
    match s
    case Send(r) =>
    case Deliver(PrepareReq(t, k)) =>
    case Deliver(FinalizeReq(t, k, commit)) =>
    case Deliver(DecidePrepareReq(t, d)) =>
    case Deliver(DecideFinalizeReq(t, d)) => DecideFinalizeKeepsCommit(plan, w, t, d);
    case ReadRecord(t) =>
    case LocalWrite(k) =>
    case Vanish(k) =>
    case Reap(t) =>
  }

  /** Without disowned reservations nothing is discarded but under a decided abort. */
  lemma DiscardKeeps(plan: Plan, disc: Discipline, w: World, s: Step)
    requires DecideInv(w) && DiscardInv(w) && Enabled(plan, disc, w, s) && !disc.homeless
    ensures DiscardInv(Next(plan, w, s))
  {
    match s
    case Send(r) =>
    case Deliver(PrepareReq(t, k)) =>
    case Deliver(FinalizeReq(t, k, commit)) =>
    case Deliver(DecidePrepareReq(t, d)) =>
    case Deliver(DecideFinalizeReq(t, d)) =>
    case ReadRecord(t) =>
    case LocalWrite(k) =>
    case Vanish(k) =>
    case Reap(t) =>
  }

  lemma FinalizeKeepsPin(plan: Plan, w: World, t: TxnId, k: Key, commit: bool)
    requires PinInv(plan, w)
    ensures PinInv(plan, DeliverFinalize(plan, w, t, k, commit))
  {
  }

  lemma PrepareKeepsPin(plan: Plan, w: World, t: TxnId, k: Key)
    requires PinInv(plan, w)
    ensures PinInv(plan, DeliverPrepare(plan, w, t, k))
  {
  }

  /** The pinned version needs nothing but that reserved keys do not expire. */
  lemma PinKeeps(plan: Plan, disc: Discipline, w: World, s: Step)
    requires PinInv(plan, w) && Enabled(plan, disc, w, s) && !disc.expire
    ensures PinInv(plan, Next(plan, w, s))
  {
    match s
    case Send(r) =>
    case Deliver(PrepareReq(t, k)) => PrepareKeepsPin(plan, w, t, k);
    case Deliver(FinalizeReq(t, k, commit)) => FinalizeKeepsPin(plan, w, t, k, commit);
    case Deliver(DecidePrepareReq(t, d)) =>
    case Deliver(DecideFinalizeReq(t, d)) =>
    case ReadRecord(t) =>
    case LocalWrite(k) =>
    case Vanish(k) =>
    case Reap(t) =>
  }

  lemma LiveKeeps(plan: Plan, disc: Discipline, w: World, s: Step)
    requires LiveInv(plan, w) && Enabled(plan, disc, w, s) && Lasting(plan, disc)
    ensures LiveInv(plan, Next(plan, w, s))
  {
    match s
    case Send(r) =>
    case Deliver(PrepareReq(t, k)) =>
    case Deliver(FinalizeReq(t, k, commit)) =>
    case Deliver(DecidePrepareReq(t, d)) =>
    case Deliver(DecideFinalizeReq(t, d)) =>
    case ReadRecord(t) =>
    case LocalWrite(k) =>
    case Vanish(k) =>
    case Reap(t) =>
  }

  lemma FinalizeHolds(plan: Plan, w: World, t: TxnId, k: Key, commit: bool)
    requires DiscardInv(w) && HoldInv(w) && LiveInv(plan, w)
    requires FinalizeReq(t, k, commit) in w.sent && !ReservedByOther(w, t, k)
    ensures HoldInv(DeliverFinalize(plan, w, t, k, commit))
  {
    var w' := DeliverFinalize(plan, w, t, k, commit);
    assert AbortDecided(w, t) || commit;
    forall t', k' | Prepared(t', k') in w'.replies
      ensures ReservedBy(w', t', k') || (t', k') in w'.applied || AbortDecided(w', t')
    {
      assert Prepared(t', k') in w.replies;
    }
  }

  /** Only an applied write or an aborting finalize takes a prepared key's reservation. */
  lemma HoldKeeps(plan: Plan, disc: Discipline, w: World, s: Step)
    requires DiscardInv(w) && HoldInv(w) && LiveInv(plan, w) && Enabled(plan, disc, w, s) && !disc.late
    ensures HoldInv(Next(plan, w, s))
  {
    hide DiscardInv, LiveInv;
    match s
    case Send(r) =>
    case Deliver(PrepareReq(t, k)) =>
    case Deliver(FinalizeReq(t, k, commit)) => FinalizeHolds(plan, w, t, k, commit);
    case Deliver(DecidePrepareReq(t, d)) =>
    case Deliver(DecideFinalizeReq(t, d)) =>
    case ReadRecord(t) =>
    case LocalWrite(k) =>
    case Vanish(k) =>
    case Reap(t) =>
  }

  // ----- Every step, every run -----

  /** Every step of a tame deployment keeps the invariant. */
  lemma StepKeeps(plan: Plan, disc: Discipline, w: World, s: Step)
    requires Inv(plan, w) && Enabled(plan, disc, w, s) && Tame(plan, disc)
    ensures Inv(plan, Next(plan, w, s))
  {
    hide RecordInv, DecideInv, OutcomeInv, DiscardInv, CommitInv, HoldInv, LiveInv, Lasting, Next, Enabled;
    CoreKeeps(plan, disc, w, s);
    DiscardKeeps(plan, disc, w, s);
    CommitKeeps(plan, disc, w, s);
    LiveKeeps(plan, disc, w, s);
    HoldKeeps(plan, disc, w, s);
  }

  lemma {:induction false} RunKeeps(plan: Plan, disc: Discipline, w: World, run: seq<Step>)
    requires Inv(plan, w) && Legal(plan, disc, w, run) && Tame(plan, disc)
    ensures Inv(plan, Exec(plan, w, run))
    decreases |run|
  {
    hide Inv, Next, Enabled, Tame;
    if run != [] {
      StepKeeps(plan, disc, w, run[0]);
      RunKeeps(plan, disc, Next(plan, w, run[0]), run[1..]);
    }
  }

  /** Without disowned reservations, discards follow decisions through every such run. */
  lemma {:induction false} RunKeepsDiscards(plan: Plan, disc: Discipline, w: World, run: seq<Step>)
    requires Core(w) && DiscardInv(w) && Legal(plan, disc, w, run) && !disc.reap && !disc.homeless
    ensures DiscardInv(Exec(plan, w, run))
    decreases |run|
  {
    hide RecordInv, DecideInv, OutcomeInv, DiscardInv, Next, Enabled;
    if run != [] {
      CoreKeeps(plan, disc, w, run[0]);
      DiscardKeeps(plan, disc, w, run[0]);
      RunKeepsDiscards(plan, disc, Next(plan, w, run[0]), run[1..]);
    }
  }

  /** Without reaping, the core survives any late or blind finalize. */
  lemma {:induction false} RunKeepsCore(plan: Plan, disc: Discipline, w: World, run: seq<Step>)
    requires Core(w) && Legal(plan, disc, w, run) && !disc.reap
    ensures Core(Exec(plan, w, run))
    decreases |run|
  {
    hide Core, Next, Enabled;
    if run != [] {
      CoreKeeps(plan, disc, w, run[0]);
      RunKeepsCore(plan, disc, Next(plan, w, run[0]), run[1..]);
    }
  }

  /** Where no reserved key expires, the reservation pins its version through every run. */
  lemma {:induction false} RunKeepsPin(plan: Plan, disc: Discipline, w: World, run: seq<Step>)
    requires PinInv(plan, w) && Legal(plan, disc, w, run) && !disc.expire
    ensures PinInv(plan, Exec(plan, w, run))
    decreases |run|
  {
    hide PinInv, Next, Enabled;
    if run != [] {
      PinKeeps(plan, disc, w, run[0]);
      RunKeepsPin(plan, disc, Next(plan, w, run[0]), run[1..]);
    }
  }

  lemma CoreDecidesOnce(w: World)
    requires Core(w)
    ensures SingleDecision(w)
  {
  }

  lemma CoreIsAtomic(w: World)
    requires Core(w) && DiscardInv(w)
    ensures AllOrNothing(w)
  {
  }

  lemma InvIsSafe(plan: Plan, w: World)
    requires Inv(plan, w)
    ensures Safe(plan, w)
  {
  }
}
