/**
 One lane of the chunk store, record by record: packs with the part of each that is known
 to be on disk, the derived index, and the generations that decide which addresses the
 store calls durable. Every run of staging, sealing, syncing, deleting, crashing and
 restarting is covered, and the runs that keep the durability promise are characterised
 exactly.
 */
module Lane {
  import opened Pack

  datatype RecordId = RecordId(kind: Kind, id: Bytes)

  function IdOf(r: Record): RecordId {
    RecordId(r.kind, r.id)
  }

  /** A pack's records and how many leading ones a sync has put on disk. */
  datatype Held = Held(records: seq<Record>, synced: nat)

  datatype Entry = Entry(pack: nat, at: nat, generation: nat)

  datatype Lane = Lane(
    packs: map<nat, Held>,
    active: nat,
    index: map<RecordId, Entry>,
    currentGen: nat,
    durableGen: nat,
    dirty: bool)

  const Fresh := Lane(map[1 := Held([], 0)], 1, map[], 1, 0, false)

  // ----- Operations -----

  function Length(records: seq<Record>): nat {
    PACK_HEADER_LEN + Total(records)
  }

  /** `rotate`: the next pack becomes the active one; nothing is synced. */
  function Rotated(l: Lane): Lane {
    l.(packs := l.packs[l.active + 1 := Held([], 0)], active := l.active + 1)
  }

  /** `append_record` rotates first when the record would overflow a pack that holds one. */
  predicate Overflows(target: nat, l: Lane, r: Record)
    requires l.active in l.packs
  {
    var held := l.packs[l.active];
    held.records != [] && Length(held.records) + Size(r) > target
  }

  function Appended(l: Lane, r: Record): Lane
    requires l.active in l.packs
  {
    var held := l.packs[l.active];
    l.(packs := l.packs[l.active := held.(records := held.records + [r])],
       index := l.index[IdOf(r) := Entry(l.active, |held.records|, l.currentGen)],
       dirty := true)
  }

  /** `stage_chunk` and `stage_manifest`: refused, a dedup hit, or an append. */
  function Staged(g: Integrity, target: nat, l: Lane, r: Record): Lane
    requires l.active in l.packs
  {
    if !Inserts(g, l, r) then l
    else if Overflows(target, l, r) then Appended(Rotated(l), r)
    else Appended(l, r)
  }

  predicate Inserts(g: Integrity, l: Lane, r: Record) {
    Identified(g, r) && IdOf(r) !in l.index
  }

  /** `seal_active` */
  function Sealed(l: Lane): Lane
    requires l.active in l.packs
  {
    if l.packs[l.active].records == [] then l else Rotated(l)
  }

  /** `sync`: only the active pack's file is synced, yet every generation so far becomes durable. */
  function SyncedLane(l: Lane): Lane
    requires l.active in l.packs
  {
    if !l.dirty then l
    else
      var held := l.packs[l.active];
      l.(packs := l.packs[l.active := held.(synced := |held.records|)],
         durableGen := l.currentGen, currentGen := l.currentGen + 1, dirty := false)
  }

  /** `delete_packs` */
  function Deleted(l: Lane, gone: set<nat>): Lane {
    l.(packs := l.packs - gone, index := map id | id in l.index && l.index[id].pack !in gone :: l.index[id])
  }

  /** Reopening after power loss: each pack keeps some records, at least the synced ones. */
  function Crashed(l: Lane, survived: map<nat, nat>): Lane
    requires Survival(l, survived)
  {
    Lane(map p | p in l.packs :: Held(l.packs[p].records[..survived[p]], survived[p]), l.active,
         map id | id in l.index && Survives(l, survived, l.index[id]) :: l.index[id].(generation := 0), 1, 0, false)
  }

  predicate Survival(l: Lane, survived: map<nat, nat>) {
    forall p | p in l.packs :: p in survived && l.packs[p].synced <= survived[p] <= |l.packs[p].records|
  }

  predicate Survives(l: Lane, survived: map<nat, nat>, e: Entry) {
    e.pack in survived && e.at < survived[e.pack]
  }

  /** Reopening after the process stopped but the machine did not: unsynced bytes are still there. */
  function Restarted(l: Lane): Lane {
    l.(index := map id | id in l.index :: l.index[id].(generation := 0), currentGen := 1, durableGen := 0, dirty := false)
  }

  // ----- Runs -----

  datatype Step =
    | Stage(r: Record)
    | Seal
    | Sync
    | Delete(gone: set<nat>)
    | Crash(survived: map<nat, nat>)
    | Restart

  /** What a caller can do: memory holds fewer than 2^64 bytes, and the active pack is never deleted. */
  predicate Legal(l: Lane, step: Step) {
    match step
    case Stage(r) => |r.body| < 0x1_0000_0000_0000_0000
    case Delete(gone) => l.active !in gone
    case Crash(survived) => Survival(l, survived)
    case _ => true
  }

  function Next(g: Integrity, target: nat, l: Lane, step: Step): Lane
    requires l.active in l.packs && Legal(l, step)
  {
    match step
    case Stage(r) => Staged(g, target, l, r)
    case Seal => Sealed(l)
    case Sync => SyncedLane(l)
    case Delete(gone) => Deleted(l, gone)
    case Crash(survived) => Crashed(l, survived)
    case Restart => Restarted(l)
  }

  predicate LegalRun(g: Integrity, target: nat, l: Lane, run: seq<Step>)
    decreases |run|
  {
    l.active in l.packs
    && (run == [] || (Legal(l, run[0]) && LegalRun(g, target, Next(g, target, l, run[0]), run[1..])))
  }

  // ----- What every run keeps -----

  predicate Placed(g: Integrity, l: Lane) {
    forall p, i | p in l.packs && 0 <= i < |l.packs[p].records| ::
      var r := l.packs[p].records[i];
      && Identified(g, r) && |r.body| < 0x1_0000_0000_0000_0000
      && IdOf(r) in l.index && l.index[IdOf(r)].pack == p && l.index[IdOf(r)].at == i
  }

  /** Every index entry names the record it stands for. */
  predicate Indexed(l: Lane) {
    forall id | id in l.index ::
      var e := l.index[id];
      && e.pack in l.packs && e.at < |l.packs[e.pack].records| && IdOf(l.packs[e.pack].records[e.at]) == id
      && (e.generation <= l.durableGen || (l.dirty && e.generation == l.currentGen))
  }

  predicate Bounded(target: nat, l: Lane) {
    && l.active in l.packs && l.durableGen < l.currentGen
    && (forall p | p in l.packs :: 0 < p <= l.active && l.packs[p].synced <= |l.packs[p].records|)
    && (forall p | p in l.packs :: |l.packs[p].records| <= 1 || Length(l.packs[p].records) <= target)
  }

  predicate Inv(g: Integrity, target: nat, l: Lane) {
    Bounded(target, l) && Placed(g, l) && Indexed(l)
  }

  lemma {:induction false} TotalAppend(records: seq<Record>, r: Record)
    ensures Total(records + [r]) == Total(records) + Size(r)
  {
    if records == [] {
      assert records + [r] == [r] && [r][1..] == [];
    } else {
      assert (records + [r])[1..] == records[1..] + [r];
      TotalAppend(records[1..], r);
    }
  }

  lemma {:induction false} TotalPrefix(records: seq<Record>, k: nat)
    requires k <= |records|
    ensures Total(records[..k]) <= Total(records)
    decreases k
  {
    if k > 0 {
      assert records[..k][1..] == records[1..][..k - 1];
      TotalPrefix(records[1..], k - 1);
    }
  }

  lemma RotateKeeps(g: Integrity, target: nat, l: Lane)
    requires Inv(g, target, l)
    ensures Inv(g, target, Rotated(l))
  {
    hide Identified, Length;
    var l' := Rotated(l);
    assert Length([]) <= target || |l'.packs[l'.active].records| <= 1;
    assert Bounded(target, l') by { hide Placed, Indexed; }
    assert Placed(g, l') by { hide Indexed; }
    assert Indexed(l') by { hide Placed; }
  }

  lemma SyncKeeps(g: Integrity, target: nat, l: Lane)
    requires Inv(g, target, l)
    ensures Inv(g, target, SyncedLane(l))
  {
    hide Identified, Length;
    var l' := SyncedLane(l);
    assert Bounded(target, l') by { hide Placed, Indexed; }
    assert Placed(g, l') by { hide Indexed; }
    assert Indexed(l') by { hide Placed; }
  }

  lemma DeleteKeeps(g: Integrity, target: nat, l: Lane, gone: set<nat>)
    requires Inv(g, target, l) && l.active !in gone
    ensures Inv(g, target, Deleted(l, gone))
  {
    hide Identified, Length;
    var l' := Deleted(l, gone);
    assert Bounded(target, l') by { hide Placed, Indexed; }
    assert Placed(g, l') by { hide Indexed; }
    assert Indexed(l') by { hide Placed; }
  }

  lemma RestartKeeps(g: Integrity, target: nat, l: Lane)
    requires Inv(g, target, l)
    ensures Inv(g, target, Restarted(l))
  {
    hide Identified, Length;
    var l' := Restarted(l);
    assert Bounded(target, l') by { hide Placed, Indexed; }
    assert Placed(g, l') by { hide Indexed; }
    assert Indexed(l') by { hide Placed; }
  }

  lemma AppendKeeps(g: Integrity, target: nat, l: Lane, r: Record)
    requires Inv(g, target, l) && Inserts(g, l, r) && |r.body| < 0x1_0000_0000_0000_0000 && !Overflows(target, l, r)
    ensures Inv(g, target, Appended(l, r))
  {
    hide Identified, Placed, Indexed;
    AppendBounded(g, target, l, r);
    AppendPlaced(g, l, r);
    AppendIndexed(l, r);
  }

  lemma AppendBounded(g: Integrity, target: nat, l: Lane, r: Record)
    requires Bounded(target, l) && !Overflows(target, l, r)
    ensures Bounded(target, Appended(l, r))
  {
    hide Total;
    TotalAppend(l.packs[l.active].records, r);
  }

  lemma AppendPlaced(g: Integrity, l: Lane, r: Record)
    requires Placed(g, l) && l.active in l.packs && Inserts(g, l, r) && |r.body| < 0x1_0000_0000_0000_0000
    ensures Placed(g, Appended(l, r))
  {
    hide Identified;
    var l', was := Appended(l, r), l.packs[l.active].records;
    assert l'.packs[l.active].records == was + [r];
    forall p, i | p in l'.packs && 0 <= i < |l'.packs[p].records|
      ensures var q := l'.packs[p].records[i];
        Identified(g, q) && |q.body| < 0x1_0000_0000_0000_0000 && IdOf(q) in l'.index
        && l'.index[IdOf(q)].pack == p && l'.index[IdOf(q)].at == i
    {
      if p != l.active || i < |was| {
        assert l'.packs[p].records[i] == l.packs[p].records[i];
      }
    }
  }

  lemma AppendIndexed(l: Lane, r: Record)
    requires Indexed(l) && l.active in l.packs && IdOf(r) !in l.index
    ensures Indexed(Appended(l, r))
  {
    var l', was := Appended(l, r), l.packs[l.active].records;
    assert l'.packs[l.active].records == was + [r];
    forall id | id in l.index
      ensures var e := l.index[id];
        e.at < |l'.packs[e.pack].records| && l'.packs[e.pack].records[e.at] == l.packs[e.pack].records[e.at]
    {
    }
  }

  lemma CrashKeeps(g: Integrity, target: nat, l: Lane, survived: map<nat, nat>)
    requires Inv(g, target, l) && Survival(l, survived)
    ensures Inv(g, target, Crashed(l, survived))
  {
    hide Identified, Placed, Indexed;
    CrashBounded(target, l, survived);
    CrashPlaced(g, l, survived);
    CrashIndexed(l, survived);
  }

  lemma CrashBounded(target: nat, l: Lane, survived: map<nat, nat>)
    requires Bounded(target, l) && Survival(l, survived)
    ensures Bounded(target, Crashed(l, survived))
  {
    hide Total;
    var l' := Crashed(l, survived);
    forall p | p in l'.packs
      ensures |l'.packs[p].records| <= 1 || Length(l'.packs[p].records) <= target
    {
      TotalPrefix(l.packs[p].records, survived[p]);
    }
  }

  lemma CrashPlaced(g: Integrity, l: Lane, survived: map<nat, nat>)
    requires Placed(g, l) && Survival(l, survived)
    ensures Placed(g, Crashed(l, survived))
  {
    hide Identified;
    var l' := Crashed(l, survived);
    assert forall p, i | p in l'.packs && 0 <= i < |l'.packs[p].records| ::
      l'.packs[p].records[i] == l.packs[p].records[i];
  }

  lemma CrashIndexed(l: Lane, survived: map<nat, nat>)
    requires Indexed(l) && Survival(l, survived)
    ensures Indexed(Crashed(l, survived))
  {
    var l' := Crashed(l, survived);
    assert forall p, i | p in l'.packs && 0 <= i < |l'.packs[p].records| ::
      l'.packs[p].records[i] == l.packs[p].records[i];
  }

  lemma StepKeeps(g: Integrity, target: nat, l: Lane, step: Step)
    requires Inv(g, target, l) && Legal(l, step)
    ensures Inv(g, target, Next(g, target, l, step))
  {
    hide Identified, Length, Total, Placed, Indexed;
    match step
    case Stage(r) =>
      if Inserts(g, l, r) {
        if Overflows(target, l, r) {
          RotateKeeps(g, target, l);
          AppendKeeps(g, target, Rotated(l), r);
        } else {
          AppendKeeps(g, target, l, r);
        }
      }
    case Seal => RotateKeeps(g, target, l);
    case Sync => SyncKeeps(g, target, l);
    case Delete(gone) => DeleteKeeps(g, target, l, gone);
    case Crash(survived) => CrashKeeps(g, target, l, survived);
    case Restart => RestartKeeps(g, target, l);
  }

  // ----- Soundness and the discipline that keeps it -----

  /** Everything before the active pack is on disk. */
  predicate Clean(l: Lane) {
    forall p | p in l.packs && p != l.active :: l.packs[p].synced == |l.packs[p].records|
  }

  /** Whatever the store calls durable is on disk. */
  predicate Promise(l: Lane)
    requires Indexed(l)
  {
    forall id | id in l.index && l.index[id].generation <= l.durableGen ::
      l.index[id].at < l.packs[l.index[id].pack].synced
  }

  /** Whatever the store indexes, its reader accepts. */
  predicate Readable(l: Lane) {
    forall p, i | p in l.packs && 0 <= i < |l.packs[p].records| :: |l.packs[p].records[i].body| <= MAX_STORED_BODY
  }

  ghost predicate Sound(g: Integrity, target: nat, l: Lane) {
    && Inv(g, target, l) && Clean(l) && Promise(l) && Readable(l)
    && (l.dirty <==> l.packs[l.active].synced < |l.packs[l.active].records|)
  }

  /** Never rotate or restart with unsynced records, never stage a body the reader refuses. */
  predicate Disciplined(g: Integrity, target: nat, l: Lane, step: Step)
    requires l.active in l.packs
  {
    match step
    case Stage(r) => Inserts(g, l, r) ==> |r.body| <= MAX_STORED_BODY && (Overflows(target, l, r) ==> !l.dirty)
    case Seal => !l.dirty
    case Restart => !l.dirty
    case _ => true
  }

  lemma AppendReadableIff(g: Integrity, l: Lane, r: Record)
    requires l.active in l.packs && Readable(l)
    ensures Readable(Appended(l, r)) <==> |r.body| <= MAX_STORED_BODY
  {
    var l', was := Appended(l, r), l.packs[l.active].records;
    assert l'.packs[l.active].records[|was|] == r;
    assert forall p, i | p in l'.packs && 0 <= i < |l'.packs[p].records| ::
      if p == l.active && i == |was| then l'.packs[p].records[i] == r
      else p in l.packs && i < |l.packs[p].records| && l'.packs[p].records[i] == l.packs[p].records[i];
  }

  /** Appending keeps everything but, for a large body, readability. */
  lemma AppendSoundIff(g: Integrity, target: nat, l: Lane, r: Record)
    requires Sound(g, target, l) && Legal(l, Stage(r)) && Inserts(g, l, r) && !Overflows(target, l, r)
    ensures Sound(g, target, Appended(l, r)) <==> |r.body| <= MAX_STORED_BODY
  {
    hide Identified, Length, Total, Readable, Placed;
    AppendKeeps(g, target, l, r);
    AppendReadableIff(g, l, r);
    var l' := Appended(l, r);
    assert Clean(l');
    assert Promise(l');
  }

  /** A rotation keeps a lane sound exactly when nothing was unsynced. */
  lemma RotateSoundIff(g: Integrity, target: nat, l: Lane)
    requires Sound(g, target, l)
    ensures !l.dirty ==> Sound(g, target, Rotated(l))
    ensures l.dirty ==> !Clean(Rotated(l))
  {
    hide Identified, Length, Total;
    RotateKeeps(g, target, l);
    assert Rotated(l).packs[l.active] == l.packs[l.active];
  }

  lemma StageSoundIff(g: Integrity, target: nat, l: Lane, r: Record)
    requires Sound(g, target, l) && Legal(l, Stage(r)) && Inserts(g, l, r)
    ensures Sound(g, target, Staged(g, target, l, r)) <==> Disciplined(g, target, l, Stage(r))
  {
    hide Identified, Length, Total, Placed, Indexed, Readable, Promise;
    if Overflows(target, l, r) {
      RotateSoundIff(g, target, l);
      if l.dirty {
        var q := Rotated(l);
        var p :| p in q.packs && p != q.active && q.packs[p].synced != |q.packs[p].records|;
        assert Appended(q, r).packs[p] == q.packs[p];
        assert !Clean(Appended(q, r));
      } else {
        AppendSoundIff(g, target, Rotated(l), r);
      }
    } else {
      AppendSoundIff(g, target, l, r);
    }
  }

  lemma SealSoundIff(g: Integrity, target: nat, l: Lane)
    requires Sound(g, target, l)
    ensures Sound(g, target, Sealed(l)) <==> Disciplined(g, target, l, Seal)
  {
    hide Identified, Length, Total;
    StepKeeps(g, target, l, Seal);
    var l' := Sealed(l);
    if l.packs[l.active].records != [] {
      assert l'.packs[l.active] == l.packs[l.active];
    }
  }

  lemma RestartSoundIff(g: Integrity, target: nat, l: Lane)
    requires Sound(g, target, l)
    ensures Sound(g, target, Restarted(l)) <==> Disciplined(g, target, l, Restart)
  {
    hide Identified, Length, Total;
    StepKeeps(g, target, l, Restart);
    var l' := Restarted(l);
    var held := l.packs[l.active];
    if held.synced < |held.records| {
      assert !(l'.dirty <==> held.synced < |held.records|);
    }
  }

  lemma CrashSound(g: Integrity, target: nat, l: Lane, survived: map<nat, nat>)
    requires Sound(g, target, l) && Survival(l, survived)
    ensures Sound(g, target, Crashed(l, survived))
  {
    hide Identified, Length, Total;
    CrashKeeps(g, target, l, survived);
    var l' := Crashed(l, survived);
    assert forall p, i | p in l'.packs && 0 <= i < |l'.packs[p].records| ::
      l'.packs[p].records[i] == l.packs[p].records[i];
  }

  /** One step keeps a sound lane sound exactly when it is disciplined. */
  lemma StepSoundIff(g: Integrity, target: nat, l: Lane, step: Step)
    requires Sound(g, target, l) && Legal(l, step)
    ensures Sound(g, target, Next(g, target, l, step)) <==> Disciplined(g, target, l, step)
  {
    hide Identified, Length, Total;
    match step
    case Stage(r) =>
      if Inserts(g, l, r) {
        StageSoundIff(g, target, l, r);
      }
    case Seal => SealSoundIff(g, target, l);
    case Sync => StepKeeps(g, target, l, Sync);
    case Delete(gone) => StepKeeps(g, target, l, step);
    case Crash(survived) => CrashSound(g, target, l, survived);
    case Restart => RestartSoundIff(g, target, l);
  }

  ghost predicate AlwaysSound(g: Integrity, target: nat, l: Lane, run: seq<Step>)
    requires LegalRun(g, target, l, run)
    decreases |run|
  {
    Sound(g, target, l) && (run == [] || AlwaysSound(g, target, Next(g, target, l, run[0]), run[1..]))
  }

  predicate AlwaysDisciplined(g: Integrity, target: nat, l: Lane, run: seq<Step>)
    requires LegalRun(g, target, l, run)
    decreases |run|
  {
    run == []
    || (Disciplined(g, target, l, run[0]) && AlwaysDisciplined(g, target, Next(g, target, l, run[0]), run[1..]))
  }

  /** Over any run from a sound lane, soundness at every point is exactly discipline at every step. */
  lemma {:induction false} RunSoundIff(g: Integrity, target: nat, l: Lane, run: seq<Step>)
    requires Sound(g, target, l) && LegalRun(g, target, l, run)
    ensures AlwaysSound(g, target, l, run) <==> AlwaysDisciplined(g, target, l, run)
    decreases |run|
  {
    hide Sound, Disciplined, Legal, Next;
    if run != [] {
      StepSoundIff(g, target, l, run[0]);
      var l' := Next(g, target, l, run[0]);
      if Sound(g, target, l') {
        RunSoundIff(g, target, l', run[1..]);
      }
    }
  }

  /** A sync leaves nothing that is not called durable, and in a sound lane nothing that is not on disk. */
  lemma SyncMakesDurable(g: Integrity, target: nat, l: Lane)
    requires Inv(g, target, l)
    ensures var l' := SyncedLane(l);
      && l'.index == l.index && (forall id | id in l'.index :: l'.index[id].generation <= l'.durableGen)
      && (Sound(g, target, l) ==> forall p | p in l'.packs :: l'.packs[p].synced == |l'.packs[p].records|)
  {
    hide Identified, Length, Total, Placed;
  }

  lemma FreshIsSound(g: Integrity, target: nat)
    ensures Sound(g, target, Fresh)
  {
  }

  /** The store's durability promise, over every run of a new lane. */
  lemma DurabilityIff(g: Integrity, target: nat, run: seq<Step>)
    requires LegalRun(g, target, Fresh, run)
    ensures AlwaysSound(g, target, Fresh, run) <==> AlwaysDisciplined(g, target, Fresh, run)
  {
    FreshIsSound(g, target);
    RunSoundIff(g, target, Fresh, run);
  }

  // ----- A durable address through the rest of a run -----

  function Exec(g: Integrity, target: nat, l: Lane, run: seq<Step>): Lane
    requires LegalRun(g, target, l, run)
    decreases |run|
  {
    if run == [] then l else Exec(g, target, Next(g, target, l, run[0]), run[1..])
  }

  /** The store reports the address durable, and its entry names this record. */
  predicate DurableAs(l: Lane, id: RecordId, r: Record) {
    && id in l.index && l.index[id].generation <= l.durableGen
    && l.index[id].pack in l.packs && l.index[id].at < |l.packs[l.index[id].pack].records|
    && l.packs[l.index[id].pack].records[l.index[id].at] == r
  }

  /** A deletion leaves the address's pack alone. */
  predicate Spares(l: Lane, step: Step, id: RecordId) {
    step.Delete? && id in l.index ==> l.index[id].pack !in step.gone
  }

  predicate AlwaysSpares(g: Integrity, target: nat, l: Lane, run: seq<Step>, id: RecordId)
    requires LegalRun(g, target, l, run)
    decreases |run|
  {
    run == [] || (Spares(l, run[0], id) && AlwaysSpares(g, target, Next(g, target, l, run[0]), run[1..], id))
  }

  lemma AppendKeepsDurable(g: Integrity, l: Lane, r: Record, id: RecordId, was: Record)
    requires l.active in l.packs && Inserts(g, l, r) && DurableAs(l, id, was)
    ensures DurableAs(Appended(l, r), id, was)
  {
  }

  lemma RotateKeepsDurable(target: nat, l: Lane, id: RecordId, was: Record)
    requires Bounded(target, l) && DurableAs(l, id, was)
    ensures DurableAs(Rotated(l), id, was)
  {
  }

  lemma CrashKeepsDurable(g: Integrity, target: nat, l: Lane, survived: map<nat, nat>, id: RecordId, was: Record)
    requires Sound(g, target, l) && Survival(l, survived) && DurableAs(l, id, was)
    ensures DurableAs(Crashed(l, survived), id, was)
  {
    hide Bounded, Placed, Readable, Clean;
    assert l.index[id].at < l.packs[l.index[id].pack].synced;
  }

  /** No step that spares its pack takes a durable address, or changes its record. */
  lemma StepKeepsDurable(g: Integrity, target: nat, l: Lane, step: Step, id: RecordId, was: Record)
    requires Sound(g, target, l) && Legal(l, step) && Spares(l, step, id) && DurableAs(l, id, was)
    ensures DurableAs(Next(g, target, l, step), id, was)
  {
    hide Placed, Indexed, Readable, Clean, Identified, Length, Total;
    match step
    case Stage(r) =>
      if Inserts(g, l, r) {
        if Overflows(target, l, r) {
          RotateKeepsDurable(target, l, id, was);
          AppendKeepsDurable(g, Rotated(l), r, id, was);
        } else {
          AppendKeepsDurable(g, l, r, id, was);
        }
      }
    case Seal => RotateKeepsDurable(target, l, id, was);
    case Sync =>
    case Delete(gone) =>
    case Crash(survived) => CrashKeepsDurable(g, target, l, survived, id, was);
    case Restart =>
  }

  /**
   Once an address is reported durable, it keeps its record, on disk, through every later
   stage, seal, sync, crash and restart of a disciplined run, until its pack is deleted.
   */
  lemma {:induction false} DurableIsKept(g: Integrity, target: nat, l: Lane, run: seq<Step>, id: RecordId, was: Record)
    requires Sound(g, target, l) && LegalRun(g, target, l, run) && AlwaysDisciplined(g, target, l, run)
    requires AlwaysSpares(g, target, l, run, id) && DurableAs(l, id, was)
    ensures var l' := Exec(g, target, l, run);
      DurableAs(l', id, was) && l'.index[id].at < l'.packs[l'.index[id].pack].synced
    decreases |run|
  {
    hide Disciplined, Legal, Next, DurableAs, Spares, Sound;
    if run == [] {
      DurableIsOnDisk(g, target, l, id, was);
    } else {
      StepSoundIff(g, target, l, run[0]);
      StepKeepsDurable(g, target, l, run[0], id, was);
      DurableIsKept(g, target, Next(g, target, l, run[0]), run[1..], id, was);
    }
  }

  lemma DurableIsOnDisk(g: Integrity, target: nat, l: Lane, id: RecordId, was: Record)
    requires Sound(g, target, l) && DurableAs(l, id, was)
    ensures id in l.index && l.index[id].pack in l.packs && l.index[id].at < l.packs[l.index[id].pack].synced
  {
    hide Placed, Bounded, Readable, Clean;
  }

  lemma {:induction false} SoundRun(g: Integrity, target: nat, l: Lane, run: seq<Step>)
    requires Sound(g, target, l) && LegalRun(g, target, l, run) && AlwaysDisciplined(g, target, l, run)
    ensures Sound(g, target, Exec(g, target, l, run))
    decreases |run|
  {
    hide Disciplined, Legal, Next, Sound;
    if run != [] {
      StepSoundIff(g, target, l, run[0]);
      SoundRun(g, target, Next(g, target, l, run[0]), run[1..]);
    }
  }

  /** The same from the lane's first moment: whatever is durable after `before` is kept through `after`. */
  lemma DurableForever(g: Integrity, target: nat, before: seq<Step>, after: seq<Step>, id: RecordId, was: Record)
    requires LegalRun(g, target, Fresh, before) && AlwaysDisciplined(g, target, Fresh, before)
    requires var l := Exec(g, target, Fresh, before);
      && LegalRun(g, target, l, after) && AlwaysDisciplined(g, target, l, after)
      && AlwaysSpares(g, target, l, after, id) && DurableAs(l, id, was)
    ensures DurableAs(Exec(g, target, Exec(g, target, Fresh, before), after), id, was)
  {
    FreshIsSound(g, target);
    SoundRun(g, target, Fresh, before);
    DurableIsKept(g, target, Exec(g, target, Fresh, before), after, id, was);
  }
}
