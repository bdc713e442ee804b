/**
 Checkpoint publication on a disk that can lose power at any moment.

 A directory has two views: what the process sees, and what is already durable.
 After a crash every entry on which the views differ may be found in either
 state. Artifacts are content-addressed: the file name is the content hash.
 */
module Publication {
  import opened Options

  datatype Kind = Band | Dedup | Manifest

  /** An immutable artifact; the references are those of a manifest. */
  datatype Artifact = Artifact(hash: nat, len: nat, bands: seq<nat>, dedup: nat)

  type Files = map<nat, Artifact>

  datatype Dir = Dir(seen: Files, safe: Files)

  /** The CURRENT record: the installed manifest and the retained previous one. */
  datatype CurrentRecord = CurrentRecord(manifest: nat, previous: Option<nat>, cut: nat)

  datatype Disk = Disk(bands: Dir, comp: Dir, manifests: Dir, current: Option<CurrentRecord>,
                       safeCurrent: Option<CurrentRecord>)

  function DirOf(d: Disk, kind: Kind): Dir {
    match kind
    case Band => d.bands
    case Dedup => d.comp
    case Manifest => d.manifests
  }

  function WithDir(d: Disk, kind: Kind, dir: Dir): Disk {
    match kind
    case Band => d.(bands := dir)
    case Dedup => d.(comp := dir)
    case Manifest => d.(manifests := dir)
  }

  // ----- Crashes -----

  /** What may be found after a crash. */
  datatype Image = Image(bands: Files, comp: Files, manifests: Files, current: Option<CurrentRecord>)

  predicate SameAt(a: Files, b: Files, name: nat) {
    (name in a <==> name in b) && (name in a ==> a[name] == b[name])
  }

  ghost predicate Survives(dir: Dir, found: Files) {
    forall name: nat :: SameAt(found, dir.seen, name) || SameAt(found, dir.safe, name)
  }

  ghost predicate Crashes(d: Disk, i: Image) {
    && Survives(d.bands, i.bands) && Survives(d.comp, i.comp) && Survives(d.manifests, i.manifests)
    && i.current in {d.current, d.safeCurrent}
  }

  predicate Holds(files: Files, name: nat, universe: set<Artifact>) {
    name in files && files[name].hash == name && files[name] in universe
  }

  /** Every artifact of a checkpoint is there under its content hash. */
  predicate Loadable(i: Image, manifest: nat, universe: set<Artifact>) {
    && Holds(i.manifests, manifest, universe)
    && Holds(i.comp, i.manifests[manifest].dedup, universe)
    && forall b <- i.manifests[manifest].bands :: Holds(i.bands, b, universe)
  }

  predicate Installed(i: Image, universe: set<Artifact>) {
    i.current.Some? ==>
      && Loadable(i, i.current.value.manifest, universe)
      && (i.current.value.previous.Some? ==> Loadable(i, i.current.value.previous.value, universe))
  }

  /** However the crash falls, CURRENT and its retained previous load completely. */
  ghost predicate CrashSafe(d: Disk, universe: set<Artifact>) {
    forall i :: Crashes(d, i) ==> Installed(i, universe)
  }

  // ----- The two views agree where it matters -----

  predicate Solid(dir: Dir, name: nat, universe: set<Artifact>) {
    Holds(dir.seen, name, universe) && Holds(dir.safe, name, universe)
  }

  /** No two byte strings of the run share a hash. */
  predicate Collisionless(universe: set<Artifact>) {
    forall a <- universe, b <- universe :: a.hash == b.hash ==> a == b
  }

  predicate Complete(d: Disk, manifest: nat, universe: set<Artifact>) {
    && Solid(d.manifests, manifest, universe)
    && Solid(d.comp, d.manifests.seen[manifest].dedup, universe)
    && forall b <- d.manifests.seen[manifest].bands :: Solid(d.bands, b, universe)
  }

  predicate RecordComplete(d: Disk, r: Option<CurrentRecord>, universe: set<Artifact>) {
    r.Some? ==>
      && Complete(d, r.value.manifest, universe)
      && (r.value.previous.Some? ==> Complete(d, r.value.previous.value, universe))
  }

  predicate Safe(d: Disk, universe: set<Artifact>) {
    RecordComplete(d, d.current, universe) && RecordComplete(d, d.safeCurrent, universe)
  }

  lemma SolidSurvives(dir: Dir, found: Files, name: nat, universe: set<Artifact>)
    requires Collisionless(universe) && Survives(dir, found) && Solid(dir, name, universe)
    ensures Holds(found, name, universe) && found[name] == dir.seen[name]
  {
    assert SameAt(found, dir.seen, name) || SameAt(found, dir.safe, name);
  }

  lemma CompleteLoads(d: Disk, i: Image, manifest: nat, universe: set<Artifact>)
    requires Collisionless(universe) && Crashes(d, i) && Complete(d, manifest, universe)
    ensures Loadable(i, manifest, universe)
  {
    SolidSurvives(d.manifests, i.manifests, manifest, universe);
    SolidSurvives(d.comp, i.comp, d.manifests.seen[manifest].dedup, universe);
    forall b <- d.manifests.seen[manifest].bands ensures Holds(i.bands, b, universe) {
      SolidSurvives(d.bands, i.bands, b, universe);
    }
  }

  lemma SafeIsCrashSafe(d: Disk, universe: set<Artifact>)
    requires Collisionless(universe) && Safe(d, universe)
    ensures CrashSafe(d, universe)
  {
    forall i | Crashes(d, i) ensures Installed(i, universe) {
      if i.current.Some? {
        CompleteLoads(d, i, i.current.value.manifest, universe);
        if i.current.value.previous.Some? {
          CompleteLoads(d, i, i.current.value.previous.value, universe);
        }
      }
    }
  }

  /** `e` shows and keeps at least what `d` did. */
  ghost predicate Grown(d: Disk, e: Disk, universe: set<Artifact>) {
    forall kind: Kind, name: nat :: Solid(DirOf(d, kind), name, universe) ==> Solid(DirOf(e, kind), name, universe)
  }

  lemma CompleteGrows(d: Disk, e: Disk, manifest: nat, universe: set<Artifact>)
    requires Collisionless(universe) && Grown(d, e, universe) && Complete(d, manifest, universe)
    ensures Complete(e, manifest, universe)
  {
    assert Solid(DirOf(d, Manifest), manifest, universe);
    assert Solid(DirOf(e, Manifest), manifest, universe);
    assert d.manifests.seen[manifest] == e.manifests.seen[manifest];
    assert Solid(DirOf(d, Dedup), d.manifests.seen[manifest].dedup, universe);
    forall b <- d.manifests.seen[manifest].bands ensures Solid(e.bands, b, universe) {
      assert Solid(DirOf(d, Band), b, universe);
      assert Solid(DirOf(e, Band), b, universe);
    }
  }

  lemma GrownIsSafe(d: Disk, e: Disk, universe: set<Artifact>)
    requires Collisionless(universe) && Safe(d, universe) && Grown(d, e, universe)
    requires e.current == d.current && e.safeCurrent == d.safeCurrent
    ensures Safe(e, universe)
  {
    hide Complete, Grown;
    forall m: nat | Complete(d, m, universe)
      ensures Complete(e, m, universe)
    {
      CompleteGrows(d, e, m, universe);
    }
  }

  lemma WrittenGrows(d: Disk, kind: Kind, a: Artifact, universe: set<Artifact>)
    requires Collisionless(universe) && Safe(d, universe) && a in universe
    ensures var e := WithDir(d, kind, Dir(DirOf(d, kind).seen[a.hash := a], DirOf(d, kind).safe));
      Grown(d, e, universe) && Safe(e, universe)
  {
    hide Safe;
    var e := WithDir(d, kind, Dir(DirOf(d, kind).seen[a.hash := a], DirOf(d, kind).safe));
    assert Grown(d, e, universe);
    GrownIsSafe(d, e, universe);
  }

  // ----- Publishing -----

  /** One band of a built checkpoint: fresh content, or a reference into the previous one. */
  datatype BandRef = New(a: Artifact) | Reused(hash: nat, len: nat)

  function HashOf(r: BandRef): nat {
    if r.New? then r.a.hash else r.hash
  }

  datatype BuiltTablet = BuiltTablet(cut: nat, bands: seq<BandRef>, dedup: Artifact, manifest: Artifact)

  /** The manifest names exactly the built bands and the built dedup component. */
  predicate WellBuilt(b: BuiltTablet, universe: set<Artifact>) {
    && b.manifest.bands == seq(|b.bands|, i requires 0 <= i < |b.bands| => HashOf(b.bands[i]))
    && b.manifest.dedup == b.dedup.hash && b.dedup in universe && b.manifest in universe
    && forall r <- b.bands :: r.New? ==> r.a in universe
  }

  /** A reused band is missing, or there with another length. */
  ghost predicate LacksReused(d: Disk, b: BuiltTablet) {
    exists r <- b.bands :: r.Reused? && !(r.hash in d.bands.seen && d.bands.seen[r.hash].len == r.len)
  }

  predicate Named(files: Files, universe: set<Artifact>) {
    forall name <- files :: Holds(files, name, universe)
  }

  /** The record that installs a built checkpoint and retains the one it supersedes. */
  function Superseding(built: BuiltTablet, previous: Option<CurrentRecord>): CurrentRecord {
    CurrentRecord(built.manifest.hash, if previous.Some? then Some(previous.value.manifest) else None, built.cut)
  }

  /** The names a checkpoint references in one store. */
  function References(d: Disk, manifest: nat, kind: Kind): set<nat> {
    match kind
    case Manifest => {manifest}
    case Dedup => if manifest in d.manifests.seen then {d.manifests.seen[manifest].dedup} else {}
    case Band => if manifest in d.manifests.seen then (set b | b in d.manifests.seen[manifest].bands) else {}
  }

  function Needed(d: Disk, r: CurrentRecord, kind: Kind): set<nat> {
    References(d, r.manifest, kind) + if r.previous.Some? then References(d, r.previous.value, kind) else {}
  }

  /** What a record needs of one store does not depend on that store. */
  lemma NeededStable(d: Disk, kind: Kind, dir: Dir, r: CurrentRecord)
    ensures Needed(WithDir(d, kind, dir), r, kind) == Needed(d, r, kind)
  {
  }

  /** Removing a name that the installed record does not need leaves it complete. */
  lemma SweptIsSafe(d: Disk, kind: Kind, name: nat, universe: set<Artifact>)
    requires Safe(d, universe) && d.current == d.safeCurrent
    requires d.current.Some? ==> name !in Needed(d, d.current.value, kind)
    ensures Safe(WithDir(d, kind, Dir(DirOf(d, kind).seen - {name}, DirOf(d, kind).safe)), universe)
  {
  }

  function Filtered(files: Files, keep: set<nat>): Files {
    map name | name in files && name in keep :: files[name]
  }

  lemma FilteredAll(files: Files, referenced: set<nat>)
    ensures Filtered(files, files.Keys + referenced) == files
  {
  }

  lemma FilteredStep(files: Files, names: set<nat>, referenced: set<nat>, name: nat)
    ensures Filtered(files, names - {name} + referenced) ==
      if name in referenced then Filtered(files, names + referenced) else Filtered(files, names + referenced) - {name}
  {
    if name in referenced {
      assert forall n: nat :: n in names - {name} + referenced <==> n in names + referenced || (n in referenced);
    }
  }

  /** After a sweep each store holds nothing but what the record needs and what could not be removed. */
  lemma SweptKeepsNeeds(d: Disk, e: Disk, r: CurrentRecord, faults: Faults, universe: set<Artifact>)
    requires RecordComplete(e, Some(r), universe)
    requires forall kind: Kind :: DirOf(e, kind) == SweptDir(d, r, kind, faults)
    ensures forall kind: Kind :: DirOf(e, kind).seen.Keys <= Needed(e, r, kind) + faults.stuck(kind)
  {
    assert DirOf(e, Manifest) == SweptDir(d, r, Manifest, faults);
    assert r.manifest in e.manifests.seen && e.manifests.seen[r.manifest] == d.manifests.seen[r.manifest];
    if r.previous.Some? {
      var p := r.previous.value;
      assert p in e.manifests.seen && e.manifests.seen[p] == d.manifests.seen[p];
    }
    forall kind: Kind ensures Needed(e, r, kind) == Needed(d, r, kind) {
      match kind case Band => case Dedup => case Manifest =>
    }
    forall kind: Kind ensures DirOf(e, kind).seen.Keys <= Needed(e, r, kind) + faults.stuck(kind) {
      assert DirOf(e, kind) == SweptDir(d, r, kind, faults);
      assert Needed(e, r, kind) == Needed(d, r, kind);
    }
  }

  /** What a sweep leaves of one store. */
  function SweptDir(d: Disk, r: CurrentRecord, kind: Kind, faults: Faults): Dir {
    var kept := Filtered(DirOf(d, kind).seen, Needed(d, r, kind) + faults.stuck(kind));
    Dir(kept, if faults.synced(kind) then kept else DirOf(d, kind).safe)
  }

  /** What a record needs depends on the manifests alone. */
  lemma NeededByManifests(d: Disk, e: Disk, r: CurrentRecord, kind: Kind)
    requires d.manifests.seen == e.manifests.seen
    ensures Needed(d, r, kind) == Needed(e, r, kind)
  {
  }

  /** States a method went through: each of them safe, with CURRENT one of the given records. */
  ghost predicate SafeTrail(trail: seq<Disk>, records: set<Option<CurrentRecord>>, universe: set<Artifact>) {
    forall d <- trail :: Safe(d, universe) && d.current in records && d.safeCurrent in records
  }

  lemma TrailJoins(a: seq<Disk>, b: seq<Disk>, records: set<Option<CurrentRecord>>, more: set<Option<CurrentRecord>>,
                   universe: set<Artifact>)
    requires SafeTrail(a, records, universe) && SafeTrail(b, more, universe)
    ensures SafeTrail(a + b, records + more, universe)
  {
  }

  lemma TrailWidens(a: seq<Disk>, records: set<Option<CurrentRecord>>, more: set<Option<CurrentRecord>>,
                    universe: set<Artifact>)
    requires SafeTrail(a, records, universe) && records <= more
    ensures SafeTrail(a, more, universe)
  {
  }

  /**
   A crash in any state of a safe trail finds one of the records in CURRENT, and every
   artifact of that checkpoint and of its retained previous under its content hash.
   */
  lemma TrailSurvivesCrashes(trail: seq<Disk>, records: set<Option<CurrentRecord>>, universe: set<Artifact>, k: nat, i: Image)
    requires Collisionless(universe) && SafeTrail(trail, records, universe) && k < |trail| && Crashes(trail[k], i)
    ensures i.current in records && Installed(i, universe)
  {
    assert trail[k] in trail;
    SafeIsCrashSafe(trail[k], universe);
  }

  /** The files whose removal the file system refuses, and whether it syncs each swept directory. */
  datatype Faults = Faults(stuck: Kind -> set<nat>, synced: Kind -> bool)

  /** What a successful publication of `r` leaves of the stores it found. */
  ghost predicate Published(before: Disk, after: Disk, r: CurrentRecord, faults: Faults, universe: set<Artifact>) {
    && Safe(after, universe) && after.current == Some(r)
    && (forall kind: Kind :: DirOf(after, kind).seen.Keys <= Needed(after, r, kind) + faults.stuck(kind))
    && (forall kind: Kind, name: nat :: Solid(DirOf(before, kind), name, universe) && name in faults.stuck(kind) ==>
          Solid(DirOf(after, kind), name, universe))
  }

  // ----- Two tablets, one band store -----

  /** Another tablet's view: its own manifests and CURRENT over the shared band and dedup stores. */
  function View(shared: Disk, own: Disk): Disk {
    own.(bands := shared.bands, comp := shared.comp)
  }

  function NeededOf(d: Disk, r: Option<CurrentRecord>, kind: Kind): set<nat> {
    if r.Some? then Needed(d, r.value, kind) else {}
  }

  /** Every shared file the other tablet's records need is needed by `r` too, or could not be removed. */
  ghost predicate Spared(own: Disk, after: Disk, r: CurrentRecord, faults: Faults) {
    forall kind: Kind | kind != Manifest ::
      NeededOf(own, own.current, kind) + NeededOf(own, own.safeCurrent, kind) <= Needed(after, r, kind) + faults.stuck(kind)
  }

  lemma NeededIsSolid(d: Disk, r: CurrentRecord, kind: Kind, name: nat, universe: set<Artifact>)
    requires RecordComplete(d, Some(r), universe) && name in Needed(d, r, kind)
    ensures Solid(DirOf(d, kind), name, universe)
  {
  }

  lemma SparedIsSolid(before: Disk, after: Disk, own: Disk, r: CurrentRecord, faults: Faults, universe: set<Artifact>,
                      other: CurrentRecord, kind: Kind, name: nat)
    requires Published(before, after, r, faults, universe) && kind != Manifest
    requires RecordComplete(View(before, own), Some(other), universe) && name in Needed(own, other, kind)
    requires name in Needed(after, r, kind) + faults.stuck(kind)
    ensures Solid(DirOf(after, kind), name, universe)
  {
    hide Collisionless;
    if name in Needed(after, r, kind) {
      NeededIsSolid(after, r, kind, name, universe);
    } else {
      assert Needed(View(before, own), other, kind) == Needed(own, other, kind);
      NeededIsSolid(View(before, own), other, kind, name, universe);
      assert Solid(DirOf(before, kind), name, universe);
    }
  }

  lemma SparedStaysComplete(before: Disk, after: Disk, own: Disk, r: CurrentRecord, faults: Faults, universe: set<Artifact>,
                            other: Option<CurrentRecord>)
    requires Published(before, after, r, faults, universe) && RecordComplete(View(before, own), other, universe)
    requires forall kind: Kind | kind != Manifest :: NeededOf(own, other, kind) <= Needed(after, r, kind) + faults.stuck(kind)
    ensures RecordComplete(View(after, own), other, universe)
  {
    hide Published;
    if other.Some? {
      forall kind: Kind, name: nat | kind != Manifest && name in Needed(own, other.value, kind)
        ensures Solid(DirOf(after, kind), name, universe)
      {
        assert name in NeededOf(own, other, kind);
        SparedIsSolid(before, after, own, r, faults, universe, other.value, kind, name);
      }
      CompleteInView(before, after, own, universe, other.value, other.value.manifest);
      if other.value.previous.Some? {
        CompleteInView(before, after, own, universe, other.value, other.value.previous.value);
      }
    }
  }

  lemma CompleteInView(before: Disk, after: Disk, own: Disk, universe: set<Artifact>, other: CurrentRecord, m: nat)
    requires Complete(View(before, own), m, universe) && (m == other.manifest || other.previous == Some(m))
    requires forall kind: Kind, name: nat | kind != Manifest && name in Needed(own, other, kind) ::
      Solid(DirOf(after, kind), name, universe)
    ensures Complete(View(after, own), m, universe)
  {
    assert own.manifests.seen[m].dedup in References(own, m, Dedup);
    assert Solid(DirOf(after, Dedup), own.manifests.seen[m].dedup, universe);
    forall b <- own.manifests.seen[m].bands ensures Solid(after.bands, b, universe) {
      assert b in References(own, m, Band);
      assert Solid(DirOf(after, Band), b, universe);
    }
  }

  /** A shared file that is gone from the stores: the crash that finds its record cannot load it. */
  lemma GoneIsNotSafe(d: Disk, other: CurrentRecord, kind: Kind, name: nat, universe: set<Artifact>)
    requires Some(other) in {d.current, d.safeCurrent} && RecordNamed(d, other, universe)
    requires kind != Manifest && name in Needed(d, other, kind) && name !in DirOf(d, kind).seen
    ensures !CrashSafe(d, universe)
  {
    var i := Image(d.bands.seen, d.comp.seen, d.manifests.seen, Some(other));
    assert Crashes(d, i);
    var m := if name in References(d, other.manifest, kind) then other.manifest else other.previous.value;
    assert !Loadable(i, m, universe);
  }

  /** The record's manifests are there. */
  predicate RecordNamed(d: Disk, r: CurrentRecord, universe: set<Artifact>) {
    && Holds(d.manifests.seen, r.manifest, universe)
    && (r.previous.Some? ==> Holds(d.manifests.seen, r.previous.value, universe))
  }

  /**
   The band and dedup stores are shared by all tablets, but a publication keeps only what its
   own record needs. Another tablet, safe before, still loads after every crash exactly when
   everything its records need is needed by the new record as well, or could not be removed.
   */
  lemma SharedSweepIff(before: Disk, after: Disk, own: Disk, r: CurrentRecord, faults: Faults, universe: set<Artifact>)
    requires Collisionless(universe) && Published(before, after, r, faults, universe)
    requires Safe(View(before, own), universe)
    ensures CrashSafe(View(after, own), universe) <==> Spared(own, after, r, faults)
  {
    hide Published, Safe, CrashSafe, Spared;
    if Spared(own, after, r, faults) {
      SparedIsSafe(before, after, own, r, faults, universe);
      SafeIsCrashSafe(View(after, own), universe);
    } else {
      UnsparedIsNotSafe(before, after, own, r, faults, universe);
    }
  }

  lemma UnsparedIsNotSafe(before: Disk, after: Disk, own: Disk, r: CurrentRecord, faults: Faults, universe: set<Artifact>)
    requires Published(before, after, r, faults, universe) && Safe(View(before, own), universe)
    requires !Spared(own, after, r, faults)
    ensures !CrashSafe(View(after, own), universe)
  {
    hide CrashSafe, Needed, Solid;
    var kind: Kind :| kind != Manifest && !(NeededOf(own, own.current, kind) + NeededOf(own, own.safeCurrent, kind)
                                            <= Needed(after, r, kind) + faults.stuck(kind));
    var name: nat :| name in NeededOf(own, own.current, kind) + NeededOf(own, own.safeCurrent, kind)
      && name !in Needed(after, r, kind) + faults.stuck(kind);
    var other := if name in NeededOf(own, own.current, kind) then own.current.value else own.safeCurrent.value;
    NeededByManifests(View(after, own), own, other, kind);
    CompleteIsNamed(View(before, own), View(after, own), other, universe);
    assert name !in DirOf(after, kind).seen;
    GoneIsNotSafe(View(after, own), other, kind, name, universe);
  }

  lemma CompleteIsNamed(d: Disk, e: Disk, r: CurrentRecord, universe: set<Artifact>)
    requires RecordComplete(d, Some(r), universe) && d.manifests == e.manifests
    ensures RecordNamed(e, r, universe)
  {
  }

  lemma SparedIsSafe(before: Disk, after: Disk, own: Disk, r: CurrentRecord, faults: Faults, universe: set<Artifact>)
    requires Published(before, after, r, faults, universe) && Safe(View(before, own), universe)
    requires Spared(own, after, r, faults)
    ensures Safe(View(after, own), universe)
  {
    hide Published;
    SparedStaysComplete(before, after, own, r, faults, universe, own.current);
    SparedStaysComplete(before, after, own, r, faults, universe, own.safeCurrent);
  }

  /** The one tablet's checkpoint directory. Every method reports the disk states it went through. */
  class CheckpointStore {
    var disk: Disk
    ghost const universe: set<Artifact>

    /** Every file carries its content hash as its name, and the run has no hash collision. */
    ghost predicate Valid()
      reads this
    {
      && Collisionless(universe)
      && Named(disk.bands.seen, universe) && Named(disk.comp.seen, universe) && Named(disk.manifests.seen, universe)
      && Safe(disk, universe)
    }

    constructor (disk: Disk, ghost universe: set<Artifact>)
      requires Collisionless(universe) && Safe(disk, universe)
      requires Named(disk.bands.seen, universe) && Named(disk.comp.seen, universe) && Named(disk.manifests.seen, universe)
      ensures Valid() && this.disk == disk && this.universe == universe
    {
      this.disk, this.universe := disk, universe;
    }

    /** `write_file_sync`: temp file, sync, rename. The rename is not durable yet. */
    method Write(kind: Kind, a: Artifact) returns (ghost trail: seq<Disk>)
      requires Valid() && a in universe
      modifies this
      ensures Valid() && trail == [disk] && Grown(old(disk), disk, universe)
      ensures disk == WithDir(old(disk), kind, Dir(DirOf(old(disk), kind).seen[a.hash := a], DirOf(old(disk), kind).safe))
    {
      hide Safe, Grown;
      WrittenGrows(disk, kind, a, universe);
      disk := WithDir(disk, kind, Dir(DirOf(disk, kind).seen[a.hash := a], DirOf(disk, kind).safe));
      trail := [disk];
    }

    /** `sync_dir`: everything seen in the directory is durable. */
    method SyncDir(kind: Kind) returns (ghost trail: seq<Disk>)
      requires Valid()
      modifies this
      ensures Valid() && trail == [disk] && Grown(old(disk), disk, universe)
      ensures disk == WithDir(old(disk), kind, Dir(DirOf(old(disk), kind).seen, DirOf(old(disk), kind).seen))
    {
      disk := WithDir(disk, kind, Dir(DirOf(disk, kind).seen, DirOf(disk, kind).seen));
      trail := [disk];
    }

    /** `write_atomic_sync` of CURRENT: the rename is seen at once and durable after the directory sync. */
    method InstallCurrent(r: CurrentRecord) returns (ghost trail: seq<Disk>)
      requires Valid() && RecordComplete(disk, Some(r), universe)
      modifies this
      ensures Valid() && SafeTrail(trail, {Some(r), old(disk.current), old(disk.safeCurrent)}, universe)
      ensures disk == old(disk).(current := Some(r), safeCurrent := Some(r))
    {
      ghost var renamed := disk.(current := Some(r));
      disk := disk.(current := Some(r), safeCurrent := Some(r));
      trail := [renamed, disk];
    }

    /** Writes an artifact unless a file of that name and length is there already. */
    method Ensure(kind: Kind, a: Artifact) returns (ghost trail: seq<Disk>)
      requires Valid() && a in universe
      modifies this
      ensures Valid() && (trail == [] || trail == [disk]) && Grown(old(disk), disk, universe)
      ensures disk == WithDir(old(disk), kind, Dir(DirOf(old(disk), kind).seen[a.hash := a], DirOf(old(disk), kind).safe))
    {
      var seen := DirOf(disk, kind).seen;
      if a.hash in seen && seen[a.hash].len == a.len {
        assert Holds(seen, a.hash, universe);
        assert seen == seen[a.hash := a];
        trail := [];
      } else {
        trail := Write(kind, a);
      }
    }

    /** The band stage: fresh bands are written if missing, reused ones must be there with their length. */
    method WriteBands(built: BuiltTablet) returns (ok: bool, ghost trail: seq<Disk>)
      requires Valid() && WellBuilt(built, universe)
      modifies this
      ensures Valid() && SafeTrail(trail, {disk.current, disk.safeCurrent}, universe) && Grown(old(disk), disk, universe)
      ensures disk == old(disk).(bands := Dir(disk.bands.seen, old(disk.bands.safe)))
      ensures ok ==> forall i :: 0 <= i < |built.bands| ==> Holds(disk.bands.seen, HashOf(built.bands[i]), universe)
      ensures !ok ==> LacksReused(disk, built)
    {
      trail := [];
      for i := 0 to |built.bands|
        invariant Valid() && SafeTrail(trail, {disk.current, disk.safeCurrent}, universe) && Grown(old(disk), disk, universe)
        invariant disk == old(disk).(bands := Dir(disk.bands.seen, old(disk.bands.safe)))
        invariant forall j :: 0 <= j < i ==> Holds(disk.bands.seen, HashOf(built.bands[j]), universe)
      {
        match built.bands[i]
        case New(a) =>
          ghost var more := Ensure(Band, a);
          trail := trail + more;
        case Reused(hash, len) =>
          if hash !in disk.bands.seen || disk.bands.seen[hash].len != len {
            return false, trail;
          }
      }
      ok := true;
    }

    /** Everything before CURRENT: bands, dedup component and manifest, each made durable before the next. */
    method Stage(built: BuiltTablet) returns (ok: bool, ghost trail: seq<Disk>)
      requires Valid() && WellBuilt(built, universe)
      modifies this
      ensures Valid() && SafeTrail(trail, {disk.current, disk.safeCurrent}, universe) && Grown(old(disk), disk, universe)
      ensures disk.current == old(disk.current) && disk.safeCurrent == old(disk.safeCurrent)
      ensures ok ==> Complete(disk, built.manifest.hash, universe)
      ensures !ok ==> LacksReused(disk, built)
    {
      ok, trail := WriteBands(built);
      if !ok {
        return;
      }
      ghost var more := SyncDir(Band);
      trail := trail + more;
      more := Stow(Dedup, built.dedup);
      trail := trail + more;
      more := Stow(Manifest, built.manifest);
      trail := trail + more;
      forall b <- built.manifest.bands ensures Solid(disk.bands, b, universe) {
        var i :| 0 <= i < |built.bands| && b == HashOf(built.bands[i]);
      }
    }

    /** Makes one artifact present and durable. */
    method Stow(kind: Kind, a: Artifact) returns (ghost trail: seq<Disk>)
      requires Valid() && a in universe
      modifies this
      ensures Valid() && SafeTrail(trail, {disk.current, disk.safeCurrent}, universe) && Grown(old(disk), disk, universe)
      ensures var files := DirOf(old(disk), kind).seen[a.hash := a]; disk == WithDir(old(disk), kind, Dir(files, files))
    {
      trail := Ensure(kind, a);
      ghost var more := SyncDir(kind);
      trail := trail + more;
    }

    /** `remove_file` of an unreferenced artifact; durable at the next directory sync. */
    method Remove(kind: Kind, name: nat) returns (ghost trail: seq<Disk>)
      requires Valid() && disk.current == disk.safeCurrent
      requires disk.current.Some? && name !in Needed(disk, disk.current.value, kind)
      modifies this
      ensures Valid() && trail == [disk]
      ensures disk == WithDir(old(disk), kind, Dir(DirOf(old(disk), kind).seen - {name}, DirOf(old(disk), kind).safe))
    {
      SweptIsSafe(disk, kind, name, universe);
      disk := WithDir(disk, kind, Dir(DirOf(disk, kind).seen - {name}, DirOf(disk, kind).safe));
      trail := [disk];
    }

    /**
     `sweep_dir`: removes every file of the directory that is not referenced and that the file
     system lets go, then syncs if it can.
     */
    method SweepDir(kind: Kind, referenced: set<nat>, faults: Faults) returns (ghost trail: seq<Disk>)
      requires Valid() && disk.current == disk.safeCurrent
      requires disk.current.Some? && Needed(disk, disk.current.value, kind) <= referenced
      modifies this
      ensures Valid() && SafeTrail(trail, {disk.current}, universe)
      ensures var kept := Filtered(DirOf(old(disk), kind).seen, referenced + faults.stuck(kind));
        disk == WithDir(old(disk), kind, Dir(kept, if faults.synced(kind) then kept else DirOf(old(disk), kind).safe))
    {
      trail := [];
      ghost var start := disk;
      var all, stays := DirOf(disk, kind).seen, referenced + faults.stuck(kind);
      var names := all.Keys;
      FilteredAll(all, stays);
      while names != {}
        invariant Valid() && SafeTrail(trail, {start.current}, universe) && names <= all.Keys
        invariant disk == WithDir(start, kind, Dir(Filtered(all, names + stays), DirOf(start, kind).safe))
        decreases names
      {
        var name :| name in names;
        FilteredStep(all, names, stays, name);
        if name !in referenced && name !in faults.stuck(kind) {
          NeededStable(start, kind, DirOf(disk, kind), start.current.value);
          ghost var more := Remove(kind, name);
          trail := trail + more;
        }
        names := names - {name};
      }
      assert names + stays == stays;
      if faults.synced(kind) {
        ghost var more := SyncDir(kind);
        trail := trail + more;
      }
    }

    /** `sweep_unreferenced`: keeps what the current and the previous manifest reference. */
    method SweepUnreferenced(faults: Faults) returns (ghost trail: seq<Disk>)
      requires Valid() && disk.current == disk.safeCurrent && disk.current.Some?
      modifies this
      ensures Valid() && SafeTrail(trail, {disk.current}, universe)
      ensures disk.current == old(disk.current) && disk.safeCurrent == old(disk.safeCurrent)
      ensures forall kind: Kind :: DirOf(disk, kind) == SweptDir(old(disk), old(disk.current.value), kind, faults)
    {
      hide Safe, SafeTrail, Filtered, Needed, Named;
      ghost var start := disk;
      var r := disk.current.value;
      var comp, manifests := Needed(disk, r, Dedup), Needed(disk, r, Manifest);
      trail := SweepDir(Band, Needed(disk, r, Band), faults);
      NeededByManifests(start, disk, r, Dedup);
      ghost var more := SweepDir(Dedup, comp, faults);
      TrailJoins(trail, more, {start.current}, {start.current}, universe);
      trail := trail + more;
      NeededByManifests(start, disk, r, Manifest);
      more := SweepDir(Manifest, manifests, faults);
      TrailJoins(trail, more, {start.current}, {start.current}, universe);
      trail := trail + more;
      assert {start.current} + {start.current} == {start.current};
      forall kind: Kind ensures DirOf(disk, kind) == SweptDir(start, r, kind, faults) {
        match kind case Band => case Dedup => case Manifest =>
      }
    }

    /**
     `publish_tablet`: stage the artifacts, install CURRENT, sweep. Every state on the
     way is safe and its CURRENT is an old record or the new one.
     */
    method PublishTablet(built: BuiltTablet, previous: Option<CurrentRecord>, faults: Faults)
      returns (result: Option<CurrentRecord>, ghost trail: seq<Disk>)
      requires Valid() && WellBuilt(built, universe)
      requires previous.Some? ==> Complete(disk, previous.value.manifest, universe)
      modifies this
      ensures Valid()
      ensures SafeTrail(trail, {Some(Superseding(built, previous)), old(disk.current), old(disk.safeCurrent)}, universe)
      ensures result.None? ==> disk.current == old(disk.current) && disk.safeCurrent == old(disk.safeCurrent)
      ensures result.Some? ==>
        result.value == Superseding(built, previous) && disk.current == result && disk.safeCurrent == result
      ensures result.None? ==> (previous.Some? && built.cut < previous.value.cut) || LacksReused(disk, built)
      ensures result.Some? ==> Published(old(disk), disk, result.value, faults, universe)
      ensures previous.Some? && built.cut < previous.value.cut ==> result.None? && trail == []
    {
      hide Safe, SafeTrail, Filtered, Needed, Named, Complete, Grown, LacksReused, SweptDir;
      trail := [];
      NoTrail({disk.current}, universe);
      if previous.Some? && built.cut < previous.value.cut {
        TrailWidens(trail, {disk.current}, {Some(Superseding(built, previous)), disk.current, disk.safeCurrent}, universe);
        return None, trail;
      }
      ghost var before := disk;
      ghost var records := {Some(Superseding(built, previous)), before.current, before.safeCurrent};
      var ok;
      ok, trail := Stage(built);
      TrailWidens(trail, {before.current, before.safeCurrent}, records, universe);
      if !ok {
        return None, trail;
      }
      if previous.Some? {
        CompleteGrows(before, disk, previous.value.manifest, universe);
      }
      ghost var more := InstallCurrent(Superseding(built, previous));
      TrailJoins(trail, more, records, records, universe);
      trail := trail + more;
      ghost var staged := disk.(current := before.current, safeCurrent := before.safeCurrent);
      ghost var installed := disk;
      GrownInstalled(before, staged, installed, universe);
      more := SweepUnreferenced(faults);
      TrailJoins(trail, more, records, {disk.current}, universe);
      trail := trail + more;
      assert records + records + {disk.current} == records && records + records == records;
      result := disk.current;
      InstalledIsComplete(disk, universe);
      SweptKeepsNeeds(installed, disk, result.value, faults, universe);
      StuckStays(before, installed, disk, result.value, faults, universe);
    }
  }

  lemma NoTrail(records: set<Option<CurrentRecord>>, universe: set<Artifact>)
    ensures SafeTrail([], records, universe)
  {
  }

  lemma InstalledIsComplete(d: Disk, universe: set<Artifact>)
    requires Safe(d, universe)
    ensures RecordComplete(d, d.current, universe)
  {
  }

  lemma GrownInstalled(before: Disk, staged: Disk, installed: Disk, universe: set<Artifact>)
    requires Grown(before, staged, universe) && installed.bands == staged.bands && installed.comp == staged.comp
    requires installed.manifests == staged.manifests
    ensures Grown(before, installed, universe)
  {
    forall kind: Kind ensures DirOf(staged, kind) == DirOf(installed, kind) {
      match kind case Band => case Dedup => case Manifest =>
    }
  }

  /** A durable file that could not be removed is still durable after the publication. */
  lemma StuckStays(before: Disk, installed: Disk, after: Disk, r: CurrentRecord, faults: Faults, universe: set<Artifact>)
    requires Grown(before, installed, universe)
    requires forall kind: Kind :: DirOf(after, kind) == SweptDir(installed, r, kind, faults)
    ensures forall kind: Kind, name: nat :: Solid(DirOf(before, kind), name, universe) && name in faults.stuck(kind) ==>
      Solid(DirOf(after, kind), name, universe)
  {
    hide Needed;
    forall kind: Kind, name: nat | Solid(DirOf(before, kind), name, universe) && name in faults.stuck(kind)
      ensures Solid(DirOf(after, kind), name, universe)
    {
      assert Solid(DirOf(installed, kind), name, universe);
      assert DirOf(after, kind) == SweptDir(installed, r, kind, faults);
    }
  }

  // One tablet's dedup component and manifest, and another's band, dedup component and manifest.
  const Dedup1 := Artifact(1, 10, [], 0)
  const Manifest1 := Artifact(2, 20, [], 1)
  const Band2 := Artifact(3, 30, [], 0)
  const Dedup2 := Artifact(4, 40, [], 0)
  const Manifest2 := Artifact(5, 50, [3], 4)

  function Five(): set<Artifact> {
    {Dedup1, Manifest1, Band2, Dedup2, Manifest2}
  }

  /** The second tablet's own files, over the shared stores. */
  function Neighbour(): Disk {
    var manifests := Dir(map[5 := Manifest2], map[5 := Manifest2]);
    Disk(Dir(map[], map[]), Dir(map[], map[]), manifests, Some(CurrentRecord(5, None, 0)), Some(CurrentRecord(5, None, 0)))
  }

  lemma NeighbourIsNotSpared(d: Disk, faults: Faults)
    requires Complete(d, 2, Five()) && faults.stuck(Band) == {}
    ensures !Spared(Neighbour(), d, CurrentRecord(2, None, 7), faults)
  {
    assert Holds(d.manifests.seen, 2, Five());
    assert d.manifests.seen[2] == Manifest1;
    assert 3 in NeededOf(Neighbour(), Neighbour().current, Band);
    assert Needed(d, CurrentRecord(2, None, 7), Band) == {};
  }

  /**
   Two tablets with a checkpoint each: publishing the first with a store that removes what it
   is told to leaves the second's CURRENT without its band and its dedup component.
   */
  method PublishLosesANeighbour() returns (store: CheckpointStore)
    ensures store.Valid() && store.universe == Five() && store.disk.current.Some?
    ensures Neighbour().current.Some? && !CrashSafe(View(store.disk, Neighbour()), Five())
  {
    var bands, comp: Files := map[3 := Band2], map[4 := Dedup2];
    store := new CheckpointStore(Disk(Dir(bands, bands), Dir(comp, comp), Dir(map[], map[]), None, None), Five());
    ghost var before := store.disk;
    assert Safe(View(before, Neighbour()), Five());
    var built := BuiltTablet(7, [], Dedup1, Manifest1);
    var faults := Faults((kind: Kind) => {}, (kind: Kind) => true);
    var result, trail := store.PublishTablet(built, None, faults);
    hide CrashSafe, Published, Spared, Solid;
    assert !LacksReused(store.disk, built);
    SharedSweepIff(before, store.disk, Neighbour(), result.value, faults, Five());
    NeighbourIsNotSpared(store.disk, faults);
  }
}
