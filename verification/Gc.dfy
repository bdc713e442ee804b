/**
 Mark-based collection of sealed packs: the plan, and what deleting its packs later does to
 everything staged, pinned or live in the meantime.
 */
module Gc {
  import opened Pack
  import opened Lane
  import opened ChunkStore

  datatype Inputs = Inputs(liveManifests: set<Bytes>, pinnedChunks: set<Bytes>, pinnedManifests: set<Bytes>)

  function ManifestId(id: Bytes): RecordId {
    RecordId(Manifest, id)
  }

  /** The body stored under an indexed address. */
  function BodyOf(l: Lane, id: RecordId): Bytes
    requires Indexed(l) && id in l.index
  {
    l.packs[l.index[id].pack].records[l.index[id].at].body
  }

  predicate Legible(l: Lane, m: Bytes)
    requires Indexed(l)
  {
    ManifestId(m) in l.index && |BodyOf(l, ManifestId(m))| <= MAX_STORED_BODY
  }

  /** Reachable: pinned, live, or named by the manifest body of a live root. */
  predicate Rooted(l: Lane, inputs: Inputs, chunksOf: Bytes -> set<Bytes>, id: RecordId)
    requires Indexed(l)
  {
    match id.kind
    case Manifest => id.id in inputs.liveManifests || id.id in inputs.pinnedManifests
    case Chunk =>
      || id.id in inputs.pinnedChunks
      || exists m | m in inputs.liveManifests :: Legible(l, m) && id.id in chunksOf(BodyOf(l, ManifestId(m)))
  }

  /** A sealed pack that holds no reachable address. */
  predicate Dead(l: Lane, inputs: Inputs, chunksOf: Bytes -> set<Bytes>, p: nat)
    requires Indexed(l)
  {
    && p in l.packs && p < l.active
    && (forall id | id in l.index && l.index[id].pack == p :: !Rooted(l, inputs, chunksOf, id))
  }

  predicate Sorted(s: seq<nat>) {
    forall i, j | 0 <= i < j < |s| :: s[i] < s[j]
  }

  lemma IndexedOf(store: ChunkStore)
    requires store.Valid()
    ensures Indexed(store.lane) && store.index.Keys == store.lane.index.Keys && store.activeSeq == store.lane.active
    ensures store.files.Keys == store.lane.packs.Keys
    ensures forall id | id in store.index :: store.index[id].pack == store.lane.index[id].pack
  {
    hide Cut, Placed;
  }

  /** Expands live manifests one level. */
  method MarkChunks(store: ChunkStore, inputs: Inputs, chunksOf: Bytes -> set<Bytes>) returns (marked: Result<set<Bytes>>)
    requires store.Valid() && Indexed(store.lane)
    ensures marked.Ok? <==> forall m | m in inputs.liveManifests :: Legible(store.lane, m)
    ensures marked.Ok? ==> forall id: Bytes :: id in marked.value <==> Rooted(store.lane, inputs, chunksOf, RecordId(Chunk, id))
  {
    hide Cut, Placed, Inv, Whole, Locates, Marked;
    ghost var l := store.lane;
    var todo, chunks := inputs.liveManifests, inputs.pinnedChunks;
    ghost var done: set<Bytes> := {};
    NothingMarked(l, inputs, chunksOf);
    while todo != {}
      invariant todo + done == inputs.liveManifests && todo !! done
      invariant Marked(l, inputs, chunksOf, done, chunks)
      decreases |todo|
    {
      var m :| m in todo;
      var body := store.Read(ManifestId(m));
      if !body.Ok? {
        return Fail(body);
      }
      MarkedMore(l, inputs, chunksOf, done, chunks, m);
      chunks := chunks + chunksOf(body.value);
      todo, done := todo - {m}, done + {m};
    }
    assert done == inputs.liveManifests;
    AllMarked(l, inputs, chunksOf, chunks);
    marked := Ok(chunks);
  }

  /** The pinned chunks, and those of the manifests already read. */
  ghost predicate Marked(l: Lane, inputs: Inputs, chunksOf: Bytes -> set<Bytes>, done: set<Bytes>, chunks: set<Bytes>)
    requires Indexed(l)
  {
    && (forall m | m in done :: Legible(l, m))
    && forall id: Bytes :: id in chunks <==>
         id in inputs.pinnedChunks || exists m | m in done :: Legible(l, m) && id in chunksOf(BodyOf(l, ManifestId(m)))
  }

  lemma NothingMarked(l: Lane, inputs: Inputs, chunksOf: Bytes -> set<Bytes>)
    requires Indexed(l)
    ensures Marked(l, inputs, chunksOf, {}, inputs.pinnedChunks)
  {
    hide Indexed;
  }

  lemma MarkedMore(l: Lane, inputs: Inputs, chunksOf: Bytes -> set<Bytes>, done: set<Bytes>, chunks: set<Bytes>, m: Bytes)
    requires Indexed(l) && Marked(l, inputs, chunksOf, done, chunks) && Legible(l, m)
    ensures Marked(l, inputs, chunksOf, done + {m}, chunks + chunksOf(BodyOf(l, ManifestId(m))))
  {
    hide Indexed;
    var chunks' := chunks + chunksOf(BodyOf(l, ManifestId(m)));
    forall id: Bytes
      ensures id in chunks' <==>
        id in inputs.pinnedChunks || exists n | n in done + {m} :: Legible(l, n) && id in chunksOf(BodyOf(l, ManifestId(n)))
    {
      if id in chunks && id !in inputs.pinnedChunks {
        var n :| n in done && Legible(l, n) && id in chunksOf(BodyOf(l, ManifestId(n)));
        assert n in done + {m};
      }
      if id in chunksOf(BodyOf(l, ManifestId(m))) {
        assert m in done + {m};
      }
    }
  }

  lemma AllMarked(l: Lane, inputs: Inputs, chunksOf: Bytes -> set<Bytes>, chunks: set<Bytes>)
    requires Indexed(l) && Marked(l, inputs, chunksOf, inputs.liveManifests, chunks)
    ensures forall m | m in inputs.liveManifests :: Legible(l, m)
    ensures forall id: Bytes :: id in chunks <==> Rooted(l, inputs, chunksOf, RecordId(Chunk, id))
  {
    hide Indexed;
  }

  /** Counts the reachable records of each pack from the derived index. */
  method Census(store: ChunkStore, inputs: Inputs, chunksOf: Bytes -> set<Bytes>, chunks: set<Bytes>)
    returns (census: map<nat, nat>)
    requires store.Valid() && Indexed(store.lane)
    requires forall id: Bytes :: id in chunks <==> Rooted(store.lane, inputs, chunksOf, RecordId(Chunk, id))
    ensures forall p :: p in census <==>
      exists id | id in store.lane.index :: store.lane.index[id].pack == p && Rooted(store.lane, inputs, chunksOf, id)
  {
    hide Cut, Placed, Inv, Whole, Locates;
    ghost var l := store.lane;
    IndexedOf(store);
    var manifests := inputs.pinnedManifests + inputs.liveManifests;
    census := map[];
    var todo := store.index.Keys;
    while todo != {}
      invariant todo <= store.index.Keys
      invariant forall p :: p in census <==>
        exists id | id in l.index && id !in todo :: l.index[id].pack == p && Rooted(l, inputs, chunksOf, id)
      decreases |todo|
    {
      var id :| id in todo;
      assert id == RecordId(id.kind, id.id);
      var pack := store.index[id].pack;
      var reachable := if id.kind.Chunk? then id.id in chunks else id.id in manifests;
      assert reachable <==> Rooted(l, inputs, chunksOf, id);
      if reachable {
        census := census[pack := 1 + if pack in census then census[pack] else 0];
      }
      todo := todo - {id};
    }
  }

  /** Picks the listed packs below the active one that nothing reachable is in. */
  method Pick(seqs: seq<nat>, active: nat, census: map<nat, nat>) returns (dead: seq<nat>)
    requires Sorted(seqs)
    ensures Sorted(dead) && forall p :: p in dead <==> p in seqs && p < active && p !in census
  {
    dead := [];
    var i := 0;
    while i < |seqs|
      invariant 0 <= i <= |seqs| && Sorted(dead)
      invariant forall p :: p in dead <==> p in seqs[..i] && p < active && p !in census
    {
      var pack := seqs[i];
      assert seqs[..i + 1] == seqs[..i] + [pack];
      forall k | 0 <= k < |dead|
        ensures dead[k] < pack
      {
        assert dead[k] in dead;
      }
      if pack < active && pack !in census {
        dead := dead + [pack];
      }
      i := i + 1;
    }
    assert seqs[..i] == seqs;
  }

  /** `plan`: the sealed packs without a reachable record, oldest first. */
  method Plan(store: ChunkStore, inputs: Inputs, chunksOf: Bytes -> set<Bytes>, seqs: seq<nat>)
    returns (plan: Result<seq<nat>>)
    requires store.Valid() && Indexed(store.lane) && Sorted(seqs) && (forall p :: p in seqs <==> p in store.files)
    ensures plan.Ok? <==> forall m | m in inputs.liveManifests :: Legible(store.lane, m)
    ensures plan.Ok? ==> Sorted(plan.value) && forall p :: p in plan.value <==> Dead(store.lane, inputs, chunksOf, p)
  {
    hide Cut, Placed, Inv, Whole, Locates, Rooted, Legible;
    IndexedOf(store);
    var marked := MarkChunks(store, inputs, chunksOf);
    if !marked.Ok? {
      return Fail(marked);
    }
    var census := Census(store, inputs, chunksOf, marked.value);
    var dead := Pick(seqs, store.activeSeq, census);
    plan := Ok(dead);
  }

  // ----- Between the plan and the deletion -----

  predicate Appending(step: Step) {
    step.Stage? || step.Seal? || step.Sync?
  }

  function After(g: Integrity, target: nat, l: Lane, run: seq<Step>): Lane
    requires LegalRun(g, target, l, run)
    decreases |run|
  {
    if run == [] then l else After(g, target, Next(g, target, l, run[0]), run[1..])
  }

  /** A later lane: the same entries, and new ones only in packs that were not sealed. */
  predicate Grown(l: Lane, later: Lane) {
    && l.active <= later.active
    && (forall id | id in l.index :: id in later.index && later.index[id] == l.index[id])
    && (forall id | id in later.index && id !in l.index :: later.index[id].pack >= l.active)
    && (forall p | p in l.packs :: p in later.packs && l.packs[p].records <= later.packs[p].records)
  }

  lemma StepGrows(g: Integrity, target: nat, l: Lane, step: Step)
    requires Inv(g, target, l) && Appending(step) && Legal(l, step)
    ensures Grown(l, Next(g, target, l, step))
  {
    hide Identified, Length, Total, Placed;
  }

  lemma {:induction false} RunGrows(g: Integrity, target: nat, l: Lane, run: seq<Step>)
    requires Inv(g, target, l) && LegalRun(g, target, l, run) && forall s | s in run :: Appending(s)
    ensures Inv(g, target, After(g, target, l, run)) && Grown(l, After(g, target, l, run))
    decreases |run|
  {
    hide Inv, Next;
    if run != [] {
      var l' := Next(g, target, l, run[0]);
      StepKeeps(g, target, l, run[0]);
      StepGrows(g, target, l, run[0]);
      RunGrows(g, target, l', run[1..]);
      GrownTransitive(l, l', After(g, target, l', run[1..]));
    }
  }

  lemma GrownTransitive(a: Lane, b: Lane, c: Lane)
    requires Grown(a, b) && Grown(b, c)
    ensures Grown(a, c)
  {
  }

  /**
   Deleting the planned packs after any run of staging, sealing and syncing: exactly the
   addresses that a planned pack held at planning time are gone, whoever stages them since.
   */
  lemma CollectionIff(g: Integrity, target: nat, l: Lane, dead: set<nat>, run: seq<Step>, id: RecordId)
    requires Inv(g, target, l) && LegalRun(g, target, l, run) && (forall s | s in run :: Appending(s))
    requires forall p | p in dead :: p in l.packs && p < l.active
    ensures var later := After(g, target, l, run);
      && Legal(later, Delete(dead))
      && (id in Deleted(later, dead).index <==> id in later.index && !(id in l.index && l.index[id].pack in dead))
  {
    hide Inv;
    RunGrows(g, target, l, run);
  }

  /** Whatever the plan could reach keeps its address and its record. */
  lemma CollectionKeepsRoots(g: Integrity, target: nat, l: Lane, inputs: Inputs, chunksOf: Bytes -> set<Bytes>,
                             dead: set<nat>, run: seq<Step>, id: RecordId)
    requires Inv(g, target, l) && LegalRun(g, target, l, run) && (forall s | s in run :: Appending(s))
    requires forall p | p in dead :: Dead(l, inputs, chunksOf, p)
    requires id in l.index && Rooted(l, inputs, chunksOf, id)
    ensures var later := Deleted(After(g, target, l, run), dead);
      && Inv(g, target, later) && id in later.index && later.index[id] == l.index[id]
      && BodyOf(later, id) == BodyOf(l, id)
  {
    hide Placed, Identified, Bounded;
    assert forall p | p in dead :: p < l.active;
    RunGrows(g, target, l, run);
    StepKeeps(g, target, After(g, target, l, run), Delete(dead));
  }

  /** An upload that starts after the plan and is answered from a planned pack is stranded by the deletion. */
  lemma LateDedupIsStranded(g: Integrity, target: nat, l: Lane, dead: set<nat>, r: Record)
    requires Inv(g, target, l) && (forall p | p in dead :: p in l.packs && p < l.active)
    requires Identified(g, r) && IdOf(r) in l.index && l.index[IdOf(r)].pack in dead
    ensures Staged(g, target, l, r) == l && IdOf(r) !in Deleted(Staged(g, target, l, r), dead).index
  {
  }
}
