/**
 The chunk store over its pack files: appends, rotation, sync, reads by offset and pack
 deletion, each tied to the record-level lane that it keeps.
 */
module ChunkStore {
  import opened Pack
  import opened Lane

  datatype Config = Config(lane: nat, target: nat, stamp: Bytes) {
    predicate Valid() {
      lane < 0x1_0000 && 0 < target && |stamp| == 8
    }
  }

  datatype Location = Location(pack: nat, offset: nat, total: nat, generation: nat)

  datatype StageOutcome = StageOutcome(inserted: bool, durable: bool)

  // ----- The files of a lane -----

  /** Each pack's own header fields: this lane's index, the pack's own sequence. */
  predicate Headers(c: Config, l: Lane, ids: map<nat, PackId>) {
    forall p | p in l.packs :: p in ids && ids[p].Valid() && ids[p].lane == c.lane && ids[p].seqno == p
  }

  predicate AllNamed(l: Lane) {
    forall p | p in l.packs :: Named(l.packs[p].records)
  }

  /** The files hold exactly the lane's records. */
  predicate Whole(g: Integrity, c: Config, l: Lane, ids: map<nat, PackId>, files: map<nat, Bytes>) {
    && Headers(c, l, ids) && AllNamed(l) && files.Keys == l.packs.Keys
    && (forall p | p in l.packs :: files[p] == Cut(g, ids[p], l.packs[p].records, Length(l.packs[p].records)))
  }

  function LocationOf(l: Lane, e: Entry): Location
    requires e.pack in l.packs && e.at < |l.packs[e.pack].records|
  {
    var records := l.packs[e.pack].records;
    Location(e.pack, Length(records[..e.at]), Size(records[e.at]), e.generation)
  }

  /** The derived index locates the lane's entries byte for byte. */
  predicate Locates(l: Lane, index: map<RecordId, Location>) {
    && index.Keys == l.index.Keys
    && (forall id | id in l.index ::
          var e := l.index[id];
          e.pack in l.packs && e.at < |l.packs[e.pack].records| && index[id] == LocationOf(l, e))
  }

  lemma PlacedIsNamed(g: Integrity, l: Lane)
    requires Placed(g, l)
    ensures AllNamed(l)
  {
    forall p, r | p in l.packs && r in l.packs[p].records
      ensures |r.id| == ID_LEN
    {
      var i :| 0 <= i < |l.packs[p].records| && l.packs[p].records[i] == r;
    }
  }

  /** Appending one record's bytes to a whole pack file makes the whole file of one record more. */
  lemma WholeAppend(g: Integrity, id: PackId, records: seq<Record>, r: Record)
    requires |id.stamp| == 8 && Named(records) && |r.id| == ID_LEN
    ensures Length(records + [r]) == Length(records) + Size(r)
    ensures Named(records + [r])
    ensures Cut(g, id, records + [r], Length(records + [r])) == Cut(g, id, records, Length(records)) + Encode(g, r)
  {
    hide Encode, PackHeader, Packed;
    TotalAppend(records, r);
    PackedAppend(g, records, r);
  }

  /** Reading at a located record finds that record's bytes first. */
  lemma WholeAt(g: Integrity, id: PackId, records: seq<Record>, at: nat)
    requires |id.stamp| == 8 && Named(records) && at < |records|
    ensures Length(records[..at]) <= Length(records)
    ensures Cut(g, id, records, Length(records))[Length(records[..at])..]
      == Encode(g, records[at]) + Packed(g, records[at + 1..])
  {
    hide Encode, PackHeader, Packed, Total;
    PackedAt(g, records, at);
    var header := PackHeader(g, id.lane, id.seqno, id.stamp, id.target);
    var skip := Total(records[..at]);
    assert Cut(g, id, records, Length(records)) == header + Packed(g, records);
    assert (header + Packed(g, records))[PACK_HEADER_LEN + skip..] == Packed(g, records)[skip..];
  }

  /** The files and the index of a lane in order. */
  ghost predicate Coupled(g: Integrity, c: Config, l: Lane, ids: map<nat, PackId>, files: map<nat, Bytes>,
                          index: map<RecordId, Location>) {
    && Checksums(g) && c.Valid() && l.active in l.packs && Inv(g, c.target, l)
    && Whole(g, c, l, ids, files) && Locates(l, index)
  }

  lemma EmptyPack(g: Integrity, id: PackId)
    requires |id.stamp| == 8
    ensures Cut(g, id, [], Length([])) == PackHeader(g, id.lane, id.seqno, id.stamp, id.target)
  {
    hide PackHeader;
  }

  lemma EmptyIff(records: seq<Record>)
    ensures Length(records) >= PACK_HEADER_LEN
    ensures Length(records) == PACK_HEADER_LEN <==> records == []
  {
  }

  function NewPack(c: Config, seqno: nat): PackId {
    PackId(c.lane, seqno, c.stamp, c.target)
  }

  lemma RotateCoupled(g: Integrity, c: Config, l: Lane, ids: map<nat, PackId>, files: map<nat, Bytes>,
                      index: map<RecordId, Location>)
    requires Coupled(g, c, l, ids, files, index) && l.active + 1 < 0x1_0000_0000_0000_0000
    ensures var seqno := l.active + 1;
      Coupled(g, c, Rotated(l), ids[seqno := NewPack(c, seqno)],
              files[seqno := PackHeader(g, c.lane, seqno, c.stamp, c.target)], index)
  {
    hide PackHeader, Total, Cut, Placed, Indexed;
    RotateKeeps(g, c.target, l);
    var seqno := l.active + 1;
    EmptyPack(g, NewPack(c, seqno));
    PlacedIsNamed(g, Rotated(l));
    var l', ids' := Rotated(l), ids[seqno := NewPack(c, seqno)];
    assert Headers(c, l', ids');
    assert seqno !in l.packs;
    assert forall id | id in l.index :: l.index[id].pack != seqno;
    assert Locates(l', index);
  }

  lemma PutCoupled(g: Integrity, c: Config, l: Lane, ids: map<nat, PackId>, files: map<nat, Bytes>,
                   index: map<RecordId, Location>, r: Record)
    requires Coupled(g, c, l, ids, files, index) && Inserts(g, l, r) && |r.body| < 0x1_0000_0000_0000_0000
    requires !Overflows(c.target, l, r)
    ensures l.active in files
    ensures var at := Location(l.active, Length(l.packs[l.active].records), Size(r), l.currentGen);
      && Coupled(g, c, Appended(l, r), ids, files[l.active := files[l.active] + Encode(g, r)], index[IdOf(r) := at])
      && Length(Appended(l, r).packs[l.active].records) == at.offset + Size(r)
  {
    hide PackHeader, Total, Encode, Cut, Placed, Indexed, Bounded, Whole, Locates;
    AppendKeeps(g, c.target, l, r);
    PutWhole(g, c, l, ids, files, r);
    PutLocates(l, index, r);
    TotalAppend(l.packs[l.active].records, r);
  }

  lemma PutWhole(g: Integrity, c: Config, l: Lane, ids: map<nat, PackId>, files: map<nat, Bytes>, r: Record)
    requires c.Valid() && l.active in l.packs && Placed(g, l) && Whole(g, c, l, ids, files) && Inserts(g, l, r)
    requires |r.body| < 0x1_0000_0000_0000_0000
    ensures l.active in files && Whole(g, c, Appended(l, r), ids, files[l.active := files[l.active] + Encode(g, r)])
  {
    hide PackHeader, Total, Encode, Cut;
    AppendPlaced(g, l, r);
    PlacedIsNamed(g, Appended(l, r));
    WholeAppend(g, ids[l.active], l.packs[l.active].records, r);
  }

  lemma PutLocates(l: Lane, index: map<RecordId, Location>, r: Record)
    requires l.active in l.packs && Indexed(l) && Locates(l, index) && IdOf(r) !in l.index
    ensures Locates(Appended(l, r),
                    index[IdOf(r) := Location(l.active, Length(l.packs[l.active].records), Size(r), l.currentGen)])
  {
    hide Total;
    var l', was := Appended(l, r), l.packs[l.active].records;
    AppendLocates(l, r);
    assert l'.packs[l.active].records[..|was|] == was;
    assert LocationOf(l', l'.index[IdOf(r)]) == Location(l.active, Length(was), Size(r), l.currentGen);
  }

  /** Entries of other records keep their offsets when one record is appended. */
  lemma AppendLocates(l: Lane, r: Record)
    requires l.active in l.packs && IdOf(r) !in l.index
    ensures forall id | id in l.index ::
      var e := l.index[id];
      e.pack in l.packs && e.at < |l.packs[e.pack].records| ==> LocationOf(Appended(l, r), e) == LocationOf(l, e)
  {
    hide Total;
    var l' := Appended(l, r);
    forall id | id in l.index && l.index[id].pack in l.packs && l.index[id].at < |l.packs[l.index[id].pack].records|
      ensures LocationOf(l', l.index[id]) == LocationOf(l, l.index[id])
    {
      var e := l.index[id];
      assert l'.packs[e.pack].records[..e.at] == l.packs[e.pack].records[..e.at];
    }
  }

  lemma SyncCoupled(g: Integrity, c: Config, l: Lane, ids: map<nat, PackId>, files: map<nat, Bytes>,
                    index: map<RecordId, Location>)
    requires Coupled(g, c, l, ids, files, index)
    ensures Coupled(g, c, SyncedLane(l), ids, files, index)
    ensures SyncedLane(l).packs[l.active].records == l.packs[l.active].records
  {
    hide PackHeader, Total, Cut, Identified;
    StepKeeps(g, c.target, l, Sync);
  }

  lemma DeleteCoupled(g: Integrity, c: Config, l: Lane, ids: map<nat, PackId>, files: map<nat, Bytes>,
                      index: map<RecordId, Location>, gone: set<nat>)
    requires Coupled(g, c, l, ids, files, index) && l.active !in gone
    ensures Coupled(g, c, Deleted(l, gone), ids, files - gone, map id | id in index && index[id].pack !in gone :: index[id])
  {
    hide PackHeader, Total, Cut, Identified;
    StepKeeps(g, c.target, l, Delete(gone));
  }

  lemma ActiveStays(g: Integrity, c: Config, l: Lane, ids: map<nat, PackId>, files: map<nat, Bytes>,
                    index: map<RecordId, Location>, gone: set<nat>)
    requires Coupled(g, c, l, ids, files, index) && l.active !in gone
    ensures l.active in l.packs && Deleted(l, gone).packs[l.active] == l.packs[l.active]
  {
  }

  class ChunkStore {
    const g: Integrity
    const config: Config
    var files: map<nat, Bytes>
    var index: map<RecordId, Location>
    var activeSeq: nat
    var activeLen: nat
    var currentGen: nat
    var durableGen: nat
    var syncDirty: bool
    ghost var lane: Lane
    ghost var ids: map<nat, PackId>

    ghost predicate Valid()
      reads this
    {
      && Coupled(g, config, lane, ids, files, index)
      && activeSeq == lane.active && activeLen == Length(lane.packs[lane.active].records)
      && currentGen == lane.currentGen && durableGen == lane.durableGen && syncDirty == lane.dirty
    }

    /** A store over recovered files. */
    constructor (g: Integrity, config: Config, files: map<nat, Bytes>, index: map<RecordId, Location>, active: nat,
                 ghost lane: Lane, ghost ids: map<nat, PackId>)
      requires Coupled(g, config, lane, ids, files, index) && active == lane.active && active in files
      requires |files[active]| == Length(lane.packs[active].records)
      requires lane.currentGen == 1 && lane.durableGen == 0 && !lane.dirty
      ensures Valid() && this.lane == lane && this.g == g && this.config == config
    {
      hide Coupled, Length;
      this.g, this.config, this.files, this.index, this.lane, this.ids := g, config, files, index, lane, ids;
      activeSeq, activeLen := active, |files[active]|;
      currentGen, durableGen, syncDirty := 1, 0, false;
    }

    /** Opens the next pack: header written and synced, then switched to. The old pack is not synced. */
    method Rotate()
      requires Valid() && activeSeq + 1 < 0x1_0000_0000_0000_0000
      modifies this
      ensures Valid() && lane == Rotated(old(lane))
    {
      hide Inv, Whole, Locates, PackHeader;
      RotateCoupled(g, config, lane, ids, files, index);
      var seqno := activeSeq + 1;
      files := files[seqno := PackHeader(g, config.lane, seqno, config.stamp, config.target)];
      ids := ids[seqno := NewPack(config, seqno)];
      activeSeq, activeLen := seqno, PACK_HEADER_LEN;
      lane := Rotated(lane);
    }

    /** Appends one framed record, rotating first when it would overflow the target. */
    method AppendRecord(r: Record)
      requires Valid() && Inserts(g, lane, r) && |r.body| < 0x1_0000_0000_0000_0000
      requires activeSeq + 1 < 0x1_0000_0000_0000_0000
      modifies this
      ensures Valid() && lane == Staged(g, config.target, old(lane), r)
      ensures activeSeq == lane.active && activeLen == Length(lane.packs[lane.active].records)
    {
      hide Inv, Whole, Locates, Encode, Length;
      EmptyIff(lane.packs[activeSeq].records);
      if activeLen > PACK_HEADER_LEN && activeLen + Size(r) > config.target {
        Rotate();
      }
      ghost var offset := activeLen;
      PutCoupled(g, config, lane, ids, files, index, r);
      files := files[activeSeq := files[activeSeq] + Encode(g, r)];
      activeLen := activeLen + Size(r);
      index := index[IdOf(r) := Location(activeSeq, activeLen - Size(r), Size(r), currentGen)];
      syncDirty := true;
      lane := Appended(lane, r);
    }

    /** Stages one record under the address it claims. */
    method Stage(r: Record) returns (outcome: Result<StageOutcome>)
      requires Valid() && |r.body| < 0x1_0000_0000_0000_0000 && activeSeq + 1 < 0x1_0000_0000_0000_0000
      modifies this
      ensures Valid() && lane == Staged(g, config.target, old(lane), r)
      ensures outcome.Ok? <==> Identified(g, r)
      ensures outcome.Ok? ==> IdOf(r) in lane.index && (outcome.value.inserted <==> IdOf(r) !in old(lane).index)
      ensures outcome.Ok? ==> (outcome.value.durable <==> lane.index[IdOf(r)].generation <= lane.durableGen)
    {
      hide Inv, Whole, Length, Overflows;
      if !Identified(g, r) {
        return Corrupt;
      }
      if IdOf(r) in index {
        return Ok(StageOutcome(false, index[IdOf(r)].generation <= durableGen));
      }
      GenerationsOrdered(g, config.target, lane);
      AppendRecord(r);
      outcome := Ok(StageOutcome(true, false));
    }

    /** One file sync, of the active pack alone, and a new generation. */
    method Sync()
      requires Valid()
      modifies this
      ensures Valid() && lane == SyncedLane(old(lane))
    {
      hide Inv, Whole, Locates, Length;
      if !syncDirty {
        return;
      }
      SyncCoupled(g, config, lane, ids, files, index);
      durableGen := currentGen;
      currentGen := currentGen + 1;
      syncDirty := false;
      lane := SyncedLane(lane);
    }

    method SealActive()
      requires Valid() && activeSeq + 1 < 0x1_0000_0000_0000_0000
      modifies this
      ensures Valid() && lane == Sealed(old(lane))
    {
      hide Inv, Whole, Locates, Length;
      EmptyIff(lane.packs[activeSeq].records);
      if activeLen <= PACK_HEADER_LEN {
        return;
      }
      Rotate();
    }

    /**
     Reads by offset and verifies in full. An indexed address always yields the bytes it
     names, unless the body is over the reader's cap: then it never does.
     */
    method Read(id: RecordId) returns (body: Result<Bytes>)
      requires Valid()
      ensures id !in lane.index ==> body == Missing
      ensures id in lane.index ==>
        var e := lane.index[id];
        && e.pack in lane.packs && e.at < |lane.packs[e.pack].records|
        && var r := lane.packs[e.pack].records[e.at];
           IdOf(r) == id && Identified(g, r) && body == if |r.body| <= MAX_STORED_BODY then Ok(r.body) else TooLarge
    {
      hide Encode, Length, ReadVerify, Cut, PackHeader, Packed;
      if id !in index {
        return Missing;
      }
      var at := index[id];
      ghost var e := lane.index[id];
      ghost var records := lane.packs[e.pack].records;
      assert Identified(g, records[e.at]) && |records[e.at].body| < 0x1_0000_0000_0000_0000;
      WholeAt(g, ids[e.pack], records, e.at);
      ReadsBack(g, records[e.at], Packed(g, records[e.at + 1..]));
      var read := ReadVerify(g, files[at.pack][at.offset..]);
      if !read.Ok? {
        return Fail(read);
      }
      if IdOf(read.value) != id || Size(read.value) != at.total {
        return Corrupt;
      }
      body := Ok(read.value.body);
    }

    /**
     Deletes sealed packs. Meeting the active one stops with an error after the earlier
     files are gone, and leaves the index as it was.
     */
    method DeletePacks(seqs: seq<nat>) returns (done: Result<seq<nat>>)
      requires Valid()
      modifies this
      ensures done.Ok? <==> activeSeq !in seqs
      ensures activeSeq == old(activeSeq)
      ensures done.Ok? ==> done.value == seqs && Valid() && lane == Deleted(old(lane), set p | p in seqs)
      ensures !done.Ok? ==> index == old(index) && lane == old(lane)
      ensures !done.Ok? ==> exists n | 0 <= n < |seqs| ::
        seqs[n] == activeSeq && activeSeq !in seqs[..n] && files == old(files) - (set p | p in seqs[..n])
    {
      hide Coupled, Inv, Whole, Locates, Length;
      var i, gone := 0, {};
      while i < |seqs|
        invariant 0 <= i <= |seqs| && activeSeq !in seqs[..i] && gone == set p | p in seqs[..i]
        invariant files == old(files) - gone
        invariant unchanged(`index) && unchanged(`lane) && unchanged(`ids) && unchanged(`activeSeq)
        invariant unchanged(`activeLen) && unchanged(`currentGen) && unchanged(`durableGen) && unchanged(`syncDirty)
      {
        if seqs[i] == activeSeq {
          return Invalid;
        }
        assert seqs[..i + 1] == seqs[..i] + [seqs[i]];
        files := files - {seqs[i]};
        gone := gone + {seqs[i]};
        i := i + 1;
      }
      assert seqs[..i] == seqs;
      DeleteCoupled(g, config, lane, ids, old(files), index, gone);
      ActiveStays(g, config, lane, ids, old(files), index, gone);
      if seqs != [] {
        index := map id | id in index && index[id].pack !in gone :: index[id];
      } else {
        assert (map id | id in index && index[id].pack !in gone :: index[id]) == index;
      }
      lane := Deleted(lane, gone);
      done := Ok(seqs);
    }
  }

  lemma GenerationsOrdered(g: Integrity, target: nat, l: Lane)
    requires Inv(g, target, l)
    ensures l.durableGen < l.currentGen
  {
  }

  lemma ReadsBack(g: Integrity, r: Record, rest: Bytes)
    requires Checksums(g) && Identified(g, r) && |r.body| < 0x1_0000_0000_0000_0000
    ensures ReadVerify(g, Encode(g, r) + rest) == if |r.body| <= MAX_STORED_BODY then Ok(r) else TooLarge
  {
    hide Encode, ReadVerify;
    if |r.body| <= MAX_STORED_BODY {
      VerifiesComplete(g, r, rest);
    } else {
      OversizeRefused(g, r, rest);
    }
  }
}
