/**
 Power loss at any byte: the images it can leave of a lane, which of them reopen, and what
 the reopened store still serves.
 */
module CrashReopen {
  import opened Pack
  import opened Lane
  import opened ChunkStore
  import opened Reopen

  /** A pack file cut anywhere past what was synced. */
  predicate CutOf(g: Integrity, id: PackId, held: Held, file: Bytes)
    requires id.Valid() && Named(held.records) && held.synced <= |held.records|
  {
    Length(held.records[..held.synced]) <= |file| <= Length(held.records) && file == Cut(g, id, held.records, |file|)
  }

  /** Each pack cut on its own, and perhaps the stub of a rotation that did not finish. */
  predicate Image(g: Integrity, c: Config, l: Lane, ids: map<nat, PackId>, files: map<nat, Bytes>) {
    && Headers(c, l, ids) && AllNamed(l)
    && (forall p | p in l.packs :: p in files && l.packs[p].synced <= |l.packs[p].records|
                                   && CutOf(g, ids[p], l.packs[p], files[p]))
    && (forall p | p in files && p !in l.packs :: p == l.active + 1 && |files[p]| < PACK_HEADER_LEN)
  }

  function Survivors(l: Lane, files: map<nat, Bytes>): map<nat, nat>
    requires forall p | p in l.packs :: p in files && |files[p]| >= PACK_HEADER_LEN
  {
    map p | p in l.packs :: Fitting(l.packs[p].records, |files[p]| - PACK_HEADER_LEN)
  }

  // ----- One pack -----

  /** At least `k` records fit where the first `k` do. */
  lemma {:induction false} FittingAtLeast(records: seq<Record>, k: nat, len: nat)
    requires k <= |records| && Total(records[..k]) <= len
    ensures k <= Fitting(records, len)
    decreases k
  {
    if k > 0 {
      assert records[..k][1..] == records[1..][..k - 1];
      FittingAtLeast(records[1..], k - 1, len - Size(records[0]));
    }
  }

  /** Records the reader accepts. */
  predicate Reads(records: seq<Record>) {
    forall r | r in records :: |r.body| <= MAX_STORED_BODY
  }

  lemma ReadableReads(l: Lane)
    requires Readable(l)
    ensures forall p | p in l.packs :: Reads(l.packs[p].records)
  {
  }

  lemma AddressedOf(g: Integrity, l: Lane, p: nat)
    requires Placed(g, l) && p in l.packs
    ensures Addressed(g, l.packs[p].records)
    ensures Reads(l.packs[p].records) ==> AllInBounds(g, l.packs[p].records)
  {
    var records := l.packs[p].records;
    forall r | r in records
      ensures Identified(g, r) && |r.body| < 0x1_0000_0000_0000_0000
    {
      var i :| 0 <= i < |records| && records[i] == r;
    }
  }

  lemma SizeFits(g: Integrity, target: nat, l: Lane, p: nat)
    requires Inv(g, target, l) && p in l.packs && Reads(l.packs[p].records)
    ensures Length(l.packs[p].records) <= target + PACK_SIZE_SLACK
  {
    hide Placed, Indexed;
    var records := l.packs[p].records;
    if |records| == 1 {
      assert |records[0].body| <= MAX_STORED_BODY;
      assert records[1..] == [] && Total(records) == Size(records[0]) + Total(records[1..]);
    }
  }

  /** The records that fit survive, all the synced ones among them; a sealed scan insists on a record boundary. */
  predicate ScansAsCut(g: Integrity, lane: nat, seqno: nat, held: Held, file: Bytes) {
    && |file| >= PACK_HEADER_LEN
    && var records, len := held.records, |file| - PACK_HEADER_LEN;
       var k := Fitting(records, len);
       var kept := Total(records[..k]);
       && held.synced <= k && kept <= len && (k < |records| ==> len < Total(records[..k + 1]))
       && Scanned(g, file, lane, seqno, true) == Ok(PackScan(records[..k], PACK_HEADER_LEN + kept, len - kept))
       && Scanned(g, file, lane, seqno, false) == if kept == len then Ok(PackScan(records[..k], |file|, 0)) else Corrupt
  }

  lemma ScanOfCut(g: Integrity, id: PackId, held: Held, file: Bytes)
    requires Checksums(g) && id.Valid() && AllInBounds(g, held.records) && Named(held.records)
    requires held.synced <= |held.records| && CutOf(g, id, held, file)
    ensures ScansAsCut(g, id.lane, id.seqno, held, file)
  {
    hide Scanned, Cut, Total, Fitting, AllInBounds, Named;
    TornTailRepair(g, id, held.records, |file|, true);
    TornTailRepair(g, id, held.records, |file|, false);
    FittingAtLeast(held.records, held.synced, |file| - PACK_HEADER_LEN);
  }

  lemma InvParts(g: Integrity, target: nat, l: Lane)
    requires Inv(g, target, l)
    ensures Placed(g, l) && Indexed(l) && Bounded(target, l)
  {
  }

  /** What the scan of one cut pack returns. */
  lemma PackAfterCut(g: Integrity, c: Config, l: Lane, ids: map<nat, PackId>, files: map<nat, Bytes>, p: nat)
    requires Checksums(g) && Inv(g, c.target, l) && Image(g, c, l, ids, files)
    requires p in l.packs && Reads(l.packs[p].records)
    ensures |files[p]| <= c.target + PACK_SIZE_SLACK && ScansAsCut(g, c.lane, p, l.packs[p], files[p])
  {
    hide Scanned, Cut, Placed, Indexed, Total, Fitting, Named, AllInBounds, Inv, Reads, Checksums, ScansAsCut;
    assert Placed(g, l) by { InvParts(g, c.target, l); }
    AddressedOf(g, l, p);
    SizeFits(g, c.target, l, p);
    ScanOfCut(g, ids[p], l.packs[p], files[p]);
  }

  // ----- Reopening -----

  lemma ActiveIsNewest(g: Integrity, c: Config, l: Lane, ids: map<nat, PackId>, files: map<nat, Bytes>)
    requires Inv(g, c.target, l) && Image(g, c, l, ids, files)
    ensures IsNewest(files, l.active) && forall p | p in files && p <= l.active :: p in l.packs
  {
    hide Cut, Placed, Indexed, Total;
    var held := l.packs[l.active];
    assert CutOf(g, ids[l.active], held, files[l.active]);
  }

  /** Every pack no longer appended to holds only records the reader accepts. */
  predicate SealedReads(l: Lane) {
    forall p | p in l.packs && p != l.active :: Reads(l.packs[p].records)
  }

  /** The active pack is within the size reopening accepts. */
  predicate ActiveFits(target: nat, l: Lane)
    requires l.active in l.packs
  {
    Length(l.packs[l.active].records) <= target + PACK_SIZE_SLACK
  }

  /** What a scan of one pack returns, whatever its records' sizes and wherever it was cut. */
  lemma PackReadsPrefix(g: Integrity, c: Config, l: Lane, ids: map<nat, PackId>, files: map<nat, Bytes>, p: nat, active: bool)
    requires Checksums(g) && Inv(g, c.target, l) && Image(g, c, l, ids, files) && p in l.packs
    ensures ReadsPrefix(g, l.packs[p].records, Scanned(g, files[p], c.lane, p, active), active)
  {
    hide Scanned, Cut, Placed, Indexed, Total, Addressed, Inv, Checksums, ReadsPrefix;
    assert Placed(g, l) by { InvParts(g, c.target, l); }
    AddressedOf(g, l, p);
    CutReadsPrefix(g, ids[p], l.packs[p].records, |files[p]|, active);
  }

  /** With everything before the active pack readable and on disk, every crash of a lane that fits reopens. */
  lemma CleanReopens(g: Integrity, c: Config, l: Lane, ids: map<nat, PackId>, files: map<nat, Bytes>)
    requires Checksums(g) && Inv(g, c.target, l) && Clean(l) && SealedReads(l) && Image(g, c, l, ids, files)
    requires ActiveFits(c.target, l)
    ensures IsNewest(files, l.active) && AllOpen(g, c, files, l.active)
  {
    hide Scanned, Cut, Placed, Indexed, Total, Fitting, Reads;
    ActiveIsNewest(g, c, l, ids, files);
    PackReadsPrefix(g, c, l, ids, files, l.active, true);
    forall p | p in files && p < l.active
      ensures Opens(g, c, files, l.active, p)
    {
      SealedOpens(g, c, l, ids, files, p);
    }
  }

  lemma SealedOpens(g: Integrity, c: Config, l: Lane, ids: map<nat, PackId>, files: map<nat, Bytes>, p: nat)
    requires Checksums(g) && Inv(g, c.target, l) && Clean(l) && SealedReads(l) && Image(g, c, l, ids, files)
    requires p in l.packs && p != l.active
    ensures Opens(g, c, files, l.active, p)
  {
    hide Scanned, Cut, Placed, Indexed, Total, Fitting, Reads;
    PackAfterCut(g, c, l, ids, files, p);
    var records := l.packs[p].records;
    assert records[..l.packs[p].synced] == records;
    assert |files[p]| == Length(records);
    assert Fitting(records, |files[p]| - PACK_HEADER_LEN) == |records|;
    assert records[..|records|] == records;
  }

  function WholeFiles(g: Integrity, c: Config, l: Lane, ids: map<nat, PackId>): map<nat, Bytes>
    requires AllNamed(l) && Headers(c, l, ids)
  {
    map p | p in l.packs :: Cut(g, ids[p], l.packs[p].records, Length(l.packs[p].records))
  }

  lemma {:induction false} TotalMonotone(records: seq<Record>, j: nat, k: nat)
    requires j < k <= |records|
    ensures Total(records[..j]) + 2 <= Total(records[..k]) <= Total(records)
    decreases k
  {
    TotalPrefix(records, k);
    if j > 0 {
      assert records[..k][1..] == records[1..][..k - 1];
      assert records[..j][1..] == records[1..][..j - 1];
      TotalMonotone(records[1..], j - 1, k - 1);
      TotalPrefix(records, k);
    } else {
      assert records[..0] == [];
      assert records[..k][0] == records[0];
    }
  }

  /** A sealed pack with an unsynced record can be cut inside it, and then the lane refuses to open. */
  lemma UncleanRefuses(g: Integrity, c: Config, l: Lane, ids: map<nat, PackId>, p: nat) returns (files: map<nat, Bytes>)
    requires Checksums(g) && Inv(g, c.target, l) && Headers(c, l, ids)
    requires p in l.packs && p != l.active && Reads(l.packs[p].records) && l.packs[p].synced != |l.packs[p].records|
    ensures Image(g, c, l, ids, files) && IsNewest(files, l.active) && !AllOpen(g, c, files, l.active)
  {
    hide Scanned, Cut, Placed, Indexed, Total, Fitting, Reads;
    PlacedIsNamed(g, l);
    var held := l.packs[p];
    var at := Length(held.records[..held.synced]);
    TotalMonotone(held.records, held.synced, held.synced + 1);
    files := WholeFiles(g, c, l, ids)[p := Cut(g, ids[p], held.records, at + 1)];
    forall q | q in l.packs
      ensures CutOf(g, ids[q], l.packs[q], files[q])
    {
      TotalPrefix(l.packs[q].records, l.packs[q].synced);
    }
    assert Image(g, c, l, ids, files);
    ActiveIsNewest(g, c, l, ids, files);
    PackAfterCut(g, c, l, ids, files, p);
    CutInside(held.records, held.synced);
    assert !Opens(g, c, files, l.active, p);
  }

  /** One byte past a record boundary is not a boundary. */
  lemma CutInside(records: seq<Record>, k: nat)
    requires k < |records|
    ensures Fitting(records, Total(records[..k]) + 1) == k
  {
    hide Fitting, Total;
    var len := Total(records[..k]) + 1;
    var f := Fitting(records, len);
    FittingIsMaximal(records, len);
    FittingAtLeast(records, k, len);
    if f > k {
      TotalMonotone(records, k, f);
    }
  }

  lemma WholeIsImage(g: Integrity, c: Config, l: Lane, ids: map<nat, PackId>) returns (files: map<nat, Bytes>)
    requires Inv(g, c.target, l) && Headers(c, l, ids)
    ensures AllNamed(l) && files == WholeFiles(g, c, l, ids) && Image(g, c, l, ids, files) && IsNewest(files, l.active)
    ensures forall p | p in l.packs :: |files[p]| == Length(l.packs[p].records)
  {
    hide Cut, Placed, Indexed, Total;
    PlacedIsNamed(g, l);
    files := WholeFiles(g, c, l, ids);
    forall p | p in l.packs
      ensures CutOf(g, ids[p], l.packs[p], files[p])
    {
      TotalPrefix(l.packs[p].records, l.packs[p].synced);
    }
    ActiveIsNewest(g, c, l, ids, files);
  }

  /** The first record the reader refuses. */
  lemma {:induction false} FirstRefused(records: seq<Record>) returns (i: nat)
    requires !Reads(records)
    ensures i < |records| && Reads(records[..i]) && |records[i].body| > MAX_STORED_BODY
  {
    if |records[0].body| > MAX_STORED_BODY {
      i := 0;
    } else {
      assert records == [records[0]] + records[1..];
      var j := FirstRefused(records[1..]);
      i := j + 1;
      assert records[..i] == [records[0]] + records[1..][..j];
    }
  }

  /** Scanning a whole pack that holds an oversize record stops at the first one. */
  lemma WholeStopsAt(g: Integrity, c: Config, l: Lane, ids: map<nat, PackId>, p: nat, i: nat, active: bool)
    requires Checksums(g) && Inv(g, c.target, l) && Headers(c, l, ids) && AllNamed(l) && p in l.packs
    requires i < |l.packs[p].records| && Reads(l.packs[p].records[..i]) && |l.packs[p].records[i].body| > MAX_STORED_BODY
    ensures Scanned(g, WholeFiles(g, c, l, ids)[p], c.lane, p, active) ==
      Truncated(l.packs[p].records, i, PACK_HEADER_LEN, active)
  {
    hide Scanned, Cut, Placed, Indexed, Total, Inv, Checksums, Truncated;
    assert Placed(g, l) by { InvParts(g, c.target, l); }
    AddressedOf(g, l, p);
    OversizeEndsThePack(g, ids[p], l.packs[p].records, i, active);
  }

  lemma OversizeSealRefuses(g: Integrity, c: Config, l: Lane, ids: map<nat, PackId>, p: nat) returns (files: map<nat, Bytes>)
    requires Checksums(g) && Inv(g, c.target, l) && Headers(c, l, ids)
    requires p in l.packs && p != l.active && !Reads(l.packs[p].records)
    ensures Image(g, c, l, ids, files) && IsNewest(files, l.active) && !AllOpen(g, c, files, l.active)
  {
    hide Scanned, Cut, Placed, Indexed, Total, Reads, Image;
    files := WholeIsImage(g, c, l, ids);
    var i := FirstRefused(l.packs[p].records);
    WholeStopsAt(g, c, l, ids, p, i, false);
    assert !Opens(g, c, files, l.active, p);
  }

  lemma OversizeActiveRefuses(g: Integrity, c: Config, l: Lane, ids: map<nat, PackId>) returns (files: map<nat, Bytes>)
    requires Inv(g, c.target, l) && Headers(c, l, ids) && !ActiveFits(c.target, l)
    ensures Image(g, c, l, ids, files) && IsNewest(files, l.active) && !AllOpen(g, c, files, l.active)
  {
    hide Scanned, Cut, Placed, Indexed, Total, Image;
    files := WholeIsImage(g, c, l, ids);
    assert !Opens(g, c, files, l.active, l.active);
  }

  /**
   Every crash of a lane reopens exactly when the packs before the active one are on disk and
   readable and the active one is within the size limit.
   */
  lemma EveryCrashReopensIff(g: Integrity, c: Config, l: Lane, ids: map<nat, PackId>)
    requires Checksums(g) && Inv(g, c.target, l) && Headers(c, l, ids)
    ensures (forall files | Image(g, c, l, ids, files) :: AllOpen(g, c, files, l.active)) <==>
            Clean(l) && SealedReads(l) && ActiveFits(c.target, l)
  {
    hide Scanned, Cut, Placed, Indexed, Total, AllOpen, Image, Reads;
    if !SealedReads(l) {
      var p :| p in l.packs && p != l.active && !Reads(l.packs[p].records);
      var files := OversizeSealRefuses(g, c, l, ids, p);
    } else if !ActiveFits(c.target, l) {
      var files := OversizeActiveRefuses(g, c, l, ids);
    } else if !Clean(l) {
      var p :| p in l.packs && p != l.active && l.packs[p].synced != |l.packs[p].records|;
      var files := UncleanRefuses(g, c, l, ids, p);
    } else {
      forall files | Image(g, c, l, ids, files)
        ensures AllOpen(g, c, files, l.active)
      {
        CleanReopens(g, c, l, ids, files);
      }
    }
  }

  /** Readable lanes always fit, so for them the condition is the sealed packs' sync alone. */
  lemma ReadableFits(g: Integrity, target: nat, l: Lane)
    requires Inv(g, target, l) && Readable(l)
    ensures SealedReads(l) && ActiveFits(target, l)
  {
    hide Placed, Indexed, Total, Reads;
    ReadableReads(l);
    SizeFits(g, target, l, l.active);
  }

  lemma PacksMatch(g: Integrity, c: Config, l: Lane, ids: map<nat, PackId>, files: map<nat, Bytes>, l': Lane)
    requires Checksums(g) && Inv(g, c.target, l) && Readable(l) && Image(g, c, l, ids, files)
    requires Recovers(g, c, files, l.active, l')
    ensures forall p | p in l.packs :: p in files && |files[p]| >= PACK_HEADER_LEN
    ensures Survival(l, Survivors(l, files)) && l'.packs == Crashed(l, Survivors(l, files)).packs
  {
    hide Scanned, Cut, Inv, Total, Fitting, FirstCopies, Image, Readable, Recovers;
    ImageHolds(g, c, l, ids, files);
    RecoversKeys(g, c, l, ids, files, l');
    forall p | p in l.packs
      ensures |files[p]| >= PACK_HEADER_LEN
      ensures var k := Fitting(l.packs[p].records, |files[p]| - PACK_HEADER_LEN);
        l.packs[p].synced <= k <= |l.packs[p].records| && l'.packs[p] == Held(l.packs[p].records[..k], k)
    {
      PackMatches(g, c, l, ids, files, l', p);
    }
  }

  lemma ImageHolds(g: Integrity, c: Config, l: Lane, ids: map<nat, PackId>, files: map<nat, Bytes>)
    requires Image(g, c, l, ids, files)
    ensures forall p | p in l.packs :: p in files
  {
    hide Cut;
  }

  lemma RecoversKeys(g: Integrity, c: Config, l: Lane, ids: map<nat, PackId>, files: map<nat, Bytes>, l': Lane)
    requires Checksums(g) && Inv(g, c.target, l) && Readable(l) && Image(g, c, l, ids, files)
    requires Recovers(g, c, files, l.active, l')
    ensures l'.packs.Keys == l.packs.Keys
  {
    hide Scanned, Cut, Placed, Indexed, Total, Fitting, FirstCopies;
    ActiveIsNewest(g, c, l, ids, files);
  }

  /** What reopening keeps of one pack. */
  lemma PackMatches(g: Integrity, c: Config, l: Lane, ids: map<nat, PackId>, files: map<nat, Bytes>, l': Lane, p: nat)
    requires Checksums(g) && Inv(g, c.target, l) && Readable(l) && Image(g, c, l, ids, files) && p in l.packs
    requires Recovers(g, c, files, l.active, l') && p in l'.packs
    ensures p in files && |files[p]| >= PACK_HEADER_LEN
    ensures var k := Fitting(l.packs[p].records, |files[p]| - PACK_HEADER_LEN);
      l.packs[p].synced <= k <= |l.packs[p].records| && l'.packs[p] == Held(l.packs[p].records[..k], k)
  {
    hide Scanned, Cut, Placed, Indexed, Total, Fitting, FirstCopies, Reads;
    ReadableReads(l);
    PackAfterCut(g, c, l, ids, files, p);
  }

  lemma IndexMatches(g: Integrity, target: nat, l: Lane, survived: map<nat, nat>, index: map<RecordId, Entry>)
    requires Inv(g, target, l) && Survival(l, survived) && FirstCopies(Crashed(l, survived).packs, index)
    ensures index == Crashed(l, survived).index
  {
    hide Identified, Bounded;
    var l' := Crashed(l, survived);
    forall id | id in index
      ensures id in l'.index && index[id] == l'.index[id]
    {
      EntryMatches(g, l, survived, id, index[id]);
    }
    forall id | id in l'.index
      ensures id in index
    {
      var e := l.index[id];
      assert l'.packs[e.pack].records[e.at] == l.packs[e.pack].records[e.at];
      assert IdOf(l'.packs[e.pack].records[e.at]) == id;
    }
  }

  lemma EntryMatches(g: Integrity, l: Lane, survived: map<nat, nat>, id: RecordId, e: Entry)
    requires Placed(g, l) && Survival(l, survived) && Names(Crashed(l, survived).packs, id, e) && e.generation == 0
    ensures id in Crashed(l, survived).index && Crashed(l, survived).index[id] == e
  {
    hide Identified;
    assert Crashed(l, survived).packs[e.pack].records[e.at] == l.packs[e.pack].records[e.at];
    assert l.index[id].pack == e.pack && l.index[id].at == e.at;
  }

  /** What reopening rebuilds is the lane itself, cut back to the records that survived. */
  lemma ReopenedIsCrashed(g: Integrity, c: Config, l: Lane, ids: map<nat, PackId>, files: map<nat, Bytes>, l': Lane)
    requires Checksums(g) && Inv(g, c.target, l) && Readable(l) && Image(g, c, l, ids, files)
    requires Recovers(g, c, files, l.active, l')
    ensures forall p | p in l.packs :: p in files && |files[p]| >= PACK_HEADER_LEN
    ensures Survival(l, Survivors(l, files)) && l' == Crashed(l, Survivors(l, files))
  {
    hide Placed, Indexed, Total, Fitting, Image, Crashed, FirstCopies;
    PacksMatch(g, c, l, ids, files, l');
    IndexMatches(g, c.target, l, Survivors(l, files), l'.index);
    CrashedScalars(l, Survivors(l, files));
  }

  lemma CrashedScalars(l: Lane, survived: map<nat, nat>)
    requires Survival(l, survived)
    ensures var l' := Crashed(l, survived); l'.active == l.active && l'.currentGen == 1 && l'.durableGen == 0 && !l'.dirty
  {
  }

  /**
   Whatever a sound lane calls durable, reopening from the files any crash leaves finds again,
   under the same address and with the same bytes, and calls durable.
   */
  lemma DurableReopens(g: Integrity, c: Config, l: Lane, ids: map<nat, PackId>, files: map<nat, Bytes>, l': Lane,
                       id: RecordId, was: Record)
    requires Checksums(g) && Sound(g, c.target, l) && Image(g, c, l, ids, files)
    requires Recovers(g, c, files, l.active, l') && DurableAs(l, id, was)
    ensures DurableAs(l', id, was)
  {
    hide Placed, Bounded, Identified, Image, Recovers, DurableAs, Crashed;
    ReopenedIsCrashed(g, c, l, ids, files, l');
    CrashKeepsDurable(g, c.target, l, Survivors(l, files), id, was);
  }

  // ----- What an undisciplined step costs -----

  /** A record behind one the reader refuses, or that one itself. */
  predicate Shadowed(l: Lane, e: Entry)
    requires e.pack in l.packs && e.at < |l.packs[e.pack].records|
  {
    !Reads(l.packs[e.pack].records[..e.at + 1])
  }

  lemma ReopenedReadsPrefix(g: Integrity, c: Config, l: Lane, ids: map<nat, PackId>, files: map<nat, Bytes>, l': Lane)
    requires Checksums(g) && Inv(g, c.target, l) && Image(g, c, l, ids, files)
    requires Recovers(g, c, files, l.active, l')
    ensures forall p | p in l'.packs ::
      p in l.packs && l'.packs[p].records <= l.packs[p].records && Reads(l'.packs[p].records)
  {
    hide Scanned, Cut, Placed, Indexed, Total, FirstCopies, Identified;
    ActiveIsNewest(g, c, l, ids, files);
    forall p | p in l'.packs
      ensures l'.packs[p].records <= l.packs[p].records && Reads(l'.packs[p].records)
    {
      PackReadsPrefix(g, c, l, ids, files, p, p == l.active);
    }
  }

  /**
   Whatever crash image is reopened, no address behind an oversize record of its pack, nor that
   record's own, is found again, durable or not.
   */
  lemma ShadowedIsLost(g: Integrity, c: Config, l: Lane, ids: map<nat, PackId>, files: map<nat, Bytes>, l': Lane, id: RecordId)
    requires Checksums(g) && Inv(g, c.target, l) && Image(g, c, l, ids, files)
    requires Recovers(g, c, files, l.active, l') && id in l.index && Shadowed(l, l.index[id])
    ensures id !in l'.index
  {
    hide Scanned, Cut, Total, Identified, Image, Placed, Indexed, FirstCopies, Reads, Shadowed;
    ReopenedReadsPrefix(g, c, l, ids, files, l');
    if id in l'.index {
      KeptIsUnshadowed(g, l, l', id);
    }
  }

  lemma KeptIsUnshadowed(g: Integrity, l: Lane, l': Lane, id: RecordId)
    requires Placed(g, l) && Indexed(l) && FirstCopies(l'.packs, l'.index) && id in l'.index
    requires forall p | p in l'.packs ::
      p in l.packs && l'.packs[p].records <= l.packs[p].records && Reads(l'.packs[p].records)
    ensures id in l.index && !Shadowed(l, l.index[id])
  {
    hide Identified;
    var e := l'.index[id];
    var kept, records := l'.packs[e.pack].records, l.packs[e.pack].records;
    assert records[e.at] == kept[e.at];
    assert l.index[id].pack == e.pack && l.index[id].at == e.at;
    assert records[..e.at + 1] == kept[..e.at + 1];
  }

  /** With no byte lost, exactly those addresses are: reopening keeps an address unless it is shadowed. */
  lemma WholeReopensIff(g: Integrity, c: Config, l: Lane, ids: map<nat, PackId>, l': Lane, id: RecordId)
    requires Checksums(g) && Inv(g, c.target, l) && Headers(c, l, ids) && AllNamed(l)
    requires Recovers(g, c, WholeFiles(g, c, l, ids), l.active, l') && id in l.index
    ensures id in l'.index <==> !Shadowed(l, l.index[id])
  {
    hide Scanned, Cut, Total, Identified, Image, Reads, FirstCopies;
    var files := WholeIsImage(g, c, l, ids);
    var e := l.index[id];
    if Shadowed(l, e) {
      ShadowedIsLost(g, c, l, ids, files, l', id);
    } else {
      WholeKeeps(g, c, l, ids, l', e.pack, e.at);
      IndexedOf(l', e.pack, e.at);
    }
  }

  lemma IndexedOf(l: Lane, p: nat, i: nat)
    requires FirstCopies(l.packs, l.index) && p in l.packs && i < |l.packs[p].records|
    ensures IdOf(l.packs[p].records[i]) in l.index
  {
  }

  lemma WholeKeeps(g: Integrity, c: Config, l: Lane, ids: map<nat, PackId>, l': Lane, p: nat, at: nat)
    requires Checksums(g) && Inv(g, c.target, l) && Headers(c, l, ids) && AllNamed(l)
    requires Recovers(g, c, WholeFiles(g, c, l, ids), l.active, l')
    requires p in l.packs && at < |l.packs[p].records| && Reads(l.packs[p].records[..at + 1])
    ensures p in l'.packs && at < |l'.packs[p].records| && l'.packs[p].records[at] == l.packs[p].records[at]
  {
    hide Scanned, Cut, Placed, Indexed, Total, Fitting, FirstCopies, Image;
    var files := WholeIsImage(g, c, l, ids);
    var records := l.packs[p].records;
    if Reads(records) {
      PackAfterCut(g, c, l, ids, files, p);
      assert records[..|records|] == records;
      FittingAtLeast(records, |records|, Total(records));
    } else {
      var i := FirstRefused(records);
      WholeStopsAt(g, c, l, ids, p, i, p == l.active);
    }
  }

  /** The survivors when a crash takes every byte that was not synced. */
  function Least(l: Lane): map<nat, nat> {
    map p | p in l.packs :: l.packs[p].synced
  }

  lemma UnsyncedIsLost(g: Integrity, target: nat, l: Lane, p: nat, i: nat)
    requires Inv(g, target, l) && p in l.packs && l.packs[p].synced <= i < |l.packs[p].records|
    ensures Survival(l, Least(l)) && IdOf(l.packs[p].records[i]) in l.index
    ensures IdOf(l.packs[p].records[i]) !in Crashed(l, Least(l)).index
  {
  }

  /** Sealing with unsynced records and then syncing calls durable what the next crash may take, for every such lane. */
  lemma SealedDirtyLosesDurable(g: Integrity, target: nat, l: Lane) returns (id: RecordId)
    requires Sound(g, target, l) && l.dirty
    ensures var after := SyncedLane(Sealed(l));
      && Inv(g, target, after) && id in after.index && after.index[id].generation <= after.durableGen
      && Survival(after, Least(after)) && id !in Crashed(after, Least(after)).index
  {
    hide Identified, Length, Total, Readable, Crashed;
    var held := l.packs[l.active];
    var after := SyncedLane(Sealed(l));
    StepKeeps(g, target, l, Seal);
    StepKeeps(g, target, Sealed(l), Sync);
    id := IdOf(held.records[held.synced]);
    assert after.packs[l.active] == held;
    UnsyncedIsLost(g, target, after, l.active, held.synced);
  }

  /** So does reopening after the process alone stopped. */
  lemma RestartedDirtyLosesDurable(g: Integrity, target: nat, l: Lane) returns (id: RecordId)
    requires Sound(g, target, l) && l.dirty
    ensures var after := Restarted(l);
      && Inv(g, target, after) && id in after.index && after.index[id].generation <= after.durableGen
      && Survival(after, Least(after)) && id !in Crashed(after, Least(after)).index
  {
    hide Identified, Length, Total, Readable, Crashed;
    var held := l.packs[l.active];
    StepKeeps(g, target, l, Restart);
    id := IdOf(held.records[held.synced]);
    UnsyncedIsLost(g, target, Restarted(l), l.active, held.synced);
  }

  // ----- The reopened store -----

  lemma {:induction false} PackedPrefix(g: Integrity, records: seq<Record>, k: nat)
    requires Named(records) && k <= |records|
    ensures Total(records[..k]) <= Total(records) && Packed(g, records)[..Total(records[..k])] == Packed(g, records[..k])
    decreases k
  {
    hide Encode;
    if k > 0 {
      assert records[..k][1..] == records[1..][..k - 1];
      PackedPrefix(g, records[1..], k - 1);
      var t := Total(records[1..][..k - 1]);
      assert (Encode(g, records[0]) + Packed(g, records[1..]))[..Size(records[0]) + t]
        == Encode(g, records[0]) + Packed(g, records[1..])[..t];
    }
  }

  /** Truncating a cut pack to its complete records leaves the whole file of those records. */
  lemma RepairedIsWhole(g: Integrity, id: PackId, records: seq<Record>, cut: nat, k: nat)
    requires |id.stamp| == 8 && Named(records) && k <= |records| && Length(records[..k]) <= cut <= Length(records)
    ensures Named(records[..k])
    ensures Cut(g, id, records, cut)[..Length(records[..k])] == Cut(g, id, records[..k], Length(records[..k]))
  {
    hide Packed, PackHeader, Total;
    PackedPrefix(g, records, k);
    var header := PackHeader(g, id.lane, id.seqno, id.stamp, id.target);
    var t := Total(records[..k]);
    assert (header + Packed(g, records))[..PACK_HEADER_LEN + t] == header + Packed(g, records)[..t];
  }

  lemma RepairedFiles(g: Integrity, c: Config, l: Lane, ids: map<nat, PackId>, files: map<nat, Bytes>, kept: map<nat, Bytes>)
    requires Checksums(g) && Inv(g, c.target, l) && Readable(l) && Image(g, c, l, ids, files)
    requires Repairs(g, c, files, l.active, kept) && (forall p | p in l.packs :: p in files && |files[p]| >= PACK_HEADER_LEN)
    requires Survival(l, Survivors(l, files))
    ensures Whole(g, c, Crashed(l, Survivors(l, files)), ids, kept)
  {
    hide Scanned, Cut, Inv, Total, Fitting, Repairs, Readable;
    var l' := Crashed(l, Survivors(l, files));
    RepairsKeys(g, c, l, ids, files, kept);
    forall p | p in l.packs
      ensures Named(l'.packs[p].records) && kept[p] == Cut(g, ids[p], l'.packs[p].records, Length(l'.packs[p].records))
    {
      RepairedFile(g, c, l, ids, files, kept, p);
    }
  }

  lemma RepairsKeys(g: Integrity, c: Config, l: Lane, ids: map<nat, PackId>, files: map<nat, Bytes>, kept: map<nat, Bytes>)
    requires Checksums(g) && Inv(g, c.target, l) && Readable(l) && Image(g, c, l, ids, files)
    requires Repairs(g, c, files, l.active, kept)
    ensures kept.Keys == l.packs.Keys
  {
    hide Scanned, Cut, Placed, Indexed, Total, Fitting;
    ActiveIsNewest(g, c, l, ids, files);
  }

  /** A repaired file holds exactly the surviving records of its pack. */
  lemma RepairedFile(g: Integrity, c: Config, l: Lane, ids: map<nat, PackId>, files: map<nat, Bytes>, kept: map<nat, Bytes>,
                     p: nat)
    requires Checksums(g) && Inv(g, c.target, l) && Readable(l) && Image(g, c, l, ids, files) && p in l.packs
    requires Repairs(g, c, files, l.active, kept) && p in kept && Survival(l, Survivors(l, files))
    requires forall q | q in l.packs :: q in files && |files[q]| >= PACK_HEADER_LEN
    ensures var records := l.packs[p].records[..Survivors(l, files)[p]];
      Named(records) && kept[p] == Cut(g, ids[p], records, Length(records))
  {
    hide Scanned, Cut, Placed, Indexed, Total, Fitting, Reads;
    ReadableReads(l);
    PackAfterCut(g, c, l, ids, files, p);
    RepairedIsWhole(g, ids[p], l.packs[p].records, |files[p]|, Survivors(l, files)[p]);
  }

  lemma LocatesLane(l: Lane, index: map<RecordId, Location>)
    requires LocatesIn(l.packs, l.index, index)
    ensures Locates(l, index)
  {
  }

  /** Opening the files any crash of a sound lane left: never an error, and the lane cut back to the survivors. */
  method OpenAfterCrash(g: Integrity, c: Config, files: map<nat, Bytes>, seqs: seq<nat>, ghost l: Lane,
                        ghost ids: map<nat, PackId>)
    returns (store: ChunkStore)
    requires Checksums(g) && c.Valid() && Listing(files, seqs) && Sound(g, c.target, l) && Image(g, c, l, ids, files)
    ensures fresh(store) && store.Valid() && store.g == g && store.config == c
    ensures forall p | p in l.packs :: p in files && |files[p]| >= PACK_HEADER_LEN
    ensures Survival(l, Survivors(l, files)) && store.lane == Crashed(l, Survivors(l, files))
    ensures Sound(g, c.target, store.lane)
  {
    hide Scanned, Cut, Placed, Indexed, Total, Fitting, Image, Clean, Promise, Readable, FirstCopies, Listing, Crashed,
         Whole, Locates, LocatesIn, Survivors, SealedReads, ActiveFits;
    ReadableFits(g, c.target, l);
    CleanReopens(g, c, l, ids, files);
    var result;
    var lane, newest;
    result, lane, newest := Recover(g, c, files, seqs);
    assert newest == l.active;
    ReopenedIsCrashed(g, c, l, ids, files, lane);
    RepairedFiles(g, c, l, ids, files, result.value.files);
    LocatesLane(lane, result.value.index);
    CrashSound(g, c.target, l, Survivors(l, files));
    ghost var r := result.value;
    WholeLength(g, c, lane, ids, r.files);
    store := new ChunkStore(g, c, result.value.files, result.value.index, result.value.active, lane, ids);
  }

  lemma WholeLength(g: Integrity, c: Config, l: Lane, ids: map<nat, PackId>, files: map<nat, Bytes>)
    requires Whole(g, c, l, ids, files) && l.active in l.packs
    ensures l.active in files && |files[l.active]| == Length(l.packs[l.active].records)
  {
  }
}
