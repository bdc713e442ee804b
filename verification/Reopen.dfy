/**
 Reopening a lane: which pack is active, which files are accepted, what is repaired, and
 what the rebuilt index holds. Every file image that a power loss can leave is covered.
 */
module Reopen {
  import opened Pack
  import opened Lane
  import opened ChunkStore

  const PACK_SIZE_SLACK: nat := 16 * 1024 * 1024

  predicate Listing(files: map<nat, Bytes>, seqs: seq<nat>) {
    && (forall i, j | 0 <= i < j < |seqs| :: seqs[i] < seqs[j])
    && (forall p | p in files :: p in seqs) && (forall p | p in seqs :: p in files && 0 < p)
  }

  /** The newest pack with a complete header, 0 when there is none: the files above it are dropped. */
  predicate IsNewest(files: map<nat, Bytes>, active: nat) {
    && (active == 0 || (active in files && |files[active]| >= PACK_HEADER_LEN))
    && (forall p | p in files && p > active :: |files[p]| < PACK_HEADER_LEN)
  }

  function ScanOf(g: Integrity, c: Config, files: map<nat, Bytes>, active: nat, p: nat): Result<PackScan>
    requires p in files
  {
    Scanned(g, files[p], c.lane, p, p == active)
  }

  predicate Opens(g: Integrity, c: Config, files: map<nat, Bytes>, active: nat, p: nat)
    requires p in files
  {
    |files[p]| <= c.target + PACK_SIZE_SLACK && ScanOf(g, c, files, active, p).Ok?
  }

  predicate AllOpen(g: Integrity, c: Config, files: map<nat, Bytes>, active: nat) {
    forall p | p in files && p <= active :: Opens(g, c, files, active, p)
  }

  predicate Precedes(p: nat, i: nat, e: Entry) {
    p < e.pack || (p == e.pack && i < e.at)
  }

  predicate Names(packs: map<nat, Held>, id: RecordId, e: Entry) {
    e.pack in packs && e.at < |packs[e.pack].records| && IdOf(packs[e.pack].records[e.at]) == id
  }

  /** Every record's address is indexed, at its oldest copy. */
  predicate FirstCopies(packs: map<nat, Held>, index: map<RecordId, Entry>) {
    && (forall id | id in index :: Names(packs, id, index[id]) && index[id].generation == 0)
    && (forall p, i | p in packs && 0 <= i < |packs[p].records| ::
          IdOf(packs[p].records[i]) in index && !Precedes(p, i, index[IdOf(packs[p].records[i])]))
  }

  /** What reopening rebuilds from the files. */
  predicate Recovers(g: Integrity, c: Config, files: map<nat, Bytes>, active: nat, l: Lane) {
    && l.active == active && l.currentGen == 1 && l.durableGen == 0 && !l.dirty
    && l.packs.Keys == (set p | p in files && p <= active)
    && (forall p | p in l.packs :: Opens(g, c, files, active, p)
          && l.packs[p].records == ScanOf(g, c, files, active, p).value.records
          && l.packs[p].synced == |l.packs[p].records|)
    && FirstCopies(l.packs, l.index)
  }

  predicate Repairs(g: Integrity, c: Config, files: map<nat, Bytes>, active: nat, kept: map<nat, Bytes>) {
    && kept.Keys == (set p | p in files && p <= active)
    && (forall p | p in kept :: Opens(g, c, files, active, p)
          && var end := ScanOf(g, c, files, active, p).value.keptLen; end <= |files[p]| && kept[p] == files[p][..end])
  }

  datatype Recovered = Recovered(files: map<nat, Bytes>, index: map<RecordId, Location>, active: nat)

  // ----- The scan keeps at most the file -----

  lemma {:induction false} KeptWithin(g: Integrity, file: Bytes, pos: nat, active: bool)
    requires pos <= |file|
    ensures var s := ScanFrom(g, file, pos, active); s.Ok? ==> s.value.keptLen <= |file| && s.value.truncated <= |file|
    ensures var s := ScanFrom(g, file, pos, active); s.Ok? && s.value.truncated == 0 ==> s.value.keptLen == |file|
    decreases |file| - pos
  {
    hide ScanAt;
    if pos < |file| {
      var turn := ScanAt(g, file[pos..]);
      if turn.Took? {
        KeptWithin(g, file, pos + Size(turn.r), active);
      }
    }
  }

  lemma ScannedWithin(g: Integrity, file: Bytes, lane: nat, seqno: nat, active: bool)
    ensures var s := Scanned(g, file, lane, seqno, active);
      s.Ok? ==> s.value.keptLen <= |file| && (s.value.truncated == 0 ==> s.value.keptLen == |file|)
  {
    hide ScanFrom, DecodePackHeader;
    if |file| >= PACK_HEADER_LEN {
      KeptWithin(g, file, PACK_HEADER_LEN, active);
    }
  }

  // ----- The loop that rebuilds the index -----

  /** Indexes one more record unless an older copy already is. */
  lemma FirstCopiesStep(packs: map<nat, Held>, index: map<RecordId, Entry>, p: nat, r: Record)
    requires p in packs && FirstCopies(packs, index) && forall q | q in packs :: q <= p
    ensures var held := packs[p];
      var packs' := packs[p := held.(records := held.records + [r])];
      var index' := if IdOf(r) in index then index else index[IdOf(r) := Entry(p, |held.records|, 0)];
      FirstCopies(packs', index')
  {
    var held := packs[p];
    var packs' := packs[p := held.(records := held.records + [r])];
    var index' := if IdOf(r) in index then index else index[IdOf(r) := Entry(p, |held.records|, 0)];
    forall q, i | q in packs' && 0 <= i < |packs'[q].records|
      ensures IdOf(packs'[q].records[i]) in index' && !Precedes(q, i, index'[IdOf(packs'[q].records[i])])
    {
      if q != p || i < |held.records| {
        assert packs'[q].records[i] == packs[q].records[i];
      }
    }
  }

  /** The packs the loop has finished, and the first `n` records of the one it is at. */
  ghost function Partial(done: map<nat, Held>, p: nat, records: seq<Record>, n: nat): map<nat, Held>
    requires n <= |records|
  {
    done[p := Held(records[..n], |records|)]
  }

  predicate LocatesIn(packs: map<nat, Held>, entries: map<RecordId, Entry>, index: map<RecordId, Location>) {
    && index.Keys == entries.Keys
    && (forall id | id in entries :: Names(packs, id, entries[id])
          && index[id] == Location(entries[id].pack, Length(packs[entries[id].pack].records[..entries[id].at]),
                                   Size(packs[entries[id].pack].records[entries[id].at]), entries[id].generation))
  }

  /** One record of the pack at hand: its address is indexed at its offset unless it already is. */
  lemma PartialStep(done: map<nat, Held>, p: nat, records: seq<Record>, n: nat, entries: map<RecordId, Entry>,
                    index: map<RecordId, Location>)
    requires n < |records| && p !in done && forall q | q in done :: q < p
    requires FirstCopies(Partial(done, p, records, n), entries)
    requires LocatesIn(Partial(done, p, records, n), entries, index)
    ensures var r := records[n];
      var packs := Partial(done, p, records, n + 1);
      if IdOf(r) in entries then FirstCopies(packs, entries) && LocatesIn(packs, entries, index)
      else
        && FirstCopies(packs, entries[IdOf(r) := Entry(p, n, 0)])
        && LocatesIn(packs, entries[IdOf(r) := Entry(p, n, 0)], index[IdOf(r) := Location(p, Length(records[..n]), Size(r), 0)])
    ensures Length(records[..n + 1]) == Length(records[..n]) + Size(records[n])
  {
    hide Total, FirstCopies, LocatesIn;
    var was := Partial(done, p, records, n);
    var next := was[p := was[p].(records := was[p].records + [records[n]])];
    assert records[..n + 1] == records[..n] + [records[n]];
    TotalAppend(records[..n], records[n]);
    assert forall q | q in was :: q <= p;
    FirstCopiesStep(was, entries, p, records[n]);
    LocatesGrows(was, entries, index, p, records[n]);
    assert Partial(done, p, records, n + 1) == next;
    assert |was[p].records| == n && was[p].records == records[..n];
  }

  lemma LocatesGrows(packs: map<nat, Held>, entries: map<RecordId, Entry>, index: map<RecordId, Location>, p: nat, r: Record)
    requires p in packs && LocatesIn(packs, entries, index)
    ensures var held := packs[p];
      var packs' := packs[p := held.(records := held.records + [r])];
      && LocatesIn(packs', entries, index)
      && (IdOf(r) !in entries ==>
          LocatesIn(packs', entries[IdOf(r) := Entry(p, |held.records|, 0)],
                    index[IdOf(r) := Location(p, Length(held.records), Size(r), 0)]))
  {
    hide Total, Length;
    var held := packs[p];
    var packs' := packs[p := held.(records := held.records + [r])];
    assert packs'[p].records[..|held.records|] == held.records;
    forall id | id in entries
      ensures Names(packs', id, entries[id])
      ensures packs'[entries[id].pack].records[..entries[id].at] == packs[entries[id].pack].records[..entries[id].at]
      ensures packs'[entries[id].pack].records[entries[id].at] == packs[entries[id].pack].records[entries[id].at]
    {
    }
  }

  method IndexPack(ghost done: map<nat, Held>, p: nat, records: seq<Record>, index: map<RecordId, Location>,
                   entries: map<RecordId, Entry>)
    returns (index': map<RecordId, Location>, entries': map<RecordId, Entry>)
    requires p !in done && (forall q | q in done :: q < p) && FirstCopies(done, entries) && LocatesIn(done, entries, index)
    ensures FirstCopies(done[p := Held(records, |records|)], entries')
    ensures LocatesIn(done[p := Held(records, |records|)], entries', index')
  {
    hide Total, Length;
    index', entries' := index, entries;
    var n, offset := 0, PACK_HEADER_LEN;
    PartialStart(done, p, records, entries, index);
    while n < |records|
      invariant 0 <= n <= |records| && offset == Length(records[..n])
      invariant FirstCopies(Partial(done, p, records, n), entries')
      invariant LocatesIn(Partial(done, p, records, n), entries', index')
    {
      hide FirstCopies, LocatesIn;
      var r := records[n];
      PartialStep(done, p, records, n, entries', index');
      SameKeys(Partial(done, p, records, n), entries', index');
      if IdOf(r) !in index' {
        index' := index'[IdOf(r) := Location(p, offset, Size(r), 0)];
        entries' := entries'[IdOf(r) := Entry(p, n, 0)];
      }
      n, offset := n + 1, offset + Size(r);
    }
    assert records[..n] == records;
  }

  lemma SameKeys(packs: map<nat, Held>, entries: map<RecordId, Entry>, index: map<RecordId, Location>)
    requires LocatesIn(packs, entries, index)
    ensures index.Keys == entries.Keys
  {
  }

  lemma PartialStart(done: map<nat, Held>, p: nat, records: seq<Record>, entries: map<RecordId, Entry>,
                     index: map<RecordId, Location>)
    requires p !in done && FirstCopies(done, entries) && LocatesIn(done, entries, index)
    ensures FirstCopies(Partial(done, p, records, 0), entries) && LocatesIn(Partial(done, p, records, 0), entries, index)
    ensures Length(records[..0]) == PACK_HEADER_LEN
  {
    var packs := Partial(done, p, records, 0);
    assert packs[p].records == [];
    assert forall id | id in entries :: packs[entries[id].pack] == done[entries[id].pack];
  }

  /** The first `n` listed packs, finished. */
  ghost predicate Finished(g: Integrity, c: Config, files: map<nat, Bytes>, active: nat, seqs: seq<nat>, n: nat,
                           done: map<nat, Held>, kept: map<nat, Bytes>)
    requires n <= |seqs|
  {
    && done.Keys == kept.Keys == (set p | p in seqs[..n])
    && (forall p | p in done :: p in files && Opens(g, c, files, active, p)
          && done[p].records == ScanOf(g, c, files, active, p).value.records && done[p].synced == |done[p].records|
          && var end := ScanOf(g, c, files, active, p).value.keptLen; end <= |files[p]| && kept[p] == files[p][..end])
  }

  lemma FinishedStep(g: Integrity, c: Config, files: map<nat, Bytes>, active: nat, seqs: seq<nat>, n: nat,
                     done: map<nat, Held>, kept: map<nat, Bytes>)
    requires Listing(files, seqs) && n < |seqs| && Finished(g, c, files, active, seqs, n, done, kept)
    requires Opens(g, c, files, active, seqs[n])
    ensures seqs[n] !in done && forall q | q in done :: q < seqs[n]
    ensures var scan := ScanOf(g, c, files, active, seqs[n]).value;
      scan.keptLen <= |files[seqs[n]]|
      && Finished(g, c, files, active, seqs, n + 1, done[seqs[n] := Held(scan.records, |scan.records|)],
                  kept[seqs[n] := files[seqs[n]][..scan.keptLen]])
  {
    hide Scanned;
    ScannedWithin(g, files[seqs[n]], c.lane, seqs[n], seqs[n] == active);
    assert seqs[..n + 1] == seqs[..n] + [seqs[n]];
  }

  /** `drop_headerless_newest` */
  method DropHeaderless(files: map<nat, Bytes>, seqs: seq<nat>) returns (n: nat, active: nat)
    requires Listing(files, seqs)
    ensures n <= |seqs| && IsNewest(files, active) && (n == 0 <==> active == 0) && (n > 0 ==> seqs[n - 1] == active)
  {
    n := |seqs|;
    while n > 0
      invariant n <= |seqs| && forall i | n <= i < |seqs| :: |files[seqs[i]]| < PACK_HEADER_LEN
    {
      if |files[seqs[n - 1]]| >= PACK_HEADER_LEN {
        active := seqs[n - 1];
        return;
      }
      n := n - 1;
    }
    active := 0;
  }

  /** `ChunkStore::open`: what is accepted, what is rebuilt and what is repaired. */
  method Recover(g: Integrity, c: Config, files: map<nat, Bytes>, seqs: seq<nat>)
    returns (result: Result<Recovered>, lane: Lane, newest: nat)
    requires Listing(files, seqs) && |c.stamp| == 8
    ensures IsNewest(files, newest)
    ensures result.Ok? <==> c.target > 0 && AllOpen(g, c, files, newest)
    ensures result.Ok? && newest > 0 ==> result.value.active == newest && Recovers(g, c, files, newest, lane)
    ensures result.Ok? && newest > 0 ==>
      Repairs(g, c, files, newest, result.value.files) && LocatesIn(lane.packs, lane.index, result.value.index)
    ensures result.Ok? && newest == 0 ==>
      result.value == Recovered(map[1 := PackHeader(g, c.lane, 1, c.stamp, c.target)], map[], 1) && lane == Fresh
  {
    hide Scanned, FirstCopies, LocatesIn, PackHeader, AllOpen, Recovers, Repairs, Finished, Opens, Listing;
    lane := Fresh;
    var n, active := DropHeaderless(files, seqs);
    newest := active;
    ListedUpTo(files, seqs, n, active);
    if c.target == 0 {
      return Invalid, lane, newest;
    }
    var i: nat := 0;
    var kept: map<nat, Bytes> := map[];
    var index: map<RecordId, Location> := map[];
    var done: map<nat, Held> := map[];
    var entries: map<RecordId, Entry> := map[];
    NothingIndexed();
    NothingFinished(g, c, files, active, seqs);
    while i < n
      invariant 0 <= i <= n && Finished(g, c, files, active, seqs, i, done, kept)
      invariant FirstCopies(done, entries) && LocatesIn(done, entries, index)
    {
      var p := seqs[i];
      Listed(files, seqs, n, active, i);
      OpensIff(g, c, files, active, p);
      if |files[p]| > c.target + PACK_SIZE_SLACK {
        return TooLarge, lane, newest;
      }
      var scan := ScanPack(g, files[p], c.lane, p, p == active);
      if !scan.Ok? {
        return Fail(scan), lane, newest;
      }
      ScannedWithin(g, files[p], c.lane, p, p == active);
      FinishedStep(g, c, files, active, seqs, i, done, kept);
      kept := kept[p := if scan.value.truncated > 0 then files[p][..scan.value.keptLen] else files[p]];
      assert files[p][..|files[p]|] == files[p];
      index, entries := IndexPack(done, p, scan.value.records, index, entries);
      done := done[p := Held(scan.value.records, |scan.value.records|)];
      i := i + 1;
    }
    if n == 0 {
      result := Ok(Recovered(map[1 := PackHeader(g, c.lane, 1, c.stamp, c.target)], map[], 1));
    } else {
      result := Ok(Recovered(kept, index, active));
      lane := Lane(done, active, entries, 1, 0, false);
    }
    FinishedRecovers(g, c, files, active, seqs, n, done, kept, entries);
  }

  lemma NothingFinished(g: Integrity, c: Config, files: map<nat, Bytes>, active: nat, seqs: seq<nat>)
    ensures Finished(g, c, files, active, seqs, 0, map[], map[])
  {
  }

  lemma Listed(files: map<nat, Bytes>, seqs: seq<nat>, n: nat, active: nat, i: nat)
    requires Listing(files, seqs) && n <= |seqs| && i < n && (n > 0 ==> seqs[n - 1] == active)
    ensures seqs[i] in files && 0 < seqs[i] <= active
  {
    assert seqs[i] in seqs;
  }

  lemma OpensIff(g: Integrity, c: Config, files: map<nat, Bytes>, active: nat, p: nat)
    requires p in files && p <= active
    ensures Opens(g, c, files, active, p) <==>
      |files[p]| <= c.target + PACK_SIZE_SLACK && Scanned(g, files[p], c.lane, p, p == active).Ok?
    ensures !Opens(g, c, files, active, p) ==> !AllOpen(g, c, files, active)
  {
    hide Scanned;
  }

  /** Once every listed pack is finished, the lane is rebuilt and the files repaired. */
  lemma FinishedRecovers(g: Integrity, c: Config, files: map<nat, Bytes>, active: nat, seqs: seq<nat>, n: nat,
                         done: map<nat, Held>, kept: map<nat, Bytes>, entries: map<RecordId, Entry>)
    requires n <= |seqs| && Finished(g, c, files, active, seqs, n, done, kept) && FirstCopies(done, entries)
    requires (set p | p in seqs[..n]) == (set p | p in files && p <= active)
    ensures AllOpen(g, c, files, active) && Repairs(g, c, files, active, kept)
    ensures Recovers(g, c, files, active, Lane(done, active, entries, 1, 0, false))
  {
    hide Scanned, FirstCopies;
    assert forall p | p in files && p <= active :: p in done;
  }

  lemma NothingIndexed()
    ensures FirstCopies(map[], map[]) && LocatesIn(map[], map[], map[])
  {
  }

  lemma ListedUpTo(files: map<nat, Bytes>, seqs: seq<nat>, n: nat, active: nat)
    requires Listing(files, seqs) && n <= |seqs| && (n == 0 <==> active == 0) && (n > 0 ==> seqs[n - 1] == active)
    ensures (set p | p in seqs[..n]) == (set p | p in files && p <= active)
  {
    forall p | p in files && p <= active
      ensures p in seqs[..n]
    {
      var i :| 0 <= i < |seqs| && seqs[i] == p;
      assert i < n;
    }
  }
}
