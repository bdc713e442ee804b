/**
 Incremental band checkpoints: 256 bands by the top byte of the partition hash,
 a dirty bitset, clean bands reused from the previous manifest and dirty bands
 rebuilt from the captured snapshot.
 */
module Bands {
  const BANDS: nat := 256
  const BAND_WIDTH: nat := 0x1_000000_00000000_00000000_00000000
  const HASH_LIMIT: nat := 0x1_00000000_00000000_00000000_00000000

  type Hash = h: nat | h < HASH_LIMIT

  /** A key with its 128-bit partition hash; `name` stands for the key bytes and orders like them. */
  datatype Key = Key(hash: Hash, name: nat)

  function BandOf(k: Key): (b: nat)
    ensures b < BANDS
  {
    k.hash / BAND_WIDTH
  }

  datatype BandRecord = BandRecord(key: Key, value: int)

  datatype Result<T> = Ok(value: T) | Err

  predicate Before(a: Key, b: Key) {
    a.hash < b.hash || (a.hash == b.hash && a.name < b.name)
  }

  predicate NotAfter(a: Key, b: Key) {
    a == b || Before(a, b)
  }

  // ----- The dirty bitset -----

  const DIRTY_WORDS: nat := 4
  const WORD_BITS: nat := 64

  /** `BandDirty`: one bit per band in four 64-bit words, here as the bits of each word. */
  class BandDirty {
    const words: array2<bool>

    ghost predicate Valid()
      reads this
    {
      words.Length0 == DIRTY_WORDS && words.Length1 == WORD_BITS
    }

    predicate IsDirty(band: nat)
      requires Valid()
      reads this, words
    {
      words[band % BANDS / WORD_BITS, band % BANDS % WORD_BITS]
    }

    /** The bands marked dirty. */
    ghost function Dirty(): set<nat>
      requires Valid()
      reads this, words
    {
      set band | 0 <= band < BANDS && IsDirty(band)
    }

    constructor ()
      ensures Valid() && fresh(words) && Dirty() == {}
    {
      words := new bool[DIRTY_WORDS, WORD_BITS]((i, j) => false);
    }

    /** `mark`: adds exactly the named band. */
    method Mark(band: nat)
      requires Valid()
      modifies words
      ensures Dirty() == old(Dirty()) + {band % BANDS}
    {
      var at := band % BANDS;
      words[at / WORD_BITS, at % WORD_BITS] := true;
      forall other: nat | other < BANDS
        ensures IsDirty(other) <==> other == at || old(IsDirty(other))
      {
        SameBit(other, at);
      }
    }

    /** The captured bits, as the set of dirty bands. */
    method Bits() returns (dirty: set<nat>)
      requires Valid()
      ensures dirty == Dirty()
    {
      dirty := {};
      for band := 0 to BANDS
        invariant dirty == set b | 0 <= b < band && IsDirty(b)
      {
        if IsDirty(band) {
          dirty := dirty + {band};
        }
      }
    }

    /** `clear`: no band is dirty any more. */
    method Clear()
      requires Valid()
      modifies words
      ensures Dirty() == {}
    {
      forall i, j | 0 <= i < DIRTY_WORDS && 0 <= j < WORD_BITS {
        words[i, j] := false;
      }
    }
  }

  /** Two bands share a bit only if they are the same band. */
  lemma SameBit(a: nat, b: nat)
    requires a < BANDS && b < BANDS
    ensures a % BANDS == a && b % BANDS == b && (a / WORD_BITS == b / WORD_BITS && a % WORD_BITS == b % WORD_BITS <==> a == b)
  {
    assert a == a / WORD_BITS * WORD_BITS + a % WORD_BITS && b == b / WORD_BITS * WORD_BITS + b % WORD_BITS;
  }

  // ----- One band -----

  predicate StrictlySorted(s: seq<BandRecord>) {
    forall i, j :: 0 <= i < j < |s| ==> Before(s[i].key, s[j].key)
  }

  predicate Sorted(s: seq<BandRecord>) {
    forall i, j :: 0 <= i < j < |s| ==> NotAfter(s[i].key, s[j].key)
  }

  function Insert(r: BandRecord, s: seq<BandRecord>): seq<BandRecord> {
    if s == [] || NotAfter(r.key, s[0].key) then [r] + s else [s[0]] + Insert(r, s[1..])
  }

  lemma {:induction false} InsertAdds(r: BandRecord, s: seq<BandRecord>)
    ensures multiset(Insert(r, s)) == multiset(s) + multiset{r}
    decreases |s|
  {
    if s != [] && !NotAfter(r.key, s[0].key) {
      InsertAdds(r, s[1..]);
      assert s == [s[0]] + s[1..];
    }
  }

  lemma {:induction false} InsertSorts(r: BandRecord, s: seq<BandRecord>)
    requires Sorted(s)
    ensures Sorted(Insert(r, s)) && multiset(Insert(r, s)) == multiset(s) + multiset{r}
    decreases |s|
  {
    InsertAdds(r, s);
    if s == [] {
    } else if NotAfter(r.key, s[0].key) {
      assert forall i :: 0 < i < |s| ==> NotAfter(s[0].key, s[i].key);
    } else {
      var rest := Insert(r, s[1..]);
      InsertSorts(r, s[1..]);
      forall i | 0 <= i < |rest| ensures NotAfter(s[0].key, rest[i].key) {
        assert rest[i] in multiset(rest);
        if rest[i] != r {
          assert rest[i] in s[1..];
        }
      }
    }
  }

  function SortRecords(s: seq<BandRecord>): seq<BandRecord> {
    if s == [] then [] else Insert(s[0], SortRecords(s[1..]))
  }

  lemma {:induction false} SortIsAPermutation(s: seq<BandRecord>)
    ensures Sorted(SortRecords(s)) && multiset(SortRecords(s)) == multiset(s)
    decreases |s|
  {
    if s != [] {
      SortIsAPermutation(s[1..]);
      InsertSorts(s[0], SortRecords(s[1..]));
      assert s == [s[0]] + s[1..];
    }
  }

  predicate RepeatsAKey(s: seq<BandRecord>) {
    exists i :: 0 <= i < |s| - 1 && s[i].key == s[i + 1].key
  }

  predicate DistinctKeys(s: seq<BandRecord>) {
    forall i, j :: 0 <= i < j < |s| ==> s[i].key != s[j].key
  }

  /** `build_band`: sorts by (hash, key) and refuses a repeated key. */
  function BuildBand(records: seq<BandRecord>): Result<seq<BandRecord>> {
    var s := SortRecords(records);
    if RepeatsAKey(s) then Err else Ok(s)
  }

  lemma SortedWithoutRepeats(s: seq<BandRecord>)
    requires Sorted(s) && !RepeatsAKey(s)
    ensures StrictlySorted(s)
  {
    forall i, j | 0 <= i < j < |s| ensures Before(s[i].key, s[j].key) {
      assert s[i].key != s[i + 1].key;
      assert NotAfter(s[i].key, s[i + 1].key) && (i + 1 == j || NotAfter(s[i + 1].key, s[j].key));
    }
  }

  /** Records with distinct keys are each a member once, and only they. */
  lemma DistinctByCount(s: seq<BandRecord>, t: seq<BandRecord>)
    requires multiset(s) == multiset(t) && DistinctKeys(s)
    ensures DistinctKeys(t)
  {
    if !DistinctKeys(t) {
      var i, j :| 0 <= i < j < |t| && t[i].key == t[j].key;
      assert t[i] in multiset(s) && t[j] in multiset(s);
      var a :| 0 <= a < |s| && s[a] == t[i];
      var b :| 0 <= b < |s| && s[b] == t[j];
      assert a == b;
      TwiceInSeq(t, i, j);
      OnceInSeq(s, a);
    }
  }

  lemma TwiceInSeq(t: seq<BandRecord>, i: nat, j: nat)
    requires i < j < |t| && t[i] == t[j]
    ensures multiset(t)[t[i]] >= 2
  {
    assert t == t[..i] + [t[i]] + t[i + 1..j] + [t[j]] + t[j + 1..];
  }

  lemma OnceInSeq(s: seq<BandRecord>, a: nat)
    requires a < |s| && DistinctKeys(s)
    ensures multiset(s)[s[a]] == 1
  {
    assert s == s[..a] + [s[a]] + s[a + 1..];
    assert s[a] !in multiset(s[..a]) && s[a] !in multiset(s[a + 1..]);
  }

  /** Building a band succeeds exactly on distinct keys, and then holds exactly the given records in strict order. */
  lemma BuildBandExact(records: seq<BandRecord>)
    ensures BuildBand(records).Ok? <==> DistinctKeys(records)
    ensures BuildBand(records).Ok? ==>
      StrictlySorted(BuildBand(records).value) && multiset(BuildBand(records).value) == multiset(records)
  {
    var s := SortRecords(records);
    SortIsAPermutation(records);
    if RepeatsAKey(s) {
      if DistinctKeys(records) {
        DistinctByCount(records, s);
      }
    } else {
      SortedWithoutRepeats(s);
      assert DistinctKeys(s);
      DistinctByCount(s, records);
    }
  }

  /** `load_band`: walks the stored records and refuses any that is not strictly after the one before. */
  method LoadBand(stored: seq<BandRecord>) returns (result: Result<seq<BandRecord>>)
    ensures result.Ok? <==> StrictlySorted(stored)
    ensures result.Ok? ==> result.value == stored
  {
    var records := [];
    for i := 0 to |stored|
      invariant records == stored[..i] && StrictlySorted(records)
    {
      if i > 0 && !Before(stored[i - 1].key, stored[i].key) {
        return Err;
      }
      assert forall j :: 0 <= j < i ==> Before(stored[j].key, stored[i].key);
      records := records + [stored[i]];
    }
    assert records == stored;
    result := Ok(records);
  }

  // ----- All bands of a tablet -----

  type BandFiles = b: seq<seq<BandRecord>> | |b| == BANDS witness seq(BANDS, i => [])

  /** Every band file holds only its own keys, in strict order. */
  ghost predicate WellPlaced(bands: BandFiles) {
    forall b :: 0 <= b < BANDS ==> StrictlySorted(bands[b]) && forall r <- bands[b] :: BandOf(r.key) == b
  }

  ghost function AllRecords(bands: BandFiles): set<BandRecord> {
    set b, i | 0 <= b < BANDS && 0 <= i < |bands[b]| :: bands[b][i]
  }

  ghost function Members(s: seq<BandRecord>): set<BandRecord> {
    set i | 0 <= i < |s| :: s[i]
  }

  lemma OwnBandOnly(bands: BandFiles, r: BandRecord)
    requires WellPlaced(bands)
    ensures r in AllRecords(bands) <==> r in bands[BandOf(r.key)]
  {
  }

  /** No key appears twice, in one band or across bands. */
  lemma EachKeyOnce(bands: BandFiles, r: BandRecord, s: BandRecord)
    requires WellPlaced(bands) && r in AllRecords(bands) && s in AllRecords(bands) && r.key == s.key
    ensures r == s
  {
    OwnBandOnly(bands, r);
    OwnBandOnly(bands, s);
  }

  /** The records of one band, in order. */
  function InBand(records: seq<BandRecord>, b: nat): seq<BandRecord> {
    if records == [] then []
    else (if BandOf(records[0].key) == b then [records[0]] else []) + InBand(records[1..], b)
  }

  lemma {:induction false} InBandMember(records: seq<BandRecord>, b: nat, r: BandRecord)
    ensures r in InBand(records, b) <==> r in records && BandOf(r.key) == b
    decreases |records|
  {
    if records != [] {
      InBandMember(records[1..], b, r);
      assert records == [records[0]] + records[1..];
    }
  }

  lemma {:induction false} InBandAppend(records: seq<BandRecord>, r: BandRecord, b: nat)
    ensures InBand(records + [r], b) == InBand(records, b) + if BandOf(r.key) == b then [r] else []
    decreases |records|
  {
    if records != [] {
      assert (records + [r])[1..] == records[1..] + [r];
      InBandAppend(records[1..], r, b);
    }
  }

  /** Which bands are taken over from the previous checkpoint: the clean ones, if there is one. */
  predicate Reuses(base: Result<BandFiles>, dirty: set<nat>, b: nat) {
    base.Ok? && b !in dirty
  }

  /** One band of a built checkpoint: the reused file, or the freshly built band. */
  function BandFile(snapshot: seq<BandRecord>, dirty: set<nat>, base: Result<BandFiles>, b: nat): Result<seq<BandRecord>>
    requires b < BANDS
  {
    if Reuses(base, dirty, b) then Ok(base.value[b]) else BuildBand(InBand(snapshot, b))
  }

  /** What `build_tablet` returns, as a relation. */
  ghost predicate BuiltFrom(snapshot: seq<BandRecord>, dirty: set<nat>, base: Result<BandFiles>, built: BandFiles) {
    forall b :: 0 <= b < BANDS ==> BandFile(snapshot, dirty, base, b) == Ok(built[b])
  }

  /** Each band's list is its records, in order; bands without records may have none. */
  ghost predicate Grouped(grouped: map<nat, seq<BandRecord>>, records: seq<BandRecord>) {
    forall b: nat :: (if b in grouped then grouped[b] else []) == InBand(records, b)
  }

  lemma NothingGrouped()
    ensures Grouped(map[], [])
  {
  }

  lemma GroupedMore(grouped: map<nat, seq<BandRecord>>, records: seq<BandRecord>, r: BandRecord)
    requires Grouped(grouped, records)
    ensures var b := BandOf(r.key);
      Grouped(grouped[b := (if b in grouped then grouped[b] else []) + [r]], records + [r])
  {
    hide InBand, BandOf;
    forall b: nat
      ensures InBand(records + [r], b) == InBand(records, b) + if BandOf(r.key) == b then [r] else []
    {
      InBandAppend(records, r, b);
    }
  }

  /** The grouping loop of `build_tablet`. */
  method GroupByBand(snapshot: seq<BandRecord>) returns (grouped: map<nat, seq<BandRecord>>)
    ensures Grouped(grouped, snapshot)
  {
    hide Grouped, InBand, BandOf;
    grouped := map[];
    NothingGrouped();
    assert snapshot[..0] == [];
    for i := 0 to |snapshot|
      invariant Grouped(grouped, snapshot[..i])
    {
      var r := snapshot[i];
      var band := BandOf(r.key);
      GroupedMore(grouped, snapshot[..i], r);
      assert snapshot[..i + 1] == snapshot[..i] + [r];
      grouped := grouped[band := (if band in grouped then grouped[band] else []) + [r]];
    }
    assert snapshot[..|snapshot|] == snapshot;
  }

  /**
   `build_tablet`: groups the snapshot by band, then walks the 256 bands, reusing a
   clean band of the previous checkpoint and building every other one.
   */
  method BuildTablet(snapshot: seq<BandRecord>, dirty: set<nat>, base: Result<BandFiles>)
    returns (result: Result<BandFiles>)
    ensures result.Ok? ==> BuiltFrom(snapshot, dirty, base, result.value)
    ensures result.Err? ==> exists b :: 0 <= b < BANDS && BandFile(snapshot, dirty, base, b).Err?
  {
    hide BuildBand, InBand;
    var grouped := GroupByBand(snapshot);
    var bands: seq<seq<BandRecord>> := [];
    for band := 0 to BANDS
      invariant |bands| == band
      invariant forall b :: 0 <= b < band ==> BandFile(snapshot, dirty, base, b) == Ok(bands[b])
    {
      var file: Result<seq<BandRecord>>;
      if base.Ok? && band !in dirty {
        file := Ok(base.value[band]);
      } else {
        file := BuildBand(if band in grouped then grouped[band] else []);
      }
      assert file == BandFile(snapshot, dirty, base, band);
      if file.Err? {
        return Err;
      }
      bands := bands + [file.value];
    }
    result := Ok(bands);
  }

  lemma BuiltIsWellPlaced(snapshot: seq<BandRecord>, dirty: set<nat>, base: Result<BandFiles>, built: BandFiles)
    requires BuiltFrom(snapshot, dirty, base, built) && (base.Ok? ==> WellPlaced(base.value))
    ensures WellPlaced(built)
  {
    forall b | 0 <= b < BANDS
      ensures StrictlySorted(built[b]) && forall r <- built[b] :: BandOf(r.key) == b
    {
      if !Reuses(base, dirty, b) {
        BuildBandExact(InBand(snapshot, b));
        forall r <- built[b] ensures BandOf(r.key) == b {
          assert r in multiset(InBand(snapshot, b));
          InBandMember(snapshot, b, r);
        }
      }
    }
  }

  lemma BuiltHolds(snapshot: seq<BandRecord>, dirty: set<nat>, base: Result<BandFiles>, built: BandFiles, r: BandRecord)
    requires BuiltFrom(snapshot, dirty, base, built) && (base.Ok? ==> WellPlaced(base.value))
    ensures r in AllRecords(built) <==>
      if Reuses(base, dirty, BandOf(r.key)) then r in AllRecords(base.value) else r in Members(snapshot)
  {
    var b := BandOf(r.key);
    BuiltIsWellPlaced(snapshot, dirty, base, built);
    OwnBandOnly(built, r);
    if Reuses(base, dirty, b) {
      OwnBandOnly(base.value, r);
    } else {
      BuildBandExact(InBand(snapshot, b));
      assert r in built[b] <==> r in multiset(built[b]);
      assert r in InBand(snapshot, b) <==> r in multiset(InBand(snapshot, b));
      InBandMember(snapshot, b, r);
    }
  }

  /**
   An incremental checkpoint holds exactly the snapshot if and only if every
   record that differs from the previous checkpoint lies in a dirty band.
   */
  lemma IncrementalExactIff(snapshot: seq<BandRecord>, dirty: set<nat>, base: BandFiles, built: BandFiles)
    requires WellPlaced(base) && BuiltFrom(snapshot, dirty, Ok(base), built)
    ensures AllRecords(built) == Members(snapshot) <==>
      forall r :: (r in AllRecords(base)) != (r in Members(snapshot)) ==> BandOf(r.key) in dirty
  {
    forall r ensures r in AllRecords(built) <==>
      if BandOf(r.key) in dirty then r in Members(snapshot) else r in AllRecords(base)
    {
      BuiltHolds(snapshot, dirty, Ok(base), built, r);
    }
  }

  /** A first checkpoint holds exactly the snapshot, whatever the dirty bits say. */
  lemma FirstIsExact(snapshot: seq<BandRecord>, dirty: set<nat>, built: BandFiles)
    requires BuiltFrom(snapshot, dirty, Err, built)
    ensures AllRecords(built) == Members(snapshot)
  {
    forall r ensures r in AllRecords(built) <==> r in Members(snapshot) {
      BuiltHolds(snapshot, dirty, Err, built, r);
    }
  }
}
