/**
 Chunk manifests: splitting a value, the canonical bytes of its chunk list, and reading both
 back.
 */
module Manifest {
  import opened Options
  import opened LittleEndian

  const MANIFEST_MAGIC: nat := 0x4843_564B
  const MANIFEST_VERSION: nat := 1
  const CHUNKING_V1: nat := 1
  const HEADER_LEN: nat := 38
  const ENTRY_LEN: nat := 40
  const ID_LEN: nat := 32
  const MAX_CHUNKS: nat := 65_535
  const U32_MAX: nat := 0xFFFF_FFFF
  const U64: nat := 0x1_0000_0000_0000_0000

  type Bytes = seq<byte>

  datatype Entry = Entry(id: Bytes, len: nat)

  /** One codec and one chunking version are supported, so neither is kept. */
  datatype Manifest = Manifest(domain: nat, totalLen: nat, chunkSize: nat, entries: seq<Entry>)

  // ----- Splitting -----

  function SumOf(lens: seq<nat>): nat {
    if lens == [] then 0 else SumOf(lens[..|lens| - 1]) + lens[|lens| - 1]
  }

  /** Full pieces, then a nonzero rest that is no longer than one. */
  predicate SplitOf(lens: seq<nat>, total: nat, size: nat) {
    && SumOf(lens) == total && (forall i | 0 <= i < |lens| :: 0 < lens[i] <= size)
    && (forall i | 0 <= i < |lens| - 1 :: lens[i] == size)
  }

  lemma {:induction false} SumOfFull(lens: seq<nat>, size: nat)
    requires forall i | 0 <= i < |lens| :: lens[i] == size
    ensures SumOf(lens) == |lens| * size
    decreases |lens|
  {
    if lens != [] {
      SumOfFull(lens[..|lens| - 1], size);
      assert |lens| * size == (|lens| - 1) * size + size;
    }
  }

  lemma SumOfAppend(lens: seq<nat>, last: nat)
    ensures SumOf(lens + [last]) == SumOf(lens) + last
  {
    assert (lens + [last])[..|lens|] == lens;
  }

  /** `split_lengths` */
  method SplitLengths(total: nat, size: nat) returns (lens: seq<nat>)
    ensures size > 0 ==> SplitOf(lens, total, size)
    ensures size == 0 ==> lens == []
  {
    lens := [];
    if size == 0 || total == 0 {
      return;
    }
    var full, rest := total / size, total % size;
    assert total == full * size + rest;
    var i := 0;
    while i < full
      invariant 0 <= i <= full && |lens| == i && forall j | 0 <= j < i :: lens[j] == size
    {
      lens := lens + [size];
      i := i + 1;
    }
    hide SumOf;
    SumOfFull(lens, size);
    if rest > 0 {
      SumOfAppend(lens, rest);
      lens := lens + [rest];
    }
  }

  /** There is only one way to split. */
  lemma {:induction false} SplitIsUnique(a: seq<nat>, b: seq<nat>, total: nat, size: nat)
    requires SplitOf(a, total, size) && SplitOf(b, total, size)
    ensures a == b
  {
    if a == [] || b == [] {
      SumPositive(a);
      SumPositive(b);
    } else {
      var m, n := |a| - 1, |b| - 1;
      SumOfFull(a[..m], size);
      SumOfFull(b[..n], size);
      SameCount(m, a[m], n, b[n], size);
    }
  }

  lemma SumPositive(lens: seq<nat>)
    requires forall i | 0 <= i < |lens| :: 0 < lens[i]
    ensures SumOf(lens) == 0 <==> lens == []
  {
  }

  lemma SameCount(m: nat, x: nat, n: nat, y: nat, size: nat)
    requires 0 < x <= size && 0 < y <= size && m * size + x == n * size + y
    ensures m == n && x == y
  {
    if m < n {
      MulStep(m, n, size);
    } else if n < m {
      MulStep(n, m, size);
    }
  }

  lemma {:induction false} MulStep(m: nat, n: nat, size: nat)
    requires m < n
    ensures m * size + size <= n * size
    decreases n
  {
    assert n * size == (n - 1) * size + size;
    if m < n - 1 {
      MulStep(m, n - 1, size);
    }
  }

  // ----- Validation -----

  function LensOf(entries: seq<Entry>): (lens: seq<nat>)
    ensures |lens| == |entries|
  {
    seq(|entries|, i requires 0 <= i < |entries| => entries[i].len)
  }

  predicate ValidId(id: Bytes) {
    |id| == ID_LEN && exists i | 0 <= i < ID_LEN :: id[i] != 0
  }

  /** What the validator insists on. It leaves the last entry's length unbounded. */
  predicate ValidEntries(size: nat, total: nat, entries: seq<Entry>) {
    && (forall i | 0 <= i < |entries| :: entries[i].len > 0 && ValidId(entries[i].id))
    && (forall i | 0 <= i < |entries| - 1 :: entries[i].len == size)
    && SumOf(LensOf(entries)) == total
  }

  /** The first `i` entries pass their own checks and sum to `sum`. */
  predicate PassedSoFar(size: nat, entries: seq<Entry>, i: nat, sum: nat)
    requires i <= |entries|
  {
    && (forall j | 0 <= j < i :: entries[j].len > 0 && ValidId(entries[j].id))
    && (forall j | 0 <= j < i :: j < |entries| - 1 ==> entries[j].len == size)
    && sum == SumOf(LensOf(entries)[..i])
  }

  lemma PassesOne(size: nat, total: nat, entries: seq<Entry>, i: nat, sum: nat)
    requires i < |entries| && PassedSoFar(size, entries, i, sum)
    ensures var e := entries[i];
      var fine := e.len > 0 && ValidId(e.id) && (i + 1 == |entries| || e.len == size);
      && (fine ==> PassedSoFar(size, entries, i + 1, sum + e.len))
      && (!fine || sum + e.len > total ==> !ValidEntries(size, total, entries))
  {
    hide ValidId, SumOf;
    var lens := LensOf(entries);
    assert lens[..i + 1] == lens[..i] + [entries[i].len];
    SumOfAppend(lens[..i], entries[i].len);
    SumPrefix(lens, i + 1);
  }

  /** `validate_entries`, with its overflow check. */
  method ValidateEntries(size: nat, total: nat, entries: seq<Entry>) returns (ok: bool)
    requires total < U64
    ensures ok <==> ValidEntries(size, total, entries)
  {
    SumOfNone();
    assert LensOf(entries)[..0] == [];
    if entries == [] {
      assert LensOf(entries) == [];
      return total == 0;
    }
    var sum, i := 0, 0;
    while i < |entries|
      invariant 0 <= i <= |entries| && sum >= 0 && PassedSoFar(size, entries, i, sum)
    {
      hide PassedSoFar, ValidEntries;
      var entry := entries[i];
      PassesOne(size, total, entries, i, sum);
      if entry.len == 0 || !ValidId(entry.id) || (i + 1 != |entries| && entry.len != size) {
        return false;
      }
      if sum + entry.len >= U64 {
        return false;
      }
      sum, i := sum + entry.len, i + 1;
    }
    assert LensOf(entries)[..i] == LensOf(entries);
    ok := sum == total;
  }

  lemma SumOfNone()
    ensures SumOf([]) == 0
  {
  }

  lemma {:induction false} SumPrefix(lens: seq<nat>, k: nat)
    requires k <= |lens|
    ensures SumOf(lens[..k]) <= SumOf(lens)
    decreases |lens| - k
  {
    if k == |lens| {
      assert lens[..k] == lens;
    } else {
      SumPrefix(lens, k + 1);
      assert lens[..k + 1][..k] == lens[..k];
    }
  }

  /** A valid entry list is a split of its value exactly when its last entry is no longer than a chunk. */
  lemma ValidIsSplitIff(size: nat, total: nat, entries: seq<Entry>)
    requires ValidEntries(size, total, entries)
    ensures SplitOf(LensOf(entries), total, size) <==> entries == [] || entries[|entries| - 1].len <= size
  {
    var lens := LensOf(entries);
    assert forall i | 0 <= i < |lens| :: lens[i] == entries[i].len;
    if entries != [] {
      assert lens[|lens| - 1] == entries[|entries| - 1].len;
    }
  }

  /** A single entry of two bytes under a chunk size of one is valid, and is no split of anything. */
  lemma LongLastEntryIsValid(id: Bytes)
    requires ValidId(id)
    ensures ValidEntries(1, 2, [Entry(id, 2)]) && !SplitOf(LensOf([Entry(id, 2)]), 2, 1)
  {
    var lens := LensOf([Entry(id, 2)]);
    assert lens == [2] && lens[..0] == [];
  }

  // ----- Canonical bytes -----

  function EncodeEntries(entries: seq<Entry>): (b: Bytes)
    requires forall i | 0 <= i < |entries| :: |entries[i].id| == ID_LEN
    ensures |b| == ENTRY_LEN * |entries|
  {
    if entries == [] then [] else entries[0].id + Le(entries[0].len, 8) + EncodeEntries(entries[1..])
  }

  function Header(m: Manifest): (h: Bytes)
    ensures |h| == HEADER_LEN
  {
    Le(MANIFEST_MAGIC, 4) + Le(MANIFEST_VERSION, 2) + Le(CHUNKING_V1, 2) + [0] + [0] + Le(m.domain, 8)
    + Le(m.totalLen, 8) + Le(m.chunkSize, 8) + Le(|m.entries|, 4)
  }

  /** `encode_canonical` */
  function Canonical(m: Manifest): (b: Bytes)
    requires forall i | 0 <= i < |m.entries| :: |m.entries[i].id| == ID_LEN
    ensures |b| == HEADER_LEN + ENTRY_LEN * |m.entries|
  {
    Header(m) + EncodeEntries(m.entries)
  }

  predicate Fits(m: Manifest) {
    && m.domain < U64 && m.totalLen < U64 && |m.entries| <= MAX_CHUNKS && 0 < m.chunkSize <= U32_MAX
    && (forall i | 0 <= i < |m.entries| :: |m.entries[i].id| == ID_LEN && m.entries[i].len < U64)
  }

  predicate Valid(m: Manifest) {
    Fits(m) && ValidEntries(m.chunkSize, m.totalLen, m.entries)
  }

  function DecodeEntries(b: Bytes, count: nat): seq<Entry>
    requires |b| == ENTRY_LEN * count
  {
    if count == 0 then []
    else [Entry(b[..ID_LEN], FromLe(b[ID_LEN..ENTRY_LEN]))] + DecodeEntries(b[ENTRY_LEN..], count - 1)
  }

  function Fields(h: Bytes): Manifest
    requires |h| == HEADER_LEN
  {
    Manifest(FromLe(h[10..18]), FromLe(h[18..26]), FromLe(h[26..34]), [])
  }

  predicate GoodHeader(h: Bytes)
    requires |h| == HEADER_LEN
  {
    && FromLe(h[0..4]) == MANIFEST_MAGIC && FromLe(h[4..6]) == MANIFEST_VERSION && FromLe(h[6..8]) == CHUNKING_V1
    && h[8] == 0 && h[9] == 0 && 0 < FromLe(h[26..34]) <= U32_MAX && FromLe(h[34..38]) <= MAX_CHUNKS
  }

  /** `decode_manifest` as a whole. */
  function Decoded(b: Bytes): Option<Manifest> {
    if |b| < HEADER_LEN || !GoodHeader(b[..HEADER_LEN]) then None
    else
      var count := FromLe(b[34..38]);
      if |b| != HEADER_LEN + ENTRY_LEN * count then None
      else
        var m := Fields(b[..HEADER_LEN]).(entries := DecodeEntries(b[HEADER_LEN..], count));
        if ValidEntries(m.chunkSize, m.totalLen, m.entries) then Some(m) else None
  }

  lemma {:induction false} LeOfFromLe(s: Bytes)
    ensures FromLe(s) < Pow256(|s|) && Le(FromLe(s), |s|) == s
    decreases |s|
  {
    if s != [] {
      LeOfFromLe(s[1..]);
      var rest := FromLe(s[1..]);
      assert FromLe(s) == s[0] + 256 * rest;
      Digits(s[0], rest);
      assert s == [s[0]] + s[1..];
    }
  }

  lemma Digits(d: nat, rest: nat)
    requires d < 256
    ensures (d + 256 * rest) % 256 == d && (d + 256 * rest) / 256 == rest
  {
  }

  lemma {:induction false} EntriesRoundTrip(entries: seq<Entry>)
    requires forall i | 0 <= i < |entries| :: |entries[i].id| == ID_LEN && entries[i].len < U64
    ensures DecodeEntries(EncodeEntries(entries), |entries|) == entries
    decreases |entries|
  {
    hide Le, FromLe;
    if entries != [] {
      EntriesRoundTrip(entries[1..]);
      Widths();
      LeRoundTrip(entries[0].len, 8);
      EntryParts(entries[0].id, Le(entries[0].len, 8), EncodeEntries(entries[1..]));
      assert entries == [entries[0]] + entries[1..];
    }
  }

  lemma EntryParts(id: Bytes, len: Bytes, rest: Bytes)
    requires |id| == ID_LEN && |len| == 8
    ensures var b := id + len + rest; b[..ID_LEN] == id && b[ID_LEN..ENTRY_LEN] == len && b[ENTRY_LEN..] == rest
  {
  }

  lemma {:induction false} EntriesAreCanonical(b: Bytes, count: nat)
    requires |b| == ENTRY_LEN * count
    ensures var entries := DecodeEntries(b, count);
      && |entries| == count && (forall i | 0 <= i < count :: |entries[i].id| == ID_LEN && entries[i].len < U64)
      && EncodeEntries(entries) == b
    decreases count
  {
    hide Le, FromLe;
    if count > 0 {
      EntriesAreCanonical(b[ENTRY_LEN..], count - 1);
      LeOfFromLe(b[ID_LEN..ENTRY_LEN]);
      Widths();
      var entries, rest := DecodeEntries(b, count), DecodeEntries(b[ENTRY_LEN..], count - 1);
      assert entries[1..] == rest;
      assert b == b[..ID_LEN] + b[ID_LEN..ENTRY_LEN] + b[ENTRY_LEN..];
    }
  }

  lemma HeaderParts(a: Bytes, b: Bytes, c: Bytes, d: Bytes, e: Bytes, f: Bytes, g: Bytes, h: Bytes, i: Bytes)
    requires |a| == 4 && |b| == 2 && |c| == 2 && |d| == 1 && |e| == 1 && |f| == 8 && |g| == 8 && |h| == 8 && |i| == 4
    ensures var s := a + b + c + d + e + f + g + h + i;
      && s[0..4] == a && s[4..6] == b && s[6..8] == c && s[8] == d[0] && s[9] == e[0]
      && s[10..18] == f && s[18..26] == g && s[26..34] == h && s[34..38] == i
  {
  }

  lemma HeaderWhole(s: Bytes)
    requires |s| == HEADER_LEN
    ensures s == s[0..4] + s[4..6] + s[6..8] + [s[8]] + [s[9]] + s[10..18] + s[18..26] + s[26..34] + s[34..38]
  {
  }

  lemma HeaderRoundTrip(m: Manifest)
    requires Fits(m)
    ensures GoodHeader(Header(m)) && Fields(Header(m)) == m.(entries := []) && FromLe(Header(m)[34..38]) == |m.entries|
  {
    hide Le, FromLe, Pow256;
    Widths();
    LeRoundTrip(MANIFEST_MAGIC, 4);
    LeRoundTrip(MANIFEST_VERSION, 2);
    LeRoundTrip(CHUNKING_V1, 2);
    LeRoundTrip(m.domain, 8);
    LeRoundTrip(m.totalLen, 8);
    LeRoundTrip(m.chunkSize, 8);
    LeRoundTrip(|m.entries|, 4);
    HeaderParts(Le(MANIFEST_MAGIC, 4), Le(MANIFEST_VERSION, 2), Le(CHUNKING_V1, 2), [0], [0], Le(m.domain, 8),
                Le(m.totalLen, 8), Le(m.chunkSize, 8), Le(|m.entries|, 4));
  }

  lemma HeaderIsCanonical(h: Bytes, m: Manifest)
    requires |h| == HEADER_LEN && GoodHeader(h) && m.(entries := []) == Fields(h) && |m.entries| == FromLe(h[34..38])
    ensures Header(m) == h && m.domain < U64 && m.totalLen < U64
  {
    hide Le, FromLe, Pow256;
    Widths();
    LeOfFromLe(h[0..4]);
    LeOfFromLe(h[4..6]);
    LeOfFromLe(h[6..8]);
    LeOfFromLe(h[10..18]);
    LeOfFromLe(h[18..26]);
    LeOfFromLe(h[26..34]);
    LeOfFromLe(h[34..38]);
    HeaderWhole(h);
  }

  /** Every valid manifest is decoded from its own canonical bytes. */
  lemma DecodesCanonical(m: Manifest)
    requires Valid(m)
    ensures Decoded(Canonical(m)) == Some(m)
  {
    hide Le, FromLe, Header, GoodHeader, Fields, EncodeEntries, DecodeEntries, ValidEntries;
    var b := Canonical(m);
    HeaderRoundTrip(m);
    EntriesRoundTrip(m.entries);
    assert b[..HEADER_LEN] == Header(m) && b[HEADER_LEN..] == EncodeEntries(m.entries);
    assert b[34..38] == b[..HEADER_LEN][34..38];
  }

  /** And nothing else decodes: accepted bytes are the canonical bytes of a valid manifest. */
  lemma DecodedIsCanonical(b: Bytes)
    requires Decoded(b).Some?
    ensures Valid(Decoded(b).value) && Canonical(Decoded(b).value) == b
  {
    hide Le, FromLe, Header, EncodeEntries, DecodeEntries, ValidEntries;
    var m, h := Decoded(b).value, b[..HEADER_LEN];
    assert h[34..38] == b[34..38];
    EntriesAreCanonical(b[HEADER_LEN..], FromLe(b[34..38]));
    HeaderIsCanonical(h, m);
    assert h[26..34] == b[26..34];
    assert b == b[..HEADER_LEN] + b[HEADER_LEN..];
  }

  lemma {:induction false} EncodeMore(entries: seq<Entry>, e: Entry)
    requires |e.id| == ID_LEN && forall i | 0 <= i < |entries| :: |entries[i].id| == ID_LEN
    ensures EncodeEntries(entries + [e]) == EncodeEntries(entries) + (e.id + Le(e.len, 8))
    decreases |entries|
  {
    hide Le;
    if entries == [] {
      assert entries + [e] == [e] && [e][1..] == [];
    } else {
      assert (entries + [e])[1..] == entries[1..] + [e];
      EncodeMore(entries[1..], e);
    }
  }

  /** `encode_canonical`: the header, then entry by entry. */
  method EncodeCanonical(m: Manifest) returns (out: Bytes)
    requires forall i | 0 <= i < |m.entries| :: |m.entries[i].id| == ID_LEN
    ensures out == Canonical(m)
  {
    hide Le, Header, EncodeEntries;
    out := Header(m);
    var i := 0;
    NoEntries();
    assert m.entries[..0] == [] && out + [] == out;
    while i < |m.entries|
      invariant 0 <= i <= |m.entries| && out == Header(m) + EncodeEntries(m.entries[..i])
    {
      assert m.entries[..i + 1] == m.entries[..i] + [m.entries[i]];
      EncodeMore(m.entries[..i], m.entries[i]);
      out := out + (m.entries[i].id + Le(m.entries[i].len, 8));
      i := i + 1;
    }
    assert m.entries[..i] == m.entries;
  }

  lemma NoEntries()
    ensures EncodeEntries([]) == []
  {
  }

  lemma {:induction false} DecodeMore(b: Bytes, n: nat)
    requires |b| == ENTRY_LEN * (n + 1)
    ensures var last := b[ENTRY_LEN * n..];
      DecodeEntries(b, n + 1)
      == DecodeEntries(b[..ENTRY_LEN * n], n) + [Entry(last[..ID_LEN], FromLe(last[ID_LEN..ENTRY_LEN]))]
    decreases n
  {
    hide FromLe;
    if n > 0 {
      var rest := b[ENTRY_LEN..];
      DecodeMore(rest, n - 1);
      assert rest[..ENTRY_LEN * (n - 1)] == b[..ENTRY_LEN * n][ENTRY_LEN..];
      assert rest[ENTRY_LEN * (n - 1)..] == b[ENTRY_LEN * n..];
      assert b[..ENTRY_LEN * n][..ID_LEN] == b[..ID_LEN] && b[..ENTRY_LEN * n][ID_LEN..ENTRY_LEN] == b[ID_LEN..ENTRY_LEN];
    } else {
      assert b[0..] == b && b[ENTRY_LEN..] == [];
    }
  }

  /** `decode_manifest`: a cursor over the entries, refused when they fall short or bytes are left. */
  method DecodeManifest(b: Bytes) returns (result: Option<Manifest>)
    ensures result == Decoded(b)
  {
    hide FromLe, DecodeEntries, ValidEntries, Pow256;
    if |b| < HEADER_LEN || !GoodHeader(b[..HEADER_LEN]) {
      return None;
    }
    assert b[..HEADER_LEN][34..38] == b[34..38];
    var count := FromLe(b[34..38]);
    var body := b[HEADER_LEN..];
    var at, i, entries := 0, 0, [];
    NothingDecoded();
    assert body[..0] == [];
    while i < count
      invariant 0 <= i <= count && at == ENTRY_LEN * i && at <= |body| && entries == DecodeEntries(body[..at], i)
    {
      if |body| < at + ENTRY_LEN {
        return None;
      }
      var next := body[..at + ENTRY_LEN];
      DecodeMore(next, i);
      assert next[..at] == body[..at] && next[at..] == body[at..at + ENTRY_LEN];
      var raw := body[at..at + ENTRY_LEN];
      entries := entries + [Entry(raw[..ID_LEN], FromLe(raw[ID_LEN..ENTRY_LEN]))];
      at, i := at + ENTRY_LEN, i + 1;
    }
    if at != |body| {
      return None;
    }
    assert body[..at] == body;
    var m := Fields(b[..HEADER_LEN]).(entries := entries);
    FieldWidths(b[..HEADER_LEN]);
    var ok := ValidateEntries(m.chunkSize, m.totalLen, m.entries);
    result := if ok then Some(m) else None;
  }

  lemma NothingDecoded()
    ensures DecodeEntries([], 0) == []
  {
  }

  lemma FieldWidths(h: Bytes)
    requires |h| == HEADER_LEN
    ensures Fields(h).totalLen < U64
  {
    hide FromLe, Le;
    LeOfFromLe(h[18..26]);
    Widths();
  }

  // ----- A chunked value, there and back -----

  /** The pieces a value is cut into. */
  function Pieces(value: Bytes, lens: seq<nat>): (p: seq<Bytes>)
    requires SumOf(lens) == |value|
    ensures |p| == |lens|
    decreases |lens|
  {
    if lens == [] then []
    else
      var cut := |value| - lens[|lens| - 1];
      Pieces(value[..cut], lens[..|lens| - 1]) + [value[cut..]]
  }

  function Joined(pieces: seq<Bytes>): Bytes {
    if pieces == [] then [] else Joined(pieces[..|pieces| - 1]) + pieces[|pieces| - 1]
  }

  lemma {:induction false} PiecesJoin(value: Bytes, lens: seq<nat>)
    requires SumOf(lens) == |value|
    ensures Joined(Pieces(value, lens)) == value
    ensures forall i | 0 <= i < |lens| :: |Pieces(value, lens)[i]| == lens[i]
    decreases |lens|
  {
    if lens != [] {
      var n := |lens| - 1;
      var cut := |value| - lens[n];
      var before, all := Pieces(value[..cut], lens[..n]), Pieces(value, lens);
      PiecesJoin(value[..cut], lens[..n]);
      assert all == before + [value[cut..]] && all[..n] == before && all[n] == value[cut..];
      assert Joined(all) == Joined(before) + value[cut..];
      assert value == value[..cut] + value[cut..];
      assert forall i | 0 <= i < n :: all[i] == before[i] && lens[..n][i] == lens[i];
    }
  }

  /** The entries of a value's pieces under a content address. */
  function EntriesFor(pieces: seq<Bytes>, address: Bytes -> Bytes): seq<Entry> {
    seq(|pieces|, i requires 0 <= i < |pieces| => Entry(address(pieces[i]), |pieces[i]|))
  }

  /**
   Any value, any supported chunk size, at most 65,535 pieces: splitting it, building the
   manifest, encoding it and decoding the bytes returns the same manifest, and the pieces
   it names join to the value.
   */
  lemma ValueRoundTrip(value: Bytes, size: nat, lens: seq<nat>, domain: nat, address: Bytes -> Bytes)
    requires 0 < size <= U32_MAX && SplitOf(lens, |value|, size) && |lens| <= MAX_CHUNKS && |value| < U64 && domain < U64
    requires forall b: Bytes :: ValidId(address(b))
    ensures var pieces := Pieces(value, lens);
      var m := Manifest(domain, |value|, size, EntriesFor(pieces, address));
      && Valid(m) && Decoded(Canonical(m)) == Some(m) && Joined(pieces) == value
      && (forall i | 0 <= i < |pieces| :: m.entries[i].id == address(pieces[i]) && m.entries[i].len == |pieces[i]|)
  {
    hide Decoded, Canonical, Le, Joined, Pieces;
    var pieces := Pieces(value, lens);
    var m := Manifest(domain, |value|, size, EntriesFor(pieces, address));
    PiecesJoin(value, lens);
    assert LensOf(m.entries) == lens;
    DecodesCanonical(m);
  }
}
