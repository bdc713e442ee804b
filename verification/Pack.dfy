/**
 Chunk packs: the byte format of records, the scan that recovery runs over a pack
 file, and what it finds after the file was cut at any byte.
 */
module Pack {
  import opened LittleEndian

  const PACK_MAGIC: nat := 0x5043_564B
  const CHUNK_MAGIC: nat := 0x4343_564B
  const MANIFEST_MAGIC: nat := 0x504D_564B
  const PACK_MAJOR: nat := 1
  const PACK_MINOR: nat := 0
  const RECORD_VERSION: nat := 1
  const PACK_HEADER_LEN: nat := 64
  const CHUNK_HEADER_LEN: nat := 60
  const MANIFEST_HEADER_LEN: nat := 52
  const BODY_CRC_LEN: nat := 4
  const MAX_STORED_BODY: nat := 8 * 1024 * 1024
  const ID_LEN: nat := 32

  type Bytes = seq<byte>

  function Zeros(n: nat): (z: Bytes)
    ensures |z| == n
  {
    seq(n, i => 0)
  }

  /** The checksum and the content identities of one lane's security domain. */
  datatype Integrity = Integrity(crc: Bytes -> nat, chunkId: Bytes -> Bytes, manifestVerifies: (Bytes, Bytes) -> bool)

  ghost predicate Checksums(g: Integrity) {
    forall b: Bytes :: g.crc(b) < 0x1_0000_0000
  }

  datatype Result<T> = Ok(value: T) | Corrupt | Unsupported | TooLarge | Missing | Invalid

  datatype Kind = Chunk | Manifest

  datatype Record = Record(kind: Kind, id: Bytes, body: Bytes)

  function HeaderLen(kind: Kind): nat {
    if kind.Chunk? then CHUNK_HEADER_LEN else MANIFEST_HEADER_LEN
  }

  function Magic(kind: Kind): nat {
    if kind.Chunk? then CHUNK_MAGIC else MANIFEST_MAGIC
  }

  function KindOf(magic: nat): Result<Kind> {
    if magic == CHUNK_MAGIC then Ok(Chunk) else if magic == MANIFEST_MAGIC then Ok(Manifest) else Corrupt
  }

  /** The content identity of a record is the one it claims. */
  predicate Identified(g: Integrity, r: Record) {
    |r.id| == ID_LEN && if r.kind.Chunk? then g.chunkId(r.body) == r.id else g.manifestVerifies(r.id, r.body)
  }

  /** A record the reader accepts. */
  predicate InBounds(g: Integrity, r: Record) {
    Identified(g, r) && |r.body| <= MAX_STORED_BODY
  }

  // ----- Encoding -----

  /** The header without its checksum. */
  function HeaderFields(r: Record): (h: Bytes)
    requires |r.id| == ID_LEN
    ensures |h| == HeaderLen(r.kind) - 4
  {
    Le(Magic(r.kind), 4) + Le(RECORD_VERSION, 2) + [0] + [0] + r.id + Le(|r.body|, 8)
    + if r.kind.Chunk? then Le(|r.body|, 8) else []
  }

  /** `encode_chunk_record` and `encode_manifest_record`. */
  function Encode(g: Integrity, r: Record): (e: Bytes)
    requires |r.id| == ID_LEN
    ensures |e| == Size(r)
  {
    HeaderFields(r) + Le(g.crc(HeaderFields(r)), 4) + r.body + Le(g.crc(r.body), 4)
  }

  function Size(r: Record): nat {
    HeaderLen(r.kind) + |r.body| + BODY_CRC_LEN
  }

  // ----- Decoding -----

  datatype Header = Header(kind: Kind, id: Bytes, logicalLen: nat, storedLen: nat)

  /** `decode_record_header`, its checks in order. */
  function DecodeHeader(g: Integrity, input: Bytes): Result<Header> {
    if |input| < 8 then Corrupt
    else
      var kind := KindOf(FromLe(input[0..4]));
      if !kind.Ok? || |input| < HeaderLen(kind.value) then Corrupt
      else if FromLe(input[4..6]) != RECORD_VERSION then Unsupported
      else if input[6] != 0 then Unsupported
      else if input[7] != 0 then Corrupt
      else
        var stored := if kind.value.Chunk? then FromLe(input[48..56]) else FromLe(input[40..48]);
        var logical := if kind.value.Chunk? then FromLe(input[40..48]) else 0;
        var at := HeaderLen(kind.value) - 4;
        if stored > MAX_STORED_BODY then TooLarge
        else if g.crc(input[..at]) != FromLe(input[at..at + 4]) then Corrupt
        else Ok(Header(kind.value, input[8..40], logical, stored))
  }

  /** `read_verify_record`, on the bytes from the record's offset on. */
  function ReadVerify(g: Integrity, input: Bytes): Result<Record> {
    if |input| < 8 then Corrupt
    else
      var kind := KindOf(FromLe(input[0..4]));
      if !kind.Ok? || |input| < HeaderLen(kind.value) then Corrupt
      else
        var head := HeaderLen(kind.value);
        var header := DecodeHeader(g, input[..head]);
        if !header.Ok? then Fail(header)
        else
          var end := head + header.value.storedLen;
          if |input| < end + BODY_CRC_LEN then Corrupt
          else
            var r := Record(kind.value, header.value.id, input[head..end]);
            if g.crc(r.body) != FromLe(input[end..end + BODY_CRC_LEN]) then Corrupt
            else if !Identified(g, r) then Corrupt
            else if kind.value.Chunk? && |r.body| != header.value.logicalLen then Corrupt
            else Ok(r)
  }

  // ----- Scanning -----

  /** Errors travel on unchanged. */
  function Fail<T, U>(e: Result<T>): (r: Result<U>)
    requires !e.Ok?
    ensures !r.Ok?
  {
    match e
    case Corrupt => Corrupt
    case Unsupported => Unsupported
    case TooLarge => TooLarge
    case Missing => Missing
    case Invalid => Invalid
  }

  /** What one turn of the scan loop finds at a position. */
  datatype Turn = Took(r: Record) | Torn | BadHeader(why: Result<Header>) | Damaged(what: Result<Record>)

  function ScanAt(g: Integrity, input: Bytes): (turn: Turn)
    ensures turn.Took? ==> Size(turn.r) <= |input|
    ensures turn.BadHeader? ==> !turn.why.Ok?
    ensures turn.Damaged? ==> !turn.what.Ok?
  {
    if |input| < 8 then Torn
    else
      var kind := KindOf(FromLe(input[0..4]));
      if !kind.Ok? || |input| < HeaderLen(kind.value) then Torn
      else
        var header := DecodeHeader(g, input[..HeaderLen(kind.value)]);
        if !header.Ok? then BadHeader(header)
        else if |input| < HeaderLen(kind.value) + header.value.storedLen + BODY_CRC_LEN then Torn
        else
          var read := ReadVerify(g, input);
          if read.Ok? then Took(read.value) else Damaged(read)
  }

  datatype PackScan = PackScan(records: seq<Record>, keptLen: nat, truncated: nat)

  /** The records taken from a position on, and where the scan stopped. */
  function ScanFrom(g: Integrity, file: Bytes, pos: nat, active: bool): Result<PackScan>
    requires pos <= |file|
    decreases |file| - pos
  {
    if pos == |file| then Ok(PackScan([], pos, 0))
    else
      match ScanAt(g, file[pos..])
      case Torn => if active then Ok(PackScan([], pos, |file| - pos)) else Corrupt
      case BadHeader(why) => if active then Ok(PackScan([], pos, |file| - pos)) else Fail(why)
      case Damaged(what) => Fail(what)
      case Took(r) =>
        Prefixed([r], ScanFrom(g, file, pos + Size(r), active))
  }

  /** Records taken earlier go in front of what a scan finds. */
  function Prefixed(records: seq<Record>, rest: Result<PackScan>): Result<PackScan> {
    if rest.Ok? then Ok(rest.value.(records := records + rest.value.records)) else rest
  }

  lemma PrefixedTwice(a: seq<Record>, b: seq<Record>, rest: Result<PackScan>)
    ensures Prefixed(a, Prefixed(b, rest)) == Prefixed(a + b, rest)
    ensures Prefixed([], rest) == rest
  {
    if rest.Ok? {
      assert a + (b + rest.value.records) == (a + b) + rest.value.records;
      assert [] + rest.value.records == rest.value.records;
    }
  }

  lemma ScanTakes(g: Integrity, file: Bytes, pos: nat, active: bool, r: Record)
    requires pos < |file| && ScanAt(g, file[pos..]) == Took(r)
    ensures pos + Size(r) <= |file|
    ensures ScanFrom(g, file, pos, active) == Prefixed([r], ScanFrom(g, file, pos + Size(r), active))
  {
  }

  lemma ScanEnds(g: Integrity, file: Bytes, active: bool)
    ensures ScanFrom(g, file, |file|, active) == Ok(PackScan([], |file|, 0))
  {
  }

  lemma ScanTears(g: Integrity, file: Bytes, pos: nat, active: bool)
    requires pos < |file| && ScanAt(g, file[pos..]).Torn?
    ensures ScanFrom(g, file, pos, active) == if active then Ok(PackScan([], pos, |file| - pos)) else Corrupt
  {
  }

  // ----- The pack header -----

  /** `encode_pack_header`; the creation stamp is 8 opaque bytes. */
  function PackHeader(g: Integrity, lane: nat, seqno: nat, stamp: Bytes, target: nat): (h: Bytes)
    requires |stamp| == 8
    ensures |h| == PACK_HEADER_LEN
  {
    var fields := PackFields(lane, seqno, stamp, target);
    fields + Le(g.crc(fields), 4)
  }

  function PackFields(lane: nat, seqno: nat, stamp: Bytes, target: nat): (h: Bytes)
    requires |stamp| == 8
    ensures |h| == PACK_HEADER_LEN - 4
  {
    Le(PACK_MAGIC, 4) + Le(PACK_MAJOR, 2) + Le(PACK_MINOR, 2) + Le(lane, 2) + Le(0, 2) + Le(seqno, 8) + stamp
    + Le(target, 8) + Zeros(24)
  }

  /** `decode_pack_header`, its checks in order. */
  function DecodePackHeader(g: Integrity, h: Bytes, lane: nat, seqno: nat): Result<()>
    requires |h| == PACK_HEADER_LEN
  {
    if FromLe(h[0..4]) != PACK_MAGIC then Corrupt
    else if FromLe(h[4..6]) != PACK_MAJOR || FromLe(h[6..8]) != PACK_MINOR then Unsupported
    else if FromLe(h[8..10]) != lane || FromLe(h[12..20]) != seqno then Corrupt
    else if h[10..12] != [0, 0] || h[36..60] != Zeros(24) then Corrupt
    else if g.crc(h[..60]) != FromLe(h[60..64]) then Corrupt
    else Ok(())
  }

  /** What a scan of a whole pack file returns. */
  function Scanned(g: Integrity, file: Bytes, lane: nat, seqno: nat, active: bool): Result<PackScan> {
    if |file| < PACK_HEADER_LEN then
      if active then Ok(PackScan([], 0, |file|)) else Corrupt
    else
      var header := DecodePackHeader(g, file[..PACK_HEADER_LEN], lane, seqno);
      if header.Ok? then ScanFrom(g, file, PACK_HEADER_LEN, active) else Fail(header)
  }

  /** `scan_pack`: the header, then record by record to the end or to a torn tail. */
  method ScanPack(g: Integrity, file: Bytes, lane: nat, seqno: nat, active: bool) returns (result: Result<PackScan>)
    ensures result == Scanned(g, file, lane, seqno, active)
  {
    hide ScanAt, DecodePackHeader;
    if |file| < PACK_HEADER_LEN {
      return if active then Ok(PackScan([], 0, |file|)) else Corrupt;
    }
    var header := DecodePackHeader(g, file[..PACK_HEADER_LEN], lane, seqno);
    if !header.Ok? {
      return Fail(header);
    }
    var records, pos := [], PACK_HEADER_LEN;
    ghost var whole := ScanFrom(g, file, PACK_HEADER_LEN, active);
    PrefixedTwice([], [], whole);
    while pos < |file|
      invariant pos <= |file|
      invariant whole == Prefixed(records, ScanFrom(g, file, pos, active))
    {
      var turn := ScanAt(g, file[pos..]);
      if turn.Took? {
        ScanTakes(g, file, pos, active, turn.r);
        PrefixedTwice(records, [turn.r], ScanFrom(g, file, pos + Size(turn.r), active));
        records, pos := records + [turn.r], pos + Size(turn.r);
      } else {
        assert records + [] == records;
        if turn.Damaged? {
          return Fail(turn.what);
        } else if active {
          return Ok(PackScan(records, pos, |file| - pos));
        } else {
          return if turn.Torn? then Corrupt else Fail(turn.why);
        }
      }
    }
    assert records + [] == records;
    result := Ok(PackScan(records, |file|, 0));
  }

  // ----- What the encoder writes, the decoder reads -----

  lemma FieldsOfHeader(r: Record)
    requires |r.id| == ID_LEN && |r.body| < 0x1_0000_0000_0000_0000
    ensures var h := HeaderFields(r);
      && FromLe(h[0..4]) == Magic(r.kind) && FromLe(h[4..6]) == RECORD_VERSION && h[6] == 0 && h[7] == 0
      && h[8..40] == r.id && FromLe(h[40..48]) == |r.body|
      && (r.kind.Chunk? ==> FromLe(h[48..56]) == |r.body|)
  {
    hide Le, FromLe;
    Widths();
    LeRoundTrip(Magic(r.kind), 4);
    LeRoundTrip(RECORD_VERSION, 2);
    LeRoundTrip(|r.body|, 8);
    var h := HeaderFields(r);
    assert h[0..4] == Le(Magic(r.kind), 4);
    assert h[4..6] == Le(RECORD_VERSION, 2);
    assert h[8..40] == r.id;
    assert h[40..48] == Le(|r.body|, 8);
    assert r.kind.Chunk? ==> h[48..56] == Le(|r.body|, 8);
  }

  /** The complete header of an in-bound record decodes to its own fields. */
  lemma HeaderDecodes(g: Integrity, r: Record)
    requires Checksums(g) && |r.id| == ID_LEN && |r.body| <= MAX_STORED_BODY
    ensures DecodeHeader(g, Encode(g, r)[..HeaderLen(r.kind)]) ==
      Ok(Header(r.kind, r.id, if r.kind.Chunk? then |r.body| else 0, |r.body|))
  {
    hide Le, FromLe, HeaderFields;
    var fields, input := HeaderFields(r), Encode(g, r)[..HeaderLen(r.kind)];
    var at := HeaderLen(r.kind) - 4;
    FieldsOfHeader(r);
    Widths();
    assert g.crc(fields) < 0x1_0000_0000;
    LeRoundTrip(g.crc(fields), 4);
    assert input == fields + Le(g.crc(fields), 4);
    assert input[..at] == fields && input[at..at + 4] == Le(g.crc(fields), 4);
    assert input[0..4] == fields[0..4] && input[4..6] == fields[4..6] && input[8..40] == fields[8..40];
    assert input[40..48] == fields[40..48] && (r.kind.Chunk? ==> input[48..56] == fields[48..56]);
  }

  lemma Parts(a: Bytes, b: Bytes, c: Bytes, d: Bytes, rest: Bytes)
    ensures var s := a + b + c + d + rest;
      var i, j, k := |a| + |b|, |a| + |b| + |c|, |a| + |b| + |c| + |d|;
      s[..i] == a + b && s[i..j] == c && s[j..k] == d && s[k..] == rest
  {
  }

  /** Where the parts of an encoded record lie. */
  lemma Layout(g: Integrity, r: Record, rest: Bytes)
    requires |r.id| == ID_LEN
    ensures var input := Encode(g, r) + rest;
      var head := HeaderLen(r.kind);
      var end := head + |r.body|;
      && input[..head] == Encode(g, r)[..head] && input[head..end] == r.body
      && input[end..end + 4] == Le(g.crc(r.body), 4) && input[0..4] == HeaderFields(r)[0..4]
      && Encode(g, r)[..head - 4] == HeaderFields(r)
  {
    hide Le;
    var a, b, d := HeaderFields(r), Le(g.crc(HeaderFields(r)), 4), Le(g.crc(r.body), 4);
    Parts(a, b, r.body, d, rest);
    Parts(a, b, r.body, d, []);
    assert a + b + r.body + d + [] == Encode(g, r);
    assert (a + b)[0..4] == a[0..4];
    assert Encode(g, r)[..|a|] == Encode(g, r)[..|a| + |b|][..|a|] == a;
    assert (Encode(g, r) + rest)[0..4] == (Encode(g, r) + rest)[..|a| + |b|][0..4];
  }

  lemma Accepts(g: Integrity, input: Bytes, r: Record)
    requires InBounds(g, r) && Size(r) <= |input| && KindOf(FromLe(input[0..4])) == Ok(r.kind)
    requires DecodeHeader(g, input[..HeaderLen(r.kind)]) ==
      Ok(Header(r.kind, r.id, if r.kind.Chunk? then |r.body| else 0, |r.body|))
    requires input[HeaderLen(r.kind)..HeaderLen(r.kind) + |r.body|] == r.body
    requires FromLe(input[HeaderLen(r.kind) + |r.body|..Size(r)]) == g.crc(r.body)
    ensures ScanAt(g, input) == Took(r)
  {
    hide FromLe, DecodeHeader;
  }

  /** A record whose bytes are all there is taken. */
  lemma TakesComplete(g: Integrity, r: Record, rest: Bytes)
    requires Checksums(g) && InBounds(g, r)
    ensures ScanAt(g, Encode(g, r) + rest) == Took(r)
  {
    hide Le, FromLe, HeaderFields, Encode, ScanAt, DecodeHeader;
    HeaderDecodes(g, r);
    FieldsOfHeader(r);
    Layout(g, r, rest);
    BodyChecksum(g, r);
    Accepts(g, Encode(g, r) + rest, r);
  }

  lemma BodyChecksum(g: Integrity, r: Record)
    requires Checksums(g)
    ensures FromLe(Le(g.crc(r.body), 4)) == g.crc(r.body)
  {
    assert g.crc(r.body) < Pow256(4) by { Widths(); }
    LeRoundTrip(g.crc(r.body), 4);
  }

  /** A record cut short, at any byte, is a torn tail. */
  lemma TornIncomplete(g: Integrity, r: Record, len: nat)
    requires Checksums(g) && InBounds(g, r) && len < Size(r)
    ensures ScanAt(g, Encode(g, r)[..len]).Torn?
  {
    hide Le, FromLe, HeaderFields, Encode;
    var e, head := Encode(g, r), HeaderLen(r.kind);
    if len >= 8 {
      FieldsOfHeader(r);
      HeaderDecodes(g, r);
      Layout(g, r, []);
      assert e + [] == e;
      assert e[..len][0..4] == e[0..4];
      if len >= head {
        assert e[..len][..head] == e[..head];
      }
    }
  }

  // ----- Torn-tail repair -----

  predicate AllInBounds(g: Integrity, records: seq<Record>) {
    forall r | r in records :: InBounds(g, r)
  }

  predicate Named(records: seq<Record>) {
    forall r | r in records :: |r.id| == ID_LEN
  }

  function Packed(g: Integrity, records: seq<Record>): (p: Bytes)
    requires Named(records)
    ensures |p| == Total(records)
  {
    if records == [] then [] else Encode(g, records[0]) + Packed(g, records[1..])
  }

  function Total(records: seq<Record>): nat {
    if records == [] then 0 else Size(records[0]) + Total(records[1..])
  }

  /** How many leading records fit in `len` bytes. */
  function Fitting(records: seq<Record>, len: nat): (k: nat)
    ensures k <= |records|
  {
    if records == [] || Size(records[0]) > len then 0 else 1 + Fitting(records[1..], len - Size(records[0]))
  }

  /** The fitting prefix is the longest one: it fits, and one record more does not. */
  lemma {:induction false} FittingIsMaximal(records: seq<Record>, len: nat)
    ensures var k := Fitting(records, len);
      Total(records[..k]) <= len && (k < |records| ==> len < Total(records[..k + 1]))
    decreases |records|
  {
    if records != [] && Size(records[0]) <= len {
      var k := Fitting(records[1..], len - Size(records[0]));
      FittingIsMaximal(records[1..], len - Size(records[0]));
      assert records[..k + 1][1..] == records[1..][..k];
      if k + 1 < |records| {
        assert records[..k + 2][1..] == records[1..][..k + 1];
      }
    } else if records != [] {
      assert records[..1][1..] == [] && Total(records[..1][1..]) == 0;
    }
  }

  /** What scanning a cut run of records returns. */
  function Repaired(records: seq<Record>, pos: nat, len: nat, active: bool): Result<PackScan> {
    var k := Fitting(records, len);
    var kept := Total(records[..k]);
    if kept == len then Ok(PackScan(records[..k], pos + len, 0))
    else if active && kept < len then Ok(PackScan(records[..k], pos + kept, len - kept))
    else Corrupt
  }

  lemma {:induction false} ScanOfCutRecords(g: Integrity, file: Bytes, pos: nat, records: seq<Record>, active: bool)
    requires Checksums(g) && AllInBounds(g, records) && pos <= |file| <= pos + Total(records)
    requires file[pos..] == Packed(g, records)[..|file| - pos]
    ensures ScanFrom(g, file, pos, active) == Repaired(records, pos, |file| - pos, active)
    decreases |records|
  {
    hide ScanAt, Encode, ScanFrom;
    var len := |file| - pos;
    if len == 0 {
      ScanEnds(g, file, active);
      assert records[..0] == [];
    } else {
      var r := records[0];
      var packed := Packed(g, records);
      if len < Size(r) {
        assert packed[..len] == Encode(g, r)[..len];
        TornIncomplete(g, r, len);
        ScanTears(g, file, pos, active);
        assert records[..0] == [];
      } else {
        var next := pos + Size(r);
        var rest := Packed(g, records[1..])[..|file| - next];
        assert file[pos..] == Encode(g, r) + rest;
        assert file[next..] == file[pos..][Size(r)..] == rest;
        TakesComplete(g, r, rest);
        ScanTakes(g, file, pos, active, r);
        ScanOfCutRecords(g, file, next, records[1..], active);
        RepairedStep(records, pos, len, active);
      }
    }
  }

  lemma RepairedStep(records: seq<Record>, pos: nat, len: nat, active: bool)
    requires records != [] && Size(records[0]) <= len
    ensures Repaired(records, pos, len, active) ==
      Prefixed([records[0]], Repaired(records[1..], pos + Size(records[0]), len - Size(records[0]), active))
  {
    var k := Fitting(records[1..], len - Size(records[0]));
    assert records[..k + 1] == [records[0]] + records[1..][..k];
    assert records[..k + 1][1..] == records[1..][..k];
  }

  /** The file an appender leaves when its last write stopped after `cut` bytes. */
  function Cut(g: Integrity, id: PackId, records: seq<Record>, cut: nat): (file: Bytes)
    requires |id.stamp| == 8 && Named(records) && cut <= PACK_HEADER_LEN + Total(records)
    ensures |file| == cut
  {
    (PackHeader(g, id.lane, id.seqno, id.stamp, id.target) + Packed(g, records))[..cut]
  }

  datatype PackId = PackId(lane: nat, seqno: nat, stamp: Bytes, target: nat) {
    predicate Valid() {
      |stamp| == 8 && lane < 0x1_0000 && seqno < 0x1_0000_0000_0000_0000
    }
  }

  lemma CutParts(g: Integrity, id: PackId, records: seq<Record>, cut: nat)
    requires |id.stamp| == 8 && Named(records) && PACK_HEADER_LEN <= cut <= PACK_HEADER_LEN + Total(records)
    ensures var file := Cut(g, id, records, cut);
      && file[..PACK_HEADER_LEN] == PackHeader(g, id.lane, id.seqno, id.stamp, id.target)
      && file[PACK_HEADER_LEN..] == Packed(g, records)[..cut - PACK_HEADER_LEN]
  {
    hide Packed, PackHeader;
  }

  lemma ScanInsideHeader(g: Integrity, id: PackId, records: seq<Record>, cut: nat, active: bool)
    requires id.Valid() && AllInBounds(g, records) && cut <= PACK_HEADER_LEN + Total(records) && cut < PACK_HEADER_LEN
    ensures Scanned(g, Cut(g, id, records, cut), id.lane, id.seqno, active)
      == if active then Ok(PackScan([], 0, cut)) else Corrupt
  {
  }

  lemma RepairedCases(records: seq<Record>, pos: nat, len: nat, active: bool)
    ensures var k := Fitting(records, len);
      var kept := Total(records[..k]);
      && kept <= len && (k < |records| ==> len < Total(records[..k + 1]))
      && Repaired(records, pos, len, active) ==
         if active then Ok(PackScan(records[..k], pos + kept, len - kept))
         else if kept == len then Ok(PackScan(records[..k], pos + len, 0)) else Corrupt
  {
    FittingIsMaximal(records, len);
  }

  lemma ScanPastHeader(g: Integrity, id: PackId, records: seq<Record>, cut: nat, active: bool)
    requires Checksums(g) && id.Valid() && AllInBounds(g, records)
    requires PACK_HEADER_LEN <= cut <= PACK_HEADER_LEN + Total(records)
    ensures Scanned(g, Cut(g, id, records, cut), id.lane, id.seqno, active)
      == Repaired(records, PACK_HEADER_LEN, cut - PACK_HEADER_LEN, active)
  {
    hide ScanFrom, Packed, Cut, PackHeader, DecodePackHeader, Repaired, Total;
    CutParts(g, id, records, cut);
    PackHeaderDecodes(g, id.lane, id.seqno, id.stamp, id.target);
    ScanOfCutRecords(g, Cut(g, id, records, cut), PACK_HEADER_LEN, records, active);
  }

  /**
   A pack of in-bound records, cut at any byte. Inside the header, an active scan finds
   nothing and a sealed one refuses. Past it, an active scan keeps the longest complete
   prefix of the records and reports the rest as torn; a sealed scan accepts the file
   exactly when the cut falls on a record boundary.
   */
  lemma TornTailRepair(g: Integrity, id: PackId, records: seq<Record>, cut: nat, active: bool)
    requires Checksums(g) && id.Valid() && AllInBounds(g, records) && cut <= PACK_HEADER_LEN + Total(records)
    ensures var scan := Scanned(g, Cut(g, id, records, cut), id.lane, id.seqno, active);
      if cut < PACK_HEADER_LEN then scan == if active then Ok(PackScan([], 0, cut)) else Corrupt
      else
        var len := cut - PACK_HEADER_LEN;
        var k := Fitting(records, len);
        var kept := Total(records[..k]);
        && kept <= len && (k < |records| ==> len < Total(records[..k + 1]))
        && (active ==> scan == Ok(PackScan(records[..k], PACK_HEADER_LEN + kept, len - kept)))
        && (!active ==> scan == if kept == len then Ok(PackScan(records[..k], cut, 0)) else Corrupt)
  {
    hide *;
    if cut < PACK_HEADER_LEN {
      ScanInsideHeader(g, id, records, cut, active);
    } else {
      ScanPastHeader(g, id, records, cut, active);
      RepairedCases(records, PACK_HEADER_LEN, cut - PACK_HEADER_LEN, active);
    }
  }

  /** Truncating to what the scan kept and scanning again finds the same records and nothing to repair. */
  lemma RescanIsClean(g: Integrity, id: PackId, records: seq<Record>, cut: nat, active: bool)
    requires Checksums(g) && id.Valid() && AllInBounds(g, records)
    requires PACK_HEADER_LEN <= cut <= PACK_HEADER_LEN + Total(records)
    ensures var file := Cut(g, id, records, cut);
      var first := Scanned(g, file, id.lane, id.seqno, true);
      && first.Ok? && PACK_HEADER_LEN <= first.value.keptLen <= cut
      && Scanned(g, file[..first.value.keptLen], id.lane, id.seqno, active)
         == Ok(PackScan(first.value.records, first.value.keptLen, 0))
  {
    hide Scanned, Encode, PackHeader, Cut, Total, Fitting;
    var len := cut - PACK_HEADER_LEN;
    TornTailRepair(g, id, records, cut, true);
    var k := Fitting(records, len);
    var kept := Total(records[..k]);
    CutAgain(g, id, records, cut, PACK_HEADER_LEN + kept);
    ExactFit(records, k);
    TornTailRepair(g, id, records, PACK_HEADER_LEN + kept, active);
  }

  lemma CutAgain(g: Integrity, id: PackId, records: seq<Record>, cut: nat, shorter: nat)
    requires |id.stamp| == 8 && Named(records) && shorter <= cut <= PACK_HEADER_LEN + Total(records)
    ensures Cut(g, id, records, cut)[..shorter] == Cut(g, id, records, shorter)
  {
  }

  lemma {:induction false} ExactFit(records: seq<Record>, k: nat)
    requires k <= |records|
    ensures Fitting(records, Total(records[..k])) == k
    decreases k
  {
    if k > 0 {
      assert records[..k][1..] == records[1..][..k - 1];
      ExactFit(records[1..], k - 1);
    }
  }

  lemma HeaderParts(a: Bytes, b: Bytes, c: Bytes, d: Bytes, e: Bytes, f: Bytes, rest: Bytes)
    requires |a| == 4 && |b| == 2 && |c| == 2 && |d| == 2 && |e| == 2 && |f| == 8
    ensures var h := a + b + c + d + e + f + rest;
      && h[0..4] == a && h[4..6] == b && h[6..8] == c && h[8..10] == d && h[10..12] == e && h[12..20] == f
      && h[20..] == rest
  {
  }

  lemma HeaderTail(a: Bytes, b: Bytes, c: Bytes, d: Bytes, h: Bytes)
    requires |a| == 8 && |b| == 8 && |c| == 24 && |d| == 4 && |h| == 64 && h[20..] == a + b + c + d
    ensures h[36..60] == c && h[60..64] == d
  {
    assert h[36..60] == h[20..][16..40] && h[60..64] == h[20..][40..44];
  }

  /** A header written by the encoder is accepted for its own lane and sequence. */
  lemma PackHeaderDecodes(g: Integrity, lane: nat, seqno: nat, stamp: Bytes, target: nat)
    requires Checksums(g) && |stamp| == 8 && lane < 0x1_0000 && seqno < 0x1_0000_0000_0000_0000
    ensures DecodePackHeader(g, PackHeader(g, lane, seqno, stamp, target), lane, seqno) == Ok(())
  {
    hide Le, FromLe;
    var fields, h := PackFields(lane, seqno, stamp, target), PackHeader(g, lane, seqno, stamp, target);
    var zeros: Bytes := Zeros(24);
    var rest := stamp + Le(target, 8) + zeros + Le(g.crc(fields), 4);
    assert g.crc(fields) < 0x1_0000_0000;
    PackIntegers(lane, seqno, g.crc(fields));
    assert h == Le(PACK_MAGIC, 4) + Le(PACK_MAJOR, 2) + Le(PACK_MINOR, 2) + Le(lane, 2) + Le(0, 2) + Le(seqno, 8) + rest;
    HeaderParts(Le(PACK_MAGIC, 4), Le(PACK_MAJOR, 2), Le(PACK_MINOR, 2), Le(lane, 2), Le(0, 2), Le(seqno, 8), rest);
    HeaderTail(stamp, Le(target, 8), zeros, Le(g.crc(fields), 4), h);
    assert h[..60] == fields;
  }

  lemma PackIntegers(lane: nat, seqno: nat, crc: nat)
    requires lane < 0x1_0000 && seqno < 0x1_0000_0000_0000_0000 && crc < 0x1_0000_0000
    ensures FromLe(Le(PACK_MAGIC, 4)) == PACK_MAGIC && FromLe(Le(PACK_MAJOR, 2)) == PACK_MAJOR
    ensures FromLe(Le(PACK_MINOR, 2)) == PACK_MINOR && FromLe(Le(lane, 2)) == lane && Le(0, 2) == [0, 0]
    ensures FromLe(Le(seqno, 8)) == seqno && FromLe(Le(crc, 4)) == crc
  {
    Widths();
    LeRoundTrip(PACK_MAGIC, 4);
    LeRoundTrip(PACK_MAJOR, 2);
    LeRoundTrip(PACK_MINOR, 2);
    LeRoundTrip(lane, 2);
    LeRoundTrip(seqno, 8);
    LeRoundTrip(crc, 4);
    assert Le(0, 1) == [0];
  }

  /** The writer never checks the body cap that the reader enforces: a larger body is written and never read back. */
  lemma OversizeIsUnreadable(g: Integrity, r: Record, rest: Bytes)
    requires Identified(g, r) && MAX_STORED_BODY < |r.body| < 0x1_0000_0000_0000_0000
    ensures ScanAt(g, Encode(g, r) + rest) == BadHeader(TooLarge)
  {
    hide Le, FromLe, HeaderFields, Encode;
    var e, h := Encode(g, r), HeaderFields(r);
    FieldsOfHeader(r);
    Layout(g, r, rest);
    var input := e[..HeaderLen(r.kind)];
    assert input[..|h|] == e[..|h|] == h;
    assert input[0..4] == h[0..4] && input[4..6] == h[4..6] && input[40..48] == h[40..48];
    assert input[6] == h[6] && input[7] == h[7] && (r.kind.Chunk? ==> input[48..56] == h[48..56]);
  }

  /** Cut anywhere, an oversize record reads as torn inside its header and as refused past it. */
  lemma OversizePrefix(g: Integrity, r: Record, len: nat)
    requires Identified(g, r) && MAX_STORED_BODY < |r.body| < 0x1_0000_0000_0000_0000 && len < Size(r)
    ensures ScanAt(g, Encode(g, r)[..len]) == if len < HeaderLen(r.kind) then Torn else BadHeader(TooLarge)
  {
    hide Le, FromLe, HeaderFields, Encode, DecodeHeader;
    var e, head := Encode(g, r), HeaderLen(r.kind);
    if len >= 8 {
      FieldsOfHeader(r);
      Layout(g, r, []);
      assert e + [] == e;
      assert e[..len][0..4] == e[0..4];
      if len >= head {
        assert e[..len][..head] == e[..head];
        OversizeIsUnreadable(g, r, []);
      }
    }
  }

  /** Addressed records of any size. */
  predicate Addressed(g: Integrity, records: seq<Record>) {
    forall r | r in records :: Identified(g, r) && |r.body| < 0x1_0000_0000_0000_0000
  }

  lemma ScanRefuses(g: Integrity, file: Bytes, pos: nat, active: bool)
    requires pos < |file| && ScanAt(g, file[pos..]) == BadHeader(TooLarge)
    ensures ScanFrom(g, file, pos, active) == if active then Ok(PackScan([], pos, |file| - pos)) else TooLarge
  {
  }

  /**
   Whatever the sizes and wherever the cut, a scan returns leading records its reader accepts;
   an active one never fails, since it truncates at the first it cannot read.
   */
  lemma {:induction false} ScanReadsPrefix(g: Integrity, file: Bytes, pos: nat, records: seq<Record>, active: bool)
    requires Checksums(g) && Addressed(g, records) && Named(records) && pos <= |file| <= pos + Total(records)
    requires file[pos..] == Packed(g, records)[..|file| - pos]
    ensures ReadsPrefix(g, records, ScanFrom(g, file, pos, active), active)
    decreases |records|
  {
    hide ScanAt, Encode, ScanFrom;
    var len := |file| - pos;
    if len == 0 {
      ScanEnds(g, file, active);
    } else {
      var r := records[0];
      assert r in records;
      var packed := Packed(g, records);
      if len < Size(r) {
        assert packed[..len] == Encode(g, r)[..len];
        CutTurn(g, r, len);
        ScanStops(g, file, pos, active);
      } else {
        var next := pos + Size(r);
        var rest := Packed(g, records[1..])[..|file| - next];
        assert file[pos..] == Encode(g, r) + rest;
        if InBounds(g, r) {
          assert file[next..] == file[pos..][Size(r)..] == rest;
          TakesComplete(g, r, rest);
          ScanTakes(g, file, pos, active, r);
          ScanReadsPrefix(g, file, next, records[1..], active);
          ReadsPrefixStep(g, records, ScanFrom(g, file, next, active), active);
        } else {
          OversizeIsUnreadable(g, r, rest);
          ScanStops(g, file, pos, active);
        }
      }
    }
  }

  predicate ReadsPrefix(g: Integrity, records: seq<Record>, scan: Result<PackScan>, active: bool) {
    && (active ==> scan.Ok?)
    && (scan.Ok? ==> scan.value.records <= records && AllInBounds(g, scan.value.records))
  }

  lemma ReadsPrefixStep(g: Integrity, records: seq<Record>, scan: Result<PackScan>, active: bool)
    requires records != [] && InBounds(g, records[0]) && ReadsPrefix(g, records[1..], scan, active)
    ensures ReadsPrefix(g, records, Prefixed([records[0]], scan), active)
  {
    assert records == [records[0]] + records[1..];
  }

  lemma CutTurn(g: Integrity, r: Record, len: nat)
    requires Checksums(g) && Identified(g, r) && |r.body| < 0x1_0000_0000_0000_0000 && len < Size(r)
    ensures var turn := ScanAt(g, Encode(g, r)[..len]); turn.Torn? || turn.BadHeader?
  {
    hide ScanAt, Encode;
    if InBounds(g, r) {
      TornIncomplete(g, r, len);
    } else {
      OversizePrefix(g, r, len);
    }
  }

  lemma ScanStops(g: Integrity, file: Bytes, pos: nat, active: bool)
    requires pos < |file| && (ScanAt(g, file[pos..]).Torn? || ScanAt(g, file[pos..]).BadHeader?)
    ensures active ==> ScanFrom(g, file, pos, active) == Ok(PackScan([], pos, |file| - pos))
    ensures !active ==> !ScanFrom(g, file, pos, active).Ok?
  {
  }

  /** What a scan makes of records whose `i`-th it cannot read. */
  function Truncated(records: seq<Record>, i: nat, pos: nat, active: bool): Result<PackScan>
    requires i <= |records|
  {
    if active then Ok(PackScan(records[..i], pos + Total(records[..i]), Total(records[i..]))) else TooLarge
  }

  lemma TruncatedStep(records: seq<Record>, i: nat, pos: nat, active: bool)
    requires 0 < i <= |records|
    ensures Truncated(records, i, pos, active) ==
      Prefixed([records[0]], Truncated(records[1..], i - 1, pos + Size(records[0]), active))
  {
    assert records[..i][0] == records[0] && records[..i][1..] == records[1..][..i - 1];
    assert [records[0]] + records[1..][..i - 1] == records[..i] && records[1..][i - 1..] == records[i..];
  }

  lemma {:induction false} ScanOfOversize(g: Integrity, file: Bytes, pos: nat, records: seq<Record>, i: nat, active: bool)
    requires Checksums(g) && Addressed(g, records) && Named(records) && i < |records| && AllInBounds(g, records[..i])
    requires |records[i].body| > MAX_STORED_BODY && pos <= |file| && file[pos..] == Packed(g, records)
    ensures ScanFrom(g, file, pos, active) == Truncated(records, i, pos, active)
    decreases i
  {
    hide ScanAt, Encode, ScanFrom;
    var r, rest := records[0], Packed(g, records[1..]);
    assert r in records && file[pos..] == Encode(g, r) + rest;
    if i == 0 {
      assert records[..0] == [] && records[0..] == records;
      OversizeIsUnreadable(g, r, rest);
      ScanRefuses(g, file, pos, active);
    } else {
      hide Total, Truncated;
      var next := pos + Size(r);
      assert records[..i][0] == r && records[..i][1..] == records[1..][..i - 1];
      assert file[next..] == file[pos..][Size(r)..] == rest;
      TakesComplete(g, r, rest);
      ScanTakes(g, file, pos, active, r);
      ScanOfOversize(g, file, next, records[1..], i - 1, active);
      TruncatedStep(records, i, pos, active);
    }
  }

  /**
   A record over the reader's cap ends its pack: reopening keeps the records before it and
   truncates an active pack there, everything behind it included, and refuses a sealed one.
   */
  lemma OversizeEndsThePack(g: Integrity, id: PackId, records: seq<Record>, i: nat, active: bool)
    requires Checksums(g) && id.Valid() && Addressed(g, records) && Named(records) && i < |records|
    requires AllInBounds(g, records[..i]) && |records[i].body| > MAX_STORED_BODY
    ensures Scanned(g, Cut(g, id, records, PACK_HEADER_LEN + Total(records)), id.lane, id.seqno, active) ==
      Truncated(records, i, PACK_HEADER_LEN, active)
  {
    hide ScanFrom, Packed, Cut, PackHeader, DecodePackHeader, Total, Truncated;
    var cut := PACK_HEADER_LEN + Total(records);
    CutParts(g, id, records, cut);
    PackHeaderDecodes(g, id.lane, id.seqno, id.stamp, id.target);
    assert Packed(g, records)[..Total(records)] == Packed(g, records);
    ScanOfOversize(g, Cut(g, id, records, cut), PACK_HEADER_LEN, records, i, active);
  }

  lemma CutReadsPrefix(g: Integrity, id: PackId, records: seq<Record>, cut: nat, active: bool)
    requires Checksums(g) && id.Valid() && Addressed(g, records) && Named(records)
    requires PACK_HEADER_LEN <= cut <= PACK_HEADER_LEN + Total(records)
    ensures ReadsPrefix(g, records, Scanned(g, Cut(g, id, records, cut), id.lane, id.seqno, active), active)
  {
    hide ScanFrom, Packed, Cut, PackHeader, DecodePackHeader, Total, ReadsPrefix;
    CutParts(g, id, records, cut);
    PackHeaderDecodes(g, id.lane, id.seqno, id.stamp, id.target);
    ScanReadsPrefix(g, Cut(g, id, records, cut), PACK_HEADER_LEN, records, active);
  }

  // ----- Reading one record by its offset -----

  lemma VerifiesComplete(g: Integrity, r: Record, rest: Bytes)
    requires Checksums(g) && InBounds(g, r)
    ensures ReadVerify(g, Encode(g, r) + rest) == Ok(r)
  {
    hide Le, FromLe, Encode, DecodeHeader, ReadVerify;
    TakesComplete(g, r, rest);
  }

  lemma OversizeRefused(g: Integrity, r: Record, rest: Bytes)
    requires Identified(g, r) && MAX_STORED_BODY < |r.body| < 0x1_0000_0000_0000_0000
    ensures ReadVerify(g, Encode(g, r) + rest) == TooLarge
  {
    hide Le, FromLe, Encode, DecodeHeader;
    OversizeIsUnreadable(g, r, rest);
  }

  lemma {:induction false} PackedAppend(g: Integrity, records: seq<Record>, r: Record)
    requires Named(records) && |r.id| == ID_LEN
    ensures Packed(g, records + [r]) == Packed(g, records) + Encode(g, r)
  {
    hide Encode;
    if records == [] {
      assert records + [r] == [r] && [r][1..] == [];
    } else {
      assert (records + [r])[1..] == records[1..] + [r];
      PackedAppend(g, records[1..], r);
    }
  }

  /** The bytes from the offset of record `at` on start with that record. */
  lemma {:induction false} PackedAt(g: Integrity, records: seq<Record>, at: nat)
    requires Named(records) && at < |records|
    ensures Total(records[..at]) <= Total(records)
    ensures Packed(g, records)[Total(records[..at])..] == Encode(g, records[at]) + Packed(g, records[at + 1..])
    decreases at
  {
    hide Encode;
    if at == 0 {
      assert records[..0] == [];
    } else {
      assert records[..at][1..] == records[1..][..at - 1];
      PackedAt(g, records[1..], at - 1);
      assert records[1..][at..] == records[at + 1..];
      var skip := Total(records[1..][..at - 1]);
      assert Packed(g, records)[Size(records[0]) + skip..] == Packed(g, records[1..])[skip..];
    }
  }
}
