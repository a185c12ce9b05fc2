// The binary package format of internal/wire/pack.go.
module Codec {
  import opened Types
  import opened LittleEndian
  import opened NetPrefix

  const PACK_VERSION: u8 := 1
  const KIND_SNAPSHOT: u8 := 1
  const KIND_PACKAGE: u8 := 2
  const PACK_TYPE_CIDR: u8 := 1
  const PACK_TYPE_STRING: u8 := 2
  const REC_ADD: u8 := 1
  const REC_REMOVE: u8 := 2
  const HEADER: nat := 52
  const MAGIC: Bytes := [87, 65, 70, 83]  // "WAFS"

  datatype PackHead = PackHead(kind: u8, typ: u8, flags: u8, epoch: u64, num: u64, hash: u64, key: Key, count: u32)

  datatype PackRecord = PackRecord(op: u8, prefix: Prefix, value: Text, exp: i64, reason: Text)

  datatype PackError = PackShort | PackMagic | PackVersion | PackFamily(fam: u8) | PackSetType(typ: u8)

  // flags&FlagReasons != 0
  predicate HasReasons(flags: u8)
  {
    flags % 2 == 1
  }

  // ---------- encoding ----------

  function RecordBytes(t: u8, flags: u8, r: PackRecord): Bytes
  {
    if t == PACK_TYPE_CIDR then [r.op] + PrefixMaterial(r.prefix) + LE(AsU64(r.exp), 8)
    else
      [r.op] + LE(|r.value|, 2) + r.value + LE(AsU64(r.exp), 8)
        + if HasReasons(flags) then LE(|r.reason|, 2) + r.reason else []
  }

  function RecordSize(t: u8, flags: u8, r: PackRecord): nat
  {
    if t == PACK_TYPE_CIDR then (if r.prefix.addr.V4? then 15 else 27)
    else 1 + 2 + |r.value| + 8 + if HasReasons(flags) then 2 + |r.reason| else 0
  }

  lemma RecordBytesLength(t: u8, flags: u8, r: PackRecord)
    ensures |RecordBytes(t, flags, r)| == RecordSize(t, flags, r)
  {}

  function Body(t: u8, flags: u8, recs: seq<PackRecord>): Bytes
  {
    if recs == [] then []
    else Body(t, flags, recs[..|recs| - 1]) + RecordBytes(t, flags, recs[|recs| - 1])
  }

  function BodySize(t: u8, flags: u8, recs: seq<PackRecord>): nat
  {
    if recs == [] then 0
    else BodySize(t, flags, recs[..|recs| - 1]) + RecordSize(t, flags, recs[|recs| - 1])
  }

  function HeadBytes(h: PackHead): (b: Bytes)
    ensures |b| == HEADER
  {
    MAGIC + [PACK_VERSION, h.kind, h.typ, h.flags]
      + LE(h.epoch, 8) + LE(h.num, 8) + LE(h.hash, 8) + h.key + LE(h.count, 4)
  }

  // uint32(len(recs))
  function Counted(h: PackHead, n: nat): PackHead
  {
    h.(count := n % 0x1_0000_0000)
  }

  function PackBytes(h: PackHead, recs: seq<PackRecord>): Bytes
  {
    HeadBytes(Counted(h, |recs|)) + Body(h.typ, h.flags, recs)
  }

  // Where the fields of a header are: "WAFS", a 1, kind, type and flags, then epoch, number and
  // hash as eight bytes each, the key, and the count as four, all little-endian.
  lemma HeadLayout(h: PackHead, i: nat)
    ensures var b := HeadBytes(h);
            && |b| == 52 && b[..8] == [87, 65, 70, 83, 1, h.kind, h.typ, h.flags] && b[32..48] == h.key
            && (i < 8 ==> b[8 + i] == Shifted(h.epoch, i) % 256)
            && (i < 8 ==> b[16 + i] == Shifted(h.num, i) % 256 && b[24 + i] == Shifted(h.hash, i) % 256)
            && (i < 4 ==> b[48 + i] == Shifted(h.count, i) % 256)
  {
    hide LE, Shifted;
    if i < 8 {
      DigitAt(h.epoch, 8, i);
      DigitAt(h.num, 8, i);
      DigitAt(h.hash, 8, i);
    }
    if i < 4 {
      DigitAt(h.count, 4, i);
    }
  }

  // And of a record: its operation, then family, length and octets of a prefix, or length and
  // bytes of a text, then the expiry, and after it length and bytes of a reason if it has one.
  lemma RecordLayout(t: u8, flags: u8, r: PackRecord)
    ensures var b := RecordBytes(t, flags, r);
            if t == 1 then
              b[0] == r.op && b[1] == (if r.prefix.addr.V4? then 4 else 6)
              && (r.prefix.bits >= 0 ==> b[2] == r.prefix.bits)
              && (r.prefix.addr.V4? ==> b[3..7] == r.prefix.addr.b4) && (r.prefix.addr.V6? ==> b[3..19] == r.prefix.addr.b16)
              && b[|b| - 8..] == LE(AsU64(r.exp), 8)
            else
              var n := |r.value|;
              b[0] == r.op && b[1..3] == LE(n, 2) && b[3..3 + n] == r.value && b[3 + n..11 + n] == LE(AsU64(r.exp), 8)
              && if flags % 2 == 1 then b[11 + n..] == LE(|r.reason|, 2) + r.reason else |b| == 11 + n
  {
    hide LE;
    if t != PACK_TYPE_CIDR {
      var tail := if HasReasons(flags) then LE(|r.reason|, 2) + r.reason else [];
      TextLayout(r.op, LE(|r.value|, 2), r.value, LE(AsU64(r.exp), 8), tail);
    }
  }

  // ---------- decoding ----------

  // The record at the front of rest, and how many bytes it takes.
  function ReadRecord(t: u8, flags: u8, rest: Bytes): (res: Result<(PackRecord, nat), PackError>)
    ensures res.Ok? ==> 0 < res.value.1 <= |rest|
  {
    if |rest| < 1 then Err(PackShort)
    else if t == PACK_TYPE_CIDR then ReadPrefixRecord(rest)
    else if t == PACK_TYPE_STRING then ReadTextRecord(flags, rest)
    else Err(PackSetType(t))
  }

  function ReadPrefixRecord(rest: Bytes): (res: Result<(PackRecord, nat), PackError>)
    requires |rest| >= 1
    ensures res.Ok? ==> 0 < res.value.1 <= |rest|
  {
    if |rest| < 3 then Err(PackShort)
    else if rest[1] == 4 then
      if |rest| < 15 then Err(PackShort)
      else Ok((PackRecord(rest[0], PrefixFrom(V4(rest[3..7]), rest[2]), [], AsI64(LE64(rest[7..15])), []), 15))
    else if rest[1] == 6 then
      if |rest| < 27 then Err(PackShort)
      else Ok((PackRecord(rest[0], PrefixFrom(V6(rest[3..19]), rest[2]), [], AsI64(LE64(rest[19..27])), []), 27))
    else Err(PackFamily(rest[1]))
  }

  function ReadTextRecord(flags: u8, rest: Bytes): (res: Result<(PackRecord, nat), PackError>)
    requires |rest| >= 1
    ensures res.Ok? ==> 0 < res.value.1 <= |rest|
  {
    if |rest| < 3 then Err(PackShort) else
      var n := LE16(rest[1..3]);
      if |rest| < 11 + n then Err(PackShort) else
        var value, exp := rest[3..3 + n], AsI64(LE64(rest[3 + n..11 + n]));
        if !HasReasons(flags) then Ok((PackRecord(rest[0], NO_PREFIX, value, exp, []), 11 + n))
        else if |rest| < 13 + n then Err(PackShort) else
          var m := LE16(rest[11 + n..13 + n]);
          if |rest| < 13 + n + m then Err(PackShort)
          else Ok((PackRecord(rest[0], NO_PREFIX, value, exp, rest[13 + n..13 + n + m]), 13 + n + m))
  }

  // The first n records of rest, and how many bytes they take.
  function ReadRecords(t: u8, flags: u8, rest: Bytes, n: nat): (res: Result<(seq<PackRecord>, nat), PackError>)
    ensures res.Ok? ==> |res.value.0| == n && res.value.1 <= |rest|
  {
    if n == 0 then Ok(([], 0)) else
      match ReadRecords(t, flags, rest, n - 1)
      case Err(e) => Err(e)
      case Ok((recs, used)) =>
        match ReadRecord(t, flags, rest[used..])
        case Err(e) => Err(e)
        case Ok((r, more)) => Ok((recs + [r], used + more))
  }

  function ReadHead(data: Bytes): PackHead
    requires |data| >= HEADER
  {
    PackHead(data[5], data[6], data[7], LE64(data[8..16]), LE64(data[16..24]), LE64(data[24..32]),
             data[32..48], LE32(data[48..52]))
  }

  // Unpack; on success also how much of the data was read.
  function UnpackBytes(data: Bytes): (res: Result<(PackHead, seq<PackRecord>, nat), PackError>)
    ensures res.Ok? ==> HEADER <= res.value.2 <= |data|
  {
    if |data| < HEADER then Err(PackShort)
    else if data[..4] != MAGIC then Err(PackMagic)
    else if data[4] != PACK_VERSION then Err(PackVersion)
    else
      var head := ReadHead(data);
      match ReadRecords(head.typ, head.flags, data[HEADER..], head.count)
      case Err(e) => Err(e)
      case Ok((recs, used)) => Ok((head, recs, HEADER + used))
  }

  // ---------- decoding undoes encoding ----------

  // What the format carries of a record.
  function Cleared(t: u8, flags: u8, r: PackRecord): PackRecord
  {
    if t == PACK_TYPE_CIDR then PackRecord(r.op, r.prefix, [], r.exp, [])
    else PackRecord(r.op, NO_PREFIX, r.value, r.exp, if HasReasons(flags) then r.reason else [])
  }

  function ClearedAll(t: u8, flags: u8, recs: seq<PackRecord>): (r: seq<PackRecord>)
    ensures |r| == |recs|
  {
    seq(|recs|, i requires 0 <= i < |recs| => Cleared(t, flags, recs[i]))
  }

  // A record the format can carry.
  predicate RecordFits(t: u8, flags: u8, r: PackRecord)
  {
    if t == PACK_TYPE_CIDR then r.prefix.addr != NoAddr
    else t == PACK_TYPE_STRING && |r.value| < 0x1_0000 && (HasReasons(flags) ==> |r.reason| < 0x1_0000)
  }

  predicate AllFit(t: u8, flags: u8, recs: seq<PackRecord>)
  {
    forall i :: 0 <= i < |recs| ==> RecordFits(t, flags, recs[i])
  }

  lemma ExpRoundTrip(x: i64)
    ensures AsI64(LE64(LE(AsU64(x), 8))) == x
  {
    RoundTrips(AsU64(x));
  }

  lemma PrefixRoundTrip(p: Prefix)
    requires p.addr != NoAddr
    ensures PrefixFrom(p.addr, LengthByte(p)) == p
  {}

  lemma ReadPrefixEncoded(r: PackRecord, flags: u8, rest: Bytes)
    requires r.prefix.addr != NoAddr
    ensures ReadPrefixRecord(RecordBytes(PACK_TYPE_CIDR, flags, r) + rest)
         == Ok((Cleared(PACK_TYPE_CIDR, flags, r), RecordSize(PACK_TYPE_CIDR, flags, r)))
  {
    hide LE, LE64;
    var data, x := RecordBytes(PACK_TYPE_CIDR, flags, r) + rest, LE(AsU64(r.exp), 8);
    PrefixRoundTrip(r.prefix);
    ExpRoundTrip(r.exp);
    match r.prefix.addr
    case V4(b) =>
      assert data[3..7] == b && data[7..15] == x;
    case V6(b) =>
      assert data[3..19] == b && data[19..27] == x;
  }

  lemma TextLayout(op: u8, len: Bytes, text: Bytes, x: Bytes, tail: Bytes)
    requires |len| == 2 && |x| == 8
    ensures var data, n := [op] + len + text + x + tail, |text|;
            && data[0] == op && data[1..3] == len && data[3..3 + n] == text && data[3 + n..11 + n] == x
            && data[11 + n..] == tail
  {}

  lemma TailLayout(data: Bytes, k: nat, len: Bytes, text: Bytes, rest: Bytes)
    requires k <= |data| && data[k..] == len + text + rest && |len| == 2
    ensures |data| == k + 2 + |text| + |rest| && data[k..k + 2] == len && data[k + 2..k + 2 + |text|] == text
  {
    SliceOf(data, k, 0, 2);
    SliceOf(data, k, 2, 2 + |text|);
    var t := len + text + rest;
    assert t[0..2] == len && t[2..2 + |text|] == text;
  }

  lemma SliceOf(data: Bytes, pos: nat, i: nat, j: nat)
    requires i <= j && pos + j <= |data|
    ensures data[pos..][i..j] == data[pos + i..pos + j]
  {}

  lemma ReadTextEncoded(r: PackRecord, flags: u8, rest: Bytes)
    requires RecordFits(PACK_TYPE_STRING, flags, r)
    ensures ReadTextRecord(flags, RecordBytes(PACK_TYPE_STRING, flags, r) + rest)
         == Ok((Cleared(PACK_TYPE_STRING, flags, r), RecordSize(PACK_TYPE_STRING, flags, r)))
  {
    hide LE, LE16, LE64, FromLE, HasReasons;
    var data, x, n, m := RecordBytes(PACK_TYPE_STRING, flags, r) + rest, LE(AsU64(r.exp), 8), |r.value|, |r.reason|;
    ExpRoundTrip(r.exp);
    RoundTrips(n);
    var tail := if HasReasons(flags) then LE(m, 2) + r.reason + rest else rest;
    assert data == [r.op] + LE(n, 2) + r.value + x + tail;
    TextLayout(r.op, LE(n, 2), r.value, x, tail);
    if HasReasons(flags) {
      RoundTrips(m);
      TailLayout(data, 11 + n, LE(m, 2), r.reason, rest);
    }
  }

  lemma ReadEncoded(t: u8, flags: u8, r: PackRecord, rest: Bytes)
    requires RecordFits(t, flags, r)
    ensures ReadRecord(t, flags, RecordBytes(t, flags, r) + rest)
         == Ok((Cleared(t, flags, r), |RecordBytes(t, flags, r)|))
  {
    hide LE, ReadPrefixRecord, ReadTextRecord;
    RecordBytesLength(t, flags, r);
    if t == PACK_TYPE_CIDR {
      ReadPrefixEncoded(r, flags, rest);
    } else {
      ReadTextEncoded(r, flags, rest);
    }
  }

  lemma {:induction false} ReadBody(t: u8, flags: u8, recs: seq<PackRecord>, rest: Bytes)
    requires AllFit(t, flags, recs)
    ensures ReadRecords(t, flags, Body(t, flags, recs) + rest, |recs|)
         == Ok((ClearedAll(t, flags, recs), |Body(t, flags, recs)|))
  {
    hide ReadRecord, RecordBytes, Cleared, RecordFits;
    if recs != [] {
      var before, r := recs[..|recs| - 1], recs[|recs| - 1];
      var front, mine := Body(t, flags, before), RecordBytes(t, flags, r);
      assert Body(t, flags, recs) + rest == front + (mine + rest);
      ReadBody(t, flags, before, mine + rest);
      assert (front + (mine + rest))[|front|..] == mine + rest;
      ReadEncoded(t, flags, r, rest);
      assert ClearedAll(t, flags, recs) == ClearedAll(t, flags, before) + [Cleared(t, flags, r)];
    }
  }

  lemma ReadHeadEncoded(h: PackHead, rest: Bytes)
    ensures ReadHead(HeadBytes(h) + rest) == h
    ensures (HeadBytes(h) + rest)[..4] == MAGIC && (HeadBytes(h) + rest)[4] == PACK_VERSION
  {
    hide LE, LE32, LE64;
    var data := HeadBytes(h) + rest;
    RoundTrips(h.epoch);
    RoundTrips(h.num);
    RoundTrips(h.hash);
    RoundTrips(h.count);
    assert data[8..16] == LE(h.epoch, 8) && data[16..24] == LE(h.num, 8) && data[24..32] == LE(h.hash, 8);
    assert data[32..48] == h.key && data[48..52] == LE(h.count, 4);
  }

  // ---------- whatever is decoded could have been encoded ----------

  lemma DecodedFits(t: u8, flags: u8, rest: Bytes)
    requires ReadRecord(t, flags, rest).Ok?
    ensures var r := ReadRecord(t, flags, rest).value.0;
            RecordFits(t, flags, r) && r == Cleared(t, flags, r)
  {
    hide LE16, LE64;
  }

  lemma {:induction false} AllDecodedFit(t: u8, flags: u8, rest: Bytes, n: nat)
    requires ReadRecords(t, flags, rest, n).Ok?
    ensures var recs := ReadRecords(t, flags, rest, n).value.0;
            AllFit(t, flags, recs) && recs == ClearedAll(t, flags, recs)
  {
    hide ReadRecord, RecordFits, Cleared;
    if n > 0 {
      AllDecodedFit(t, flags, rest, n - 1);
      var (before, used) := ReadRecords(t, flags, rest, n - 1).value;
      DecodedFits(t, flags, rest[used..]);
      var recs := ReadRecords(t, flags, rest, n).value.0;
      forall i | 0 <= i < |recs|
        ensures RecordFits(t, flags, recs[i]) && recs[i] == Cleared(t, flags, recs[i])
      {
        assert i < |before| ==> recs[i] == before[i] == ClearedAll(t, flags, before)[i];
      }
    }
  }

  lemma ClearedKeepsFit(t: u8, flags: u8, r: PackRecord)
    ensures RecordFits(t, flags, Cleared(t, flags, r)) <==> RecordFits(t, flags, r)
  {}

  // The format's exact domain: unpacking gives back what was packed, with the true count,
  // if and only if the count fits 32 bits and every record fits its fields.
  lemma RoundTripExactly(h: PackHead, recs: seq<PackRecord>)
    ensures UnpackBytes(PackBytes(h, recs))
            == Ok((Counted(h, |recs|), ClearedAll(h.typ, h.flags, recs), |PackBytes(h, recs)|))
            <==> |recs| < 0x1_0000_0000 && AllFit(h.typ, h.flags, recs)
  {
    hide ReadRecords, HeadBytes, ReadHead, Body, Cleared, RecordFits, MAGIC;
    var t, flags, head := h.typ, h.flags, Counted(h, |recs|);
    var data, body := PackBytes(h, recs), Body(t, flags, recs);
    ReadHeadEncoded(head, body);
    assert data[HEADER..] == body;
    if |recs| < 0x1_0000_0000 && AllFit(t, flags, recs) {
      ReadBody(t, flags, recs, []);
      assert body + [] == body;
    }
    if UnpackBytes(data).Ok? {
      AllDecodedFit(t, flags, body, head.count);
      var got := ReadRecords(t, flags, body, head.count).value.0;
      if got == ClearedAll(t, flags, recs) {
        forall i | 0 <= i < |recs|
          ensures RecordFits(t, flags, recs[i])
        {
          assert got[i] == Cleared(t, flags, recs[i]);
          ClearedKeepsFit(t, flags, recs[i]);
        }
      }
    }
  }

  // ---------- encoding undoes decoding ----------

  // The length byte of the record in front names a length its family has, or is the 255
  // that stands for an invalid prefix.
  predicate FaithfulLength(t: u8, rest: Bytes)
  {
    t == PACK_TYPE_CIDR && |rest| >= 3 ==> rest[2] <= (if rest[1] == 4 then 32 else 128) || rest[2] == 255
  }

  predicate FaithfulLengths(t: u8, flags: u8, rest: Bytes, n: nat)
    requires ReadRecords(t, flags, rest, n).Ok?
  {
    n == 0 ||
    (FaithfulLengths(t, flags, rest, n - 1) && FaithfulLength(t, rest[ReadRecords(t, flags, rest, n - 1).value.1..]))
  }

  lemma BytesBack(b: Bytes)
    requires |b| == 8
    ensures LE(AsU64(AsI64(LE64(b))), 8) == b
  {
    EncodeDecoded(b);
  }

  lemma TakeApart(b: Bytes, n: nat, m: nat)
    requires n + m <= |b|
    ensures b[..n + m] == b[..n] + b[n..][..m]
  {}

  lemma SameParts(a: Bytes, b: Bytes, c: Bytes, d: Bytes)
    requires |a| == |c|
    ensures a + b == c + d <==> a == c && b == d
  {
    assert a == (a + b)[..|a|] && c == (c + d)[..|a|];
    assert b == (a + b)[|a|..] && d == (c + d)[|a|..];
  }

  lemma ReencodeFamily(flags: u8, rest: Bytes, a: Addr, x: i64)
    requires a != NoAddr
    requires a.V4? ==> |rest| >= 15 && rest[1] == 4 && a.b4 == rest[3..7] && x == AsI64(LE64(rest[7..15]))
    requires a.V6? ==> |rest| >= 27 && rest[1] == 6 && a.b16 == rest[3..19] && x == AsI64(LE64(rest[19..27]))
    ensures var n, b := if a.V4? then 15 else 27,
                        RecordBytes(PACK_TYPE_CIDR, flags, PackRecord(rest[0], PrefixFrom(a, rest[2]), [], x, []));
            |b| == n && (b == rest[..n] <==> FaithfulLength(PACK_TYPE_CIDR, rest))
  {
    hide LE, LE64;
    var n := if a.V4? then 15 else 27;
    var octets, p := if a.V4? then a.b4 else a.b16, PrefixFrom(a, rest[2]);
    BytesBack(rest[n - 8..n]);
    var front, back := [rest[0], rest[1], LengthByte(p)], octets + rest[n - 8..n];
    assert RecordBytes(PACK_TYPE_CIDR, flags, PackRecord(rest[0], p, [], x, [])) == front + back;
    assert rest[..n] == rest[..3] + back;
    SameParts(front, back, rest[..3], back);
    FrontIsFaithful(rest, a);
  }

  lemma FrontIsFaithful(rest: Bytes, a: Addr)
    requires |rest| >= 3 && a != NoAddr && rest[1] == if a.V4? then 4 else 6
    ensures [rest[0], rest[1], LengthByte(PrefixFrom(a, rest[2]))] == rest[..3] <==> FaithfulLength(PACK_TYPE_CIDR, rest)
  {
    assert rest[..3] == [rest[0], rest[1], rest[2]];
  }

  lemma ReencodePrefix(flags: u8, rest: Bytes)
    requires |rest| >= 1 && ReadPrefixRecord(rest).Ok?
    ensures var (r, used) := ReadPrefixRecord(rest).value;
            && |RecordBytes(PACK_TYPE_CIDR, flags, r)| == used
            && (RecordBytes(PACK_TYPE_CIDR, flags, r) == rest[..used] <==> FaithfulLength(PACK_TYPE_CIDR, rest))
  {
    hide LE, LE64, RecordBytes, FaithfulLength;
    if rest[1] == 4 {
      ReencodeFamily(flags, rest, V4(rest[3..7]), AsI64(LE64(rest[7..15])));
    } else {
      ReencodeFamily(flags, rest, V6(rest[3..19]), AsI64(LE64(rest[19..27])));
    }
  }

  lemma TextFront(rest: Bytes, n: nat)
    requires 11 + n <= |rest|
    ensures rest[..11 + n] == [rest[0]] + rest[1..3] + rest[3..3 + n] + rest[3 + n..11 + n]
  {}

  lemma ReencodeText(flags: u8, rest: Bytes)
    requires |rest| >= 1 && ReadTextRecord(flags, rest).Ok?
    ensures var (r, used) := ReadTextRecord(flags, rest).value;
            RecordBytes(PACK_TYPE_STRING, flags, r) == rest[..used]
  {
    hide LE, LE64, FromLE;
    var (r, used) := ReadTextRecord(flags, rest).value;
    var n := |r.value|;
    EncodeDecoded(rest[1..3]);
    BytesBack(rest[3 + n..11 + n]);
    var front := [rest[0]] + rest[1..3] + rest[3..3 + n] + rest[3 + n..11 + n];
    TextFront(rest, n);
    if HasReasons(flags) {
      EncodeDecoded(rest[11 + n..13 + n]);
      TakeApart(rest, 11 + n, used - 11 - n);
      TakeApart(rest[11 + n..], 2, used - 13 - n);
      SliceOf(rest, 11 + n, 0, 2);
      SliceOf(rest, 11 + n, 2, used - 11 - n);
      assert rest[11 + n..][2..][..used - 13 - n] == rest[13 + n..used];
    }
  }

  lemma ReencodeRecord(t: u8, flags: u8, rest: Bytes)
    requires ReadRecord(t, flags, rest).Ok?
    ensures var (r, used) := ReadRecord(t, flags, rest).value;
            && |RecordBytes(t, flags, r)| == used
            && (RecordBytes(t, flags, r) == rest[..used] <==> FaithfulLength(t, rest))
  {
    hide RecordBytes, ReadPrefixRecord, ReadTextRecord;
    if t == PACK_TYPE_CIDR {
      ReencodePrefix(flags, rest);
    } else {
      ReencodeText(flags, rest);
    }
  }

  lemma {:induction false} ReencodeRecords(t: u8, flags: u8, rest: Bytes, n: nat)
    requires ReadRecords(t, flags, rest, n).Ok?
    ensures var (recs, used) := ReadRecords(t, flags, rest, n).value;
            && |Body(t, flags, recs)| == used
            && (Body(t, flags, recs) == rest[..used] <==> FaithfulLengths(t, flags, rest, n))
  {
    hide RecordBytes, ReadRecord, FaithfulLength;
    if n > 0 {
      ReencodeRecords(t, flags, rest, n - 1);
      var (before, used) := ReadRecords(t, flags, rest, n - 1).value;
      var (r, more) := ReadRecord(t, flags, rest[used..]).value;
      ReencodeRecord(t, flags, rest[used..]);
      var recs := ReadRecords(t, flags, rest, n).value.0;
      assert recs[..|recs| - 1] == before && recs[|recs| - 1] == r;
      TakeApart(rest, used, more);
      SameParts(Body(t, flags, before), RecordBytes(t, flags, r), rest[..used], rest[used..][..more]);
    }
  }

  lemma ReencodeHead(data: Bytes)
    requires |data| >= HEADER && data[..4] == MAGIC && data[4] == PACK_VERSION
    ensures HeadBytes(ReadHead(data)) == data[..HEADER]
  {
    hide LE, FromLE;
    EncodeDecoded(data[8..16]);
    EncodeDecoded(data[16..24]);
    EncodeDecoded(data[24..32]);
    EncodeDecoded(data[48..52]);
    assert data[..HEADER] == data[..4] + [data[4], data[5], data[6], data[7]]
      + data[8..16] + data[16..24] + data[24..32] + data[32..48] + data[48..52];
  }

  // Packing what was unpacked gives the bytes read if and only if the length bytes are faithful.
  lemma RepackExactly(data: Bytes)
    requires UnpackBytes(data).Ok?
    ensures var (head, recs, used) := UnpackBytes(data).value;
            && |PackBytes(head, recs)| == used
            && (PackBytes(head, recs) == data[..used]
                <==> FaithfulLengths(head.typ, head.flags, data[HEADER..], head.count))
  {
    hide ReadRecords, HeadBytes, ReadHead, Body, FaithfulLengths;
    var (head, recs, used) := UnpackBytes(data).value;
    ReencodeHead(data);
    ReencodeRecords(head.typ, head.flags, data[HEADER..], head.count);
    assert Counted(head, |recs|) == head;
    TakeApart(data, HEADER, used - HEADER);
    SameParts(HeadBytes(head), Body(head.typ, head.flags, recs), data[..HEADER], data[HEADER..][..used - HEADER]);
  }
}
