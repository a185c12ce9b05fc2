// Pack and Unpack of internal/wire/pack.go: the loops over a growing buffer and an
// advancing position, proved against the functions of Codec.
module Packing {
  import opened Types
  import opened LittleEndian
  import opened NetPrefix
  import opened Codec
  import opened PackOrder

  method AppendRecord(out0: Bytes, t: u8, flags: u8, r: PackRecord) returns (out: Bytes)
    ensures out == out0 + RecordBytes(t, flags, r)
  {
    out := out0 + [r.op];
    if t == PACK_TYPE_CIDR {
      out := out + PrefixMaterial(r.prefix);
      out := out + LE(AsU64(r.exp), 8);
      return;
    }
    out := out + LE(|r.value|, 2);
    out := out + r.value;
    out := out + LE(AsU64(r.exp), 8);
    if HasReasons(flags) {
      out := out + LE(|r.reason|, 2);
      out := out + r.reason;
    }
  }

  // What the source reserves for the records.
  method SizeOf(t: u8, flags: u8, recs: seq<PackRecord>) returns (size: nat)
    ensures size == BodySize(t, flags, recs)
  {
    hide RecordSize;
    size := 0;
    for i := 0 to |recs|
      invariant size == BodySize(t, flags, recs[..i])
    {
      assert recs[..i + 1][..i] == recs[..i];
      size := size + RecordSize(t, flags, recs[i]);
    }
    assert recs[..|recs|] == recs;
  }

  method AppendRecords(out0: Bytes, t: u8, flags: u8, recs: seq<PackRecord>) returns (out: Bytes)
    ensures out == out0 + Body(t, flags, recs)
  {
    hide RecordBytes;
    out := out0;
    for i := 0 to |recs|
      invariant out == out0 + Body(t, flags, recs[..i])
    {
      assert recs[..i + 1][..i] == recs[..i];
      out := AppendRecord(out, t, flags, recs[i]);
    }
    assert recs[..|recs|] == recs;
  }

  // size is what the source reserves for the buffer.
  method Pack(head: PackHead, recs: array<PackRecord>) returns (out: Bytes, size: nat)
    modifies recs
    ensures multiset(recs[..]) == old(multiset(recs[..]))
    ensures if head.kind == KIND_SNAPSHOT then Sorted(head.typ, recs[..]) else recs[..] == old(recs[..])
    ensures out == PackBytes(head, recs[..])
    ensures |out| == size == HEADER + BodySize(head.typ, head.flags, recs[..])
  {
    hide Less, RecordBytes, RecordSize, HeadBytes, Body, BodySize, Sorted;
    if head.kind == KIND_SNAPSHOT {
      SortRecords(head.typ, recs);
    }
    size := SizeOf(head.typ, head.flags, recs[..]);
    size := HEADER + size;
    out := AppendRecords(HeadBytes(Counted(head, recs.Length)), head.typ, head.flags, recs[..]);
    BodyLength(head.typ, head.flags, recs[..]);
  }

  lemma {:induction false} BodyLength(t: u8, flags: u8, recs: seq<PackRecord>)
    ensures |Body(t, flags, recs)| == BodySize(t, flags, recs)
  {
    hide RecordBytes, RecordSize;
    if recs != [] {
      BodyLength(t, flags, recs[..|recs| - 1]);
      RecordBytesLength(t, flags, recs[|recs| - 1]);
    }
  }

  // One round of Unpack's loop: the record at pos, and the position after it.
  method UnpackRecord(t: u8, flags: u8, data: Bytes, pos: nat) returns (res: Result<(PackRecord, nat), PackError>)
    requires pos <= |data|
    ensures res == Moved(pos, ReadRecord(t, flags, data[pos..]))
  {
    hide ReadPrefixRecord, ReadTextRecord;
    if pos + 1 > |data| {
      return Err(PackShort);
    }
    if t == PACK_TYPE_CIDR {
      res := UnpackPrefix(data, pos);
    } else if t == PACK_TYPE_STRING {
      res := UnpackText(flags, data, pos);
    } else {
      res := Err(PackSetType(t));
    }
  }

  // The position after a record, from its size.
  function Moved(pos: nat, res: Result<(PackRecord, nat), PackError>): Result<(PackRecord, nat), PackError>
  {
    match res
    case Err(e) => Err(e)
    case Ok((r, used)) => Ok((r, pos + used))
  }

  method UnpackPrefix(data: Bytes, pos0: nat) returns (res: Result<(PackRecord, nat), PackError>)
    requires pos0 < |data|
    ensures res == Moved(pos0, ReadPrefixRecord(data[pos0..]))
  {
    hide LE64, AsI64, PrefixFrom;
    var pos := pos0 + 1;
    if pos + 2 > |data| {
      return Err(PackShort);
    }
    var fam, bits, prefix := data[pos], data[pos + 1], NO_PREFIX;
    pos := pos + 2;
    if fam == 4 {
      if pos + 4 + 8 > |data| {
        return Err(PackShort);
      }
      SliceOf(data, pos0, 3, 7);
      SliceOf(data, pos0, 7, 15);
      prefix := PrefixFrom(V4(data[pos..pos + 4]), bits);
      pos := pos + 4;
    } else if fam == 6 {
      if pos + 16 + 8 > |data| {
        return Err(PackShort);
      }
      SliceOf(data, pos0, 3, 19);
      SliceOf(data, pos0, 19, 27);
      prefix := PrefixFrom(V6(data[pos..pos + 16]), bits);
      pos := pos + 16;
    } else {
      return Err(PackFamily(fam));
    }
    res := Ok((PackRecord(data[pos0], prefix, [], AsI64(LE64(data[pos..pos + 8])), []), pos + 8));
  }

  method UnpackText(flags: u8, data: Bytes, pos0: nat) returns (res: Result<(PackRecord, nat), PackError>)
    requires pos0 < |data|
    ensures res == Moved(pos0, ReadTextRecord(flags, data[pos0..]))
  {
    hide LE16, LE64, AsI64, HasReasons;
    var pos := pos0 + 1;
    if pos + 2 > |data| {
      return Err(PackShort);
    }
    SliceOf(data, pos0, 1, 3);
    var n: nat := LE16(data[pos..pos + 2]);
    pos := pos + 2;
    if pos + n + 8 > |data| {
      return Err(PackShort);
    }
    SliceOf(data, pos0, 3, 3 + n);
    SliceOf(data, pos0, 3 + n, 11 + n);
    var value, reason: Text := data[pos..pos + n], [];
    pos := pos + n;
    var exp := AsI64(LE64(data[pos..pos + 8]));
    pos := pos + 8;
    if HasReasons(flags) {
      if pos + 2 > |data| {
        return Err(PackShort);
      }
      SliceOf(data, pos0, 11 + n, 13 + n);
      var m: nat := LE16(data[pos..pos + 2]);
      pos := pos + 2;
      if pos + m > |data| {
        return Err(PackShort);
      }
      SliceOf(data, pos0, 13 + n, 13 + n + m);
      reason := data[pos..pos + m];
      pos := pos + m;
    }
    res := Ok((PackRecord(data[pos0], NO_PREFIX, value, exp, reason), pos));
  }

  lemma {:induction false} ErrorStays(t: u8, flags: u8, rest: Bytes, i: nat, n: nat)
    requires i <= n && ReadRecords(t, flags, rest, i).Err?
    ensures ReadRecords(t, flags, rest, n) == ReadRecords(t, flags, rest, i)
  {
    hide ReadRecord;
    if i < n {
      ErrorStays(t, flags, rest, i, n - 1);
    }
  }

  method Unpack(data: Bytes) returns (res: Result<(PackHead, seq<PackRecord>), PackError>)
    ensures res == match UnpackBytes(data)
                   case Err(e) => Err(e)
                   case Ok((head, recs, used)) => Ok((head, recs))
  {
    hide ReadRecord, LE32, LE64;
    if |data| < HEADER {
      return Err(PackShort);
    }
    if data[..4] != MAGIC {
      return Err(PackMagic);
    }
    if data[4] != PACK_VERSION {
      return Err(PackVersion);
    }
    var head := PackHead(data[5], data[6], data[7], LE64(data[8..16]), LE64(data[16..24]), LE64(data[24..32]),
                         data[32..48], LE32(data[48..52]));
    ghost var rest := data[HEADER..];
    var recs: seq<PackRecord> := [];
    var pos := HEADER;
    for i := 0 to head.count
      invariant HEADER <= pos <= |data|
      invariant ReadRecords(head.typ, head.flags, rest, i) == Ok((recs, pos - HEADER))
    {
      assert rest[pos - HEADER..] == data[pos..];
      var one := UnpackRecord(head.typ, head.flags, data, pos);
      if one.Err? {
        ErrorStays(head.typ, head.flags, rest, i + 1, head.count);
        return Err(one.error);
      }
      recs := recs + [one.value.0];
      pos := one.value.1;
    }
    res := Ok((head, recs));
  }

  // ---------- what the two promise together ----------

  // Snapshot bytes depend only on the records: any two orders they come in, such as two
  // iterations over the same map, are packed to the same bytes.
  lemma SnapshotBytesCanonical(head: PackHead, a: seq<PackRecord>, b: seq<PackRecord>,
                               a': seq<PackRecord>, b': seq<PackRecord>)
    requires multiset(a) == multiset(b) && DistinctKeys(head.typ, a)
    requires Sorted(head.typ, a') && multiset(a') == multiset(a)
    requires Sorted(head.typ, b') && multiset(b') == multiset(b)
    ensures PackBytes(head, a') == PackBytes(head, b')
  {
    hide Less, SameKey;
    forall r, q | r in a' && q in a' && SameKey(head.typ, r, q)
      ensures r == q
    {
      SameElements(a', a, r);
      SameElements(a', a, q);
    }
    SortedUnique(head.typ, a', b');
  }

  // Unpacking a snapshot whose records are in order and packing it again, with whatever
  // sorted arrangement sort.Slice finds, gives the bytes read if and only if the length
  // bytes are faithful.
  lemma RepackSnapshotExactly(data: Bytes, again: seq<PackRecord>)
    requires UnpackBytes(data).Ok?
    requires var (head, recs, used) := UnpackBytes(data).value;
             && Sorted(head.typ, recs) && DistinctKeys(head.typ, recs)
             && Sorted(head.typ, again) && multiset(again) == multiset(recs)
    ensures var (head, recs, used) := UnpackBytes(data).value;
            PackBytes(head, again) == data[..used]
            <==> FaithfulLengths(head.typ, head.flags, data[HEADER..], head.count)
  {
    hide UnpackBytes, Less, SameKey, PackBytes;
    var (head, recs, used) := UnpackBytes(data).value;
    SnapshotBytesCanonical(head, recs, recs, recs, again);
    UnpackedHead(data);
    RepackExactly(data);
  }

  lemma UnpackedHead(data: Bytes)
    requires UnpackBytes(data).Ok?
    ensures var (head, recs, used) := UnpackBytes(data).value;
            |data| >= HEADER && ReadRecords(head.typ, head.flags, data[HEADER..], head.count).Ok?
  {}
}
