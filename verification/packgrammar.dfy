// The byte strings Unpack accepts (internal/wire/pack.go), described without reading them
// from left to right: a header, as many records as it counts, and whatever follows.
module PackGrammar {
  import opened Types
  import opened LittleEndian
  import opened Codec

  // The bytes are those of one record, no more and no fewer, whatever its fields hold.
  predicate IsRecord(t: u8, flags: u8, c: Bytes)
  {
    if t == PACK_TYPE_CIDR then (|c| == 15 && c[1] == 4) || (|c| == 27 && c[1] == 6)
    else
      && t == PACK_TYPE_STRING && |c| >= 11
      && var n := LE16(c[1..3]);
         if flags % 2 == 0 then |c| == 11 + n
         else |c| >= 13 + n && |c| == 13 + n + LE16(c[11 + n..13 + n])
  }

  predicate AreRecords(t: u8, flags: u8, chunks: seq<Bytes>)
  {
    forall i :: 0 <= i < |chunks| ==> IsRecord(t, flags, chunks[i])
  }

  function Joined(chunks: seq<Bytes>): Bytes
  {
    if chunks == [] then [] else Joined(chunks[..|chunks| - 1]) + chunks[|chunks| - 1]
  }

  lemma ReadTakesRecord(t: u8, flags: u8, rest: Bytes)
    requires ReadRecord(t, flags, rest).Ok?
    ensures IsRecord(t, flags, rest[..ReadRecord(t, flags, rest).value.1])
  {
    hide LE16, LE64;
    var k := ReadRecord(t, flags, rest).value.1;
    if t != PACK_TYPE_CIDR {
      var n := LE16(rest[1..3]);
      assert rest[..k][1..3] == rest[1..3];
      assert HasReasons(flags) ==> rest[..k][11 + n..13 + n] == rest[11 + n..13 + n];
    }
  }

  lemma ReadFindsRecord(t: u8, flags: u8, rest: Bytes, k: nat)
    requires k <= |rest| && IsRecord(t, flags, rest[..k])
    ensures ReadRecord(t, flags, rest).Ok? && ReadRecord(t, flags, rest).value.1 == k
  {
    hide LE16, LE64;
    var c := rest[..k];
    assert c[1] == rest[1];
    if t != PACK_TYPE_CIDR {
      var n := LE16(rest[1..3]);
      assert c[1..3] == rest[1..3];
      assert HasReasons(flags) ==> c[11 + n..13 + n] == rest[11 + n..13 + n];
    }
  }

  lemma {:induction false} ReadTakesRecords(t: u8, flags: u8, rest: Bytes, n: nat) returns (chunks: seq<Bytes>)
    requires ReadRecords(t, flags, rest, n).Ok?
    ensures |chunks| == n && AreRecords(t, flags, chunks)
    ensures Joined(chunks) == rest[..ReadRecords(t, flags, rest, n).value.1]
  {
    hide IsRecord, ReadRecord;
    if n == 0 {
      chunks := [];
    } else {
      var before := ReadTakesRecords(t, flags, rest, n - 1);
      var used := ReadRecords(t, flags, rest, n - 1).value.1;
      var k := ReadRecord(t, flags, rest[used..]).value.1;
      ReadTakesRecord(t, flags, rest[used..]);
      chunks := before + [rest[used..][..k]];
      assert chunks[..n - 1] == before;
      assert rest[..used] + rest[used..][..k] == rest[..used + k];
    }
  }

  lemma {:induction false} ReadFindsRecords(t: u8, flags: u8, rest: Bytes, chunks: seq<Bytes>)
    requires AreRecords(t, flags, chunks) && Joined(chunks) <= rest
    ensures ReadRecords(t, flags, rest, |chunks|).Ok?
    ensures ReadRecords(t, flags, rest, |chunks|).value.1 == |Joined(chunks)|
  {
    hide IsRecord, ReadRecord;
    if chunks != [] {
      var n := |chunks| - 1;
      var before, c := Joined(chunks[..n]), chunks[n];
      ReadFindsRecords(t, flags, rest, chunks[..n]);
      var more := rest[|before|..];
      assert more[..|c|] == Joined(chunks)[|before|..] == c;
      ReadFindsRecord(t, flags, more, |c|);
    }
  }

  // The data is a package: the records its header counts, of the type and with the flags
  // it names, and perhaps more bytes behind them.
  ghost predicate IsPackage(data: Bytes)
  {
    && |data| >= 52 && data[..5] == [87, 65, 70, 83, 1]
    && exists chunks :: |chunks| == LE32(data[48..52]) && AreRecords(data[6], data[7], chunks) && Joined(chunks) <= data[52..]
  }

  // Unpack accepts the packages and nothing else; the rest it refuses for a reason that is there.
  lemma UnpackAcceptsExactly(data: Bytes)
    ensures UnpackBytes(data).Ok? <==> IsPackage(data)
    ensures UnpackBytes(data) == Err(PackMagic) <==> |data| >= 52 && data[..4] != [87, 65, 70, 83]
    ensures UnpackBytes(data) == Err(PackVersion) <==> |data| >= 52 && data[..4] == [87, 65, 70, 83] && data[4] != 1
  {
    hide IsRecord, ReadRecords, Joined, LE16, LE64, LE32, AreRecords;
    if |data| >= 52 {
      var t, flags, rest, n := data[6], data[7], data[52..], LE32(data[48..52]);
      assert data[..5] == data[..4] + [data[4]];
      ReadErrors(t, flags, rest, n);
      if ReadRecords(t, flags, rest, n).Ok? {
        var chunks := ReadTakesRecords(t, flags, rest, n);
      }
      if IsPackage(data) {
        var chunks :| |chunks| == n && AreRecords(t, flags, chunks) && Joined(chunks) <= rest;
        ReadFindsRecords(t, flags, rest, chunks);
      }
    }
  }

  // A record is refused because bytes are missing, or for a family or type it cannot be of.
  lemma {:induction false} ReadErrors(t: u8, flags: u8, rest: Bytes, n: nat)
    ensures ReadRecords(t, flags, rest, n).Err? ==>
              match ReadRecords(t, flags, rest, n).error
              case PackShort => true
              case PackFamily(fam) => t == PACK_TYPE_CIDR && fam != 4 && fam != 6 && fam in rest
              case PackSetType(typ) => typ == t && t != PACK_TYPE_CIDR && t != PACK_TYPE_STRING
              case _ => false
  {
    hide LE16, LE64;
    if n > 0 {
      ReadErrors(t, flags, rest, n - 1);
    }
  }
}
