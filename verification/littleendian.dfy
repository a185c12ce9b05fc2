// Fixed-width little-endian integers, and int64 carried as uint64.
module LittleEndian {
  import opened Types

  function Pow256(n: nat): (p: nat)
    ensures p > 0
  {
    if n == 0 then 1 else 256 * Pow256(n - 1)
  }

  // The low n bytes of x, least significant first; higher bytes are cut off.
  function LE(x: nat, n: nat): (b: Bytes)
    ensures |b| == n
  {
    if n == 0 then [] else [x % 256] + LE(x / 256, n - 1)
  }

  function FromLE(b: Bytes): nat
  {
    if b == [] then 0 else b[0] + 256 * FromLE(b[1..])
  }

  // Byte i of n is the digit of 256 to the i, cut off the rest.
  lemma {:induction false} DigitAt(x: nat, n: nat, i: nat)
    requires i < n
    ensures LE(x, n)[i] == Shifted(x, i) % 256
  {
    if i > 0 {
      DigitAt(x / 256, n - 1, i - 1);
    }
  }

  // x without its low i bytes.
  function Shifted(x: nat, i: nat): nat
  {
    if i == 0 then x else Shifted(x / 256, i - 1)
  }

  lemma {:induction false} FromLEBound(b: Bytes)
    ensures FromLE(b) < Pow256(|b|)
  {
    if b != [] {
      FromLEBound(b[1..]);
    }
  }

  lemma {:induction false} DecodeEncoded(x: nat, n: nat)
    requires x < Pow256(n)
    ensures FromLE(LE(x, n)) == x
  {
    if n > 0 {
      DecodeEncoded(x / 256, n - 1);
      assert LE(x, n)[1..] == LE(x / 256, n - 1);
    }
  }

  lemma {:induction false} EncodeDecoded(b: Bytes)
    ensures LE(FromLE(b), |b|) == b
  {
    if b != [] {
      EncodeDecoded(b[1..]);
      assert FromLE(b) % 256 == b[0] && FromLE(b) / 256 == FromLE(b[1..]);
    }
  }

  lemma Widths()
    ensures Pow256(2) == 0x1_0000 && Pow256(4) == 0x1_0000_0000 && Pow256(8) == 0x1_0000_0000_0000_0000
  {
    assert Pow256(3) == 256 * Pow256(2);
    assert Pow256(5) == 256 * Pow256(4) && Pow256(6) == 256 * Pow256(5) && Pow256(7) == 256 * Pow256(6);
  }

  function LE16(b: Bytes): (x: u16)
    requires |b| == 2
  {
    FromLEBound(b);
    Widths();
    FromLE(b)
  }

  function LE32(b: Bytes): (x: u32)
    requires |b| == 4
  {
    FromLEBound(b);
    Widths();
    FromLE(b)
  }

  function LE64(b: Bytes): (x: u64)
    requires |b| == 8
  {
    FromLEBound(b);
    Widths();
    FromLE(b)
  }

  // uint64(x) and int64(x): the same 64 bits.
  function AsU64(x: i64): u64
  {
    if x < 0 then x + 0x1_0000_0000_0000_0000 else x
  }

  function AsI64(x: u64): i64
  {
    if x < 0x8000_0000_0000_0000 then x else x - 0x1_0000_0000_0000_0000
  }

  lemma RoundTrips(x: u64)
    ensures LE64(LE(x, 8)) == x
    ensures x < 0x1_0000 ==> LE16(LE(x, 2)) == x
    ensures x < 0x1_0000_0000 ==> LE32(LE(x, 4)) == x
  {
    hide LE, FromLE, Pow256;
    Widths();
    DecodeEncoded(x, 8);
    if x < 0x1_0000_0000 {
      DecodeEncoded(x, 4);
    }
    if x < 0x1_0000 {
      DecodeEncoded(x, 2);
    }
  }
}
