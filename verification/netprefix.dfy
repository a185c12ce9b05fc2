// netip addresses and prefixes as data, and the hash material made from them
// (internal/set/material.go, internal/set/canon.go). Text is parsed and printed
// by net/netip, which is not modelled: it enters as a pair of functions.
module NetPrefix {
  import opened Types

  type Octets4 = b: Bytes | |b| == 4 witness [0, 0, 0, 0]
  type Octets16 = b: Bytes | |b| == 16 witness [0, 0, 0, 0, 0, 0, 0, 0, 0, 0, 0, 0, 0, 0, 0, 0]

  datatype Addr = NoAddr | V4(b4: Octets4) | V6(b16: Octets16)

  // Width of an address, -1 when there is none, so that no prefix length fits it.
  function BitLen(a: Addr): int
  {
    match a
    case NoAddr => -1
    case V4(_) => 32
    case V6(_) => 128
  }

  datatype RawPrefix = Prefix(addr: Addr, bits: int)

  // A netip.Prefix: the length is -1 when the prefix is invalid.
  type Prefix = p: RawPrefix | -1 <= p.bits <= BitLen(p.addr) witness Prefix(NoAddr, -1)

  const NO_PREFIX: Prefix := Prefix(NoAddr, -1)

  function PrefixFrom(a: Addr, bits: int): Prefix
  {
    Prefix(a, if 0 <= bits <= BitLen(a) then bits else -1)
  }

  predicate IsValid(p: Prefix)
  {
    p.bits >= 0
  }

  // ---------- masking ----------

  // How many leading bits of octet i a prefix of the given length keeps.
  function Kept(bits: int, i: nat): nat
  {
    if bits <= 8 * i then 0 else if bits >= 8 * i + 8 then 8 else bits - 8 * i
  }

  // x with its low bits cleared.
  function Clear(x: nat, low: nat): (r: nat)
    ensures r <= x
    decreases low
  {
    if low == 0 then x else 2 * Clear(x / 2, low - 1)
  }

  function MaskOctet(x: u8, kept: nat): u8
    requires kept <= 8
  {
    Clear(x, 8 - kept)
  }

  function MaskOctets(b: Bytes, bits: int): (r: Bytes)
    ensures |r| == |b|
  {
    seq(|b|, i requires 0 <= i < |b| => MaskOctet(b[i], Kept(bits, i)))
  }

  // netip.Prefix.Masked: an invalid prefix masks to the zero prefix.
  function Masked(p: Prefix): Prefix
  {
    if p.bits < 0 then NO_PREFIX else
      match p.addr
      case NoAddr => NO_PREFIX
      case V4(b) => PrefixFrom(V4(MaskOctets(b, p.bits)), p.bits)
      case V6(b) => PrefixFrom(V6(MaskOctets(b, p.bits)), p.bits)
  }

  // An IPv4 address carried in IPv6 form, ::ffff:a.b.c.d.
  predicate Is4In6(a: Addr)
  {
    a.V6? && a.b16[..12] == [0, 0, 0, 0, 0, 0, 0, 0, 0, 0, 0xff, 0xff]
  }

  function Unmap(a: Addr): Addr
  {
    if Is4In6(a) then V4(a.b16[12..]) else a
  }

  function MaterialPrefix(p: Prefix): Prefix
  {
    if Is4In6(p.addr) && p.bits >= 96 then Masked(PrefixFrom(Unmap(p.addr), p.bits - 96))
    else Masked(PrefixFrom(p.addr, p.bits))
  }

  // byte(int) keeps the low eight bits: an invalid length, -1, becomes 255.
  function LengthByte(p: Prefix): u8
  {
    if p.bits < 0 then 255 else p.bits
  }

  // The sixteen octets of an IPv6 address; the zero address reads as all zeroes.
  function As16(a: Addr): Octets16
    requires !a.V4?
  {
    if a.V6? then a.b16 else [0, 0, 0, 0, 0, 0, 0, 0, 0, 0, 0, 0, 0, 0, 0, 0]
  }

  function PrefixMaterial(p: Prefix): Bytes
  {
    if p.addr.V4? then [4, LengthByte(p)] + p.addr.b4 else [6, LengthByte(p)] + As16(p.addr)
  }

  // ---------- laws ----------

  lemma {:induction false} ClearTwice(x: nat, low: nat)
    ensures Clear(Clear(x, low), low) == Clear(x, low)
    decreases low
  {
    if low > 0 {
      ClearTwice(x / 2, low - 1);
      assert 2 * Clear(x / 2, low - 1) / 2 == Clear(x / 2, low - 1);
    }
  }

  function Power2(n: nat): nat
  {
    if n == 0 then 1 else 2 * Power2(n - 1)
  }

  lemma {:induction false} ClearAll(x: nat, low: nat)
    requires x < Power2(low)
    ensures Clear(x, low) == 0
  {
    if low > 0 {
      ClearAll(x / 2, low - 1);
    }
  }

  lemma MaskOctetTwice(x: u8, kept: nat)
    requires kept <= 8
    ensures MaskOctet(MaskOctet(x, kept), kept) == MaskOctet(x, kept)
    ensures kept == 8 ==> MaskOctet(x, kept) == x
    ensures kept == 0 ==> MaskOctet(x, kept) == 0
    ensures kept < 8 ==> MaskOctet(x, kept) % 2 == 0
  {
    ClearTwice(x, 8 - kept);
    assert Power2(8) == 2 * Power2(7) == 4 * Power2(6) == 8 * Power2(5) == 16 * Power2(4);
    ClearAll(x, 8);
  }

  // Clearing takes off less than the place it clears, down to a multiple of it.
  lemma {:induction false} ClearBounds(x: nat, low: nat) returns (k: nat)
    ensures Clear(x, low) <= x < Clear(x, low) + Power2(low)
    ensures Clear(x, low) == k * Power2(low)
    decreases low
  {
    if low == 0 {
      k := x;
    } else {
      k := ClearBounds(x / 2, low - 1);
      Doubled(k, Power2(low - 1));
    }
  }

  lemma Doubled(k: nat, p: nat)
    ensures k * (2 * p) == 2 * (k * p)
  {}

  // A masked octet is the multiple of the place of its last kept bit just below the octet.
  lemma MaskOctetBounds(x: u8, kept: nat) returns (k: nat)
    requires kept <= 8
    ensures MaskOctet(x, kept) <= x < MaskOctet(x, kept) + Power2(8 - kept)
    ensures MaskOctet(x, kept) == k * Power2(8 - kept)
  {
    k := ClearBounds(x, 8 - kept);
  }

  // Bit j of a number, from the least one.
  predicate LowBit(x: nat, j: nat)
  {
    if j == 0 then x % 2 == 1 else LowBit(x / 2, j - 1)
  }

  lemma {:induction false} ClearBit(x: nat, low: nat, j: nat)
    ensures LowBit(Clear(x, low), j) <==> j >= low && LowBit(x, j)
    decreases low
  {
    if low > 0 && j > 0 {
      ClearBit(x / 2, low - 1, j - 1);
      assert 2 * Clear(x / 2, low - 1) / 2 == Clear(x / 2, low - 1);
    }
  }

  // Bit i of an address, from the first one.
  predicate Bit(b: Bytes, i: nat)
    requires i < 8 * |b|
  {
    LowBit(b[i / 8], 7 - i % 8)
  }

  // A mask keeps the first bits and clears the rest.
  lemma MaskKeepsBits(b: Bytes, bits: int, i: nat)
    requires i < 8 * |b|
    ensures Bit(MaskOctets(b, bits), i) <==> i < bits && Bit(b, i)
  {
    hide LowBit, Clear;
    ClearBit(b[i / 8], 8 - Kept(bits, i / 8), 7 - i % 8);
  }

  // So a masked prefix has the same family and length, the address's first bits, and zeros.
  lemma MaskedKeeps(p: Prefix, i: nat)
    requires IsValid(p) && i < BitLen(p.addr)
    ensures var q := Masked(p);
            && q.bits == p.bits && BitLen(q.addr) == BitLen(p.addr)
            && (AddrBit(q.addr, i) <==> i < p.bits && AddrBit(p.addr, i))
  {
    hide Bit, MaskOctets;
    MaskKeepsBits(if p.addr.V4? then p.addr.b4 else p.addr.b16, p.bits, i);
  }

  predicate AddrBit(a: Addr, i: nat)
    requires i < BitLen(a)
  {
    Bit(if a.V4? then a.b4 else a.b16, i)
  }

  lemma TailBit(b: Octets16, i: nat)
    requires i < 32
    ensures Bit(b[12..], i) <==> Bit(b, 96 + i)
  {
    hide LowBit;
    assert (96 + i) / 8 == 12 + i / 8 && (96 + i) % 8 == i % 8;
  }

  // What material keeps of an IPv4-mapped prefix of at least 96 bits: the IPv4 part of the
  // address, as many bits of it as the prefix has past the first 96. Of any other: its mask.
  lemma MaterialKeeps(p: Prefix, i: nat)
    requires IsValid(p)
    ensures var q := MaterialPrefix(p);
            if Is4In6(p.addr) && p.bits >= 96 then
              q.addr.V4? && q.bits == p.bits - 96 && (i < 32 ==> (AddrBit(q.addr, i) <==> i < q.bits && AddrBit(p.addr, 96 + i)))
            else q == Masked(p)
  {
    hide Bit, MaskOctets;
    if Is4In6(p.addr) && p.bits >= 96 && i < 32 {
      MaskKeepsBits(p.addr.b16[12..], p.bits - 96, i);
      TailBit(p.addr.b16, i);
    }
  }

  lemma MaskTwice(b: Bytes, bits: int)
    ensures MaskOctets(MaskOctets(b, bits), bits) == MaskOctets(b, bits)
  {
    forall i | 0 <= i < |b|
      ensures MaskOctets(MaskOctets(b, bits), bits)[i] == MaskOctets(b, bits)[i]
    {
      MaskOctetTwice(b[i], Kept(bits, i));
    }
  }

  // A mask of at least 96 bits keeps the IPv4-mapped marker, a shorter one destroys it.
  lemma MaskMapped(a: Octets16, bits: int)
    requires 0 <= bits <= 128
    ensures bits >= 96 ==> Is4In6(V6(MaskOctets(a, bits))) == Is4In6(V6(a))
    ensures bits >= 96 ==> MaskOctets(a, bits)[12..] == MaskOctets(a[12..], bits - 96)
    ensures bits < 96 ==> !Is4In6(V6(MaskOctets(a, bits)))
  {
    var m := MaskOctets(a, bits);
    if bits >= 96 {
      forall i | 0 <= i < 12
        ensures m[i] == a[i]
      {
        MaskOctetTwice(a[i], Kept(bits, i));
      }
      assert m[..12] == a[..12];
      forall i | 0 <= i < 4
        ensures m[12..][i] == MaskOctets(a[12..], bits - 96)[i]
      {
        assert Kept(bits, i + 12) == Kept(bits - 96, i);
      }
    } else {
      MaskOctetTwice(a[11], Kept(bits, 11));
      assert m[..12][11] == m[11];
    }
  }

  lemma MaskedTwice(p: Prefix)
    ensures Masked(Masked(p)) == Masked(p)
  {
    if p.bits >= 0 {
      match p.addr
      case NoAddr =>
      case V4(b) => MaskTwice(b, p.bits);
      case V6(b) => MaskTwice(b, p.bits);
    }
  }

  // Canonical material is a masked prefix that is not an unmappable IPv4 one.
  predicate IsMaterial(p: Prefix)
  {
    Masked(p) == p && !(Is4In6(p.addr) && p.bits >= 96)
  }

  lemma MaterialPrefixCanonical(p: Prefix)
    ensures IsMaterial(MaterialPrefix(p))
  {
    MaskedTwice(PrefixFrom(p.addr, p.bits));
    if Is4In6(p.addr) && p.bits >= 96 {
      MaskedTwice(PrefixFrom(Unmap(p.addr), p.bits - 96));
    } else if p.addr.V6? && p.bits >= 0 {
      MaskMapped(p.addr.b16, p.bits);
    }
  }

  // MaterialPrefix fixes exactly the canonical prefixes.
  lemma MaterialPrefixFixes(p: Prefix)
    ensures MaterialPrefix(p) == p <==> IsMaterial(p)
  {
    MaterialPrefixCanonical(p);
  }

  lemma MaterialPrefixIdempotent(p: Prefix)
    ensures MaterialPrefix(MaterialPrefix(p)) == MaterialPrefix(p)
  {
    MaterialPrefixCanonical(p);
    MaterialPrefixFixes(MaterialPrefix(p));
  }

  // Masking before or after changes nothing, on either side of /96.
  lemma MaterialPrefixCommutesWithMasked(p: Prefix)
    ensures MaterialPrefix(Masked(p)) == MaterialPrefix(p)
    ensures Masked(MaterialPrefix(p)) == MaterialPrefix(p)
  {
    MaterialPrefixCanonical(p);
    MaskedTwice(p);
    if p.addr.V6? && p.bits >= 0 {
      MaskMapped(p.addr.b16, p.bits);
      if Is4In6(p.addr) && p.bits >= 96 {
        MaskTwice(p.addr.b16[12..], p.bits - 96);
      }
    }
  }

  // What is hashed for a prefix: the IP version, the length, and the address in network order.
  lemma MaterialLayout(p: Prefix)
    requires IsValid(p)
    ensures var m := PrefixMaterial(p);
            && m[1] as int == p.bits
            && (p.addr.V4? ==> |m| == 6 && m[0] == 4 && m[2..] == p.addr.b4)
            && (p.addr.V6? ==> |m| == 18 && m[0] == 6 && m[2..] == p.addr.b16)
  {
    var m := PrefixMaterial(p);
    assert m[2..] == if p.addr.V4? then p.addr.b4 else As16(p.addr);
  }

  // Equal material means equal prefix, for canonical prefixes.
  lemma PrefixMaterialInjective(p: Prefix, q: Prefix)
    requires IsMaterial(p) && IsMaterial(q)
    requires PrefixMaterial(p) == PrefixMaterial(q)
    ensures p == q
  {
    var m, n := PrefixMaterial(p), PrefixMaterial(q);
    assert m[0] == n[0] && m[1] == n[1] && m[2..] == n[2..];
    assert p.addr.V4? ==> m[2..] == p.addr.b4;
    assert q.addr.V4? ==> n[2..] == q.addr.b4;
    assert p.addr.V6? ==> m[2..] == p.addr.b16;
    assert q.addr.V6? ==> n[2..] == q.addr.b16;
  }

  // q is the IPv4 form of p, an IPv4-mapped prefix of at least 96 bits.
  predicate MappedOf(p: Prefix, q: Prefix)
  {
    Is4In6(p.addr) && p.bits >= 96 && q == PrefixFrom(Unmap(p.addr), p.bits - 96)
  }

  lemma MaterialIs(p: Prefix)
    requires IsValid(p) && Masked(p) == p
    ensures MaterialPrefix(p) == if Is4In6(p.addr) && p.bits >= 96 then PrefixFrom(Unmap(p.addr), p.bits - 96) else p
  {
    if Is4In6(p.addr) && p.bits >= 96 {
      MaskMapped(p.addr.b16, p.bits);
    }
  }

  lemma SameMapped(p: Prefix, q: Prefix)
    requires Is4In6(p.addr) && Is4In6(q.addr) && p.bits >= 96 && q.bits >= 96
    requires PrefixFrom(Unmap(p.addr), p.bits - 96) == PrefixFrom(Unmap(q.addr), q.bits - 96)
    ensures p == q
  {
    var a, b := p.addr.b16, q.addr.b16;
    assert a == a[..12] + a[12..] && b == b[..12] + b[12..];
  }

  // Two prefixes as they are kept have one material if and only if they are the same, or one
  // is the IPv4 form of the other.
  lemma MaterialCollidesExactly(p: Prefix, q: Prefix)
    requires IsValid(p) && Masked(p) == p && IsValid(q) && Masked(q) == q
    ensures PrefixMaterial(MaterialPrefix(p)) == PrefixMaterial(MaterialPrefix(q)) <==> p == q || MappedOf(p, q) || MappedOf(q, p)
    ensures MaterialPrefix(p) == MaterialPrefix(q) <==> p == q || MappedOf(p, q) || MappedOf(q, p)
  {
    hide PrefixMaterial, Masked, IsMaterial;
    MaterialIs(p);
    MaterialIs(q);
    MaterialPrefixCanonical(p);
    MaterialPrefixCanonical(q);
    if PrefixMaterial(MaterialPrefix(p)) == PrefixMaterial(MaterialPrefix(q)) {
      PrefixMaterialInjective(MaterialPrefix(p), MaterialPrefix(q));
    }
    if Is4In6(p.addr) && Is4In6(q.addr) && p.bits >= 96 && q.bits >= 96 && MaterialPrefix(p) == MaterialPrefix(q) {
      SameMapped(p, q);
    }
  }

  function Mapped(b: Octets4): Octets16
  {
    [0, 0, 0, 0, 0, 0, 0, 0, 0, 0, 0xff, 0xff] + b
  }

  lemma MappedParts(b: Octets4)
    ensures Is4In6(V6(Mapped(b))) && Unmap(V6(Mapped(b))) == V4(b) && Mapped(b)[12..] == b
  {}

  lemma MappedIs(a: Octets16, b: Octets4)
    requires Is4In6(V6(a)) && a[12..] == b
    ensures a == Mapped(b)
  {
    assert a == a[..12] + a[12..];
  }

  // Every IPv4 prefix has such a form, kept as it is.
  lemma MappedForm(b: Octets4, n: nat)
    requires n <= 32 && MaskOctets(b, n) == b
    ensures var p: Prefix := Prefix(V6(Mapped(b)), 96 + n);
            Masked(p) == p && MappedOf(p, Prefix(V4(b), n))
  {
    hide MaskOctets, Mapped, Is4In6, Unmap;
    MappedParts(b);
    MaskMapped(Mapped(b), 96 + n);
    MappedIs(MaskOctets(Mapped(b), 96 + n), b);
  }

  // ---------- text ----------

  // What netip makes of a text: a prefix, a bare address, or neither.
  datatype Parsed = IsPrefix(p: Prefix) | IsAddr(a: Addr) | NoParse

  // ParsePrefix of material.go over the text's parse.
  function ParsePrefix(t: Parsed): Option<Prefix>
  {
    match t
    case IsPrefix(p) => Some(MaterialPrefix(p))
    case IsAddr(a) => Some(PrefixFrom(Unmap(a), BitLen(Unmap(a))))
    case NoParse => None
  }

  // canonCIDR: the prefix whose text becomes the value, and the one hashed.
  function CanonCIDR(t: Parsed): Option<(Prefix, Prefix)>
  {
    match t
    case IsPrefix(p) => Some((Masked(p), MaterialPrefix(Masked(p))))
    case IsAddr(a) =>
      var p := PrefixFrom(Unmap(a), BitLen(Unmap(a)));
      Some((p, p))
    case NoParse => None
  }

  lemma FullLengthMaterial(a: Addr)
    requires a != NoAddr
    ensures IsMaterial(PrefixFrom(Unmap(a), BitLen(Unmap(a))))
  {
    var u := Unmap(a);
    var b := if u.V4? then u.b4 else u.b16;
    forall i | 0 <= i < |b|
      ensures MaskOctets(b, BitLen(u))[i] == b[i]
    {
      MaskOctetTwice(b[i], 8);
    }
    assert MaskOctets(b, BitLen(u)) == b;
  }

  // Whatever a client sent, the prefix kept with the live record is the one the
  // stored text yields after a restart, provided printing then parsing a valid
  // prefix gives it back.
  lemma ReloadKeepsMaterial(t: Parsed, reparse: Prefix -> Parsed)
    requires t.IsPrefix? ==> IsValid(t.p)
    requires t.IsAddr? ==> t.a != NoAddr
    requires forall p: Prefix :: IsValid(p) ==> reparse(p) == IsPrefix(p)
    ensures CanonCIDR(t).Some? <==> ParsePrefix(t).Some?
    ensures CanonCIDR(t).Some? ==>
              var (text, live) := CanonCIDR(t).value;
              && ParsePrefix(t) == Some(live)
              && ParsePrefix(reparse(text)) == Some(live)
              && IsValid(live) && IsMaterial(live)
  {
    match t
    case IsPrefix(p) =>
      MaterialPrefixCommutesWithMasked(p);
      MaterialPrefixCanonical(p);
    case IsAddr(a) =>
      FullLengthMaterial(a);
      MaterialPrefixFixes(PrefixFrom(Unmap(a), BitLen(Unmap(a))));
    case NoParse =>
  }
}
