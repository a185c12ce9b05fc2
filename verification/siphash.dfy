// SipHash-2-4: the in-place rounds of internal/set/siphash.go against the
// definition in section 2 of "SipHash: a fast short-input PRF" (Aumasson and Bernstein).
module SipHash {
  import opened Types

  // ---------- words ----------

  function Add(x: bv64, y: bv64): bv64 { x + y }

  function Sub(x: bv64, y: bv64): bv64 { x - y }

  function Rotl(x: bv64, b: bv64): bv64
    requires b <= 64
  {
    (x << b) | (x >> (64 - b))
  }

  lemma SubAdd(x: bv64, y: bv64)
    ensures Sub(Add(x, y), y) == x
  {
    assert Sub(x + y, y) == x;
  }

  lemma AddSub(x: bv64, y: bv64)
    ensures Add(Sub(x, y), y) == x
  {
    assert Add(x - y, y) == x;
  }

  lemma XorXor(x: bv64, y: bv64)
    ensures Xor(Xor(x, y), y) == x
  {
    assert Xor(x ^ y, y) == x;
  }

  lemma Rotl13(x: bv64)
    ensures Rotl(Rotl(x, 13), 51) == x
  {}

  lemma Rotl51(x: bv64)
    ensures Rotl(Rotl(x, 51), 13) == x
  {}

  lemma Rotl16(x: bv64)
    ensures Rotl(Rotl(x, 16), 48) == x
  {}

  lemma Rotl48(x: bv64)
    ensures Rotl(Rotl(x, 48), 16) == x
  {}

  lemma Rotl17(x: bv64)
    ensures Rotl(Rotl(x, 17), 47) == x
  {}

  lemma Rotl47(x: bv64)
    ensures Rotl(Rotl(x, 47), 17) == x
  {}

  lemma Rotl21(x: bv64)
    ensures Rotl(Rotl(x, 21), 43) == x
  {}

  lemma Rotl43(x: bv64)
    ensures Rotl(Rotl(x, 43), 21) == x
  {}

  lemma Rotl32(x: bv64)
    ensures Rotl(Rotl(x, 32), 32) == x
  {}

  // ---------- the round ----------

  datatype Words = Words(v0: bv64, v1: bv64, v2: bv64, v3: bv64)

  // A round is two layers of two add-rotate-xor half rounds.
  function Layer1(w: Words): Words
  {
    var a, c := Add(w.v0, w.v1), Add(w.v2, w.v3);
    Words(Rotl(a, 32), Xor(Rotl(w.v1, 13), a), c, Xor(Rotl(w.v3, 16), c))
  }

  function Layer2(w: Words): Words
  {
    var a, c := Add(w.v0, w.v3), Add(w.v2, w.v1);
    Words(a, Xor(Rotl(w.v1, 17), c), Rotl(c, 32), Xor(Rotl(w.v3, 21), a))
  }

  function Round(w: Words): Words
  {
    Layer2(Layer1(w))
  }

  function Unlayer1(w: Words): Words
  {
    var a := Rotl(w.v0, 32);
    var v1, v3 := Rotl(Xor(w.v1, a), 51), Rotl(Xor(w.v3, w.v2), 48);
    Words(Sub(a, v1), v1, Sub(w.v2, v3), v3)
  }

  function Unlayer2(w: Words): Words
  {
    var c := Rotl(w.v2, 32);
    var v1, v3 := Rotl(Xor(w.v1, c), 47), Rotl(Xor(w.v3, w.v0), 43);
    Words(Sub(w.v0, v3), v1, Sub(c, v1), v3)
  }

  function Unround(w: Words): Words
  {
    Unlayer1(Unlayer2(w))
  }

  lemma Layer1Undone(w: Words)
    ensures Unlayer1(Layer1(w)) == w
  {
    var a, c := Add(w.v0, w.v1), Add(w.v2, w.v3);
    Rotl32(a);
    XorXor(Rotl(w.v1, 13), a);
    XorXor(Rotl(w.v3, 16), c);
    Rotl13(w.v1);
    Rotl16(w.v3);
    SubAdd(w.v0, w.v1);
    SubAdd(w.v2, w.v3);
  }

  lemma Layer1Redone(w: Words)
    ensures Layer1(Unlayer1(w)) == w
  {
    var a, u := Rotl(w.v0, 32), Unlayer1(w);
    Rotl32(w.v0);
    Rotl51(Xor(w.v1, a));
    Rotl48(Xor(w.v3, w.v2));
    AddSub(a, u.v1);
    AddSub(w.v2, u.v3);
    XorXor(w.v1, a);
    XorXor(w.v3, w.v2);
  }

  lemma Layer2Undone(w: Words)
    ensures Unlayer2(Layer2(w)) == w
  {
    var a, c := Add(w.v0, w.v3), Add(w.v2, w.v1);
    Rotl32(c);
    XorXor(Rotl(w.v1, 17), c);
    XorXor(Rotl(w.v3, 21), a);
    Rotl17(w.v1);
    Rotl21(w.v3);
    SubAdd(w.v0, w.v3);
    SubAdd(w.v2, w.v1);
  }

  lemma Layer2Redone(w: Words)
    ensures Layer2(Unlayer2(w)) == w
  {
    var c, u := Rotl(w.v2, 32), Unlayer2(w);
    Rotl32(w.v2);
    Rotl47(Xor(w.v1, c));
    Rotl43(Xor(w.v3, w.v0));
    AddSub(w.v0, u.v3);
    AddSub(c, u.v1);
    XorXor(w.v1, c);
    XorXor(w.v3, w.v0);
  }

  // Every four-word state is the round of exactly one state.
  lemma RoundBijective(w: Words)
    ensures Unround(Round(w)) == w
    ensures Round(Unround(w)) == w
  {
    Layer1Undone(w);
    Layer2Undone(Layer1(w));
    Layer2Redone(w);
    Layer1Redone(Unlayer2(w));
  }

  // ---------- the definition ----------

  function Wide(x: u8): bv64 { x as bv64 }

  function Up8(x: bv64): bv64 { x << 8 }

  function Or(x: bv64, y: bv64): bv64 { x | y }

  // Little-endian reading of a block of bytes.
  function Word(p: Bytes): bv64
  {
    if p == [] then 0 else Or(Wide(p[0]), Up8(Word(p[1..])))
  }

  function Start(k: Key): Words
  {
    var k0, k1 := Word(k[0..8]), Word(k[8..16]);
    Words(Xor(k0, 0x736f6d6570736575), Xor(k1, 0x646f72616e646f6d),
          Xor(k0, 0x6c7967656e657261), Xor(k1, 0x7465646279746573))
  }

  function Compress(w: Words, m: bv64): Words
  {
    var x := Round(Round(w.(v3 := Xor(w.v3, m))));
    x.(v0 := Xor(x.v0, m))
  }

  function Zeros(n: nat): Bytes
  {
    seq(n, _ => 0)
  }

  // The message padded with zeros up to one byte short of a block, then its length mod 256.
  function Pad(b: Bytes): (p: Bytes)
    ensures |p| % 8 == 0 && |p| > |b|
  {
    b + Zeros(7 - |b| % 8) + [|b| % 256]
  }

  // One step per eight-byte block of p.
  function Absorb<S>(step: (S, bv64) -> S, w: S, p: Bytes): S
    requires |p| % 8 == 0
    decreases |p|
  {
    if p == [] then w else Absorb(step, step(w, Word(p[..8])), p[8..])
  }

  function Rounds(w: Words, n: nat): Words
    decreases n
  {
    if n == 0 then w else Rounds(Round(w), n - 1)
  }

  function Fold(w: Words): Hash
  {
    Xor(Xor(Xor(w.v0, w.v1), w.v2), w.v3)
  }

  function Finish(w: Words): Hash
  {
    Fold(Rounds(w.(v2 := Xor(w.v2, 0xff)), 4))
  }

  function SipHash24(k: Key, b: Bytes): Hash
  {
    Finish(Absorb(Compress, Start(k), Pad(b)))
  }

  // ---------- the last block ----------

  // A byte moved up by j places.
  function ByteAt(x: bv64, j: nat): bv64
  {
    if j == 0 then x else Up8(ByteAt(x, j - 1))
  }

  // x << 8 * j, for the eight byte places of a word.
  function Shl8(x: bv64, j: nat): bv64
    requires j < 8
  {
    if j == 0 then x
    else if j == 1 then x << 8
    else if j == 2 then x << 16
    else if j == 3 then x << 24
    else if j == 4 then x << 32
    else if j == 5 then x << 40
    else if j == 6 then x << 48
    else x << 56
  }

  lemma Up8Shifts(x: bv64)
    ensures Up8(x) == x << 8 && Up8(x << 8) == x << 16 && Up8(x << 16) == x << 24 && Up8(x << 24) == x << 32
    ensures Up8(x << 32) == x << 40 && Up8(x << 40) == x << 48 && Up8(x << 48) == x << 56
  {}

  lemma {:induction false} Shl8IsByteAt(x: bv64, j: nat)
    requires j < 8
    ensures Shl8(x, j) == ByteAt(x, j)
  {
    hide Up8;
    if j > 0 {
      Shl8IsByteAt(x, j - 1);
      Up8Shifts(x);
    }
  }

  lemma OrUp8(a: bv64, b: bv64, c: bv64)
    ensures Or(a, Up8(Or(b, c))) == Or(Or(a, Up8(b)), Up8(c))
  {
    assert Up8(b | c) == Up8(b) | Up8(c);
    OrAssoc(a, Up8(b), Up8(c));
  }

  lemma OrAssoc(a: bv64, b: bv64, c: bv64)
    ensures Or(a, b | c) == Or(Or(a, b), c)
  {
    assert Or(a | b, c) == a | b | c;
  }

  lemma OrZero(a: bv64, b: bv64)
    ensures Or(a, b) == Or(Or(0, b), a)
  {
    assert Or(b, a) == b | a;
  }

  // Writing a byte over a zero byte is or-ing it in at its place.
  lemma {:induction false} WriteByte(p: Bytes, j: nat, x: u8)
    requires j < |p| <= 8 && p[j] == 0
    ensures Word(p[j := x]) == Or(Word(p), ByteAt(Wide(x), j))
  {
    hide Or, Up8;
    var q := p[j := x];
    if j == 0 {
      assert q[1..] == p[1..];
      OrZero(Wide(x), Up8(Word(p[1..])));
    } else {
      assert q[1..] == p[1..][j - 1 := x];
      WriteByte(p[1..], j - 1, x);
      OrUp8(Wide(p[0]), Word(p[1..]), ByteAt(Wide(x), j - 1));
    }
  }

  lemma ZeroBlanks(a: bv64)
    ensures Or(Wide(0), a) == a && Or(a, Up8(0)) == a
  {
    assert Up8(0) == 0;
  }

  // Zero bytes read as zero, so only the last one counts.
  lemma {:induction false} LastByte(n: nat, x: u8)
    requires n < 8
    ensures Word(Zeros(n) + [x]) == ByteAt(Wide(x), n)
  {
    hide Or, Up8, Wide;
    var p := Zeros(n) + [x];
    if n == 0 {
      assert p[1..] == [];
      ZeroBlanks(Wide(x));
    } else {
      assert p[1..] == Zeros(n - 1) + [x];
      LastByte(n - 1, x);
      ZeroBlanks(ByteAt(Wide(x), n));
    }
  }

  lemma {:induction false} AbsorbBlock<S>(step: (S, bv64) -> S, w: S, p: Bytes)
    requires |p| == 8
    ensures Absorb(step, w, p) == step(w, Word(p))
  {
    assert p[..8] == p;
  }

  // ---------- the program ----------

  class SipState {
    var v0: bv64
    var v1: bv64
    var v2: bv64
    var v3: bv64

    function Model(): Words
      reads this
    {
      Words(v0, v1, v2, v3)
    }

    constructor (w: Words)
      ensures Model() == w
    {
      v0, v1, v2, v3 := w.v0, w.v1, w.v2, w.v3;
    }

    method SipRound()
      modifies this
      ensures Model() == Round(old(Model()))
    {
      v0 := Add(v0, v1);
      v1 := Rotl(v1, 13);
      v1 := Xor(v1, v0);
      v0 := Rotl(v0, 32);
      v2 := Add(v2, v3);
      v3 := Rotl(v3, 16);
      v3 := Xor(v3, v2);
      v0 := Add(v0, v3);
      v3 := Rotl(v3, 21);
      v3 := Xor(v3, v0);
      v2 := Add(v2, v1);
      v1 := Rotl(v1, 17);
      v1 := Xor(v1, v2);
      v2 := Rotl(v2, 32);
    }

    method Block(m: bv64)
      modifies this
      ensures Model() == Compress(old(Model()), m)
    {
      hide Round, Xor;
      v3 := Xor(v3, m);
      SipRound();
      SipRound();
      v0 := Xor(v0, m);
    }

    method Final() returns (h: Hash)
      modifies this
      ensures h == Finish(old(Model()))
    {
      hide Round, Xor;
      v2 := Xor(v2, 0xff);
      for i := 0 to 4
        invariant Finish(old(Model())) == Fold(Rounds(Model(), 4 - i))
      {
        SipRound();
      }
      h := Fold(Model());
    }
  }

  // The bytes of t in front, zeros up to the last place, the length mod 256 there.
  function LastBlock(t: Bytes, len: nat): (p: Bytes)
    requires |t| < 8
    ensures |p| == 8
  {
    t + Zeros(7 - |t|) + [len % 256]
  }

  lemma EmptyLastBlock(len: nat)
    ensures LastBlock([], len) == Zeros(7) + [len % 256]
  {}

  lemma LastBlockGrows(t: Bytes, i: nat, len: nat)
    requires i < |t| < 8
    ensures LastBlock(t[..i], len)[i] == 0
    ensures LastBlock(t[..i], len)[i := t[i]] == LastBlock(t[..i + 1], len)
  {}

  // The last word: the tail bytes or-ed below the length. uint64(n) << 56 keeps
  // the low eight bits of the length only.
  method LastWord(t: Bytes, len: nat) returns (last: bv64)
    requires |t| < 8
    ensures last == Word(LastBlock(t, len))
  {
    hide *;
    last := Shl8(Wide(len % 256), 7);
    Shl8IsByteAt(Wide(len % 256), 7);
    LastByte(7, len % 256);
    EmptyLastBlock(len);
    for i := 0 to |t|
      invariant last == Word(LastBlock(t[..i], len))
    {
      LastBlockGrows(t, i, len);
      WriteByte(LastBlock(t[..i], len), i, t[i]);
      Shl8IsByteAt(Wide(t[i]), i);
      last := Or(last, Shl8(Wide(t[i]), i));
    }
    assert t[..|t|] == t;
  }

  // Full blocks of the padded message are those of the message; the last one is LastBlock.
  lemma PadBlock(b: Bytes, i: nat)
    requires i % 8 == 0 && i < |b| - |b| % 8
    ensures i + 8 <= |b| - |b| % 8 && |Pad(b)[i..]| % 8 == 0 && |Pad(b)[i + 8..]| % 8 == 0
    ensures Pad(b)[i..][..8] == b[i..i + 8] && Pad(b)[i..][8..] == Pad(b)[i + 8..]
  {}

  lemma PadEnd(b: Bytes)
    ensures Pad(b)[|b| - |b| % 8..] == LastBlock(b[|b| - |b| % 8..], |b|)
  {}

  lemma AbsorbNext(w: Words, b: Bytes, i: nat)
    requires i % 8 == 0 && i < |b| - |b| % 8 && |Pad(b)[i..]| % 8 == 0
    ensures i + 8 <= |b| - |b| % 8 && |Pad(b)[i + 8..]| % 8 == 0
    ensures Absorb(Compress, w, Pad(b)[i..]) == Absorb(Compress, Compress(w, Word(b[i..i + 8])), Pad(b)[i + 8..])
  {
    hide Pad, Compress, Word;
    PadBlock(b, i);
  }

  method SipHashBytes(k: Key, b: Bytes) returns (h: Hash)
    ensures h == SipHash24(k, b)
  {
    hide Compress, Word, Finish, Start, Pad, Absorb, LastBlock;
    var s := new SipState(Start(k));
    var n := |b|;
    var full := n - n % 8;
    var i := 0;
    ghost var all := Absorb(Compress, Start(k), Pad(b));
    assert Pad(b)[0..] == Pad(b);
    while i < full
      invariant 0 <= i <= full && i % 8 == 0 && |Pad(b)[i..]| % 8 == 0
      invariant Absorb(Compress, s.Model(), Pad(b)[i..]) == all
    {
      AbsorbNext(s.Model(), b, i);
      s.Block(Word(b[i..i + 8]));
      i := i + 8;
    }
    PadEnd(b);
    var last := LastWord(b[full..], n);
    AbsorbBlock(Compress, s.Model(), LastBlock(b[full..], n));
    s.Block(last);
    h := s.Final();
  }
}
