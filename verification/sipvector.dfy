// The test vector of the paper "SipHash: a fast short-input PRF" (Aumasson and Bernstein,
// appendix A): key 00 01 .. 0f, message 00 01 .. 0e.
module SipVector {
  import opened Types
  import opened SipHash

  const VECTOR_KEY: Key := [0, 1, 2, 3, 4, 5, 6, 7, 8, 9, 10, 11, 12, 13, 14, 15]
  const VECTOR_TEXT: Bytes := [0, 1, 2, 3, 4, 5, 6, 7, 8, 9, 10, 11, 12, 13, 14]

  lemma LowWord()
    ensures Word([0, 1, 2, 3, 4, 5, 6, 7]) == 0x0706050403020100
  {
    assert [7][1..] == [];
    assert Word([7]) == 0x7;
    assert [6, 7][1..] == [7];
    assert Word([6, 7]) == 0x706;
    assert [5, 6, 7][1..] == [6, 7];
    assert Word([5, 6, 7]) == 0x70605;
    assert [4, 5, 6, 7][1..] == [5, 6, 7];
    assert Word([4, 5, 6, 7]) == 0x7060504;
    assert [3, 4, 5, 6, 7][1..] == [4, 5, 6, 7];
    assert Word([3, 4, 5, 6, 7]) == 0x706050403;
    assert [2, 3, 4, 5, 6, 7][1..] == [3, 4, 5, 6, 7];
    assert Word([2, 3, 4, 5, 6, 7]) == 0x70605040302;
    assert [1, 2, 3, 4, 5, 6, 7][1..] == [2, 3, 4, 5, 6, 7];
    assert Word([1, 2, 3, 4, 5, 6, 7]) == 0x7060504030201;
    assert [0, 1, 2, 3, 4, 5, 6, 7][1..] == [1, 2, 3, 4, 5, 6, 7];
    assert Word([0, 1, 2, 3, 4, 5, 6, 7]) == 0x706050403020100;
  }

  lemma HighWord()
    ensures Word([8, 9, 10, 11, 12, 13, 14, 15]) == 0x0f0e0d0c0b0a0908
  {
    assert [15][1..] == [];
    assert Word([15]) == 0xf;
    assert [14, 15][1..] == [15];
    assert Word([14, 15]) == 0xf0e;
    assert [13, 14, 15][1..] == [14, 15];
    assert Word([13, 14, 15]) == 0xf0e0d;
    assert [12, 13, 14, 15][1..] == [13, 14, 15];
    assert Word([12, 13, 14, 15]) == 0xf0e0d0c;
    assert [11, 12, 13, 14, 15][1..] == [12, 13, 14, 15];
    assert Word([11, 12, 13, 14, 15]) == 0xf0e0d0c0b;
    assert [10, 11, 12, 13, 14, 15][1..] == [11, 12, 13, 14, 15];
    assert Word([10, 11, 12, 13, 14, 15]) == 0xf0e0d0c0b0a;
    assert [9, 10, 11, 12, 13, 14, 15][1..] == [10, 11, 12, 13, 14, 15];
    assert Word([9, 10, 11, 12, 13, 14, 15]) == 0xf0e0d0c0b0a09;
    assert [8, 9, 10, 11, 12, 13, 14, 15][1..] == [9, 10, 11, 12, 13, 14, 15];
    assert Word([8, 9, 10, 11, 12, 13, 14, 15]) == 0xf0e0d0c0b0a0908;
  }

  lemma LastWordOf()
    ensures Word([8, 9, 10, 11, 12, 13, 14, 15]) == 0x0f0e0d0c0b0a0908
  {
    assert [15][1..] == [];
    assert Word([15]) == 0xf;
    assert [14, 15][1..] == [15];
    assert Word([14, 15]) == 0xf0e;
    assert [13, 14, 15][1..] == [14, 15];
    assert Word([13, 14, 15]) == 0xf0e0d;
    assert [12, 13, 14, 15][1..] == [13, 14, 15];
    assert Word([12, 13, 14, 15]) == 0xf0e0d0c;
    assert [11, 12, 13, 14, 15][1..] == [12, 13, 14, 15];
    assert Word([11, 12, 13, 14, 15]) == 0xf0e0d0c0b;
    assert [10, 11, 12, 13, 14, 15][1..] == [11, 12, 13, 14, 15];
    assert Word([10, 11, 12, 13, 14, 15]) == 0xf0e0d0c0b0a;
    assert [9, 10, 11, 12, 13, 14, 15][1..] == [10, 11, 12, 13, 14, 15];
    assert Word([9, 10, 11, 12, 13, 14, 15]) == 0xf0e0d0c0b0a09;
    assert [8, 9, 10, 11, 12, 13, 14, 15][1..] == [9, 10, 11, 12, 13, 14, 15];
    assert Word([8, 9, 10, 11, 12, 13, 14, 15]) == 0xf0e0d0c0b0a0908;
  }

  lemma Starts()
    ensures Start(VECTOR_KEY) == Words(0x7469686173716475, 0x6b617f6d656e6665, 0x6b7f62616d677361, 0x7b6b696e727e6c7b)
  {
    hide Word;
    LowWord();
    HighWord();
    assert VECTOR_KEY[0..8] == [0, 1, 2, 3, 4, 5, 6, 7] && VECTOR_KEY[8..16] == [8, 9, 10, 11, 12, 13, 14, 15];
  }

  lemma Round1()
    ensures Round(Words(0x7469686173716475, 0x6b617f6d656e6665, 0x6b7f62616d677361, 0x7c6d6c6a717c6d7b))
         == Words(0x64668a929363847f, 0x4ed232083d9aa8dc, 0xf2f74892d8141a2e, 0x9290f9810552f4a8)
  {
    assert Layer1(Words(0x7469686173716475, 0x6b617f6d656e6665, 0x6b7f62616d677361, 0x7c6d6c6a717c6d7b))
        == Words(0xd8dfcadadfcae7ce, 0xf0274b63141367b6, 0xe7eccecbdee3e0dc, 0x8b86bfb7b3989cb1);
  }

  lemma Round2()
    ensures Round(Words(0x64668a929363847f, 0x4ed232083d9aa8dc, 0xf2f74892d8141a2e, 0x9290f9810552f4a8))
         == Words(0x4d07749cdd0858e0, 0x0d52f6f62a4f59a4, 0x634cb3577b01fd3d, 0xa5224d6f55c7d9c8)
  {
    assert Layer1(Words(0x64668a929363847f, 0x4ed232083d9aa8dc, 0xf2f74892d8141a2e, 0x9290f9810552f4a8))
        == Words(0xd0fe2d5bb338bc9a, 0xf579bb2985e5a481, 0x85884213dd670ed6, 0x7c09474129cf9c46);
  }

  lemma First()
    ensures Compress(Words(0x7469686173716475, 0x6b617f6d656e6665, 0x6b7f62616d677361, 0x7b6b696e727e6c7b), 0x0706050403020100)
         == Words(0x4a017198de0a59e0, 0x0d52f6f62a4f59a4, 0x634cb3577b01fd3d, 0xa5224d6f55c7d9c8)
  {
    hide Round;
    Round1();
    Round2();
  }

  lemma Round3()
    ensures Round(Words(0x4a017198de0a59e0, 0x0d52f6f62a4f59a4, 0x634cb3577b01fd3d, 0xaa2c40635ecdd0c0))
         == Words(0x557560fb6063d060, 0x4c8e675bd961133e, 0xbd3d002b1703a181, 0xfb9441179a4a7315)
  {
    assert Layer1(Words(0x4a017198de0a59e0, 0x0d52f6f62a4f59a4, 0x634cb3577b01fd3d, 0xaa2c40635ecdd0c0))
        == Words(0x0859b3845754688f, 0x098aadc6e36d322e, 0x0d78f3bad9cfcdfd, 0x4d1bad77090f67d1);
  }

  lemma Round4()
    ensures Round(Words(0x557560fb6063d060, 0x4c8e675bd961133e, 0xbd3d002b1703a181, 0xfb9441179a4a7315))
         == Words(0x338bbea7645fb759, 0x414fc3fb98efe374, 0xccf13ea527b9f4bd, 0x5293f5da84008f82)
  {
    assert Layer1(Words(0x557560fb6063d060, 0x4c8e675bd961133e, 0xbd3d002b1703a181, 0xfb9441179a4a7315))
        == Words(0x39c4e39ea203c857, 0x6ee8b37b1ba32a0f, 0xb8d14142b14e1496, 0xf9c6db08c25bef02);
  }

  lemma Second()
    ensures Compress(Words(0x4a017198de0a59e0, 0x0d52f6f62a4f59a4, 0x634cb3577b01fd3d, 0xa5224d6f55c7d9c8), 0x0f0e0d0c0b0a0908)
         == Words(0x3c85b3ab6f55be51, 0x414fc3fb98efe374, 0xccf13ea527b9f4bd, 0x5293f5da84008f82)
  {
    hide Round;
    Round3();
    Round4();
  }

  lemma Round5()
    ensures Round(Words(0x3c85b3ab6f55be51, 0x414fc3fb98efe374, 0xccf13ea527b9f442, 0x5293f5da84008f82))
         == Words(0xf2a55244a20e48fe, 0xac5ad16ccc3ca6e4, 0x9fe5adb0a52f393a, 0xfd41d55e88f30308)
  {
    assert Layer1(Words(0x3c85b3ab6f55be51, 0x414fc3fb98efe374, 0xccf13ea527b9f442, 0x5293f5da84008f82))
        == Words(0x0845a1c57dd577a7, 0x85aa04baf42b29ec, 0x1f85347fabba83c4, 0xea5fb07f2438d157);
  }

  lemma Round6()
    ensures Round(Words(0xf2a55244a20e48fe, 0xac5ad16ccc3ca6e4, 0x9fe5adb0a52f393a, 0xfd41d55e88f30308))
         == Words(0xb6c3fbdecc2ae4b4, 0x1638c86adc6b3cf0, 0x28b8b6ab62553d46, 0xc9465e86ec43eb95)
  {
    assert Layer1(Words(0xf2a55244a20e48fe, 0xac5ad16ccc3ca6e4, 0x9fe5adb0a52f393a, 0xfd41d55e88f30308))
        == Words(0x6e4aefe29f0023b1, 0xc52dba36fa967a69, 0x9d27830f2e223c42, 0x48790bfc2d2ac103);
  }

  lemma Round7()
    ensures Round(Words(0xb6c3fbdecc2ae4b4, 0x1638c86adc6b3cf0, 0x28b8b6ab62553d46, 0xc9465e86ec43eb95))
         == Words(0x58101b167209a5e6, 0xf8792ae75b66e7dd, 0x1da14c3ec7f0b4f7, 0x7624ba8a41bc4ad9)
  {
    assert Layer1(Words(0xb6c3fbdecc2ae4b4, 0x1638c86adc6b3cf0, 0x28b8b6ab62553d46, 0xc9465e86ec43eb95))
        == Words(0xa89621a4ccfcc449, 0xd5f19fc4cf082363, 0xf1ff15324e9928db, 0xaf79f971a50ce19d);
  }

  lemma Round8()
    ensures Round(Words(0x58101b167209a5e6, 0xf8792ae75b66e7dd, 0x1da14c3ec7f0b4f7, 0x7624ba8a41bc4ad9))
         == Words(0xf6bcd53893fecff1, 0x54b9964c7ea0d937, 0x1b38329c099bb55a, 0x1814bb89ad7be679)
  {
    assert Layer1(Words(0x58101b167209a5e6, 0xf8792ae75b66e7dd, 0x1da14c3ec7f0b4f7, 0x7624ba8a41bc4ad9))
        == Words(0xcd708dc3508945fd, 0x75d5ae91118b32cc, 0x93c606c909acffd0, 0x294c4775437589f4);
  }

  lemma Finishes()
    ensures Finish(Words(0x3c85b3ab6f55be51, 0x414fc3fb98efe374, 0xccf13ea527b9f4bd, 0x5293f5da84008f82)) == 0xa129ca6149be45e5
  {
    hide Round;
    Round5();
    Round6();
    Round7();
    Round8();
    assert Rounds(Words(0xf6bcd53893fecff1, 0x54b9964c7ea0d937, 0x1b38329c099bb55a, 0x1814bb89ad7be679), 0)
        == Words(0xf6bcd53893fecff1, 0x54b9964c7ea0d937, 0x1b38329c099bb55a, 0x1814bb89ad7be679);
    assert Rounds(Words(0x58101b167209a5e6, 0xf8792ae75b66e7dd, 0x1da14c3ec7f0b4f7, 0x7624ba8a41bc4ad9), 1)
        == Words(0xf6bcd53893fecff1, 0x54b9964c7ea0d937, 0x1b38329c099bb55a, 0x1814bb89ad7be679);
    assert Rounds(Words(0xb6c3fbdecc2ae4b4, 0x1638c86adc6b3cf0, 0x28b8b6ab62553d46, 0xc9465e86ec43eb95), 2)
        == Words(0xf6bcd53893fecff1, 0x54b9964c7ea0d937, 0x1b38329c099bb55a, 0x1814bb89ad7be679);
    assert Rounds(Words(0xf2a55244a20e48fe, 0xac5ad16ccc3ca6e4, 0x9fe5adb0a52f393a, 0xfd41d55e88f30308), 3)
        == Words(0xf6bcd53893fecff1, 0x54b9964c7ea0d937, 0x1b38329c099bb55a, 0x1814bb89ad7be679);
    assert Rounds(Words(0x3c85b3ab6f55be51, 0x414fc3fb98efe374, 0xccf13ea527b9f442, 0x5293f5da84008f82), 4)
        == Words(0xf6bcd53893fecff1, 0x54b9964c7ea0d937, 0x1b38329c099bb55a, 0x1814bb89ad7be679);
  }

  // What the program computes for it is the paper's hash.
  lemma PaperVector()
    ensures SipHash24(VECTOR_KEY, VECTOR_TEXT) == 0xa129ca6149be45e5
  {
    hide Word, Start, Compress, Finish, Absorb;
    var p := Pad(VECTOR_TEXT);
    assert p == [0, 1, 2, 3, 4, 5, 6, 7, 8, 9, 10, 11, 12, 13, 14, 15];
    assert p[..8] == [0, 1, 2, 3, 4, 5, 6, 7] && p[8..] == [8, 9, 10, 11, 12, 13, 14, 15];
    Starts();
    LowWord();
    LastWordOf();
    First();
    Second();
    Finishes();
    TwoBlocks(Compress, Start(VECTOR_KEY), p);
  }

  lemma TwoBlocks<S>(step: (S, bv64) -> S, w: S, p: Bytes)
    requires |p| == 16
    ensures Absorb(step, w, p) == step(step(w, Word(p[..8])), Word(p[8..]))
  {
    AbsorbBlock(step, step(w, Word(p[..8])), p[8..]);
  }
}
