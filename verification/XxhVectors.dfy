/** Hashes of two well-known sentences with seed 0, which fix the constants, the byte order and the rounds of both
    hashes: between them they run through whole stripes and every step of the finalization. */
module XxhVectors {
  import opened BlockFold
  import Xxh32
  import Xxh64

  const FOX_1: seq<bv8> :=
    [0x54, 0x68, 0x65, 0x20, 0x71, 0x75, 0x69, 0x63, 0x6B, 0x20, 0x62, 0x72, 0x6F, 0x77, 0x6E, 0x20]
  const FOX_2: seq<bv8> :=
    [0x66, 0x6F, 0x78, 0x20, 0x6A, 0x75, 0x6D, 0x70, 0x73, 0x20, 0x6F, 0x76, 0x65, 0x72, 0x20, 0x74]
  const FOX_3: seq<bv8> :=
    [0x68, 0x65, 0x20, 0x6C, 0x61, 0x7A, 0x79, 0x20, 0x64, 0x6F, 0x67]
  /** "The quick brown fox jumps over the lazy dog" */
  const FOX := FOX_1 + FOX_2 + FOX_3

  const SPAM_1: seq<bv8> :=
    [0x4E, 0x6F, 0x62, 0x6F, 0x64, 0x79, 0x20, 0x69, 0x6E, 0x73, 0x70, 0x65, 0x63, 0x74, 0x73, 0x20]
  const SPAM_2: seq<bv8> :=
    [0x74, 0x68, 0x65, 0x20, 0x73, 0x70, 0x61, 0x6D, 0x6D, 0x69, 0x73, 0x68, 0x20, 0x72, 0x65, 0x70]
  const SPAM_3: seq<bv8> :=
    [0x65, 0x74, 0x69, 0x74, 0x69, 0x6F, 0x6E]
  /** "Nobody inspects the spammish repetition" */
  const SPAM := SPAM_1 + SPAM_2 + SPAM_3

  /** Two blocks and less than a third. */
  lemma TwoBlocks<A>(step: (A, seq<bv8>) -> A, acc: A, p: seq<bv8>, q: seq<bv8>, tail: seq<bv8>)
    requires |p| == |q| == 16 > |tail|
    ensures Fold(step, 16, acc, p + q + tail) == step(step(acc, p), q) && Rest(16, p + q + tail) == tail
  {
    assert p + q + tail == p + (q + tail);
    Block(step, 16, acc, p, q + tail);
    Block(step, 16, step(acc, p), q, tail);
    Short(step, 16, step(step(acc, p), q), tail);
  }

  lemma OneBlock<A>(step: (A, seq<bv8>) -> A, acc: A, p: seq<bv8>, q: seq<bv8>, tail: seq<bv8>)
    requires |p| == |q| == 16 > |tail|
    ensures Fold(step, 32, acc, p + q + tail) == step(acc, p + q) && Rest(32, p + q + tail) == tail
  {
    Block(step, 32, acc, p + q, tail);
    Short(step, 32, step(acc, p + q), tail);
  }

  lemma Halves(p: seq<bv8>, q: seq<bv8>)
    requires |p| == |q| == 16
    ensures var b := p + q;
      b[0..8] == p[0..8] && b[8..16] == p[8..16] && b[16..24] == q[0..8] && b[24..32] == q[8..16]
  {
  }

  // ----- XXH32 -----

  function Join32(a: bv32, b: bv32, c: bv32, d: bv32): bv32 {
    a | (b << 8) | (c << 16) | (d << 24)
  }

  lemma Pieces32(w: bv32)
    ensures w == Join32(w & 0xFF, (w >> 8) & 0xFF, (w >> 16) & 0xFF, (w >> 24) & 0xFF)
  {
  }

  lemma Read32Is(b: seq<bv8>)
    requires |b| == 4
    ensures Xxh32.Read32(b) == Join32(b[0] as bv32, b[1] as bv32, b[2] as bv32, b[3] as bv32)
  {
  }

  lemma Word32(block: seq<bv8>, at: nat, w: bv32)
    requires at + 4 <= |block|
    requires w & 0xFF == block[at] as bv32 && (w >> 8) & 0xFF == block[at + 1] as bv32
    requires (w >> 16) & 0xFF == block[at + 2] as bv32 && (w >> 24) & 0xFF == block[at + 3] as bv32
    ensures Xxh32.Read32(block[at..at + 4]) == w
  {
    hide *;
    Read32Is(block[at..at + 4]);
    Pieces32(w);
  }

  lemma Rounds32A()
    ensures Xxh32.Round(0x24234428, 0x20656854) == 0x78A4C936
    ensures Xxh32.Round(0x85EBCA77, 0x63697571) == 0x7B8173AA
    ensures Xxh32.Round(0x00000000, 0x7262206B) == 0xCBC7F83D
    ensures Xxh32.Round(0x61C8864F, 0x206E776F) == 0x3A3DE928
  {
  }

  lemma Words32A()
    ensures Xxh32.Read32(FOX_1[0..4]) == 0x20656854
    ensures Xxh32.Read32(FOX_1[4..8]) == 0x63697571
    ensures Xxh32.Read32(FOX_1[8..12]) == 0x7262206B
    ensures Xxh32.Read32(FOX_1[12..16]) == 0x206E776F
  {
    hide Xxh32.Read32;
    Word32(FOX_1, 0, 0x20656854);
    Word32(FOX_1, 4, 0x63697571);
    Word32(FOX_1, 8, 0x7262206B);
    Word32(FOX_1, 12, 0x206E776F);
  }

  lemma Stripe32A()
    ensures Xxh32.Stripe(Xxh32.InitAccs(0), FOX_1)
         == Xxh32.Lanes(0x78A4C936, 0x7B8173AA, 0xCBC7F83D, 0x3A3DE928)
  {
    hide Xxh32.Round, Xxh32.Read32;
    Words32A();
    Rounds32A();
  }

  lemma Rounds32B()
    ensures Xxh32.Round(0x78A4C936, 0x20786F66) == 0x194E4195
    ensures Xxh32.Round(0x7B8173AA, 0x706D756A) == 0x4915F9CA
    ensures Xxh32.Round(0xCBC7F83D, 0x766F2073) == 0x9302E043
    ensures Xxh32.Round(0x3A3DE928, 0x74207265) == 0xFBBD8299
  {
  }

  lemma Words32B()
    ensures Xxh32.Read32(FOX_2[0..4]) == 0x20786F66
    ensures Xxh32.Read32(FOX_2[4..8]) == 0x706D756A
    ensures Xxh32.Read32(FOX_2[8..12]) == 0x766F2073
    ensures Xxh32.Read32(FOX_2[12..16]) == 0x74207265
  {
    hide Xxh32.Read32;
    Word32(FOX_2, 0, 0x20786F66);
    Word32(FOX_2, 4, 0x706D756A);
    Word32(FOX_2, 8, 0x766F2073);
    Word32(FOX_2, 12, 0x74207265);
  }

  lemma Stripe32B()
    ensures Xxh32.Stripe(Xxh32.Lanes(0x78A4C936, 0x7B8173AA, 0xCBC7F83D, 0x3A3DE928), FOX_2)
         == Xxh32.Lanes(0x194E4195, 0x4915F9CA, 0x9302E043, 0xFBBD8299)
  {
    hide Xxh32.Round, Xxh32.Read32;
    Words32B();
    Rounds32B();
  }

  lemma Steps32()
    ensures Xxh32.AddLen(Xxh32.MergeAccs(Xxh32.Lanes(0x194E4195, 0x4915F9CA, 0x9302E043, 0xFBBD8299)), 43) == 0xF605909F
    ensures Xxh32.Process4(0xF605909F, FOX_3[..4]) == 0x951337CC
    ensures Xxh32.Process4(0x951337CC, FOX_3[4..8]) == 0x5BDAB296
    ensures Xxh32.Process1(0x5BDAB296, 0x64) == 0x0AB292EC && Xxh32.Process1(0x0AB292EC, 0x6F) == 0xAB34A681
    ensures Xxh32.Process1(0xAB34A681, 0x67) == 0x38B1278F && Xxh32.Avalanche(0x38B1278F) == 0xE85EA4DE
  {
    Word32(FOX_3, 0, 0x6C206568);
    Word32(FOX_3, 4, 0x20797A61);
    hide Xxh32.Read32;
  }

  lemma Tail32(h: bv32)
    ensures Xxh32.Finalize(h, FOX_3) ==
      var h2 := Xxh32.Process4(Xxh32.Process4(h, FOX_3[..4]), FOX_3[4..8]);
      Xxh32.Avalanche(Xxh32.Process1(Xxh32.Process1(Xxh32.Process1(h2, 0x64), 0x6F), 0x67))
  {
    hide Xxh32.Process4, Xxh32.Process1, Xxh32.Avalanche;
    var h1 := Xxh32.Process4(h, FOX_3[..4]);
    var h2 := Xxh32.Process4(h1, FOX_3[4..8]);
    assert FOX_3[4..][..4] == FOX_3[4..8] && FOX_3[4..][4..] == [0x64, 0x6F, 0x67];
    assert Xxh32.Finalize(h1, FOX_3[4..]) == Xxh32.Finalize(h2, [0x64, 0x6F, 0x67]);
    assert [0x64, 0x6F, 0x67][1..] == [0x6F, 0x67];
    Xxh32.LastOnes(Xxh32.Process1(h2, 0x64), [0x6F, 0x67]);
  }

  /** XXH32 of the first sentence. */
  lemma Fox32()
    ensures Xxh32.Hash(0, FOX) == 0xE85EA4DE
  {
    hide Xxh32.Stripe, Xxh32.InitAccs, Xxh32.Finalize, Fold, Rest, Xxh32.MergeAccs, Xxh32.AddLen, Xxh32.Process4;
    hide Xxh32.Process1, Xxh32.Avalanche;
    Stripe32A();
    Stripe32B();
    TwoBlocks(Xxh32.Stripe, Xxh32.InitAccs(0), FOX_1, FOX_2, FOX_3);
    Steps32();
    Tail32(0xF605909F);
  }

  // ----- XXH64 -----

  function Join64(a: bv64, b: bv64, c: bv64, d: bv64, e: bv64, f: bv64, g: bv64, h: bv64): bv64 {
    a | (b << 8) | (c << 16) | (d << 24) | (e << 32) | (f << 40) | (g << 48) | (h << 56)
  }

  lemma Pieces64(w: bv64)
    ensures w == Join64(w & 0xFF, (w >> 8) & 0xFF, (w >> 16) & 0xFF, (w >> 24) & 0xFF,
                        (w >> 32) & 0xFF, (w >> 40) & 0xFF, (w >> 48) & 0xFF, (w >> 56) & 0xFF)
  {
  }

  lemma Read64Is(b: seq<bv8>)
    requires |b| == 8
    ensures Xxh64.Read64(b) == Join64(b[0] as bv64, b[1] as bv64, b[2] as bv64, b[3] as bv64,
                                      b[4] as bv64, b[5] as bv64, b[6] as bv64, b[7] as bv64)
  {
  }

  lemma Word64(block: seq<bv8>, at: nat, w: bv64)
    requires at + 8 <= |block|
    requires w & 0xFF == block[at] as bv64 && (w >> 8) & 0xFF == block[at + 1] as bv64
    requires (w >> 16) & 0xFF == block[at + 2] as bv64 && (w >> 24) & 0xFF == block[at + 3] as bv64
    requires (w >> 32) & 0xFF == block[at + 4] as bv64 && (w >> 40) & 0xFF == block[at + 5] as bv64
    requires (w >> 48) & 0xFF == block[at + 6] as bv64 && (w >> 56) & 0xFF == block[at + 7] as bv64
    ensures Xxh64.Read64(block[at..at + 8]) == w
  {
    hide *;
    Read64Is(block[at..at + 8]);
    Pieces64(w);
  }

  lemma Singles64(h: bv64, a: bv8, b: bv8, c: bv8)
    ensures Xxh64.Finalize(h, [a, b, c]) == Xxh64.Avalanche(Xxh64.Process1(Xxh64.Process1(Xxh64.Process1(h, a), b), c))
  {
    hide Xxh64.Process8, Xxh64.Process4, Xxh64.Process1, Xxh64.Avalanche, Xxh64.Finalize;
    assert [a, b, c][1..] == [b, c] && [b, c][1..] == [c] && [c][1..] == [];
    Xxh64.FinalizeUnfold(h, [a, b, c]);
    Xxh64.FinalizeUnfold(Xxh64.Process1(h, a), [b, c]);
    Xxh64.FinalizeUnfold(Xxh64.Process1(Xxh64.Process1(h, a), b), [c]);
    Xxh64.FinalizeUnfold(Xxh64.Process1(Xxh64.Process1(Xxh64.Process1(h, a), b), c), []);
  }

  lemma Rounds64Fox()
    ensures Xxh64.Round(0x60EA27EEADC0B5D6, 0x6369757120656854) == 0x1BF961D28F3A149D
    ensures Xxh64.Round(0xC2B2AE3D27D4EB4F, 0x206E776F7262206B) == 0x0BD18AA2EE4D901F
    ensures Xxh64.Round(0x0000000000000000, 0x706D756A20786F66) == 0x9986F59CC4FE6078
    ensures Xxh64.Round(0x61C8864E7A143579, 0x74207265766F2073) == 0x79F80495CC7EBC76
  {
  }

  lemma Words64Fox()
    ensures Xxh64.Read64(FOX_1[0..8]) == 0x6369757120656854
    ensures Xxh64.Read64(FOX_1[8..16]) == 0x206E776F7262206B
    ensures Xxh64.Read64(FOX_2[0..8]) == 0x706D756A20786F66
    ensures Xxh64.Read64(FOX_2[8..16]) == 0x74207265766F2073
  {
    hide Xxh64.Read64;
    Word64(FOX_1, 0, 0x6369757120656854);
    Word64(FOX_1, 8, 0x206E776F7262206B);
    Word64(FOX_2, 0, 0x706D756A20786F66);
    Word64(FOX_2, 8, 0x74207265766F2073);
  }

  lemma Stripe64Fox()
    ensures Xxh64.Stripe(Xxh64.InitAccs(0), FOX_1 + FOX_2)
         == Xxh64.Lanes(0x1BF961D28F3A149D, 0x0BD18AA2EE4D901F,
                        0x9986F59CC4FE6078, 0x79F80495CC7EBC76)
  {
    hide Xxh64.Round, Xxh64.Read64;
    Words64Fox();
    Rounds64Fox();
    Halves(FOX_1, FOX_2);
  }

  lemma Merge64Fox()
    ensures Xxh64.AddLen(Xxh64.MergeAccs(Xxh64.Lanes(0x1BF961D28F3A149D, 0x0BD18AA2EE4D901F,
                        0x9986F59CC4FE6078, 0x79F80495CC7EBC76)), 43)
         == 0x9007C00F586BFB1B
  {
  }

  lemma Steps64Fox()
    ensures Xxh64.Process8(0x9007C00F586BFB1B, FOX_3[..8]) == 0x16439AFBB973B9CE
    ensures Xxh64.Process1(0x16439AFBB973B9CE, 0x64) == 0xF298D68986F0650D
    ensures Xxh64.Process1(0xF298D68986F0650D, 0x6F) == 0xD42FD768E36B4332
    ensures Xxh64.Process1(0xD42FD768E36B4332, 0x67) == 0xBCFB33FF6EE4F80C
    ensures Xxh64.Avalanche(0xBCFB33FF6EE4F80C) == 0x0B242D361FDA71BC
  {
    Word64(FOX_3, 0, 0x20797A616C206568);
    hide Xxh64.Read64, Xxh64.Read32;
  }

  /** XXH64 of the first sentence. */
  lemma Fox64()
    ensures Xxh64.Hash(0, FOX) == 0x0B242D361FDA71BC
  {
    hide Xxh64.Stripe, Xxh64.InitAccs, Xxh64.Finalize, Fold, Rest, Xxh64.MergeAccs, Xxh64.AddLen, Xxh64.Process8;
    hide Xxh64.Process4, Xxh64.Process1, Xxh64.Avalanche;
    Stripe64Fox();
    Merge64Fox();
    OneBlock(Xxh64.Stripe, Xxh64.InitAccs(0), FOX_1, FOX_2, FOX_3);
    Steps64Fox();
    Xxh64.FinalizeUnfold(0x9007C00F586BFB1B, FOX_3);
    assert FOX_3[8..] == [0x64, 0x6F, 0x67];
    Singles64(0x16439AFBB973B9CE, 0x64, 0x6F, 0x67);
  }

  lemma Rounds64Spam()
    ensures Xxh64.Round(0x60EA27EEADC0B5D6, 0x692079646F626F4E) == 0x37245127A4067E4B
    ensures Xxh64.Round(0xC2B2AE3D27D4EB4F, 0x207374636570736E) == 0x1B302B0A818F92CF
    ensures Xxh64.Round(0x0000000000000000, 0x6D61707320656874) == 0xCD62D843D0580FCA
    ensures Xxh64.Round(0x61C8864E7A143579, 0x706572206873696D) == 0x1C16E43EF2142A4A
  {
  }

  lemma Words64Spam()
    ensures Xxh64.Read64(SPAM_1[0..8]) == 0x692079646F626F4E
    ensures Xxh64.Read64(SPAM_1[8..16]) == 0x207374636570736E
    ensures Xxh64.Read64(SPAM_2[0..8]) == 0x6D61707320656874
    ensures Xxh64.Read64(SPAM_2[8..16]) == 0x706572206873696D
  {
    hide Xxh64.Read64;
    Word64(SPAM_1, 0, 0x692079646F626F4E);
    Word64(SPAM_1, 8, 0x207374636570736E);
    Word64(SPAM_2, 0, 0x6D61707320656874);
    Word64(SPAM_2, 8, 0x706572206873696D);
  }

  lemma Stripe64Spam()
    ensures Xxh64.Stripe(Xxh64.InitAccs(0), SPAM_1 + SPAM_2)
         == Xxh64.Lanes(0x37245127A4067E4B, 0x1B302B0A818F92CF,
                        0xCD62D843D0580FCA, 0x1C16E43EF2142A4A)
  {
    hide Xxh64.Round, Xxh64.Read64;
    Words64Spam();
    Rounds64Spam();
    Halves(SPAM_1, SPAM_2);
  }

  lemma Merge64Spam()
    ensures Xxh64.AddLen(Xxh64.MergeAccs(Xxh64.Lanes(0x37245127A4067E4B, 0x1B302B0A818F92CF,
                        0xCD62D843D0580FCA, 0x1C16E43EF2142A4A)), 39)
         == 0x84F22C421A11A8DC
  {
  }

  lemma Steps64Spam()
    ensures Xxh64.Process4(0x84F22C421A11A8DC, SPAM_3[..4]) == 0x9FCA0F5D0AAA110F
    ensures Xxh64.Process1(0x9FCA0F5D0AAA110F, 0x69) == 0x769671546F21BA14
    ensures Xxh64.Process1(0x769671546F21BA14, 0x6F) == 0xEAE9B643C5F94E52
    ensures Xxh64.Process1(0xEAE9B643C5F94E52, 0x6E) == 0x1D0A47483B37CC24
    ensures Xxh64.Avalanche(0x1D0A47483B37CC24) == 0xFBCEA83C8A378BF1
  {
    assert Xxh64.Read32(SPAM_3[..4]) == 0x74697465;
  }

  /** XXH64 of the second sentence. */
  lemma Spam64()
    ensures Xxh64.Hash(0, SPAM) == 0xFBCEA83C8A378BF1
  {
    hide Xxh64.Stripe, Xxh64.InitAccs, Xxh64.Finalize, Fold, Rest, Xxh64.MergeAccs, Xxh64.AddLen, Xxh64.Process8;
    hide Xxh64.Process4, Xxh64.Process1, Xxh64.Avalanche;
    Stripe64Spam();
    Merge64Spam();
    OneBlock(Xxh64.Stripe, Xxh64.InitAccs(0), SPAM_1, SPAM_2, SPAM_3);
    Steps64Spam();
    Xxh64.FinalizeUnfold(0x84F22C421A11A8DC, SPAM_3);
    assert SPAM_3[4..] == [0x69, 0x6F, 0x6E];
    Singles64(0x9FCA0F5D0AAA110F, 0x69, 0x6F, 0x6E);
  }

  // ----- Seeds -----

  /** Where the lanes start with the seed 1. */
  lemma SeedOne()
    ensures Xxh32.InitAccs(1) == Xxh32.Lanes(0x24234429, 0x85EBCA78, 1, 0x61C88650)
    ensures Xxh64.InitAccs(1) ==
            Xxh64.Lanes(0x60EA27EEADC0B5D7, 0xC2B2AE3D27D4EB50, 1, 0x61C8864E7A14357A)
  {
  }

  /** The empty input with the seed 0x9E3779B1. */
  lemma SeededEmpty()
    ensures Xxh32.Hash(0x9E3779B1, []) == 0x36B78AE7 && Xxh64.Hash(0x9E3779B1, []) == 0xAC75FDA2929B17EF
  {
    hide Xxh32.Stripe, Xxh64.Stripe;
  }
}
