/** XXH32 of include/xxhash.h: one-shot, streaming, and the two forms of its finalization. */
module Xxh32 {
  import opened BlockFold
  import opened Integers

  const PRIME_1: bv32 := 0x9E3779B1
  const PRIME_2: bv32 := 0x85EBCA77
  const PRIME_3: bv32 := 0xC2B2AE3D
  const PRIME_4: bv32 := 0x27D4EB2F
  const PRIME_5: bv32 := 0x165667B1
  const STRIPE: nat := 16

  datatype Lanes = Lanes(a: bv32, b: bv32, c: bv32, d: bv32)

  function Read32(b: seq<bv8>): bv32
    requires |b| >= 4
  {
    (b[0] as bv32) | ((b[1] as bv32) << 8) | ((b[2] as bv32) << 16) | ((b[3] as bv32) << 24)
  }

  /** Byte i of the word is byte i of memory, the least significant first. */
  lemma ReadsBytes(b: seq<bv8>)
    requires |b| >= 4
    ensures Read32(b) & 0xFF == b[0] as bv32 && (Read32(b) >> 8) & 0xFF == b[1] as bv32
    ensures (Read32(b) >> 16) & 0xFF == b[2] as bv32 && (Read32(b) >> 24) & 0xFF == b[3] as bv32
  {
  }

  function Round(acc: bv32, input: bv32): bv32 {
    (acc + input * PRIME_2).RotateLeft(13) * PRIME_1
  }

  function InitAccs(seed: bv32): Lanes {
    Lanes(seed + PRIME_1 + PRIME_2, seed + PRIME_2, seed + 0, seed - PRIME_1)
  }

  function Stripe(acc: Lanes, block: seq<bv8>): Lanes {
    if |block| != STRIPE then acc
    else Lanes(Round(acc.a, Read32(block[0..4])), Round(acc.b, Read32(block[4..8])),
               Round(acc.c, Read32(block[8..12])), Round(acc.d, Read32(block[12..16])))
  }

  function MergeAccs(acc: Lanes): bv32 {
    acc.a.RotateLeft(1) + acc.b.RotateLeft(7) + acc.c.RotateLeft(12) + acc.d.RotateLeft(18)
  }

  function Avalanche(h: bv32): bv32 {
    var h1 := (h ^ (h >> 15)) * PRIME_2;
    var h2 := (h1 ^ (h1 >> 13)) * PRIME_3;
    h2 ^ (h2 >> 16)
  }

  function Process4(h: bv32, b: seq<bv8>): bv32
    requires |b| >= 4
  {
    (h + Read32(b) * PRIME_3).RotateLeft(17) * PRIME_4
  }

  function Process1(h: bv32, b: bv8): bv32 {
    (h + (b as bv32) * PRIME_5).RotateLeft(11) * PRIME_1
  }

  /** Four bytes at a time, then one at a time, then the avalanche. */
  function Finalize(h: bv32, tail: seq<bv8>): bv32
    decreases |tail|
  {
    if |tail| >= 4 then Finalize(Process4(h, tail[..4]), tail[4..])
    else if |tail| > 0 then Finalize(Process1(h, tail[0]), tail[1..])
    else Avalanche(h)
  }

  function AddLen(h: bv32, n: nat): bv32
    requires n < U32
  {
    h + n as bv32
  }

  /** The hash of a whole input. */
  function Hash(seed: bv32, data: seq<bv8>): bv32 {
    var h := if |data| >= STRIPE then MergeAccs(Fold(Stripe, STRIPE, InitAccs(seed), data)) else seed + PRIME_5;
    Finalize(AddLen(h, |data| % U32), Rest(STRIPE, data))
  }

  method FinalizeLoop(hash: bv32, ptr: seq<bv8>, length: nat) returns (h: bv32)
    requires length % 16 <= |ptr|
    ensures h == Finalize(hash, ptr[..length % 16])
  {
    hide Process4, Process1, Avalanche;
    var len, at := length % 16, 0;
    h := hash;
    ghost var tail := ptr[..len];
    while len >= 4
      invariant at + len == |tail| && Finalize(h, tail[at..]) == Finalize(hash, tail)
    {
      Front(ptr, at + len, at, 4);
      h, at, len := Process4(h, ptr[at..at + 4]), at + 4, len - 4;
    }
    while len > 0
      invariant len < 4 && at + len == |tail| && Finalize(h, tail[at..]) == Finalize(hash, tail)
    {
      Front(ptr, at + len, at, 1);
      h, at, len := Process1(h, ptr[at]), at + 1, len - 1;
    }
    h := Avalanche(h);
  }

  /** The jump-table form: the case entered, falling through to the ones below it. */
  function JumpTo(entry: nat, h: bv32, t: seq<bv8>): bv32
    requires |t| == entry < 16
  {
    match entry
    case 12 => JumpTo(8, Process4(h, t[..4]), t[4..])
    case 8 => JumpTo(4, Process4(h, t[..4]), t[4..])
    case 4 => Avalanche(Process4(h, t[..4]))
    case 13 => JumpTo(9, Process4(h, t[..4]), t[4..])
    case 9 => JumpTo(5, Process4(h, t[..4]), t[4..])
    case 5 => Avalanche(Process1(Process4(h, t[..4]), t[4]))
    case 14 => JumpTo(10, Process4(h, t[..4]), t[4..])
    case 10 => JumpTo(6, Process4(h, t[..4]), t[4..])
    case 6 => Avalanche(Process1(Process1(Process4(h, t[..4]), t[4]), t[5]))
    case 15 => JumpTo(11, Process4(h, t[..4]), t[4..])
    case 11 => JumpTo(7, Process4(h, t[..4]), t[4..])
    case 7 => JumpTo(3, Process4(h, t[..4]), t[4..])
    case 3 => JumpTo(2, Process1(h, t[0]), t[1..])
    case 2 => JumpTo(1, Process1(h, t[0]), t[1..])
    case 1 => JumpTo(0, Process1(h, t[0]), t[1..])
    case _ => Avalanche(h)
  }

  /** For every tail the jump table and the loops give the same hash. */
  lemma {:induction false} SwitchIsLoop(h: bv32, t: seq<bv8>)
    requires |t| < 16
    ensures JumpTo(|t|, h, t) == Finalize(h, t)
    decreases |t|
  {
    hide Process4, Process1, Avalanche;
    if |t| >= 4 {
      SwitchIsLoop(Process4(h, t[..4]), t[4..]);
      assert |t| >= 7 ==> JumpTo(|t|, h, t) == JumpTo(|t| - 4, Process4(h, t[..4]), t[4..]);
      LastOnes(Process4(h, t[..4]), t[4..]);
    } else if |t| > 0 {
      SwitchIsLoop(Process1(h, t[0]), t[1..]);
    }
  }

  lemma {:induction false} LastOnes(h: bv32, t: seq<bv8>)
    ensures |t| == 0 ==> Finalize(h, t) == Avalanche(h)
    ensures |t| == 1 ==> Finalize(h, t) == Avalanche(Process1(h, t[0]))
    ensures |t| == 2 ==> Finalize(h, t) == Avalanche(Process1(Process1(h, t[0]), t[1]))
    decreases |t|
  {
    hide Process4, Process1, Avalanche;
    if |t| == 2 { LastOnes(Process1(h, t[0]), t[1..]); }
  }

  /** XXH32_endian_align. */
  method OneShot(input: seq<bv8>, seed: bv32) returns (h: bv32)
    ensures h == Hash(seed, input)
  {
    hide Stripe, MergeAccs, InitAccs, AddLen, Finalize, Fold;
    var at := 0;
    if |input| >= STRIPE {
      var acc;
      acc, at := ConsumeLong(Stripe, STRIPE, InitAccs(seed), input);
      h := MergeAccs(acc);
    } else {
      h := seed + PRIME_5;
    }
    h := AddLen(h, |input| % U32);
    RestIs(STRIPE, input);
    var tail := input[at..];
    h := FinalizeLoop(h, tail, |input| % 16);
    assert tail[..|tail|] == tail;
  }

  lemma ShortInput(seed: bv32, data: seq<bv8>)
    requires |data| < STRIPE
    ensures Fold(Stripe, STRIPE, InitAccs(seed), data).c == seed
  {
    hide Stripe, MergeAccs, Finalize;
  }

  /** The wrapped counter is the true length modulo 2^32, and no wrap can hide that 16 has been reached. */
  lemma Lengths(n: nat, len: nat)
    ensures var total := (n % U32 + len % U32) % U32;
      total == (n + len) % U32 && (n >= 16 || len >= 16 || total >= 16 <==> n + len >= 16)
  {
  }

  class State {
    var totalLen32: nat
    var largeLen: bool
    var acc: Lanes
    const buffer: array<bv8>
    var bufferedSize: nat
    ghost var seed: bv32
    ghost var fed: seq<bv8>

    /** The state after fed, however it was cut into updates. */
    ghost predicate Valid()
      reads this, buffer
    {
      && buffer.Length == STRIPE && bufferedSize < STRIPE
      && totalLen32 == |fed| % U32
      && (largeLen <==> |fed| >= STRIPE)
      && acc == Fold(Stripe, STRIPE, InitAccs(seed), fed)
      && buffer[..bufferedSize] == Rest(STRIPE, fed)
    }

    constructor (withSeed: bv32)
      ensures Valid() && fresh(buffer) && fed == [] && seed == withSeed
    {
      hide Stripe, InitAccs;
      buffer := new bv8[STRIPE];
      totalLen32, largeLen, bufferedSize := 0, false, 0;
      acc, seed, fed := InitAccs(withSeed), withSeed, [];
      new;
      Short(Stripe, STRIPE, InitAccs(withSeed), []);
    }

    method Reset(withSeed: bv32)
      requires buffer.Length == STRIPE
      modifies this, buffer
      ensures Valid() && fed == [] && seed == withSeed
    {
      hide Stripe, InitAccs;
      forall i | 0 <= i < STRIPE { buffer[i] := 0; }
      totalLen32, largeLen, bufferedSize := 0, false, 0;
      acc, seed, fed := InitAccs(withSeed), withSeed, [];
      Short(Stripe, STRIPE, InitAccs(withSeed), []);
    }

    method Count(len: nat)
      requires totalLen32 == |fed| % U32 && (largeLen <==> |fed| >= STRIPE)
      modifies this`totalLen32, this`largeLen
      ensures totalLen32 == (|fed| + len) % U32 && (largeLen <==> |fed| + len >= STRIPE)
    {
      Lengths(|fed|, len);
      totalLen32 := (totalLen32 + len % U32) % U32;
      largeLen := largeLen || len >= 16 || totalLen32 >= 16;
    }

    method Update(input: seq<bv8>)
      requires Valid()
      modifies this, buffer
      ensures Valid() && fed == old(fed) + input && seed == old(seed)
    {
      hide Stripe, InitAccs, Fold, Rest;
      ghost var tail := buffer[..bufferedSize];
      var len := |input|;
      Count(len);
      Resume(Stripe, STRIPE, InitAccs(seed), fed, input);
      fed := fed + input;
      if len < STRIPE - bufferedSize {
        CopyInto(buffer, bufferedSize, input);
        bufferedSize := bufferedSize + len;
        Short(Stripe, STRIPE, acc, tail + input);
      } else {
        acc, bufferedSize := Absorb(Stripe, STRIPE, acc, buffer, bufferedSize, input);
      }
    }

    /** Streaming gives the one-shot hash of everything fed. */
    method Digest() returns (h: bv32)
      requires Valid()
      ensures h == Hash(seed, fed)
    {
      hide Stripe, MergeAccs, AddLen, Finalize;
      if largeLen {
        h := MergeAccs(acc);
      } else {
        ShortInput(seed, fed);
        h := acc.c + PRIME_5;
      }
      h := AddLen(h, totalLen32);
      h := FinalizeLoop(h, buffer[..], bufferedSize);
      assert buffer[..][..bufferedSize] == buffer[..bufferedSize];
    }
  }

  /** However an input is cut into chunks, feeding them and digesting gives the one-shot hash. */
  method HashChunks(seed: bv32, chunks: seq<seq<bv8>>) returns (h: bv32)
    ensures h == Hash(seed, Concat(chunks))
  {
    hide Hash, Concat, Fold, Rest;
    assert Concat([]) == [] by { ConcatNone(); }
    assert chunks[..0] == [];
    var state := new State(seed);
    for i := 0 to |chunks|
      invariant fresh(state) && fresh(state.buffer) && state.Valid() && state.seed == seed
      invariant state.fed == Concat(chunks[..i])
    {
      ConcatStep(chunks, i);
      state.Update(chunks[i]);
    }
    assert chunks[..|chunks|] == chunks;
    h := state.Digest();
  }
}
