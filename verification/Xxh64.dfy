/** XXH64 of include/xxhash.h: one-shot and streaming. */
module Xxh64 {
  import opened BlockFold
  import opened Integers

  const PRIME_1: bv64 := 0x9E3779B185EBCA87
  const PRIME_2: bv64 := 0xC2B2AE3D27D4EB4F
  const PRIME_3: bv64 := 0x165667B19E3779F9
  const PRIME_4: bv64 := 0x85EBCA77C2B2AE63
  const PRIME_5: bv64 := 0x27D4EB2F165667C5
  const STRIPE: nat := 32

  datatype Lanes = Lanes(a: bv64, b: bv64, c: bv64, d: bv64)

  function Read32(b: seq<bv8>): bv64
    requires |b| >= 4
  {
    (b[0] as bv64) | ((b[1] as bv64) << 8) | ((b[2] as bv64) << 16) | ((b[3] as bv64) << 24)
  }

  function Read64(b: seq<bv8>): bv64
    requires |b| >= 8
  {
    Read32(b[..4]) | (Read32(b[4..8]) << 32)
  }

  /** Byte i of the word is byte i of memory, the least significant first. */
  lemma ReadsBytes(b: seq<bv8>)
    requires |b| >= 8
    ensures Read64(b) & 0xFF == b[0] as bv64 && (Read64(b) >> 8) & 0xFF == b[1] as bv64
    ensures (Read64(b) >> 16) & 0xFF == b[2] as bv64 && (Read64(b) >> 24) & 0xFF == b[3] as bv64
    ensures (Read64(b) >> 32) & 0xFF == b[4] as bv64 && (Read64(b) >> 40) & 0xFF == b[5] as bv64
    ensures (Read64(b) >> 48) & 0xFF == b[6] as bv64 && (Read64(b) >> 56) & 0xFF == b[7] as bv64
  {
  }

  function Round(acc: bv64, input: bv64): bv64 {
    (acc + input * PRIME_2).RotateLeft(31) * PRIME_1
  }

  function InitAccs(seed: bv64): Lanes {
    Lanes(seed + PRIME_1 + PRIME_2, seed + PRIME_2, seed + 0, seed - PRIME_1)
  }

  function Stripe(acc: Lanes, block: seq<bv8>): Lanes {
    if |block| != STRIPE then acc
    else Lanes(Round(acc.a, Read64(block[0..8])), Round(acc.b, Read64(block[8..16])),
               Round(acc.c, Read64(block[16..24])), Round(acc.d, Read64(block[24..32])))
  }

  function MergeRound(h: bv64, lane: bv64): bv64 {
    (h ^ Round(0, lane)) * PRIME_1 + PRIME_4
  }

  function MergeAccs(acc: Lanes): bv64 {
    var h := acc.a.RotateLeft(1) + acc.b.RotateLeft(7) + acc.c.RotateLeft(12) + acc.d.RotateLeft(18);
    MergeRound(MergeRound(MergeRound(MergeRound(h, acc.a), acc.b), acc.c), acc.d)
  }

  function Avalanche(h: bv64): bv64 {
    var h1 := (h ^ (h >> 33)) * PRIME_2;
    var h2 := (h1 ^ (h1 >> 29)) * PRIME_3;
    h2 ^ (h2 >> 32)
  }

  function Process8(h: bv64, b: seq<bv8>): bv64
    requires |b| >= 8
  {
    (h ^ Round(0, Read64(b))).RotateLeft(27) * PRIME_1 + PRIME_4
  }

  function Process4(h: bv64, b: seq<bv8>): bv64
    requires |b| >= 4
  {
    (h ^ (Read32(b) * PRIME_1)).RotateLeft(23) * PRIME_2 + PRIME_3
  }

  function Process1(h: bv64, b: bv8): bv64 {
    (h ^ ((b as bv64) * PRIME_5)).RotateLeft(11) * PRIME_1
  }

  /** Eight bytes at a time, at most one four, then single bytes, then the avalanche. */
  function Finalize(h: bv64, tail: seq<bv8>): bv64
    decreases |tail|
  {
    if |tail| >= 8 then Finalize(Process8(h, tail[..8]), tail[8..])
    else if |tail| >= 4 then Finalize(Process4(h, tail[..4]), tail[4..])
    else if |tail| > 0 then Finalize(Process1(h, tail[0]), tail[1..])
    else Avalanche(h)
  }

  function AddLen(h: bv64, n: nat): bv64
    requires n < U64
  {
    h + n as bv64
  }

  /** The hash of a whole input. */
  function Hash(seed: bv64, data: seq<bv8>): bv64 {
    var h := if |data| >= STRIPE then MergeAccs(Fold(Stripe, STRIPE, InitAccs(seed), data)) else seed + PRIME_5;
    Finalize(AddLen(h, |data| % U64), Rest(STRIPE, data))
  }

  method FinalizeLoop(hash: bv64, ptr: seq<bv8>, length: nat) returns (h: bv64)
    requires length % 32 <= |ptr|
    ensures h == Finalize(hash, ptr[..length % 32])
  {
    hide Process8, Process4, Process1, Avalanche, Finalize;
    var len, at := length % 32, 0;
    h := hash;
    ghost var tail := ptr[..len];
    assert tail[0..] == tail;
    while len >= 8
      invariant at + len == |tail| && Finalize(h, tail[at..]) == Finalize(hash, tail)
    {
      Front(ptr, at + len, at, 8);
      FinalizeUnfold(h, tail[at..]);
      h, at, len := Process8(h, ptr[at..at + 8]), at + 8, len - 8;
    }
    if len >= 4 {
      Front(ptr, at + len, at, 4);
      FinalizeUnfold(h, tail[at..]);
      h, at, len := Process4(h, ptr[at..at + 4]), at + 4, len - 4;
    }
    while len > 0
      invariant len < 4 && at + len == |tail| && Finalize(h, tail[at..]) == Finalize(hash, tail)
    {
      Front(ptr, at + len, at, 1);
      FinalizeUnfold(h, tail[at..]);
      h, at, len := Process1(h, ptr[at]), at + 1, len - 1;
    }
    FinalizeUnfold(h, tail[at..]);
    h := Avalanche(h);
  }

  lemma FinalizeUnfold(h: bv64, t: seq<bv8>)
    ensures |t| >= 8 ==> Finalize(h, t) == Finalize(Process8(h, t[..8]), t[8..])
    ensures 4 <= |t| < 8 ==> Finalize(h, t) == Finalize(Process4(h, t[..4]), t[4..])
    ensures 0 < |t| < 4 ==> Finalize(h, t) == Finalize(Process1(h, t[0]), t[1..])
    ensures t == [] ==> Finalize(h, t) == Avalanche(h)
  {
    hide Process8, Process4, Process1, Avalanche;
  }

  /** XXH64_endian_align. */
  method OneShot(input: seq<bv8>, seed: bv64) returns (h: bv64)
    ensures h == Hash(seed, input)
  {
    hide Stripe, MergeAccs, InitAccs, AddLen, Finalize, Fold;
    var at := 0;
    if |input| >= STRIPE {
      var acc;
      acc, at := ConsumeLong(Stripe, STRIPE, InitAccs(seed), input);
      h := MergeAccs(acc);
    } else {
      h := seed + PRIME_5;
    }
    h := AddLen(h, |input| % U64);
    RestIs(STRIPE, input);
    var tail := input[at..];
    h := FinalizeLoop(h, tail, |input|);
    assert tail[..|tail|] == tail;
  }

  lemma ShortInput(seed: bv64, data: seq<bv8>)
    requires |data| < STRIPE
    ensures Fold(Stripe, STRIPE, InitAccs(seed), data).c == seed
  {
    hide Stripe, MergeAccs, Finalize;
  }

  class State {
    var totalLen: nat
    var acc: Lanes
    const buffer: array<bv8>
    var bufferedSize: nat
    ghost var seed: bv64
    ghost var fed: seq<bv8>

    /** The state after fed, however it was cut into updates. */
    ghost predicate Valid()
      reads this, buffer
    {
      && buffer.Length == STRIPE && bufferedSize < STRIPE
      && totalLen == |fed| % U64
      && acc == Fold(Stripe, STRIPE, InitAccs(seed), fed)
      && buffer[..bufferedSize] == Rest(STRIPE, fed)
    }

    constructor (withSeed: bv64)
      ensures Valid() && fresh(buffer) && fed == [] && seed == withSeed
    {
      hide Stripe, InitAccs;
      buffer := new bv8[STRIPE];
      totalLen, bufferedSize := 0, 0;
      acc, seed, fed := InitAccs(withSeed), withSeed, [];
      new;
      Short(Stripe, STRIPE, InitAccs(withSeed), []);
    }

    method Reset(withSeed: bv64)
      requires buffer.Length == STRIPE
      modifies this, buffer
      ensures Valid() && fed == [] && seed == withSeed
    {
      hide Stripe, InitAccs;
      forall i | 0 <= i < STRIPE { buffer[i] := 0; }
      totalLen, bufferedSize := 0, 0;
      acc, seed, fed := InitAccs(withSeed), withSeed, [];
      Short(Stripe, STRIPE, InitAccs(withSeed), []);
    }

    method Update(input: seq<bv8>)
      requires Valid()
      modifies this, buffer
      ensures Valid() && fed == old(fed) + input && seed == old(seed)
    {
      hide Stripe, InitAccs, Fold, Rest;
      ghost var tail := buffer[..bufferedSize];
      var len := |input|;
      totalLen := WrapAdd(|fed|, totalLen, len);
      Resume(Stripe, STRIPE, InitAccs(seed), fed, input);
      fed := fed + input;
      if len < STRIPE - bufferedSize {
        CopyInto(buffer, bufferedSize, input);
        bufferedSize := bufferedSize + len;
        Short(Stripe, STRIPE, acc, tail + input);
      } else {
        acc, bufferedSize := Absorb(Stripe, STRIPE, acc, buffer, bufferedSize, input);
      }
    }

    /** Streaming gives the one-shot hash of everything fed, unless the 64-bit length counter has wrapped back
        below a stripe. */
    method Digest() returns (h: bv64)
      requires Valid()
      ensures |fed| < STRIPE || |fed| % U64 >= STRIPE ==> h == Hash(seed, fed)
      ensures !(|fed| < STRIPE || |fed| % U64 >= STRIPE) ==> h == WrappedHash(seed, fed)
    {
      hide Stripe, MergeAccs, AddLen, Finalize;
      if totalLen >= STRIPE {
        h := MergeAccs(acc);
      } else {
        h := acc.c + PRIME_5;
        if |fed| < STRIPE { ShortInput(seed, fed); }
      }
      h := AddLen(h, totalLen);
      WrapKeepsTail(|fed|);
      RestIs(STRIPE, fed);
      h := FinalizeLoop(h, buffer[..], totalLen);
      assert buffer[..][..bufferedSize] == buffer[..bufferedSize];
    }
  }

  /** The digest's length argument finds the buffered bytes even after a wrap. */
  lemma WrapKeepsTail(n: nat)
    ensures n % U64 % 32 == n % 32
  {
  }

  /** What a digest returns after a wrap: it takes the third lane for the seed. */
  function WrappedHash(seed: bv64, data: seq<bv8>): bv64 {
    Finalize(AddLen(Fold(Stripe, STRIPE, InitAccs(seed), data).c + PRIME_5, |data| % U64), Rest(STRIPE, data))
  }

  /** However an input is cut into chunks, feeding them and digesting gives the one-shot hash; inputs have
      64-bit lengths. */
  method HashChunks(seed: bv64, chunks: seq<seq<bv8>>) returns (h: bv64)
    requires |Concat(chunks)| < U64
    ensures h == Hash(seed, Concat(chunks))
  {
    hide Hash, WrappedHash, Concat, Fold, Rest;
    assert Concat([]) == [] by { ConcatNone(); }
    assert chunks[..0] == [];
    var state := new State(seed);
    for i := 0 to |chunks|
      invariant fresh(state) && fresh(state.buffer) && state.Valid() && state.seed == seed
      invariant state.fed == Concat(chunks[..i])
    {
      ConcatStep(chunks, i);
      state.Update(chunks[i]);
    }
    assert chunks[..|chunks|] == chunks;
    h := state.Digest();
  }
}
