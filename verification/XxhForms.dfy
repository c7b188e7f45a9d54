/** Forms of include/xxhash.h that must agree: the portable multiply with the product, and the rolled middle-length
    hashes with the unrolled ones. */
module XxhForms {
  import opened Integers
  import opened Xxh64

  const K: nat := 0x1_0000_0000

  // ----- XXH_mult64to128 -----

  /** XXH_mult32to64 and every sum below are 64-bit operations. */
  function Wrap(x: nat): nat {
    x % U64
  }

  lemma Below(a: nat, b: nat)
    requires a < K && b < K
    ensures 0 <= a * b <= (K - 1) * (K - 1)
  {
    Monotone(a, K - 1, b);
  }

  lemma Monotone(a: nat, m: nat, b: nat)
    requires a <= m
    ensures 0 <= a * b <= m * b
  {
    assert m * b - a * b == (m - a) * b;
  }

  /** XXH_mult32to64, whose product always fits. */
  function Mult32To64(a: nat, b: nat): (r: nat)
    requires a < K && b < K
    ensures r == a * b <= (K - 1) * (K - 1)
  {
    Below(a, b);
    Wrap(a * b)
  }

  lemma SchoolMultiply(a: nat, b: nat, c: nat, d: nat)
    ensures (a * K + b) * (c * K + d) == a * c * (K * K) + (a * d + b * c) * K + b * d
  {
    assert (a * K + b) * (c * K + d) == a * (c * K + d) * K + b * (c * K + d);
    assert a * (c * K + d) == a * c * K + a * d;
    assert b * (c * K + d) == b * c * K + b * d;
  }

  /** The four partial products leave room for both additions, so nothing is lost to the 64-bit width. */
  lemma NoOverflow(loLo: nat, hiLo: nat, loHi: nat, hiHi: nat)
    requires loLo <= (K - 1) * (K - 1) && hiLo <= (K - 1) * (K - 1)
    requires loHi <= (K - 1) * (K - 1) && hiHi <= (K - 1) * (K - 1)
    ensures loLo / K + hiLo % K + loHi < U64
    ensures hiLo / K + (loLo / K + hiLo % K + loHi) / K + hiHi < U64
  {
  }

  /** The partial products added up, low half first; the shifts and masks are by 32 bits. */
  function Combine(loLo: nat, hiLo: nat, loHi: nat, hiHi: nat): (r: (nat, nat))
  {
    var cross := Wrap(loLo / K + hiLo % K + loHi);
    var upper := Wrap(hiLo / K + cross / K + hiHi);
    (Wrap(cross * K) + loLo % K, upper)
  }

  lemma CombineIsSum(loLo: nat, hiLo: nat, loHi: nat, hiHi: nat)
    requires loLo / K + hiLo % K + loHi < U64
    requires hiLo / K + (loLo / K + hiLo % K + loHi) / K + hiHi < U64
    ensures var r := Combine(loLo, hiLo, loHi, hiHi);
      r.0 < U64 && r.1 < U64 && r.1 * U64 + r.0 == hiHi * U64 + (hiLo + loHi) * K + loLo
  {
    var cross := loLo / K + hiLo % K + loHi;
    assert cross * K == cross / K * U64 + cross % K * K;
    assert Wrap(cross * K) == cross % K * K;
  }

  /** The portable multiply: high * 2^64 + low is the product, for all inputs. */
  function Mult64To128(lhs: nat, rhs: nat): (r: (nat, nat))
    requires lhs < U64 && rhs < U64
    ensures r.0 < U64 && r.1 < U64 && r.1 * U64 + r.0 == lhs * rhs
  {
    var a, b, c, d := lhs / K, lhs % K, rhs / K, rhs % K;
    var loLo, hiLo, loHi, hiHi := Mult32To64(b, d), Mult32To64(a, d), Mult32To64(b, c), Mult32To64(a, c);
    NoOverflow(loLo, hiLo, loHi, hiHi);
    CombineIsSum(loLo, hiLo, loHi, hiHi);
    SchoolMultiply(a, b, c, d);
    Combine(loLo, hiLo, loHi, hiHi)
  }

  /** Or-ing a word shifted up by 32 with 32 low bits adds them. */
  lemma OrIsAdd(cross: bv64, low: bv64)
    requires low <= 0xFFFF_FFFF
    ensures (cross << 32) | low == (cross << 32) + low
  {
  }

  // ----- XXH3_len_17to128, 64 and 128 bits -----

  /** One round: two 16-byte pieces of the input, at distance i from either end, against 32 bytes of the secret. */
  function Round<A>(mix: (A, seq<bv8>, seq<bv8>, seq<bv8>) -> A, input: seq<bv8>, secret: seq<bv8>, acc: A, i: nat): A
    requires 16 * i + 16 <= |input| && 32 * i + 32 <= |secret|
  {
    var at := |input| - 16 * (i + 1);
    mix(acc, input[16 * i..16 * i + 16], input[at..at + 16], secret[32 * i..32 * i + 32])
  }

  /** Rounds i, i - 1, ..., 0. */
  function Rounds<A>(mix: (A, seq<bv8>, seq<bv8>, seq<bv8>) -> A, input: seq<bv8>, secret: seq<bv8>, acc: A, i: nat): A
    requires 16 * i + 16 <= |input| && 32 * i + 32 <= |secret|
  {
    var r := Round(mix, input, secret, acc, i);
    if i == 0 then r else Rounds(mix, input, secret, r, i - 1)
  }

  /** The smaller form: a counter that starts at (len - 1) / 32 and stops after 0. */
  method Rolled<A>(mix: (A, seq<bv8>, seq<bv8>, seq<bv8>) -> A, input: seq<bv8>, secret: seq<bv8>, start: A)
      returns (acc: A)
    requires 16 < |input| <= 128 && |secret| >= 136
    ensures acc == Rounds(mix, input, secret, start, (|input| - 1) / 32)
  {
    acc := start;
    var i, more := (|input| - 1) / 32, true;
    while more
      invariant 0 <= i <= (|input| - 1) / 32
      invariant Rounds(mix, input, secret, start, (|input| - 1) / 32) ==
                if more then Rounds(mix, input, secret, acc, i) else acc
      decreases more, i
    {
      acc := Round(mix, input, secret, acc, i);
      more := i != 0;
      if more { i := i - 1; }
    }
  }

  lemma Unfolded<A>(mix: (A, seq<bv8>, seq<bv8>, seq<bv8>) -> A, input: seq<bv8>, secret: seq<bv8>, acc: A)
    requires 16 < |input| <= 128 && |secret| >= 136
    ensures var n := (|input| - 1) / 32;
      var a3 := if n >= 3 then Round(mix, input, secret, acc, 3) else acc;
      var a2 := if n >= 2 then Round(mix, input, secret, a3, 2) else acc;
      var a1 := if n >= 1 then Round(mix, input, secret, a2, 1) else acc;
      Rounds(mix, input, secret, acc, n) == Round(mix, input, secret, a1, 0)
  {
    var n := (|input| - 1) / 32;
    var a3 := if n >= 3 then Round(mix, input, secret, acc, 3) else acc;
    var a2 := if n >= 2 then Round(mix, input, secret, a3, 2) else acc;
    var a1 := if n >= 1 then Round(mix, input, secret, a2, 1) else acc;
    hide Round;
    if n >= 3 { RoundsFrom(mix, input, secret, acc, 3); }
    if n >= 2 { RoundsFrom(mix, input, secret, a3, 2); }
    if n >= 1 { RoundsFrom(mix, input, secret, a2, 1); }
    RoundsFrom(mix, input, secret, a1, 0);
  }

  lemma RoundsFrom<A>(mix: (A, seq<bv8>, seq<bv8>, seq<bv8>) -> A, input: seq<bv8>, secret: seq<bv8>, acc: A, i: nat)
    requires 16 * i + 16 <= |input| && 32 * i + 32 <= |secret|
    ensures var r := Round(mix, input, secret, acc, i);
      Rounds(mix, input, secret, acc, i) == if i == 0 then r else Rounds(mix, input, secret, r, i - 1)
  {
    hide Round;
  }

  /** The unrolled form: nested tests on the length. */
  method Unrolled<A>(mix: (A, seq<bv8>, seq<bv8>, seq<bv8>) -> A, input: seq<bv8>, secret: seq<bv8>, start: A)
      returns (acc: A)
    requires 16 < |input| <= 128 && |secret| >= 136
    ensures acc == Rounds(mix, input, secret, start, (|input| - 1) / 32)
  {
    acc := start;
    var len := |input|;
    Unfolded(mix, input, secret, start);
    if len > 32 {
      if len > 64 {
        if len > 96 {
          acc := mix(acc, input[48..64], input[len - 64..len - 48], secret[96..128]);
        }
        acc := mix(acc, input[32..48], input[len - 48..len - 32], secret[64..96]);
      }
      acc := mix(acc, input[16..32], input[len - 32..len - 16], secret[32..64]);
    }
    acc := mix(acc, input[0..16], input[len - 16..len], secret[0..32]);
  }

  // The two widths. XXH3_mix16B with its seed, and XXH3_avalanche, are parameters.

  function Sum3(x: bv64, y: bv64, z: bv64): bv64 {
    x + y + z
  }

  /** One round of the 64-bit hash; the secret bytes are always 32. */
  function Mix64(mix16: (seq<bv8>, seq<bv8>) -> bv64): (bv64, seq<bv8>, seq<bv8>, seq<bv8>) -> bv64 {
    (acc: bv64, p: seq<bv8>, q: seq<bv8>, s: seq<bv8>) =>
      if |s| < 32 then acc else Sum3(acc, mix16(p, s[..16]), mix16(q, s[16..]))
  }

  datatype Words = Words(low: bv64, high: bv64)

  /** One half of XXH128_mix32B: a piece is mixed in, and the words of the other crossed with the result. */
  function Half(acc: bv64, mixed: bv64, other: seq<bv8>): bv64
    requires |other| >= 16
  {
    (acc + mixed) ^ (Read64(other) + Read64(other[8..]))
  }

  /** XXH128_mix32B; both pieces are always 16 bytes. */
  function Mix128(mix16: (seq<bv8>, seq<bv8>) -> bv64): (Words, seq<bv8>, seq<bv8>, seq<bv8>) -> Words {
    (acc: Words, p: seq<bv8>, q: seq<bv8>, s: seq<bv8>) =>
      if |s| < 32 || |p| < 16 || |q| < 16 then acc
      else Words(Half(acc.low, mix16(p, s[..16]), q), Half(acc.high, mix16(q, s[16..]), p))
  }

  function Start(len: nat): bv64
    requires len <= 128
  {
    (len as bv64) * PRIME_1
  }

  function Finish128(avalanche: bv64 -> bv64, acc: Words, len: nat, seed: bv64): Words
    requires len <= 128
  {
    Words(avalanche(acc.low + acc.high),
          0 - avalanche(acc.low * PRIME_1 + acc.high * PRIME_4 + ((len as bv64) - seed) * PRIME_2))
  }

  function Hash64(mix16: (seq<bv8>, seq<bv8>) -> bv64, avalanche: bv64 -> bv64, input: seq<bv8>, secret: seq<bv8>): bv64
    requires 16 < |input| <= 128 && |secret| >= 136
  {
    avalanche(Rounds(Mix64(mix16), input, secret, Start(|input|), (|input| - 1) / 32))
  }

  function Hash128(mix16: (seq<bv8>, seq<bv8>) -> bv64, avalanche: bv64 -> bv64, input: seq<bv8>, secret: seq<bv8>,
                   seed: bv64): Words
    requires 16 < |input| <= 128 && |secret| >= 136
  {
    var acc := Rounds(Mix128(mix16), input, secret, Words(Start(|input|), 0), (|input| - 1) / 32);
    Finish128(avalanche, acc, |input|, seed)
  }

  /** Either build of the 64-bit hash computes the same function, for every length 17 to 128. */
  method Len17To128x64(rolled: bool, mix16: (seq<bv8>, seq<bv8>) -> bv64, avalanche: bv64 -> bv64, input: seq<bv8>,
                       secret: seq<bv8>) returns (h: bv64)
    requires 16 < |input| <= 128 && |secret| >= 136
    ensures h == Hash64(mix16, avalanche, input, secret)
  {
    hide Start, Mix64, Rounds;
    if rolled {
      h := Rolled(Mix64(mix16), input, secret, Start(|input|));
    } else {
      h := Unrolled(Mix64(mix16), input, secret, Start(|input|));
    }
    h := avalanche(h);
  }

  /** Either build of the 128-bit hash computes the same function, for every length 17 to 128. */
  method Len17To128x128(rolled: bool, mix16: (seq<bv8>, seq<bv8>) -> bv64, avalanche: bv64 -> bv64, input: seq<bv8>,
                        secret: seq<bv8>, seed: bv64) returns (h: Words)
    requires 16 < |input| <= 128 && |secret| >= 136
    ensures h == Hash128(mix16, avalanche, input, secret, seed)
  {
    hide Start, Mix128, Rounds, Finish128;
    var acc := Words(Start(|input|), 0);
    if rolled {
      acc := Rolled(Mix128(mix16), input, secret, acc);
    } else {
      acc := Unrolled(Mix128(mix16), input, secret, acc);
    }
    h := Finish128(avalanche, acc, |input|, seed);
  }

  lemma OnlyRound<A>(mix: (A, seq<bv8>, seq<bv8>, seq<bv8>) -> A, input: seq<bv8>, secret: seq<bv8>, acc: A)
    requires 16 < |input| <= 32 && |secret| >= 136
    ensures Rounds(mix, input, secret, acc, 0) == mix(acc, input[..16], input[|input| - 16..], secret[..32])
  {
    assert input[0..16] == input[..16] && secret[0..32] == secret[..32];
    assert input[|input| - 16..|input| - 16 + 16] == input[|input| - 16..];
  }

  /** From 17 to 32 bytes one round is all: the first 16 bytes go with the first 16 of the secret, the last 16 with the
      next 16. */
  lemma OneRound64(mix16: (seq<bv8>, seq<bv8>) -> bv64, avalanche: bv64 -> bv64, input: seq<bv8>, secret: seq<bv8>)
    requires 16 < |input| <= 32 && |secret| >= 136
    ensures Hash64(mix16, avalanche, input, secret) ==
            avalanche(Sum3(Start(|input|), mix16(input[..16], secret[..16]),
                           mix16(input[|input| - 16..], secret[16..32])))
  {
    hide Rounds, Start, Sum3;
    OnlyRound(Mix64(mix16), input, secret, Start(|input|));
    assert secret[..32][..16] == secret[..16] && secret[..32][16..] == secret[16..32];
  }

  /** At 128 bits the two halves take one piece each, and the words of the other. */
  lemma OneRound128(mix16: (seq<bv8>, seq<bv8>) -> bv64, avalanche: bv64 -> bv64, input: seq<bv8>, secret: seq<bv8>,
                    seed: bv64)
    requires 16 < |input| <= 32 && |secret| >= 136
    ensures var p, q := input[..16], input[|input| - 16..];
      Hash128(mix16, avalanche, input, secret, seed) ==
      Finish128(avalanche, Words(Half(Start(|input|), mix16(p, secret[..16]), q), Half(0, mix16(q, secret[16..32]), p)),
                |input|, seed)
  {
    hide Rounds, Start, Half, Finish128;
    OnlyRound(Mix128(mix16), input, secret, Words(Start(|input|), 0));
    assert secret[..32][..16] == secret[..16] && secret[..32][16..] == secret[16..32];
  }

  /** The arithmetic around the rounds, on samples. */
  lemma Samples()
    ensures Start(17) == 0x81AF14C9E4A872F7 && Sum3(1, 2, 3) == 6
    ensures Finish128(x => x, Words(1, 2), 3, 4) == Words(3, 0x18A39F9C1C83C402)
    ensures Half(5, 6, [8, 7, 6, 5, 4, 3, 2, 1, 0x18, 0x17, 0x16, 0x15, 0x14, 0x13, 0x12, 0x11]) == 0x121416181A1C1E2B
  {
    var other: seq<bv8> := [8, 7, 6, 5, 4, 3, 2, 1, 0x18, 0x17, 0x16, 0x15, 0x14, 0x13, 0x12, 0x11];
    assert other[..4] == [8, 7, 6, 5] && other[4..8] == [4, 3, 2, 1];
    assert Read32([8, 7, 6, 5]) == 0x05060708 && Read32([4, 3, 2, 1]) == 0x01020304;
    assert Read64(other) == 0x0102030405060708;
    var rest: seq<bv8> := [0x18, 0x17, 0x16, 0x15, 0x14, 0x13, 0x12, 0x11];
    assert other[8..] == rest && rest[..4] == [0x18, 0x17, 0x16, 0x15] && rest[4..8] == [0x14, 0x13, 0x12, 0x11];
    assert Read32([0x18, 0x17, 0x16, 0x15]) == 0x15161718 && Read32([0x14, 0x13, 0x12, 0x11]) == 0x11121314;
    assert Read64(rest) == 0x1112131415161718;
  }
}
