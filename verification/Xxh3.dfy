/** XXH3 of include/xxhash.h: stripe, block and buffer accounting of the one-shot and the streaming forms.
    The lane arithmetic of one stripe is a parameter. */
module Xxh3 {
  import opened BlockFold
  import opened Integers
  import Bytes

  const STRIPE: nat := 64
  const RATE: nat := 8
  const BUFFER: nat := 256
  const SECRET_MIN: nat := 136
  const SECRET_DEFAULT: nat := 192
  const MIDSIZE: nat := 240
  const LASTACC: nat := 7

  /** XXH3_accumulate_512 and XXH3_scrambleAcc with the 64 secret bytes they read, the initial lanes,
      XXH3_kSecret and XXH3_initCustomSecret. */
  datatype Kernel<!A> = Kernel(init: A, accumulate: (A, seq<bv8>, seq<bv8>) -> A, scramble: (A, seq<bv8>) -> A,
                               defaultSecret: seq<bv8>, customSecret: bv64 -> seq<bv8>) {
    ghost predicate Valid() {
      |defaultSecret| == SECRET_DEFAULT && forall s :: |customSecret(s)| == SECRET_DEFAULT
    }
  }

  /** What turns lanes or a short input into a hash; one for 64 and one for 128 bits. */
  datatype Final<!A, !H> = Final(long: (A, seq<bv8>, nat) -> H, short: (seq<bv8>, seq<bv8>, bv64) -> H)

  // ----- The simple form: one stripe after another -----

  /** The lanes and how many stripes of the current block they hold. */
  datatype Pos<A> = Pos(acc: A, used: nat)

  function PerBlock(secret: seq<bv8>): (p: nat)
    requires |secret| >= SECRET_MIN
    ensures 9 <= p && RATE * p + STRIPE <= |secret|
  {
    (|secret| - STRIPE) / RATE
  }

  /** One stripe against the next 8 bytes further into the secret; a full block is scrambled. */
  function Step<A>(k: Kernel<A>, secret: seq<bv8>, p: Pos<A>, stripe: seq<bv8>): (r: Pos<A>)
    requires |secret| >= SECRET_MIN && p.used < PerBlock(secret)
    ensures r.used < PerBlock(secret)
  {
    var acc := k.accumulate(p.acc, stripe, secret[RATE * p.used..RATE * p.used + STRIPE]);
    if p.used + 1 == PerBlock(secret) then Pos(k.scramble(acc, secret[|secret| - STRIPE..]), 0)
    else Pos(acc, p.used + 1)
  }

  /** All whole stripes of data. */
  function Consume<A>(k: Kernel<A>, secret: seq<bv8>, p: Pos<A>, data: seq<bv8>): (r: Pos<A>)
    requires |secret| >= SECRET_MIN && p.used < PerBlock(secret)
    ensures r.used < PerBlock(secret)
    decreases |data|
  {
    if |data| < STRIPE then p else Consume(k, secret, Step(k, secret, p, data[..STRIPE]), data[STRIPE..])
  }

  function Start<A>(k: Kernel<A>): Pos<A> {
    Pos(k.init, 0)
  }

  /** The lanes of a long input: every whole stripe that leaves a byte over, then the last 64 bytes. */
  function HashLong<A>(k: Kernel<A>, secret: seq<bv8>, data: seq<bv8>): A
    requires |secret| >= SECRET_MIN && |data| > STRIPE
  {
    k.accumulate(Consume(k, secret, Start(k), data[..|data| - 1]).acc, data[|data| - STRIPE..],
                 secret[|secret| - STRIPE - LASTACC..|secret| - LASTACC])
  }

  lemma {:induction false} ConsumeAppend<A>(k: Kernel<A>, secret: seq<bv8>, p: Pos<A>, x: seq<bv8>, y: seq<bv8>)
    requires |secret| >= SECRET_MIN && p.used < PerBlock(secret) && |x| % STRIPE == 0
    ensures Consume(k, secret, p, x + y) == Consume(k, secret, Consume(k, secret, p, x), y)
    decreases |x|
  {
    hide Step, PerBlock;
    if x == [] {
      assert x + y == y;
    } else {
      assert (x + y)[..STRIPE] == x[..STRIPE] && (x + y)[STRIPE..] == x[STRIPE..] + y;
      ConsumeAppend(k, secret, Step(k, secret, p, x[..STRIPE]), x[STRIPE..], y);
    }
  }

  lemma ConsumeShort<A>(k: Kernel<A>, secret: seq<bv8>, p: Pos<A>, data: seq<bv8>)
    requires |secret| >= SECRET_MIN && p.used < PerBlock(secret) && |data| < STRIPE
    ensures Consume(k, secret, p, data) == p
  {
  }

  lemma ConsumeOne<A>(k: Kernel<A>, secret: seq<bv8>, p: Pos<A>, stripe: seq<bv8>)
    requires |secret| >= SECRET_MIN && p.used < PerBlock(secret) && |stripe| == STRIPE
    ensures Consume(k, secret, p, stripe) == Step(k, secret, p, stripe)
  {
    hide Step, PerBlock;
    assert stripe[..STRIPE] == stripe;
    ConsumeShort(k, secret, Step(k, secret, p, stripe), stripe[STRIPE..]);
  }

  // ----- The same by stripe number -----

  /** The lanes after n stripes: stripe i goes with the 64 bytes of the secret from 8 (i mod p), where p stripes make a
      block, and the last 64 bytes of the secret scramble the lanes after every block. */
  function LanesAfter<A>(k: Kernel<A>, secret: seq<bv8>, data: seq<bv8>, n: nat): A
    requires |secret| >= 136 && 64 * n <= |data|
  {
    if n == 0 then k.init
    else
      var p, last := (|secret| - 64) / 8, n - 1;
      InSecret(secret, last, p);
      Numbered(k, secret, LanesAfter(k, secret, data, last), last % p, data[64 * last..64 * n], n % p == 0)
  }

  /** One stripe at a place in its block, scrambled if it is the last there. */
  function Numbered<A>(k: Kernel<A>, secret: seq<bv8>, acc: A, place: nat, stripe: seq<bv8>, ends: bool): A
    requires 8 * place + 64 <= |secret|
  {
    var mixed := k.accumulate(acc, stripe, secret[8 * place..8 * place + 64]);
    if ends then k.scramble(mixed, secret[|secret| - 64..]) else mixed
  }

  lemma InSecret(secret: seq<bv8>, i: nat, p: nat)
    requires |secret| >= 136 && p == (|secret| - 64) / 8
    ensures 9 <= p && 0 <= i % p < p && 8 * (i % p) + 64 <= |secret|
  {
  }

  lemma NextInBlock(i: nat, p: nat)
    requires p > 0
    ensures (i + 1) % p == if i % p + 1 == p then 0 else i % p + 1
  {
    var q, r := i / p, i % p;
    assert i == q * p + r;
    if r + 1 == p {
      Bytes.ModMul(q + 1, p);
      assert i + 1 == (q + 1) * p;
    } else {
      Remainder(q, p, r + 1);
    }
  }

  lemma Remainder(q: nat, p: nat, r: nat)
    requires r < p
    ensures (q * p + r) % p == r
  {
    if q > 0 {
      Remainder(q - 1, p, r);
      Bytes.ModAdd((q - 1) * p + r, p);
      assert q * p + r == (q - 1) * p + r + p;
    }
  }

  lemma StepNumbered<A>(k: Kernel<A>, secret: seq<bv8>, p: Pos<A>, stripe: seq<bv8>)
    requires |secret| >= SECRET_MIN && p.used < PerBlock(secret)
    ensures 8 * p.used + 64 <= |secret|
    ensures var ends := p.used + 1 == PerBlock(secret);
      Step(k, secret, p, stripe) ==
      Pos(Numbered(k, secret, p.acc, p.used, stripe, ends), if ends then 0 else p.used + 1)
  {
  }

  lemma LanesUnfold<A>(k: Kernel<A>, secret: seq<bv8>, data: seq<bv8>, n: nat)
    requires |secret| >= SECRET_MIN && 0 < n && STRIPE * n <= |data|
    ensures var p := PerBlock(secret); var place := (n - 1) % p;
      && place < p && 8 * place + 64 <= |secret|
      && LanesAfter(k, secret, data, n) ==
         Numbered(k, secret, LanesAfter(k, secret, data, n - 1), place, data[STRIPE * (n - 1)..STRIPE * n], n % p == 0)
  {
    hide Numbered;
    InSecret(secret, n - 1, PerBlock(secret));
  }

  lemma LanesNext<A>(k: Kernel<A>, secret: seq<bv8>, data: seq<bv8>, n: nat)
    requires |secret| >= SECRET_MIN && 0 < n && STRIPE * n <= |data|
    ensures (n - 1) % PerBlock(secret) < PerBlock(secret)
    ensures Step(k, secret, Pos(LanesAfter(k, secret, data, n - 1), (n - 1) % PerBlock(secret)),
                 data[STRIPE * (n - 1)..STRIPE * n])
         == Pos(LanesAfter(k, secret, data, n), n % PerBlock(secret))
  {
    hide Numbered, Step, LanesAfter, PerBlock;
    LanesUnfold(k, secret, data, n);
    StepNumbered(k, secret, Pos(LanesAfter(k, secret, data, n - 1), (n - 1) % PerBlock(secret)),
                 data[STRIPE * (n - 1)..STRIPE * n]);
    NextInBlock(n - 1, PerBlock(secret));
  }

  lemma LanesNone<A>(k: Kernel<A>, secret: seq<bv8>, data: seq<bv8>)
    requires |secret| >= SECRET_MIN
    ensures Start(k) == Pos(LanesAfter(k, secret, data, 0), 0 % PerBlock(secret)) && Start(k).used < PerBlock(secret)
  {
  }

  lemma {:induction false} ConsumeIs<A>(k: Kernel<A>, secret: seq<bv8>, data: seq<bv8>, n: nat)
    requires |secret| >= SECRET_MIN && STRIPE * n <= |data|
    ensures Consume(k, secret, Start(k), data[..STRIPE * n]) ==
            Pos(LanesAfter(k, secret, data, n), n % PerBlock(secret))
  {
    hide Numbered, Step, LanesAfter, PerBlock, Consume, Start;
    LanesNone(k, secret, data);
    if n == 0 {
      ConsumeShort(k, secret, Start(k), data[..0]);
    } else {
      var front, stripe := data[..STRIPE * (n - 1)], data[STRIPE * (n - 1)..STRIPE * n];
      ConsumeIs(k, secret, data, n - 1);
      assert data[..STRIPE * n] == front + stripe;
      ConsumeAppend(k, secret, Start(k), front, stripe);
      ConsumeOne(k, secret, Consume(k, secret, Start(k), front), stripe);
      LanesNext(k, secret, data, n);
    }
  }

  lemma AllButLast<A>(k: Kernel<A>, secret: seq<bv8>, data: seq<bv8>, n: nat)
    requires |secret| >= SECRET_MIN && STRIPE * n < |data| <= STRIPE * n + STRIPE
    ensures Consume(k, secret, Start(k), data[..|data| - 1]).acc == LanesAfter(k, secret, data, n)
  {
    hide Consume, PerBlock, LanesAfter, Step, Numbered;
    ConsumeIs(k, secret, data, n);
    assert data[..|data| - 1][..STRIPE * n] == data[..STRIPE * n];
    ConsumeTail(k, secret, Start(k), data[..|data| - 1], STRIPE * n);
  }

  /** The lanes of a long input: all stripes that leave a byte over, then its last 64 bytes with the 64 bytes of the
      secret that end 7 before its end. */
  lemma HashLongIs<A>(k: Kernel<A>, secret: seq<bv8>, data: seq<bv8>)
    requires |secret| >= 136 && |data| > 64
    ensures HashLong(k, secret, data) ==
            k.accumulate(LanesAfter(k, secret, data, (|data| - 1) / 64), data[|data| - 64..],
                         secret[|secret| - 71..|secret| - 7])
  {
    hide Consume, PerBlock, LanesAfter, Step, Numbered;
    AllButLast(k, secret, data, (|data| - 1) / 64);
  }

  // ----- The block loops -----

  /** XXH3_accumulate: n stripes in a row from the given place in the secret, without scrambling. */
  function Accumulate<A>(k: Kernel<A>, secret: seq<bv8>, acc: A, used: nat, input: seq<bv8>, n: nat): A
    requires |secret| >= SECRET_MIN && used + n <= PerBlock(secret) && STRIPE * n <= |input|
  {
    if n == 0 then acc
    else
      var u := used + n - 1;
      k.accumulate(Accumulate(k, secret, acc, used, input, n - 1), input[STRIPE * (n - 1)..STRIPE * n],
                   secret[RATE * u..RATE * u + STRIPE])
  }

  /** Accumulating to the end of the block and scrambling, or stopping before it, is consuming. */
  lemma {:induction false} AccumulateIsConsume<A>(k: Kernel<A>, secret: seq<bv8>, acc: A, used: nat, input: seq<bv8>,
                                                  n: nat)
    requires |secret| >= SECRET_MIN && used < PerBlock(secret) && used + n <= PerBlock(secret) && STRIPE * n <= |input|
    ensures var r := Accumulate(k, secret, acc, used, input, n);
      Consume(k, secret, Pos(acc, used), input[..STRIPE * n]) ==
      if used + n == PerBlock(secret) then Pos(k.scramble(r, secret[|secret| - STRIPE..]), 0) else Pos(r, used + n)
  {
    hide PerBlock, Consume;
    if n == 0 {
      ConsumeShort(k, secret, Pos(acc, used), input[..0]);
    } else {
      AccumulateIsConsume(k, secret, acc, used, input, n - 1);
      var front, stripe := input[..STRIPE * (n - 1)], input[STRIPE * (n - 1)..STRIPE * n];
      assert input[..STRIPE * n] == front + stripe;
      ConsumeAppend(k, secret, Pos(acc, used), front, stripe);
      ConsumeOne(k, secret, Consume(k, secret, Pos(acc, used), front), stripe);
    }
  }

  method AccumulateStripes<A>(k: Kernel<A>, secret: seq<bv8>, acc: A, used: nat, input: seq<bv8>, n: nat)
      returns (r: A)
    requires |secret| >= SECRET_MIN && used + n <= PerBlock(secret) && STRIPE * n <= |input|
    ensures r == Accumulate(k, secret, acc, used, input, n)
  {
    hide PerBlock;
    r := acc;
    for i := 0 to n
      invariant r == Accumulate(k, secret, acc, used, input, i)
    {
      var u := used + i;
      r := k.accumulate(r, input[STRIPE * i..STRIPE * i + STRIPE], secret[RATE * u..RATE * u + STRIPE]);
    }
  }

  /** Division by a block length, known by its bounds. */
  function Quotient(x: nat, b: nat): (q: nat)
    requires b > 0
    ensures q * b <= x < q * b + b
  {
    x / b
  }

  lemma Products(n: nat, m: nat, b: nat)
    requires n < m
    ensures (n + 1) * b == n * b + b <= m * b
  {
    assert m * b - (n + 1) * b == (m - n - 1) * b;
  }

  /** n stripes from offset at, after the first at bytes have led to acc. */
  lemma ConsumeBlock<A>(k: Kernel<A>, secret: seq<bv8>, p: Pos<A>, acc: A, used: nat, input: seq<bv8>, at: nat, n: nat)
    requires |secret| >= SECRET_MIN && p.used < PerBlock(secret) && used < PerBlock(secret)
    requires at % STRIPE == 0 && at + STRIPE * n <= |input| && used + n <= PerBlock(secret)
    requires Consume(k, secret, p, input[..at]) == Pos(acc, used)
    ensures var r := Accumulate(k, secret, acc, used, input[at..], n);
      Consume(k, secret, p, input[..at + STRIPE * n]) ==
      if used + n == PerBlock(secret) then Pos(k.scramble(r, secret[|secret| - STRIPE..]), 0) else Pos(r, used + n)
  {
    hide PerBlock, Consume, Accumulate;
    AccumulateIsConsume(k, secret, acc, used, input[at..], n);
    assert input[at..][..STRIPE * n] == input[at..at + STRIPE * n];
    assert input[..at + STRIPE * n] == input[..at] + input[at..at + STRIPE * n];
    ConsumeAppend(k, secret, p, input[..at], input[at..at + STRIPE * n]);
  }

  /** Bytes short of a stripe at the end do not count. */
  lemma ConsumeTail<A>(k: Kernel<A>, secret: seq<bv8>, p: Pos<A>, data: seq<bv8>, cut: nat)
    requires |secret| >= SECRET_MIN && p.used < PerBlock(secret)
    requires cut % STRIPE == 0 && cut <= |data| < cut + STRIPE
    ensures Consume(k, secret, p, data) == Consume(k, secret, p, data[..cut])
  {
    hide PerBlock, Consume;
    assert data == data[..cut] + data[cut..];
    ConsumeAppend(k, secret, p, data[..cut], data[cut..]);
    ConsumeShort(k, secret, Consume(k, secret, p, data[..cut]), data[cut..]);
  }

  /** The loop over whole blocks. */
  method HashBlocks<A>(k: Kernel<A>, secret: seq<bv8>, input: seq<bv8>, nbBlocks: nat, blockLen: nat)
      returns (acc: A, at: nat)
    requires |secret| >= SECRET_MIN && blockLen == STRIPE * PerBlock(secret) && nbBlocks * blockLen <= |input|
    ensures at == nbBlocks * blockLen && at % STRIPE == 0
    ensures Consume(k, secret, Start(k), input[..at]) == Pos(acc, 0)
  {
    hide PerBlock, Consume, Accumulate;
    acc, at := k.init, 0;
    ConsumeShort(k, secret, Start(k), input[..0]);
    for n := 0 to nbBlocks
      invariant at == n * blockLen <= nbBlocks * blockLen && at % STRIPE == 0
      invariant Consume(k, secret, Start(k), input[..at]) == Pos(acc, 0)
    {
      Products(n, nbBlocks, blockLen);
      ConsumeBlock(k, secret, Start(k), acc, 0, input, at, PerBlock(secret));
      acc := AccumulateStripes(k, secret, acc, 0, input[at..], PerBlock(secret));
      acc := k.scramble(acc, secret[|secret| - STRIPE..]);
      at := at + blockLen;
    }
  }

  /** The partial block and the last stripe. */
  method HashTail<A>(k: Kernel<A>, secret: seq<bv8>, input: seq<bv8>, before: A, at: nat) returns (acc: A)
    requires |secret| >= SECRET_MIN && |input| > STRIPE && at % STRIPE == 0
    requires at <= |input| - 1 < at + STRIPE * PerBlock(secret)
    requires Consume(k, secret, Start(k), input[..at]) == Pos(before, 0)
    ensures acc == HashLong(k, secret, input)
  {
    hide PerBlock, Consume, Accumulate;
    var len := |input|;
    var nbStripes := (len - 1 - at) / STRIPE;
    ConsumeBlock(k, secret, Start(k), before, 0, input, at, nbStripes);
    acc := AccumulateStripes(k, secret, before, 0, input[at..], nbStripes);
    assert input[..len - 1][..at + STRIPE * nbStripes] == input[..at + STRIPE * nbStripes];
    ConsumeTail(k, secret, Start(k), input[..len - 1], at + STRIPE * nbStripes);
    acc := k.accumulate(acc, input[len - STRIPE..], secret[|secret| - STRIPE - LASTACC..|secret| - LASTACC]);
  }

  /** XXH3_hashLong_internal_loop: whole blocks, then the partial block, then the last stripe. */
  method HashLongLoop<A>(k: Kernel<A>, secret: seq<bv8>, input: seq<bv8>) returns (acc: A)
    requires |secret| >= SECRET_MIN && |input| > STRIPE
    ensures acc == HashLong(k, secret, input)
  {
    hide PerBlock, Consume, Accumulate, Quotient, HashLong;
    var blockLen := STRIPE * PerBlock(secret);
    var nbBlocks, at := Quotient(|input| - 1, blockLen), 0;
    acc, at := HashBlocks(k, secret, input, nbBlocks, blockLen);
    acc := HashTail(k, secret, input, acc, at);
  }

  /** XXH3_consumeStripes: input that may start and end anywhere in a block. */
  method ConsumeStripes<A>(k: Kernel<A>, secret: seq<bv8>, acc: A, nbStripesSoFar: nat, input: seq<bv8>, nbStripes: nat)
      returns (r: A, soFar: nat, at: nat)
    requires |secret| >= SECRET_MIN && nbStripesSoFar < PerBlock(secret) && STRIPE * nbStripes <= |input|
    ensures soFar < PerBlock(secret) && at == STRIPE * nbStripes
    ensures Consume(k, secret, Pos(acc, nbStripesSoFar), input[..at]) == Pos(r, soFar)
  {
    hide PerBlock, Consume, Accumulate;
    var perBlock := PerBlock(secret);
    ghost var p := Pos(acc, nbStripesSoFar);
    r, soFar, at := acc, nbStripesSoFar, 0;
    var left: nat, initial: nat := nbStripes, nbStripesSoFar;
    ConsumeShort(k, secret, p, input[..0]);
    if left >= perBlock - soFar {
      var thisIter: nat, more := perBlock - soFar, true;
      while more
        invariant at + STRIPE * left == STRIPE * nbStripes && at % STRIPE == 0
        invariant initial < perBlock && thisIter == perBlock - initial
        invariant Consume(k, secret, p, input[..at]) == Pos(r, initial)
        invariant more <==> left >= thisIter
        invariant !more ==> initial == 0
        decreases left
      {
        ConsumeBlock(k, secret, p, r, initial, input, at, thisIter);
        r := AccumulateStripes(k, secret, r, initial, input[at..], thisIter);
        r := k.scramble(r, secret[|secret| - STRIPE..]);
        at, left := at + thisIter * STRIPE, left - thisIter;
        thisIter, initial := perBlock, 0;
        more := left >= perBlock;
      }
      soFar := 0;
    }
    if left > 0 {
      ConsumeBlock(k, secret, p, r, initial, input, at, left);
      r := AccumulateStripes(k, secret, r, initial, input[at..], left);
      at, soFar := at + left * STRIPE, soFar + left;
    }
  }

  // ----- What is hashed with what -----

  /** How the state was reset. */
  datatype Mode =
    | Default
    | WithSecret(secret: seq<bv8>)
    | WithSeed(seed: bv64)
    | WithBoth(secret: seq<bv8>, seed: bv64)
  {
    ghost predicate Valid() {
      WithSecret? || WithBoth? ==> |secret| >= SECRET_MIN
    }
  }

  /** The secret of long inputs. */
  function LongSecret<A>(k: Kernel<A>, mode: Mode): seq<bv8> {
    match mode
    case Default => k.defaultSecret
    case WithSecret(s) => s
    case WithSeed(seed) => if seed == 0 then k.defaultSecret else k.customSecret(seed)
    case WithBoth(s, _) => s
  }

  /** The secret and seed of inputs up to 240 bytes. */
  function ShortSecret<A>(k: Kernel<A>, mode: Mode): (seq<bv8>, bv64) {
    match mode
    case Default => (k.defaultSecret, 0)
    case WithSecret(s) => (s, 0)
    case WithSeed(seed) => (k.defaultSecret, seed)
    case WithBoth(_, seed) => (k.defaultSecret, seed)
  }

  ghost predicate Usable<A>(k: Kernel<A>, mode: Mode) {
    k.Valid() && mode.Valid()
  }

  lemma LongSecretFits<A>(k: Kernel<A>, mode: Mode)
    requires Usable(k, mode)
    ensures |LongSecret(k, mode)| >= SECRET_MIN
  {
  }

  /** The one-shot hash in each mode. */
  ghost function Hash<A, H>(k: Kernel<A>, f: Final<A, H>, mode: Mode, data: seq<bv8>): H
    requires Usable(k, mode)
  {
    LongSecretFits(k, mode);
    if |data| <= MIDSIZE then f.short(data, ShortSecret(k, mode).0, ShortSecret(k, mode).1)
    else f.long(HashLong(k, LongSecret(k, mode), data), LongSecret(k, mode), |data| % U64)
  }

  /** XXH3_64bits_internal and its 128-bit form: a secret and a seed for inputs up to 240 bytes, a secret for others. */
  method HashInternal<A, H>(k: Kernel<A>, f: Final<A, H>, data: seq<bv8>, seed: bv64, secret: seq<bv8>,
                            longSecret: seq<bv8>) returns (h: H)
    requires |longSecret| >= SECRET_MIN
    ensures |data| <= 240 ==> h == f.short(data, secret, seed)
    ensures |data| > 240 ==> h == f.long(HashLong(k, longSecret, data), longSecret, |data| % U64)
  {
    if |data| <= MIDSIZE { return f.short(data, secret, seed); }
    var acc := HashLongLoop(k, longSecret, data);
    h := f.long(acc, longSecret, |data| % U64);
  }

  /** The public one-shot functions, one for each mode. */
  method OneShot<A, H>(k: Kernel<A>, f: Final<A, H>, mode: Mode, data: seq<bv8>) returns (h: H)
    requires Usable(k, mode)
    ensures h == Hash(k, f, mode, data)
  {
    match mode {
      case Default => h := HashInternal(k, f, data, 0, k.defaultSecret, k.defaultSecret);
      case WithSecret(secret) => h := HashInternal(k, f, data, 0, secret, secret);
      case WithSeed(seed) =>
        var longSecret := if seed == 0 then k.defaultSecret else k.customSecret(seed);
        h := HashInternal(k, f, data, seed, k.defaultSecret, longSecret);
      case WithBoth(secret, seed) => h := HashInternal(k, f, data, seed, k.defaultSecret, secret);
    }
  }

  // ----- The streaming state -----

  /** consumed has gone through the lanes. */
  ghost predicate Taken<A>(k: Kernel<A>, secret: seq<bv8>, consumed: seq<bv8>, acc: A, soFar: nat) {
    && |secret| >= SECRET_MIN && soFar < PerBlock(secret)
    && |consumed| % STRIPE == 0 && Consume(k, secret, Start(k), consumed) == Pos(acc, soFar)
  }

  lemma TakeMore<A>(k: Kernel<A>, secret: seq<bv8>, consumed: seq<bv8>, acc: A, soFar: nat, more: seq<bv8>, r: A,
                    to: nat)
    requires Taken(k, secret, consumed, acc, soFar) && |more| % STRIPE == 0 && to < PerBlock(secret)
    requires Consume(k, secret, Pos(acc, soFar), more) == Pos(r, to)
    ensures Taken(k, secret, consumed + more, r, to)
  {
    hide PerBlock, Consume;
    ConsumeAppend(k, secret, Start(k), consumed, more);
  }

  lemma TakenNone<A>(k: Kernel<A>, secret: seq<bv8>)
    requires |secret| >= SECRET_MIN
    ensures Taken(k, secret, [], k.init, 0)
  {
    hide PerBlock;
  }

  /** The state of the lanes and the buffer after fed, however it was cut. Nothing is consumed up to 256 bytes;
      after that at least one byte stays buffered, and while the buffer's last stripe is unused it holds the
      last stripe consumed. */
  ghost predicate Streamed<A>(k: Kernel<A>, secret: seq<bv8>, fed: seq<bv8>, acc: A, soFar: nat, buffer: seq<bv8>,
                              size: nat) {
    && |buffer| == BUFFER && size <= BUFFER && size <= |fed|
    && var c := |fed| - size;
    && Taken(k, secret, fed[..c], acc, soFar)
    && buffer[..size] == fed[c..]
    && (c == 0 <==> |fed| <= BUFFER)
    && (c > 0 ==> size > 0)
    && (c >= STRIPE && size <= BUFFER - STRIPE ==> buffer[BUFFER - STRIPE..] == fed[c - STRIPE..c])
  }

  class State<A> {
    const k: Kernel<A>
    var acc: A
    var customSecret: seq<bv8>
    const buffer: array<bv8>
    var bufferedSize: nat
    var useSeed: bool
    var nbStripesSoFar: nat
    var totalLen: nat
    var nbStripesPerBlock: nat
    var secretLimit: nat
    var seed: bv64
    var extSecret: Bytes.Option<seq<bv8>>
    ghost var mode: Mode
    ghost var fed: seq<bv8>

    /** Holds in every state, fresh or used: the custom secret belongs to the seed it is cached for. */
    ghost predicate Cached()
      reads this`extSecret, this`seed, this`customSecret
    {
      k.Valid() && buffer.Length == BUFFER && (extSecret.None? && seed != 0 ==> customSecret == k.customSecret(seed))
    }

    function Secret(): seq<bv8>
      reads this`extSecret, this`customSecret
    {
      if extSecret.None? then customSecret else extSecret.value
    }

    ghost predicate Configured()
      reads this`extSecret, this`customSecret, this`seed, this`useSeed, this`mode
      reads this`secretLimit, this`nbStripesPerBlock
    {
      && Cached() && mode.Valid() && Secret() == LongSecret(k, mode)
      && |Secret()| >= SECRET_MIN && secretLimit == |Secret()| - STRIPE && nbStripesPerBlock == PerBlock(Secret())
      && (useSeed ==> ShortSecret(k, mode) == (k.defaultSecret, seed))
      && (!useSeed ==> ShortSecret(k, mode) == (Secret(), 0))
    }

    ghost predicate Valid()
      reads this, buffer
    {
      && Configured() && totalLen == |fed| % U64
      && Streamed(k, Secret(), fed, acc, nbStripesSoFar, buffer[..], bufferedSize)
    }

    /** XXH3_createState: only the fields XXH3_INITSTATE names mean anything. */
    constructor (kernel: Kernel<A>)
      requires kernel.Valid()
      ensures Cached() && fresh(buffer) && k == kernel
    {
      k, acc, customSecret := kernel, kernel.init, [];
      buffer := new bv8[BUFFER];
      bufferedSize, useSeed, nbStripesSoFar, totalLen, nbStripesPerBlock, secretLimit := 0, false, 0, 0, 0, 0;
      seed, extSecret := 0, Bytes.None;
    }

    /** XXH3_reset_internal; a null secret is None. */
    method ResetInternal(withSeed: bv64, secret: Bytes.Option<seq<bv8>>, secretSize: nat)
      modifies this
      ensures bufferedSize == nbStripesSoFar == totalLen == 0 && acc == k.init
      ensures seed == withSeed && useSeed == (withSeed != 0) && extSecret == secret && customSecret == old(customSecret)
      ensures secretLimit == (secretSize + U64 - STRIPE) % U64 && nbStripesPerBlock == secretLimit / RATE
    {
      bufferedSize, useSeed, nbStripesSoFar, totalLen := 0, withSeed != 0, 0, 0;
      acc, seed, extSecret := k.init, withSeed, secret;
      secretLimit := (secretSize + U64 - STRIPE) % U64;
      nbStripesPerBlock := secretLimit / RATE;
    }

    lemma Fresh()
      requires Configured() && acc == k.init && nbStripesSoFar == bufferedSize == totalLen == 0 && fed == []
      ensures Valid()
    {
      hide PerBlock, Consume;
      TakenNone(k, Secret());
      assert fed[..0] == [];
    }

    method Reset()
      requires Cached()
      modifies this
      ensures Valid() && mode == Default && fed == []
    {
      ResetInternal(0, Bytes.Some(k.defaultSecret), SECRET_DEFAULT);
      mode, fed := Default, [];
      Fresh();
    }

    /** Only a secret that is there and long enough gives a usable state. */
    method ResetWithSecret(secret: Bytes.Option<seq<bv8>>, secretSize: nat) returns (ok: bool)
      requires Cached() && secretSize < U64 && (secret.Some? ==> |secret.value| == secretSize)
      modifies this
      ensures ok <==> secret.Some? && secretSize >= SECRET_MIN
      ensures Cached() && (ok ==> Valid() && mode == WithSecret(secret.value) && fed == [])
    {
      ResetInternal(0, secret, secretSize);
      if secret.None? { return false; }
      if secretSize < SECRET_MIN { return false; }
      mode, fed := WithSecret(secret.value), [];
      Fresh();
      return true;
    }

    /** A custom secret is derived anew only if the cached one does not belong to this seed. */
    method ResetWithSeed(withSeed: bv64)
      requires Cached()
      modifies this
      ensures Valid() && mode == WithSeed(withSeed) && fed == []
    {
      if withSeed == 0 {
        Reset();
        mode := WithSeed(0);
        return;
      }
      if withSeed != seed || extSecret.Some? {
        customSecret := k.customSecret(withSeed);
      }
      ResetInternal(withSeed, Bytes.None, SECRET_DEFAULT);
      mode, fed := WithSeed(withSeed), [];
      Fresh();
    }

    method ResetWithSecretAndSeed(secret: Bytes.Option<seq<bv8>>, secretSize: nat, withSeed: bv64) returns (ok: bool)
      requires Cached() && secretSize < U64 && (secret.Some? ==> |secret.value| == secretSize)
      modifies this
      ensures ok <==> secret.Some? && secretSize >= SECRET_MIN
      ensures if ok then Valid() && mode == WithBoth(secret.value, withSeed) && fed == [] else unchanged(this)
    {
      if secret.None? || secretSize < SECRET_MIN { return false; }
      ResetInternal(withSeed, secret, secretSize);
      useSeed := true;
      mode, fed := WithBoth(secret.value, withSeed), [];
      Fresh();
      return true;
    }

    // ----- Feeding -----

    method TakeStripes(ghost consumed: seq<bv8>, input: seq<bv8>, n: nat) returns (at: nat)
      requires Taken(k, Secret(), consumed, acc, nbStripesSoFar) && STRIPE * n <= |input|
      modifies this`acc, this`nbStripesSoFar
      ensures at == STRIPE * n && Taken(k, Secret(), consumed + input[..at], acc, nbStripesSoFar)
    {
      hide Consume, PerBlock;
      ghost var was, soFar := acc, nbStripesSoFar;
      acc, nbStripesSoFar, at := ConsumeStripes(k, Secret(), acc, nbStripesSoFar, input, n);
      TakeMore(k, Secret(), consumed, was, soFar, input[..at], acc, nbStripesSoFar);
    }

    /** A non-empty buffer is completed and consumed whole; something of the input is left over. */
    method CompleteBuffer(ghost consumed: seq<bv8>, input: seq<bv8>) returns (rest: seq<bv8>, ghost now: seq<bv8>)
      requires Taken(k, Secret(), consumed, acc, nbStripesSoFar)
      requires buffer.Length == BUFFER && bufferedSize <= BUFFER < bufferedSize + |input|
      requires consumed != [] ==> bufferedSize > 0
      modifies this`acc, this`nbStripesSoFar, this`bufferedSize, buffer
      ensures bufferedSize == 0 && rest != [] && Taken(k, Secret(), now, acc, nbStripesSoFar)
      ensures now + rest == consumed + (old(buffer[..bufferedSize]) + input)
      ensures (now == [] && |rest| > BUFFER) || Ends(now, buffer[..])
    {
      hide Taken;
      now, rest := consumed, input;
      ghost var had := buffer[..bufferedSize];
      if bufferedSize != 0 {
        var load := BUFFER - bufferedSize;
        CopyInto(buffer, bufferedSize, rest[..load]);
        ghost var block := buffer[..];
        assert block == buffer[..BUFFER] == had + input[..load];
        var at := TakeStripes(now, buffer[..], BUFFER / STRIPE);
        assert block[..at] == block;
        Regroup(consumed, had, input, load);
        now, rest := now + block, rest[load..];
        LastOf(consumed, block);
        bufferedSize := 0;
      } else {
        assert [] + rest == had + input;
      }
    }

    /** Stripes are consumed from the input while more than a buffer is left; the last is copied for a digest that
        must reach back, and the rest, never empty, is buffered. */
    method BufferRest(ghost consumed: seq<bv8>, input: seq<bv8>)
      requires Taken(k, Secret(), consumed, acc, nbStripesSoFar)
      requires buffer.Length == BUFFER && bufferedSize == 0 && input != []
      requires (consumed == [] && |input| > BUFFER) || Ends(consumed, buffer[..])
      modifies this`acc, this`nbStripesSoFar, this`bufferedSize, buffer
      ensures Streamed(k, Secret(), consumed + input, acc, nbStripesSoFar, buffer[..], bufferedSize)
    {
      hide Taken;
      var rest := input;
      ghost var now := consumed;
      if |rest| > BUFFER {
        var at := TakeStripes(now, rest, (|rest| - 1) / STRIPE);
        CopyInto(buffer, BUFFER - STRIPE, rest[at - STRIPE..at]);
        now, rest := now + rest[..at], rest[at..];
        assert now + rest == consumed + input;
        assert now[|now| - STRIPE..] == input[at - STRIPE..at];
        assert buffer[BUFFER - STRIPE..] == buffer[BUFFER - STRIPE..BUFFER];
      }
      assert Ends(now, buffer[..]);
      ghost var last := buffer[..][BUFFER - STRIPE..];
      CopyInto(buffer, 0, rest);
      bufferedSize := |rest|;
      assert |rest| <= BUFFER - STRIPE ==> buffer[..][BUFFER - STRIPE..] == last;
      Settled(k, Secret(), now, rest, acc, nbStripesSoFar, buffer[..]);
    }

    /** The part of an update past the small-input case. */
    method TakeLong(input: seq<bv8>)
      requires Streamed(k, Secret(), fed, acc, nbStripesSoFar, buffer[..], bufferedSize)
      requires |input| > BUFFER - bufferedSize
      modifies this`acc, this`nbStripesSoFar, this`bufferedSize, buffer
      ensures Streamed(k, Secret(), fed + input, acc, nbStripesSoFar, buffer[..], bufferedSize)
    {
      hide Taken, Streamed, PerBlock;
      StreamedParts(k, Secret(), fed, acc, nbStripesSoFar, buffer[..], bufferedSize);
      ghost var consumed := fed[..|fed| - bufferedSize];
      assert consumed + (buffer[..bufferedSize] + input) == fed + input;
      var rest;
      ghost var now;
      rest, now := CompleteBuffer(consumed, input);
      BufferRest(now, rest);
    }

    method Update(input: seq<bv8>)
      requires Valid()
      modifies this, buffer
      ensures Valid() && fed == old(fed) + input && mode == old(mode)
    {
      hide Taken, Streamed, Configured;
      StreamedParts(k, Secret(), fed, acc, nbStripesSoFar, buffer[..], bufferedSize);
      totalLen := WrapAdd(|fed|, totalLen, |input|);
      if |input| <= BUFFER - bufferedSize {
        ghost var before, size := buffer[..], bufferedSize;
        CopyInto(buffer, bufferedSize, input);
        bufferedSize := bufferedSize + |input|;
        BufferedMore(k, Secret(), fed, acc, nbStripesSoFar, before, size, input, buffer[..]);
      } else {
        TakeLong(input);
      }
      fed := fed + input;
    }

    // ----- Digesting -----

    /** The lanes after the stripes still in the buffer, on a copy. */
    method FinishStripes() returns (r: A)
      requires Streamed(k, Secret(), fed, acc, nbStripesSoFar, buffer[..], bufferedSize) && |fed| > MIDSIZE
      ensures |Secret()| >= SECRET_MIN && r == Consume(k, Secret(), Start(k), fed[..|fed| - 1]).acc
    {
      hide Taken, Consume, PerBlock, Streamed;
      r := acc;
      if bufferedSize >= STRIPE {
        StreamedFits(k, Secret(), fed, acc, nbStripesSoFar, buffer[..], bufferedSize);
        var to, at;
        r, to, at := ConsumeStripes(k, Secret(), acc, nbStripesSoFar, buffer[..], (bufferedSize - 1) / STRIPE);
        FinishedIs(k, Secret(), fed, acc, nbStripesSoFar, buffer[..], bufferedSize, at, r, to);
      } else {
        FinishedShort(k, Secret(), fed, acc, nbStripesSoFar, buffer[..], bufferedSize);
      }
    }

    /** The last 64 bytes, wholly in the buffer or reaching back into its end. */
    method LastStripe() returns (last: seq<bv8>)
      requires Streamed(k, Secret(), fed, acc, nbStripesSoFar, buffer[..], bufferedSize) && |fed| > MIDSIZE
      ensures last == fed[|fed| - STRIPE..]
    {
      hide Streamed;
      LastIs(k, Secret(), fed, acc, nbStripesSoFar, buffer[..], bufferedSize);
      if bufferedSize >= STRIPE {
        last := buffer[..][bufferedSize - STRIPE..bufferedSize];
      } else {
        var catchup := STRIPE - bufferedSize;
        last := buffer[..][BUFFER - catchup..] + buffer[..][..bufferedSize];
      }
    }

    /** XXH3_digest_long, which leaves the state alone. */
    method DigestLong() returns (r: A)
      requires Valid() && |fed| > MIDSIZE
      ensures |Secret()| >= SECRET_MIN && r == HashLong(k, Secret(), fed)
    {
      hide Streamed, Configured, Consume, PerBlock;
      r := FinishStripes();
      var last := LastStripe();
      Limit();
      r := k.accumulate(r, last, Secret()[secretLimit - LASTACC..secretLimit - LASTACC + STRIPE]);
    }

    lemma Limit()
      requires Configured()
      ensures |Secret()| >= SECRET_MIN && secretLimit == |Secret()| - STRIPE
    {
    }

    /** However the input was cut, the digest is the one-shot hash of everything fed, at either width and after any
        reset, unless the 64-bit length has wrapped to at most 240: then it is the short hash of as many bytes of the
        buffer. */
    method Digest<H>(f: Final<A, H>) returns (h: H)
      requires Valid()
      ensures |fed| <= MIDSIZE || |fed| % U64 > MIDSIZE ==> h == Hash(k, f, mode, fed)
      ensures !(|fed| <= MIDSIZE || |fed| % U64 > MIDSIZE) ==>
                h == f.short(buffer[..|fed| % U64], ShortSecret(k, mode).0, ShortSecret(k, mode).1)
    {
      if totalLen > MIDSIZE {
        var lanes := DigestLong();
        return f.long(lanes, Secret(), totalLen);
      }
      hide Taken, ShortSecret;
      assert |fed| <= MIDSIZE ==> buffer[..totalLen] == buffer[..][..bufferedSize] == fed;
      if useSeed {
        return f.short(buffer[..totalLen], k.defaultSecret, seed);
      }
      return f.short(buffer[..totalLen], Secret(), 0);
    }
  }

  lemma Regroup(consumed: seq<bv8>, had: seq<bv8>, input: seq<bv8>, load: nat)
    requires load <= |input|
    ensures consumed + (had + input[..load]) + input[load..] == consumed + (had + input)
  {
  }

  lemma LastOf(consumed: seq<bv8>, block: seq<bv8>)
    requires |block| == BUFFER
    ensures Ends(consumed + block, block)
  {
  }

  /** Once fewer than 64 bytes and at least one are left, all whole stripes but the last have been consumed. */
  lemma AllButOne<A>(k: Kernel<A>, secret: seq<bv8>, fed: seq<bv8>, c: nat, acc: A, soFar: nat)
    requires c < |fed| <= c + STRIPE && Taken(k, secret, fed[..c], acc, soFar)
    ensures |secret| >= SECRET_MIN && Consume(k, secret, Start(k), fed[..|fed| - 1]) == Pos(acc, soFar)
  {
    hide Consume, PerBlock;
    assert fed[..|fed| - 1][..c] == fed[..c];
    ConsumeTail(k, secret, Start(k), fed[..|fed| - 1], c);
  }

  lemma StreamedFits<A>(k: Kernel<A>, secret: seq<bv8>, fed: seq<bv8>, acc: A, soFar: nat, buffer: seq<bv8>, size: nat)
    requires Streamed(k, secret, fed, acc, soFar, buffer, size)
    ensures |secret| >= SECRET_MIN && soFar < PerBlock(secret) && size <= |buffer| == BUFFER
  {
    hide PerBlock, Consume;
  }

  /** Consuming the buffered stripes but the last brings the lanes to all stripes that leave a byte over. */
  lemma FinishedIs<A>(k: Kernel<A>, secret: seq<bv8>, fed: seq<bv8>, acc: A, soFar: nat, buffer: seq<bv8>, size: nat,
                      at: nat, r: A, to: nat)
    requires Streamed(k, secret, fed, acc, soFar, buffer, size) && STRIPE <= size && at == (size - 1) / STRIPE * STRIPE
    requires at <= |buffer| && |secret| >= SECRET_MIN && soFar < PerBlock(secret) && to < PerBlock(secret)
    requires Consume(k, secret, Pos(acc, soFar), buffer[..at]) == Pos(r, to)
    ensures Consume(k, secret, Start(k), fed[..|fed| - 1]) == Pos(r, to)
  {
    hide Taken, Consume, PerBlock, Streamed;
    StreamedParts(k, secret, fed, acc, soFar, buffer, size);
    var consumed := fed[..|fed| - size];
    TakeMore(k, secret, consumed, acc, soFar, buffer[..at], r, to);
    InBuffer(fed, consumed, buffer, size, at);
    AllButOne(k, secret, fed, |consumed| + at, r, to);
  }

  lemma FinishedShort<A>(k: Kernel<A>, secret: seq<bv8>, fed: seq<bv8>, acc: A, soFar: nat, buffer: seq<bv8>, size: nat)
    requires Streamed(k, secret, fed, acc, soFar, buffer, size) && size < STRIPE && |fed| > MIDSIZE
    ensures |secret| >= SECRET_MIN && Consume(k, secret, Start(k), fed[..|fed| - 1]).acc == acc
  {
    hide Taken, Consume, PerBlock, Streamed;
    StreamedParts(k, secret, fed, acc, soFar, buffer, size);
    CatchUp(k, secret, fed, acc, soFar, buffer, size);
    AllButOne(k, secret, fed, |fed| - size, acc, soFar);
  }

  lemma InBuffer(fed: seq<bv8>, consumed: seq<bv8>, buffer: seq<bv8>, size: nat, at: nat)
    requires at <= size <= |buffer| && STRIPE <= size && fed == consumed + buffer[..size]
    ensures consumed + buffer[..at] == fed[..|consumed| + at]
    ensures buffer[size - STRIPE..size] == fed[|fed| - STRIPE..]
  {
  }

  /** A short buffer after more than 240 bytes: the last 64 bytes start in the last stripe consumed. */
  lemma CatchUp<A>(k: Kernel<A>, secret: seq<bv8>, fed: seq<bv8>, acc: A, soFar: nat, buffer: seq<bv8>, size: nat)
    requires Streamed(k, secret, fed, acc, soFar, buffer, size) && size < STRIPE && |fed| > MIDSIZE
    ensures 0 < size && buffer[BUFFER - (STRIPE - size)..] + buffer[..size] == fed[|fed| - STRIPE..]
  {
    TakenWhole(k, secret, fed[..|fed| - size], acc, soFar);
    hide Taken;
    var c := |fed| - size;
    assert buffer[BUFFER - (STRIPE - size)..] == buffer[BUFFER - STRIPE..][size..] == fed[c - STRIPE..c][size..]
           == fed[c - STRIPE + size..c];
  }

  lemma LastIs<A>(k: Kernel<A>, secret: seq<bv8>, fed: seq<bv8>, acc: A, soFar: nat, buffer: seq<bv8>, size: nat)
    requires Streamed(k, secret, fed, acc, soFar, buffer, size) && |fed| > MIDSIZE
    ensures size <= |buffer| == BUFFER
    ensures size >= STRIPE ==> buffer[size - STRIPE..size] == fed[|fed| - STRIPE..]
    ensures size < STRIPE ==> buffer[BUFFER - (STRIPE - size)..] + buffer[..size] == fed[|fed| - STRIPE..]
  {
    hide Streamed;
    StreamedParts(k, secret, fed, acc, soFar, buffer, size);
    if size >= STRIPE {
      InBuffer(fed, fed[..|fed| - size], buffer, size, 0);
    } else {
      CatchUp(k, secret, fed, acc, soFar, buffer, size);
    }
  }

  lemma TakenWhole<A>(k: Kernel<A>, secret: seq<bv8>, consumed: seq<bv8>, acc: A, soFar: nat)
    requires Taken(k, secret, consumed, acc, soFar)
    ensures |consumed| % STRIPE == 0
  {
  }

  lemma StreamedParts<A>(k: Kernel<A>, secret: seq<bv8>, fed: seq<bv8>, acc: A, soFar: nat, buffer: seq<bv8>, size: nat)
    requires Streamed(k, secret, fed, acc, soFar, buffer, size)
    ensures |buffer| == BUFFER && size <= BUFFER && size <= |fed|
    ensures Taken(k, secret, fed[..|fed| - size], acc, soFar)
    ensures fed == fed[..|fed| - size] + buffer[..size] && (fed[..|fed| - size] != [] ==> size > 0)
  {
    hide Taken;
  }

  /** A small input only moves the buffer on. */
  lemma BufferedMore<A>(k: Kernel<A>, secret: seq<bv8>, fed: seq<bv8>, acc: A, soFar: nat, buffer: seq<bv8>, size: nat,
                        input: seq<bv8>, after: seq<bv8>)
    requires Streamed(k, secret, fed, acc, soFar, buffer, size) && |after| == |buffer| && size + |input| <= BUFFER
    requires after[..size + |input|] == buffer[..size] + input && after[size + |input|..] == buffer[size + |input|..]
    ensures Streamed(k, secret, fed + input, acc, soFar, after, size + |input|)
  {
    hide Taken;
    var c := |fed| - size;
    assert (fed + input)[..c] == fed[..c] && (fed + input)[c..] == fed[c..] + input;
    if c >= STRIPE && size + |input| <= BUFFER - STRIPE {
      var d := BUFFER - STRIPE - (size + |input|);
      assert after[BUFFER - STRIPE..] == after[size + |input|..][d..] == buffer[size + |input|..][d..]
             == buffer[BUFFER - STRIPE..];
      assert (fed + input)[c - STRIPE..c] == fed[c - STRIPE..c];
    }
  }

  /** The buffer's last stripe is the last stripe consumed. */
  ghost predicate Ends(consumed: seq<bv8>, buffer: seq<bv8>) {
    |buffer| == BUFFER <= |consumed| && buffer[BUFFER - STRIPE..] == consumed[|consumed| - STRIPE..]
  }

  lemma Settled<A>(k: Kernel<A>, secret: seq<bv8>, consumed: seq<bv8>, rest: seq<bv8>, acc: A, soFar: nat,
                   buffer: seq<bv8>)
    requires Taken(k, secret, consumed, acc, soFar)
    requires |buffer| == BUFFER <= |consumed| && 0 < |rest| <= BUFFER && buffer[..|rest|] == rest
    requires |rest| <= BUFFER - STRIPE ==> Ends(consumed, buffer)
    ensures Streamed(k, secret, consumed + rest, acc, soFar, buffer, |rest|)
  {
    hide Taken;
    var fed, c := consumed + rest, |consumed|;
    assert fed[..c] == consumed && fed[c..] == rest;
    assert fed[c - STRIPE..c] == consumed[c - STRIPE..];
  }

  method Begin<A>(k: Kernel<A>, mode: Mode) returns (state: State<A>)
    requires Usable(k, mode) && |LongSecret(k, mode)| < U64
    ensures fresh(state) && fresh(state.buffer) && state.Valid()
    ensures state.mode == mode && state.k == k && state.fed == []
  {
    hide Streamed, Taken, Consume;
    state := new State(k);
    var ok := true;
    match mode {
      case Default => state.Reset();
      case WithSecret(s) => ok := state.ResetWithSecret(Bytes.Some(s), |s|);
      case WithSeed(seed) => state.ResetWithSeed(seed);
      case WithBoth(s, seed) => ok := state.ResetWithSecretAndSeed(Bytes.Some(s), |s|, seed);
    }
  }

  method FeedAll<A>(state: State<A>, chunks: seq<seq<bv8>>)
    requires state.Valid()
    modifies state, state.buffer
    ensures state.Valid() && state.fed == old(state.fed) + Concat(chunks) && state.mode == old(state.mode)
  {
    hide *;
    ConcatNone();
    ghost var was := state.fed;
    assert chunks[..0] == [] && was + [] == was;
    for i := 0 to |chunks|
      invariant state.Valid() && state.mode == old(state.mode) && state.fed == was + Concat(chunks[..i])
    {
      ConcatStep(chunks, i);
      state.Update(chunks[i]);
      assert was + (Concat(chunks[..i]) + chunks[i]) == was + Concat(chunks[..i]) + chunks[i];
    }
    assert chunks[..|chunks|] == chunks;
  }

  /** Reset in any mode, feed any chunks, digest: the one-shot hash of the chunks end to end. */
  method HashChunks<A, H>(k: Kernel<A>, f: Final<A, H>, mode: Mode, chunks: seq<seq<bv8>>) returns (h: H)
    requires Usable(k, mode) && |LongSecret(k, mode)| < U64 && |Concat(chunks)| < U64
    ensures h == Hash(k, f, mode, Concat(chunks))
  {
    hide *;
    var state := Begin(k, mode);
    FeedAll(state, chunks);
    assert [] + Concat(chunks) == Concat(chunks);
    h := state.Digest(f);
  }
}
