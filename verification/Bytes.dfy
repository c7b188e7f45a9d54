/** Bytes, little-endian integers, concatenation and address alignment. */
module Bytes {
  import opened Integers

  datatype Option<T> = None | Some(value: T)

  newtype byte = x: int | 0 <= x < 256

  /** v in n bytes, least significant byte first. */
  function LE(v: nat, n: nat): (s: seq<byte>)
    ensures |s| == n
  {
    if n == 0 then [] else [(v % 256) as byte] + LE(v / 256, n - 1)
  }

  function FromLE(s: seq<byte>): nat {
    if s == [] then 0 else s[0] as nat + 256 * FromLE(s[1..])
  }

  function Pow256(n: nat): nat {
    if n == 0 then 1 else 256 * Pow256(n - 1)
  }

  lemma {:induction false} LERoundTrip(v: nat, n: nat)
    requires v < Pow256(n)
    ensures FromLE(LE(v, n)) == v
  {
    if n > 0 {
      LERoundTrip(v / 256, n - 1);
      assert LE(v, n)[1..] == LE(v / 256, n - 1);
    }
  }

  lemma {:induction false} LEOfFromLE(s: seq<byte>)
    ensures LE(FromLE(s), |s|) == s
  {
    if s != [] {
      LEOfFromLE(s[1..]);
      Digits(s[0], FromLE(s[1..]));
      assert s == [s[0]] + s[1..];
    }
  }

  lemma Digits(b: byte, rest: nat)
    ensures (b as nat + 256 * rest) % 256 == b as nat && (b as nat + 256 * rest) / 256 == rest
  {
  }

  lemma Widths()
    ensures Pow256(4) == U32 && Pow256(8) == U64
  {
    assert Pow256(4) == U32;
    assert Pow256(8) == 0x1_0000_0000 * Pow256(4);
  }

  /** The least significant byte comes first, both ways. */
  lemma ByteOrder(v: nat, n: nat, s: seq<byte>)
    ensures n > 0 ==> LE(v, n)[0] as nat == v % 256 && LE(v, n)[1..] == LE(v / 256, n - 1)
    ensures FromLE(s) == if s == [] then 0 else s[0] as nat + 256 * FromLE(s[1..])
    ensures LE(0x0403_0201, 4) == [1, 2, 3, 4] && FromLE([1, 2, 3, 4]) == 0x0403_0201
  {
    assert [1, 2, 3, 4][1..] == [2, 3, 4] && [2, 3, 4][1..] == [3, 4] && [3, 4][1..] == [4];
    assert FromLE([4]) == 4;
    assert FromLE([3, 4]) == 3 + 256 * 4;
    assert FromLE([2, 3, 4]) == 2 + 256 * (3 + 256 * 4);
    assert LE(4, 1) == [4];
    assert LE(0x0403, 2) == [3] + LE(4, 1);
    assert LE(0x0403_02, 3) == [2] + LE(0x0403, 2);
  }

  function Flatten<T>(ss: seq<seq<T>>): seq<T> {
    if ss == [] then [] else ss[0] + Flatten(ss[1..])
  }

  lemma FlattenNil<T>()
    ensures Flatten<T>([]) == []
  {
  }

  lemma FlattenCons<T>(ss: seq<seq<T>>)
    requires ss != []
    ensures Flatten(ss) == ss[0] + Flatten(ss[1..])
  {
  }

  lemma {:induction false} FlattenConcat<T>(ss: seq<seq<T>>, tt: seq<seq<T>>)
    ensures Flatten(ss + tt) == Flatten(ss) + Flatten(tt)
  {
    hide Flatten;
    if ss == [] {
      FlattenNil<T>();
      assert ss + tt == tt;
    } else {
      var us := ss[1..];
      FlattenCons(ss);
      FlattenCons(ss + tt);
      FlattenConcat(us, tt);
      assert (ss + tt)[1..] == us + tt;
      assert ss[0] + (Flatten(us) + Flatten(tt)) == ss[0] + Flatten(us) + Flatten(tt);
    }
  }

  function Zeros(n: nat): (s: seq<byte>)
    ensures |s| == n && forall i | 0 <= i < n :: s[i] == 0
  {
    seq(n, _ => 0)
  }

  /** The least multiple of a at or above p: p + a - 1 with the bits below a cleared. */
  function JumpToAlignment(p: nat, a: nat): (r: nat)
    requires a > 0
    ensures r % a == 0 && p <= r < p + a
  {
    var top := p + a - 1;
    assert top == top / a * a + top % a;
    assert (top / a * a) % a == 0 by { ModMul(top / a, a); }
    top - top % a
  }

  lemma ModMul(k: nat, a: nat)
    requires a > 0
    ensures (k * a) % a == 0
  {
    if k > 0 {
      ModMul(k - 1, a);
      ModAdd((k - 1) * a, a);
      assert k * a == (k - 1) * a + a;
    }
  }

  /** Distinct multiples of a lie at least a apart. */
  lemma MulSeparates(d: int, a: nat)
    requires a > 0
    ensures d == 0 || d * a >= a || d * a <= -(a as int)
  {
  }

  lemma ModAdd(x: nat, a: nat)
    requires a > 0
    ensures (x + a) % a == x % a
  {
    assert x + a == (x / a + 1) * a + x % a;
    var q := (x + a) / a - (x / a + 1);
    MulSeparates(q, a);
    assert x + a == (x + a) / a * a + (x + a) % a;
    assert (x + a) % a - x % a == - (q * a);
  }

  /** For the two alignments the program uses, the mask form of the source on 64-bit words meets the same facts,
      which fix the result. */
  lemma MaskIsAlignment(p: bv64)
    requires p <= 0xFFFF_FFFF_FFFF_FFF8
    ensures var r := (p + 7) & !(8 - 1); r & 7 == 0 && p <= r && r - p < 8
    ensures var r := (p + 3) & !(4 - 1); r & 3 == 0 && p <= r && r - p < 4
  {
  }

  lemma AlignmentUnique(p: nat, a: nat, r: nat)
    requires a > 0 && r % a == 0 && p <= r < p + a
    ensures r == JumpToAlignment(p, a)
  {
    var j := JumpToAlignment(p, a);
    assert r == r / a * a && j == j / a * a;
    var d := r / a - j / a;
    MulSeparates(d, a);
    assert r - j == d * a;
  }

  // The two alignments the program uses.

  function Align4(p: nat): nat {
    4 * ((p + 3) / 4)
  }

  function Align8(p: nat): nat {
    8 * ((p + 7) / 8)
  }

  lemma AlignsAre(p: nat)
    ensures Align4(p) == JumpToAlignment(p, 4) && Align8(p) == JumpToAlignment(p, 8)
  {
    hide JumpToAlignment;
    assert Align4(p) == JumpToAlignment(p, 4) by { AlignmentUnique(p, 4, Align4(p)); }
    assert Align8(p) == JumpToAlignment(p, 8) by { AlignmentUnique(p, 8, Align8(p)); }
  }
}
