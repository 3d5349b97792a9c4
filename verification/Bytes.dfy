/**
 Bytes, little-endian words and in-place splices: the vocabulary shared by the arena and the codec.
 The arena stores its words in the machine's own byte order; the model fixes that order to little endian.
 */
module Bytes {

  newtype byte = x: int | 0 <= x < 256

  datatype Option<T> = None | Some(value: T)

  const TWO32: int := 0x1_0000_0000
  const TWO64: int := 0x1_0000_0000_0000_0000

  function Min(a: int, b: int): int { if a <= b then a else b }

  function Max(a: int, b: int): int { if a >= b then a else b }

  ghost predicate NoDup<T>(s: seq<T>)
  {
    forall i, j :: 0 <= i < j < |s| ==> s[i] != s[j]
  }

  lemma Associative(a: seq<byte>, b: seq<byte>, c: seq<byte>)
    ensures (a + b) + c == a + (b + c)
  {
  }

  /** The four bytes of a 32-bit word, least significant first. */
  function Le32(v: nat): (s: seq<byte>)
    ensures |s| == 4
  {
    [(v % 256) as byte, (v / 256 % 256) as byte, (v / 65536 % 256) as byte, (v / 16777216 % 256) as byte]
  }

  function U32(s: seq<byte>): (v: nat)
    requires |s| == 4
    ensures v < TWO32
  {
    s[0] as nat + 256 * s[1] as nat + 65536 * s[2] as nat + 16777216 * s[3] as nat
  }

  /** The least significant byte comes first. */
  lemma LittleEndian(k: byte)
    ensures Le32(k as nat) == [k, 0, 0, 0] && Le32(256 * k as nat) == [0, k, 0, 0]
    ensures Le32(65536 * k as nat) == [0, 0, k, 0] && Le32(16777216 * k as nat) == [0, 0, 0, k]
  {
    var n := k as nat;
    assert 256 * n / 256 == n && 65536 * n / 65536 == n && 65536 * n / 256 == 256 * n;
    assert 16777216 * n / 16777216 == n && 16777216 * n / 65536 == 256 * n && 16777216 * n / 256 == 65536 * n;
  }

  function Le64(v: nat): (s: seq<byte>)
    ensures |s| == 8
  {
    Le32(v % TWO32) + Le32(v / TWO32 % TWO32)
  }

  function U64(s: seq<byte>): (v: nat)
    requires |s| == 8
    ensures v < TWO64
  {
    U32(s[..4]) + TWO32 * U32(s[4..])
  }

  lemma U32OfLe32(v: nat)
    requires v < TWO32
    ensures U32(Le32(v)) == v
  {
    var a, b, c := v / 256, v / 65536, v / 16777216;
    assert b == a / 256 && c == b / 256 && c < 256;
  }

  lemma Le32OfU32(s: seq<byte>)
    requires |s| == 4
    ensures Le32(U32(s)) == s
  {
    var a, b, c, d := s[0] as nat, s[1] as nat, s[2] as nat, s[3] as nat;
    var v := U32(s);
    var q := b + 256 * c + 65536 * d;
    assert v == 256 * q + a && v / 256 == q;
    var r := c + 256 * d;
    assert q == 256 * r + b && q / 256 == r == v / 65536;
    assert r / 256 == d == v / 16777216;
  }

  lemma U64OfLe64(v: nat)
    requires v < TWO64
    ensures U64(Le64(v)) == v
  {
    U32OfLe32(v % TWO32);
    U32OfLe32(v / TWO32);
    assert v / TWO32 % TWO32 == v / TWO32;
    assert Le64(v)[..4] == Le32(v % TWO32);
    assert Le64(v)[4..] == Le32(v / TWO32);
  }

  /** `s` with the bytes from `o` on overwritten by `t`. */
  function Splice(s: seq<byte>, o: nat, t: seq<byte>): (r: seq<byte>)
    requires o + |t| <= |s|
    ensures |r| == |s|
    ensures forall i :: 0 <= i < |s| ==> r[i] == if o <= i < o + |t| then t[i - o] else s[i]
  {
    seq(|s|, i requires 0 <= i < |s| => if o <= i < o + |t| then t[i - o] else s[i])
  }

  /** A slice that does not meet the written range is not changed. */
  lemma SpliceMiss(s: seq<byte>, o: nat, t: seq<byte>, lo: nat, hi: nat)
    requires o + |t| <= |s|
    requires lo <= hi <= |s|
    requires hi <= o || o + |t| <= lo
    ensures Splice(s, o, t)[lo..hi] == s[lo..hi]
  {
  }

  /** A slice that contains the written range is the slice with that write. */
  lemma SpliceHit(s: seq<byte>, lo: nat, hi: nat, o: nat, t: seq<byte>)
    requires lo <= hi <= |s|
    requires lo + o + |t| <= hi
    ensures Splice(s, lo + o, t)[lo..hi] == Splice(s[lo..hi], o, t)
  {
  }

  /** Two adjacent writes are one. */
  lemma SpliceTwice(s: seq<byte>, o: nat, a: seq<byte>, b: seq<byte>)
    requires o + |a| + |b| <= |s|
    ensures Splice(Splice(s, o, a), o + |a|, b) == Splice(s, o, a + b)
  {
  }
}
