/**
 The arena as chunks. A flat byte array holds a 16-byte header and then whole chunks of `cs` bytes;
 what is left over at the end is never used. `Blocks` cuts the array into that header (index 0) and
 the chunks 1..n, so that the rest of the model can speak of chunk `i` without offset arithmetic.
 The first word of a chunk is its link, the `cs - 4` bytes behind it are payload.
 */
module KvArena {
  import opened Bytes

  const HEADER: nat := 16

  /** `w` added `n` times; every offset below is one of these. */
  function Times(w: nat, n: nat): nat
  {
    if n == 0 then 0 else Times(w, n - 1) + w
  }

  lemma TimesStep(w: nat, n: nat)
    ensures Times(w, n + 1) == Times(w, n) + w
  {
  }

  lemma {:induction false} TimesMono(w: nat, i: nat, j: nat)
    requires i <= j
    ensures Times(w, i) <= Times(w, j)
    ensures i < j ==> Times(w, i) + w <= Times(w, j)
    decreases j
  {
    if i < j { TimesMono(w, i, j - 1); }
  }

  lemma {:induction false} TimesIsProduct(w: nat, n: nat)
    ensures Times(w, n) == w * n
  {
    if n > 0 {
      TimesIsProduct(w, n - 1);
      assert w * n == w * (n - 1) + w;
    }
  }

  lemma {:induction false} TimesAdd(w: nat, i: nat, j: nat)
    ensures Times(w, i + j) == Times(w, i) + Times(w, j)
  {
    if j > 0 { TimesAdd(w, i, j - 1); }
  }

  /** Where chunk `i` starts. */
  function Off(cs: nat, i: nat): nat
    requires 1 <= i
  {
    HEADER + Times(cs, i - 1)
  }

  type Mem = seq<seq<byte>>

  ghost predicate MemOk(m: Mem, cs: nat)
  {
    32 <= cs < TWO32 && 2 <= |m| && |m[0]| == HEADER && forall i :: 1 <= i < |m| ==> |m[i]| == cs
  }

  /** The image cut into header and chunks. */
  function Blocks(s: seq<byte>, cs: nat, n: nat): (m: Mem)
    requires HEADER + Times(cs, n) <= |s|
    ensures |m| == n + 1
  {
    if n == 0 then [s[..HEADER]] else Blocks(s, cs, n - 1) + [s[Off(cs, n)..Off(cs, n) + cs]]
  }

  lemma {:induction false} BlocksAt(s: seq<byte>, cs: nat, n: nat, i: nat)
    requires HEADER + Times(cs, n) <= |s|
    requires i <= n
    ensures i == 0 ==> Blocks(s, cs, n)[i] == s[..HEADER]
    ensures i > 0 ==> Off(cs, i) + cs <= |s| && Blocks(s, cs, n)[i] == s[Off(cs, i)..Off(cs, i) + cs]
    decreases n
  {
    if i > 0 { TimesMono(cs, i, n); }
    if i < n { BlocksAt(s, cs, n - 1, i); }
  }

  lemma BlocksOk(s: seq<byte>, cs: nat, n: nat)
    requires 32 <= cs < TWO32 && 1 <= n && HEADER + Times(cs, n) <= |s|
    ensures MemOk(Blocks(s, cs, n), cs)
  {
    forall i | 0 <= i <= n ensures |Blocks(s, cs, n)[i]| == if i == 0 then HEADER else cs {
      BlocksAt(s, cs, n, i);
    }
  }

  /** Cutting fewer chunks, or a longer image with the same front, gives the same first chunks. */
  lemma BlocksPrefix(s: seq<byte>, t: seq<byte>, cs: nat, n: nat, k: nat)
    requires HEADER + Times(cs, n) <= |s|
    requires k <= n
    requires HEADER + Times(cs, k) <= |s|
    requires HEADER + Times(cs, k) <= |t| && t[..HEADER + Times(cs, k)] == s[..HEADER + Times(cs, k)]
    ensures Blocks(t, cs, k) == Blocks(s, cs, n)[..k + 1]
  {
    forall i | 0 <= i <= k ensures Blocks(t, cs, k)[i] == Blocks(s, cs, n)[i] {
      BlocksPrefixAt(s, t, cs, n, k, i);
    }
  }

  lemma BlocksPrefixAt(s: seq<byte>, t: seq<byte>, cs: nat, n: nat, k: nat, i: nat)
    requires HEADER + Times(cs, n) <= |s|
    requires i <= k <= n
    requires HEADER + Times(cs, k) <= |s|
    requires HEADER + Times(cs, k) <= |t| && t[..HEADER + Times(cs, k)] == s[..HEADER + Times(cs, k)]
    ensures Blocks(t, cs, k)[i] == Blocks(s, cs, n)[i]
  {
    hide *;
    BlockIs(t, cs, k, i);
    BlockIs(s, cs, n, i);
    BlockEnd(cs, i);
    TimesMono(cs, i, k);
    SamePrefix(s, t, HEADER + Times(cs, k), Start(cs, i), Start(cs, i) + Size(cs, i));
  }

  /** Where block `i` is found in the image. */
  lemma BlockIs(s: seq<byte>, cs: nat, n: nat, i: nat)
    requires HEADER + Times(cs, n) <= |s|
    requires i <= n
    ensures Start(cs, i) + Size(cs, i) <= |s|
    ensures Blocks(s, cs, n)[i] == s[Start(cs, i)..Start(cs, i) + Size(cs, i)]
  {
    hide Blocks, Times;
    BlocksAt(s, cs, n, i);
  }

  lemma BlockEnd(cs: nat, i: nat)
    ensures Start(cs, i) + Size(cs, i) == HEADER + Times(cs, i)
  {
  }

  lemma SamePrefix(s: seq<byte>, t: seq<byte>, cut: nat, lo: nat, hi: nat)
    requires cut <= |s| && cut <= |t| && s[..cut] == t[..cut] && lo <= hi <= cut
    ensures s[lo..hi] == t[lo..hi]
  {
    assert s[lo..hi] == s[..cut][lo..hi] && t[lo..hi] == t[..cut][lo..hi];
  }

  /** Overwriting part of chunk `i`. */
  function Put(m: Mem, i: nat, o: nat, t: seq<byte>): (r: Mem)
    requires i < |m| && o + |t| <= |m[i]|
    ensures |r| == |m|
  {
    m[i := Splice(m[i], o, t)]
  }

  /** Where block `i` lies in the image. */
  function Start(cs: nat, i: nat): nat { if i == 0 then 0 else Off(cs, i) }
  function Size(cs: nat, i: nat): nat { if i == 0 then HEADER else cs }

  /** Different blocks do not overlap. */
  lemma Apart(cs: nat, i: nat, j: nat)
    requires i != j
    ensures Start(cs, i) + Size(cs, i) <= Start(cs, j) || Start(cs, j) + Size(cs, j) <= Start(cs, i)
  {
    if 0 < i < j { TimesMono(cs, i - 1, j - 1); }
    if 0 < j < i { TimesMono(cs, j - 1, i - 1); }
  }

  /** A block that is not written to, after a write. */
  lemma BlockMiss(s: seq<byte>, cs: nat, i: nat, o: nat, t: seq<byte>, j: nat)
    requires o + |t| <= Size(cs, i) && i != j
    requires Start(cs, i) + Size(cs, i) <= |s| && Start(cs, j) + Size(cs, j) <= |s|
    ensures Splice(s, Start(cs, i) + o, t)[Start(cs, j)..Start(cs, j) + Size(cs, j)]
         == s[Start(cs, j)..Start(cs, j) + Size(cs, j)]
  {
    Apart(cs, i, j);
    SpliceMiss(s, Start(cs, i) + o, t, Start(cs, j), Start(cs, j) + Size(cs, j));
  }

  /** A write into the flat array inside block `i` is that write into the block and changes no other. */
  lemma BlocksSplice(s: seq<byte>, cs: nat, n: nat, i: nat, o: nat, t: seq<byte>)
    requires HEADER + Times(cs, n) <= |s|
    requires i <= n && o + |t| <= Size(cs, i)
    ensures Start(cs, i) + o + |t| <= |s|
    ensures |Blocks(s, cs, n)[i]| == Size(cs, i)
    ensures Blocks(Splice(s, Start(cs, i) + o, t), cs, n) == Put(Blocks(s, cs, n), i, o, t)
  {
    BlocksAt(s, cs, n, i);
    var s' := Splice(s, Start(cs, i) + o, t);
    var m' := Put(Blocks(s, cs, n), i, o, t);
    forall j | 0 <= j <= n ensures Blocks(s', cs, n)[j] == m'[j] {
      BlocksSpliceAt(s, cs, n, i, o, t, j);
    }
  }

  lemma BlocksSpliceAt(s: seq<byte>, cs: nat, n: nat, i: nat, o: nat, t: seq<byte>, j: nat)
    requires HEADER + Times(cs, n) <= |s|
    requires i <= n && j <= n && o + |t| <= Size(cs, i)
    requires Start(cs, i) + Size(cs, i) <= |s| && |Blocks(s, cs, n)[i]| == Size(cs, i)
    ensures Blocks(Splice(s, Start(cs, i) + o, t), cs, n)[j]
         == if i == j then Splice(Blocks(s, cs, n)[i], o, t) else Blocks(s, cs, n)[j]
  {
    hide *;
    BlockIs(s, cs, n, j);
    BlockIs(Splice(s, Start(cs, i) + o, t), cs, n, j);
    if i == j {
      SpliceHit(s, Start(cs, i), Start(cs, i) + Size(cs, i), o, t);
    } else {
      BlockMiss(s, cs, i, o, t, j);
    }
  }

  /** The link word of chunk `i`: 0 for a free chunk, its own index at the end of a node. */
  function Next(m: Mem, i: nat): (v: nat)
    requires i < |m| && 4 <= |m[i]|
    ensures v < TWO32
  {
    U32(m[i][..4])
  }

  ghost predicate InRange(m: Mem, chain: seq<nat>)
  {
    forall j :: 0 <= j < |chain| ==> 1 <= chain[j] < |m|
  }

  /** The payloads of a chain of chunks, one behind the other: the logical byte string of a node. */
  function Payload(m: Mem, cs: nat, chain: seq<nat>): (p: seq<byte>)
    requires MemOk(m, cs) && InRange(m, chain)
    ensures |p| == Times(cs - 4, |chain|)
  {
    if chain == [] then []
    else
      var k := |chain| - 1;
      Payload(m, cs, chain[..k]) + m[chain[k]][4..]
  }

  /** The front of a payload is the payload of the front of the chain. */
  lemma {:induction false} PayloadTake(m: Mem, cs: nat, chain: seq<nat>, k: nat)
    requires MemOk(m, cs) && InRange(m, chain)
    requires k <= |chain|
    ensures InRange(m, chain[..k])
    ensures Times(cs - 4, k) <= Times(cs - 4, |chain|)
    ensures Payload(m, cs, chain)[..Times(cs - 4, k)] == Payload(m, cs, chain[..k])
    decreases |chain|
  {
    TimesMono(cs - 4, k, |chain|);
    if k < |chain| {
      var t := chain[..|chain| - 1];
      PayloadTake(m, cs, t, k);
      assert t[..k] == chain[..k];
      var cut := Times(cs - 4, k);
      assert Payload(m, cs, chain)[..cut] == Payload(m, cs, t)[..cut];
    } else {
      assert chain[..k] == chain;
    }
  }

  lemma PayloadSnoc(m: Mem, cs: nat, chain: seq<nat>, k: nat)
    requires MemOk(m, cs) && InRange(m, chain)
    requires k < |chain|
    ensures InRange(m, chain[..k]) && InRange(m, chain[..k + 1])
    ensures 1 <= chain[k] < |m|
    ensures Payload(m, cs, chain[..k + 1]) == Payload(m, cs, chain[..k]) + m[chain[k]][4..]
  {
    assert chain[..k + 1][..k] == chain[..k];
  }

  /** Payloads do not see links, nor chunks outside the chain. */
  lemma {:induction false} PayloadFrame(m: Mem, m': Mem, cs: nat, chain: seq<nat>)
    requires MemOk(m, cs) && MemOk(m', cs) && |m| <= |m'| && InRange(m, chain)
    requires forall c :: c in chain ==> m'[c][4..] == m[c][4..]
    ensures Payload(m', cs, chain) == Payload(m, cs, chain)
  {
    if chain != [] {
      var k := |chain| - 1;
      PayloadFrame(m, m', cs, chain[..k]);
    }
  }

  /** Byte `x` of chunk `k` of the chain, seen in the payload. */
  lemma {:induction false} PayloadAt(m: Mem, cs: nat, chain: seq<nat>, k: nat, x: nat)
    requires MemOk(m, cs) && InRange(m, chain)
    requires k < |chain| && x < cs - 4
    ensures Times(cs - 4, k) + cs - 4 <= Times(cs - 4, |chain|)
    ensures Payload(m, cs, chain)[Times(cs - 4, k) + x] == m[chain[k]][4 + x]
  {
    TimesMono(cs - 4, k + 1, |chain|);
    if k + 1 < |chain| { PayloadAt(m, cs, chain[..|chain| - 1], k, x); }
  }

  /** Part of one chunk's payload is that part of the chain's payload. */
  lemma PayloadPiece(m: Mem, cs: nat, chain: seq<nat>, k: nat, lo: nat, hi: nat)
    requires MemOk(m, cs) && InRange(m, chain)
    requires k < |chain| && lo <= hi <= cs - 4
    ensures Times(cs - 4, k) + cs - 4 <= Times(cs - 4, |chain|)
    ensures Payload(m, cs, chain)[Times(cs - 4, k) + lo..Times(cs - 4, k) + hi] == m[chain[k]][4 + lo..4 + hi]
  {
    hide Payload, Times;
    PayloadAt(m, cs, chain, k, 0);
    var at := Times(cs - 4, k);
    forall i: nat | at <= i < at + cs - 4 ensures Payload(m, cs, chain)[i] == m[chain[k]][i - at + 4] {
      PayloadAt(m, cs, chain, k, i - at);
    }
    SamePiece(Payload(m, cs, chain), at, m[chain[k]], 4, cs - 4, lo, hi);
  }

  /** Two stretches that agree byte by byte agree on every part. */
  lemma SamePiece(p: seq<byte>, at: nat, q: seq<byte>, at': nat, len: nat, lo: nat, hi: nat)
    requires at + len <= |p| && at' + len <= |q| && lo <= hi <= len
    requires forall i: nat :: at <= i < at + len ==> p[i] == q[i - at + at']
    ensures p[at + lo..at + hi] == q[at' + lo..at' + hi]
  {
  }

  /** The payload read from the other end. */
  lemma {:induction false} PayloadHead(m: Mem, cs: nat, chain: seq<nat>)
    requires MemOk(m, cs) && InRange(m, chain) && chain != []
    ensures Payload(m, cs, chain) == m[chain[0]][4..] + Payload(m, cs, chain[1..])
  {
    var k := |chain| - 1;
    if k > 0 {
      PayloadHead(m, cs, chain[..k]);
      assert chain[..k][1..] == chain[1..][..k - 1];
      PayloadSnoc(m, cs, chain[1..], k - 1);
      assert chain[1..][..k] == chain[1..];
      Associative(m[chain[0]][4..], Payload(m, cs, chain[..k][1..]), m[chain[k]][4..]);
    }
  }
}
