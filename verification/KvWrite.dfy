/**
 The two writers of a node: a fresh node over new chunks, and a new value written behind the key of a
 node that is already there. Both leave the same layout: the chunks linked in order and their payloads
 together starting with the two sizes, the key and the value.
 */
module KvWrite {
  import opened Bytes
  import opened KvArena
  import opened KvNode

  ghost function Elems(s: seq<nat>): set<nat> { set c | c in s }

  /** What the link word of the `j`-th chunk of a chain must be. */
  function LinkOf(chain: seq<nat>, j: nat): nat
    requires j < |chain|
  {
    if j + 1 < |chain| then chain[j + 1] else chain[j]
  }

  ghost predicate LinkedFrom(m: Mem, cs: nat, chain: seq<nat>, lo: nat, hi: nat)
    requires MemOk(m, cs) && InRange(m, chain) && hi <= |chain|
  {
    forall j :: lo <= j < hi ==> Next(m, chain[j]) == LinkOf(chain, j)
  }

  ghost predicate Linked(m: Mem, cs: nat, chain: seq<nat>)
  {
    MemOk(m, cs) && InRange(m, chain) && LinkedFrom(m, cs, chain, 0, |chain|)
  }

  /** Sizes, key and value as one byte string. */
  function Body(key: seq<byte>, val: seq<byte>): (b: seq<byte>)
    ensures |b| == 8 + |key| + |val|
  {
    Le32(|key|) + Le32(|val|) + key + val
  }

  /** `k` chunks of `w` payload bytes are exactly enough for `len` bytes. */
  predicate Fits(w: nat, k: nat, len: nat)
  {
    1 <= k && Times(w, k - 1) < len <= Times(w, k)
  }

  /** Blocks outside `to` are the same in both memories. */
  ghost predicate SameBut(m: Mem, m': Mem, to: set<nat>)
  {
    |m'| == |m| && forall i :: 0 <= i < |m| && i !in to ==> m'[i] == m[i]
  }

  /** One chunk after its link and a run of payload bytes have been written. */
  function Filled(m: Mem, c: nat, link: nat, o: nat, t: seq<byte>): (r: Mem)
    requires c < |m| && 4 <= o && o + |t| <= |m[c]|
    ensures |r| == |m| && |r[c]| == |m[c]| && forall i :: 0 <= i < |m| && i != c ==> r[i] == m[i]
  {
    Put(Put(m, c, 0, Le32(link)), c, o, t)
  }

  lemma FilledBytes(m: Mem, c: nat, link: nat, o: nat, t: seq<byte>)
    requires c < |m| && 4 <= o && o + |t| <= |m[c]|
    requires link < TWO32
    ensures Next(Filled(m, c, link, o, t), c) == link
    ensures Filled(m, c, link, o, t)[c][o..o + |t|] == t
    ensures Filled(m, c, link, o, t)[c][4..o] == m[c][4..o]
    ensures Filled(m, c, link, o, t)[c][o + |t|..] == m[c][o + |t|..]
  {
    var r := Filled(m, c, link, o, t)[c];
    U32OfLe32(link);
    assert r[..4] == Le32(link);
  }

  lemma PutTwice(m: Mem, c: nat, o: nat, a: seq<byte>, b: seq<byte>)
    requires c < |m| && o + |a| + |b| <= |m[c]|
    ensures Put(Put(m, c, o, a), c, o + |a|, b) == Put(m, c, o, a + b)
    ensures a == [] ==> Put(m, c, o, a) == m
  {
    SpliceTwice(m[c], o, a, b);
    assert Splice(m[c], o, []) == m[c];
  }

  /** Taking `x` bytes of a two-part string, first from one part and then from the other. */
  lemma TakeTwo(a: seq<byte>, b: seq<byte>, x: nat)
    ensures var p, q := Min(x, |a|), Min(x - Min(x, |a|), |b|);
            && a[..p] + b[..q] == (a + b)[..Min(x, |a| + |b|)]
            && a[p..] + b[q..] == (a + b)[Min(x, |a| + |b|)..]
  {
  }

  /** One round of the insert loop: link, then as much of key and value as the chunk takes. */
  method FillChunk(data: array<byte>, cs: nat, ghost n: nat, c: nat, from: nat, link: nat,
                   key: seq<byte>, val: seq<byte>, writeKLen: nat, writeVLen: nat)
    returns (wk: nat, wv: nat, stop: bool)
    requires Geometry(data, cs, n) && 1 <= c <= n && 4 <= from < cs && link < TWO32
    requires writeKLen <= |key| && writeVLen <= |val|
    requires writeKLen > 0 ==> writeVLen == |val|
    modifies data
    ensures wk <= writeKLen && wv <= writeVLen
    ensures wk > 0 ==> wv == |val|
    ensures var left := key[|key| - writeKLen..] + val[|val| - writeVLen..];
            var q := Min(cs - from, |left|);
            && MemOf(data, cs, n) == Filled(old(MemOf(data, cs, n)), c, link, from, left[..q])
            && key[|key| - wk..] + val[|val| - wv..] == left[q..]
    ensures stop ==> wk == 0 && wv == 0
  {
    var kr, vr := key[|key| - writeKLen..], val[|val| - writeVLen..];
    CopyIn(data, cs, n, c, 0, Le32(link));
    ghost var m1 := MemOf(data, cs, n);
    ghost var p := Min(cs - from, |kr|);
    ghost var q := Min(cs - from - p, |vr|);
    TakeTwo(kr, vr, cs - from);
    PutTwice(m1, c, from, kr[..p], vr[..q]);
    wk, wv, stop := writeKLen, writeVLen, false;
    var start := from;
    if wk > 0 {
      CopyIn(data, cs, n, c, start, kr[..Min(|kr|, cs - start)]);
      if wk > cs - start {
        wk := wk - (cs - start);
        start := cs;
      } else {
        start := start + wk;
        wk := 0;
      }
    }
    assert start == from + p && key[|key| - wk..] == kr[p..];
    ghost var m2 := Put(m1, c, from, kr[..p]);
    assert MemOf(data, cs, n) == m2;
    PutTwice(m2, c, start, vr[..q], []);
    if wv > 0 && start < cs {
      CopyIn(data, cs, n, c, start, vr[..Min(|vr|, cs - start)]);
      if wv > cs - start {
        wv := wv - (cs - start);
      } else {
        wv := 0;
        stop := true;
      }
    }
    assert val[|val| - wv..] == vr[q..];
    assert MemOf(data, cs, n) == Put(m2, c, start, vr[..q]);
  }

  /**
   State of a writer that started at chunk `lo`, before round `i`: the first `i` chunks carry the front
   of `b`, those from `lo` on their links, and nothing outside `to` has been touched.
   */
  ghost predicate Progress(m0: Mem, m: Mem, cs: nat, chain: seq<nat>, to: set<nat>, lo: nat, i: nat, b: seq<byte>)
  {
    && MemOk(m, cs) && InRange(m, chain) && lo <= i <= |chain|
    && SameBut(m0, m, to)
    && LinkedFrom(m, cs, chain, lo, i)
    && b[..Min(|b|, Times(cs - 4, i))] <= Payload(m, cs, chain[..i])
  }

  /** Filling chunk `i` from offset `o` with its share of `b` is one round. */
  lemma FillStep(m0: Mem, m: Mem, cs: nat, chain: seq<nat>, to: set<nat>, lo: nat, i: nat, b: seq<byte>, o: nat, t: seq<byte>)
    requires i < |chain| && chain[i] in to && Progress(m0, m, cs, chain, to, lo, i, b) && NoDup(chain) && |m| < TWO32
    requires 4 <= o && o + |t| <= cs
    requires Times(cs - 4, i) + o - 4 + |t| == Min(|b|, Times(cs - 4, i) + cs - 4)
    requires m[chain[i]][4..o] == b[Times(cs - 4, i)..Times(cs - 4, i) + o - 4]
    requires t == b[Times(cs - 4, i) + o - 4..Times(cs - 4, i) + o - 4 + |t|]
    ensures Progress(m0, Filled(m, chain[i], LinkOf(chain, i), o, t), cs, chain, to, lo, i + 1, b)
  {
    FilledBytes(m, chain[i], LinkOf(chain, i), o, t);
    FillPayload(m, cs, chain, i, b, o, t);
  }

  /** The payload part of `FillStep`. */
  lemma FillPayload(m: Mem, cs: nat, chain: seq<nat>, i: nat, b: seq<byte>, o: nat, t: seq<byte>)
    requires MemOk(m, cs) && InRange(m, chain) && NoDup(chain) && |m| < TWO32
    requires i < |chain| && Times(cs - 4, i) <= |b| && b[..Times(cs - 4, i)] == Payload(m, cs, chain[..i])
    requires 4 <= o && o + |t| <= cs && Times(cs - 4, i) + o - 4 + |t| <= |b|
    requires m[chain[i]][4..o] == b[Times(cs - 4, i)..Times(cs - 4, i) + o - 4]
    requires t == b[Times(cs - 4, i) + o - 4..Times(cs - 4, i) + o - 4 + |t|]
    ensures b[..Times(cs - 4, i) + o - 4 + |t|]
         <= Payload(Filled(m, chain[i], LinkOf(chain, i), o, t), cs, chain[..i + 1])
  {
    hide Payload, Times, Filled;
    var m' := Filled(m, chain[i], LinkOf(chain, i), o, t);
    FilledBytes(m, chain[i], LinkOf(chain, i), o, t);
    PayloadFrame(m, m', cs, chain[..i]);
    PayloadSnoc(m', cs, chain, i);
    JoinPrefix(b, Times(cs - 4, i), Times(cs - 4, i) + o - 4, Times(cs - 4, i) + o - 4 + |t|, m'[chain[i]]);
  }

  /** A chunk whose payload starts with `b[x..y]` and goes on with `b[y..z]` continues `b[..x]`. */
  lemma JoinPrefix(b: seq<byte>, x: nat, y: nat, z: nat, c: seq<byte>)
    requires x <= y <= z <= |b| && 4 + z - x <= |c|
    requires c[4..4 + y - x] == b[x..y] && c[4 + y - x..4 + z - x] == b[y..z]
    ensures b[..z] <= b[..x] + c[4..]
  {
    assert c[4..4 + z - x] == c[4..4 + y - x] + c[4 + y - x..4 + z - x];
    assert b[x..z] == b[x..y] + b[y..z];
    var r := b[..x] + c[4..];
    assert r[x..z] == c[4..4 + z - x];
    assert b[..z] == b[..x] + b[x..z];
    assert r[..z] == r[..x] + r[x..z];
  }

  /** The sizes go into the first chunk before its link is written. */
  lemma SizesStep(m0: Mem, m: Mem, cs: nat, chain: seq<nat>, to: set<nat>, b: seq<byte>, x: seq<byte>, y: seq<byte>)
    requires chain != [] && chain[0] in to && Progress(m0, m, cs, chain, to, 0, 0, b)
    requires |x| == 4 && |y| == 4 && x + y <= b
    ensures var m' := Put(Put(m, chain[0], 4, x), chain[0], 8, y);
            Progress(m0, m', cs, chain, to, 0, 0, b) && m'[chain[0]][4..12] == b[..8]
  {
    PutTwice(m, chain[0], 4, x, y);
    assert b[..8] == x + y;
  }

  /** One round of either loop: `left` is what is still to be copied, `q` bytes of it fit behind `start`. */
  lemma WriteRound(m0: Mem, m: Mem, cs: nat, chain: seq<nat>, to: set<nat>, lo: nat, i: nat, b: seq<byte>,
                   left: seq<byte>, start: nat, q: nat)
    requires i < |chain| && chain[i] in to && NoDup(chain) && |m| < TWO32
    requires Progress(m0, m, cs, chain, to, lo, i, b) && Fits(cs - 4, |chain|, |b|)
    requires 4 <= start < cs && Times(cs - 4, i) + start - 4 <= |b|
    requires m[chain[i]][4..start] == b[Times(cs - 4, i)..Times(cs - 4, i) + start - 4]
    requires left == b[Times(cs - 4, i) + start - 4..] && q == Min(cs - start, |left|)
    ensures Progress(m0, Filled(m, chain[i], LinkOf(chain, i), start, left[..q]), cs, chain, to, lo, i + 1, b)
    ensures i + 1 < |chain| ==> Times(cs - 4, i + 1) < |b| && left[q..] == b[Times(cs - 4, i + 1)..]
    ensures q == |left| <==> i + 1 == |chain|
  {
    hide Payload, LinkedFrom, SameBut, Filled, LinkOf;
    var at := Times(cs - 4, i) + start - 4;
    assert b[at..][..q] == b[at..at + q];
    FillStep(m0, m, cs, chain, to, lo, i, b, start, left[..q]);
    RoundArithmetic(cs, i, |chain|, |b|);
    if i + 1 < |chain| { assert b[at..][q..] == b[at + q..]; }
  }

  lemma RoundArithmetic(cs: nat, i: nat, k: nat, len: nat)
    requires 32 <= cs && i < k && Fits(cs - 4, k, len)
    ensures i + 1 < k <==> Times(cs - 4, i + 1) < len
  {
    if i + 1 < k { TimesMono(cs - 4, i + 1, k - 1); }
  }

  /** Before round `i` of the insert loop `left` is what remains of `b`; the sizes are written apart. */
  predicate Pending(cs: nat, i: nat, b: seq<byte>, left: seq<byte>)
  {
    4 <= cs && if i == 0 then 8 <= |b| && left == b[8..] else Times(cs - 4, i) <= |b| && left == b[Times(cs - 4, i)..]
  }

  /** Invariant of the insert loop: `wk` key bytes and `wv` value bytes are still to be written. */
  ghost predicate Writing(m0: Mem, m: Mem, cs: nat, chain: seq<nat>, i: nat,
                          key: seq<byte>, val: seq<byte>, wk: nat, wv: nat)
  {
    && Progress(m0, m, cs, chain, Elems(chain), 0, i, Body(key, val))
    && wk <= |key| && wv <= |val| && (wk > 0 ==> wv == |val|)
    && (i < |chain| ==> Pending(cs, i, Body(key, val), key[|key| - wk..] + val[|val| - wv..]))
  }

  /** One round of the insert loop; it asks to stop only after the last chunk. */
  method InsertRound(data: array<byte>, cs: nat, ghost n: nat, chunks: seq<nat>, i: nat,
                     key: seq<byte>, val: seq<byte>, writeKLen: nat, writeVLen: nat, ghost m0: Mem)
    returns (wk: nat, wv: nat, stop: bool)
    requires Geometry(data, cs, n) && i < |chunks| && NoDup(chunks)
    requires Fits(cs - 4, |chunks|, 8 + |key| + |val|)
    requires Writing(m0, MemOf(data, cs, n), cs, chunks, i, key, val, writeKLen, writeVLen)
    modifies data
    ensures Writing(m0, MemOf(data, cs, n), cs, chunks, i + 1, key, val, wk, wv)
    ensures stop ==> i + 1 == |chunks|
  {
    hide Payload, LinkedFrom, SameBut, Filled, MemOf, Times, NoDup, Put, Le32;
    assert Times(cs - 4, 0) == 0 by { TimesIsProduct(cs - 4, 0); }
    ghost var b, to := Body(key, val), Elems(chunks);
    ghost var left := key[|key| - writeKLen..] + val[|val| - writeVLen..];
    var start := 4;
    if i == 0 {
      SizesStep(m0, MemOf(data, cs, n), cs, chunks, to, b, Le32(|key|), Le32(|val|));
      CopyIn(data, cs, n, chunks[0], 4, Le32(|key|));
      CopyIn(data, cs, n, chunks[0], 8, Le32(|val|));
      start := start + 8;
    }
    WriteRound(m0, MemOf(data, cs, n), cs, chunks, to, 0, i, b, left, start, Min(cs - start, |left|));
    wk, wv, stop := FillChunk(data, cs, n, chunks[i], start, LinkOf(chunks, i), key, val, writeKLen, writeVLen);
  }

  /** Writes a fresh node over `chunks`. */
  method WriteNode(data: array<byte>, cs: nat, ghost n: nat, chunks: seq<nat>, key: seq<byte>, val: seq<byte>)
    requires Geometry(data, cs, n)
    requires InRange(MemOf(data, cs, n), chunks) && NoDup(chunks)
    requires |key| + |val| + 8 < TWO32 && Fits(cs - 4, |chunks|, 8 + |key| + |val|)
    modifies data
    ensures Progress(old(MemOf(data, cs, n)), MemOf(data, cs, n), cs, chunks, Elems(chunks), 0, |chunks|, Body(key, val))
  {
    ghost var m0 := MemOf(data, cs, n);
    var wk: nat, wv: nat, i: nat, stop := |key|, |val|, 0, false;
    assert key[|key| - wk..] + val[|val| - wv..] == Body(key, val)[8..];
    while i < |chunks| && !stop
      invariant i <= |chunks| && (stop ==> i == |chunks|)
      invariant Writing(m0, MemOf(data, cs, n), cs, chunks, i, key, val, wk, wv)
      decreases |chunks| - i
    {
      wk, wv, stop := InsertRound(data, cs, n, chunks, i, key, val, wk, wv, m0);
      i := i + 1;
    }
  }

  /** What a value update starts from: key size and key are in place, the chunks suffice for the new value. */
  ghost predicate HoldsKey(m: Mem, cs: nat, chain: seq<nat>, key: seq<byte>)
  {
    && MemOk(m, cs) && InRange(m, chain) && NoDup(chain)
    && 8 + |key| <= Times(cs - 4, |chain|)
    && Payload(m, cs, chain)[..4] == Le32(|key|)
    && Payload(m, cs, chain)[8..8 + |key|] == key
  }

  /** Writing the value size gives a payload that agrees with the new node up to the value. */
  lemma ResizeStep(m: Mem, cs: nat, chain: seq<nat>, key: seq<byte>, val: seq<byte>)
    requires HoldsKey(m, cs, chain, key) && chain != []
    ensures var m' := Put(m, chain[0], 8, Le32(|val|));
            && MemOk(m', cs) && InRange(m', chain)
            && Payload(m', cs, chain)[..8 + |key|] == Body(key, val)[..8 + |key|]
  {
    hide Payload, Times;
    var m' := Put(m, chain[0], 8, Le32(|val|));
    var p, p' := Payload(m, cs, chain), Payload(m', cs, chain);
    var c, c' := m[chain[0]], m'[chain[0]];
    PayloadHead(m, cs, chain);
    PayloadHead(m', cs, chain);
    PayloadFrame(m, m', cs, chain[1..]);
    assert c'[4..8] == c[4..8] && c'[8..12] == Le32(|val|) && c'[12..] == c[12..];
    assert p'[..4] == c'[4..8] == p[..4];
    assert p'[4..8] == c'[8..12];
    assert p'[8..] == c'[12..] + Payload(m, cs, chain[1..]) == p[8..];
    assert p'[8..8 + |key|] == p'[8..][..|key|] == key;
    assert Body(key, val)[..8 + |key|] == Le32(|key|) + Le32(|val|) + key;
    assert p'[..8 + |key|] == p'[..4] + p'[4..8] + p'[8..8 + |key|];
  }

  /** One round of the update loop: the link, then what the chunk takes of the value. */
  method FillVal(data: array<byte>, cs: nat, ghost n: nat, c: nat, start: nat, link: nat, val: seq<byte>, writeVLen: nat)
    returns (wv: nat)
    requires Geometry(data, cs, n) && 1 <= c <= n && 4 <= start < cs && link < TWO32
    requires writeVLen <= |val|
    modifies data
    ensures var left := val[|val| - writeVLen..];
            MemOf(data, cs, n) == Filled(old(MemOf(data, cs, n)), c, link, start, left[..Min(cs - start, |left|)])
    ensures wv == if writeVLen > cs - start then writeVLen - (cs - start) else writeVLen
  {
    CopyIn(data, cs, n, c, 0, Le32(link));
    wv := writeVLen;
    PutTwice(MemOf(data, cs, n), c, start, [], []);
    if wv > 0 {
      var left := val[|val| - wv..];
      CopyIn(data, cs, n, c, start, left[..Min(cs - start, |left|)]);
      if wv > cs - start {
        wv := wv - (cs - start);
      }
    }
  }

  /** Before the update loop: the value size is in, the chunks before `idx` carry their part of the new node. */
  lemma UpdateStart(m: Mem, cs: nat, chain: seq<nat>, to: set<nat>, key: seq<byte>, val: seq<byte>, idx: nat, start: nat)
    requires HoldsKey(m, cs, chain, key) && 1 <= |chain|
    requires 4 <= start < cs && 8 + |key| == Times(cs - 4, idx) + start - 4
    ensures var m' := Put(m, chain[0], 8, Le32(|val|));
            && idx <= |chain| && Progress(m', m', cs, chain, to, idx, idx, Body(key, val))
            && (idx < |chain| ==> m'[chain[idx]][4..start] == Body(key, val)[Times(cs - 4, idx)..8 + |key|])
  {
    hide Payload, Times, Put, Body;
    ResizeStep(m, cs, chain, key, val);
    var m' := Put(m, chain[0], 8, Le32(|val|));
    var b, p := Body(key, val), Payload(m', cs, chain);
    var at := Times(cs - 4, idx);
    if idx > |chain| { TimesMono(cs - 4, |chain|, idx); }
    PayloadTake(m', cs, chain, idx);
    SamePrefix(b, p, 8 + |key|, 0, at);
    SamePrefix(b, p, 8 + |key|, at, 8 + |key|);
    if idx < |chain| { PayloadPiece(m', cs, chain, idx, 0, start - 4); }
  }

  /** The next chunk of the update loop keeps its bytes before `start`; `left` goes behind them. */
  ghost predicate Continues(m: Mem, c: nat, b: seq<byte>, at: nat, start: nat, left: seq<byte>)
  {
    && c < |m| && 4 <= start <= |m[c]| && at + start - 4 <= |b|
    && m[c][4..start] == b[at..at + start - 4] && left == b[at + start - 4..]
  }

  lemma UpdateReady(m: Mem, cs: nat, chain: seq<nat>, key: seq<byte>, val: seq<byte>, idx: nat, start: nat)
    requires HoldsKey(m, cs, chain, key) && 1 <= |chain|
    requires 4 <= start < cs && 8 + |key| == Times(cs - 4, idx) + start - 4
    ensures var m' := Put(m, chain[0], 8, Le32(|val|));
            && idx <= |chain| && Progress(m', m', cs, chain, Elems(chain[idx..]), idx, idx, Body(key, val))
            && (idx < |chain| ==> Continues(m', chain[idx], Body(key, val), Times(cs - 4, idx), start, val))
  {
    hide HoldsKey, Times, Payload;
    UpdateStart(m, cs, chain, Elems(chain[Min(idx, |chain|)..]), key, val, idx, start);
    assert Body(key, val)[8 + |key|..] == val;
  }

  method UpdateRound(data: array<byte>, cs: nat, ghost n: nat, chunks: seq<nat>, i: nat, val: seq<byte>,
                     start: nat, writeVLen: nat, ghost m0: Mem, ghost to: set<nat>, ghost lo: nat, ghost b: seq<byte>)
    returns (wv: nat)
    requires Geometry(data, cs, n) && i < |chunks| && NoDup(chunks) && chunks[i] in to
    requires Fits(cs - 4, |chunks|, |b|)
    requires Progress(m0, MemOf(data, cs, n), cs, chunks, to, lo, i, b)
    requires writeVLen <= |val| && 4 <= start < cs
    requires Continues(MemOf(data, cs, n), chunks[i], b, Times(cs - 4, i), start, val[|val| - writeVLen..])
    modifies data
    ensures wv <= |val|
    ensures Progress(m0, MemOf(data, cs, n), cs, chunks, to, lo, i + 1, b)
    ensures i + 1 < |chunks| ==>
              Continues(MemOf(data, cs, n), chunks[i + 1], b, Times(cs - 4, i + 1), 4, val[|val| - wv..])
  {
    ghost var left := val[|val| - writeVLen..];
    ghost var q := Min(cs - start, |left|);
    WriteRound(m0, MemOf(data, cs, n), cs, chunks, to, lo, i, b, left, start, q);
    wv := FillVal(data, cs, n, chunks[i], start, LinkOf(chunks, i), val, writeVLen);
    assert i + 1 < |chunks| ==> val[|val| - wv..] == left[q..];
  }

  /** The update loop, from chunk `idx` to the last. */
  method UpdateLoop(data: array<byte>, cs: nat, ghost n: nat, chunks: seq<nat>, val: seq<byte>, idx: nat, start: nat,
                    ghost m0: Mem, ghost to: set<nat>, ghost b: seq<byte>)
    requires Geometry(data, cs, n) && NoDup(chunks) && idx <= |chunks| && to == Elems(chunks[idx..])
    requires Fits(cs - 4, |chunks|, |b|) && 4 <= start < cs
    requires Progress(m0, MemOf(data, cs, n), cs, chunks, to, idx, idx, b)
    requires idx < |chunks| ==> Continues(MemOf(data, cs, n), chunks[idx], b, Times(cs - 4, idx), start, val)
    modifies data
    ensures Progress(m0, MemOf(data, cs, n), cs, chunks, to, idx, |chunks|, b)
  {
    hide Progress, Continues, Times, Payload, MemOf;
    var i: nat, from: nat, wv: nat := idx, start, |val|;
    assert val == val[|val| - wv..];
    while i < |chunks|
      invariant idx <= i <= |chunks| && wv <= |val| && 4 <= from < cs
      invariant Progress(m0, MemOf(data, cs, n), cs, chunks, to, idx, i, b)
      invariant i < |chunks| ==>
                  Continues(MemOf(data, cs, n), chunks[i], b, Times(cs - 4, i), from, val[|val| - wv..])
    {
      assert chunks[i] in to by { assert chunks[idx..][i - idx] == chunks[i]; }
      wv := UpdateRound(data, cs, n, chunks, i, val, from, wv, m0, to, idx, b);
      i, from := i + 1, 4;
    }
  }

  /** Writes a new value behind the key of a node; `idx` and `start` say where its first byte goes. */
  method WriteVal(data: array<byte>, cs: nat, ghost n: nat, chunks: seq<nat>, ghost key: seq<byte>, val: seq<byte>,
                  idx: nat, start: nat)
    requires Geometry(data, cs, n) && chunks != []
    requires HoldsKey(MemOf(data, cs, n), cs, chunks, key)
    requires 4 <= start < cs && 8 + |key| == Times(cs - 4, idx) + start - 4
    requires |key| + |val| + 8 < TWO32 && Fits(cs - 4, |chunks|, 8 + |key| + |val|)
    modifies data
    ensures idx <= |chunks|
    ensures Progress(Put(old(MemOf(data, cs, n)), chunks[0], 8, Le32(|val|)), MemOf(data, cs, n), cs, chunks,
                     Elems(chunks[idx..]), idx, |chunks|, Body(key, val))
  {
    ghost var m := MemOf(data, cs, n);
    UpdateReady(m, cs, chunks, key, val, idx, start);
    CopyIn(data, cs, n, chunks[0], 8, Le32(|val|));
    UpdateLoop(data, cs, n, chunks, val, idx, start,
               Put(m, chunks[0], 8, Le32(|val|)), Elems(chunks[idx..]), Body(key, val));
  }
}
