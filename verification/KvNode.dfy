/**
 Raw access to the flat array, and the three readers of a node: key, value position, value.
 A slice expression that the program would index out of range is the explicit outcome `Panic`.
 */
module KvNode {
  import opened Bytes
  import opened KvArena

  datatype Outcome<T> = Done(value: T) | Panic

  /** A node as the index keeps it: the chunks that hold it and the two sizes. */
  datatype Node = Node(chunks: seq<nat>, keySize: nat, valSize: nat)

  ghost predicate Geometry(data: array<byte>, cs: nat, n: nat)
  {
    32 <= cs && 1 <= n && HEADER + Times(cs, n) <= data.Length < TWO32
  }

  lemma {:induction false} CountFits(cs: nat, n: nat)
    requires 32 <= cs
    ensures n + 1 <= HEADER + Times(cs, n)
    ensures n > 0 ==> cs <= Times(cs, n)
  {
    if n > 0 { CountFits(cs, n - 1); }
  }

  lemma GeometryBounds(data: array<byte>, cs: nat, n: nat)
    requires Geometry(data, cs, n)
    ensures cs < TWO32 && n + 1 < TWO32
  {
    CountFits(cs, n);
  }

  ghost function MemOf(data: array<byte>, cs: nat, n: nat): (m: Mem)
    requires Geometry(data, cs, n)
    reads data
    ensures MemOk(m, cs) && |m| == n + 1 < TWO32
  {
    GeometryBounds(data, cs, n);
    BlocksOk(data[..], cs, n);
    Blocks(data[..], cs, n)
  }

  lemma SameArray(data: array<byte>, a: nat, b: nat, lo: nat, hi: nat)
    requires a + lo <= a + hi <= b <= data.Length
    ensures data[..][a..b][lo..hi] == data[a + lo..a + hi]
  {
    var left, right := data[..][a..b][lo..hi], data[a + lo..a + hi];
    assert |left| == |right|;
    forall i | 0 <= i < |left| ensures left[i] == right[i] {}
  }

  /** Bytes `lo..hi` of block `i`. */
  method Slice(data: array<byte>, cs: nat, ghost n: nat, i: nat, lo: nat, hi: nat) returns (r: seq<byte>)
    requires Geometry(data, cs, n)
    requires i <= n && lo <= hi <= Size(cs, i)
    ensures |MemOf(data, cs, n)[i]| == Size(cs, i)
    ensures r == MemOf(data, cs, n)[i][lo..hi]
  {
    hide Blocks, Times;
    BlockIs(data[..], cs, n, i);
    SameArray(data, Start(cs, i), Start(cs, i) + Size(cs, i), lo, hi);
    r := data[Start(cs, i) + lo..Start(cs, i) + hi];
  }

  method ReadWord(data: array<byte>, cs: nat, ghost n: nat, i: nat, o: nat) returns (v: nat)
    requires Geometry(data, cs, n)
    requires i <= n && o + 4 <= Size(cs, i)
    ensures |MemOf(data, cs, n)[i]| == Size(cs, i)
    ensures v == U32(MemOf(data, cs, n)[i][o..o + 4])
  {
    var s := Slice(data, cs, n, i, o, o + 4);
    v := U32(s);
  }

  /** `copy` into block `i` at offset `o`. */
  method CopyIn(data: array<byte>, cs: nat, ghost n: nat, i: nat, o: nat, t: seq<byte>)
    requires Geometry(data, cs, n)
    requires i <= n && o + |t| <= Size(cs, i)
    modifies data
    ensures |old(MemOf(data, cs, n))[i]| == Size(cs, i)
    ensures MemOf(data, cs, n) == Put(old(MemOf(data, cs, n)), i, o, t)
  {
    ghost var s := data[..];
    BlocksSplice(s, cs, n, i, o, t);
    var p := Start(cs, i) + o;
    forall k | 0 <= k < |t| {
      data[p + k] := t[k];
    }
    assert data[..] == Splice(s, p, t);
  }

  method GetKey(data: array<byte>, cs: nat, ghost n: nat, node: Node) returns (r: Outcome<seq<byte>>)
    requires Geometry(data, cs, n)
    requires node.chunks != [] && InRange(MemOf(data, cs, n), node.chunks)
    ensures r == if 8 + node.keySize <= Times(cs - 4, |node.chunks|)
                 then Done(Payload(MemOf(data, cs, n), cs, node.chunks)[8..8 + node.keySize])
                 else Panic
  {
    ghost var m := MemOf(data, cs, n);
    var chunks := node.chunks;
    assert Times(cs - 4, 1) == cs - 4;
    if node.keySize <= cs - 12 {
      PayloadPiece(m, cs, chunks, 0, 8, 8 + node.keySize);
      var s := Slice(data, cs, n, chunks[0], 12, 12 + node.keySize);
      return Done(s);
    }
    PayloadPiece(m, cs, chunks, 0, 8, cs - 4);
    var key := Slice(data, cs, n, chunks[0], 12, cs);
    r := ReadTail(data, cs, n, chunks, 1, node.keySize + 12 - cs, 8, key);
  }

  /** Chunk number and offset in it of the first value byte. */
  method GetValPos(cs: nat, node: Node) returns (idx: nat, start: nat)
    requires 32 <= cs
    ensures 4 <= start < cs
    ensures 8 + node.keySize == Times(cs - 4, idx) + (start - 4)
  {
    if node.keySize < cs - 12 {
      idx, start := 0, 12 + node.keySize;
    } else {
      var rest := node.keySize + 12 - cs;
      idx := 1;
      assert Times(cs - 4, 1) == cs - 4;
      while rest >= cs - 4
        invariant rest >= 0
        invariant 8 + node.keySize == Times(cs - 4, idx) + rest
        decreases rest
      {
        idx := idx + 1;
        rest := rest - (cs - 4);
      }
      start := rest + 4;
    }
  }

  method GetVal(data: array<byte>, cs: nat, ghost n: nat, node: Node) returns (r: Outcome<seq<byte>>)
    requires Geometry(data, cs, n)
    requires node.chunks != [] && InRange(MemOf(data, cs, n), node.chunks)
    ensures r == if 8 + node.keySize + node.valSize <= Times(cs - 4, |node.chunks|)
                    && 8 + node.keySize < Times(cs - 4, |node.chunks|)
                 then Done(Payload(MemOf(data, cs, n), cs, node.chunks)
                           [8 + node.keySize..8 + node.keySize + node.valSize])
                 else Panic
  {
    hide Payload, Blocks, Times, MemOf;
    ghost var m := MemOf(data, cs, n);
    var chunks := node.chunks;
    var idx, start := GetValPos(cs, node);
    TimesStep(cs - 4, idx);
    if idx >= |chunks| {
      TimesMono(cs - 4, |chunks|, idx);
      return Panic;
    }
    if node.valSize <= cs - start {
      PayloadPiece(m, cs, chunks, idx, start - 4, start - 4 + node.valSize);
      var s := Slice(data, cs, n, chunks[idx], start, start + node.valSize);
      return Done(s);
    }
    PayloadPiece(m, cs, chunks, idx, start - 4, cs - 4);
    var val := Slice(data, cs, n, chunks[idx], start, cs);
    r := ReadTail(data, cs, n, chunks, idx + 1, node.valSize + start - cs, 8 + node.keySize, val);
  }

  /** Appends the first `len` payload bytes of chunk `idx` to what was read up to there. */
  method ReadPart(data: array<byte>, cs: nat, ghost n: nat, chunks: seq<nat>, idx: nat, len: nat, ghost m: Mem,
                  ghost from: nat, got: seq<byte>) returns (r: seq<byte>)
    requires Geometry(data, cs, n) && m == MemOf(data, cs, n) && InRange(m, chunks)
    requires idx < |chunks| && len <= cs - 4 && from <= Times(cs - 4, idx) <= Times(cs - 4, |chunks|)
    requires got == Payload(m, cs, chunks)[from..Times(cs - 4, idx)]
    ensures Times(cs - 4, idx) + cs - 4 <= Times(cs - 4, |chunks|)
    ensures r == Payload(m, cs, chunks)[from..Times(cs - 4, idx) + len]
  {
    hide Payload, Times, Blocks;
    PayloadPiece(m, cs, chunks, idx, 0, len);
    var s := Slice(data, cs, n, chunks[idx], 4, 4 + len);
    r := got + s;
  }

  /** The loop both readers end with: whole chunks while they are needed, then a part of one. */
  method ReadTail(data: array<byte>, cs: nat, ghost n: nat, chunks: seq<nat>,
                  first: nat, more: nat, ghost from: nat, got: seq<byte>) returns (r: Outcome<seq<byte>>)
    requires Geometry(data, cs, n) && InRange(MemOf(data, cs, n), chunks)
    requires first <= |chunks| && from <= Times(cs - 4, first) <= Times(cs - 4, |chunks|)
    requires more > 0
    requires got == Payload(MemOf(data, cs, n), cs, chunks)[from..Times(cs - 4, first)]
    ensures r == if Times(cs - 4, first) + more <= Times(cs - 4, |chunks|)
                 then Done(Payload(MemOf(data, cs, n), cs, chunks)[from..Times(cs - 4, first) + more])
                 else Panic
  {
    hide Payload, Blocks, MemOf;
    ghost var m := MemOf(data, cs, n);
    var val, idx, rest := got, first, more;
    while rest >= cs - 4
      invariant first <= idx <= |chunks| && rest >= 0
      invariant Times(cs - 4, first) + more == Times(cs - 4, idx) + rest
      invariant from <= Times(cs - 4, idx) <= Times(cs - 4, |chunks|)
      invariant val == Payload(m, cs, chunks)[from..Times(cs - 4, idx)]
      decreases rest
    {
      if idx >= |chunks| { return Panic; }
      val := ReadPart(data, cs, n, chunks, idx, cs - 4, m, from, val);
      idx := idx + 1;
      rest := rest - (cs - 4);
    }
    if rest > 0 {
      if idx >= |chunks| { return Panic; }
      val := ReadPart(data, cs, n, chunks, idx, rest, m, from, val);
    }
    r := Done(val);
  }
}
