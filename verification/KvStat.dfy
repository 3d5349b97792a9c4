/**
 Counting chunks and bytes: every buffer satisfies the chunk account of the abstract one, and `Stat` adds up.
 Its percentage is a real number, where the program rounds.
 */
module KvStat {
  import opened Bytes
  import opened KvArena
  import opened KvNode
  import opened KvLru
  import opened KvSpec
  import opened KvState
  import opened KvSnap
  import opened KvBuffer
  import opened KvTheorems

  // ---- the chunk account of a real buffer

  /** Owned chunks and cost of one entry more. */
  lemma OwnedTotalStep(s: Snap, i: nat)
    requires i < |s.es| && s.cs > 4
    ensures |Owned(s.es[..i + 1])| == |Owned(s.es[..i])| + |s.es[i].value.chunks|
    ensures Total(s.cs - 4, Seen(s)[..i + 1]) == Total(s.cs - 4, Seen(s)[..i]) + |s.es[i].value.chunks|
  {
    hide Seen, Owned, Total, Cost;
    assert s.es[..i + 1] == s.es[..i] + [s.es[i]] && Seen(s)[..i + 1] == Seen(s)[..i] + [Seen(s)[i]];
    OwnedSnoc(s.es[..i], s.es[i]);
    TotalSnoc(s.cs - 4, Seen(s)[..i], Seen(s)[i]);
    EntryFacts(s, i, s.cs);
  }

  /** Entries hold as many chunks as they cost. */
  lemma {:induction false} OwnedTotal(s: Snap, i: nat)
    requires i <= |s.es| && s.cs > 4
    ensures |Owned(s.es[..i])| == Total(s.cs - 4, Seen(s)[..i])
  {
    if i > 0 {
      hide Seen, Owned, Total;
      OwnedTotal(s, i - 1);
      OwnedTotalStep(s, i - 1);
    }
  }

  /** In every state the free chunks, those in hand and those of the entries fit the arena; with eviction they fill it. */
  lemma Account(s: Snap)
    ensures s.cs > 4 && |s.free| + |s.open| + Total(s.cs - 4, Seen(s)) <= s.n
    ensures s.whole ==> |s.free| + |s.open| + Total(s.cs - 4, Seen(s)) == s.n
  {
    hide Seen, Owned, Total, NodesOk, ZeroWhenUnowned, Partition, Ascending;
    assert s.cs > 4 && Partition(s.n, s.free, s.open, Owned(s.es), s.whole) by { assert Unfold(0); }
    OwnedTotal(s, |s.es|);
    assert s.es[..|s.es|] == s.es && Seen(s)[..|s.es|] == Seen(s);
    AccountBag(s.n, s.free, s.open, Owned(s.es), s.whole);
  }

  lemma AccountBag(n: nat, free: seq<nat>, open: multiset<nat>, owned: multiset<nat>, whole: bool)
    requires Partition(n, free, open, owned, whole)
    ensures |free| + |open| + |owned| <= n && (whole ==> |free| + |open| + |owned| == n)
  {
    var all := multiset(free) + open + owned;
    assert |all| == |free| + |open| + |owned|;
    BagFits(all, All(n));
  }

  /** The abstract value of a buffer satisfies the abstract invariant, so all theorems about runs apply to it. */
  lemma AbstractOk(buf: KVBuffer)
    requires buf.Valid()
    ensures buf.Abstract().Ok()
  {
    hide Seen;
    SnapFacts(buf.s);
    Account(buf.s);
  }

  // ---- Stat

  /** The bytes an entry uses: sizes, key, value and the link words of its chunks. */
  function Used(w: nat, e: Pair): nat
    requires w > 0
  {
    |e.key| + |e.value| + 8 + 4 * Cost(w, e)
  }

  /** The bytes of its chunks that it does not use. */
  function Waste(w: nat, e: Pair): int
    requires w > 0
  {
    Cost(w, e) * (w + 4) - Used(w, e)
  }

  function SumUsed(w: nat, es: seq<Pair>): nat
    requires w > 0
  {
    if es == [] then 0 else SumUsed(w, es[..|es| - 1]) + Used(w, es[|es| - 1])
  }

  function SumWaste(w: nat, es: seq<Pair>): int
    requires w > 0
  {
    if es == [] then 0 else SumWaste(w, es[..|es| - 1]) + Waste(w, es[|es| - 1])
  }

  /** The chunk count is the exact ceiling: an entry never wastes a whole payload. */
  lemma WasteBounds(w: nat, e: Pair)
    requires w > 0
    ensures 0 <= Waste(w, e) < w
  {
    var len := 8 + |e.key| + |e.value|;
    ChunksForFits(w, len);
    var c := ChunksFor(w, len);
    TimesIsProduct(w, c);
    TimesIsProduct(w, c - 1);
    assert w * (c - 1) == w * c - w;
    assert c * (w + 4) == w * c + 4 * c;
  }

  /** Used and wasted bytes together are all bytes of the chunks in use. */
  lemma {:induction false} SumsToChunks(w: nat, es: seq<Pair>)
    requires w > 0
    ensures SumUsed(w, es) + SumWaste(w, es) == Total(w, es) * (w + 4)
    decreases |es|
  {
    if es != [] {
      var k := |es| - 1;
      SumsToChunks(w, es[..k]);
      var t, c := Total(w, es[..k]), Cost(w, es[k]);
      assert (t + c) * (w + 4) == t * (w + 4) + c * (w + 4);
    }
  }

  /** Every entry uses some bytes, and none wastes less than nothing. */
  lemma {:induction false} SumSigns(w: nat, es: seq<Pair>)
    requires w > 0
    ensures SumWaste(w, es) >= 0 && (es != [] ==> SumUsed(w, es) > 0)
    decreases |es|
  {
    hide Waste;
    if es != [] {
      SumSigns(w, es[..|es| - 1]);
      WasteBounds(w, es[|es| - 1]);
    }
  }

  /** The percentage `avalidUsePer` is not a number for an empty buffer. */
  datatype BufferStat = BufferStat(freeChunkNum: nat, usedChunkNum: int, freeDataSize: int, usedDataSize: int,
                                   canotUseSize: int, kvCount: nat, avgKVUseChunk: int, avgKVUseSize: int,
                                   avalidUsePer: Option<real>)

  /** Adds one entry. */
  method CountOne(buf: KVBuffer, i: nat, used: int, waste: int) returns (used': int, waste': int)
    requires buf.Valid() && i < |buf.lru.evictList|
    requires used == SumUsed(buf.cs - 4, buf.Abstract().entries[..i])
    requires waste == SumWaste(buf.cs - 4, buf.Abstract().entries[..i])
    ensures used' == SumUsed(buf.cs - 4, buf.Abstract().entries[..i + 1])
    ensures waste' == SumWaste(buf.cs - 4, buf.Abstract().entries[..i + 1])
  {
    hide SumUsed, SumWaste, Used, Waste;
    SumsMore(buf.cs - 4, buf.Abstract().entries, i);
    OneEntry(buf, i);
    var node := buf.lru.evictList[i].value;
    var one := node.keySize + node.valSize + 8 + |node.chunks| * 4;
    used' := used + one;
    waste' := waste + |node.chunks| * buf.cs - one;
  }

  lemma SumsMore(w: nat, es: seq<Pair>, i: nat)
    requires w > 0 && i < |es|
    ensures SumUsed(w, es[..i + 1]) == SumUsed(w, es[..i]) + Used(w, es[i])
    ensures SumWaste(w, es[..i + 1]) == SumWaste(w, es[..i]) + Waste(w, es[i])
  {
    hide Used, Waste;
    assert es[..i + 1][..i] == es[..i];
  }

  /** What an entry uses and wastes, by the sizes in its node. */
  lemma OneEntry(buf: KVBuffer, i: nat)
    requires buf.Valid() && i < |buf.lru.evictList|
    ensures var node, w, e := buf.lru.evictList[i].value, buf.cs - 4, buf.Abstract().entries[i];
            var one := node.keySize + node.valSize + 8 + |node.chunks| * 4;
            one == Used(w, e) && |node.chunks| * buf.cs - one == Waste(w, e)
  {
    hide Cost;
    EntryFacts(buf.s, i, buf.cs);
  }

  method Stat(buf: KVBuffer) returns (st: BufferStat)
    requires buf.Valid()
    ensures var b := buf.Abstract();
            && st.freeChunkNum == b.free && st.usedChunkNum == b.n - b.free && st.kvCount == |b.entries|
            && st.usedDataSize == SumUsed(b.w, b.entries) && st.canotUseSize == SumWaste(b.w, b.entries)
            && (b.lru ==> st.usedDataSize + st.canotUseSize == st.usedChunkNum * buf.cs)
            && (st.kvCount == 0 ==> st.avgKVUseChunk == 0 && st.avgKVUseSize == 0)
            && (st.kvCount > 0 ==> st.avgKVUseChunk == st.usedChunkNum / st.kvCount)
            && (st.kvCount > 0 ==> st.avgKVUseSize == st.usedDataSize / st.kvCount)
    ensures st.freeDataSize == st.canotUseSize + st.freeChunkNum * ((buf.n - 4) % TWO32)
    ensures st.freeDataSize == st.canotUseSize + st.freeChunkNum * (buf.cs - 4) <==> st.freeChunkNum == 0 || buf.n == buf.cs
    ensures st.avalidUsePer.Some? <==> st.kvCount > 0
    ensures st.kvCount > 0 ==> Share(st.avalidUsePer.value, st.usedDataSize, st.canotUseSize)
  {
    hide Share, SumUsed, SumWaste, Total, KVBuffer.Agrees, Seen;
    AbstractOk(buf);
    var used, waste := SumUp(buf);
    var free, kv := |buf.freeChunk|, |buf.lru.evictList|;
    var per := Percent(used, waste, kv);
    FreeSize(buf, free);
    AllCounted(buf);
    st := BufferStat(free, buf.n - free, waste + free * ((buf.n - 4) % TWO32), used, waste, kv,
                     if kv > 0 then (buf.n - free) / kv else 0, if kv > 0 then used / kv else 0, per);
  }

  /** With eviction all chunks that are not free are paid for. */
  lemma AllCounted(buf: KVBuffer)
    requires buf.Valid()
    ensures var b := buf.Abstract();
            |buf.freeChunk| == b.free && |buf.lru.evictList| == |b.entries|
            && (b.lru ==> Total(b.w, b.entries) * (b.w + 4) == (b.n - b.free) * buf.cs)
  {
    hide Seen, Total;
    AbstractOk(buf);
  }

  /** The sums over all entries. */
  method SumUp(buf: KVBuffer) returns (used: int, waste: int)
    requires buf.Valid()
    ensures var b := buf.Abstract();
            && used == SumUsed(b.w, b.entries) && waste == SumWaste(b.w, b.entries) && waste >= 0
            && (|buf.lru.evictList| > 0 ==> used > 0) && used + waste == Total(b.w, b.entries) * (b.w + 4)
  {
    hide SumUsed, SumWaste, Total;
    ghost var es := buf.Abstract().entries;
    used, waste := 0, 0;
    SumsEmpty(buf.cs - 4, es);
    for i := 0 to |buf.lru.evictList|
      invariant used == SumUsed(buf.cs - 4, es[..i]) && waste == SumWaste(buf.cs - 4, es[..i])
    {
      used, waste := CountOne(buf, i, used, waste);
    }
    assert es[..|es|] == es;
    SumsToChunks(buf.cs - 4, es);
    SumSigns(buf.cs - 4, es);
  }

  /** `per` percent of the bytes of the chunks in use are used. */
  ghost predicate Share(per: real, used: int, waste: int)
  {
    0.0 < per <= 100.0 && per * (used + waste) as real == 100.0 * used as real
  }

  /** The share of the used bytes in all bytes of the chunks in use. */
  method Percent(used: int, waste: int, kv: nat) returns (per: Option<real>)
    requires waste >= 0 && (kv > 0 ==> used > 0)
    ensures per.Some? <==> kv > 0
    ensures kv > 0 ==> Share(per.value, used, waste)
  {
    if kv == 0 { return None; }
    var u, all := used as real, (used + waste) as real;
    var p := u / all * 100.0;
    assert p * all == u / all * all * 100.0 == 100.0 * u;
    assert p > 0.0 && (100.0 - p) * all == 100.0 * (all - u) >= 0.0;
    per := Some(p);
  }

  lemma SizesBelow(buf: KVBuffer)
    requires buf.Valid()
    ensures 1 <= buf.n < TWO32 && 32 <= buf.cs < TWO32 && ((buf.n - 4) % TWO32 == buf.cs - 4 <==> buf.n == buf.cs)
  {
    hide MemOf;
    SnapFacts(buf.s);
    GeometryBounds(buf.data, buf.cs, buf.n);
  }

  lemma SameProduct(k: nat, x: int, y: int)
    ensures k * x == k * y <==> k == 0 || x == y
  {
    assert k * x - k * y == k * (x - y);
  }

  /** The program takes the number of chunks for the size of a chunk. */
  lemma FreeSize(buf: KVBuffer, free: nat)
    requires buf.Valid()
    ensures free * ((buf.n - 4) % TWO32) == free * (buf.cs - 4) <==> free == 0 || buf.n == buf.cs
  {
    SizesBelow(buf);
    SameProduct(free, (buf.n - 4) % TWO32, buf.cs - 4);
  }

  lemma SumsEmpty(w: nat, es: seq<Pair>)
    requires w > 0
    ensures SumUsed(w, es[..0]) == 0 && SumWaste(w, es[..0]) == 0
  {
  }

  // ---- a failed update, on a concrete input

  /** Sixteen chunks of 32 bytes. */
  function Sixteen(lru: bool, entries: seq<Pair>, free: nat): Model { Model(28, 16, lru, false, entries, free) }

  function Zeros(k: nat): (r: seq<byte>)
    ensures |r| == k
  {
    seq(k, i => 0)
  }

  /** Without eviction an update that does not fit gives up the chunks it had taken. */
  lemma FailedUpdateLeaks()
    ensures var k, j := Zeros(1), Zeros(2);
            var b := Sixteen(false, [Entry(k, []), Entry(j, Zeros(200))], 7);
            Set(b, k, Zeros(300)).reply == Full && Set(b, k, Zeros(300)).model.free == 0
  {
    var k, j := Zeros(1), Zeros(2);
    var es: seq<Pair> := [Entry(k, []), Entry(j, Zeros(200))];
    assert es[0].key == k && Lookup(es, k) == [];
    ChunksForIsQuotient(28, 309);
    ChunksForIsQuotient(28, 9);
    assert 309 / 28 == 11 && 309 % 28 == 1 && 9 / 28 == 0 && 9 % 28 == 9;
  }
}
