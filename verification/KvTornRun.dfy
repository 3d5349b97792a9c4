/**
 Four stores that lead to a torn image over whose bytes a reload reads the right map: a key that fills its chunk loses
 its value, another key takes the chunk that the stale link still names, and the first key is then given the bytes of
 the other's node as its value.
 */
module KvTornRun {
  import opened Bytes
  import opened KvArena
  import opened KvNode
  import opened KvWrite
  import opened KvLru
  import opened KvSpec
  import opened KvState
  import opened KvSnap
  import opened KvUpdate
  import opened KvReload
  import opened KvOpen
  import opened KvStart
  import opened KvBuffer
  import opened KvTwins

  // ---- what the abstract buffer answers

  /** A `Set` that finds enough chunks evicts nothing. */
  lemma EnoughStores(b: Model, k: Key, v: Val)
    requires b.w > 0 && !TooLarge(b.w, b.n, 8 + |k| + |v|) && ChunksFor(b.w, 8 + |k| + |v|) <= b.free + Mine(b, k)
    ensures Set(b, k, v) == SetResult(b.(entries := [Entry(k, v)] + Without(b.entries, k),
                                         free := b.free + Mine(b, k) - ChunksFor(b.w, 8 + |k| + |v|)), Stored, [])
  {
    hide ChunksFor, Evict, Without, Has;
    var t0 := SetTrack(b, k, v);
    SetCases(b, k, v, t0);
    TrackDone(t0);
  }

  /** Up to one chunk, and up to two. */
  lemma OneOrTwo(w: nat, len: nat)
    requires 0 < w && 0 < len <= 2 * w
    ensures ChunksFor(w, len) == if len <= w then 1 else 2
  {
    if len > w { assert ChunksFor(w, len - w) == 1; }
  }

  lemma SmallFits(w: nat, n: nat, len: nat)
    requires 3 <= n && len <= 2 * w
    ensures !TooLarge(w, n, len)
  {
    assert w * n >= w * 2;
  }

  /** The first two stores in a fresh buffer, and what they leave. */
  lemma FirstTwoSets(b0: Model, a: Key, v: Val, b: Key, x: Val)
    requires b0.w > 0 && FillChunks(b0.w, a, v, b) && 1 <= |x| <= b0.w && 3 <= b0.n == b0.free && b0.entries == []
    ensures var r1 := Set(b0, b, x);
            var r2 := Set(r1.model, b, []);
            && r1.reply == Stored && r1.model.entries == [Entry(b, x)] && r1.model.free == b0.n - 2
            && r2.reply == Stored && r2.model.entries == [Entry(b, [])] && r2.model.free == b0.n - 1
  {
    hide Set, ChunksFor, TooLarge;
    var w, n := b0.w, b0.n;
    OneOrTwo(w, 8 + |b| + |x|);
    OneOrTwo(w, 8 + |b|);
    SmallFits(w, n, 8 + |b| + |x|);
    SmallFits(w, n, 8 + |b|);
    EnoughStores(b0, b, x);
    var b1 := Set(b0, b, x).model;
    assert b1.entries == [Entry(b, x)];
    OnlyEntry(b1, b, x);
    EnoughStores(b1, b, []);
  }

  /** The other two. */
  lemma LastTwoSets(b2: Model, a: Key, v: Val, b: Key)
    requires b2.w > 0 && FillChunks(b2.w, a, v, b) && 3 <= b2.n == b2.free + 1 && b2.entries == [Entry(b, [])]
    ensures var r3 := Set(b2, a, v);
            var r4 := Set(r3.model, b, Body(a, v));
            && r3.reply == Stored && r3.model.entries == [Entry(a, v), Entry(b, [])] && r3.model.free == b2.n - 2
            && r4.reply == Stored && r4.model.entries == [Entry(b, Body(a, v)), Entry(a, v)] && r4.model.free == b2.n - 3
  {
    hide Set, ChunksFor, TooLarge;
    var w, n := b2.w, b2.n;
    OneOrTwo(w, w);
    OneOrTwo(w, 8 + |b| + w);
    SmallFits(w, n, 8 + |b| + w);
    SmallFits(w, n, w);
    OtherKey(b2, b, [], a);
    EnoughStores(b2, a, v);
    var b3 := Set(b2, a, v).model;
    assert b3.entries == [Entry(a, v), Entry(b, [])];
    SecondEntry(b3, a, v, b, []);
    EnoughStores(b3, b, Body(a, v));
  }

  lemma OnlyEntry(b: Model, k: Key, u: Val)
    requires b.w > 0 && b.entries == [Entry(k, u)]
    ensures Without(b.entries, k) == [] && Mine(b, k) == ChunksFor(b.w, 8 + |k| + |u|)
  {
    hide ChunksFor;
    assert b.entries[0].key == k;
  }

  lemma OtherKey(b: Model, k: Key, u: Val, k': Key)
    requires b.w > 0 && b.entries == [Entry(k, u)] && k' != k
    ensures Without(b.entries, k') == b.entries && Mine(b, k') == 0
  {
    hide ChunksFor;
    WithoutMiss(b.entries, k');
  }

  lemma SecondEntry(b: Model, a: Key, v: Val, k: Key, u: Val)
    requires b.w > 0 && b.entries == [Entry(a, v), Entry(k, u)] && a != k
    ensures Without(b.entries, k) == [Entry(a, v)] && Mine(b, k) == ChunksFor(b.w, 8 + |k| + |u|)
  {
    hide ChunksFor;
    var es := b.entries;
    assert Distinct(es) && es[1].key == k;
    WithoutAt(es, 1);
    assert es[..1] + es[2..] == [Entry(a, v)];
  }

  // ---- where the chunks are

  /** Chunks 1 and 2 hold the first pair. */
  lemma FirstStore(s0: Snap, s1: Snap, b: Key, x: Val, n: nat)
    requires 3 <= n && s0.es == [] && s0.free == Upto(0, n) && Laid(s0, s1, b, x, 2) && b !in TornKeys(s1)
    ensures s1.es == [Entry(b, Node([1, 2], |b|, |x|))] && s1.free == Upto(2, n) && Words(s1.m, [1, 2]) == [2, 2]
  {
    hide Words, TornKeys, SameBut, Linked;
    assert s0.free[..2] == [1, 2];
    assert s0.free[2..] == Upto(2, n);
    LinkedWords(s1, 0, [1, 2]);
    assert Words(s1.m, [1, 2]) == [2, 2];
  }

  /** The link words of a chain that follows its links. */
  lemma LinkedWords(s: Snap, i: nat, chunks: seq<nat>)
    requires i < |s.es| && s.es[i].key !in TornKeys(s) && chunks == s.es[i].value.chunks
    ensures forall j :: 0 <= j < |chunks| ==> Words(s.m, chunks)[j] == LinkOf(chunks, j)
  {
    hide Words, TornKeys, Linked;
    TornSplit(s, i);
    assert Shaped(s.m, s.cs, s.es[i]) by { EntryFacts(s, i, s.cs); }
    LinkedIs(s.m, s.cs, chunks);
  }

  /** The value starts in chunk 1 of the chain, for a key that fills its first chunk. */
  lemma FillsOne(w: nat, idx: nat)
    requires w > 0 && Times(w, idx) <= w < Times(w, idx + 1)
    ensures idx == 1
  {
    assert Times(w, 1) == w;
    TimesInjective(w, 1, idx, w - Times(w, idx));
  }

  /** Chunk 2 is free again, and the link of chunk 1 still names it. */
  lemma SecondStore(s1: Snap, s2: Snap, b: Key, x: Val, n: nat)
    requires 3 <= n && s1.cs == s2.cs >= 32 && 8 + |b| == s1.cs - 4
    requires s1.es == [Entry(b, Node([1, 2], |b|, |x|))] && s1.free == Upto(2, n) && Words(s1.m, [1, 2]) == [2, 2]
    requires Laid(s1, s2, b, [], 1) && |s2.es| == 1
    ensures s2.es[0].key == b && s2.es[0].value.chunks == [1] && s2.free == Upto(1, n) && Words(s2.m, [1]) == [2]
  {
    hide Words, Times, Upto;
    assert s1.es[0].key == b;
    assert LaidAt(s1.free, [1, 2], [2, 2], s2, b, 1);
    var idx: nat :| Updated([2, 2], [1, 2], s2, b, 1, idx) && Times(s2.cs - 4, idx) <= 8 + |b| < Times(s2.cs - 4, idx + 1);
    FillsOne(s2.cs - 4, idx);
    assert [1, 2][..1] == [1] && [1, 2][1..] == [2];
    assert GiveBack(s1.free, [2]) == Insert(s1.free, 2) by { assert [2][..0] == []; }
    FrontInsert(n);
    assert Words(s2.m, [1]) == [2];
  }

  lemma FrontInsert(n: nat)
    requires 3 <= n
    ensures Insert(Upto(2, n), 2) == Upto(1, n)
  {
    assert [2] + Upto(2, n) == Upto(1, n);
  }

  /** The other key takes chunk 2, and chunk 1 keeps its link. */
  lemma ThirdStore(s2: Snap, s3: Snap, a: Key, v: Val, b: Key, n: nat)
    requires 3 <= n && a != b && |s2.es| == 1 && s2.es[0].key == b && s2.es[0].value.chunks == [1] && s2.free == Upto(1, n)
    requires Words(s2.m, [1]) == [2] && Laid(s2, s3, a, v, 1) && a !in TornKeys(s3) && s2.n == s3.n
    ensures s3.es == [Entry(a, Node([2], |a|, |v|)), s2.es[0]] && s3.free == Upto(2, n)
    ensures Words(s3.m, [1]) == [2] && Words(s3.m, [2]) == [2]
  {
    hide Words, TornKeys, Linked;
    assert !Has(s2.es, a);
    assert s2.free[..1] == [2] && s2.free[1..] == Upto(2, n);
    assert s3.es == [Entry(a, Node([2], |a|, |v|))] + s2.es;
    LinkedWords(s3, 0, [2]);
    assert Words(s3.m, [2]) == [2];
    assert 1 !in Elems([2]);
    SnapFacts(s2);
    SnapFacts(s3);
    SameWord(s2.m, s3.m, 1);
  }

  lemma SameWord(m: Mem, m': Mem, c: nat)
    requires c < |m| == |m'| && m'[c] == m[c]
    ensures Words(m', [c]) == Words(m, [c])
  {
  }

  /** The first key grows onto chunk 3; chunk 1 still links to chunk 2. */
  lemma FourthStore(s3: Snap, s4: Snap, a: Key, v: Val, b: Key, u: Val, n: nat)
    requires 3 <= n && s3.cs == s4.cs >= 32 && 8 + |b| == s3.cs - 4 && a != b
    requires |s3.es| == 2 && s3.es[0] == Entry(a, Node([2], |a|, |v|)) && s3.es[1].key == b && s3.es[1].value.chunks == [1]
    requires s3.free == Upto(2, n) && Words(s3.m, [1]) == [2] && Words(s3.m, [2]) == [2]
    requires Laid(s3, s4, b, u, 2) && KeptBut(s3, s4, b) && |s4.es| == 2 && s4.es[1].key == a
    ensures s4.es[0].key == b && s4.es[0].value.chunks == [1, 3] && s4.es[1] == s3.es[0] && s4.free == Upto(3, n)
    ensures Words(s4.m, [1, 3]) == [2, 3] && Words(s4.m, [2]) == [2]
  {
    hide Words, Times, TornKeys, Upto;
    assert LaidAt(s3.free, [1], [2], s4, b, 2) by { assert s3.es[1].key == b; }
    var idx: nat :| Updated([2], [1], s4, b, 2, idx) && Times(s4.cs - 4, idx) <= 8 + |b| < Times(s4.cs - 4, idx + 1);
    FillsOne(s4.cs - 4, idx);
    NextFree(n);
    assert [1] + [3] == [1, 3];
    assert Words(s4.m, [1, 3]) == [2, 3];
    ChainIn(s4, 1);
    var j := PlaceOfPair(s3, (s4.es[1], Words(s4.m, s4.es[1].value.chunks)));
  }

  lemma NextFree(n: nat)
    requires 3 <= n
    ensures Upto(2, n)[..1] == [3] && Upto(2, n)[1..] == Upto(3, n)
  {
  }

  // ---- the image

  /** A block is its link word and its payload. */
  lemma BlockIs(m: Mem, cs: nat, c: nat, word: nat, body: seq<byte>)
    requires MemOk(m, cs) && 1 <= c < |m| && Next(m, c) == word && m[c][4..] == body
    ensures m[c] == Le32(word) + body
  {
    Le32OfU32(m[c][..4]);
    assert m[c] == m[c][..4] + m[c][4..];
  }

  /** What the payloads of the three chunks are. */
  lemma PayloadsAre(s: Snap, a: Key, v: Val, b: Key)
    requires s.cs >= 32 && FillChunks(s.cs - 4, a, v, b) && |s.es| == 2 && MemOk(s.m, s.cs) && 4 <= |s.m|
    requires s.es[0].key == b && s.es[0].value.chunks == [1, 3] && s.es[1].key == a && s.es[1].value.chunks == [2]
    requires Seen(s) == [Entry(b, Body(a, v)), Entry(a, v)]
    ensures s.m[1][4..] == Le32(|b|) + Le32(s.cs - 4) + b && s.m[2][4..] == Body(a, v) && s.m[3][4..] == Body(a, v)
  {
    hide Payload, Le32, Seen, Tidy, Words;
    var w := s.cs - 4;
    EntryFacts(s, 0, s.cs);
    EntryFacts(s, 1, s.cs);
    PayloadOne(s.m, s.cs, 2);
    PayloadTwo(s.m, s.cs, 1, 3);
    var p, q := Payload(s.m, s.cs, [1, 3]), Payload(s.m, s.cs, [2]);
    assert Body(b, Body(a, v)) <= p && |Body(b, Body(a, v))| == 2 * w == |p|;
    assert Body(a, v) <= q && |Body(a, v)| == w == |q|;
    assert p == Body(b, Body(a, v)) == Le32(|b|) + Le32(w) + b + Body(a, v);
    assert s.m[1][4..] == p[..w] && s.m[3][4..] == p[w..];
  }

  /** The image the four stores leave is the one that has two readings. */
  lemma ImageIs(s: Snap, a: Key, v: Val, b: Key, n: nat)
    requires s.cs >= 32 && FillChunks(s.cs - 4, a, v, b) && |s.es| == 2 && s.open == multiset{} && s.n == n >= 3
    requires s.es[0].key == b && s.es[0].value.chunks == [1, 3] && s.es[1].key == a && s.es[1].value.chunks == [2]
    requires Seen(s) == [Entry(b, Body(a, v)), Entry(a, v)] && s.free == Upto(3, n)
    requires Words(s.m, [1, 3]) == [2, 3] && Words(s.m, [2]) == [2]
    ensures |s.m| == n + 1 && |s.m[0]| == HEADER && Unused(s.cs - 4, s.m[4..])
    ensures s.m == TwinImage(s.m[0], s.cs - 4, a, v, b, s.m[4..])
  {
    hide Words, Seen, Body, Le32;
    SnapFacts(s);
    PayloadsAre(s, a, v, b);
    ThreeWords(s.m, s.cs);
    BlockIs(s.m, s.cs, 1, 2, Le32(|b|) + Le32(s.cs - 4) + b);
    BlockIs(s.m, s.cs, 2, 2, Body(a, v));
    BlockIs(s.m, s.cs, 3, 3, Body(a, v));
    var more := s.m[4..];
    forall i | 0 <= i < |more| ensures |more[i]| == s.cs && more[i][..4] == Le32(0) {
      FreeLink(s, n, i + 4);
    }
    assert 4 + |more| < TWO32 by { assert Unfold(0); }
    assert s.m == [s.m[0], s.m[1], s.m[2], s.m[3]] + more;
  }

  lemma ThreeWords(m: Mem, cs: nat)
    requires MemOk(m, cs) && 4 <= |m| && Words(m, [1, 3]) == [2, 3] && Words(m, [2]) == [2]
    ensures Next(m, 1) == 2 && Next(m, 2) == 2 && Next(m, 3) == 3
  {
    assert Words(m, [1, 3])[0] == Next(m, 1) && Words(m, [1, 3])[1] == Next(m, 3) && Words(m, [2])[0] == Next(m, 2);
  }

  /** Chunks of the free list have the link word 0. */
  lemma FreeLink(s: Snap, n: nat, c: nat)
    requires s.open == multiset{} && s.n == n >= 3 && s.free == Upto(3, n) && 4 <= c <= n
    ensures c < |s.m| && |s.m[c]| == s.cs >= 32 && s.m[c][..4] == Le32(0)
  {
    assert Unfold(0);
    assert s.free[c - 4] == c;
    PartitionApart(s.n, s.free, s.open, Owned(s.es), s.whole, c);
    Le32OfU32(s.m[c][..4]);
  }

  // ---- the run

  lemma RoomForThree(cs: nat, len: nat)
    requires 32 <= cs && HEADER + 3 * cs <= len
    ensures 3 <= Whole(cs, len - HEADER)
  {
    assert Times(cs, 3) == Times(cs, 2) + cs && Times(cs, 2) == Times(cs, 1) + cs && Times(cs, 1) == cs;
    WholeIs(cs, len - HEADER, 3);
  }

  /** A new key follows its links. */
  lemma NewLinks(s: Snap, b: Model, k: Key, v: Val, h: Health)
    requires b.w > 0 && !Has(s.es, k) && Seen(s) == b.entries && Goes(HealthOf(s, k), Stale(b, k, v), v, h)
    ensures h == Linking
  {
    hide TornKeys, GrownKeys, Seen;
    NotTorn(s, k);
    SeenHas(s, k);
  }

  /** The first two stores: chunk 2 is free and chunk 1 links to it. */
  method StoreTwice(buf: KVBuffer, a: Key, v: Val, b: Key, x: Val)
    requires buf.Valid() && buf.s.es == [] && buf.freeChunk == Upto(0, buf.n) && 3 <= buf.n && buf.cs >= 32
    requires FillChunks(buf.cs - 4, a, v, b) && 1 <= |x| <= buf.cs - 4
    modifies buf`freeChunk, buf`s, buf.data, buf.lru
    ensures buf.Valid() && Seen(buf.s) == [Entry(b, [])] && |buf.s.es| == 1 && buf.s.es[0].value.chunks == [1]
    ensures buf.s.es[0].key == b && buf.s.free == Upto(1, buf.n) && Words(buf.s.m, [1]) == [2]
  {
    hide MemOf, Seen, InSync, KvSpec.Set, TornKeys, GrownKeys, KeptBut, Laid, Words, Goes, ChunksFor, Stale, Upto;
    ghost var w, n, s0, b0 := buf.cs - 4, buf.n, buf.s, buf.Abstract();
    FirstTwoSets(b0, a, v, b, x);
    OneOrTwo(w, 8 + |b| + |x|);
    OneOrTwo(w, 8 + |b|);
    var reply, calls := buf.Set(b, x);
    ghost var s1 := buf.s;
    NewLinks(s0, b0, b, x, HealthOf(s1, b));
    FirstStore(s0, s1, b, x, n);
    reply, calls := buf.Set(b, []);
    SecondStore(s1, buf.s, b, x, n);
  }

  /** The other two: the chain of `b` goes on in chunk 3, and its link leads to the chunk of `a`. */
  method StoreAgainTwice(buf: KVBuffer, a: Key, v: Val, b: Key)
    requires buf.Valid() && Seen(buf.s) == [Entry(b, [])] && |buf.s.es| == 1 && buf.s.es[0].value.chunks == [1]
    requires buf.s.es[0].key == b && buf.s.free == Upto(1, buf.n) && Words(buf.s.m, [1]) == [2] && 3 <= buf.n && buf.cs >= 32
    requires FillChunks(buf.cs - 4, a, v, b)
    modifies buf`freeChunk, buf`s, buf.data, buf.lru
    ensures buf.Valid() && Seen(buf.s) == [Entry(b, Body(a, v)), Entry(a, v)] && |buf.s.es| == 2 && buf.s.free == Upto(3, buf.n)
    ensures buf.s.es[0].key == b && buf.s.es[0].value.chunks == [1, 3]
    ensures buf.s.es[1].key == a && buf.s.es[1].value.chunks == [2]
    ensures Words(buf.s.m, [1, 3]) == [2, 3] && Words(buf.s.m, [2]) == [2]
  {
    hide MemOf, Seen, InSync, KvSpec.Set, TornKeys, GrownKeys, KeptBut, Laid, Words, Goes, ChunksFor, Stale, Upto;
    ghost var w, n, s2, b2 := buf.cs - 4, buf.n, buf.s, buf.Abstract();
    LastTwoSets(b2, a, v, b);
    OneOrTwo(w, w);
    OneOrTwo(w, 8 + |b| + w);
    var reply, calls := buf.Set(a, v);
    ghost var s3 := buf.s;
    assert s2.es[0].key != a;
    NewLinks(s2, b2, a, v, HealthOf(s3, a));
    ThirdStore(s2, s3, a, v, b, n);
    var u := Body(a, v);
    reply, calls := buf.Set(b, u);
    FourthStore(s3, buf.s, a, v, b, u, n);
  }

  /** The chain of the newest entry does not follow its links. */
  lemma TornStill(s: Snap)
    requires |s.es| == 2 && s.es[0].value.chunks == [1, 3] && Words(s.m, [1, 3]) == [2, 3]
    ensures !InSync(s)
  {
    hide Words;
    assert Shaped(s.m, s.cs, s.es[0]) by { EntryFacts(s, 0, s.cs); }
    LinkedIs(s.m, s.cs, [1, 3]);
    assert Words(s.m, [1, 3])[0] != LinkOf([1, 3], 0);
  }

  /** The other reading of the image the four stores leave. */
  lemma FindTwin(s: Snap, a: Key, v: Val, b: Key) returns (twin: Snap)
    requires s.cs >= 32 && FillChunks(s.cs - 4, a, v, b) && |s.es| == 2 && s.open == multiset{} && s.n >= 3
    requires s.es[0].key == b && s.es[0].value.chunks == [1, 3] && s.es[1].key == a && s.es[1].value.chunks == [2]
    requires Seen(s) == [Entry(b, Body(a, v)), Entry(a, v)] && s.free == Upto(3, s.n)
    requires Words(s.m, [1, 3]) == [2, 3] && Words(s.m, [2]) == [2]
    ensures Twin(s, twin) && Seen(twin) == Seen(s) && !InSync(s)
  {
    hide Seen, InSync, Words, Body, TwinImage, Unused, Upto;
    ImageIs(s, a, v, b, s.n);
    TornStill(s);
    assert s.m[0] == s.cfg.header && |s.m| == s.n + 1 by { assert Unfold(0); }
    var t;
    t, twin := TornWithTwin(s.m[0], s.cs - 4, a, v, b, s.m[4..], s.whole);
  }

  /**
   In any fresh array with room for three chunks, for all keys and values of fitting sizes: after the four stores the
   image is torn, and a restart over it still gives the map that was stored.
   */
  method TornAndRight(data: array<byte>, chunkSize: nat, a: Key, v: Val, b: Key, x: Val, openLru: bool, onLruDel: bool)
    returns (buf: KVBuffer, r: OpenResult)
    requires 1024 <= data.Length < TWO32 && 32 <= chunkSize && HEADER + 3 * chunkSize <= data.Length && !Inited(data[..])
    requires FillChunks(chunkSize - 4, a, v, b) && 1 <= |x| <= chunkSize - 4
    modifies data
    ensures buf.Valid() && buf.data == data && buf.Abstract().entries == [Entry(b, Body(a, v)), Entry(a, v)] && !InSync(buf.s)
    ensures r.Opened? && r.buf.Valid() && AsMap(r.buf.Abstract().entries) == AsMap(buf.Abstract().entries)
  {
    hide MemOf, Seen, InSync, Words, Body, AsMap, Whole, HeaderOf, Upto, Reopened, FillChunks, Twin;
    RoomForThree(chunkSize, data.Length);
    var o := Open(data, chunkSize, openLru, onLruDel, None);
    buf := o.buf;
    StoreTwice(buf, a, v, b, x);
    StoreAgainTwice(buf, a, v, b);
    ghost var twin := FindTwin(buf.s, a, v, b);
    r := RestartTwin(buf, twin, [], openLru, onLruDel);
  }
}
