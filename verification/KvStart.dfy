/**
 `NewKVBuffer`: checks the array and its header, formats a fresh array or reloads an old image, and takes
 the room of a longer array into use. What a reload finds is stated for the image of any settled buffer.
 */
module KvStart {
  import opened Bytes
  import opened KvArena
  import opened KvNode
  import opened KvLru
  import opened KvSpec
  import opened KvState
  import opened KvSnap
  import opened KvReload
  import opened KvOpen
  import opened KvBuffer
  import opened KvStat

  const MAGIC: seq<byte> := [0xFE, 0xDC, 0xBA, 0x98]

  /** Magic number, chunk size and image size. */
  function HeaderOf(cs: nat, size: nat): (h: seq<byte>)
    ensures |h| == HEADER
  {
    MAGIC + Le32(cs) + Le64(size)
  }

  lemma HeaderParts(cs: nat, size: nat)
    requires cs < TWO32 && size < TWO64
    ensures var h := HeaderOf(cs, size); h[..4] == MAGIC && U32(h[4..8]) == cs && U64(h[8..16]) == size
  {
    var h := HeaderOf(cs, size);
    assert h[4..8] == Le32(cs) && h[8..16] == Le64(size);
    U32OfLe32(cs);
    U64OfLe64(size);
  }

  /** Only the size changes when the array has grown. */
  lemma HeaderGrown(cs: nat, size: nat, size': nat)
    ensures Splice(HeaderOf(cs, size), 8, Le64(size')) == HeaderOf(cs, size')
  {
  }

  predicate Inited(image: seq<byte>)
  {
    HEADER <= |image| && image[..4] == MAGIC
  }

  function StoredChunkSize(image: seq<byte>): nat
    requires HEADER <= |image|
  {
    U32(image[4..8])
  }

  function StoredSize(image: seq<byte>): nat
    requires HEADER <= |image|
  {
    U64(image[8..16])
  }

  /** `image` begins with what the buffer `s` has left in its array, and tells its entries. */
  ghost predicate Saved(s: Snap, image: seq<byte>, size: nat)
  {
    && ImageOf(s, s.m, s.cs, s.n) && 32 <= s.cs < TWO32 && 1 <= s.n
    && HEADER <= size <= |image| < TWO32 && s.n == Whole(s.cs, size - HEADER)
    && s.cfg.header == HeaderOf(s.cs, size)
    && HEADER + Times(s.cs, s.n) <= |image| && s.m == Blocks(image, s.cs, s.n)
  }

  /** The header of a saved image reads back. */
  lemma SavedHeader(s: Snap, image: seq<byte>, size: nat)
    requires Saved(s, image, size)
    ensures Inited(image) && StoredChunkSize(image) == s.cs && StoredSize(image) == size
  {
    assert s.m[0] == s.cfg.header by { assert Unfold(0); }
    BlocksAt(image, s.cs, s.n, 0);
    HeaderInFront(image, s.cs, size);
  }

  /** An image that begins with a header has the stored values. */
  lemma HeaderInFront(image: seq<byte>, cs: nat, size: nat)
    requires HEADER <= |image| && image[..HEADER] == HeaderOf(cs, size) && cs < TWO32 && size < TWO64
    ensures Inited(image) && StoredChunkSize(image) == cs && StoredSize(image) == size
  {
    hide HeaderOf;
    HeaderParts(cs, size);
    var h := image[..HEADER];
    assert image[..4] == h[..4] && image[4..8] == h[4..8] && image[8..16] == h[8..16];
  }

  /** The image of a buffer is saved in any array that begins with it. */
  lemma SavedIn(s: Snap, front: seq<byte>, image: seq<byte>)
    requires Saved(s, front, |front|) && front <= image && |image| < TWO32
    ensures Saved(s, image, |front|)
  {
    WholeBounds(s.cs, |front| - HEADER);
    var cut := HEADER + Times(s.cs, s.n);
    assert image[..cut] == front[..cut];
    BlocksPrefix(front, image, s.cs, s.n, s.n);
  }

  datatype OpenError = DataTooSmall | ChunkSizeTooSmall | ChunkSizeWrong | SizeWrong | NodeInvalid

  /**
   Without a whole chunk no index can be made, and the program drops that error: `Unindexed` is a buffer without
   an index, handed out as if it were good. `Faulted` is an open that does not return.
   */
  datatype OpenResult = Opened(buf: KVBuffer) | Unindexed | Faulted | Failed(error: OpenError)

  // ---- a fresh array

  /** All chunks free is a partition. */
  lemma FreshPartition(n: nat, whole: bool)
    ensures Partition(n, Upto(0, n), multiset{}, Owned([]), whole) && Owned([]) == multiset{} && Ascending(Upto(0, n))
  {
    AllUpto(0, n);
    assert All(0) == multiset{};
    assert multiset(Upto(0, n)) + multiset{} + Owned([]) == All(n);
  }

  lemma FreshOk(m: Mem, cs: nat, n: nat, whole: bool)
    requires MemOk(m, cs) && |m| == n + 1 < TWO32 && forall c :: 0 < c <= n ==> Next(m, c) == 0
    ensures SnapOk(Snap(Config(cs, n, whole, m[0]), m, [], Upto(0, n), multiset{}))
  {
    hide All, Upto, Partition, Ascending, Owned;
    FreshPartition(n, whole);
  }

  /** A formatted arena: no entries, every chunk free. */
  ghost function Fresh(m: Mem, cs: nat, n: nat, whole: bool): (s: Snap)
    requires MemOk(m, cs) && |m| == n + 1 < TWO32 && forall c :: 0 < c <= n ==> Next(m, c) == 0
    ensures s == Snap(Config(cs, n, whole, m[0]), m, [], Upto(0, n), multiset{})
    ensures Seen(s) == [] && InSync(s)
  {
    FreshOk(m, cs, n, whole);
    Snap(Config(cs, n, whole, m[0]), m, [], Upto(0, n), multiset{})
  }

  /** Writes the header. */
  method WriteHeader(data: array<byte>, chunkSize: nat)
    requires HEADER <= data.Length
    modifies data
    ensures data[..HEADER] == HeaderOf(chunkSize, data.Length)
  {
    ghost var h := HeaderOf(chunkSize, data.Length);
    data[0], data[1], data[2], data[3] := 0xFE, 0xDC, 0xBA, 0x98;
    var word, size := Le32(chunkSize), Le64(data.Length);
    forall k | 0 <= k < 4 { data[4 + k] := word[k]; }
    forall k | 0 <= k < 8 { data[8 + k] := size[k]; }
    assert forall k :: 0 <= k < HEADER ==> data[k] == h[k];
  }

  lemma RoomForChunks(data: array<byte>, cs: nat, size: nat)
    requires 32 <= cs && HEADER + cs <= size <= data.Length < TWO32
    ensures Geometry(data, cs, Whole(cs, size - HEADER))
  {
    WholeBounds(cs, size - HEADER);
  }

  /** The header names the chunk size and the length of the array. */
  predicate Headed(image: seq<byte>, cs: nat)
  {
    Inited(image) && StoredChunkSize(image) == cs && StoredSize(image) == |image|
  }

  /** The buffer over a fresh array. */
  method Format(data: array<byte>, chunkSize: nat, openLru: bool, onLruDel: bool) returns (r: OpenResult)
    requires 1024 <= data.Length < TWO32 && 32 <= chunkSize < TWO32
    modifies data
    ensures if data.Length < HEADER + chunkSize then r == Unindexed else r.Opened?
    ensures Headed(data[..], chunkSize)
    ensures r.Opened? ==> fresh(r.buf) && fresh(r.buf.lru) && NewBuffer(r.buf, data, chunkSize, openLru, onLruDel)
    ensures r.Opened? ==> r.buf.Abstract().entries == [] && r.buf.Abstract().free == r.buf.n
    ensures r.Opened? ==> r.buf.freeChunk == Upto(0, r.buf.n)
  {
    hide Whole, MemOf, Blocks, Upto;
    WriteHeader(data, chunkSize);
    if data.Length < HEADER + chunkSize {
      HeaderInFront(data[..], chunkSize, data.Length);
      return Unindexed;
    }
    ghost var n := Whole(chunkSize, data.Length - HEADER);
    RoomForChunks(data, chunkSize, data.Length);
    HeaderBlock(data, chunkSize, n);
    ghost var m0 := MemOf(data, chunkSize, n);
    var chunkNum, free := ZeroChunks(data, chunkSize, 0, data.Length, n);
    ghost var m := MemOf(data, chunkSize, n);
    assert m[0] == m0[0];
    HeaderBlock(data, chunkSize, n);
    HeaderInFront(data[..], chunkSize, data.Length);
    ghost var s := Fresh(m, chunkSize, n, openLru);
    var lru := new Lru<Node>(chunkNum);
    var buf := new KVBuffer(data, chunkSize, chunkNum, openLru, onLruDel, lru, free, s);
    r := Opened(buf);
  }

  lemma HeaderBlock(data: array<byte>, cs: nat, n: nat)
    requires Geometry(data, cs, n)
    ensures MemOf(data, cs, n)[0] == data[..HEADER]
  {
    BlocksAt(data[..], cs, n, 0);
    assert data[..][..HEADER] == data[..HEADER];
  }

  /** A buffer that is ready, over the whole of `data`, and whose image agrees with its index. */
  ghost predicate NewBuffer(buf: KVBuffer, data: array<byte>, cs: nat, openLru: bool, onLruDel: bool)
    reads buf, buf.data, buf.lru
  {
    Ready(buf, data, cs, openLru, onLruDel, multiset{})
  }

  /** The same, except that the chunks in `lost` are neither free nor held by an entry. */
  ghost predicate Ready(buf: KVBuffer, data: array<byte>, cs: nat, openLru: bool, onLruDel: bool, lost: multiset<nat>)
    reads buf, buf.data, buf.lru
  {
    && buf.data == data && buf.cs == cs && buf.openLru == openLru && buf.onLruDel == onLruDel
    && buf.Agrees() && buf.s.open == lost && buf.s.es == buf.lru.evictList && InSync(buf.s)
    && HEADER <= data.Length && buf.n == Whole(cs, data.Length - HEADER) && buf.header == HeaderOf(cs, data.Length)
  }

  // ---- an old image

  /** Zeroing the links behind chunk `from` and rewriting the header keeps the old chunks. */
  lemma GrownImage(m: Mem, m0: Mem, m1: Mem, cs: nat, from: nat, n: nat, size: nat, size': nat)
    requires MemOk(m0, cs) && 1 <= from && |m| == from + 1 <= |m0| == n + 1 < TWO32 && m0[..from + 1] == m
    requires Zeroed(m0, m1, cs, from, n) && m[0] == HeaderOf(cs, size)
    ensures |m1[0]| == HEADER
    ensures var m' := Put(m1, 0, 8, Le64(size')); Longer(m, m', cs, from, n) && m'[0] == HeaderOf(cs, size')
  {
    assert m0[0] == m[0];
    HeaderGrown(cs, size, size');
    var m' := Put(m1, 0, 8, Le64(size'));
    forall c | 1 <= c <= from ensures m'[c] == m[c] { assert m0[c] == m[c]; }
    forall c | from < c <= n ensures Next(m', c) == 0 { assert Next(m1, c) == 0 && m'[c] == m1[c]; }
  }

  /** Takes the chunks behind the first `from` into use. */
  method TakeNew(data: array<byte>, cs: nat, from: nat, ghost n: nat, ghost m: Mem, ghost size: nat)
    returns (chunkNum: nat, free: seq<nat>)
    requires Geometry(data, cs, n) && HEADER <= data.Length && n == Whole(cs, data.Length - HEADER) && 1 <= from <= n
    requires HEADER + Times(cs, from) <= data.Length && m == Blocks(data[..], cs, from)
    modifies data
    ensures chunkNum == n && free == Upto(from, n)
    ensures m[0] == HeaderOf(cs, size) ==>
              Longer(m, MemOf(data, cs, n), cs, from, n) && MemOf(data, cs, n)[0] == HeaderOf(cs, data.Length)
  {
    hide Whole, Blocks, Times, Zeroed, Longer, Upto, HeaderOf, Put;
    ghost var m0 := MemOf(data, cs, n);
    BlocksPrefix(data[..], data[..], cs, n, from);
    chunkNum, free := ZeroChunks(data, cs, from, data.Length, n);
    ghost var m1 := MemOf(data, cs, n);
    if m[0] == HeaderOf(cs, size) { GrownImage(m, m0, m1, cs, from, n, size, data.Length); }
    CopyIn(data, cs, n, 0, 8, Le64(data.Length));
  }

  /** The snapshot of a reloaded buffer, before new room is taken into use. */
  ghost function LoadedSnap(s: Snap, m: Mem, cs: nat, n: nat, es: seq<Item>, whole: bool): (s': Snap)
    requires ImageOf(s, m, cs, n) && Reordered(es, s.es)
    ensures s' == Snap(Config(cs, n, whole, s.cfg.header), m, es, FreeList(m, cs, n), s.open)
    ensures AsMap(Seen(s')) == AsMap(Seen(s)) && InSync(s')
  {
    Rebuilt(s, es, whole)
  }

  ghost function Blank(): Snap
  {
    Snap(Config(32, 1, false, seq(16, i => 0)), [seq(16, i => 0), seq(32, i => 0)], [], [], multiset{1})
  }

  /** Scans the image and indexes its nodes. */
  method LoadIndex(data: array<byte>, cs: nat, size: nat, ghost n: nat, ghost m: Mem, ghost known: Option<Snap>)
    returns (chunkNum: nat, free: seq<nat>, lru: Lru<Node>, end: Loading)
    requires Geometry(data, cs, n) && m == MemOf(data, cs, n) && HEADER <= size && n == Whole(cs, size - HEADER)
    requires known.Some? ==> ImageOf(known.value, m, cs, n)
    ensures chunkNum == n && free == FreeList(m, cs, n)
    ensures fresh(lru) && lru.Valid() && lru.size == n && |lru.evictList| <= n && Untangled(lru.evictList, m, cs, n)
    ensures known.Some? ==> end == AllLoaded && Reordered(lru.evictList, known.value.es)
    ensures end == AllLoaded ==> AllReadable(m, cs)
    ensures end != AllLoaded ==> exists i :: StopsAt(m, cs, EndList(m, cs, n), i, end)
  {
    hide Readable, Untangled, StopsAt, Tells;
    var c;
    chunkNum, c := Scan(data, cs, size, n, m);
    free := c.free;
    lru := new Lru<Node>(chunkNum);
    end := LoadNodes(data, cs, n, c.ends, c.prev, lru, m, if known.Some? then Some(known.value.es) else None);
    assert forall c' :: 1 <= c' < |m| && Next(m, c') == c' ==> c' in c.ends;
  }

  /** Every end of the image could be loaded, and every entry of the buffer is what the bytes of the image say. */
  ghost predicate LoadedFrom(buf: KVBuffer, image: seq<byte>, cs: nat, size: nat)
    reads buf, buf.lru
  {
    && 0 < cs && HEADER <= size && HEADER + Times(cs, Whole(cs, size - HEADER)) <= |image|
    && var m := Blocks(image, cs, Whole(cs, size - HEADER));
       && AllReadable(m, cs) && buf.lru.Valid() && Untangled(buf.lru.evictList, m, cs, Whole(cs, size - HEADER))
       && forall x :: x in buf.lru.evictList ==> Faithful(m, cs, x)
  }

  /** Loading this image stops at one of its ends. */
  ghost predicate Stops(image: seq<byte>, cs: nat, size: nat, why: Loading)
  {
    && 0 < cs && HEADER <= size && HEADER + Times(cs, Whole(cs, size - HEADER)) <= |image|
    && var n := Whole(cs, size - HEADER);
       var m := Blocks(image, cs, n);
       MemOk(m, cs) && exists i :: StopsAt(m, cs, EndList(m, cs, n), i, why)
  }

  /** The snapshot of the reloaded buffer when the array is as long as the image, and when it is longer. */
  ghost function Restored(s: Snap, m': Mem, cs: nat, n: nat, n': nat, es: seq<Item>, whole: bool): (s': Snap)
    requires ImageOf(s, s.m, cs, n) && Reordered(es, s.es) && Longer(s.m, m', cs, n, n')
    ensures MemOk(s.m, cs) && |s.m| == n + 1
    ensures s' == Snap(Config(cs, n', whole, m'[0]), m', es, FreeList(s.m, cs, n) + Upto(n, n'), s.open)
    ensures AsMap(Seen(s')) == AsMap(Seen(s)) && InSync(s')
  {
    SnapFacts(s);
    Extended(LoadedSnap(s, s.m, cs, n, es, whole), m', n')
  }

  /** Whatever had leaked is back. */
  lemma RestoredAccount(s: Snap, m': Mem, cs: nat, n: nat, n': nat, es: seq<Item>, whole: bool, s': Snap)
    requires ImageOf(s, s.m, cs, n) && Reordered(es, s.es) && Longer(s.m, m', cs, n, n')
    requires s' == Restored(s, m', cs, n, n', es, whole)
    ensures cs > 4 && |s'.free| + |s.open| + Total(cs - 4, Seen(s')) == n'
  {
    hide ImageOf, Seen, InSync, Total, AsMap, Longer, Upto, FreeList, Reordered;
    var s1 := Restored(s, m', cs, n, n', es, true);
    Account(s1);
    SameSeen(s1, s');
  }

  lemma SameSeen(s: Snap, s': Snap)
    requires s.m == s'.m && s.cs == s'.cs && s.es == s'.es
    ensures Seen(s) == Seen(s')
  {
  }

  /**
   What a reload of the image of `s` gives: the same map, the entries whose chains end last being the newest, the same
   free chunks and the new ones. Every chunk is free, paid for by an entry or lost before, so chunks that had only
   leaked are back.
   */
  ghost predicate Reopened(buf: KVBuffer, s: Snap)
    reads buf, buf.data, buf.lru
  {
    && buf.Agrees() && s.n <= buf.n && MemOk(s.m, s.cs) && |s.m| == s.n + 1
    && AsMap(Seen(buf.s)) == AsMap(Seen(s)) && ByEnd(buf.lru.evictList)
    && buf.freeChunk == FreeList(s.m, s.cs, s.n) + Upto(s.n, buf.n)
    && buf.cs > 4 && |buf.freeChunk| + |s.open| + Total(buf.cs - 4, Seen(buf.s)) == buf.n
  }

  lemma SameLonger(m: Mem, cs: nat, n: nat)
    requires MemOk(m, cs) && |m| == n + 1 < TWO32
    ensures Longer(m, m, cs, n, n)
  {
  }

  lemma WholeMono(cs: nat, a: nat, b: nat)
    requires cs > 0 && a <= b
    ensures Whole(cs, a) <= Whole(cs, b)
  {
    WholeBounds(cs, a);
    WholeIs(cs, b, Whole(cs, a));
  }

  lemma SavedImage(s: Snap, data: array<byte>, cs: nat, size: nat, n: nat)
    requires Saved(s, data[..], size) && s.cfg.cs == cs && n == Whole(cs, size - HEADER)
    requires Geometry(data, cs, n)
    ensures ImageOf(s, MemOf(data, cs, n), cs, n)
  {
  }

  /** Takes the rest of a longer array into use; `m` is the old part of the image. */
  method Extend(data: array<byte>, cs: nat, size: nat, from: nat, lru: Lru<Node>, ghost n': nat, ghost m: Mem)
    returns (chunkNum: nat, more: seq<nat>)
    requires Geometry(data, cs, n') && Geometry(data, cs, from) && n' == Whole(cs, data.Length - HEADER) && 1 <= from <= n'
    requires HEADER <= size <= data.Length && from == Whole(cs, size - HEADER) && m == MemOf(data, cs, from)
    requires lru.Valid() && lru.size == from
    modifies data, lru
    ensures chunkNum == n' && more == Upto(from, n') && lru.Valid() && lru.size == n'
    ensures |old(lru.evictList)| <= from ==> lru.evictList == old(lru.evictList)
    ensures m[0] == HeaderOf(cs, size) ==>
              Longer(m, MemOf(data, cs, n'), cs, from, n') && MemOf(data, cs, n')[0] == HeaderOf(cs, data.Length)
  {
    if size < data.Length {
      chunkNum, more := TakeNew(data, cs, from, n', m, size);
      var removed := lru.Resize(chunkNum);
    } else {
      SameLonger(m, cs, from);
      chunkNum, more := from, [];
    }
  }

  /** The array carries its own length in the header, and all its chunks, if there are any, are marked free. */
  ghost predicate Emptied(data: array<byte>, cs: nat)
    requires 1024 <= data.Length < TWO32 && 32 <= cs < TWO32
    reads data
  {
    && Headed(data[..], cs)
    && (HEADER + cs <= data.Length ==>
          var n := Whole(cs, data.Length - HEADER);
          Geometry(data, cs, n) && MemOf(data, cs, n)[0] == HeaderOf(cs, data.Length)
          && forall c :: 0 < c <= n ==> Next(MemOf(data, cs, n), c) == 0)
  }

  /**
   An image without a whole chunk in a longer array: every chunk is new. The size of the missing index
   is set after this, and that faults.
   */
  method ClearNew(data: array<byte>, cs: nat)
    requires 1024 <= data.Length < TWO32 && 32 <= cs < TWO32 && Inited(data[..]) && StoredChunkSize(data[..]) == cs
    modifies data
    ensures Emptied(data, cs)
  {
    hide Whole, Blocks, MemOf, HeaderOf;
    var size := Le64(data.Length);
    HeaderFromParts(data[..], cs, data.Length);
    if data.Length < HEADER + cs {
      ghost var was := data[..];
      forall k | 0 <= k < 8 { data[8 + k] := size[k]; }
      assert data[..HEADER] == Splice(was[..HEADER], 8, size);
    } else {
      ghost var n := Whole(cs, data.Length - HEADER);
      RoomForChunks(data, cs, data.Length);
      HeaderBlock(data, cs, n);
      ghost var m0 := MemOf(data, cs, n);
      var chunkNum, free := ZeroChunks(data, cs, 0, data.Length, n);
      ghost var m1 := MemOf(data, cs, n);
      assert m1[0] == m0[0];
      CopyIn(data, cs, n, 0, 8, size);
      HeaderBlock(data, cs, n);
      ghost var m := MemOf(data, cs, n);
      forall c | 0 < c <= n ensures Next(m, c) == 0 { assert m[c] == m1[c] && Next(m1, c) == 0; }
    }
    HeaderInFront(data[..], cs, data.Length);
  }

  /** What an image without a whole chunk leads to: no index, and no use of one unless the array is longer. */
  method NoWholeChunk(data: array<byte>, cs: nat, size: nat) returns (r: OpenResult)
    requires 1024 <= data.Length < TWO32 && 32 <= cs < TWO32 && size <= data.Length && size < HEADER + cs
    requires Inited(data[..]) && StoredChunkSize(data[..]) == cs && StoredSize(data[..]) == size
    modifies data
    ensures r == if size < data.Length then Faulted else Unindexed
    ensures Emptied(data, cs)
  {
    if size == data.Length { return Unindexed; }
    ClearNew(data, cs);
    r := Faulted;
  }

  /** The header of an initialised image with another size. */
  lemma HeaderFromParts(image: seq<byte>, cs: nat, size: nat)
    requires Inited(image) && StoredChunkSize(image) == cs
    ensures Splice(image[..HEADER], 8, Le64(size)) == HeaderOf(cs, size)
  {
    Le32OfU32(image[4..8]);
    var h := Splice(image[..HEADER], 8, Le64(size));
    assert h[..4] == image[..4] && h[4..8] == image[4..8];
    assert h == h[..4] + h[4..8] + h[8..];
  }

  /** The buffer over an old image of `size` bytes; `known` is the buffer that left it, if there is one. */
  method Reload(data: array<byte>, cs: nat, size: nat, openLru: bool, onLruDel: bool, ghost known: Option<Snap>)
    returns (r: OpenResult)
    requires 1024 <= data.Length < TWO32 && 32 <= cs < TWO32 && size <= data.Length
    requires Inited(data[..]) && StoredChunkSize(data[..]) == cs && StoredSize(data[..]) == size
    requires known.Some? ==> known.value.cs == cs && Saved(known.value, data[..], size)
    modifies data
    ensures size < HEADER + cs ==> r == (if size < data.Length then Faulted else Unindexed) && Emptied(data, cs)
    ensures r.Unindexed? ==> size < HEADER + cs
    ensures known.Some? ==>
              r.Opened? && Ready(r.buf, data, cs, openLru, onLruDel, known.value.open) && Reopened(r.buf, known.value)
    ensures HEADER + cs <= size ==> r.Opened? || (r == Failed(NodeInvalid) && Stops(old(data[..]), cs, size, NodeRefused))
                                    || (r == Faulted && Stops(old(data[..]), cs, size, NodeFaulted))
    ensures r.Opened? ==> fresh(r.buf) && fresh(r.buf.lru) && LoadedFrom(r.buf, old(data[..]), cs, size)
  {
    hide AllReadable, Faithful, Whole, MemOf, Blocks, Upto, FreeList, EndList, StopsAt, Tells, NoneZero, Times, HeaderOf, InSync, Seen, Reordered, Longer, Untangled, Total, AsMap, Emptied;
    if size < HEADER + cs {
      if known.Some? { TooSmall(cs, size); }
      r := NoWholeChunk(data, cs, size);
      return;
    }
    ghost var n, n' := Whole(cs, size - HEADER), Whole(cs, data.Length - HEADER);
    RoomForChunks(data, cs, size);
    RoomForChunks(data, cs, data.Length);
    WholeMono(cs, size - HEADER, data.Length - HEADER);
    ghost var m := MemOf(data, cs, n);
    MemIs(data, cs, n);
    if known.Some? { SavedImage(known.value, data, cs, size, n); SavedFirst(known.value, data[..], size); }
    var chunkNum, free, lru, end := LoadIndex(data, cs, size, n, m, known);
    match end {
      case AllLoaded =>
      case NodeRefused => return Failed(NodeInvalid);
      case NodeFaulted => return Faulted;
    }
    ghost var es := lru.evictList;
    UntangledFaithful(es, m, cs, n);
    var more;
    chunkNum, more := Extend(data, cs, size, chunkNum, lru, n', m);
    ghost var s := if known.Some? then Restored(known.value, MemOf(data, cs, n'), cs, n, n', es, openLru) else Blank();
    if known.Some? { RestoredAccount(known.value, MemOf(data, cs, n'), cs, n, n', es, openLru, s); }
    var buf := new KVBuffer(data, cs, chunkNum, openLru, onLruDel, lru, free + more, s);
    r := Opened(buf);
  }

  lemma TooSmall(cs: nat, size: nat)
    requires 0 < cs && HEADER <= size < HEADER + cs
    ensures Whole(cs, size - HEADER) == 0
  {
  }

  lemma SavedFirst(s: Snap, image: seq<byte>, size: nat)
    requires Saved(s, image, size)
    ensures |s.m| > 0 && s.m[0] == HeaderOf(s.cs, size)
  {
    assert Unfold(0);
  }

  lemma MemIs(data: array<byte>, cs: nat, n: nat)
    requires Geometry(data, cs, n)
    ensures HEADER + Times(cs, n) <= |data[..]| && MemOf(data, cs, n) == Blocks(data[..], cs, n)
  {
  }

  lemma UntangledFaithful(es: seq<Item>, m: Mem, cs: nat, n: nat)
    requires Untangled(es, m, cs, n)
    ensures ByEnd(es) && forall x :: x in es ==> Faithful(m, cs, x)
  {
    hide Faithful;
  }

  /**
   `NewKVBuffer` and `NewLRUKVBuffer`. The caller of an old image passes a chunk size of at least 32; the
   array is below 4 GiB.
   */
  method Open(data: array<byte>, chunkSize: int, openLru: bool, onLruDel: bool, ghost known: Option<Snap>)
    returns (r: OpenResult)
    requires data.Length < TWO32 && chunkSize < TWO32 && (Inited(data[..]) ==> 32 <= chunkSize)
    requires known.Some? ==> known.value.cs == chunkSize && HEADER <= data.Length && Saved(known.value, data[..], StoredSize(data[..]))
    modifies data
    ensures r.Opened? ==> fresh(r.buf) && fresh(r.buf.lru)
    ensures data.Length < 1024 ==> r == Failed(DataTooSmall)
    ensures 1024 <= data.Length && !old(Inited(data[..])) && chunkSize < 32 ==> r == Failed(ChunkSizeTooSmall)
    ensures 1024 <= data.Length && !old(Inited(data[..])) && 32 <= chunkSize ==>
              if data.Length < HEADER + chunkSize then r == Unindexed
              else r.Opened? && NewBuffer(r.buf, data, chunkSize, openLru, onLruDel)
                   && r.buf.Abstract().entries == [] && r.buf.Abstract().free == r.buf.n
                   && r.buf.freeChunk == Upto(0, r.buf.n)
    ensures 1024 <= data.Length && old(Inited(data[..])) && old(StoredChunkSize(data[..])) != chunkSize ==>
              r == Failed(ChunkSizeWrong)
    ensures 1024 <= data.Length && old(Inited(data[..])) && old(StoredChunkSize(data[..])) == chunkSize ==>
              var size := old(StoredSize(data[..]));
              && (size > data.Length ==> r == Failed(SizeWrong))
              && (size <= data.Length && size < HEADER + chunkSize ==>
                    r == (if size < data.Length then Faulted else Unindexed) && Emptied(data, chunkSize))
    ensures r.Unindexed? ==> data.Length < HEADER + chunkSize || (old(Inited(data[..])) && old(StoredSize(data[..])) < HEADER + chunkSize)
    ensures old(Inited(data[..])) && r.Opened? ==> LoadedFrom(r.buf, old(data[..]), chunkSize, old(StoredSize(data[..])))
    ensures known.Some? && 1024 <= data.Length ==>
              r.Opened? && Ready(r.buf, data, chunkSize, openLru, onLruDel, known.value.open) && Reopened(r.buf, known.value)
    ensures 1024 <= data.Length && old(Inited(data[..])) && old(StoredChunkSize(data[..])) == chunkSize ==>
              var image, size := old(data[..]), old(StoredSize(data[..]));
              HEADER + chunkSize <= size <= data.Length ==>
                || r.Opened? || (r == Failed(NodeInvalid) && Stops(image, chunkSize, size, NodeRefused))
                || (r == Faulted && Stops(image, chunkSize, size, NodeFaulted))
  {
    hide Stops, Ready, NewBuffer, Reopened, LoadedFrom, KVBuffer.Abstract;
    if data.Length < 1024 { return Failed(DataTooSmall); }
    if known.Some? { SavedHeader(known.value, data[..], StoredSize(data[..])); }
    if data[..4] == MAGIC {
      assert data[..][..4] == MAGIC && data[..][4..8] == data[4..8] && data[..][8..16] == data[8..16];
      var stored, size := U32(data[4..8]), U64(data[8..16]);
      if stored != chunkSize { return Failed(ChunkSizeWrong); }
      if size > data.Length { return Failed(SizeWrong); }
      r := Reload(data, stored, size, openLru, onLruDel, known);
    } else {
      assert data[..][..4] == data[..4];
      if chunkSize < 32 { return Failed(ChunkSizeTooSmall); }
      r := Format(data, chunkSize, openLru, onLruDel);
    }
  }

  /** The image of an array whose chunks are all free is that of a fresh buffer. */
  lemma EmptiedIsSaved(data: array<byte>, cs: nat) returns (s: Snap)
    requires 1024 <= data.Length < TWO32 && 32 <= cs < TWO32 && HEADER + cs <= data.Length && Emptied(data, cs)
    ensures s.cs == cs && s.es == [] && s.open == multiset{} && Saved(s, data[..], data.Length)
  {
    hide Whole, Blocks, HeaderOf, MemOf;
    var n := Whole(cs, data.Length - HEADER);
    MemIs(data, cs, n);
    s := Fresh(MemOf(data, cs, n), cs, n, true);
    SettledTells(s);
  }

  /**
   Opens an array and, when that faults over an image without a whole chunk, opens it once more: the first attempt has
   emptied the array, so the second finds an empty buffer, or no whole chunk again.
   */
  method OpenAgain(data: array<byte>, chunkSize: nat, openLru: bool, onLruDel: bool) returns (r: OpenResult)
    requires 1024 <= data.Length < TWO32 && 32 <= chunkSize < TWO32 && Inited(data[..]) && StoredChunkSize(data[..]) == chunkSize
    requires StoredSize(data[..]) < HEADER + chunkSize && StoredSize(data[..]) < data.Length
    modifies data
    ensures if data.Length < HEADER + chunkSize then r == Unindexed
            else r.Opened? && NewBuffer(r.buf, data, chunkSize, openLru, onLruDel) && AsMap(r.buf.Abstract().entries) == map[]
                 && |r.buf.freeChunk| == r.buf.n
  {
    hide LoadedFrom, MemOf, Whole, Emptied, Saved, AsMap, Total, Headed, HeaderOf, Inited, StoredSize, StoredChunkSize, InSync, Seen, Stops;
    r := Open(data, chunkSize, openLru, onLruDel, None);
    EmptiedHeader(data, chunkSize);
    if HEADER + chunkSize <= data.Length {
      ghost var s := EmptiedIsSaved(data, chunkSize);
      r := Open(data, chunkSize, openLru, onLruDel, Some(s));
      NothingIn(r.buf, s);
    } else {
      r := Open(data, chunkSize, openLru, onLruDel, None);
    }
  }

  lemma EmptiedHeader(data: array<byte>, cs: nat)
    requires 1024 <= data.Length < TWO32 && 32 <= cs < TWO32 && Emptied(data, cs)
    ensures Inited(data[..]) && StoredChunkSize(data[..]) == cs && StoredSize(data[..]) == data.Length
  {
  }

  lemma NothingIn(buf: KVBuffer, s: Snap)
    requires Reopened(buf, s) && s.es == [] && s.open == multiset{}
    ensures AsMap(Seen(buf.s)) == map[] && |buf.freeChunk| == buf.n
  {
    assert Seen(s) == [];
    EmptyMap(Seen(buf.s));
  }

  lemma EmptyMap(es: seq<Pair>)
    ensures AsMap(es) == map[] <==> es == []
  {
    if es != [] { assert es[|es| - 1].key in AsMap(es); }
  }

  /** A buffer at rest leaves its image in its array, as long as image and index agree. */
  lemma AtRest(buf: KVBuffer)
    requires NewBuffer(buf, buf.data, buf.cs, buf.openLru, buf.onLruDel)
    ensures Saved(buf.s, buf.data[..], buf.data.Length)
  {
    GeometryBounds(buf.data, buf.cs, buf.n);
    SettledTells(buf.s);
  }
}
