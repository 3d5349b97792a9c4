/**
 Opening a buffer over a byte array: formatting a fresh one, or scanning an existing image, following
 its links and indexing what is found, and taking new room into use when the array has grown.
 */
module KvOpen {
  import opened Bytes
  import opened KvArena
  import opened KvNode
  import opened KvWrite
  import opened KvLru
  import opened KvSpec
  import opened KvState
  import opened KvSnap
  import opened KvReload

  /** How many whole chunks fit into `avail` bytes. */
  function Whole(cs: nat, avail: nat): nat
    requires cs > 0
    decreases avail
  {
    if avail < cs then 0 else 1 + Whole(cs, avail - cs)
  }

  lemma {:induction false} WholeBounds(cs: nat, avail: nat)
    requires cs > 0
    ensures Times(cs, Whole(cs, avail)) <= avail < Times(cs, Whole(cs, avail)) + cs
    decreases avail
  {
    if avail >= cs {
      WholeBounds(cs, avail - cs);
      TimesAdd(cs, 1, Whole(cs, avail - cs));
      assert Times(cs, 1) == cs;
    }
  }

  /** The number of chunks is determined by the size: counting stops exactly there. */
  lemma WholeIs(cs: nat, avail: nat, k: nat)
    requires cs > 0 && Times(cs, k) <= avail
    ensures k <= Whole(cs, avail)
    ensures avail < Times(cs, k) + cs <==> k == Whole(cs, avail)
  {
    WholeBounds(cs, avail);
    var w := Whole(cs, avail);
    if k < w { TimesMono(cs, k, w); }
    if w < k { TimesMono(cs, w, k); }
  }

  /** Counting goes on exactly while another whole chunk fits. */
  lemma WholeStep(cs: nat, avail: nat, k: nat)
    requires cs > 0 && Times(cs, k) <= avail
    ensures k <= Whole(cs, avail) && Times(cs, k + 1) == Times(cs, k) + cs
    ensures Times(cs, k) + cs > avail ==> k == Whole(cs, avail)
    ensures Times(cs, k) + cs <= avail ==> k + 1 <= Whole(cs, avail)
  {
    WholeIs(cs, avail, k);
    if Times(cs, k + 1) <= avail { WholeIs(cs, avail, k + 1); }
  }

  /** Files one chunk by its link word. */
  method File(idx: nat, nxt: nat, c: Census, ghost m: Mem, ghost cs: nat) returns (c': Census)
    requires MemOk(m, cs) && 1 <= idx < |m| && nxt == Next(m, idx) && c == CensusOf(m, cs, idx - 1)
    ensures c' == CensusOf(m, cs, idx)
  {
    if nxt == 0 {
      c' := c.(free := c.free + [idx]);
    } else if nxt == idx {
      c' := c.(ends := c.ends + [idx]);
    } else {
      c' := c.(prev := c.prev[nxt := idx]);
    }
  }

  method ReadAndFile(data: array<byte>, cs: nat, ghost n: nat, ghost m: Mem, idx: nat, c: Census) returns (c': Census)
    requires Geometry(data, cs, n) && m == MemOf(data, cs, n) && 1 <= idx <= n && c == CensusOf(m, cs, idx - 1)
    ensures c' == CensusOf(m, cs, idx)
  {
    var nxt := ReadWord(data, cs, n, idx, 0);
    c' := File(idx, nxt, c, m, cs);
  }

  lemma CensusZero(m: Mem, cs: nat)
    requires MemOk(m, cs)
    ensures CensusOf(m, cs, 0) == Census([], [], map[])
  {
  }

  /** Reads the link word of every whole chunk and files the chunk. */
  method Scan(data: array<byte>, cs: nat, size: nat, ghost n: nat, ghost m: Mem) returns (chunkNum: nat, c: Census)
    requires Geometry(data, cs, n) && HEADER <= size && n == Whole(cs, size - HEADER) && m == MemOf(data, cs, n)
    ensures chunkNum == n && c == CensusOf(m, cs, n)
  {
    hide Whole, FreeList, EndList, PrevMap, MemOf;
    chunkNum, c := 0, Census([], [], map[]);
    CensusZero(m, cs);
    var i := HEADER;
    while i < size
      invariant chunkNum <= n && i == HEADER + Times(cs, chunkNum) <= size
      invariant c == CensusOf(m, cs, chunkNum)
    {
      var next := i + cs;
      WholeStep(cs, size - HEADER, chunkNum);
      if next > size { break; }
      chunkNum := chunkNum + 1;
      c := ReadAndFile(data, cs, n, m, chunkNum, c);
      i := next;
    }
    WholeStep(cs, size - HEADER, chunkNum);
  }

  /** Follows the links back from the end `e`. It visits no chunk twice, whatever the links are. */
  method WalkBack(prev: map<nat, nat>, e: nat, ghost m: Mem, ghost cs: nat, ghost n: nat) returns (chunks: seq<nat>)
    requires MemOk(m, cs) && |m| == n + 1 && prev == PrevMap(m, cs, n)
    requires 1 <= e <= n && Next(m, e) == e
    ensures Chain(m, cs, chunks) && chunks[|chunks| - 1] == e && Rootless(m, cs, chunks)
  {
    chunks := [e];
    var pre := e;
    while pre in prev
      invariant Chain(m, cs, chunks) && chunks[|chunks| - 1] == e && chunks[0] == pre && |chunks| <= n
      decreases n - |chunks|
    {
      pre := prev[pre];
      StepBack(m, cs, chunks, pre);
      chunks := [pre] + chunks;
      ChainFits(m, cs, chunks, n);
    }
  }

  datatype Loaded = Got(entry: Item) | Invalid | Broken

  /** The size words in the first chunk of a chain, added as 32-bit words, fit its payload. */
  ghost predicate SizesFit(m: Mem, cs: nat, chunks: seq<nat>)
    requires MemOk(m, cs) && InRange(m, chunks) && chunks != []
  {
    (U32(m[chunks[0]][4..8]) + U32(m[chunks[0]][8..12])) % TWO32 <= (cs - 4) * |chunks| - 8
  }

  /** Sizes and key of the entry are those in the bytes of its chain. */
  ghost predicate FromBytes(m: Mem, cs: nat, x: Item)
  {
    var c, k := x.value.chunks, x.value.keySize;
    && MemOk(m, cs) && InRange(m, c) && c != [] && SizesFit(m, cs, c)
    && k == U32(m[c[0]][4..8]) && x.value.valSize == U32(m[c[0]][8..12])
    && 8 + k <= Times(cs - 4, |c|) && x.key == Payload(m, cs, c)[8..8 + k]
  }

  /**
   Reads sizes and key of the node over `chunks`; sizes that do not fit are refused. If the chunks are known to
   hold the node of an entry, it reads that entry.
   */
  method ReadNode(data: array<byte>, cs: nat, ghost n: nat, chunks: seq<nat>, ghost known: Option<Item>)
    returns (r: Loaded)
    requires Geometry(data, cs, n) && chunks != [] && InRange(MemOf(data, cs, n), chunks)
    requires known.Some? ==> NodeOk(MemOf(data, cs, n), cs, known.value) && known.value.value.chunks == chunks
    ensures known.Some? ==> r == Got(known.value)
    ensures r.Invalid? <==> !SizesFit(MemOf(data, cs, n), cs, chunks)
    ensures r.Broken? <==> KeyFaults(MemOf(data, cs, n), cs, chunks)
    ensures r.Got? ==> r.entry.value.chunks == chunks && FromBytes(MemOf(data, cs, n), cs, r.entry)
  {
    hide Payload, MemOf, NodeOk;
    var keySize, valSize, fits := ReadSizes(data, cs, n, chunks, known);
    if !fits { return Invalid; }
    if known.Some? { SizesInPlace(MemOf(data, cs, n), cs, known.value); }
    var key := GetKey(data, cs, n, Node(chunks, keySize, valSize));
    r := if key.Panic? then Broken else Got(Entry(key.value, Node(chunks, keySize, valSize)));
  }

  method ReadSizes(data: array<byte>, cs: nat, ghost n: nat, chunks: seq<nat>, ghost known: Option<Item>)
    returns (keySize: nat, valSize: nat, fits: bool)
    requires Geometry(data, cs, n) && chunks != [] && InRange(MemOf(data, cs, n), chunks)
    requires known.Some? ==> NodeOk(MemOf(data, cs, n), cs, known.value) && known.value.value.chunks == chunks
    ensures var c := MemOf(data, cs, n)[chunks[0]]; keySize == U32(c[4..8]) && valSize == U32(c[8..12])
    ensures fits <==> SizesFit(MemOf(data, cs, n), cs, chunks)
    ensures known.Some? ==> fits && keySize == |known.value.key| && valSize == known.value.value.valSize
  {
    hide NodeOk, MemOf;
    keySize := ReadWord(data, cs, n, chunks[0], 4);
    valSize := ReadWord(data, cs, n, chunks[0], 8);
    var room := (cs - 4) * |chunks| - 8;
    fits := (keySize + valSize) % TWO32 <= room;
    if known.Some? { SizesInPlace(MemOf(data, cs, n), cs, known.value); }
  }

  /** The three parts of a node's byte string in front of the value. */
  lemma BodyParts(key: Key, val: Val, p: seq<byte>)
    requires Body(key, val) <= p
    ensures p[0..4] == Le32(|key|) && p[4..8] == Le32(|val|) && p[8..8 + |key|] == key
  {
    var b := Body(key, val);
    assert p[0..4] == b[0..4] && p[4..8] == b[4..8] && p[8..8 + |key|] == b[8..8 + |key|];
  }

  /** Where a well-formed node has its sizes and its key. */
  lemma SizesInPlace(m: Mem, cs: nat, e: Item)
    requires NodeOk(m, cs, e)
    ensures e.value.keySize == |e.key|
    ensures U32(m[e.value.chunks[0]][4..8]) == |e.key| && U32(m[e.value.chunks[0]][8..12]) == e.value.valSize
    ensures |e.key| + e.value.valSize + 8 <= (cs - 4) * |e.value.chunks| && |e.key| + e.value.valSize + 8 < TWO32
    ensures 8 + |e.key| <= Times(cs - 4, |e.value.chunks|)
    ensures Payload(m, cs, e.value.chunks)[8..8 + |e.key|] == e.key
  {
    BodyParts(e.key, ValOf(m, cs, e), Payload(m, cs, e.value.chunks));
    PayloadPiece(m, cs, e.value.chunks, 0, 0, 4);
    PayloadPiece(m, cs, e.value.chunks, 0, 4, 8);
    U32OfLe32(|e.key|);
    U32OfLe32(e.value.valSize);
    TimesIsProduct(cs - 4, |e.value.chunks|);
  }

  ghost predicate EndsAt(e: Item, c: nat)
  {
    e.value.chunks != [] && e.value.chunks[|e.value.chunks| - 1] == c
  }

  /**
   The image tells exactly the entries `es`: they are nodes on chains of their own, every end is the end of one of
   them, and a whole chain from such an end is the chain of the entry.
   */
  ghost predicate Tells(m: Mem, cs: nat, n: nat, es: seq<Item>)
  {
    && MemOk(m, cs) && |m| == n + 1 && Distinct(es)
    && (forall e :: e in es ==> NodeOk(m, cs, e) && Chain(m, cs, e.value.chunks))
    && (forall c :: 1 <= c <= n && Next(m, c) == c ==> exists e :: e in es && EndsAt(e, c))
    && (forall e, c, chain :: e in es && EndsAt(e, c) && WholeChain(m, cs, chain, c) ==> chain == e.value.chunks)
    && (forall e, e', c :: e in es && e' in es && EndsAt(e, c) && EndsAt(e', c) ==> e == e')
  }

  /** A chain that ends at `c` and that nothing links to. */
  ghost predicate WholeChain(m: Mem, cs: nat, chain: seq<nat>, c: nat)
  {
    Chain(m, cs, chain) && Rootless(m, cs, chain) && chain[|chain| - 1] == c
  }

  /** The image `m` of `s` tells its entries, and chunks outside the entries and the free list are not marked free. */
  ghost predicate ImageOf(s: Snap, m: Mem, cs: nat, n: nat)
  {
    s.m == m && s.cfg.cs == cs && s.cfg.n == n && InSync(s) && Tells(m, cs, n, s.es) && NoneZero(m, s.open)
  }

  /** The image of a settled buffer with an agreeing image tells its entries. */
  lemma SettledTells(s: Snap)
    requires s.open == multiset{} && InSync(s)
    ensures ImageOf(s, s.m, s.cs, s.n)
  {
    hide Linked, Rootless, NodeOk, InSync, NoDup;
    SnapFacts(s);
    forall e | e in s.es ensures NodeOk(s.m, s.cs, e) && Chain(s.m, s.cs, e.value.chunks) {
      var a :| 0 <= a < |s.es| && s.es[a] == e;
      EntryFacts(s, a, s.cs);
      EntryChain(s, a);
    }
    forall c | 1 <= c <= s.n && Next(s.m, c) == c ensures exists e :: e in s.es && EndsAt(e, c) {
      var a := EndOwner(s, c);
      assert s.es[a] in s.es && EndsAt(s.es[a], c);
    }
    forall e, c, chain | e in s.es && EndsAt(e, c) && WholeChain(s.m, s.cs, chain, c) ensures chain == e.value.chunks {
      var a :| 0 <= a < |s.es| && s.es[a] == e;
      EntryChain(s, a);
      ChainIsEntry(s, chain, e.value.chunks, a);
    }
    forall e, e', c | e in s.es && e' in s.es && EndsAt(e, c) && EndsAt(e', c) ensures e == e' {
      var a :| 0 <= a < |s.es| && s.es[a] == e;
      var b :| 0 <= b < |s.es| && s.es[b] == e';
      OneOwner(s, a, b, c);
    }
  }

  /** The walk back from an end finds the chunks of the entry that ends there. */
  lemma WalkFinds(m: Mem, cs: nat, n: nat, es: seq<Item>, chunks: seq<nat>, c: nat) returns (e: Item)
    requires Tells(m, cs, n, es) && 1 <= c <= n && Next(m, c) == c && WholeChain(m, cs, chunks, c)
    ensures e in es && e.value.chunks == chunks && EndsAt(e, c) && NodeOk(m, cs, e)
  {
    hide NodeOk, Chain, EndsAt, WholeChain;
    e :| e in es && EndsAt(e, c);
  }

  /** An entry as a reload makes it: a whole chain, sizes that fit, and the key in its bytes. */
  ghost predicate Faithful(m: Mem, cs: nat, x: Item)
  {
    Chain(m, cs, x.value.chunks) && Rootless(m, cs, x.value.chunks) && FromBytes(m, cs, x)
  }

  /** The size words found from this end do not fit the chain. */
  ghost predicate RefusedAt(m: Mem, cs: nat, end: nat)
  {
    exists chain :: WholeChain(m, cs, chain, end) && !SizesFit(m, cs, chain)
  }

  /** The size words found from this end pass, and the key does not fit the chain. */
  ghost predicate KeyFaults(m: Mem, cs: nat, chain: seq<nat>)
    requires MemOk(m, cs) && InRange(m, chain) && chain != []
  {
    SizesFit(m, cs, chain) && 8 + U32(m[chain[0]][4..8]) > Times(cs - 4, |chain|)
  }

  ghost predicate FaultedAt(m: Mem, cs: nat, end: nat)
  {
    exists chain :: WholeChain(m, cs, chain, end) && KeyFaults(m, cs, chain)
  }

  /** Walks back from one end and reads the node. */
  method LoadOne(data: array<byte>, cs: nat, ghost n: nat, prev: map<nat, nat>, end: nat, ghost m: Mem,
                 ghost told: Option<seq<Item>>)
    returns (r: Loaded)
    requires Geometry(data, cs, n) && m == MemOf(data, cs, n) && prev == PrevMap(m, cs, n)
    requires 1 <= end <= n && Next(m, end) == end && (told.Some? ==> Tells(m, cs, n, told.value))
    ensures told.Some? ==> r.Got? && r.entry in told.value && EndsAt(r.entry, end)
    ensures r.Got? ==> Faithful(m, cs, r.entry) && EndsAt(r.entry, end)
    ensures r.Invalid? ==> RefusedAt(m, cs, end)
    ensures r.Broken? ==> FaultedAt(m, cs, end)
  {
    var chunks := WalkBack(prev, end, m, cs, n);
    ghost var known := None;
    if told.Some? {
      var e := WalkFinds(m, cs, n, told.value, chunks, end);
      known := Some(e);
    }
    assert WholeChain(m, cs, chunks, end);
    r := ReadNode(data, cs, n, chunks, known);
  }

  /** The index holds, newest first, the entries that end at the first `i` ends. */
  ghost predicate Collected(es: seq<Item>, ends: seq<nat>, i: nat, told: seq<Item>)
  {
    |es| == i <= |ends| && forall t :: 0 <= t < i ==> es[t] in told && EndsAt(es[t], ends[i - 1 - t])
  }

  lemma CollectedMore(es: seq<Item>, ends: seq<nat>, i: nat, told: seq<Item>, e: Item)
    requires Collected(es, ends, i, told) && i < |ends| && e in told && EndsAt(e, ends[i]) && Ascending(ends) && Distinct(told)
    ensures !Has(es, e.key) && Collected([e] + es, ends, i + 1, told)
  {
    forall t | 0 <= t < |es| ensures es[t].key != e.key {
      var a :| 0 <= a < |told| && told[a] == es[t];
      var b :| 0 <= b < |told| && told[b] == e;
      assert ends[i - 1 - t] < ends[i];
    }
    var more := [e] + es;
    forall t | 0 <= t < i + 1 ensures more[t] in told && EndsAt(more[t], ends[i + 1 - 1 - t]) {
      if t > 0 { assert more[t] == es[t - 1]; }
    }
  }

  /** All ends make all entries. */
  lemma CollectedAll(es: seq<Item>, ends: seq<nat>, told: seq<Item>, m: Mem, cs: nat, n: nat)
    requires Tells(m, cs, n, told) && ends == EndList(m, cs, n) && Collected(es, ends, |ends|, told)
    ensures Reordered(es, told)
  {
    hide NodeOk, Chain, WholeChain;
    forall i, j | 0 <= i < j < |es| ensures es[i] != es[j] {
      assert ends[|ends| - 1 - j] < ends[|ends| - 1 - i];
    }
    forall x | x in told ensures x in es {
      LastIsEnd(m, cs, n, told, x);
      var c := x.value.chunks[|x.value.chunks| - 1];
      assert c in ends;
      var j :| 0 <= j < |ends| && ends[j] == c;
      var t := |ends| - 1 - j;
      assert es[t] in told && EndsAt(es[t], ends[|ends| - 1 - t]) && EndsAt(x, c);
    }
  }

  lemma LastIsEnd(m: Mem, cs: nat, n: nat, told: seq<Item>, e: Item)
    requires Tells(m, cs, n, told) && e in told
    ensures e.value.chunks != []
    ensures var c := e.value.chunks[|e.value.chunks| - 1]; 1 <= c <= n && Next(m, c) == c
  {
    var chunks := e.value.chunks;
    assert Chain(m, cs, chunks);
    assert Next(m, chunks[|chunks| - 1]) == LinkOf(chunks, |chunks| - 1);
  }

  /** How loading the nodes ends: a node may be refused, and reading its key may fault. */
  datatype Loading = AllLoaded | NodeRefused | NodeFaulted

  lemma EndsFit(m: Mem, cs: nat, n: nat, ends: seq<nat>)
    requires MemOk(m, cs) && |m| == n + 1 && ends == EndList(m, cs, n)
    ensures |ends| <= n && forall i :: 0 <= i < |ends| ==> 1 <= ends[i] <= n && Next(m, ends[i]) == ends[i]
  {
    assert forall i :: 0 <= i < |ends| ==> ends[i] in ends;
    AscendingNoDup(ends);
    NoDupFits(ends, n);
  }

  /** From this end a node can be loaded. */
  ghost predicate Readable(m: Mem, cs: nat, end: nat)
  {
    exists x :: Faithful(m, cs, x) && EndsAt(x, end)
  }

  /** Loading stops at the `i`-th end, for this reason, and the ends before it could be loaded. */
  ghost predicate StopsAt(m: Mem, cs: nat, ends: seq<nat>, i: nat, why: Loading)
  {
    && i < |ends| && (forall k :: 0 <= k < i ==> Readable(m, cs, ends[k]))
    && (why == NodeRefused ==> RefusedAt(m, cs, ends[i])) && (why == NodeFaulted ==> FaultedAt(m, cs, ends[i]))
  }

  /** From every end a node can be loaded. */
  ghost predicate AllReadable(m: Mem, cs: nat)
  {
    MemOk(m, cs) && forall c :: 1 <= c < |m| && Next(m, c) == c ==> Readable(m, cs, c)
  }

  ghost function LastOf(e: Item): nat { if e.value.chunks == [] then 0 else e.value.chunks[|e.value.chunks| - 1] }

  /** The newer of two entries is the one whose chain ends later in the array. */
  ghost predicate ByEnd(es: seq<Item>)
  {
    forall i, j :: 0 <= i < j < |es| ==> LastOf(es[i]) > LastOf(es[j])
  }

  /**
   Every entry sits on a chain that ends no later than chunk `top`, no two chains end in the same chunk, and the entries
   stand in the order of their ends.
   */
  ghost predicate Untangled(es: seq<Item>, m: Mem, cs: nat, top: nat)
  {
    && (forall x :: x in es ==> Faithful(m, cs, x) && LastOf(x) <= top)
    && (forall x, y :: x in es && y in es && LastOf(x) == LastOf(y) ==> x == y)
    && ByEnd(es)
  }

  /** Adding an entry with a later end, in place of one with the same key if there is one. */
  lemma UntangledMore(es: seq<Item>, m: Mem, cs: nat, top: nat, e: Item)
    requires Untangled(es, m, cs, top) && Distinct(es) && Faithful(m, cs, e) && top < LastOf(e)
    ensures Untangled([e] + Without(es, e.key), m, cs, LastOf(e)) && |Without(es, e.key)| <= |es|
  {
    hide Without, Faithful, LastOf, ByEnd, Distinct;
    ByEndMore(es, e);
    WithoutKeeps(es, e.key);
    var all := [e] + Without(es, e.key);
    assert forall x :: x in all <==> x == e || (x in es && x.key != e.key);
  }

  lemma ByEndMore(es: seq<Item>, e: Item)
    requires Distinct(es) && ByEnd(es) && forall x :: x in es ==> LastOf(x) < LastOf(e)
    ensures ByEnd([e] + Without(es, e.key))
  {
    hide Without, LastOf;
    var rest := Without(es, e.key);
    if Has(es, e.key) {
      var i := IndexOf(es, e.key);
      WithoutIndex(es, i);
    } else {
      WithoutMiss(es, e.key);
    }
    forall j | 0 <= j < |rest| ensures LastOf(rest[j]) < LastOf(e) {
      WithoutKeeps(es, e.key);
      assert rest[j] in rest;
    }
  }

  /** Different entries share no chunk, whatever the link words were. */
  lemma UntangledApart(es: seq<Item>, m: Mem, cs: nat, top: nat, x: Item, y: Item, c: nat)
    requires Untangled(es, m, cs, top) && x in es && y in es && c in x.value.chunks && c in y.value.chunks
    ensures x == y
  {
    if LastOf(x) != LastOf(y) {
      ChainsApart(m, cs, x.value.chunks, y.value.chunks);
      assert false;
    }
  }

  /** Puts one loaded entry into the index. */
  method IndexOne(e: Item, lru: Lru<Node>, ghost m: Mem, ghost cs: nat, ghost top: nat, ghost ends: seq<nat>, ghost i: nat,
                  ghost told: Option<seq<Item>>)
    requires lru.Valid() && |lru.evictList| <= i < lru.size && i < |ends| && Ascending(ends)
    requires Untangled(lru.evictList, m, cs, top) && Faithful(m, cs, e) && EndsAt(e, ends[i]) && top < ends[i]
    requires told.Some? ==> Collected(lru.evictList, ends, i, told.value) && e in told.value && Distinct(told.value)
    modifies lru
    ensures lru.Valid() && lru.size == old(lru.size) && |lru.evictList| <= i + 1
    ensures Untangled(lru.evictList, m, cs, ends[i])
    ensures told.Some? ==> Collected(lru.evictList, ends, i + 1, told.value)
  {
    hide Without, Faithful, Has, Collected, Untangled, Ascending;
    if told.Some? {
      CollectedMore(lru.evictList, ends, i, told.value, e);
      WithoutMiss(lru.evictList, e.key);
    }
    UntangledMore(lru.evictList, m, cs, top, e);
    var evicted := lru.Add(e.key, e.value);
  }

  /**
   Indexes the node of every end, in ascending order of the ends. Over any image the entries it makes have
   disjoint chains, are what the bytes say, and the later a chain ends the newer is its entry; over an image that tells
   entries they are these entries.
   */
  method LoadNodes(data: array<byte>, cs: nat, ghost n: nat, ends: seq<nat>, prev: map<nat, nat>, lru: Lru<Node>,
                   ghost m: Mem, ghost told: Option<seq<Item>>)
    returns (end: Loading)
    requires Geometry(data, cs, n) && m == MemOf(data, cs, n)
    requires ends == EndList(m, cs, n) && prev == PrevMap(m, cs, n)
    requires lru.Valid() && lru.size == n && lru.evictList == [] && (told.Some? ==> Tells(m, cs, n, told.value))
    modifies lru
    ensures lru.Valid() && lru.size == n && |lru.evictList| <= n && Untangled(lru.evictList, m, cs, n)
    ensures told.Some? ==> end == AllLoaded && Reordered(lru.evictList, told.value)
    ensures end == AllLoaded ==> forall i :: 0 <= i < |ends| ==> Readable(m, cs, ends[i])
    ensures end != AllLoaded ==> exists i :: 0 <= i < |ends| && StopsAt(m, cs, ends, i, end)
  {
    hide MemOf, EndList, PrevMap, Faithful, Collected, Tells, EndsAt, Reordered, Readable, RefusedAt, FaultedAt;
    EndsFit(m, cs, n, ends);
    ghost var top := 0;
    CollectedNone(ends, told);
    if told.Some? { TellsDistinct(m, cs, n, told.value); }
    for i := 0 to |ends|
      invariant lru.Valid() && lru.size == n && m == MemOf(data, cs, n)
      invariant |lru.evictList| <= i && top == (if i == 0 then 0 else ends[i - 1]) && top <= n
      invariant Untangled(lru.evictList, m, cs, top)
      invariant told.Some? ==> Collected(lru.evictList, ends, i, told.value)
      invariant forall k :: 0 <= k < i ==> Readable(m, cs, ends[k])
    {
      var r := LoadOne(data, cs, n, prev, ends[i], m, told);
      if r.Invalid? {
        assert StopsAt(m, cs, ends, i, NodeRefused);
        return NodeRefused;
      }
      if r.Broken? {
        assert StopsAt(m, cs, ends, i, NodeFaulted);
        return NodeFaulted;
      }
      LoadedReadable(m, cs, r.entry, ends[i]);
      IndexOne(r.entry, lru, m, cs, top, ends, i, told);
      top := ends[i];
    }
    if told.Some? { CollectedAll(lru.evictList, ends, told.value, m, cs, n); }
    end := AllLoaded;
  }

  lemma LoadedReadable(m: Mem, cs: nat, x: Item, end: nat)
    requires Faithful(m, cs, x) && EndsAt(x, end)
    ensures Readable(m, cs, end)
  {
    hide Faithful, EndsAt;
  }

  lemma TellsDistinct(m: Mem, cs: nat, n: nat, told: seq<Item>)
    requires Tells(m, cs, n, told)
    ensures Distinct(told)
  {
  }

  lemma CollectedNone(ends: seq<nat>, told: Option<seq<Item>>)
    ensures told.Some? ==> Collected([], ends, 0, told.value)
  {
  }

  /** `m` with the link words of chunks `from+1 .. k` set to 0. */
  ghost predicate Zeroed(m0: Mem, m: Mem, cs: nat, from: nat, k: nat)
  {
    && MemOk(m, cs) && |m0| == |m| && k < |m|
    && (forall c :: 0 <= c < |m| && !(from < c <= k) ==> m[c] == m0[c])
    && (forall c :: from < c <= k ==> Next(m, c) == 0)
  }

  lemma ZeroedMore(m0: Mem, m: Mem, cs: nat, from: nat, k: nat)
    requires Zeroed(m0, m, cs, from, k) && from <= k && k + 1 < |m|
    ensures Zeroed(m0, Put(m, k + 1, 0, Le32(0)), cs, from, k + 1)
  {
    ZeroLink(m, k + 1);
  }

  lemma UptoMore(a: nat, b: nat)
    requires a < b
    ensures Upto(a, b) == Upto(a, b - 1) + [b] && Upto(a, a) == []
  {
  }

  lemma ZeroedNone(m: Mem, cs: nat, from: nat)
    requires MemOk(m, cs) && from < |m|
    ensures Zeroed(m, m, cs, from, from)
  {
  }

  /** Marks the chunks behind the first `from` as free; used for a fresh array and for a grown one. */
  method ZeroChunks(data: array<byte>, cs: nat, from: nat, size: nat, ghost n: nat) returns (chunkNum: nat, free: seq<nat>)
    requires Geometry(data, cs, n) && HEADER <= size && n == Whole(cs, size - HEADER) && from <= n
    modifies data
    ensures chunkNum == n && free == Upto(from, n)
    ensures Zeroed(old(MemOf(data, cs, n)), MemOf(data, cs, n), cs, from, n)
  {
    hide Whole, MemOf, Zeroed, Upto;
    chunkNum, free := 0, [];
    ZeroedNone(MemOf(data, cs, n), cs, from);
    var i := HEADER;
    while i < size
      invariant chunkNum <= n && i == HEADER + Times(cs, chunkNum) <= size
      invariant free == if chunkNum <= from then [] else Upto(from, chunkNum)
      invariant Zeroed(old(MemOf(data, cs, n)), MemOf(data, cs, n), cs, from, Max(from, chunkNum))
    {
      var next := i + cs;
      WholeIs(cs, size - HEADER, chunkNum);
      if next > size { break; }
      chunkNum := chunkNum + 1;
      WholeIs(cs, size - HEADER, chunkNum);
      if chunkNum > from {
        ZeroedMore(old(MemOf(data, cs, n)), MemOf(data, cs, n), cs, from, chunkNum - 1);
        CopyIn(data, cs, n, chunkNum, 0, Le32(0));
        UptoMore(from, chunkNum);
        free := free + [chunkNum];
      }
      i := next;
    }
    WholeIs(cs, size - HEADER, chunkNum);
  }
}
