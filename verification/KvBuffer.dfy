/**
 The buffer itself: a byte array written in place, a sorted list of free chunks and a recency index.
 Every method is proved against the abstract buffer of `KvSpec`; the ghost snapshot carries the invariant.
 */
module KvBuffer {
  import opened Bytes
  import opened KvArena
  import opened KvNode
  import opened KvWrite
  import opened KvLru
  import opened KvSpec
  import opened KvState
  import opened KvSnap
  import opened KvUpdate

  lemma {:induction false} InsertAt(s: seq<nat>, c: nat, i: nat)
    requires i <= |s| && (forall j :: 0 <= j < i ==> s[j] < c) && (i < |s| ==> s[i] >= c)
    ensures Insert(s, c) == s[..i] + [c] + s[i..]
  {
    if i > 0 {
      InsertAt(s[1..], c, i - 1);
      InsertFront(s, c, i);
    }
  }

  lemma InsertFront(s: seq<nat>, c: nat, i: nat)
    requires 0 < i <= |s|
    ensures [s[0]] + (s[1..][..i - 1] + [c] + s[1..][i - 1..]) == s[..i] + [c] + s[i..]
  {
  }

  lemma DetachedFacts(m: Mem, cs: nat, e: Item)
    requires NodeOk(m, cs, e)
    ensures MemOk(m, cs) && InRange(m, e.value.chunks) && NoDup(e.value.chunks) && e.value.chunks != []
    ensures 8 + |e.key| <= Times(cs - 4, |e.value.chunks|)
  {
    hide Payload;
  }

  lemma LaidBy(free: seq<nat>, was: seq<nat>, words: seq<nat>, b: Snap, key: Key, c: nat, idx: nat, start: nat)
    requires Updated(words, was, b, key, c, idx) && Resized(free, was, b.free, b.es[0].value.chunks, c)
    requires b.cs >= 32 && 4 <= start < b.cs && 8 + |key| == Times(b.cs - 4, idx) + start - 4
    ensures LaidAt(free, was, words, b, key, c)
  {
    hide Updated, Resized;
    TimesStep(b.cs - 4, idx);
  }

  lemma LaidOne(a: Snap, i: nat, b: Snap, key: Key, val: Val, c: nat)
    requires i < |a.es| && a.es[i].key == key && b.es != []
    requires LaidAt(a.free, a.es[i].value.chunks, Words(a.m, a.es[i].value.chunks), b, key, c)
    ensures Laid(a, b, key, val, c)
  {
    hide LaidAt, Words, Placed;
    SnapFacts(a);
    assert Has(a.es, key);
  }

  /** The chain in hand has been grown by the first free chunks, and nothing was evicted. */
  ghost predicate Grew(a: Snap, b: Snap, was: seq<nat>, chunks: seq<nat>)
  {
    && |was| <= |chunks| <= |was| + |a.free| && b.es == a.es
    && chunks == was + a.free[..|chunks| - |was|] && b.free == a.free[|chunks| - |was|..]
  }

  lemma GrewNone(a: Snap, was: seq<nat>)
    ensures Grew(a, a, was, was)
  {
    assert was + a.free[..0] == was;
  }

  lemma GrewRoom(a: Snap, b: Snap, was: seq<nat>, chunks: seq<nat>)
    requires Grew(a, b, was, chunks)
    ensures |b.free| == |a.free| + |was| - |chunks|
  {
  }

  lemma GrewMore(a: Snap, b: Snap, c: Snap, was: seq<nat>, chunks: seq<nat>, more: seq<nat>)
    requires Grew(a, b, was, chunks) && b.free != [] && c.es == b.es && more == chunks + [b.free[0]] && c.free == b.free[1..]
    ensures Grew(a, c, was, more)
  {
    var k := |chunks| - |was|;
    assert a.free[..k + 1] == a.free[..k] + [a.free[k]] && a.free[k..][1..] == a.free[k + 1..];
    assert was + a.free[..k] + [a.free[k]] == was + (a.free[..k] + [a.free[k]]);
  }

  lemma GiveOne(free: seq<nat>, chunks: seq<nat>, c: nat, k: nat)
    requires c <= k && |chunks| == k + 1
    ensures GiveBack(free, chunks[c..]) == GiveBack(Insert(free, chunks[k]), chunks[..k][c..])
  {
    assert chunks[c..][..|chunks[c..]| - 1] == chunks[..k][c..];
  }

  lemma GiveNone(free: seq<nat>, chunks: seq<nat>, c: nat)
    requires c == |chunks|
    ensures GiveBack(free, chunks[c..]) == free
  {
  }

  /** Growing and then cutting to size. */
  lemma ResizedIs(a: Snap, b: Snap, s: Snap, was: seq<nat>, chunks0: seq<nat>, c: nat)
    requires c <= |was| + |a.free| ==> Grew(a, b, was, chunks0)
    requires c <= |chunks0| && (chunks0 == was || |chunks0| == c)
    requires s.es != [] && s.es[0].value.chunks == chunks0[..c] && s.free == GiveBack(b.free, chunks0[c..])
    ensures Resized(a.free, was, s.free, s.es[0].value.chunks, c)
  {
    GiveNone(b.free, chunks0, |chunks0|);
    assert chunks0[..|chunks0|] == chunks0;
  }

  /** What `SetAt` leaves of the chain of its key, and what it found. */
  lemma SetHealth(a: Snap, i: nat, s: Snap, key: Key, idx: nat, start: nat, c: nat)
    requires i < |a.es| && a.es[i].key == key && a.cs == s.cs >= 32 && 4 <= start < a.cs && c > 0
    requires 8 + |key| == Times(a.cs - 4, idx) + start - 4
    requires Updated(Words(a.m, a.es[i].value.chunks), a.es[i].value.chunks, s, key, c, idx)
    requires idx == |a.es[i].value.chunks| <==> 8 + |key| == Times(a.cs - 4, |a.es[i].value.chunks|)
    requires idx == c <==> 8 + |key| == Times(a.cs - 4, c)
    ensures GoesBy(HealthOf(a, key), 8 + |key| == Times(a.cs - 4, |a.es[i].value.chunks|), 8 + |key| == Times(a.cs - 4, c),
                   HealthOf(s, key))
  {
    hide Times, Words, HealthOf, GoesBy;
    EntryFacts(a, i, a.cs);
    EntryFacts(s, 0, s.cs);
    DetachedFacts(a.m, a.cs, a.es[i]);
    DetachedFacts(s.m, s.cs, s.es[0]);
    HealthGoes(a, i, s, key, idx, start, c);
  }

  lemma FrontOut(e: Item, es: seq<Item>)
    ensures Without([e] + es, e.key) == es && Has([e] + es, e.key)
  {
    assert ([e] + es)[0] == e;
  }

  /** Walks the sorted list to the first chunk that is not smaller and inserts in front of it. */
  method FileChunk(free: seq<nat>, c: nat) returns (r: seq<nat>)
    ensures r == Insert(free, c)
  {
    var i := 0;
    while i < |free| && free[i] < c
      invariant i <= |free| && forall j :: 0 <= j < i ==> free[j] < c
    {
      i := i + 1;
    }
    InsertAt(free, c, i);
    r := free[..i] + [c] + free[i..];
  }

  /** One round of an eviction, in the snapshots and in the abstract eviction. */
  lemma RoundDone(a: Snap, b: Snap, t: Track, rest: seq<Pair>, p: Pair)
    requires t.left == rest + [p] && t.have == |a.free| + |a.open| < t.want && !(t.callback && Corner(t.w, p))
    requires Evicted(a, b, rest, Cost(t.w, p))
    ensures var t' := DropOne(t, rest, p);
            && t'.left == Seen(b) && t'.have == |b.free| + |b.open| && SameGoal(t, t')
            && EvictedOne(a, b) && b.cfg == a.cfg && b.open == a.open
  {
    hide Evict, Seen;
  }

  class KVBuffer {
    const data: array<byte>
    const cs: nat
    const n: nat
    const openLru: bool
    const onLruDel: bool
    const lru: Lru<Node>
    var freeChunk: seq<nat>
    ghost const header: seq<byte>
    ghost var s: Snap

    constructor (data: array<byte>, cs: nat, n: nat, openLru: bool, onLruDel: bool, lru: Lru<Node>,
                 freeChunk: seq<nat>, ghost s: Snap)
      ensures this.data == data && this.cs == cs && this.n == n && this.openLru == openLru
      ensures this.onLruDel == onLruDel && this.lru == lru && this.freeChunk == freeChunk && this.s == s
      ensures header == s.cfg.header
    {
      this.data, this.cs, this.n, this.openLru := data, cs, n, openLru;
      this.onLruDel, this.lru, this.freeChunk, this.s := onLruDel, lru, freeChunk, s;
      header := s.cfg.header;
    }

    /** The concrete fields are those of the snapshot. */
    ghost predicate Agrees()
      reads this, data, lru
    {
      && Geometry(data, cs, n) && s.m == MemOf(data, cs, n)
      && s.cfg == Config(cs, n, openLru, header) && s.free == freeChunk
      && lru.Valid() && lru.size == n
    }

    ghost predicate Valid()
      reads this, data, lru
    {
      Agrees() && s.open == multiset{} && s.es == lru.evictList
    }

    /** Writes 0 into the chunk's link and files the chunk under the free ones. */
    method DelChunk(c: nat)
      requires Agrees() && c in s.open
      modifies this`freeChunk, this`s, data
      ensures Agrees() && s == Free(old(s), c)
    {
      ghost var s' := Free(s, c);
      CopyIn(data, cs, n, c, 0, Le32(0));
      freeChunk := FileChunk(freeChunk, c);
      s := s';
    }

    /** Gives all chunks of a node back. */
    method DelNode(chunks: seq<nat>, ghost rest: multiset<nat>)
      requires Agrees() && s.open == rest + multiset(chunks)
      modifies this`freeChunk, this`s, data
      ensures Agrees() && s.open == rest && Freed(old(s), s, |chunks|, Elems(chunks))
    {
      assert chunks[0..] == chunks;
      for i := 0 to |chunks|
        invariant Agrees() && s.open == rest + multiset(chunks[i..])
        invariant Freed(old(s), s, i, Elems(chunks))
      {
        BagTail(chunks, i);
        FreedMore(old(s), s, i, Elems(chunks), chunks[i]);
        DelChunk(chunks[i]);
      }
    }
  
    /** The eviction callback for entry `e`, whose chunks are in hand: tells the user the value, frees the chunks. */
    method OnEvict(e: Item, ghost p: Pair, ghost rest: multiset<nat>) returns (crash: bool, calls: seq<Pair>)
      requires Agrees() && s.open == rest + multiset(e.value.chunks)
      requires NodeOk(s.m, cs, e) && p == Entry(e.key, ValOf(s.m, cs, e))
      modifies this`freeChunk, this`s, data
      ensures crash <==> onLruDel && Corner(cs - 4, p)
      ensures calls == if onLruDel && !crash then [p] else []
      ensures !crash ==> Agrees() && s.open == rest && Freed(old(s), s, Cost(cs - 4, p), Elems(e.value.chunks))
    {
      calls := [];
      NodeCost(s.m, cs, e);
      if onLruDel {
        var v := GetVal(data, cs, n, e.value);
        if v.Panic? { return true, []; }
        calls := [Entry(e.key, v.value)];
      }
      DelNode(e.value.chunks, rest);
      crash := false;
    }

    /** `removeOldest`: the last entry leaves the index and the callback frees it. */
    method EvictOldest(ghost front: seq<Item>, ghost rest: seq<Pair>, ghost p: Pair) returns (crash: bool, calls: seq<Pair>)
      requires Agrees() && lru.evictList == front + s.es && s.es != [] && Seen(s) == rest + [p]
      modifies this`freeChunk, this`s, data, lru
      ensures crash <==> onLruDel && Corner(cs - 4, p)
      ensures calls == if onLruDel && !crash then [p] else []
      ensures !crash ==> Agrees() && lru.evictList == front + s.es && Evicted(old(s), s, rest, Cost(cs - 4, p))
    {
      hide MemOf, Seen, InSync, NodeOk, ValOf, Corner, Cost, Freed, Evicted;
      ghost var a, k := s, |s.es| - 1;
      LastFacts(a, rest, p, k, cs);
      PopLast(front, a.es[..k], a.es[k]);
      assert a.es == a.es[..k] + [a.es[k]];
      var e := lru.RemoveOldest();
      s := DropLast(a);
      crash, calls := OnEvict(e.value, p, a.open);
      if !crash {
        EvictedBy(a, s, rest, p, Cost(cs - 4, p));
        EvictedFacts(a, s, rest, Cost(cs - 4, p));
      }
    }
  
    /** In the middle of an operation: the entries stand behind `front`, the abstract eviction is at `t`. */
    ghost predicate Room(front: seq<Item>, t: Track, calls: seq<Pair>)
      reads this, data, lru
    {
      && Agrees() && lru.evictList == front + s.es
      && t.w == cs - 4 && t.callback == onLruDel && t.left == Seen(s) && t.have == |s.free| + |s.open|
      && calls == (if onLruDel then t.dropped else [])
    }

    /** One round of either eviction loop. */
    method EvictRound(ghost front: seq<Item>, ghost t: Track, calls: seq<Pair>)
      returns (crash: bool, calls': seq<Pair>, ghost t': Track)
      requires Room(front, t, calls) && openLru && t.have < t.want <= n
      modifies this`freeChunk, this`s, data, lru
      ensures !crash ==> Room(front, t', calls') && SameGoal(t, t')
      ensures !crash ==> EvictedOne(old(s), s)
      ensures crash ==> onLruDel && Goal(t).crash && Goal(t).dropped == calls'
    {
      hide MemOf, Seen, Evict, Goal, Underway, Evicted, EvictedOne, Corner, Cost;
      ghost var a, k := s, |s.es| - 1;
      SomeEntry(a);
      ghost var rest, p := t.left[..k], t.left[k];
      assert t.left == rest + [p];
      var more;
      crash, more := EvictOldest(front, rest, p);
      calls' := calls + more;
      t' := t;
      if crash {
        TrackCrash(t, rest, p);
      } else {
        t' := DropOne(t, rest, p);
        RoundDone(a, s, t, rest, p);
      }
    }

    /** The eviction loop of an insert. */
    method MakeRoom(chNeed: nat, ghost t0: Track) returns (reply: Reply, calls: seq<Pair>, ghost t: Track)
      requires Room([], t0, []) && s.open == multiset{} && chNeed == t0.want <= n
      modifies this`freeChunk, this`s, data, lru
      ensures reply == Full || reply == Crash || reply == Stored
      ensures reply != Crash ==> Valid() && (InSync(old(s)) ==> InSync(s)) && Kept(old(s), s)
      ensures reply == Stored ==> Room([], t, calls) && SameGoal(t0, t) && t.want <= t.have && chNeed <= |s.free|
      ensures reply == Full ==> !openLru && t0.have < chNeed && s == old(s) && calls == []
      ensures reply == Crash ==> openLru && onLruDel && Goal(t0).crash && calls == Goal(t0).dropped
      ensures !openLru && reply == Stored ==> chNeed <= t0.have
      ensures chNeed <= |old(s).free| ==> s == old(s) && freeChunk == old(freeChunk)
    {
      hide MemOf, Seen, InSync, Underway, Goal, Evict, Kept;
      calls, t := [], t0;
      KeptSelf(s);
      while chNeed > |freeChunk|
        invariant Room([], t, calls) && SameGoal(t0, t)
        invariant s.open == multiset{} && (InSync(old(s)) ==> InSync(s)) && s.cfg == old(s).cfg && Kept(old(s), s)
        invariant !openLru || chNeed <= |old(s).free| ==> s == old(s) && freeChunk == old(freeChunk)
        invariant !openLru ==> t == t0
        decreases |s.es|
      {
        if !openLru {
          assert [] + s.es == s.es;
          reply := Full;
          return;
        }
        var crash;
        ghost var a := s;
        crash, calls, t := EvictRound([], t, calls);
        if crash { reply := Crash; return; }
        KeptTrans(old(s), a, s);
      }
      assert [] + s.es == s.es;
      reply := Stored;
    }

    /** Takes the first `k` free chunks. */
    method TakeFree(k: nat) returns (chunks: seq<nat>)
      requires Agrees() && s.open == multiset{} && k <= |freeChunk|
      modifies this`freeChunk, this`s
      ensures Agrees() && s.open == multiset(chunks) && |chunks| == k && |freeChunk| == |old(freeChunk)| - k
      ensures Gist(s) == Gist(old(s)) && s.m == old(s).m
      ensures chunks == old(freeChunk)[..k] && freeChunk == old(freeChunk)[k..]
    {
      chunks := [];
      while |chunks| < k
        invariant Agrees() && s.open == multiset(chunks) && |chunks| <= k
        invariant |freeChunk| == |old(freeChunk)| - |chunks| && Gist(s) == Gist(old(s)) && s.m == old(s).m
        invariant chunks == old(freeChunk)[..|chunks|] && freeChunk == old(freeChunk)[|chunks|..]
      {
        chunks := chunks + [freeChunk[0]];
        freeChunk := freeChunk[1..];
        s := Take(s);
      }
    }
  
    /** Writes a fresh node over the chunks in hand and indexes it; the index never pushes an entry out. */
    method StoreNew(key: Key, val: Val, chunks: seq<nat>)
      requires Agrees() && lru.evictList == s.es && !Has(s.es, key) && s.open == multiset(chunks)
      requires 8 + |key| + |val| < TWO32 && Fits(cs - 4, |chunks|, 8 + |key| + |val|)
      modifies this`s, data, lru
      ensures Valid() && Seen(s) == [Entry(key, val)] + Seen(old(s)) && (InSync(s) <==> InSync(old(s)))
      ensures s.free == old(s).free && Rejoined(old(s), s, key) && key !in TornKeys(s)
      ensures s.es == [Entry(key, Node(chunks, |key|, |val|))] + old(s).es && SameBut(old(s).m, s.m, Elems(chunks))
    {
      hide MemOf, Seen, InSync, Fits, Times, Without, TornKeys, Rejoined, Has, Chains, Words, SameBut;
      ghost var a := s;
      s := WriteFresh(data, cs, n, chunks, key, val, s);
      assert Chains(s) == Chains(a) + {(s.es[0], Words(s.m, chunks))};
      RejoinedBy(a, s, Entry(key, Node(chunks, |key|, |val|)), false);
      WithoutMiss(lru.evictList, key);
      var evicted := lru.Add(key, Node(chunks, |key|, |val|));
    }

    /** Allocates and writes a new node when there is room. */
    method PlaceNew(key: Key, val: Val, chNeed: nat)
      requires Valid() && !Has(s.es, key) && chNeed <= |s.free|
      requires 8 + |key| + |val| < TWO32 && Fits(cs - 4, chNeed, 8 + |key| + |val|)
      modifies this`freeChunk, this`s, data, lru
      ensures Valid() && Seen(s) == [Entry(key, val)] + Seen(old(s)) && |s.free| == |old(s).free| - chNeed
      ensures (InSync(s) <==> InSync(old(s))) && KeptBut(old(s), s, key) && key !in TornKeys(s)
      ensures Placed(old(s), s, key, val, chNeed)
    {
      hide Seen, InSync, TornKeys, Fits, SameBut, Chains;
      ghost var a := s;
      var chunks := TakeFree(chNeed);
      KeptGist(a, s);
      ghost var b := s;
      StoreNew(key, val, chunks);
      KeptButTrans(a, b, s, key);
    }

    /** The part of `Set` for a key that is not there. */
    method InsertNew(key: Key, val: Val, chNeed: nat, ghost t0: Track) returns (reply: Reply, calls: seq<Pair>)
      requires Valid() && Room([], t0, []) && !Has(t0.es0, key) && chNeed == t0.want <= n
      requires 8 + |key| + |val| < TWO32 && Fits(cs - 4, chNeed, 8 + |key| + |val|)
      modifies this`freeChunk, this`s, data, lru
      ensures reply == Full || reply == Crash || reply == Stored
      ensures reply != Crash ==> Valid()
      ensures reply == Crash ==> openLru && onLruDel && Goal(t0).crash && calls == Goal(t0).dropped
      ensures reply == Full ==> !openLru && t0.have < chNeed && calls == [] && s == old(s)
      ensures reply == Stored ==> !Goal(t0).crash && calls == (if onLruDel then Goal(t0).dropped else [])
      ensures reply == Stored ==> Seen(s) == [Entry(key, val)] + Goal(t0).entries && |s.free| == Goal(t0).free - chNeed
      ensures reply == Stored ==> openLru || chNeed <= t0.have
      ensures InSync(old(s)) && reply != Crash ==> InSync(s)
      ensures reply != Crash ==> KeptBut(old(s), s, key)
      ensures reply == Stored ==> key !in TornKeys(s)
      ensures reply == Stored && chNeed <= |old(s).free| ==> Placed(old(s), s, key, val, chNeed)
    {
      hide MemOf, Seen, InSync, Goal, Underway, Fits, Evict, Kept, KeptBut, TornKeys, Placed;
      ghost var t;
      reply, calls, t := MakeRoom(chNeed, t0);
      if reply != Crash { KeptWeaken(old(s), s, key); }
      if reply != Stored { return; }
      ghost var a := s;
      TrackDone(t);
      TrackNoKey(t, key);
      SeenHas(s, key);
      PlaceNew(key, val, chNeed);
      KeptButTrans(old(s), a, s, key);
    }

    /** The chain of `key` is in hand, as `chunks`, in the middle of an update. */
    ghost predicate Holding(key: Key, m0: Mem, was: seq<nat>, chunks: seq<nat>)
      reads this
    {
      s.open == multiset(chunks) && Hand(m0, s.m, cs, key, was, chunks)
    }

    /** Appends the first free chunk to the chain in hand. */
    method TakeOne(key: Key, chunks: seq<nat>, ghost m0: Mem, ghost was: seq<nat>) returns (more: seq<nat>)
      requires Agrees() && freeChunk != [] && Holding(key, m0, was, chunks) && |was| <= |chunks|
      modifies this`freeChunk, this`s
      ensures Agrees() && Holding(key, m0, was, more) && |more| == |chunks| + 1
      ensures Gist(s) == Gist(old(s)) && s.m == old(s).m && |s.free| == |old(s).free| - 1
      ensures more == chunks + [old(s).free[0]] && s.free == old(s).free[1..]
    {
      FirstFree(s, chunks);
      HandTake(m0, s.m, cs, key, was, chunks, freeChunk[0]);
      more := chunks + [freeChunk[0]];
      freeChunk := freeChunk[1..];
      s := Take(s);
    }

    /** Frees the last chunk of the chain in hand. */
    method CutOne(key: Key, chunks: seq<nat>, k: nat, ghost m0: Mem, ghost was: seq<nat>)
      requires Agrees() && Holding(key, m0, was, chunks) && |chunks| == k + 1
      requires 8 + |key| <= Times(cs - 4, k)
      modifies this`freeChunk, this`s, data
      ensures Agrees() && Holding(key, m0, was, chunks[..k])
      ensures Gist(s) == Gist(old(s)) && s.free == Insert(old(s).free, chunks[k]) && |s.free| == |old(s).free| + 1
    {
      CutHand(s, m0, key, was, chunks, k);
      DelChunk(chunks[k]);
    }
  
    /** One round of the growing loop that evicts. */
    method EvictForChain(key: Key, chunks: seq<nat>, ghost e: Item, ghost m0: Mem, ghost was: seq<nat>, ghost t: Track, calls: seq<Pair>)
      returns (crash: bool, calls': seq<Pair>, ghost t': Track)
      requires Room([e], t, calls) && openLru && t.have < t.want <= n && Holding(key, m0, was, chunks)
      modifies this`freeChunk, this`s, data, lru
      ensures !crash ==> Room([e], t', calls') && SameGoal(t, t') && Holding(key, m0, was, chunks)
      ensures !crash ==> Kept(old(s), s) && (InSync(old(s)) ==> InSync(s)) && |s.es| < |old(s).es|
      ensures crash ==> onLruDel && Goal(t).crash && Goal(t).dropped == calls'
    {
      hide MemOf, Seen, InSync, Hand, Underway, Goal, Evict, Kept;
      ghost var a := s;
      crash, calls', t' := EvictRound([e], t, calls);
      if !crash { EvictedHand(a, s, m0, key, was, chunks); }
    }

    /** One round of the growing loop that takes a free chunk. */
    method TakeForChain(key: Key, chunks: seq<nat>, ghost e: Item, ghost m0: Mem, ghost was: seq<nat>, ghost t: Track,
                        ghost calls: seq<Pair>)
      returns (more: seq<nat>)
      requires Room([e], t, calls) && freeChunk != [] && Holding(key, m0, was, chunks) && |was| <= |chunks|
      modifies this`freeChunk, this`s
      ensures Room([e], t, calls) && Holding(key, m0, was, more) && Kept(old(s), s) && (InSync(old(s)) <==> InSync(s))
      ensures more == chunks + [old(s).free[0]] && s.free == old(s).free[1..] && s.es == old(s).es
    {
      hide MemOf, Seen, InSync, Hand, Underway, Goal, Evict, Kept;
      ghost var a := s;
      more := TakeOne(key, chunks, m0, was);
      KeptGist(a, s);
    }

    /** The growing loop of an update: take a free chunk, or evict when there is none. */
    method Grow(key: Key, chNeed: nat, was: seq<nat>, ghost e: Item, ghost m0: Mem, ghost t0: Track)
      returns (reply: Reply, calls: seq<Pair>, chunks: seq<nat>, ghost t: Track)
      requires Room([e], t0, []) && chNeed == t0.want <= n && Holding(key, m0, was, was)
      modifies this`freeChunk, this`s, data, lru
      ensures reply != Crash ==> Room([e], t, calls) && SameGoal(t0, t) && Holding(key, m0, was, chunks)
      ensures reply != Crash ==> |was| <= |chunks| && (InSync(old(s)) ==> InSync(s)) && Kept(old(s), s)
      ensures reply == Stored ==> chNeed <= |chunks| && (chunks == was || |chunks| == chNeed)
      ensures reply == Full ==> !openLru && freeChunk == [] && |chunks| < chNeed && calls == []
      ensures reply == Crash ==> openLru && onLruDel && Goal(t0).crash && calls == Goal(t0).dropped
      ensures reply != TooLong && (!openLru ==> t == t0)
      ensures chNeed <= |was| + |old(s).free| ==> reply == Stored && Grew(old(s), s, was, chunks)
    {
      hide MemOf, Seen, InSync, Hand, Underway, Goal, Evict, Kept, Grew, Geometry, Gist;
      calls, t, chunks := [], t0, was;
      KeptSelf(s);
      GrewNone(s, was);
      while chNeed > |chunks|
        invariant Room([e], t, calls) && SameGoal(t0, t) && Holding(key, m0, was, chunks)
        invariant |was| <= |chunks| && (InSync(old(s)) ==> InSync(s)) && Kept(old(s), s)
        invariant chunks == was || |chunks| <= chNeed
        invariant chNeed <= |was| + |old(s).free| ==> Grew(old(s), s, was, chunks)
        invariant !openLru ==> t == t0 && calls == []
        decreases |s.es|, chNeed - |chunks|
      {
        ghost var a, before := s, chunks;
        if chNeed <= |was| + |old(s).free| { GrewRoom(old(s), s, was, chunks); }
        if freeChunk == [] {
          if !openLru { reply := Full; return; }
          var crash;
          crash, calls, t := EvictForChain(key, chunks, e, m0, was, t, calls);
          if crash { reply := Crash; return; }
        } else {
          chunks := TakeForChain(key, chunks, e, m0, was, t, calls);
          if chNeed <= |was| + |old(s).free| { GrewMore(old(s), a, s, was, before, chunks); }
        }
        KeptTrans(old(s), a, s);
      }
      reply := Stored;
    }

    /** The shrinking loop of an update. */
    method Shrink(key: Key, chNeed: nat, chunks0: seq<nat>, ghost m0: Mem, ghost was: seq<nat>) returns (chunks: seq<nat>)
      requires Agrees() && Holding(key, m0, was, chunks0)
      requires 8 + |key| <= Times(cs - 4, chNeed) && chNeed <= |chunks0| && |was| <= |chunks0|
      modifies this`freeChunk, this`s, data
      ensures Agrees() && Holding(key, m0, was, chunks) && |chunks| == chNeed && CutOff(s.free, was, |chunks|)
      ensures Gist(s) == Gist(old(s)) && |s.free| + |chunks| == |old(s).free| + |chunks0|
      ensures chunks == chunks0[..chNeed] && s.free == GiveBack(old(s).free, chunks0[chNeed..])
    {
      hide MemOf, Seen, InSync, Hand, Gist, Times, GiveBack;
      chunks := chunks0;
      ghost var goal := GiveBack(s.free, chunks0[chNeed..]);
      while chNeed < |chunks|
        invariant Agrees() && Holding(key, m0, was, chunks) && chNeed <= |chunks| && CutOff(s.free, was, |chunks|)
        invariant Gist(s) == Gist(old(s)) && |s.free| + |chunks| == |old(s).free| + |chunks0|
        invariant chunks == chunks0[..|chunks|] && GiveBack(s.free, chunks[chNeed..]) == goal
      {
        var chNow := |chunks| - 1;
        GiveOne(s.free, chunks, chNeed, chNow);
        TimesMono(cs - 4, chNeed, chNow);
        CutOffMore(s, m0, key, was, chunks, chNow);
        CutOne(key, chunks, chNow, m0, was);
        chunks := chunks[..chNow];
      }
      GiveNone(s.free, chunks, chNeed);
    }
  
    /** What an update knows of the entry `e` it has taken out of the index. */
    ghost predicate Detached(e: Item, m0: Mem)
      reads this, data, lru
    {
      && Agrees() && lru.evictList == [e] + s.es && !Has(s.es, e.key)
      && NodeOk(m0, cs, e) && (forall c :: c in e.value.chunks ==> Next(m0, c) != 0)
    }

    /** Writes the value and puts the entry back in front. */
    method PutBack(key: Key, val: Val, chunks: seq<nat>, idx: nat, start: nat, ghost e: Item, ghost m0: Mem)
      requires Detached(e, m0) && e.key == key && Holding(key, m0, e.value.chunks, chunks)
      requires idx <= |e.value.chunks| && 4 <= start < cs && 8 + |key| == Times(cs - 4, idx) + start - 4
      requires 8 + |key| + |val| < TWO32 && Fits(cs - 4, |chunks|, 8 + |key| + |val|) && CutOff(s.free, e.value.chunks, |chunks|)
      modifies this`s, data, lru
      ensures Valid() && Seen(s) == [Entry(key, val)] + Seen(old(s)) && s.free == old(s).free
      ensures Rejoined(old(s), s, key)
      ensures Linked(m0, cs, e.value.chunks) ==> (key in TornKeys(s) <==> !(idx == |e.value.chunks| <==> idx == |chunks|))
      ensures Updated(Words(m0, e.value.chunks), e.value.chunks, s, key, |chunks|, idx)
      ensures s.es == [Entry(key, Node(chunks, |key|, |val|))] + old(s).es
      ensures Linked(m0, cs, e.value.chunks) && InSync(old(s)) ==> Settles(s, idx == |e.value.chunks| <==> idx == |chunks|)
    {
      hide Words, Tidy, Rewritten, TornKeys, Rejoined, MemOf, Seen, InSync, Linked, Times, Payload, Hand, Settles, CutOff, NodeOk, Next, Without;
      ghost var es := s.es;
      DetachedFacts(m0, cs, e);
      DetachedTidy(m0, cs, e);
      assert forall j :: 0 <= j < |e.value.chunks| ==> e.value.chunks[j] in e.value.chunks;
      s := WriteBack(data, cs, n, chunks, key, val, idx, start, s, m0, e.value.chunks);
      FrontOut(e, es);
      var evicted := lru.Add(key, Node(chunks, |key|, |val|));
    }
  
    /** The end of an update that has found room: cut the chain to size, write the value, index the entry. */
    method Finish(key: Key, val: Val, chNeed: nat, chunks0: seq<nat>, idx: nat, start: nat, ghost e: Item, ghost m0: Mem)
      requires Detached(e, m0) && e.key == key && Holding(key, m0, e.value.chunks, chunks0)
      requires chNeed <= |chunks0| && |e.value.chunks| <= |chunks0|
      requires idx <= |e.value.chunks| && 4 <= start < cs && 8 + |key| == Times(cs - 4, idx) + start - 4
      requires 8 + |key| + |val| < TWO32 && Fits(cs - 4, chNeed, 8 + |key| + |val|)
      modifies this`freeChunk, this`s, data, lru
      ensures Valid() && Seen(s) == [Entry(key, val)] + Seen(old(s)) && |s.free| + chNeed == |old(s).free| + |chunks0|
      ensures KeptBut(old(s), s, key)
      ensures Linked(m0, cs, e.value.chunks) ==> (key in TornKeys(s) <==> !(idx == |e.value.chunks| <==> idx == chNeed))
      ensures Updated(Words(m0, e.value.chunks), e.value.chunks, s, key, chNeed, idx)
      ensures s.es == [Entry(key, Node(chunks0[..chNeed], |key|, |val|))] + old(s).es
      ensures s.free == GiveBack(old(s).free, chunks0[chNeed..])
      ensures Linked(m0, cs, e.value.chunks) && InSync(old(s)) ==> Settles(s, idx == |e.value.chunks| <==> idx == chNeed)
    {
      hide Words, Updated, TornKeys, Linked, MemOf, Seen, InSync, Hand, Settles, Times, CutOff;
      ghost var a := s;
      var chunks := Shrink(key, chNeed, chunks0, m0, e.value.chunks);
      KeptGist(a, s);
      ghost var b := s;
      PutBack(key, val, chunks, idx, start, e, m0);
      KeptButTrans(a, b, s, key);
    }

    /** An update that found no room and may not evict: the entry goes back as it was. */
    method GiveUp(chunks: seq<nat>, ghost e: Item, ghost m0: Mem)
      requires Detached(e, m0) && Holding(e.key, m0, e.value.chunks, chunks) && |e.value.chunks| <= |chunks| && !openLru
      modifies this`s
      ensures Valid() && Seen(s) == [Entry(e.key, ValOf(m0, cs, e))] + Seen(old(s)) && s.free == old(s).free
      ensures InSync(old(s)) && Linked(m0, cs, e.value.chunks) ==> InSync(s)
      ensures KeptBut(old(s), s, e.key) && (e.key in TornKeys(s) <==> !Linked(m0, cs, e.value.chunks))
      ensures s.es != [] && s.es[0] == e && (e, Words(m0, e.value.chunks)) in Chains(s)
    {
      hide Chains, Words, TornKeys, Linked, MemOf, Seen, InSync, Hand, NodeOk;
      ghost var a := s;
      s := Leak(s, m0, e, chunks);
      assert Chains(s) == Chains(a) + {(e, Words(m0, e.value.chunks))};
      RejoinedBy(a, s, e, !Linked(m0, cs, e.value.chunks));
    }

    /** The part of `Set` for a key that is there, from where its value position is known. */
    method Update(key: Key, val: Val, chNeed: nat, node: Node, idx: nat, start: nat, ghost m0: Mem, ghost t0: Track)
      returns (reply: Reply, calls: seq<Pair>)
      requires Detached(Entry(key, node), m0) && Holding(key, m0, node.chunks, node.chunks)
      requires Room([Entry(key, node)], t0, []) && !Has(t0.es0, key) && chNeed == t0.want <= n
      requires 8 + |key| + |val| < TWO32 && Fits(cs - 4, chNeed, 8 + |key| + |val|)
      requires idx <= |node.chunks| && 4 <= start < cs && 8 + |key| == Times(cs - 4, idx) + start - 4
      modifies this`freeChunk, this`s, data, lru
      ensures reply == Full || reply == Crash || reply == Stored
      ensures reply != Crash ==> Valid()
      ensures reply == Crash ==> openLru && onLruDel && Goal(t0).crash && calls == Goal(t0).dropped
      ensures reply == Full ==> !openLru && t0.have < chNeed && calls == [] && s.free == []
      ensures reply == Full ==> Seen(s) == [Entry(key, ValOf(m0, cs, Entry(key, node)))] + t0.left
      ensures reply == Stored ==> !Goal(t0).crash && calls == (if onLruDel then Goal(t0).dropped else [])
      ensures reply == Stored ==> Seen(s) == [Entry(key, val)] + Goal(t0).entries && |s.free| == Goal(t0).free - chNeed
      ensures reply == Stored ==> openLru || chNeed <= t0.have
      ensures InSync(old(s)) && Linked(m0, cs, node.chunks) && reply == Full ==> InSync(s)
      ensures InSync(old(s)) && Linked(m0, cs, node.chunks) && reply == Stored ==>
                Settles(s, idx == |node.chunks| <==> idx == chNeed)
      ensures reply != Crash ==> KeptBut(old(s), s, key)
      ensures reply == Full ==> (key in TornKeys(s) <==> !Linked(m0, cs, node.chunks))
      ensures reply == Stored && Linked(m0, cs, node.chunks) ==>
                (key in TornKeys(s) <==> !(idx == |node.chunks| <==> idx == chNeed))
      ensures reply == Stored ==> Updated(Words(m0, node.chunks), node.chunks, s, key, chNeed, idx)
      ensures reply == Stored ==> Resized(old(s).free, node.chunks, s.free, s.es[0].value.chunks, chNeed)
      ensures reply == Full ==> (Entry(key, node), Words(m0, node.chunks)) in Chains(s)
    {
      hide MemOf, Seen, Goal, Underway, Evict, Hand, NodeOk, ValOf, Grew, GiveBack, Resized, Chains, Words, Updated, TornKeys, Kept, KeptBut, Linked, Settles, InSync;
      ghost var e := Entry(key, node);
      var chunks;
      ghost var t;
      reply, calls, chunks, t := Grow(key, chNeed, node.chunks, e, m0, t0);
      if reply == Crash { return; }
      TrackNoKey(t, key);
      SeenHas(s, key);
      ghost var a := s;
      if reply == Full {
        GiveUp(chunks, e, m0);
      } else {
        TrackDone(t);
        Finish(key, val, chNeed, chunks, idx, start, e, m0);
        ResizedIs(old(s), a, s, node.chunks, chunks, chNeed);
      }
      KeptButTrans(old(s), a, s, key);
    }
  
    /** `Set` for a key that is there: takes its entry, at position `i`, out of the index and updates it. */
    method SetAt(key: Key, val: Val, chNeed: nat, node: Node, idx: nat, start: nat, ghost i: nat, ghost p: Pair, ghost t0: Track)
      returns (reply: Reply, calls: seq<Pair>)
      requires Agrees() && s.open == multiset{} && i < |s.es| && s.es[i] == Entry(key, node) && p == Seen(s)[i]
      requires lru.evictList == [Entry(key, node)] + Without(s.es, key)
      requires t0 == Begin(cs - 4, onLruDel, Without(Seen(s), key), |s.free| + |node.chunks|, chNeed) && chNeed <= n
      requires 8 + |key| + |val| < TWO32 && Fits(cs - 4, chNeed, 8 + |key| + |val|)
      requires idx <= |node.chunks| && 4 <= start < cs && 8 + |key| == Times(cs - 4, idx) + start - 4
      modifies this`freeChunk, this`s, data, lru
      ensures reply == Full || reply == Crash || reply == Stored
      ensures reply != Crash ==> Valid()
      ensures reply == Crash ==> openLru && onLruDel && Goal(t0).crash && calls == Goal(t0).dropped
      ensures reply == Full ==> !openLru && t0.have < chNeed && calls == [] && s.free == []
      ensures reply == Full ==> Seen(s) == [p] + t0.left
      ensures reply == Stored ==> !Goal(t0).crash && calls == (if onLruDel then Goal(t0).dropped else [])
      ensures reply == Stored ==> Seen(s) == [Entry(key, val)] + Goal(t0).entries && |s.free| == Goal(t0).free - chNeed
      ensures reply == Stored ==> openLru || chNeed <= t0.have
      ensures InSync(old(s)) && reply == Full ==> InSync(s)
      ensures InSync(old(s)) && reply == Stored ==> Settles(s, idx == |node.chunks| <==> idx == chNeed)
      ensures reply != Crash ==> KeptBut(old(s), s, key)
      ensures reply == Full ==> (key in TornKeys(s) <==> key in TornKeys(old(s)))
      ensures reply == Stored && key !in TornKeys(old(s)) ==>
                (key in TornKeys(s) <==> !(idx == |node.chunks| <==> idx == chNeed))
      ensures reply == Stored ==> Updated(Words(old(s).m, node.chunks), node.chunks, s, key, chNeed, idx)
      ensures reply == Stored ==> Resized(old(s).free, node.chunks, s.free, s.es[0].value.chunks, chNeed)
      ensures reply == Full ==> (Entry(key, node), Words(old(s).m, node.chunks)) in Chains(s)
    {
      hide Resized, Chains, Words, Updated, TornKeys, KeptBut, Linked, Settles, InSync, MemOf, Seen, Without, NodeOk, Goal, Underway, Cost, Corner, ValOf, Fits, Times, Hand;
      ghost var a := s;
      EntryFacts(a, i, cs);
      HandStart(a, i);
      DropNoKey(a, i);
      TornSplit(a, i);
      s := DropAt(a, i);
      ghost var b := s;
      reply, calls := Update(key, val, chNeed, node, idx, start, a.m, t0);
      if reply != Crash { KeptButTrans(a, b, s, key); }
    }

    /** `Set` for a key that is there: `Get` has moved its entry, at position `i` before, to the front. */
    method SetOld(key: Key, val: Val, chNeed: nat, node: Node, ghost i: nat, ghost p: Pair, ghost t0: Track)
      returns (reply: Reply, calls: seq<Pair>)
      requires Agrees() && s.open == multiset{} && i < |s.es| && s.es[i] == Entry(key, node) && p == Seen(s)[i]
      requires lru.evictList == [Entry(key, node)] + Without(s.es, key)
      requires t0 == Begin(cs - 4, onLruDel, Without(Seen(s), key), |s.free| + |node.chunks|, chNeed) && chNeed <= n
      requires 8 + |key| + |val| < TWO32 && Fits(cs - 4, chNeed, 8 + |key| + |val|)
      modifies this`freeChunk, this`s, data, lru
      ensures reply == Full || reply == Crash || reply == Stored
      ensures reply != Crash ==> Valid()
      ensures reply == Crash ==> openLru && onLruDel && Goal(t0).crash && calls == Goal(t0).dropped
      ensures reply == Full ==> !openLru && t0.have < chNeed && calls == [] && s.free == []
      ensures reply == Full ==> Seen(s) == [p] + t0.left
      ensures reply == Stored ==> !Goal(t0).crash && calls == (if onLruDel then Goal(t0).dropped else [])
      ensures reply == Stored ==> Seen(s) == [Entry(key, val)] + Goal(t0).entries && |s.free| == Goal(t0).free - chNeed
      ensures reply == Stored ==> openLru || chNeed <= t0.have
      ensures InSync(old(s)) && reply == Full ==> InSync(s)
      ensures InSync(old(s)) && reply == Stored ==>
                Settles(s, 8 + |key| == Times(cs - 4, |node.chunks|) <==> 8 + |key| == Times(cs - 4, chNeed))
      ensures reply != Crash ==> KeptBut(old(s), s, key)
      ensures reply == Full ==> (key in TornKeys(s) <==> key in TornKeys(old(s)))
      ensures reply == Stored && key !in TornKeys(old(s)) ==>
                (key in TornKeys(s) <==> !(8 + |key| == Times(cs - 4, |node.chunks|) <==> 8 + |key| == Times(cs - 4, chNeed)))
      ensures reply == Full ==> HealthOf(s, key) == HealthOf(old(s), key)
      ensures reply == Stored ==> GoesBy(HealthOf(old(s), key), 8 + |key| == Times(cs - 4, |node.chunks|),
                                         8 + |key| == Times(cs - 4, chNeed), HealthOf(s, key))
      ensures reply == Stored ==> s.es != [] && LaidAt(old(s).free, node.chunks, Words(old(s).m, node.chunks), s, key, chNeed)
    {
      hide Resized, Chains, Words, Updated, HealthOf, MemOf, Seen, InSync, Without, Goal, Underway, NodeOk, Cost, Corner, Geometry, TornKeys, KeptBut, Settles;
      EntryFacts(s, i, cs);
      var idx, start := ValuePlace(cs, node, key, chNeed);
      ghost var a := s;
      reply, calls := SetAt(key, val, chNeed, node, idx, start, i, p, t0);
      if reply == Full { SameHealth(a, i, s); }
      if reply == Stored {
        SetHealth(a, i, s, key, idx, start, chNeed);
        LaidBy(a.free, node.chunks, Words(a.m, node.chunks), s, key, chNeed, idx, start);
      }
    }
  
    /** The buffer as its user sees it. */
    ghost function Abstract(): (b: Model)
      requires Valid()
      reads this, data, lru
      ensures b.w == cs - 4 > 0
    {
      Model(cs - 4, n, openLru, onLruDel, Seen(s), |s.free|)
    }

    /** `Set` for a missing key, in the user's terms. */
    method SetMissing(key: Key, val: Val, chNeed: nat, ghost b: Model) returns (reply: Reply, calls: seq<Pair>)
      requires Valid() && b == Abstract() && !Has(s.es, key) && chNeed <= n
      requires 8 + |key| + |val| < TWO32 && !TooLarge(b.w, b.n, 8 + |key| + |val|)
      requires chNeed == ChunksFor(cs - 4, 8 + |key| + |val|) && Fits(cs - 4, chNeed, 8 + |key| + |val|)
      modifies this`freeChunk, this`s, data, lru
      ensures reply == KvSpec.Set(b, key, val).reply
      ensures calls == if onLruDel then KvSpec.Set(b, key, val).dropped else []
      ensures reply != Crash ==> Valid() && Abstract() == KvSpec.Set(b, key, val).model
      ensures InSync(old(s)) && reply != Crash ==> InSync(s)
      ensures reply != Crash ==> KeptBut(old(s), s, key)
      ensures reply == Stored ==> key !in TornKeys(s)
      ensures reply != TooLong && (reply == Full ==> s == old(s))
      ensures reply == Stored ==> Laid(old(s), s, key, val, chNeed)
    {
      hide Placed, MemOf, Seen, InSync, Without, Goal, Underway, KvSpec.Set, Fits, Times, Cost, ChunksFor, TornKeys, KeptBut;
      SeenHas(s, key);
      WithoutMiss(b.entries, key);
      ghost var t0 := SetTrack(b, key, val);
      SetCases(b, key, val, t0);
      assert [] + s.es == s.es;
      reply, calls := InsertNew(key, val, chNeed, t0);
    }
  
    /** `Set` for a key at position `i`, in the user's terms. */
    method SetPresent(key: Key, val: Val, chNeed: nat, node: Node, ghost i: nat, ghost b: Model)
      returns (reply: Reply, calls: seq<Pair>)
      requires Agrees() && s.open == multiset{} && i < |s.es| && s.es[i] == Entry(key, node)
      requires lru.evictList == [Entry(key, node)] + Without(s.es, key)
      requires b == Model(cs - 4, n, openLru, onLruDel, Seen(s), |s.free|) && Has(b.entries, key)
      requires IndexOf(b.entries, key) == i
      requires 8 + |key| + |val| < TWO32 && !TooLarge(b.w, b.n, 8 + |key| + |val|) && chNeed <= n
      requires chNeed == ChunksFor(cs - 4, 8 + |key| + |val|) && Fits(cs - 4, chNeed, 8 + |key| + |val|)
      modifies this`freeChunk, this`s, data, lru
      ensures reply == KvSpec.Set(b, key, val).reply
      ensures calls == if onLruDel then KvSpec.Set(b, key, val).dropped else []
      ensures reply != Crash ==> Valid() && Abstract() == KvSpec.Set(b, key, val).model
      ensures InSync(old(s)) && reply != Crash ==> Settles(s, reply != Stored || !Stale(b, key, val))
      ensures reply != Crash ==> KeptBut(old(s), s, key)
      ensures reply != TooLong && (reply == Full ==> (key in TornKeys(s) <==> key in TornKeys(old(s))))
      ensures reply == Stored && key !in TornKeys(old(s)) ==> (key in TornKeys(s) <==> Stale(b, key, val))
      ensures reply == Full ==> HealthOf(s, key) == HealthOf(old(s), key)
      ensures reply == Stored ==> Goes(HealthOf(old(s), key), Stale(b, key, val), val, HealthOf(s, key))
      ensures reply == Stored ==> Laid(old(s), s, key, val, chNeed)
    {
      hide LaidAt, Words, HealthOf, Goes, GoesBy, TornKeys, KeptBut, MemOf, Seen, InSync, Torn, Without, Goal, Underway, KvSpec.Set, Stale, NodeOk, Times, Corner, Fits;
      ghost var p := Seen(s)[i];
      EntryFacts(s, i, cs);
      assert p == Entry(key, Lookup(b.entries, key));
      ghost var t0 := SetTrack(b, key, val);
      SetCases(b, key, val, t0);
      StaleIff(b, key, val, |node.chunks|, chNeed);
      ghost var a := s;
      reply, calls := SetOld(key, val, chNeed, node, i, p, t0);
      if reply == Stored {
        GoesIs(a, i, b, key, val, chNeed, HealthOf(s, key));
        LaidOne(a, i, s, key, val, chNeed);
      }
    }
  
    /** Stores a key and a value: exactly what `KvSpec.Set` says, and the callback hears of what it drops. */
    method Set(key: Key, val: Val) returns (reply: Reply, calls: seq<Pair>)
      requires Valid() && 8 + |key| + |val| < TWO32
      modifies this`freeChunk, this`s, data, lru
      ensures reply == KvSpec.Set(old(Abstract()), key, val).reply
      ensures calls == if onLruDel then KvSpec.Set(old(Abstract()), key, val).dropped else []
      ensures reply != Crash ==> Valid() && Abstract() == KvSpec.Set(old(Abstract()), key, val).model
      ensures InSync(old(s)) && reply != Crash ==> Settles(s, reply != Stored || !Stale(old(Abstract()), key, val))
      ensures InSync(old(s)) && reply != Crash ==> (InSync(s) <==> reply != Stored || !Stale(old(Abstract()), key, val))
      ensures reply != Crash ==> KeptBut(old(s), s, key)
      ensures reply == Full || reply == TooLong ==> HealthOf(s, key) == HealthOf(old(s), key)
      ensures reply == Stored ==> Goes(HealthOf(old(s), key), Stale(old(Abstract()), key, val), val, HealthOf(s, key))
      ensures reply == Stored ==> Laid(old(s), s, key, val, ChunksFor(cs - 4, 8 + |key| + |val|))
    {
      hide Laid, TornKeys, GrownKeys, KeptBut, MemOf, Seen, InSync, Torn, Without, KvSpec.Set, Stale, Fits, ChunksFor, Has, TooLarge;
      ghost var b, a := Abstract(), s;
      var need := |key| + |val| + 8;
      KeptSelf(s);
      KeptWeaken(s, s, key);
      if TooLarge(cs - 4, n, need) { TooLargeCases(b, key, val); return TooLong, []; }
      var chNeed := CountChunks(cs - 4, need);
      CountInArena(cs - 4, n, need, chNeed);
      var v := lru.Get(key);
      if v.Some? {
        ghost var i := Locate(key, a, Entry(key, v.value));
        reply, calls := SetPresent(key, val, chNeed, v.value, i, b);
        if InSync(a) && reply != Crash { SettlesIff(s, reply != Stored || !Stale(b, key, val)); }
      } else {
        SeenHas(a, key);
        NotTorn(a, key);
        NoKeyCases(b, key);
        reply, calls := SetMissing(key, val, chNeed, b);
      }
    }
  
    /** Reads the value of an indexed node; in the corner the read itself fails. */
    method ReadVal(e: Item, ghost p: Pair) returns (reply: GetReply)
      requires Agrees() && NodeOk(s.m, cs, e) && p == Entry(e.key, ValOf(s.m, cs, e))
      ensures reply == if Corner(cs - 4, p) then GetCrash else Hit(p.value)
    {
      NodeCost(s.m, cs, e);
      var r := GetVal(data, cs, n, e.value);
      reply := if r.Panic? then GetCrash else Hit(r.value);
    }

    /** `Get` of the key at position `i`, which the index has moved to the front. */
    method GetPresent(key: Key, node: Node, ghost i: nat, ghost p: Pair) returns (reply: GetReply)
      requires Agrees() && s.open == multiset{} && i < |s.es| && s.es[i] == Entry(key, node) && p == Seen(s)[i]
      requires lru.evictList == [Entry(key, node)] + Without(s.es, key)
      modifies this`s
      ensures Valid() && Seen(s) == [p] + Without(Seen(old(s)), key) && s.free == old(s).free
      ensures reply == if Corner(cs - 4, p) then GetCrash else Hit(p.value)
      ensures (InSync(old(s)) <==> InSync(s)) && TornKeys(s) == TornKeys(old(s)) && Chains(s) == Chains(old(s))
    {
      hide Chains, MemOf, Seen, InSync, TornKeys, Without, NodeOk, ValOf, Corner;
      EntryFacts(s, i, cs);
      reply := ReadVal(Entry(key, node), p);
      s := ToFront(s, i);
    }

    /** Reads a value and moves its entry to the front. */
    method Get(key: Key) returns (reply: GetReply)
      requires Valid()
      modifies this`s, lru
      ensures Valid() && reply == KvSpec.Get(old(Abstract()), key).reply
      ensures Abstract() == KvSpec.Get(old(Abstract()), key).model
      ensures (InSync(old(s)) <==> InSync(s)) && TornKeys(s) == TornKeys(old(s)) && Chains(s) == Chains(old(s))
    {
      hide Chains, MemOf, Seen, InSync, TornKeys, Without, KvSpec.Get, Corner, Has;
      ghost var b, a := Abstract(), s;
      SeenHas(a, key);
      var v := lru.Get(key);
      if v.None? { NoKeyCases(b, key); return Miss; }
      ghost var i := Locate(key, a, Entry(key, v.value));
      GetCases(b, key, Seen(a)[i]);
      reply := GetPresent(key, v.value, i, Seen(a)[i]);
    }

    /** Frees the chunks of entry `i`, which has left the index. */
    method Release(e: Item, ghost i: nat, ghost p: Pair) returns (crash: bool, calls: seq<Pair>)
      requires Agrees() && s.open == multiset{} && i < |s.es| && s.es[i] == e && p == Seen(s)[i]
      requires lru.evictList == Without(s.es, e.key)
      modifies this`freeChunk, this`s, data
      ensures crash <==> onLruDel && Corner(cs - 4, p)
      ensures calls == if onLruDel && !crash then [p] else []
      ensures !crash ==> Valid() && Seen(s) == Without(Seen(old(s)), e.key) && |s.free| == |old(s).free| + Cost(cs - 4, p)
      ensures !crash ==> TornKeys(s) == TornKeys(old(s)) - {e.key} && KeptBut(old(s), s, e.key)
    {
      hide TornKeys, InSync, Chains, Words, KeptBut, Kept;
      ghost var a := s;
      EntryFacts(a, i, cs);
      DropNoKey(a, i);
      s := DropAt(a, i);
      crash, calls := OnEvict(e, p, multiset{});
      if !crash {
        KeptGist(DropAt(a, i), s);
        KeptButTrans(a, DropAt(a, i), s, e.key);
      }
    }

    /** Deletes a key: the callback hears of it and its chunks become free. */
    method Del(key: Key) returns (reply: DelReply, calls: seq<Pair>)
      requires Valid()
      modifies this`freeChunk, this`s, data, lru
      ensures reply == KvSpec.Del(old(Abstract()), key).reply
      ensures calls == if onLruDel then KvSpec.Del(old(Abstract()), key).dropped else []
      ensures reply != DelCrash ==> Valid() && Abstract() == KvSpec.Del(old(Abstract()), key).model
      ensures reply != DelCrash ==> TornKeys(s) == TornKeys(old(s)) - {key} && KeptBut(old(s), s, key)
      ensures reply != DelCrash && InSync(old(s)) ==> InSync(s)
    {
      hide TornKeys, KeptBut, MemOf, Seen, InSync, Without, KvSpec.Del, Corner, Cost, Has;
      ghost var b, a := Abstract(), s;
      KeptSelf(a);
      KeptWeaken(a, a, key);
      SeenHas(a, key);
      var e := lru.Remove(key);
      if e.None? {
        WithoutMiss(a.es, key);
        NotTorn(a, key);
        NoKeyCases(b, key);
        return Absent, [];
      }
      ghost var i := Locate(key, a, e.value);
      DelCases(b, key, Seen(a)[i]);
      var crash;
      crash, calls := Release(e.value, i, Seen(a)[i]);
      if !crash {
        InSyncIff(a);
        InSyncIff(s);
      }
      reply := if crash then DelCrash else Deleted;
    }
  }
}
