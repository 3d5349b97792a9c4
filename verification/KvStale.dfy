/**
 What a stale link does to the next reload. An update of an exact-fit key that makes its value empty, or no
 longer empty, tears the chain where the key ends. If the chain has grown, the reload finds an end in its middle
 and refuses the whole image, or faults over the part behind it; if it has shrunk, the reload finds no end for it,
 the key is gone and its chunks are lost, and an insert may then wait for chunks that never come free.
 */
module KvStale {
  import opened Bytes
  import opened KvArena
  import opened KvNode
  import opened KvWrite
  import opened KvLru
  import opened KvSpec
  import opened KvState
  import opened KvSnap
  import opened KvUpdate
  import opened KvReload
  import opened KvOpen
  import opened KvStart
  import opened KvBuffer
  import opened KvStat
  import opened KvTheorems
  import KvLife
  import KvRun

  /** A settled buffer whose newest entry is torn behind its first `k` chunks. */
  ghost predicate TornBy(s: Snap, k: nat)
  {
    && s.open == multiset{} && MemOk(s.m, s.cs) && |s.m| == s.n + 1
    && s.es != [] && Synced(s.m, s.cs, s.es[1..]) && TornAt(s.m, s.cs, s.free, s.es[0], k)
  }

  /** The link of chunk `c` leads to the next chunk of the same entry, or from the torn end to a free chunk. */
  ghost predicate GoesOn(s: Snap, c: nat, a: nat, j: nat)
  {
    && a < |s.es| && j < |s.es[a].value.chunks| && s.es[a].value.chunks[j] == c
    && c < |s.m| && MemOk(s.m, s.cs) && 1 <= c
    && (if j + 1 < |s.es[a].value.chunks| then Next(s.m, c) == s.es[a].value.chunks[j + 1]
        else a == 0 && Next(s.m, c) in s.free)
  }

  lemma OtherLinked(s: Snap, k: nat, a: nat)
    requires TornBy(s, k) && 0 < a < |s.es|
    ensures Chain(s.m, s.cs, s.es[a].value.chunks)
  {
    assert s.es[1..][a - 1] == s.es[a];
    EntryFacts(s, a, s.cs);
    DetachedFacts(s.m, s.cs, s.es[a]);
  }

  lemma FirstFacts(s: Snap, k: nat)
    requires TornBy(s, k)
    ensures var c := s.es[0].value.chunks; NoDup(c) && InRange(s.m, c) && 1 <= k <= |c|
  {
    EntryFacts(s, 0, s.cs);
    DetachedFacts(s.m, s.cs, s.es[0]);
  }

  /** Where a link that leads on leads to. */
  lemma Follows(s: Snap, k: nat, c: nat) returns (a: nat, j: nat)
    requires TornBy(s, k) && 1 <= c < |s.m| && LinksOn(s.m, s.cs, c)
    ensures GoesOn(s, c, a, j)
  {
    a, j := PlaceOf(s, c);
    if a > 0 {
      OtherLinked(s, k, a);
      LinkIs(s.m, s.cs, s.es[a].value.chunks, j);
    } else {
      FirstFacts(s, k);
      FollowsTorn(s, k, j);
    }
  }

  lemma FollowsTorn(s: Snap, k: nat, j: nat)
    requires TornBy(s, k) && j < |s.es[0].value.chunks| && NoDup(s.es[0].value.chunks) && InRange(s.m, s.es[0].value.chunks)
    requires LinksOn(s.m, s.cs, s.es[0].value.chunks[j])
    ensures GoesOn(s, s.es[0].value.chunks[j], 0, j)
  {
    var chunks := s.es[0].value.chunks;
    if j >= k { assert Next(s.m, chunks[j]) == LinkOf(chunks, j); }
  }

  lemma OwnedNotFree(s: Snap, a: nat, c: nat)
    requires a < |s.es| && c in s.es[a].value.chunks
    ensures c !in s.free
  {
    assert Unfold(0);
    OwnedMember(s.es, a);
    assert c in multiset(s.es[a].value.chunks);
    PartitionApart(s.n, s.free, s.open, Owned(s.es), s.whole, c);
  }

  /** Two links that lead on to the same chunk are one. */
  lemma OneWay(s: Snap, k: nat, c: nat, d: nat, a: nat, i: nat, b: nat, j: nat)
    requires TornBy(s, k) && GoesOn(s, c, a, i) && GoesOn(s, d, b, j) && Next(s.m, c) == Next(s.m, d)
    ensures c == d
  {
    var x, y := s.es[a].value.chunks, s.es[b].value.chunks;
    if i + 1 < |x| && j + 1 < |y| {
      OneOwner(s, a, b, Next(s.m, c));
      EntryFacts(s, a, s.cs);
      DetachedFacts(s.m, s.cs, s.es[a]);
      assert i + 1 == j + 1;
    } else if i + 1 < |x| {
      OwnedNotFree(s, a, x[i + 1]);
    } else if j + 1 < |y| {
      OwnedNotFree(s, b, y[j + 1]);
    }
  }

  lemma TornInjective(s: Snap, k: nat)
    requires TornBy(s, k)
    ensures Injective(s.m, s.cs)
  {
    hide TornBy;
    assert MemOk(s.m, s.cs) by { SnapFacts(s); }
    forall c, d | 1 <= c < |s.m| && 1 <= d < |s.m| && LinksOn(s.m, s.cs, c) && LinksOn(s.m, s.cs, d) && Next(s.m, c) == Next(s.m, d)
      ensures c == d
    {
      var a, i := Follows(s, k, c);
      var b, j := Follows(s, k, d);
      OneWay(s, k, c, d, a, i, b, j);
    }
  }

  /** Nothing links to the first chunk of an entry. */
  lemma FirstRootless(s: Snap, k: nat, a: nat)
    requires TornBy(s, k) && a < |s.es| && s.es[a].value.chunks != []
    ensures Rootless(s.m, s.cs, s.es[a].value.chunks)
  {
    hide TornBy;
    assert MemOk(s.m, s.cs) by { SnapFacts(s); }
    EntryFacts(s, a, s.cs);
    DetachedFacts(s.m, s.cs, s.es[a]);
    var own := s.es[a].value.chunks;
    forall c | 1 <= c < |s.m| && c != own[0] ensures Next(s.m, c) != own[0] {
      if Next(s.m, c) == own[0] {
        assert LinksOn(s.m, s.cs, c);
        var b, j := Follows(s, k, c);
        NotFirst(s, a, b, j, c);
      }
    }
  }

  lemma NotFirst(s: Snap, a: nat, b: nat, j: nat, c: nat)
    requires a < |s.es| && s.es[a].value.chunks != [] && NoDup(s.es[a].value.chunks) && GoesOn(s, c, b, j)
    ensures Next(s.m, c) != s.es[a].value.chunks[0]
  {
    var own, y := s.es[a].value.chunks, s.es[b].value.chunks;
    if j + 1 < |y| {
      if y[j + 1] == own[0] { OneOwner(s, a, b, own[0]); }
    } else {
      OwnedNotFree(s, a, own[0]);
    }
  }

  // ---- a chain that has grown

  /** The part of the chain in front of the tear is a whole chain of its own. */
  lemma FrontIsChain(s: Snap, k: nat, front: seq<nat>)
    requires TornBy(s, k) && k < |s.es[0].value.chunks| && front == s.es[0].value.chunks[..k]
    ensures Chain(s.m, s.cs, front) && Rootless(s.m, s.cs, front) && front[k - 1] == s.es[0].value.chunks[k - 1]
  {
    FirstFacts(s, k);
    FirstRootless(s, k, 0);
    var chunks := s.es[0].value.chunks;
    forall j | 0 <= j < k ensures 1 <= front[j] < |s.m| && Next(s.m, front[j]) == LinkOf(front, j) {
      assert front[j] == chunks[j];
    }
  }

  /** The sizes in its first chunk do not fit it. */
  lemma FrontTooSmall(s: Snap, k: nat, front: seq<nat>)
    requires TornBy(s, k) && k < |s.es[0].value.chunks| && front == s.es[0].value.chunks[..k]
    ensures InRange(s.m, front) && front != [] && !SizesFit(s.m, s.cs, front)
  {
    hide Payload, Times, NodeOk, TornAt, Synced;
    var e := s.es[0];
    FirstFacts(s, k);
    EntryFacts(s, 0, s.cs);
    SizesInPlace(s.m, s.cs, e);
    TornSizes(s, k);
    TimesIsProduct(s.cs - 4, k);
    assert front[0] == e.value.chunks[0] && |front| == k;
    NoRoom(s.cs - 4, k, |e.key|, e.value.valSize);
  }

  lemma TornSizes(s: Snap, k: nat)
    requires TornBy(s, k) && k < |s.es[0].value.chunks|
    ensures 8 + |s.es[0].key| == Times(s.cs - 4, k) && s.es[0].value.valSize > 0
  {
    hide Times;
  }

  lemma NoRoom(w: nat, k: nat, kl: nat, vl: nat)
    requires 8 + kl == w * k && vl > 0 && kl + vl < TWO32
    ensures (kl + vl) % TWO32 > w * k - 8
  {
  }

  lemma FrontNotRead(s: Snap, k: nat, front: seq<nat>, x: Item)
    requires TornBy(s, k) && k < |s.es[0].value.chunks| && front == s.es[0].value.chunks[..k]
    requires k >= 1 && EndsAt(x, s.es[0].value.chunks[k - 1])
    ensures !Faithful(s.m, s.cs, x)
  {
    hide TornBy, Rootless, Injective, SizesFit, LinkedFrom, Linked, NoDup;
    FrontIsChain(s, k, front);
    FrontTooSmall(s, k, front);
    TornInjective(s, k);
    if Faithful(s.m, s.cs, x) { RootlessUnique(s.m, s.cs, x.value.chunks, front); }
  }

  /** An image with such a node is refused. */
  lemma GrownRefused(s: Snap, k: nat)
    requires TornBy(s, k) && k < |s.es[0].value.chunks|
    ensures !AllReadable(s.m, s.cs)
  {
    hide Faithful, EndsAt, Times;
    FirstFacts(s, k);
    var p := s.es[0].value.chunks[k - 1];
    assert Next(s.m, p) == p && 1 <= p < |s.m|;
    forall x | EndsAt(x, p) ensures !Faithful(s.m, s.cs, x) { FrontNotRead(s, k, s.es[0].value.chunks[..k], x); }
    assert !Readable(s.m, s.cs, p);
  }

  /** The part behind the tear is a whole chain of its own as well. */
  lemma TailIsChain(s: Snap, k: nat, tail: seq<nat>)
    requires TornBy(s, k) && k < |s.es[0].value.chunks| && tail == s.es[0].value.chunks[k..]
    ensures WholeChain(s.m, s.cs, tail, s.es[0].value.chunks[|s.es[0].value.chunks| - 1])
  {
    hide TornAt, Synced, Linked, NoDup, Rootless;
    TailLinked(s, k, tail);
    TailRootless(s, k, tail);
  }

  lemma TailLinked(s: Snap, k: nat, tail: seq<nat>)
    requires TornBy(s, k) && k < |s.es[0].value.chunks| && tail == s.es[0].value.chunks[k..]
    ensures Chain(s.m, s.cs, tail)
  {
    hide TornAt, Synced, Next;
    FirstFacts(s, k);
    var chunks := s.es[0].value.chunks;
    forall j | 0 <= j < |tail| ensures 1 <= tail[j] < |s.m| && Next(s.m, tail[j]) == LinkOf(tail, j) {
      assert tail[j] == chunks[k + j];
      TornLinks(s, k, k + j);
    }
  }

  lemma TailRootless(s: Snap, k: nat, tail: seq<nat>)
    requires TornBy(s, k) && k < |s.es[0].value.chunks| && tail == s.es[0].value.chunks[k..]
    ensures Rootless(s.m, s.cs, tail)
  {
    hide TornAt, Synced, NoDup, InRange;
    FirstFacts(s, k);
    assert tail[0] == s.es[0].value.chunks[k];
    InRangeAt(s.m, s.es[0].value.chunks, k);
    forall c | 1 <= c < |s.m| && c != tail[0] ensures Next(s.m, c) != tail[0] {
      if Next(s.m, c) == tail[0] {
        assert LinksOn(s.m, s.cs, c);
        var a, j := Follows(s, k, c);
        NotTail(s, k, a, j, c);
      }
    }
  }

  lemma InRangeAt(m: Mem, chain: seq<nat>, j: nat)
    requires InRange(m, chain) && j < |chain|
    ensures 1 <= chain[j] < |m|
  {
  }

  /** In the chain of the torn entry no link leads over the tear. */
  lemma FirstLinks(s: Snap, k: nat, j: nat)
    requires TornBy(s, k) && k < |s.es[0].value.chunks| && j + 1 < |s.es[0].value.chunks|
    requires s.es[0].value.chunks[j + 1] == s.es[0].value.chunks[k]
    ensures var c := s.es[0].value.chunks[j]; 1 <= c < |s.m| && Next(s.m, c) != s.es[0].value.chunks[k]
  {
    FirstFacts(s, k);
  }

  lemma NotTail(s: Snap, k: nat, a: nat, j: nat, c: nat)
    requires TornBy(s, k) && k < |s.es[0].value.chunks| && NoDup(s.es[0].value.chunks) && GoesOn(s, c, a, j)
    ensures Next(s.m, c) != s.es[0].value.chunks[k]
  {
    hide NoDup, TornAt, Synced;
    var chunks, y := s.es[0].value.chunks, s.es[a].value.chunks;
    if j + 1 < |y| {
      if y[j + 1] == chunks[k] {
        OneOwner(s, 0, a, chunks[k]);
        FirstLinks(s, k, j);
      }
    } else {
      OwnedNotFree(s, 0, chunks[k]);
    }
  }

  lemma TornLinks(s: Snap, k: nat, j: nat)
    requires TornBy(s, k) && j < |s.es[0].value.chunks|
    ensures var chunks := s.es[0].value.chunks;
            && 1 <= chunks[j] < |s.m| && (j < k - 1 ==> Next(s.m, chunks[j]) == chunks[j + 1] != chunks[j])
            && (k <= j ==> Next(s.m, chunks[j]) == LinkOf(chunks, j))
            && (k <= j && j + 1 < |chunks| ==> Next(s.m, chunks[j]) != chunks[j])
  {
    FirstFacts(s, k);
  }

  /** Every end is the end of another entry, or that of one of the two parts of the torn one. */
  lemma EndCases(s: Snap, k: nat, c: nat) returns (a: nat)
    requires TornBy(s, k) && 1 <= c < |s.m| && Next(s.m, c) == c
    ensures a < |s.es| && (a > 0 ==> EndsAt(s.es[a], c) && Chain(s.m, s.cs, s.es[a].value.chunks))
    ensures a == 0 ==> k < |s.es[0].value.chunks| && (c == s.es[0].value.chunks[k - 1] || EndsAt(s.es[0], c))
  {
    var j;
    a, j := PlaceOf(s, c);
    if a > 0 {
      OtherLinked(s, k, a);
      LinkIs(s.m, s.cs, s.es[a].value.chunks, j);
    } else {
      FirstFacts(s, k);
      var chunks := s.es[0].value.chunks;
      OwnedNotFree(s, 0, c);
      TornLinks(s, k, j);
    }
  }

  /** A chain with the node of an entry is loaded as that entry: its sizes fit and so does its key. */
  lemma NodeLoads(s: Snap, a: nat)
    requires a < |s.es| && MemOk(s.m, s.cs)
    ensures var c := s.es[a].value.chunks;
            InRange(s.m, c) && c != [] && SizesFit(s.m, s.cs, c) && !KeyFaults(s.m, s.cs, c)
  {
    hide Payload, Times, Body, Tidy, Words, ValOf;
    EntryFacts(s, a, s.cs);
    SizesInPlace(s.m, s.cs, s.es[a]);
  }

  /** The only whole chain from the end of another entry is the chain of that entry. */
  lemma OtherUnique(s: Snap, k: nat, a: nat, chain: seq<nat>, c: nat)
    requires TornBy(s, k) && 0 < a < |s.es| && EndsAt(s.es[a], c) && WholeChain(s.m, s.cs, chain, c)
    ensures chain == s.es[a].value.chunks
  {
    hide TornAt, Synced, Rootless, Linked, NoDup;
    OtherLinked(s, k, a);
    FirstRootless(s, k, a);
    TornInjective(s, k);
    RootlessUnique(s.m, s.cs, chain, s.es[a].value.chunks);
  }

  /** The key of what is found behind the tear does not fit, and this is met before the tear. */
  ghost predicate TailFaults(s: Snap, k: nat)
    requires TornBy(s, k) && k < |s.es[0].value.chunks|
  {
    FirstFacts(s, k);
    var chunks := s.es[0].value.chunks;
    chunks[|chunks| - 1] < chunks[k - 1] && InRange(s.m, chunks[k..]) && KeyFaults(s.m, s.cs, chunks[k..])
  }

  /** From the end in front of the tear only a chain that is refused can be found. */
  lemma FrontOnly(s: Snap, k: nat, chain: seq<nat>)
    requires TornBy(s, k) && k < |s.es[0].value.chunks|
    requires 1 <= k && WholeChain(s.m, s.cs, chain, s.es[0].value.chunks[k - 1])
    ensures !SizesFit(s.m, s.cs, chain)
  {
    hide TornAt, Synced, Rootless, Injective, SizesFit, LinkedFrom, Linked, NoDup;
    var front := s.es[0].value.chunks[..k];
    FrontIsChain(s, k, front);
    FrontTooSmall(s, k, front);
    TornInjective(s, k);
    RootlessUnique(s.m, s.cs, chain, front);
  }

  /** From the end behind the tear only the tail can be found. */
  lemma TailOnly(s: Snap, k: nat, chain: seq<nat>)
    requires TornBy(s, k) && k < |s.es[0].value.chunks|
    requires WholeChain(s.m, s.cs, chain, s.es[0].value.chunks[|s.es[0].value.chunks| - 1])
    ensures chain == s.es[0].value.chunks[k..]
  {
    hide TornAt, Synced, Rootless, Injective, LinkedFrom, Linked, NoDup;
    TailIsChain(s, k, s.es[0].value.chunks[k..]);
    TornInjective(s, k);
    RootlessUnique(s.m, s.cs, chain, s.es[0].value.chunks[k..]);
  }

  /** Where loading a grown image can stop: in front of the tear, refused, or at the tail. */
  lemma StopCases(s: Snap, k: nat, c: nat, chain: seq<nat>)
    requires TornBy(s, k) && k < |s.es[0].value.chunks| && 1 <= k
    requires 1 <= c < |s.m| && Next(s.m, c) == c && WholeChain(s.m, s.cs, chain, c)
    requires !SizesFit(s.m, s.cs, chain) || KeyFaults(s.m, s.cs, chain)
    ensures var chunks := s.es[0].value.chunks;
            (c == chunks[k - 1] && !SizesFit(s.m, s.cs, chain)) || (c == chunks[|chunks| - 1] && chain == chunks[k..])
  {
    hide TornAt, Synced, Rootless, Linked, NoDup, SizesFit, KeyFaults, WholeChain;
    var chunks := s.es[0].value.chunks;
    var a := EndCases(s, k, c);
    if a > 0 {
      SnapFacts(s);
      OtherUnique(s, k, a, chain, c);
      NodeLoads(s, a);
    } else if c == chunks[k - 1] {
      FrontOnly(s, k, chain);
    } else {
      TailOnly(s, k, chain);
    }
  }

  /** The end in front of the tear cannot be loaded, and neither can the tail when its key does not fit. */
  lemma NotReadable(s: Snap, k: nat)
    requires TornBy(s, k) && k < |s.es[0].value.chunks| && 1 <= k
    ensures !Readable(s.m, s.cs, s.es[0].value.chunks[k - 1])
    ensures TailFaults(s, k) ==> !Readable(s.m, s.cs, s.es[0].value.chunks[|s.es[0].value.chunks| - 1])
  {
    hide TornAt, Synced, Rootless, Linked, NoDup, SizesFit;
    var chunks := s.es[0].value.chunks;
    forall x | EndsAt(x, chunks[k - 1]) ensures !Faithful(s.m, s.cs, x) { FrontNotRead(s, k, chunks[..k], x); }
    if TailFaults(s, k) {
      forall x | EndsAt(x, chunks[|chunks| - 1]) ensures !Faithful(s.m, s.cs, x) {
        if Faithful(s.m, s.cs, x) { TailOnly(s, k, x.value.chunks); }
      }
    }
  }

  /** Loading a grown image stops with a fault exactly when the tail faults. */
  lemma GrownStops(s: Snap, k: nat, i: nat, why: Loading)
    requires TornBy(s, k) && k < |s.es[0].value.chunks| && why != AllLoaded
    requires StopsAt(s.m, s.cs, EndList(s.m, s.cs, s.n), i, why)
    ensures why == NodeFaulted <==> TailFaults(s, k)
  {
    hide Readable, TornAt, Synced, EndList, SizesFit, LinkedFrom, Rootless, NoDup, Times;
    FirstFacts(s, k);
    NotReadable(s, k);
    var chunks, ends := s.es[0].value.chunks, EndList(s.m, s.cs, s.n);
    var p, t := chunks[k - 1], chunks[|chunks| - 1];
    EndsFit(s.m, s.cs, s.n, ends);
    TornEnds(s, k);
    var x :| 0 <= x < |ends| && ends[x] == p;
    var y :| 0 <= y < |ends| && ends[y] == t;
    if why == NodeRefused {
      var chain :| WholeChain(s.m, s.cs, chain, ends[i]) && !SizesFit(s.m, s.cs, chain);
      StopCases(s, k, ends[i], chain);
    } else {
      var chain :| WholeChain(s.m, s.cs, chain, ends[i]) && KeyFaults(s.m, s.cs, chain);
      StopCases(s, k, ends[i], chain);
    }
  }

  /** Both ends of the torn entry are ends of the image. */
  lemma TornEnds(s: Snap, k: nat)
    requires TornBy(s, k) && k < |s.es[0].value.chunks| && 1 <= k
    ensures var chunks, ends := s.es[0].value.chunks, EndList(s.m, s.cs, s.n);
            chunks[k - 1] in ends && chunks[|chunks| - 1] in ends && chunks[k - 1] != chunks[|chunks| - 1]
  {
    FirstFacts(s, k);
    var chunks := s.es[0].value.chunks;
    assert Next(s.m, chunks[|chunks| - 1]) == LinkOf(chunks, |chunks| - 1);
    assert Next(s.m, chunks[k - 1]) == chunks[k - 1];
  }

  // ---- a chain that has shrunk

  /** What is left of the index without the torn entry; its chunks belong to nobody. */
  ghost function Rest(s: Snap): (r: Snap)
    requires s.es != []
    ensures r == s.(es := Without(s.es, s.es[0].key), open := s.open + multiset(s.es[0].value.chunks))
  {
    DropAt(s, 0)
  }

  /** The image of a shrunk chain tells exactly the other entries. */
  lemma ShrunkTells(s: Snap, k: nat)
    requires TornBy(s, k) && k == |s.es[0].value.chunks|
    ensures ImageOf(Rest(s), s.m, s.cs, s.n)
  {
    hide TornAt, Synced, NodeOk, Chain, InSync, WholeChain, Linked, NoneZero, Distinct, Without;
    SnapFacts(s);
    RestFacts(s, k);
    var es := Rest(s).es;
    forall e | e in es ensures NodeOk(s.m, s.cs, e) && Chain(s.m, s.cs, e.value.chunks) {
      var a := PlaceIn(s, e);
      EntryFacts(s, a, s.cs);
      OtherLinked(s, k, a);
    }
    forall c | 1 <= c <= s.n && Next(s.m, c) == c ensures exists e :: e in es && EndsAt(e, c) {
      var a := EndCases(s, k, c);
      assert s.es[a] in es && EndsAt(s.es[a], c);
    }
    forall e, c, chain | e in es && EndsAt(e, c) && WholeChain(s.m, s.cs, chain, c) ensures chain == e.value.chunks {
      var a := PlaceIn(s, e);
      OtherUnique(s, k, a, chain, c);
    }
    forall e, e', c | e in es && e' in es && EndsAt(e, c) && EndsAt(e', c) ensures e == e' {
      var a := PlaceIn(s, e);
      var b := PlaceIn(s, e');
      OneOwner(s, a, b, c);
    }
  }

  /** Where an entry of the rest stands. */
  lemma PlaceIn(s: Snap, e: Item) returns (a: nat)
    requires s.es != [] && e in Rest(s).es
    ensures 0 < a < |s.es| && s.es[a] == e
  {
    SnapFacts(s);
    WithoutKeeps(s.es, s.es[0].key);
    a :| 0 <= a < |s.es| && s.es[a] == e;
  }

  lemma TornUnfree(s: Snap)
    requires s.es != [] && s.open == multiset{}
    ensures NoneZero(s.m, Rest(s).open)
  {
    EntryLinks(s, 0);
    EntryFacts(s, 0, s.cs);
  }

  lemma RestFacts(s: Snap, k: nat)
    requires TornBy(s, k)
    ensures InSync(Rest(s)) && Distinct(Rest(s).es) && NoneZero(s.m, Rest(s).open)
    ensures forall a :: 0 < a < |s.es| ==> s.es[a] in Rest(s).es
  {
    hide Linked, TornAt, Synced, Without, TornKeys, InSync, NodeOk;
    SnapFacts(s);
    SnapFacts(Rest(s));
    WithoutKeeps(s.es, s.es[0].key);
    DropNoKey(s, 0);
    InSyncIff(Rest(s));
    TornOthers(s) by { assert Torn(s); }
    TornUnfree(s);
    forall a | 0 < a < |s.es| ensures s.es[a] in Rest(s).es { assert s.es[a] in s.es && s.es[a].key != s.es[0].key; }
  }

  // ---- both

  /** A buffer at rest, whether or not image and index agree. */
  ghost predicate Resting(buf: KVBuffer)
    reads buf, buf.data, buf.lru
  {
    && buf.Valid() && 1024 <= buf.data.Length && buf.n == Whole(buf.cs, buf.data.Length - HEADER)
    && buf.header == HeaderOf(buf.cs, buf.data.Length)
  }

  /** The image is the front of any array that begins with it, and its header reads back. */
  lemma RestingImage(buf: KVBuffer, image: seq<byte>)
    requires Resting(buf) && buf.data[..] <= image
    ensures HEADER <= |image| && Inited(image) && StoredChunkSize(image) == buf.cs && StoredSize(image) == buf.data.Length
    ensures HEADER + Times(buf.cs, buf.n) <= |image| && Blocks(image, buf.cs, buf.n) == buf.s.m
  {
    hide Blocks, Times, HeaderOf, Whole, Inited, StoredChunkSize, StoredSize;
    var front := buf.data[..];
    GeometryBounds(buf.data, buf.cs, buf.n);
    MemIs(buf.data, buf.cs, buf.n);
    var cut := HEADER + Times(buf.cs, buf.n);
    assert image[..cut] == front[..cut];
    BlocksPrefix(front, image, buf.cs, buf.n, buf.n);
    assert buf.s.m[0] == buf.header by { assert Unfold(0); }
    BlocksAt(image, buf.cs, buf.n, 0);
    HeaderInFront(image, buf.cs, buf.data.Length);
  }

  /** Whatever the image tells of a buffer at rest is saved in any array that begins with it. */
  lemma RestingSaved(buf: KVBuffer, s: Snap, image: seq<byte>)
    requires Resting(buf) && s.cfg == buf.s.cfg && ImageOf(s, buf.s.m, buf.cs, buf.n) && buf.data[..] <= image && |image| < TWO32
    ensures Saved(s, image, buf.data.Length)
  {
    hide Tells, NoneZero, InSync;
    GeometryBounds(buf.data, buf.cs, buf.n);
    assert Saved(s, buf.data[..], buf.data.Length);
    SavedIn(s, buf.data[..], image);
  }

  /** What a restart makes of a buffer whose newest entry is torn behind its first `k` chunks. */
  ghost predicate TornOutcome(s: Snap, k: nat, r: OpenResult, data: array<byte>, openLru: bool, onLruDel: bool)
    requires TornBy(s, k)
    reads if r.Opened? then {r.buf, r.buf.data, r.buf.lru} else {}
  {
    if k < |s.es[0].value.chunks| then r == if TailFaults(s, k) then Faulted else Failed(NodeInvalid)
    else r.Opened? && Ready(r.buf, data, s.cs, openLru, onLruDel, Rest(s).open) && Reopened(r.buf, Rest(s))
  }

  /** The only entry that does not agree is the one at place `i`, and it has shrunk. */
  ghost predicate ShrunkAt(s: Snap, i: nat, k: nat)
  {
    s.open == multiset{} && i < |s.es| && TornBy(ToFront(s, i), k) && k == |s.es[i].value.chunks|
  }

  /** What the image of a settled buffer tells. */
  lemma Expected(s: Snap) returns (known: Option<Snap>)
    requires s.open == multiset{}
    ensures InSync(s) ==> known == Some(s)
    ensures forall i: nat, k: nat :: ShrunkAt(s, i, k) ==> known == Some(Rest(ToFront(s, i)))
    ensures known.Some? ==> known.value.cfg == s.cfg && ImageOf(known.value, s.m, s.cs, s.n)
  {
    hide InSync, TornBy, ImageOf, Rest;
    known := None;
    if InSync(s) {
      SettledTells(s);
      known := Some(s);
      forall i: nat, k: nat | ShrunkAt(s, i, k) ensures false { TornByNot(ToFront(s, i), k); }
    } else if i: nat, k: nat :| ShrunkAt(s, i, k) {
      ShrunkTells(ToFront(s, i), k);
      known := Some(Rest(ToFront(s, i)));
      forall j: nat, l: nat | ShrunkAt(s, j, l) ensures i == j { OneTorn(s, i, k, j, l); }
    }
  }

  lemma OneTorn(s: Snap, i: nat, k: nat, j: nat, l: nat)
    requires s.open == multiset{} && i < |s.es| && j < |s.es| && TornBy(ToFront(s, i), k) && TornBy(ToFront(s, j), l)
    ensures i == j
  {
    hide TornAt, Synced, TornKeys;
    SnapFacts(s);
    TornIs(ToFront(s, i), k);
    TornIs(ToFront(s, j), l);
  }

  lemma TornIs(s: Snap, k: nat)
    requires TornBy(s, k)
    ensures TornKeys(s) == {s.es[0].key}
  {
    hide TornAt, Synced, TornKeys, InSync;
    assert Torn(s);
    TornOthers(s);
    TornByNot(s, k);
    InSyncIff(s);
  }

  lemma TornByNot(s: Snap, k: nat)
    requires TornBy(s, k)
    ensures !InSync(s)
  {
    hide TornAt, Synced, InSync;
    TornNotSynced(s);
  }

  /** An image with a grown chain is refused, or the open faults. */
  lemma GrownOutcome(s: Snap, k: nat, image: seq<byte>, size: nat, r: OpenResult)
    requires TornBy(s, k) && k < |s.es[0].value.chunks| && 32 <= s.cs && HEADER <= size && s.n == Whole(s.cs, size - HEADER)
    requires HEADER + Times(s.cs, s.n) <= |image| && Blocks(image, s.cs, s.n) == s.m
    requires r.Opened? ==> LoadedFrom(r.buf, image, s.cs, size)
    requires || r.Opened? || (r == Failed(NodeInvalid) && Stops(image, s.cs, size, NodeRefused))
             || (r == Faulted && Stops(image, s.cs, size, NodeFaulted))
    ensures r == if TailFaults(s, k) then Faulted else Failed(NodeInvalid)
  {
    hide TornAt, Synced, AllReadable, Faithful, TailFaults, Whole, Blocks, EndList, StopsAt;
    GrownRefused(s, k);
    var why := if r == Faulted then NodeFaulted else NodeRefused;
    var i :| StopsAt(s.m, s.cs, EndList(s.m, s.cs, s.n), i, why);
    GrownStops(s, k, i, why);
  }

  lemma TornOutcomeIs(s: Snap, k: nat, image: seq<byte>, size: nat, known: Option<Snap>, r: OpenResult, data: array<byte>,
                      openLru: bool, onLruDel: bool)
    requires TornBy(s, k) && 32 <= s.cs && HEADER <= size && s.n == Whole(s.cs, size - HEADER)
    requires HEADER + Times(s.cs, s.n) <= |image| && Blocks(image, s.cs, s.n) == s.m
    requires k == |s.es[0].value.chunks| ==> known == Some(Rest(s))
    requires known.Some? ==> r.Opened? && Ready(r.buf, data, s.cs, openLru, onLruDel, known.value.open) && Reopened(r.buf, known.value)
    requires r.Opened? ==> LoadedFrom(r.buf, image, s.cs, size)
    requires || r.Opened? || (r == Failed(NodeInvalid) && Stops(image, s.cs, size, NodeRefused))
             || (r == Faulted && Stops(image, s.cs, size, NodeFaulted))
    ensures TornOutcome(s, k, r, data, openLru, onLruDel)
  {
    hide TornAt, Synced, Ready, Reopened, LoadedFrom, Stops, Whole, Blocks, TailFaults;
    FirstFacts(s, k);
    if k < |s.es[0].value.chunks| { GrownOutcome(s, k, image, size, r); }
  }

  /**
   Starts again over the bytes a buffer has left, possibly with more room. An agreeing image gives the same map. With a
   torn entry, at any place, that has grown the image is refused, or the open faults; with one that has shrunk the new
   buffer holds the map without it, and its chunks are lost.
   */
  method RestartAny(buf: KVBuffer, extra: seq<byte>, openLru: bool, onLruDel: bool)
    returns (r: OpenResult, data: array<byte>)
    requires Resting(buf) && buf.data.Length + |extra| < TWO32
    ensures InSync(buf.s) ==> r.Opened? && NewBuffer(r.buf, data, buf.cs, openLru, onLruDel) && Reopened(r.buf, buf.s)
    ensures forall i: nat, k: nat :: i < |buf.s.es| && TornBy(ToFront(buf.s, i), k) ==>
              TornOutcome(ToFront(buf.s, i), k, r, data, openLru, onLruDel)
    ensures fresh(data) && (r.Opened? ==> fresh(r.buf) && fresh(r.buf.lru))
    ensures r.Opened? ==> r.buf.lru.Valid() && Untangled(r.buf.lru.evictList, buf.s.m, buf.cs, buf.n)
  {
    hide MemOf, Blocks, Whole, HeaderOf, InSync, TornBy, Reopened, Ready, ImageOf, Saved, LoadedFrom, Stops, TornOutcome, Rest, ShrunkAt;
    data := KvLife.Remap(buf, extra);
    RestingImage(buf, data[..]);
    ghost var image := data[..];
    ghost var known := Expected(buf.s);
    if known.Some? { RestingSaved(buf, known.value, data[..]); }
    r := Open(data, buf.cs, openLru, onLruDel, known);
    assert buf.s.cs == buf.cs && buf.s.n == buf.n;
    AllOutcomes(buf.s, image, buf.data.Length, known, r, data, openLru, onLruDel);
    if r.Opened? { LoadedUntangled(r.buf, image, buf.s, buf.data.Length); }
  }

  lemma LoadedUntangled(buf: KVBuffer, image: seq<byte>, s: Snap, size: nat)
    requires LoadedFrom(buf, image, s.cs, size) && HEADER <= size && s.cs > 0 && s.n == Whole(s.cs, size - HEADER)
    requires HEADER + Times(s.cs, s.n) <= |image| && Blocks(image, s.cs, s.n) == s.m
    ensures buf.lru.Valid() && Untangled(buf.lru.evictList, s.m, s.cs, s.n)
  {
    hide AllReadable, Faithful, Untangled, Whole, Blocks, Times;
  }

  /** What the open says of the image, for a torn entry at any place. */
  lemma AllOutcomes(s: Snap, image: seq<byte>, size: nat, known: Option<Snap>, r: OpenResult, data: array<byte>,
                    openLru: bool, onLruDel: bool)
    requires s.open == multiset{} && 32 <= s.cs && HEADER <= size && s.n == Whole(s.cs, size - HEADER)
    requires HEADER + Times(s.cs, s.n) <= |image| && Blocks(image, s.cs, s.n) == s.m
    requires forall i: nat, k: nat :: ShrunkAt(s, i, k) ==> known == Some(Rest(ToFront(s, i)))
    requires known.Some? ==> r.Opened? && Ready(r.buf, data, s.cs, openLru, onLruDel, known.value.open) && Reopened(r.buf, known.value)
    requires r.Opened? ==> LoadedFrom(r.buf, image, s.cs, size)
    requires || r.Opened? || (r == Failed(NodeInvalid) && Stops(image, s.cs, size, NodeRefused))
             || (r == Faulted && Stops(image, s.cs, size, NodeFaulted))
    ensures forall i: nat, k: nat :: i < |s.es| && TornBy(ToFront(s, i), k) ==>
              TornOutcome(ToFront(s, i), k, r, data, openLru, onLruDel)
  {
    hide Blocks, Whole, TornBy, Reopened, Ready, LoadedFrom, Stops, TornOutcome, Rest, Times;
    forall i: nat, k: nat | i < |s.es| && TornBy(ToFront(s, i), k)
      ensures TornOutcome(ToFront(s, i), k, r, data, openLru, onLruDel)
    {
      assert k == |s.es[i].value.chunks| ==> ShrunkAt(s, i, k);
      TornOutcomeIs(ToFront(s, i), k, image, size, known, r, data, openLru, onLruDel);
    }
  }

  /** The keys of a reopened buffer are those of the map. */
  lemma MapInIndex(buf: KVBuffer, s: Snap, key: Key)
    requires Reopened(buf, s) && buf.s.es == buf.lru.evictList
    ensures Has(buf.lru.evictList, key) <==> Has(s.es, key)
  {
    hide Seen, AsMap, Has;
    SnapFacts(s);
    SnapFacts(buf.s);
    KvRun.LookupIs(Seen(s), key);
    KvRun.LookupIs(Seen(buf.s), key);
    SeenHas(buf.s, key);
    SeenHas(s, key);
  }

  /** Stores a pair and starts again: the key is found again if and only if the update was not a stale one. */
  method SetAndRestart(buf: KVBuffer, key: Key, val: Val, extra: seq<byte>, onLruDel: bool)
    returns (reply: Reply, r: Option<OpenResult>)
    requires Resting(buf) && InSync(buf.s) && buf.data.Length + |extra| < TWO32 && 8 + |key| + |val| < TWO32
    modifies buf`freeChunk, buf`s, buf.data, buf.lru
    ensures reply == KvSpec.Set(old(buf.Abstract()), key, val).reply && (r.Some? <==> reply == Stored)
    ensures reply == Stored ==>
              (r.value.Opened? && Has(r.value.buf.lru.evictList, key) <==> !Stale(old(buf.Abstract()), key, val))
  {
    hide MemOf, Whole, HeaderOf, Has, InSync, Torn, Reopened, Stale, KvSpec.Set, Seen;
    ghost var b := buf.Abstract();
    var calls;
    reply, calls := buf.Set(key, val);
    if reply != Stored { return reply, None; }
    StoredFirst(b, key, val);
    SeenFirst(buf.s, key, val);
    var x, data := RestartAny(buf, extra, buf.openLru, onLruDel);
    r := Some(x);
    SeenHas(buf.s, key);
    if Stale(b, key, val) { TornLost(buf.s, x, data, buf.openLru, onLruDel, key); } else { MapInIndex(x.buf, buf.s, key); }
  }

  /** Apart from the torn entry everything agrees. */
  lemma TornOthers(s: Snap)
    requires Torn(s)
    ensures TornKeys(s) <= {s.es[0].key}
  {
    hide TornAt, Linked;
    forall x | x in s.es && x.key != s.es[0].key ensures Linked(s.m, s.cs, x.value.chunks) {
      var i :| 0 <= i < |s.es| && s.es[i] == x;
      assert s.es[1..][i - 1] == x;
    }
  }

  /** Deleting the only torn key, wherever it stands, mends the image: the next start gives the map without it. */
  method DelAndRestart(buf: KVBuffer, key: Key, extra: seq<byte>, openLru: bool, onLruDel: bool)
    returns (reply: DelReply, r: Option<OpenResult>)
    requires Resting(buf) && TornKeys(buf.s) <= {key} && buf.data.Length + |extra| < TWO32
    modifies buf`freeChunk, buf`s, buf.data, buf.lru
    ensures reply == KvSpec.Del(old(buf.Abstract()), key).reply && (r.Some? <==> reply == Deleted)
    ensures r.Some? ==> r.value.Opened? && r.value.buf.Valid()
                        && AsMap(r.value.buf.Abstract().entries)
                           == AsMap(KvSpec.Del(old(buf.Abstract()), key).model.entries)
  {
    hide MemOf, Whole, HeaderOf, Has, InSync, Torn, KvSpec.Del, Seen, TornKeys, AsMap, FreeList, Total;
    var calls;
    reply, calls := buf.Del(key);
    if reply != Deleted { return reply, None; }
    InSyncIff(buf.s);
    var x, data := RestartAny(buf, extra, openLru, onLruDel);
    r := Some(x);
  }

  /** Whatever a restart makes of a torn entry, its key is not found. */
  lemma TornLost(s: Snap, r: OpenResult, data: array<byte>, openLru: bool, onLruDel: bool, key: Key)
    requires Torn(s) && s.open == multiset{} && key == s.es[0].key
    requires forall i: nat, k: nat :: i < |s.es| && TornBy(ToFront(s, i), k) ==>
               TornOutcome(ToFront(s, i), k, r, data, openLru, onLruDel)
    ensures r.Opened? ==> !Has(r.buf.lru.evictList, key)
  {
    hide TornAt, Synced, Reopened, TailFaults, InSync, Has;
    var k: nat :| TornAt(s.m, s.cs, s.free, s.es[0], k);
    SnapFacts(s);
    FirstInFront(s);
    assert TornBy(ToFront(s, 0), k) && TornOutcome(ToFront(s, 0), k, r, data, openLru, onLruDel);
    if r.Opened? {
      MapInIndex(r.buf, Rest(s), s.es[0].key);
      DropNoKey(s, 0);
    }
  }

  lemma FirstInFront(s: Snap)
    requires s.es != [] && s.open == multiset{}
    ensures ToFront(s, 0) == s
  {
    SnapFacts(s);
    WithoutAt(s.es, 0);
    assert [s.es[0]] + s.es[1..] == s.es && s.es[..0] + s.es[1..] == s.es[1..];
  }

  lemma StoredFirst(b: Model, key: Key, val: Val)
    requires b.w > 0 && KvSpec.Set(b, key, val).reply == Stored
    ensures var es := KvSpec.Set(b, key, val).model.entries; es != [] && es[0] == Entry(key, val)
  {
    hide Evict, Without, ChunksFor;
  }

  lemma SeenFirst(s: Snap, key: Key, val: Val)
    requires Seen(s) != [] && Seen(s)[0] == Entry(key, val)
    ensures s.es != [] && s.es[0].key == key && Has(Seen(s), key)
  {
  }

  // ---- the eviction loop on a buffer that has lost chunks

  /** How the eviction loop ends: with enough free chunks, with a fault of the callback, or never. */
  datatype Ending = Enough | Faults | Spins

  /** What an eviction comes to. */
  ghost function Fate(w: nat, callback: bool, es: seq<Pair>, free: nat, want: nat): (bool, nat, seq<Pair>)
    requires w > 0
  {
    var r := Evict(w, callback, es, free, want);
    (r.crash, r.free, r.entries)
  }

  /** One more entry evicted does not change what it comes to. */
  lemma FateNext(w: nat, callback: bool, es: seq<Pair>, rest: seq<Pair>, last: Pair, free: nat, want: nat)
    requires w > 0 && es == rest + [last] && free < want
    ensures if callback && Corner(w, last) then Fate(w, callback, es, free, want).0
            else Fate(w, callback, es, free, want) == Fate(w, callback, rest, free + Cost(w, last), want)
  {
    hide Corner, Cost;
    assert es[..|es| - 1] == rest && es[|es| - 1] == last;
  }

  /** A buffer whose fields are those of its snapshot; chunks may be lost. */
  ghost predicate Running(buf: KVBuffer, w: nat)
    reads buf, buf.data, buf.lru
  {
    buf.Agrees() && buf.s.es == buf.lru.evictList && w == buf.cs - 4 && w > 0
  }

  /** One round of the loop, with an entry to evict. */
  method EvictOne(buf: KVBuffer, chNeed: nat, ghost w: nat) returns (crash: bool)
    requires Running(buf, w) && buf.lru.evictList != [] && |buf.freeChunk| < chNeed
    modifies buf`freeChunk, buf`s, buf.data, buf.lru
    ensures crash ==> Fate(w, buf.onLruDel, Seen(old(buf.s)), |old(buf.freeChunk)|, chNeed).0
    ensures !crash ==> Running(buf, w) && |buf.lru.evictList| < |old(buf.lru.evictList)|
                       && Fate(w, buf.onLruDel, Seen(buf.s), |buf.freeChunk|, chNeed)
                          == Fate(w, buf.onLruDel, Seen(old(buf.s)), |old(buf.freeChunk)|, chNeed)
  {
    hide MemOf, Seen, InSync, Fate, Corner, Cost, Evicted, Kept;
    ghost var a, k, free := buf.s, |buf.s.es| - 1, |buf.freeChunk|;
    ghost var rest, p := Seen(a)[..k], Seen(a)[k];
    assert [] + a.es == a.es;
    assert Seen(a) == rest + [p];
    FateNext(w, buf.onLruDel, Seen(a), rest, p, free, chNeed);
    var calls;
    crash, calls := buf.EvictOldest([], rest, p);
    if !crash {
      EvictedIs(a, buf.s, rest, Cost(w, p));
      assert [] + buf.s.es == buf.s.es;
      assert |buf.freeChunk| == free + Cost(w, p);
    }
  }

  /** What it comes to, by the free chunks and the entries alone. */
  lemma FateIs(w: nat, callback: bool, es: seq<Pair>, free: nat, want: nat)
    requires w > 0
    ensures var f := Fate(w, callback, es, free, want);
            && (f.0 <==> callback && MeetsCorner(w, es, free, want))
            && (!f.0 ==> (f.1 < want <==> free + Total(w, es) < want))
  {
    hide Evict, MeetsCorner, Total;
    EvictCrashIff(w, callback, es, free, want);
    EvictConserves(w, callback, es, free, want);
    TotalEmpty(w);
  }

  lemma FateNow(w: nat, callback: bool, es: seq<Pair>, free: nat, want: nat)
    requires w > 0 && (free >= want || es == [])
    ensures Fate(w, callback, es, free, want) == (false, free, es)
  {
  }

  /**
   The eviction loop of an insert on a buffer of which some chunks are lost. With an empty index `removeOldest` does
   nothing, so a loop that still wants chunks then never ends. It ends if and only if the free chunks and those of
   the entries suffice, or the callback faults before.
   */
  method EvictUntil(buf: KVBuffer, chNeed: nat, ghost w: nat) returns (end: Ending)
    requires w > 0 && Running(buf, w)
    modifies buf`freeChunk, buf`s, buf.data, buf.lru
    ensures var es, free := Seen(old(buf.s)), |old(buf.freeChunk)|;
            && (end == Faults <==> buf.onLruDel && MeetsCorner(w, es, free, chNeed))
            && (end == Spins <==> !(buf.onLruDel && MeetsCorner(w, es, free, chNeed)) && free + Total(w, es) < chNeed)
    ensures end == Spins ==> buf.lru.evictList == [] && |buf.freeChunk| < chNeed
  {
    hide Seen, Fate, MeetsCorner, Total, Running;
    ghost var goal := Fate(w, buf.onLruDel, Seen(buf.s), |buf.freeChunk|, chNeed);
    FateIs(w, buf.onLruDel, Seen(buf.s), |buf.freeChunk|, chNeed);
    while chNeed > |buf.freeChunk|
      invariant Running(buf, w) && Fate(w, buf.onLruDel, Seen(buf.s), |buf.freeChunk|, chNeed) == goal
      decreases |buf.lru.evictList|
    {
      if |buf.lru.evictList| == 0 {
        SeenNone(buf, w);
        FateNow(w, buf.onLruDel, Seen(buf.s), |buf.freeChunk|, chNeed);
        return Spins;
      }
      var crash := EvictOne(buf, chNeed, w);
      if crash { return Faults; }
    }
    FateNow(w, buf.onLruDel, Seen(buf.s), |buf.freeChunk|, chNeed);
    end := Enough;
  }

  lemma SeenNone(buf: KVBuffer, w: nat)
    requires Running(buf, w) && buf.lru.evictList == []
    ensures Seen(buf.s) == []
  {
  }

  lemma EvictedIs(a: Snap, b: Snap, rest: seq<Pair>, k: int)
    requires Evicted(a, b, rest, k)
    ensures b.cfg == a.cfg && |b.es| < |a.es| && Seen(b) == rest && |b.free| == |a.free| + k
  {
    hide Seen, InSync, Kept;
  }

  /**
   A restart over a shrunk chain and then an insert that needs `chNeed` chunks: the callback faults if and only if the
   loop meets an entry it cannot be told, and else the loop never ends if and only if more chunks are needed than are
   left without those of the torn entry. `es` are the entries the restart has found, and `free` the free chunks.
   */
  method RestartAndInsert(buf: KVBuffer, extra: seq<byte>, chNeed: nat, onLruDel: bool, ghost i: nat, ghost k: nat)
    returns (r: OpenResult, end: Ending, ghost es: seq<Pair>, ghost free: nat)
    requires Resting(buf) && ShrunkAt(buf.s, i, k) && buf.data.Length + |extra| < TWO32
    ensures r.Opened? && buf.cs > 4 && AsMap(es) == AsMap(Seen(Rest(ToFront(buf.s, i))))
    ensures free + |buf.s.es[i].value.chunks| + Total(buf.cs - 4, es) == r.buf.n
    ensures end == Faults <==> onLruDel && MeetsCorner(buf.cs - 4, es, free, chNeed)
    ensures end == Spins <==> end != Faults && r.buf.n - |buf.s.es[i].value.chunks| < chNeed
  {
    hide TornBy, InSync, MemOf, Seen, Total, FreeList, AsMap, MeetsCorner, Whole, HeaderOf, TailFaults, Blocks, Times, Without;
    var data;
    r, data := RestartAny(buf, extra, true, onLruDel);
    assert TornOutcome(ToFront(buf.s, i), k, r, data, true, onLruDel);
    es, free := Seen(r.buf.s), |r.buf.freeChunk|;
    end := EvictUntil(r.buf, chNeed, buf.cs - 4);
  }

  // ---- the corner on the bytes of an array

  /** Into an empty buffer everything that fits is stored. */
  lemma StoreFirst(b: Model, k: Key, v: Val)
    requires b.Ok() && b.entries == [] && b.free == b.n && !TooLarge(b.w, b.n, 8 + |k| + |v|)
    ensures Set(b, k, v).reply == Stored && !Stale(b, k, v)
    ensures Set(b, k, v).model == b.(entries := [Entry(k, v)], free := b.n - ChunksFor(b.w, 8 + |k| + |v|))
  {
    hide ChunksFor, Evict;
    ChunksForFits(b.w, 8 + |k| + |v|);
    CountInArena(b.w, b.n, 8 + |k| + |v|, ChunksFor(b.w, 8 + |k| + |v|));
    var t0 := SetTrack(b, k, v);
    SetCases(b, k, v, t0);
    TrackDone(t0);
  }

  /** The only entry can take any value that fits. */
  lemma StoreAgain(b: Model, k: Key, u: Val, v: Val)
    requires b.w > 0 && b.entries == [Entry(k, u)] && b.free + Cost(b.w, Entry(k, u)) == b.n
    requires !TooLarge(b.w, b.n, 8 + |k| + |v|)
    ensures Has(b.entries, k) && Lookup(b.entries, k) == u && Set(b, k, v).reply == Stored
    ensures Stale(b, k, v) <==> WholeChunks(b.w, 8 + |k|) && (u == []) != (v == [])
  {
    hide ChunksFor, Evict;
    ChunksForFits(b.w, 8 + |k| + |v|);
    CountInArena(b.w, b.n, 8 + |k| + |v|, ChunksFor(b.w, 8 + |k| + |v|));
    assert b.entries[0].key == k;
    var t0 := SetTrack(b, k, v);
    SetCases(b, k, v, t0);
    TrackDone(t0);
  }

  /** In any fresh array a key that fills its chunks, with an empty value, can be stored but not read. */
  method ExactFitCannotBeRead(data: array<byte>, chunkSize: nat, key: Key, openLru: bool, onLruDel: bool)
    returns (buf: KVBuffer, reply: Reply, got: GetReply)
    requires 1024 <= data.Length < TWO32 && 32 <= chunkSize && HEADER + chunkSize <= data.Length && !Inited(data[..])
    requires WholeChunks(chunkSize - 4, 8 + |key|) && !TooLarge(chunkSize - 4, Whole(chunkSize, data.Length - HEADER), 8 + |key|)
    modifies data
    ensures reply == Stored && got == GetCrash
    ensures fresh(buf) && fresh(buf.lru) && NewBuffer(buf, data, chunkSize, openLru, onLruDel)
    ensures buf.Abstract().entries == [Entry(key, [])]
    ensures buf.Abstract().free + Cost(chunkSize - 4, Entry(key, [])) == buf.n
  {
    hide MemOf, Whole, HeaderOf, Has, InSync, Seen, KvSpec.Set, KvSpec.Get, Stale, ChunksFor, WholeChunks;
    ArenaBelow(data, chunkSize, |key|);
    var r := Open(data, chunkSize, openLru, onLruDel, None);
    buf := r.buf;
    ghost var b := buf.Abstract();
    AbstractOk(buf);
    StoreFirst(b, key, []);
    var calls;
    reply, calls := buf.Set(key, []);
    ReadBack(buf.Abstract(), key);
    got := buf.Get(key);
  }

  lemma ReadBack(b: Model, k: Key)
    requires b.w > 0 && b.entries == [Entry(k, [])] && WholeChunks(b.w, 8 + |k|)
    ensures Get(b, k).reply == GetCrash && Get(b, k).model.entries == b.entries && Get(b, k).model == b
  {
    assert b.entries[0].key == k;
    assert Without(b.entries, k) == [];
  }

  /** What fits the arena has sizes below 4 GiB. */
  lemma ArenaBelow(data: array<byte>, cs: nat, len: nat)
    requires 32 <= cs && HEADER + cs <= data.Length < TWO32 && !TooLarge(cs - 4, Whole(cs, data.Length - HEADER), 8 + len)
    ensures 8 + len < TWO32
  {
    var n := Whole(cs, data.Length - HEADER);
    WholeBounds(cs, data.Length - HEADER);
    TimesIsProduct(cs, n);
    assert cs * n == (cs - 4) * n + 4 * n;
  }

  /** Giving that key a value is answered with success, and the next start does not know the key. */
  method ExactFitGoesStale(data: array<byte>, chunkSize: nat, key: Key, val: Val, openLru: bool, onLruDel: bool)
    returns (reply: Reply, r: Option<OpenResult>)
    requires 1024 <= data.Length < TWO32 && 32 <= chunkSize && HEADER + chunkSize <= data.Length && !Inited(data[..])
    requires WholeChunks(chunkSize - 4, 8 + |key|) && val != []
    requires !TooLarge(chunkSize - 4, Whole(chunkSize, data.Length - HEADER), 8 + |key| + |val|)
    modifies data
    ensures reply == Stored && r.Some? && !(r.value.Opened? && Has(r.value.buf.lru.evictList, key))
  {
    hide MemOf, Whole, HeaderOf, Has, InSync, Seen, KvSpec.Set, KvSpec.Get, Lookup, Stale, ChunksFor, WholeChunks;
    ArenaBelow(data, chunkSize, |key| + |val|);
    var buf, first, got := ExactFitCannotBeRead(data, chunkSize, key, openLru, onLruDel);
    StoreAgain(buf.Abstract(), key, [], val);
    reply, r := SetAndRestart(buf, key, val, [], onLruDel);
  }
}
