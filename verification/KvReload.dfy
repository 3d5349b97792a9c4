/**
 Rebuilding the index from the bytes. A scan files every chunk as free, as the end of a node, or under
 the chunk it links to; from each end the links are then followed backwards. The first part is about
 arbitrary link words, the second about the image of a buffer.
 */
module KvReload {
  import opened Bytes
  import opened KvArena
  import opened KvWrite
  import opened KvLru
  import opened KvSpec
  import opened KvState
  import opened KvSnap

  // ---- the scan

  /** The chunks up to `k` that satisfy a test on their link word, in ascending order. */
  ghost function FreeList(m: Mem, cs: nat, k: nat): (r: seq<nat>)
    requires MemOk(m, cs) && k < |m|
    ensures forall c :: c in r <==> 1 <= c <= k && Next(m, c) == 0
    ensures Ascending(r)
  {
    if k == 0 then []
    else
      var r := FreeList(m, cs, k - 1);
      assert forall j :: 0 <= j < |r| ==> r[j] in r;
      if Next(m, k) == 0 then r + [k] else r
  }

  ghost function EndList(m: Mem, cs: nat, k: nat): (r: seq<nat>)
    requires MemOk(m, cs) && k < |m|
    ensures forall c :: c in r <==> 1 <= c <= k && Next(m, c) == c
    ensures Ascending(r)
  {
    if k == 0 then []
    else
      var r := EndList(m, cs, k - 1);
      assert forall j :: 0 <= j < |r| ==> r[j] in r;
      if Next(m, k) == k then r + [k] else r
  }

  /** For each chunk that is linked to, the last chunk that links to it. */
  ghost function PrevMap(m: Mem, cs: nat, k: nat): (r: map<nat, nat>)
    requires MemOk(m, cs) && k < |m|
    ensures forall x :: x in r ==> 1 <= r[x] <= k && Next(m, r[x]) == x && r[x] != x && x != 0
    ensures forall c :: 1 <= c <= k && Next(m, c) != 0 && Next(m, c) != c ==> Next(m, c) in r
  {
    if k == 0 then map[]
    else
      var r := PrevMap(m, cs, k - 1);
      if Next(m, k) != 0 && Next(m, k) != k then r[Next(m, k) := k] else r
  }

  /** The result of a scan. */
  datatype Census = Census(free: seq<nat>, ends: seq<nat>, prev: map<nat, nat>)

  ghost function CensusOf(m: Mem, cs: nat, k: nat): Census
    requires MemOk(m, cs) && k < |m|
  {
    Census(FreeList(m, cs, k), EndList(m, cs, k), PrevMap(m, cs, k))
  }

  // ---- following links backwards, whatever the link words are

  /** A chain of different chunks, each linking to the next and the last to itself. */
  ghost predicate Chain(m: Mem, cs: nat, chain: seq<nat>)
  {
    chain != [] && NoDup(chain) && Linked(m, cs, chain)
  }

  /** One step back cannot meet the chain again. */
  lemma StepBack(m: Mem, cs: nat, chain: seq<nat>, pre: nat)
    requires Chain(m, cs, chain) && 1 <= pre < |m| && Next(m, pre) == chain[0] && pre != chain[0]
    ensures Chain(m, cs, [pre] + chain)
  {
    var longer := [pre] + chain;
    forall j | 0 <= j < |chain| ensures chain[j] != pre {
      assert Next(m, chain[j]) == LinkOf(chain, j);
    }
    forall j | 0 <= j < |longer| ensures 1 <= longer[j] < |m| && Next(m, longer[j]) == LinkOf(longer, j) {
      if j > 0 { assert Next(m, chain[j - 1]) == LinkOf(chain, j - 1); }
    }
  }

  /** A chain is no longer than the arena has chunks, so the walk ends. */
  lemma ChainFits(m: Mem, cs: nat, chain: seq<nat>, n: nat)
    requires Chain(m, cs, chain) && |m| == n + 1
    ensures |chain| <= n
  {
    NoDupFits(chain, n);
  }

  lemma NoDupBag<T>(s: seq<T>, c: T)
    requires NoDup(s)
    ensures multiset(s)[c] <= 1
    decreases |s|
  {
    if s != [] {
      var k := |s| - 1;
      assert s == s[..k] + [s[k]];
      NoDupBag(s[..k], c);
      if c == s[k] { assert c !in s[..k]; }
    }
  }

  lemma NoDupFits(s: seq<nat>, n: nat)
    requires NoDup(s) && forall j :: 0 <= j < |s| ==> 1 <= s[j] <= n
    ensures |s| <= n
  {
    forall c | c in multiset(s) ensures multiset(s)[c] <= All(n)[c] {
      NoDupBag(s, c);
    }
    assert multiset(s) <= All(n);
    BagFits(multiset(s), All(n));
  }

  /** Two chains that share a chunk have the same end. */
  lemma SharedEnd(m: Mem, cs: nat, a: seq<nat>, b: seq<nat>, i: nat, j: nat)
    requires Chain(m, cs, a) && Chain(m, cs, b) && i < |a| && j < |b| && a[i] == b[j]
    ensures a[|a| - 1] == b[|b| - 1]
    decreases |a| - i
  {
    assert Next(m, a[i]) == LinkOf(a, i) == LinkOf(b, j);
    if i + 1 < |a| {
      assert j + 1 < |b|;
      SharedEnd(m, cs, a, b, i + 1, j + 1);
    }
  }

  /** Chains from different ends are disjoint. */
  lemma ChainsApart(m: Mem, cs: nat, a: seq<nat>, b: seq<nat>)
    requires Chain(m, cs, a) && Chain(m, cs, b) && a[|a| - 1] != b[|b| - 1]
    ensures forall i, j :: 0 <= i < |a| && 0 <= j < |b| ==> a[i] != b[j]
  {
    forall i, j | 0 <= i < |a| && 0 <= j < |b| ensures a[i] != b[j] {
      if a[i] == b[j] { SharedEnd(m, cs, a, b, i, j); }
    }
  }

  /** No other chunk links to the first chunk of the chain. */
  ghost predicate Rootless(m: Mem, cs: nat, chain: seq<nat>)
  {
    MemOk(m, cs) && chain != [] && forall c :: 1 <= c < |m| && c != chain[0] ==> Next(m, c) != chain[0]
  }

  /** No chunk has two others linking to it. */
  ghost predicate Injective(m: Mem, cs: nat)
  {
    MemOk(m, cs) && forall c, d :: 1 <= c < |m| && 1 <= d < |m| && LinksOn(m, cs, c) && LinksOn(m, cs, d) && Next(m, c) == Next(m, d) ==> c == d
  }

  /** The chunk links to another one. */
  ghost predicate LinksOn(m: Mem, cs: nat, c: nat)
    requires MemOk(m, cs) && 1 <= c < |m|
  {
    Next(m, c) != 0 && Next(m, c) != c
  }

  lemma {:induction false} SameBackwards(m: Mem, cs: nat, a: seq<nat>, b: seq<nat>, i: nat, j: nat)
    requires Injective(m, cs) && Chain(m, cs, a) && Chain(m, cs, b) && a[|a| - 1] == b[|b| - 1]
    requires i < |a| && j < |b| && |a| - i == |b| - j
    ensures a[i] == b[j]
    decreases |a| - i
  {
    if i + 1 < |a| {
      SameBackwards(m, cs, a, b, i + 1, j + 1);
      LinkAhead(m, cs, a, i);
      LinkAhead(m, cs, b, j);
      assert LinksOn(m, cs, a[i]) && LinksOn(m, cs, b[j]);
    }
  }

  lemma RootlessNotLonger(m: Mem, cs: nat, a: seq<nat>, b: seq<nat>)
    requires Injective(m, cs) && Chain(m, cs, a) && Chain(m, cs, b) && a[|a| - 1] == b[|b| - 1] && Rootless(m, cs, a)
    ensures |b| <= |a|
  {
    hide Injective, Linked, NoDup;
    if |b| > |a| {
      var j := |b| - |a|;
      SameBackwards(m, cs, a, b, 0, j);
      LinkAhead(m, cs, b, j - 1);
    }
  }

  /** Whole chains from the same end are equal. */
  lemma RootlessUnique(m: Mem, cs: nat, a: seq<nat>, b: seq<nat>)
    requires Injective(m, cs) && Chain(m, cs, a) && Chain(m, cs, b) && a[|a| - 1] == b[|b| - 1]
    requires Rootless(m, cs, a) && Rootless(m, cs, b)
    ensures a == b
  {
    RootlessNotLonger(m, cs, a, b);
    RootlessNotLonger(m, cs, b, a);
    forall i | 0 <= i < |a| ensures a[i] == b[i] { SameBackwards(m, cs, a, b, i, i); }
  }

  // ---- the image of a buffer

  lemma OwnedTwice(es: seq<Item>, a: nat, b: nat, c: nat)
    requires a < |es| && b < |es| && a != b && c in es[a].value.chunks && c in es[b].value.chunks
    ensures Owned(es)[c] >= 2
  {
    OwnedCut(es, a);
    var rest := es[..a] + es[a + 1..];
    var b' := if b < a then b else b - 1;
    assert rest[b'] == es[b];
    OwnedMember(rest, b');
    assert c in multiset(es[a].value.chunks) && c in multiset(es[b].value.chunks);
  }

  /** A chunk belongs to one entry only. */
  lemma OneOwner(s: Snap, a: nat, b: nat, c: nat)
    requires a < |s.es| && b < |s.es| && c in s.es[a].value.chunks && c in s.es[b].value.chunks
    ensures a == b
  {
    assert Partition(s.n, s.free, s.open, Owned(s.es), s.whole) by { assert Unfold(0); }
    PartitionOnce(s.n, s.free, s.open, Owned(s.es), s.whole, c);
    if a != b { OwnedTwice(s.es, a, b, c); }
  }

  lemma PartitionOnce(n: nat, free: seq<nat>, open: multiset<nat>, owned: multiset<nat>, whole: bool, c: nat)
    requires Partition(n, free, open, owned, whole)
    ensures owned[c] <= 1
  {
    var all := multiset(free) + open + owned;
    assert all[c] <= All(n)[c];
  }

  /** A chunk with a nonzero link sits in some entry, at some place of its chain. */
  lemma PlaceOf(s: Snap, c: nat) returns (a: nat, j: nat)
    requires s.open == multiset{} && 1 <= c < |s.m| && |s.m| == s.n + 1 && MemOk(s.m, s.cs) && Next(s.m, c) != 0
    ensures a < |s.es| && j < |s.es[a].value.chunks| && s.es[a].value.chunks[j] == c
  {
    assert Unfold(0);
    a := OwnerOf(s.es, c);
    j :| 0 <= j < |s.es[a].value.chunks| && s.es[a].value.chunks[j] == c;
  }

  /** The chains of an agreeing image: every entry's chunks are a chain. */
  lemma EntryChain(s: Snap, a: nat)
    requires a < |s.es| && InSync(s)
    ensures Chain(s.m, s.cs, s.es[a].value.chunks)
  {
    assert Unfold(0);
    assert NodeOk(s.m, s.cs, s.es[a]);
  }

  /** In an agreeing image a link that is no end leads from a place in a chain to the next one. */
  lemma LinkPlace(s: Snap, c: nat) returns (a: nat, j: nat)
    requires s.open == multiset{} && InSync(s) && MemOk(s.m, s.cs) && |s.m| == s.n + 1
    requires 1 <= c < |s.m| && Next(s.m, c) != 0 && Next(s.m, c) != c
    ensures a < |s.es| && j + 1 < |s.es[a].value.chunks|
    ensures s.es[a].value.chunks[j] == c && s.es[a].value.chunks[j + 1] == Next(s.m, c)
  {
    a, j := PlaceOf(s, c);
    EntryChain(s, a);
    assert Next(s.m, s.es[a].value.chunks[j]) == LinkOf(s.es[a].value.chunks, j);
  }

  /** In an agreeing image at most one chunk links to a given other chunk. */
  lemma OnePredecessor(s: Snap, c: nat, d: nat)
    requires s.open == multiset{} && InSync(s) && MemOk(s.m, s.cs) && |s.m| == s.n + 1
    requires 1 <= c < |s.m| && 1 <= d < |s.m| && Next(s.m, c) == Next(s.m, d) != 0
    requires Next(s.m, c) != c && Next(s.m, d) != d
    ensures c == d
  {
    var a, i := LinkPlace(s, c);
    var b, j := LinkPlace(s, d);
    OneOwner(s, a, b, Next(s.m, c));
    EntryChain(s, a);
    assert i == j;
  }

  /** In an agreeing image no chunk links to the first chunk of an entry. */
  lemma NoPredecessor(s: Snap, a: nat, c: nat)
    requires s.open == multiset{} && InSync(s) && MemOk(s.m, s.cs) && |s.m| == s.n + 1
    requires a < |s.es| && s.es[a].value.chunks != [] && 1 <= c < |s.m|
    requires c != s.es[a].value.chunks[0]
    ensures Next(s.m, c) != s.es[a].value.chunks[0]
  {
    var first := s.es[a].value.chunks[0];
    EntryChain(s, a);
    if Next(s.m, c) == first {
      var b, j := LinkPlace(s, c);
      OneOwner(s, a, b, first);
    }
  }

  lemma LinkAhead(m: Mem, cs: nat, a: seq<nat>, i: nat)
    requires Chain(m, cs, a) && i + 1 < |a|
    ensures 1 <= a[i] < |m| && Next(m, a[i]) == a[i + 1] != a[i] && a[i + 1] != 0
  {
    assert Next(m, a[i]) == LinkOf(a, i);
  }

  lemma SyncedInjective(s: Snap)
    requires s.open == multiset{} && InSync(s) && MemOk(s.m, s.cs) && |s.m| == s.n + 1
    ensures Injective(s.m, s.cs)
  {
    forall c, d | 1 <= c < |s.m| && 1 <= d < |s.m| && LinksOn(s.m, s.cs, c) && LinksOn(s.m, s.cs, d) && Next(s.m, c) == Next(s.m, d)
      ensures c == d
    {
      OnePredecessor(s, c, d);
    }
  }

  /** A chain that nothing links to, ending where an entry ends, is that entry's chain. */
  lemma ChainIsEntry(s: Snap, chain: seq<nat>, own: seq<nat>, e: nat)
    requires s.open == multiset{} && InSync(s) && MemOk(s.m, s.cs) && |s.m| == s.n + 1
    requires e < |s.es| && s.es[e].value.chunks == own && own != [] && Chain(s.m, s.cs, own) && Chain(s.m, s.cs, chain)
    requires chain[|chain| - 1] == own[|own| - 1] && Rootless(s.m, s.cs, chain)
    ensures chain == own
  {
    SyncedInjective(s);
    forall c | 1 <= c < |s.m| && c != own[0] ensures Next(s.m, c) != own[0] { NoPredecessor(s, e, c); }
    RootlessUnique(s.m, s.cs, chain, own);
  }

  /** An end in an agreeing image is the last chunk of an entry. */
  lemma EndOwner(s: Snap, c: nat) returns (e: nat)
    requires s.open == multiset{} && InSync(s) && MemOk(s.m, s.cs) && |s.m| == s.n + 1
    requires 1 <= c < |s.m| && Next(s.m, c) == c
    ensures e < |s.es| && s.es[e].value.chunks != []
    ensures s.es[e].value.chunks[|s.es[e].value.chunks| - 1] == c
  {
    var j;
    e, j := PlaceOf(s, c);
    EntryChain(s, e);
    assert Next(s.m, s.es[e].value.chunks[j]) == LinkOf(s.es[e].value.chunks, j);
  }

  // ---- the same entries in another order

  /** All but position `i`. */
  ghost function Cut(b: seq<Item>, i: nat): (r: seq<Item>)
    requires i < |b|
    ensures |r| == |b| - 1
  {
    b[..i] + b[i + 1..]
  }

  lemma BagCut(b: seq<Item>, i: nat)
    requires i < |b|
    ensures multiset(Cut(b, i)) == multiset(b) - multiset{b[i]}
  {
    assert b == b[..i] + [b[i]] + b[i + 1..];
  }

  lemma {:induction false} OwnedPerm(a: seq<Item>, b: seq<Item>)
    requires multiset(a) == multiset(b)
    ensures Owned(a) == Owned(b)
    decreases |a|
  {
    assert |a| == |multiset(a)| == |b|;
    if a != [] {
      var k := |a| - 1;
      assert a[k] in multiset(b);
      var i :| 0 <= i < |b| && b[i] == a[k];
      BagCut(a, k);
      BagCut(b, i);
      OwnedPerm(Cut(a, k), Cut(b, i));
      OwnedCut(a, k);
      OwnedCut(b, i);
    }
  }

  /** Two sequences without repetition and with the same members are permutations of each other. */
  lemma SameMembers(a: seq<Item>, b: seq<Item>)
    requires NoDup(a) && NoDup(b) && (forall x :: x in a <==> x in b)
    ensures multiset(a) == multiset(b)
  {
    forall x ensures multiset(a)[x] == multiset(b)[x] {
      NoDupBag(a, x);
      NoDupBag(b, x);
      assert x in a <==> x in multiset(a);
      assert x in b <==> x in multiset(b);
    }
  }

  lemma {:induction false} AsMapMember(es: seq<Pair>, k: Key)
    requires Distinct(es)
    ensures k in AsMap(es) <==> Has(es, k)
    ensures k in AsMap(es) ==> Entry(k, AsMap(es)[k]) in es
    decreases |es|
  {
    if es != [] {
      var t := |es| - 1;
      AsMapMember(es[..t], k);
      if Has(es, k) && es[t].key != k {
        var i :| 0 <= i < |es| && es[i].key == k;
        assert es[..t][i].key == k;
      }
    }
  }

  /** The map of a buffer does not depend on the order of its entries. */
  lemma AsMapPerm(a: seq<Pair>, b: seq<Pair>)
    requires Distinct(a) && Distinct(b) && forall x :: x in a <==> x in b
    ensures AsMap(a) == AsMap(b)
  {
    forall k ensures k in AsMap(a) <==> k in AsMap(b)
             ensures k in AsMap(a) && k in AsMap(b) ==> AsMap(a)[k] == AsMap(b)[k] {
      AsMapMember(a, k);
      AsMapMember(b, k);
      HasIff(a, b, k);
    }
  }

  lemma HasIff(a: seq<Pair>, b: seq<Pair>, k: Key)
    requires forall x :: x in a <==> x in b
    ensures Has(a, k) <==> Has(b, k)
  {
    if Has(a, k) {
      var i :| 0 <= i < |a| && a[i].key == k;
      assert a[i] in b;
    }
    if Has(b, k) {
      var i :| 0 <= i < |b| && b[i].key == k;
      assert b[i] in a;
    }
  }

  // ---- the rebuilt buffer

  lemma AscendingNoDup(s: seq<nat>)
    requires Ascending(s)
    ensures NoDup(s)
  {
  }

  /** Chunks that no entry holds and that are not marked free: a reload leaves them alone. */
  ghost predicate NoneZero(m: Mem, lost: multiset<nat>)
  {
    forall c :: c in lost ==> 1 <= c < |m| && 4 <= |m[c]| && Next(m, c) != 0
  }

  /** Filing every chunk with link word 0 as free accounts for all chunks but the lost ones. */
  lemma FullPartition(m: Mem, cs: nat, n: nat, free: seq<nat>, lost: multiset<nat>, owned: multiset<nat>)
    requires MemOk(m, cs) && |m| == n + 1 && Partition(n, free, lost, owned, false)
    requires ZeroWhenUnowned(m, cs, lost, owned) && NoneZero(m, lost)
    ensures Partition(n, FreeList(m, cs, n), lost, owned, true)
  {
    var f := FreeList(m, cs, n);
    AscendingNoDup(f);
    var all := multiset(f) + lost + owned;
    forall c: nat ensures all[c] == All(n)[c] {
      NoDupBag(f, c);
      PartitionOnce(n, free, lost, owned, false, c);
      PartitionApart(n, free, lost, owned, false, c);
      assert c in f <==> c in multiset(f);
    }
    assert all == All(n);
  }

  /** Same entries, in any order without repetition. */
  ghost predicate Reordered(es: seq<Item>, es0: seq<Item>)
  {
    NoDup(es) && forall x :: x in es <==> x in es0
  }

  lemma ReorderedFacts(m: Mem, cs: nat, es: seq<Item>, es0: seq<Item>)
    requires Reordered(es, es0) && Distinct(es0) && NodesOk(m, cs, es0)
    ensures Distinct(es) && NodesOk(m, cs, es) && Owned(es) == Owned(es0)
    ensures Synced(m, cs, es0) ==> Synced(m, cs, es)
  {
    hide NodeOk, Linked, Owned;
    DistinctNoDup(es0);
    SameMembers(es, es0);
    OwnedPerm(es, es0);
    forall i | 0 <= i < |es| ensures NodeOk(m, cs, es[i]) && (Synced(m, cs, es0) ==> Linked(m, cs, es[i].value.chunks)) {
      var j := Position(es, es0, i);
    }
    forall i, j | 0 <= i < j < |es| ensures es[i].key != es[j].key {
      var a := Position(es, es0, i);
      var b := Position(es, es0, j);
      assert es[i] != es[j];
    }
  }

  lemma DistinctNoDup(es: seq<Item>)
    requires Distinct(es)
    ensures NoDup(es)
  {
  }

  /** Where an entry of one list stands in the other. */
  lemma Position(es: seq<Item>, es0: seq<Item>, i: nat) returns (j: nat)
    requires Reordered(es, es0) && i < |es|
    ensures j < |es0| && es0[j] == es[i]
  {
    assert es[i] in es0;
    j :| 0 <= j < |es0| && es0[j] == es[i];
  }

  lemma RebuiltOk(s: Snap, es: seq<Item>, whole: bool)
    requires NoneZero(s.m, s.open) && Reordered(es, s.es)
    ensures MemOk(s.m, s.cs) && |s.m| == s.n + 1
    ensures SnapOk(Snap(Config(s.cs, s.n, whole, s.cfg.header), s.m, es, FreeList(s.m, s.cs, s.n), s.open))
  {
    assert Unfold(0);
    ReorderedFacts(s.m, s.cs, es, s.es);
    FullPartition(s.m, s.cs, s.n, s.free, s.open, Owned(s.es));
  }

  lemma RebuiltSeen(s: Snap, s': Snap)
    requires Reordered(s'.es, s.es) && s'.m == s.m && s'.cs == s.cs
    ensures forall x :: x in Seen(s') <==> x in Seen(s)
    ensures InSync(s) ==> InSync(s')
  {
    assert Unfold(0);
    ReorderedFacts(s.m, s.cs, s'.es, s.es);
    SeenMember(s, s');
    forall x | x in s.es ensures x in s'.es {}
    SeenMember(s', s);
  }

  lemma SeenMember(s: Snap, s': Snap)
    requires s'.m == s.m && s'.cs == s.cs && (forall x :: x in s'.es ==> x in s.es)
    ensures forall x :: x in Seen(s') ==> x in Seen(s)
  {
    forall x | x in Seen(s') ensures x in Seen(s) {
      var i :| 0 <= i < |s'.es| && Seen(s')[i] == x;
      assert s'.es[i] in s.es;
      var j :| 0 <= j < |s.es| && s.es[j] == s'.es[i];
      EntryFacts(s, j, s.cs);
      EntryFacts(s', i, s.cs);
      assert Seen(s)[j] == x;
    }
  }

  /** What the loader makes of the image of `s`: the same map, every chunk accounted for, order of age lost. */
  ghost function Rebuilt(s: Snap, es: seq<Item>, whole: bool): (s': Snap)
    requires NoneZero(s.m, s.open) && Reordered(es, s.es)
    ensures MemOk(s.m, s.cs) && |s.m| == s.n + 1
    ensures s' == Snap(Config(s.cs, s.n, whole, s.cfg.header), s.m, es, FreeList(s.m, s.cs, s.n), s.open)
    ensures AsMap(Seen(s')) == AsMap(Seen(s)) && (InSync(s) ==> InSync(s'))
  {
    RebuiltOk(s, es, whole);
    var s' := Snap(Config(s.cs, s.n, whole, s.cfg.header), s.m, es, FreeList(s.m, s.cs, s.n), s.open);
    RebuiltSeen(s, s');
    SnapFacts(s);
    SnapFacts(s');
    AsMapPerm(Seen(s'), Seen(s));
    s'
  }

  lemma {:induction false} AscendingUnique(a: seq<nat>, b: seq<nat>)
    requires Ascending(a) && Ascending(b) && forall x :: x in a <==> x in b
    ensures a == b
    decreases |a|
  {
    SameEmptiness(a, b);
    if a != [] {
      var i, j := |a| - 1, |b| - 1;
      assert a[i] in a && b[j] in b;
      LastLargest(b, a[i]);
      LastLargest(a, b[j]);
      forall x ensures x in a[..i] <==> x in b[..j] {
        LastOut(a, x);
        LastOut(b, x);
      }
      AscendingUnique(a[..i], b[..j]);
      assert a == a[..i] + [a[i]] && b == b[..j] + [b[j]];
    }
  }

  lemma SameEmptiness(a: seq<nat>, b: seq<nat>)
    requires forall x :: x in a <==> x in b
    ensures a == [] <==> b == []
  {
    assert |a| > 0 ==> a[0] in a;
    assert |b| > 0 ==> b[0] in b;
  }

  lemma LastLargest(a: seq<nat>, x: nat)
    requires Ascending(a) && x in a
    ensures x <= a[|a| - 1]
  {
  }

  lemma LastOut(a: seq<nat>, x: nat)
    requires Ascending(a) && a != []
    ensures x in a[..|a| - 1] <==> x in a && x != a[|a| - 1]
  {
    if x in a && x != a[|a| - 1] {
      var i :| 0 <= i < |a| && a[i] == x;
      assert a[..|a| - 1][i] == x;
    }
  }

  /** When no chunk has leaked, the scan finds the free list itself. */
  lemma SameFree(s: Snap)
    requires s.open == multiset{} && s.whole && MemOk(s.m, s.cs) && |s.m| == s.n + 1
    ensures FreeList(s.m, s.cs, s.n) == s.free
  {
    assert Unfold(0);
    var f := FreeList(s.m, s.cs, s.n);
    forall x: nat ensures x in f <==> x in s.free {
      PartitionApart(s.n, s.free, s.open, Owned(s.es), s.whole, x);
      var all := multiset(s.free) + s.open + Owned(s.es);
      assert all[x] == All(s.n)[x];
      assert x in s.free <==> x in multiset(s.free);
    }
    AscendingUnique(f, s.free);
  }

  // ---- taking new chunks into use

  /** The indices `a+1 .. b`. */
  function Upto(a: nat, b: nat): (r: seq<nat>)
    requires a <= b
    ensures |r| == b - a && forall i :: 0 <= i < |r| ==> r[i] == a + 1 + i
  {
    if a == b then [] else Upto(a, b - 1) + [b]
  }

  lemma UptoSnoc(a: nat, b: nat, x: nat)
    requires a < b
    ensures All(b)[x] == All(b - 1)[x] + (if x == b then 1 else 0)
    ensures multiset(Upto(a, b))[x] == multiset(Upto(a, b - 1))[x] + (if x == b then 1 else 0)
  {
    var init := Upto(a, b - 1);
    assert multiset(init + [b]) == multiset(init) + multiset{b};
  }

  lemma {:induction false} CountUpto(a: nat, b: nat, x: nat)
    requires a <= b
    ensures All(b)[x] == All(a)[x] + multiset(Upto(a, b))[x]
    decreases b
  {
    hide All, Upto;
    if a < b {
      CountUpto(a, b - 1, x);
      UptoSnoc(a, b, x);
    }
  }

  lemma AllUpto(a: nat, b: nat)
    requires a <= b
    ensures All(b) == All(a) + multiset(Upto(a, b))
  {
    hide All, Upto;
    forall x: nat ensures All(b)[x] == (All(a) + multiset(Upto(a, b)))[x] { CountUpto(a, b, x); }
  }

  /** `m'` has the chunks of `m` and behind them free ones. */
  ghost predicate Longer(m: Mem, m': Mem, cs: nat, n: nat, n': nat)
  {
    && MemOk(m', cs) && |m| == n + 1 <= |m'| == n' + 1 < TWO32
    && (forall c :: 1 <= c <= n ==> m'[c] == m[c])
    && (forall c :: n < c <= n' ==> Next(m', c) == 0)
  }

  lemma ExtendedNodes(m: Mem, m': Mem, cs: nat, n: nat, n': nat, es: seq<Item>)
    requires Longer(m, m', cs, n, n') && NodesOk(m, cs, es) && MemOk(m, cs)
    ensures NodesOk(m', cs, es) && View(m', cs, es) == View(m, cs, es) && (Synced(m', cs, es) <==> Synced(m, cs, es))
  {
    forall i | 0 <= i < |es|
      ensures NodeOk(m', cs, es[i]) && ValOf(m', cs, es[i]) == ValOf(m, cs, es[i])
      ensures Linked(m', cs, es[i].value.chunks) <==> Linked(m, cs, es[i].value.chunks)
    {
      assert NodeOk(m, cs, es[i]);
      EntryFrame(m, m', cs, es[i]);
    }
    assert View(m', cs, es) == View(m, cs, es);
  }

  lemma ExtendedPartition(n: nat, n': nat, free: seq<nat>, open: multiset<nat>, owned: multiset<nat>, whole: bool)
    requires n <= n' && Partition(n, free, open, owned, whole)
    ensures Partition(n', free + Upto(n, n'), open, owned, whole)
  {
    AllUpto(n, n');
    assert multiset(free + Upto(n, n')) == multiset(free) + multiset(Upto(n, n'));
  }

  lemma ExtendedOk(s: Snap, m': Mem, n': nat)
    requires Longer(s.m, m', s.cs, s.n, n')
    ensures SnapOk(Snap(Config(s.cs, n', s.whole, m'[0]), m', s.es, s.free + Upto(s.n, n'), s.open))
  {
    assert Unfold(0);
    ExtendedNodes(s.m, m', s.cs, s.n, n', s.es);
    ExtendedPartition(s.n, n', s.free, s.open, Owned(s.es), s.whole);
    ExtendedSorted(s, n');
    forall c | 1 <= c < |m'| && c !in s.open ensures Next(m', c) == 0 <==> c !in Owned(s.es) {
      if c > s.n { PartitionApart(s.n, s.free, s.open, Owned(s.es), s.whole, c); }
    }
  }

  lemma ExtendedSorted(s: Snap, n': nat)
    requires s.n <= n'
    ensures Ascending(s.free + Upto(s.n, n'))
  {
    assert Unfold(0);
    forall i | 0 <= i < |s.free| ensures s.free[i] <= s.n {
      assert s.free[i] in s.free;
      PartitionApart(s.n, s.free, s.open, Owned(s.es), s.whole, s.free[i]);
    }
  }

  /** The same entries over a longer array, the new chunks free. */
  ghost function Extended(s: Snap, m': Mem, n': nat): (s': Snap)
    requires Longer(s.m, m', s.cs, s.n, n')
    ensures s' == Snap(Config(s.cs, n', s.whole, m'[0]), m', s.es, s.free + Upto(s.n, n'), s.open)
    ensures Seen(s') == Seen(s) && (InSync(s') <==> InSync(s))
  {
    ExtendedOk(s, m', n');
    assert NodesOk(s.m, s.cs, s.es) && MemOk(s.m, s.cs) by { assert Unfold(0); }
    ExtendedNodes(s.m, m', s.cs, s.n, n', s.es);
    Snap(Config(s.cs, n', s.whole, m'[0]), m', s.es, s.free + Upto(s.n, n'), s.open)
  }
}
