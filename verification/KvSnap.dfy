/**
 Snapshots: a memory, a free list, the entries and the chunks in hand that together satisfy the
 invariant. Each step of the buffer is a function from snapshots to snapshots, so that the invariant is
 kept by construction and the methods only have to say which step they take.
 */
module KvSnap {
  import opened Bytes
  import opened KvArena
  import opened KvNode
  import opened KvWrite
  import opened KvLru
  import opened KvSpec
  import opened KvState

  /** Chunk size, number of chunks, whether every chunk must be accounted for, and the header bytes. */
  datatype Config = Config(cs: nat, n: nat, whole: bool, header: seq<byte>)

  datatype RawSnap = Snap(cfg: Config, m: Mem, es: seq<Item>, free: seq<nat>, open: multiset<nat>)
  {
    ghost const cs := cfg.cs
    ghost const n := cfg.n
    ghost const whole := cfg.whole
  }

  /** The invariant is a quantified fact that the verifier unfolds only where `Unfold(_)` is mentioned. */
  predicate Unfold(i: nat) { true }

  ghost predicate SnapOk(s: RawSnap)
  {
    forall i: nat {:trigger Unfold(i)} :: Unfold(i) ==>
      Core(s.m, s.cs, s.n, s.es, s.free, s.open, s.whole) && Ascending(s.free) && s.m[0] == s.cfg.header
  }

  type Snap = s: RawSnap | SnapOk(s)
    ghost witness Snap(Config(32, 1, false, seq(16, i => 0)), [seq(16, i => 0), seq(32, i => 0)], [], [], multiset{1})

  /** What the user sees of the entries. */
  ghost function Seen(s: Snap): (v: seq<Pair>)
    ensures |v| == |s.es|
    ensures forall i :: 0 <= i < |v| ==> v[i].key == s.es[i].key
  {
    assert Unfold(0);
    View(s.m, s.cs, s.es)
  }

  /** Whether the image alone tells the entries. */
  ghost predicate InSync(s: Snap)
  {
    Synced(s.m, s.cs, s.es)
  }

  /** The keys whose entries the image does not tell. */
  ghost function TornKeys(s: Snap): set<Key>
  {
    TornOf(s.m, s.cs, s.es)
  }

  /** The entries with the link words of their chains. */
  ghost function Chains(s: Snap): set<(Item, seq<nat>)>
  {
    ChainsOf(s.m, s.es)
  }

  /** The chain goes on behind the end of the key, whose link says that the chain ends there. */
  ghost predicate GrownBy(cs: nat, e: Item, words: seq<nat>)
  {
    |e.value.chunks| == |words| && 4 <= cs &&
    exists j :: 0 <= j < |words| - 1 && words[j] == e.value.chunks[j] && 8 + |e.key| == Times(cs - 4, j + 1)
  }

  ghost function GrownKeys(s: Snap): set<Key>
  {
    set p | p in Chains(s) && GrownBy(s.cs, p.0, p.1) :: p.0.key
  }

  /** A chain follows its links, or has been torn by growing, or is torn in another way. */
  datatype Health = Linking | Grown | Dangling

  ghost function HealthOf(s: Snap, key: Key): Health
  {
    if key !in TornKeys(s) then Linking else if key in GrownKeys(s) then Grown else Dangling
  }

  /**
   What storing a value does to the chain of a key: a stale update tears it, one way or the other; a grown chain is mended
   by an empty value and by nothing else; any other torn chain stays torn under an empty value.
   */
  predicate Goes(h: Health, stale: bool, val: Val, h': Health)
  {
    match h
    case Linking => h' == if !stale then Linking else if val != [] then Grown else Dangling
    case Grown => h' == if val == [] then Linking else Grown
    case Dangling => h' == Dangling || (h' == Linking && val != [])
  }

  /** Image and index agree exactly when there is no such key. */
  lemma InSyncIff(s: Snap)
    ensures InSync(s) <==> TornKeys(s) == {}
  {
    hide Linked;
    if TornKeys(s) == {} {
      forall i | 0 <= i < |s.es| ensures Linked(s.m, s.cs, s.es[i].value.chunks) {
        assert s.es[i] in s.es && s.es[i].key !in TornKeys(s);
      }
    }
  }

  lemma NotTorn(s: Snap, key: Key)
    requires !Has(s.es, key)
    ensures key !in TornKeys(s)
  {
    hide Linked;
  }

  lemma TornHas(s: Snap, key: Key)
    requires key in TornKeys(s)
    ensures Has(s.es, key)
  {
    hide Linked;
    var x :| x in s.es && x.key == key;
    var i :| 0 <= i < |s.es| && s.es[i] == x;
  }

  /**
   Every entry of `b` but that of `key` was in `a`, on the same chunks and with the same link words; so the image tells
   it in `b` exactly when it did in `a`.
   */
  ghost predicate KeptBut(a: Snap, b: Snap, key: Key)
  {
    && (forall k :: k != key && Has(b.es, k) ==> Has(a.es, k) && (k in TornKeys(b) <==> k in TornKeys(a)))
    && (forall p :: p in Chains(b) && p.0.key != key ==> p in Chains(a))
  }

  ghost predicate Kept(a: Snap, b: Snap)
  {
    && (forall k :: Has(b.es, k) ==> Has(a.es, k) && (k in TornKeys(b) <==> k in TornKeys(a)))
    && Chains(b) <= Chains(a)
  }

  lemma KeptSelf(s: Snap)
    ensures Kept(s, s)
  {
  }

  lemma KeptWeaken(a: Snap, b: Snap, key: Key)
    requires Kept(a, b)
    ensures KeptBut(a, b, key)
  {
    hide TornKeys, Has;
  }

  lemma KeptGist(a: Snap, b: Snap)
    requires Gist(a) == Gist(b)
    ensures Kept(a, b)
  {
    hide TornKeys, Has;
  }

  lemma KeptTrans(a: Snap, b: Snap, c: Snap)
    requires Kept(a, b) && Kept(b, c)
    ensures Kept(a, c)
  {
    hide TornKeys, Has;
  }

  lemma KeptButTrans(a: Snap, b: Snap, c: Snap, key: Key)
    requires (Kept(a, b) || KeptBut(a, b, key)) && (Kept(b, c) || KeptBut(b, c, key))
    ensures KeptBut(a, c, key)
  {
    hide TornKeys, Has;
  }

  /** What freeing and allocating chunks does not change. */
  ghost function Gist(s: Snap): (Config, seq<Item>, seq<Pair>, bool, set<Key>, set<(Item, seq<nat>)>)
  {
    (s.cfg, s.es, Seen(s), InSync(s), TornKeys(s), Chains(s))
  }

  lemma TakeOk(s: Snap)
    requires s.free != []
    ensures var s' := s.(free := s.free[1..], open := s.open + multiset{s.free[0]}); SnapOk(s') && Gist(s') == Gist(s)
  {
    hide Partition, ZeroWhenUnowned, Owned, NodesOk, Linked;
    assert Unfold(0);
    TakeStep(s.m, s.cs, s.n, s.es, s.free, s.open, s.whole);
  }

  ghost function Take(s: Snap): (s': Snap)
    requires s.free != []
    ensures s' == s.(free := s.free[1..], open := s.open + multiset{s.free[0]})
    ensures Gist(s') == Gist(s)
  {
    TakeOk(s);
    s.(free := s.free[1..], open := s.open + multiset{s.free[0]})
  }

  lemma FreeOk(s: Snap, c: nat)
    requires c in s.open
    ensures 1 <= c <= s.n && |s.m| == s.n + 1 && |s.m[c]| == s.cs >= 32
    ensures SnapOk(s.(m := Put(s.m, c, 0, Le32(0)), free := Insert(s.free, c), open := s.open - multiset{c}))
  {
    assert Unfold(0);
    PartitionApart(s.n, s.free, s.open, Owned(s.es), s.whole, c);
    FreeStep(s.m, s.cs, s.n, s.es, s.free, s.open, s.whole, c);
    InsertSorted(s.free, c);
  }

  lemma FreeLook(s: Snap, c: nat)
    requires c in s.open && |s.m| == s.n + 1 && 1 <= c <= s.n && |s.m[c]| == s.cs >= 32
    ensures NodesOk(s.m, s.cs, s.es) && NodesOk(Put(s.m, c, 0, Le32(0)), s.cs, s.es)
    ensures Look(Put(s.m, c, 0, Le32(0)), s.cs, s.es) == Look(s.m, s.cs, s.es)
    ensures |Insert(s.free, c)| == |s.free| + 1
  {
    assert Unfold(0);
    FreeStep(s.m, s.cs, s.n, s.es, s.free, s.open, s.whole, c);
    InsertBag(s.free, c);
    assert |Insert(s.free, c)| == |multiset(Insert(s.free, c))|;
  }

  ghost function Free(s: Snap, c: nat): (s': Snap)
    requires c in s.open
    ensures 1 <= c <= s.n && |s.m| == s.n + 1 && |s.m[c]| == s.cs >= 32
    ensures s' == s.(m := Put(s.m, c, 0, Le32(0)), free := Insert(s.free, c), open := s.open - multiset{c})
    ensures Gist(s') == Gist(s)
    ensures |s'.free| == |s.free| + 1
  {
    FreeOk(s, c);
    FreeLook(s, c);
    s.(m := Put(s.m, c, 0, Le32(0)), free := Insert(s.free, c), open := s.open - multiset{c})
  }

  /** From `a` to `b` chunks have been freed: `k` of them, all in `to`; the entries are as before. */
  ghost predicate Freed(a: Snap, b: Snap, k: nat, to: set<nat>)
  {
    Gist(b) == Gist(a) && |b.free| == |a.free| + k && SameBut(a.m, b.m, to)
  }

  lemma FreedMore(a: Snap, b: Snap, k: nat, to: set<nat>, c: nat)
    requires Freed(a, b, k, to) && c in b.open && c in to
    ensures Freed(a, Free(b, c), k + 1, to)
  {
  }

  lemma DropLastOk(s: Snap)
    requires s.es != []
    ensures var s' := s.(es := s.es[..|s.es| - 1], open := s.open + multiset(s.es[|s.es| - 1].value.chunks));
            && SnapOk(s') && Seen(s') == Seen(s)[..|s.es| - 1] && (InSync(s) ==> InSync(s'))
            && TornKeys(s') == TornKeys(s) - {s.es[|s.es| - 1].key}
  {
    hide Partition, ZeroWhenUnowned, Owned, Ascending;
    assert Unfold(0);
    var k := |s.es| - 1;
    assert s.es == s.es[..k] + [s.es[k]];
    DetachLast(s.m, s.cs, s.n, s.es[..k], s.es[k], s.free, s.open, s.whole);
  }

  /** The last entry leaves the index; its chunks are in hand. */
  ghost function DropLast(s: Snap): (s': Snap)
    requires s.es != []
    ensures s' == s.(es := s.es[..|s.es| - 1], open := s.open + multiset(s.es[|s.es| - 1].value.chunks))
    ensures Seen(s') == Seen(s)[..|s.es| - 1] && (InSync(s) ==> InSync(s'))
    ensures TornKeys(s') == TornKeys(s) - {s.es[|s.es| - 1].key}
  {
    DropLastOk(s);
    s.(es := s.es[..|s.es| - 1], open := s.open + multiset(s.es[|s.es| - 1].value.chunks))
  }

  /** From `a` to `b` the oldest entry has been evicted: `rest` is left, `k` chunks came free, chunks in hand stay. */
  ghost predicate Evicted(a: Snap, b: Snap, rest: seq<Pair>, k: int)
  {
    && b.cfg == a.cfg && b.open == a.open && |b.es| < |a.es|
    && Seen(b) == rest && (InSync(a) ==> InSync(b)) && Kept(a, b) && |b.free| == |a.free| + k
    && |b.m| == |a.m| && forall c :: c in a.open && 0 <= c < |a.m| ==> b.m[c] == a.m[c]
  }

  /** Some eviction has led from `a` to `b`. */
  ghost predicate EvictedOne(a: Snap, b: Snap) { Evicted(a, b, Seen(b), |b.free| - |a.free|) }

  lemma LastApart(a: Snap)
    requires a.es != []
    ensures forall c :: c in a.open ==> c !in Elems(a.es[|a.es| - 1].value.chunks)
  {
    assert Unfold(0);
    var last := a.es[|a.es| - 1].value.chunks;
    OwnedMember(a.es, |a.es| - 1);
    forall c | c in a.open ensures c !in Elems(last) {
      PartitionApart(a.n, a.free, a.open, Owned(a.es), a.whole, c);
      assert c !in multiset(last);
    }
  }

  /** Freeing the chunks of the entry that `DropLast` took out completes an eviction. */
  lemma EvictedBy(a: Snap, b: Snap, rest: seq<Pair>, p: Pair, k: nat)
    requires a.es != [] && Seen(a) == rest + [p]
    requires Freed(DropLast(a), b, k, Elems(a.es[|a.es| - 1].value.chunks)) && b.open == a.open
    ensures Evicted(a, b, rest, k)
  {
    hide TornKeys, Has, Chains;
    assert Seen(a)[..|a.es| - 1] == rest;
    LastApart(a);
    LastChains(a);
    LastKept(a, b);
  }

  lemma LastChains(a: Snap)
    requires a.es != []
    ensures Chains(DropLast(a)) <= Chains(a)
  {
    hide Words;
  }

  lemma LastKept(a: Snap, b: Snap)
    requires a.es != [] && b.es == a.es[..|a.es| - 1] && TornKeys(b) == TornKeys(a) - {a.es[|a.es| - 1].key}
    requires Chains(b) <= Chains(a)
    ensures Kept(a, b)
  {
    hide TornKeys, Chains;
    assert Distinct(a.es) by { assert Unfold(0); }
    var k := |a.es| - 1;
    forall x | Has(b.es, x) ensures Has(a.es, x) && x != a.es[k].key {
      var i :| 0 <= i < |b.es| && b.es[i].key == x;
      assert a.es[i].key == x;
    }
  }

  /** The oldest entry, whose chunks `DropLast` has put in hand, still reads as before. */
  lemma LastFacts(a: Snap, rest: seq<Pair>, p: Pair, k: nat, cs: nat)
    requires a.es != [] && k == |a.es| - 1 && Seen(a) == rest + [p] && a.cfg.cs == cs
    ensures NodeOk(DropLast(a).m, cs, a.es[k]) && p == Entry(a.es[k].key, ValOf(DropLast(a).m, cs, a.es[k]))
    ensures DropLast(a).es == a.es[..k] && DropLast(a).open == a.open + multiset(a.es[k].value.chunks)
    ensures DropLast(a).cfg == a.cfg && DropLast(a).m == a.m && DropLast(a).free == a.free
  {
    EntryFacts(a, k, cs);
  }

  /** Evicting and freeing leaves the index with the entries that `DropLast` left. */
  lemma EvictedFacts(a: Snap, b: Snap, rest: seq<Pair>, k: nat)
    requires a.es != [] && Freed(DropLast(a), b, k, Elems(a.es[|a.es| - 1].value.chunks))
    ensures b.es == a.es[..|a.es| - 1] && b.cfg == a.cfg
  {
  }

  /** Entry `i` leaves the index; its chunks are in hand. */
  ghost function DropAt(s: Snap, i: nat): (s': Snap)
    requires i < |s.es|
    ensures s' == s.(es := Without(s.es, s.es[i].key), open := s.open + multiset(s.es[i].value.chunks))
    ensures Seen(s') == Without(Seen(s), s.es[i].key)
  {
    assert Unfold(0);
    DetachStep(s.m, s.cs, s.n, s.es, s.free, s.open, s.whole, i);
    ViewCut(s.m, s.cs, s.es, i);
    s.(es := Without(s.es, s.es[i].key), open := s.open + multiset(s.es[i].value.chunks))
  }

  lemma DropNoKey(s: Snap, i: nat)
    requires i < |s.es|
    ensures !Has(DropAt(s, i).es, s.es[i].key) && !Has(Seen(DropAt(s, i)), s.es[i].key)
    ensures InSync(s) ==> InSync(DropAt(s, i))
    ensures TornKeys(DropAt(s, i)) == TornKeys(s) - {s.es[i].key} && KeptBut(s, DropAt(s, i), s.es[i].key)
    ensures Chains(DropAt(s, i)) == Chains(s) - {(s.es[i], Words(s.m, s.es[i].value.chunks))}
    ensures s.open == multiset{} ==> DropAt(s, i).open == multiset(s.es[i].value.chunks)
  {
    assert Distinct(s.es) by { assert Unfold(0); }
    WithoutKeeps(s.es, s.es[i].key);
    SeenHas(DropAt(s, i), s.es[i].key);
    DropAtTorn(s, i);
    InSyncIff(s);
    InSyncIff(DropAt(s, i));
  }

  lemma DropAtTorn(s: Snap, i: nat)
    requires i < |s.es|
    ensures TornKeys(DropAt(s, i)) == TornKeys(s) - {s.es[i].key} && KeptBut(s, DropAt(s, i), s.es[i].key)
    ensures Chains(DropAt(s, i)) == Chains(s) - {(s.es[i], Words(s.m, s.es[i].value.chunks))}
  {
    hide Linked, Without, Words, Seen;
    assert Distinct(s.es) by { assert Unfold(0); }
    WithoutKeeps(s.es, s.es[i].key);
    var rest := Without(s.es, s.es[i].key);
    forall k | Has(rest, k) ensures Has(s.es, k) {
      var j :| 0 <= j < |rest| && rest[j].key == k;
      assert rest[j] in rest;
    }
    forall x | x in s.es && x.key == s.es[i].key ensures x == s.es[i] {
      var j :| 0 <= j < |s.es| && s.es[j] == x;
    }
  }

  /** What is known of an entry of a snapshot. */
  lemma EntryFacts(s: Snap, i: nat, cs: nat)
    requires i < |s.es| && s.cfg.cs == cs
    ensures NodeOk(s.m, cs, s.es[i]) && Seen(s)[i] == Entry(s.es[i].key, ValOf(s.m, cs, s.es[i]))
    ensures |s.es[i].value.chunks| == Cost(cs - 4, Seen(s)[i]) > 0
    ensures Corner(cs - 4, Seen(s)[i]) <==> 8 + |s.es[i].key| == Times(cs - 4, |s.es[i].value.chunks|)
    ensures Fits(cs - 4, |s.es[i].value.chunks|, 8 + |s.es[i].key| + |Seen(s)[i].value|)
    ensures s.es[i].value.keySize == |s.es[i].key| && 8 + |s.es[i].key| <= Times(cs - 4, |s.es[i].value.chunks|)
  {
    assert Unfold(0);
    NodeCost(s.m, cs, s.es[i]);
  }

  lemma SnapFacts(s: Snap)
    ensures MemOk(s.m, s.cs) && |s.m| == s.n + 1 && Distinct(s.es) && Distinct(Seen(s))
    ensures |s.es| + |s.free| + |s.open| <= s.n
  {
    assert Unfold(0);
    CoreFits(s.m, s.cs, s.n, s.es, s.free, s.open, s.whole);
  }

  lemma SeenHas(s: Snap, k: Key)
    ensures Has(Seen(s), k) <==> Has(s.es, k)
  {
    assert Unfold(0);
    ViewHas(s.m, s.cs, s.es, k);
  }

  /** Finds the position of an indexed key. */
  lemma Locate(key: Key, a: Snap, e: Item) returns (i: nat)
    requires e in a.es && e.key == key
    ensures i < |a.es| && a.es[i] == e && Has(Seen(a), key) && IndexOf(Seen(a), key) == i
    ensures Seen(a)[i] == Entry(key, Lookup(Seen(a), key))
  {
    i :| 0 <= i < |a.es| && a.es[i] == e;
    SnapFacts(a);
    assert Seen(a)[i].key == key;
  }

  /** When all chunks are accounted for and some are wanting, there is an entry. */
  lemma SomeEntry(s: Snap)
    requires s.whole && |s.free| + |s.open| < s.n
    ensures s.es != []
  {
    assert Unfold(0);
    SomeoneOwns(s.n, s.es, s.free, s.open);
  }

  lemma OpenFacts(s: Snap, chunks: seq<nat>)
    requires s.open == multiset(chunks)
    ensures NoDup(chunks) && InRange(s.m, chunks)
  {
    assert Unfold(0);
    BagNoDup(s.m, s.n, s.free, chunks, Owned(s.es), s.whole);
  }

  /** What a finished write has to have left for its entry to be indexed: `m` holds the node of `e` with `val`. */
  ghost predicate Holds(m: Mem, cs: nat, e: Item, val: Val)
  {
    && Shaped(m, cs, e) && e.value.valSize == |val| && Body(e.key, val) <= Payload(m, cs, e.value.chunks)
    && Tidy(cs, e, Words(m, e.value.chunks)) && forall c :: c in e.value.chunks ==> Next(m, c) != 0
  }

  lemma AttachOk(s: Snap, m: Mem, e: Item, val: Val)
    requires s.open == multiset(e.value.chunks) && !Has(s.es, e.key)
    requires MemOk(m, s.cs) && SameBut(s.m, m, Elems(e.value.chunks)) && Holds(m, s.cs, e, val)
    ensures SnapOk(s.(m := m, es := [e] + s.es, open := multiset{}))
  {
    assert Unfold(0);
    StoredStep(s.m, m, s.cs, s.n, s.es, s.free, s.whole, e, val);
  }

  /** The chunks in hand become a new entry. */
  ghost function Attach(s: Snap, m: Mem, e: Item, val: Val): (s': Snap)
    requires s.open == multiset(e.value.chunks) && !Has(s.es, e.key)
    requires MemOk(m, s.cs) && SameBut(s.m, m, Elems(e.value.chunks)) && Holds(m, s.cs, e, val)
    ensures s' == s.(m := m, es := [e] + s.es, open := multiset{})
  {
    AttachOk(s, m, e, val);
    s.(m := m, es := [e] + s.es, open := multiset{})
  }

  lemma AttachSeen(s: Snap, m: Mem, e: Item, val: Val)
    requires s.open == multiset(e.value.chunks) && !Has(s.es, e.key)
    requires MemOk(m, s.cs) && SameBut(s.m, m, Elems(e.value.chunks)) && Holds(m, s.cs, e, val)
    ensures |s.es| < s.n
    ensures Seen(Attach(s, m, e, val)) == [Entry(e.key, val)] + Seen(s)
    ensures InSync(Attach(s, m, e, val)) <==> InSync(s) && Linked(m, s.cs, e.value.chunks)
    ensures TornKeys(Attach(s, m, e, val)) == TornKeys(s) + TornOf(m, s.cs, [e])
    ensures Chains(Attach(s, m, e, val)) == Chains(s) + {(e, Words(m, e.value.chunks))}
  {
    assert Unfold(0);
    StoredStep(s.m, m, s.cs, s.n, s.es, s.free, s.whole, e, val);
  }

  lemma EntryHolds(s: Snap, i: nat)
    requires i < |s.es| && s.open == multiset{}
    ensures NodeOk(s.m, s.cs, s.es[i]) && Holds(s.m, s.cs, s.es[i], ValOf(s.m, s.cs, s.es[i]))
    ensures MemOk(s.m, s.cs) && (InSync(s) ==> Linked(s.m, s.cs, s.es[i].value.chunks))
  {
    assert Unfold(0);
    OwnedMember(s.es, i);
    var chunks := s.es[i].value.chunks;
    forall c | c in chunks ensures Next(s.m, c) != 0 {
      assert c in multiset(chunks);
    }
  }

  lemma TornSplit(s: Snap, i: nat)
    requires i < |s.es|
    ensures TornKeys(s) == TornKeys(s) - {s.es[i].key} + TornOf(s.m, s.cs, [s.es[i]])
    ensures s.es[i].key in TornKeys(s) <==> !Linked(s.m, s.cs, s.es[i].value.chunks)
  {
    hide Linked;
    assert Distinct(s.es) by { assert Unfold(0); }
    forall x | x in s.es && x.key == s.es[i].key ensures x == s.es[i] {
      var j :| 0 <= j < |s.es| && s.es[j] == x;
    }
  }

  lemma ToFrontOk(s: Snap, i: nat)
    requires i < |s.es| && s.open == multiset{}
    ensures var s' := s.(es := [s.es[i]] + Without(s.es, s.es[i].key));
            && SnapOk(s') && Seen(s') == [Seen(s)[i]] + Without(Seen(s), s.es[i].key)
            && (InSync(s') <==> InSync(s)) && TornKeys(s') == TornKeys(s) && Chains(s') == Chains(s)
  {
    hide Linked, Words, NodeOk, Holds, InSync, TornKeys, Chains, Seen, Without, TornOf, ValOf;
    var e, r := s.es[i], DropAt(s, i);
    TornSplit(s, i);
    TornOne(s.m, s.cs, e);
    InSyncIff(s);
    InSyncIff(r);
    EntryFacts(s, i, s.cfg.cs);
    EntryHolds(s, i);
    DropNoKey(s, i);
    ChainIn(s, i);
    AttachSeen(r, s.m, e, ValOf(s.m, s.cs, e));
    assert Attach(r, s.m, e, ValOf(s.m, s.cs, e)) == s.(es := [e] + Without(s.es, e.key));
  }

  lemma ChainIn(s: Snap, i: nat)
    requires i < |s.es|
    ensures (s.es[i], Words(s.m, s.es[i].value.chunks)) in Chains(s)
  {
    hide Words;
    assert s.es[i] in s.es;
  }

  /** Entry `i` moves to the front. */
  ghost function ToFront(s: Snap, i: nat): (s': Snap)
    requires i < |s.es| && s.open == multiset{}
    ensures s' == s.(es := [s.es[i]] + Without(s.es, s.es[i].key))
    ensures Seen(s') == [Seen(s)[i]] + Without(Seen(s), s.es[i].key)
    ensures (InSync(s') <==> InSync(s)) && TornKeys(s') == TornKeys(s) && Chains(s') == Chains(s)
  {
    ToFrontOk(s, i);
    s.(es := [s.es[i]] + Without(s.es, s.es[i].key))
  }

  lemma FreshHolds(m0: Mem, m: Mem, cs: nat, chunks: seq<nat>, key: Key, val: Val)
    requires 4 <= cs && NoDup(chunks) && 8 + |key| + |val| < TWO32 && Fits(cs - 4, |chunks|, 8 + |key| + |val|)
    requires Progress(m0, m, cs, chunks, Elems(chunks), 0, |chunks|, Body(key, val))
    ensures Holds(m, cs, Entry(key, Node(chunks, |key|, |val|)), val) && Linked(m, cs, chunks)
  {
    hide Payload, Times, SameBut, Words, Tidy;
    assert chunks[..|chunks|] == chunks;
    forall c | c in chunks ensures Next(m, c) != 0 {
      var j :| 0 <= j < |chunks| && chunks[j] == c;
      assert Next(m, chunks[j]) == LinkOf(chunks, j);
    }
    LinkedTidy(m, cs, Entry(key, Node(chunks, |key|, |val|)));
  }

  lemma LinkedTidy(m: Mem, cs: nat, e: Item)
    requires Linked(m, cs, e.value.chunks)
    ensures Tidy(cs, e, Words(m, e.value.chunks))
  {
    hide Words;
    LinkedIs(m, cs, e.value.chunks);
  }

  /** A fresh write over the chunks in hand. */
  method WriteFresh(data: array<byte>, cs: nat, ghost n: nat, chunks: seq<nat>, key: Key, val: Val, ghost s: Snap)
    returns (ghost s': Snap)
    requires Geometry(data, cs, n) && s.m == MemOf(data, cs, n) && s.cfg.cs == cs && s.cfg.n == n
    requires s.open == multiset(chunks) && !Has(s.es, key)
    requires 8 + |key| + |val| < TWO32 && Fits(cs - 4, |chunks|, 8 + |key| + |val|)
    modifies data
    ensures s'.m == MemOf(data, cs, n) && |s.es| < n
    ensures s' == s.(m := s'.m, es := [Entry(key, Node(chunks, |key|, |val|))] + s.es, open := multiset{})
    ensures Seen(s') == [Entry(key, val)] + Seen(s) && (InSync(s') <==> InSync(s)) && TornKeys(s') == TornKeys(s)
    ensures Chains(s') == Chains(s) + {(s'.es[0], Words(s'.m, chunks))} && SameBut(s.m, s'.m, Elems(chunks))
  {
    hide MemOf, Seen, InSync, TornKeys, TornOf, Linked, Holds, Progress, Fits, SameBut;
    OpenFacts(s, chunks);
    WriteNode(data, cs, n, chunks, key, val);
    TornOne(MemOf(data, cs, n), cs, Entry(key, Node(chunks, |key|, |val|)));
    FreshHolds(s.m, MemOf(data, cs, n), cs, chunks, key, val);
    AttachSeen(s, MemOf(data, cs, n), Entry(key, Node(chunks, |key|, |val|)), val);
    s' := Attach(s, MemOf(data, cs, n), Entry(key, Node(chunks, |key|, |val|)), val);
  }
}
