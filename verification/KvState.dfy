/**
 The invariant that ties image, free list and recency index together, and the steps that keep it.
 `open` are the chunks an operation has in its hands: taken from the free list or from a node, not yet
 given back to either.
 */
module KvState {
  import opened Bytes
  import opened KvArena
  import opened KvNode
  import opened KvWrite
  import opened KvLru
  import opened KvSpec

  type Item = Entry<Node>

  /** The sizes of an entry agree with its chunks, so that its value can be read off the payload. */
  ghost predicate Shaped(m: Mem, cs: nat, e: Item)
  {
    && MemOk(m, cs) && InRange(m, e.value.chunks) && NoDup(e.value.chunks)
    && e.value.keySize == |e.key|
    && 8 + |e.key| + e.value.valSize < TWO32
    && Fits(cs - 4, |e.value.chunks|, 8 + |e.key| + e.value.valSize)
  }

  ghost function ValOf(m: Mem, cs: nat, e: Item): (v: Val)
    requires Shaped(m, cs, e)
    ensures |v| == e.value.valSize
  {
    Payload(m, cs, e.value.chunks)[8 + |e.key|..8 + |e.key| + e.value.valSize]
  }

  /** The link words of a chain of chunks. */
  ghost function Words(m: Mem, chunks: seq<nat>): (w: seq<nat>)
    ensures |w| == |chunks|
  {
    seq(|chunks|, j requires 0 <= j < |chunks| => if chunks[j] < |m| && 4 <= |m[chunks[j]]| then Next(m, chunks[j]) else 0)
  }

  /** `Tidy` is unfolded at this term only. */
  predicate Peek(i: nat) { true }

  ghost predicate RightBut(cs: nat, e: Item, words: seq<nat>)
  {
    && |words| == |e.value.chunks| && 4 <= cs
    && forall j :: 0 <= j < |words| && words[j] != LinkOf(e.value.chunks, j) ==> 8 + |e.key| == Times(cs - 4, j + 1)
  }

  /** Every link of the chain is right, except perhaps the one of the chunk in which the key ends exactly. */
  ghost predicate Tidy(cs: nat, e: Item, words: seq<nat>)
  {
    forall i: nat {:trigger Peek(i)} :: Peek(i) ==> RightBut(cs, e, words)
  }

  /** The entry's chunks hold its sizes, key and value, and link on but for the end of the key. */
  ghost predicate NodeOk(m: Mem, cs: nat, e: Item)
  {
    && Shaped(m, cs, e) && Body(e.key, ValOf(m, cs, e)) <= Payload(m, cs, e.value.chunks)
    && Tidy(cs, e, Words(m, e.value.chunks))
  }

  lemma LinkedIs(m: Mem, cs: nat, chunks: seq<nat>)
    requires MemOk(m, cs) && InRange(m, chunks)
    ensures Linked(m, cs, chunks) <==> forall j :: 0 <= j < |chunks| ==> Words(m, chunks)[j] == LinkOf(chunks, j)
  {
  }

  /** The entries with the link words of their chains. */
  ghost function ChainsOf(m: Mem, es: seq<Item>): set<(Item, seq<nat>)>
  {
    set x | x in es :: (x, Words(m, x.value.chunks))
  }

  ghost predicate NodesOk(m: Mem, cs: nat, es: seq<Item>)
  {
    forall i :: 0 <= i < |es| ==> NodeOk(m, cs, es[i])
  }

  /** All chunks held by entries. */
  ghost function Owned(es: seq<Item>): multiset<nat>
  {
    if es == [] then multiset{} else Owned(es[..|es| - 1]) + multiset(es[|es| - 1].value.chunks)
  }

  /** Every chunk index, once. */
  ghost function All(n: nat): (a: multiset<nat>)
    ensures |a| == n
    ensures forall c :: a[c] == if 1 <= c <= n then 1 else 0
  {
    if n == 0 then multiset{} else All(n - 1) + multiset{n}
  }

  ghost predicate Ascending(s: seq<nat>)
  {
    forall i, j :: 0 <= i < j < |s| ==> s[i] < s[j]
  }

  ghost predicate Partition(n: nat, free: seq<nat>, open: multiset<nat>, owned: multiset<nat>, whole: bool)
  {
    && multiset(free) + open + owned <= All(n)
    && (whole ==> multiset(free) + open + owned == All(n))
  }

  /** A chunk's link word is 0 exactly when no entry holds it; chunks in `open` may be in between. */
  ghost predicate ZeroWhenUnowned(m: Mem, cs: nat, open: multiset<nat>, owned: multiset<nat>)
    requires MemOk(m, cs)
  {
    forall c :: 1 <= c < |m| && c !in open ==> (Next(m, c) == 0 <==> c !in owned)
  }

  ghost predicate Core(m: Mem, cs: nat, n: nat, es: seq<Item>, free: seq<nat>, open: multiset<nat>, whole: bool)
  {
    && MemOk(m, cs) && |m| == n + 1 < TWO32
    && Distinct(es) && NodesOk(m, cs, es)
    && Partition(n, free, open, Owned(es), whole)
    && ZeroWhenUnowned(m, cs, open, Owned(es))
  }

  /** Chains follow their own links, so that the image alone tells the nodes. */
  ghost predicate Synced(m: Mem, cs: nat, es: seq<Item>)
  {
    forall i :: 0 <= i < |es| ==> Linked(m, cs, es[i].value.chunks)
  }

  /** The keys whose chains do not follow their links. */
  ghost function TornOf(m: Mem, cs: nat, es: seq<Item>): (keys: set<Key>)
  {
    set x | x in es && !Linked(m, cs, x.value.chunks) :: x.key
  }

  lemma TornOne(m: Mem, cs: nat, e: Item)
    ensures TornOf(m, cs, [e]) == if Linked(m, cs, e.value.chunks) then {} else {e.key}
  {
    hide Linked;
    assert e in [e];
  }

  /** Chains that are linked in one image exactly when they are in the other. */
  lemma TornSame(m: Mem, m': Mem, cs: nat, es: seq<Item>)
    requires forall i :: 0 <= i < |es| ==> (Linked(m', cs, es[i].value.chunks) <==> Linked(m, cs, es[i].value.chunks))
    requires forall i :: 0 <= i < |es| ==> Words(m', es[i].value.chunks) == Words(m, es[i].value.chunks)
    ensures TornOf(m', cs, es) == TornOf(m, cs, es) && ChainsOf(m', es) == ChainsOf(m, es)
  {
    hide Linked, Words;
    forall x | x in es
      ensures Linked(m', cs, x.value.chunks) <==> Linked(m, cs, x.value.chunks)
      ensures Words(m', x.value.chunks) == Words(m, x.value.chunks)
    {
      var i :| 0 <= i < |es| && es[i] == x;
    }
  }

  /** The entries with their values in place of their nodes. */
  ghost function View(m: Mem, cs: nat, es: seq<Item>): (v: seq<Pair>)
    requires NodesOk(m, cs, es)
    ensures |v| == |es|
    ensures forall i :: 0 <= i < |es| ==> v[i] == Entry(es[i].key, ValOf(m, cs, es[i]))
  {
    seq(|es|, i requires 0 <= i < |es| => Entry(es[i].key, ValOf(m, cs, es[i])))
  }

  /** What the user sees of the entries, whether the image agrees, and where it does not. */
  ghost function Look(m: Mem, cs: nat, es: seq<Item>): (seq<Pair>, bool, set<Key>, set<(Item, seq<nat>)>)
    requires NodesOk(m, cs, es)
  {
    (View(m, cs, es), Synced(m, cs, es), TornOf(m, cs, es), ChainsOf(m, es))
  }

  // ---- what entries own

  lemma {:induction false} OwnedMember(es: seq<Item>, i: nat)
    requires i < |es|
    ensures multiset(es[i].value.chunks) <= Owned(es)
  {
    if i < |es| - 1 {
      OwnedMember(es[..|es| - 1], i);
    }
  }

  lemma OwnedSnoc(es: seq<Item>, e: Item)
    ensures Owned(es + [e]) == Owned(es) + multiset(e.value.chunks)
  {
    assert (es + [e])[..|es|] == es;
  }

  lemma {:induction false} OwnedCut(es: seq<Item>, i: nat)
    requires i < |es|
    ensures Owned(es) == Owned(es[..i] + es[i + 1..]) + multiset(es[i].value.chunks)
    decreases |es|
  {
    hide Owned;
    var k := |es| - 1;
    var t := es[..k];
    assert es == t + [es[k]];
    OwnedSnoc(t, es[k]);
    if i < k {
      OwnedCut(t, i);
      var r := t[..i] + t[i + 1..];
      assert es[..i] + es[i + 1..] == r + [es[k]];
      OwnedSnoc(r, es[k]);
    } else {
      assert es[..i] + es[i + 1..] == t;
    }
  }

  lemma OwnedFront(e: Item, es: seq<Item>)
    ensures Owned([e] + es) == multiset(e.value.chunks) + Owned(es)
  {
    var all := [e] + es;
    OwnedCut(all, 0);
    assert all[..0] + all[1..] == es;
  }

  lemma OwnedWithout(es: seq<Item>, i: nat)
    requires i < |es| && Distinct(es)
    ensures Owned(es) == Owned(Without(es, es[i].key)) + multiset(es[i].value.chunks)
  {
    WithoutAt(es, i);
    OwnedCut(es, i);
  }

  /** An owned chunk belongs to some entry. */
  lemma {:induction false} OwnerOf(es: seq<Item>, c: nat) returns (i: nat)
    requires c in Owned(es)
    ensures i < |es| && c in es[i].value.chunks
  {
    var k := |es| - 1;
    if c in es[k].value.chunks { return k; }
    i := OwnerOf(es[..k], c);
  }

  // ---- frames

  /** An entry only depends on its own chunks. */
  lemma EntryFrame(m: Mem, m': Mem, cs: nat, e: Item)
    requires NodeOk(m, cs, e) && MemOk(m', cs) && |m| <= |m'|
    requires forall c :: c in e.value.chunks ==> m'[c] == m[c]
    ensures NodeOk(m', cs, e) && ValOf(m', cs, e) == ValOf(m, cs, e)
    ensures Linked(m', cs, e.value.chunks) <==> Linked(m, cs, e.value.chunks)
    ensures Words(m', e.value.chunks) == Words(m, e.value.chunks)
  {
    PayloadFrame(m, m', cs, e.value.chunks);
    assert forall j :: 0 <= j < |e.value.chunks| ==> e.value.chunks[j] in e.value.chunks;
    assert Words(m', e.value.chunks) == Words(m, e.value.chunks);
  }

  /** Writes to chunks that no entry holds leave every entry, its value and its links alone. */
  lemma EntriesFrame(m: Mem, m': Mem, cs: nat, es: seq<Item>, to: set<nat>)
    requires NodesOk(m, cs, es)
    requires MemOk(m, cs) && MemOk(m', cs) && SameBut(m, m', to)
    requires forall c :: c in to ==> c !in Owned(es)
    ensures NodesOk(m', cs, es)
    ensures Look(m', cs, es) == Look(m, cs, es)
  {
    forall i | 0 <= i < |es|
      ensures NodeOk(m', cs, es[i]) && ValOf(m', cs, es[i]) == ValOf(m, cs, es[i])
      ensures Linked(m', cs, es[i].value.chunks) <==> Linked(m, cs, es[i].value.chunks)
      ensures Words(m', es[i].value.chunks) == Words(m, es[i].value.chunks)
    {
      OwnedMember(es, i);
      var e := es[i];
      forall c | c in e.value.chunks ensures m'[c] == m[c] {
        assert c in multiset(e.value.chunks);
      }
      EntryFrame(m, m', cs, e);
    }
    assert View(m', cs, es) == View(m, cs, es);
    TornSame(m, m', cs, es);
  }

  // ---- steps

  /** Insertion in front of the first chunk that is not smaller. */
  function Insert(s: seq<nat>, c: nat): (r: seq<nat>)
  {
    if s == [] || s[0] >= c then [c] + s else [s[0]] + Insert(s[1..], c)
  }

  lemma {:induction false} InsertBag(s: seq<nat>, c: nat)
    ensures multiset(Insert(s, c)) == multiset(s) + multiset{c}
  {
    if s != [] && s[0] < c {
      InsertBag(s[1..], c);
      assert s == [s[0]] + s[1..];
    }
  }

  lemma {:induction false} InsertSorted(s: seq<nat>, c: nat)
    requires Ascending(s) && c !in s
    ensures Ascending(Insert(s, c))
  {
    if s != [] && s[0] < c {
      InsertSorted(s[1..], c);
      var r := Insert(s[1..], c);
      InsertBag(s[1..], c);
      forall j | 0 <= j < |r| ensures s[0] < r[j] {
        assert r[j] in multiset(r);
        assert r[j] == c || r[j] in s[1..];
      }
    }
  }

  /** The bag of a sequence from position `i` on. */
  lemma BagTail(s: seq<nat>, i: nat)
    requires i < |s|
    ensures multiset(s[i..]) == multiset{s[i]} + multiset(s[i + 1..])
  {
    assert s[i..] == [s[i]] + s[i + 1..];
  }

  /** A chunk in one of the parts of a partition is in no other. */
  lemma PartitionApart(n: nat, free: seq<nat>, open: multiset<nat>, owned: multiset<nat>, whole: bool, c: nat)
    requires Partition(n, free, open, owned, whole)
    ensures c in open ==> 1 <= c <= n && c !in free && c !in owned && open[c] == 1
    ensures c in free ==> 1 <= c <= n && c !in open && c !in owned
    ensures c in owned ==> 1 <= c <= n && c !in open && c !in free
  {
    var all := multiset(free) + open + owned;
    assert all[c] <= All(n)[c];
    assert c in free <==> c in multiset(free);
  }

  /** Taking the first free chunk. */
  lemma TakeStep(m: Mem, cs: nat, n: nat, es: seq<Item>, free: seq<nat>, open: multiset<nat>, whole: bool)
    requires Core(m, cs, n, es, free, open, whole) && free != []
    ensures Core(m, cs, n, es, free[1..], open + multiset{free[0]}, whole)
    ensures 1 <= free[0] < |m| && free[0] !in open && free[0] !in Owned(es)
  {
    assert free == [free[0]] + free[1..];
    PartitionApart(n, free, open, Owned(es), whole, free[0]);
  }

  lemma FreePartition(n: nat, free: seq<nat>, open: multiset<nat>, owned: multiset<nat>, whole: bool, c: nat)
    requires Partition(n, free, open, owned, whole) && c in open
    ensures Partition(n, Insert(free, c), open - multiset{c}, owned, whole)
  {
    InsertBag(free, c);
    assert multiset(Insert(free, c)) + (open - multiset{c}) + owned == multiset(free) + open + owned;
  }

  lemma ZeroLink(m: Mem, c: nat)
    requires c < |m| && 4 <= |m[c]|
    ensures Next(Put(m, c, 0, Le32(0)), c) == 0
    ensures forall i :: 0 <= i < |m| && i != c && 4 <= |m[i]| ==> Next(Put(m, c, 0, Le32(0)), i) == Next(m, i)
  {
    assert Put(m, c, 0, Le32(0))[c][..4] == Le32(0);
    U32OfLe32(0);
  }

  lemma FreeZero(m: Mem, cs: nat, open: multiset<nat>, owned: multiset<nat>, c: nat)
    requires MemOk(m, cs) && ZeroWhenUnowned(m, cs, open, owned)
    requires 1 <= c < |m| && c !in owned
    ensures MemOk(Put(m, c, 0, Le32(0)), cs)
    ensures ZeroWhenUnowned(Put(m, c, 0, Le32(0)), cs, open - multiset{c}, owned)
    ensures SameBut(m, Put(m, c, 0, Le32(0)), {c})
  {
    ZeroLink(m, c);
  }

  /** Giving one chunk back: link word 0, index into the sorted list. */
  lemma FreeStep(m: Mem, cs: nat, n: nat, es: seq<Item>, free: seq<nat>, open: multiset<nat>, whole: bool, c: nat)
    requires Core(m, cs, n, es, free, open, whole) && c in open
    ensures 1 <= c < |m| && |m[c]| == cs
    ensures var m' := Put(m, c, 0, Le32(0));
            && Core(m', cs, n, es, Insert(free, c), open - multiset{c}, whole)
            && Look(m', cs, es) == Look(m, cs, es)
  {
    PartitionApart(n, free, open, Owned(es), whole, c);
    FreeZero(m, cs, open, Owned(es), c);
    EntriesFrame(m, Put(m, c, 0, Le32(0)), cs, es, {c});
    FreePartition(n, free, open, Owned(es), whole, c);
  }

  lemma NodesCut(m: Mem, cs: nat, es: seq<Item>, i: nat)
    requires NodesOk(m, cs, es) && Distinct(es) && i < |es|
    ensures NodesOk(m, cs, Without(es, es[i].key))
  {
    WithoutIndex(es, i);
  }

  /** Cutting position `i` out of the entries cuts it out of what the user sees. */
  lemma ViewCut(m: Mem, cs: nat, es: seq<Item>, i: nat)
    requires NodesOk(m, cs, es) && Distinct(es) && i < |es|
    requires NodesOk(m, cs, Without(es, es[i].key))
    ensures View(m, cs, Without(es, es[i].key)) == Without(View(m, cs, es), es[i].key)
  {
    WithoutIndex(es, i);
    WithoutIndex(View(m, cs, es), i);
  }

  lemma ViewHas(m: Mem, cs: nat, es: seq<Item>, k: Key)
    requires NodesOk(m, cs, es)
    ensures Has(View(m, cs, es), k) <==> Has(es, k)
  {
    var v := View(m, cs, es);
    assert forall i :: 0 <= i < |es| ==> v[i].key == es[i].key;
  }

  /** Taking an entry out of the index puts its chunks into the operation's hands. */
  lemma DetachStep(m: Mem, cs: nat, n: nat, es: seq<Item>, free: seq<nat>, open: multiset<nat>, whole: bool, i: nat)
    requires Core(m, cs, n, es, free, open, whole) && i < |es|
    ensures Core(m, cs, n, Without(es, es[i].key), free, open + multiset(es[i].value.chunks), whole)
  {
    NodesCut(m, cs, es, i);
    WithoutKeeps(es, es[i].key);
    OwnedWithout(es, i);
    DetachPartition(n, free, open, Owned(es), Owned(Without(es, es[i].key)), multiset(es[i].value.chunks), whole);
  }

  lemma DetachPartition(n: nat, free: seq<nat>, open: multiset<nat>, owned: multiset<nat>,
                        rest: multiset<nat>, mine: multiset<nat>, whole: bool)
    requires Partition(n, free, open, owned, whole) && owned == rest + mine
    ensures Partition(n, free, open + mine, rest, whole)
  {
    assert multiset(free) + (open + mine) + rest == multiset(free) + open + owned;
  }

  lemma ViewPush(m: Mem, cs: nat, es: seq<Item>, e: Item)
    requires MemOk(m, cs) && NodesOk(m, cs, es) && NodeOk(m, cs, e)
    ensures NodesOk(m, cs, [e] + es)
    ensures View(m, cs, [e] + es) == [Entry(e.key, ValOf(m, cs, e))] + View(m, cs, es)
    ensures Synced(m, cs, [e] + es) <==> Synced(m, cs, es) && Linked(m, cs, e.value.chunks)
    ensures TornOf(m, cs, [e] + es) == TornOf(m, cs, es) + TornOf(m, cs, [e])
    ensures ChainsOf(m, [e] + es) == ChainsOf(m, es) + {(e, Words(m, e.value.chunks))}
  {
    hide Linked, Words, TornOf, ChainsOf, Synced, Tidy, Body;
    TornPush(m, cs, es, e);
    var es' := [e] + es;
    forall j | 0 <= j < |es'| ensures NodeOk(m, cs, es'[j]) { assert es'[j] == if j == 0 then e else es[j - 1]; }
    var v, v' := View(m, cs, es), View(m, cs, es');
    forall j | 0 <= j < |es'| ensures v'[j] == ([Entry(e.key, ValOf(m, cs, e))] + v)[j] {}
    SyncedPush(m, cs, es, e);
  }

  lemma TornPush(m: Mem, cs: nat, es: seq<Item>, e: Item)
    ensures TornOf(m, cs, [e] + es) == TornOf(m, cs, es) + TornOf(m, cs, [e])
    ensures ChainsOf(m, [e] + es) == ChainsOf(m, es) + {(e, Words(m, e.value.chunks))}
  {
    hide Linked, Words;
  }

  lemma SyncedPush(m: Mem, cs: nat, es: seq<Item>, e: Item)
    ensures Synced(m, cs, [e] + es) <==> Synced(m, cs, es) && Linked(m, cs, e.value.chunks)
  {
    var es' := [e] + es;
    if Synced(m, cs, es') {
      assert es'[0] == e;
      forall j | 0 <= j < |es| ensures Linked(m, cs, es[j].value.chunks) { assert es[j] == es'[j + 1]; }
    }
  }

  /** An operation that holds exactly the chunks of a well-formed, nowhere zero node can index it. */
  lemma AttachStep(m: Mem, cs: nat, n: nat, es: seq<Item>, free: seq<nat>, whole: bool, e: Item)
    requires Core(m, cs, n, es, free, multiset(e.value.chunks), whole)
    requires NodeOk(m, cs, e) && !Has(es, e.key)
    requires forall c :: c in e.value.chunks ==> Next(m, c) != 0
    ensures Core(m, cs, n, [e] + es, free, multiset{}, whole)
  {
    OwnedFront(e, es);
    DistinctPush(e, es);
    ViewPush(m, cs, es, e);
    AttachPartition(n, free, multiset(e.value.chunks), Owned(es), whole);
  }

  lemma AttachPartition(n: nat, free: seq<nat>, mine: multiset<nat>, rest: multiset<nat>, whole: bool)
    requires Partition(n, free, mine, rest, whole)
    ensures Partition(n, free, multiset{}, mine + rest, whole)
  {
    assert multiset(free) + multiset{} + (mine + rest) == multiset(free) + mine + rest;
  }

  /** Writing to chunks in the operation's hands. */
  lemma WriteStep(m: Mem, m': Mem, cs: nat, n: nat, es: seq<Item>, free: seq<nat>, open: multiset<nat>, whole: bool, to: set<nat>)
    requires Core(m, cs, n, es, free, open, whole)
    requires MemOk(m', cs) && SameBut(m, m', to) && forall c :: c in to ==> c in open
    ensures Core(m', cs, n, es, free, open, whole)
    ensures Look(m', cs, es) == Look(m, cs, es)
  {
    forall c | c in to ensures c !in Owned(es) {
      PartitionApart(n, free, open, Owned(es), whole, c);
    }
    EntriesFrame(m, m', cs, es, to);
  }

  /** A readable node costs what the user pays for it, and its value can be read outside the corner. */
  lemma NodeCost(m: Mem, cs: nat, e: Item)
    requires NodeOk(m, cs, e)
    ensures |e.value.chunks| == Cost(cs - 4, Entry(e.key, ValOf(m, cs, e))) > 0
    ensures Corner(cs - 4, Entry(e.key, ValOf(m, cs, e))) <==> 8 + |e.key| == Times(cs - 4, |e.value.chunks|)
  {
    var len := 8 + |e.key| + e.value.valSize;
    ChunksForFits(cs - 4, len);
    FitsUnique(cs - 4, |e.value.chunks|, ChunksFor(cs - 4, len), len);
    if e.value.valSize == 0 { FitsFull(cs - 4, |e.value.chunks|, len); }
  }

  /** Taking the oldest entry out. */
  lemma DetachLast(m: Mem, cs: nat, n: nat, es: seq<Item>, last: Item, free: seq<nat>, open: multiset<nat>, whole: bool)
    requires Core(m, cs, n, es + [last], free, open, whole)
    ensures Core(m, cs, n, es, free, open + multiset(last.value.chunks), whole)
    ensures NodeOk(m, cs, last)
    ensures View(m, cs, es + [last]) == View(m, cs, es) + [Entry(last.key, ValOf(m, cs, last))]
    ensures Synced(m, cs, es + [last]) ==> Synced(m, cs, es)
    ensures TornOf(m, cs, es) == TornOf(m, cs, es + [last]) - {last.key}
  {
    hide Linked, Words, TornOf, Body;
    var all, k := es + [last], |es|;
    WithoutAt(all, k);
    assert all[..k] + all[k + 1..] == es && all[k] == last;
    DetachStep(m, cs, n, all, free, open, whole, k);
    assert forall j :: 0 <= j < k ==> all[j] == es[j];
    TornLess(m, cs, es, last);
  }

  lemma TornLess(m: Mem, cs: nat, es: seq<Item>, last: Item)
    requires Distinct(es + [last])
    ensures TornOf(m, cs, es) == TornOf(m, cs, es + [last]) - {last.key}
  {
    hide Linked;
    forall x | x in es ensures x.key != last.key {
      var i :| 0 <= i < |es| && es[i] == x;
      assert (es + [last])[i] == x && (es + [last])[|es|] == last;
    }
  }

  lemma PopLast<T>(a: seq<T>, b: seq<T>, x: T)
    ensures (a + (b + [x]))[|a + (b + [x])| - 1] == x
    ensures (a + (b + [x]))[..|a + (b + [x])| - 1] == a + b
  {
  }

  /** If chunks are wanting, some entry holds them. */
  lemma SomeoneOwns(n: nat, es: seq<Item>, free: seq<nat>, open: multiset<nat>)
    requires Partition(n, free, open, Owned(es), true) && |free| + |open| < n
    ensures es != []
  {
    assert |multiset(free) + open + Owned(es)| == |free| + |open| + |Owned(es)|;
  }

  /** Chunks in hand are distinct chunks of the arena. */
  lemma BagNoDup(m: Mem, n: nat, free: seq<nat>, chunks: seq<nat>, owned: multiset<nat>, whole: bool)
    requires Partition(n, free, multiset(chunks), owned, whole) && |m| == n + 1
    ensures NoDup(chunks) && InRange(m, chunks)
  {
    forall j | 0 <= j < |chunks| ensures 1 <= chunks[j] <= n && multiset(chunks)[chunks[j]] == 1 {
      assert chunks[j] in multiset(chunks);
      PartitionApart(n, free, multiset(chunks), owned, whole, chunks[j]);
    }
    forall i, j | 0 <= i < j < |chunks| ensures chunks[i] != chunks[j] {
      if chunks[i] == chunks[j] { TwiceInBag(chunks, i, j); }
    }
  }

  lemma TwiceInBag(s: seq<nat>, i: nat, j: nat)
    requires i < j < |s| && s[i] == s[j]
    ensures multiset(s)[s[i]] >= 2
  {
    var a, b := s[..j], s[j..];
    assert s == a + b;
    assert a[i] in multiset(a);
    assert b[0] in multiset(b);
  }

  /** A node whose payload starts with sizes, key and value is well formed and shows that value. */
  lemma NodeFromBody(m: Mem, cs: nat, e: Item, val: Val)
    requires Shaped(m, cs, e) && e.value.valSize == |val|
    requires Body(e.key, val) <= Payload(m, cs, e.value.chunks) && Tidy(cs, e, Words(m, e.value.chunks))
    ensures NodeOk(m, cs, e) && ValOf(m, cs, e) == val
  {
    var b, p := Body(e.key, val), Payload(m, cs, e.value.chunks);
    assert val == b[8 + |e.key|..8 + |e.key| + |val|];
    assert b == p[..|b|];
    assert p[..|b|][8 + |e.key|..8 + |e.key| + |val|] == p[8 + |e.key|..8 + |e.key| + |val|];
  }

  /** Every entry holds a chunk, so there are no more entries than chunks. */
  lemma {:induction false} EntriesFit(m: Mem, cs: nat, es: seq<Item>)
    requires NodesOk(m, cs, es)
    ensures |es| <= |Owned(es)|
  {
    if es != [] {
      var k := |es| - 1;
      assert NodeOk(m, cs, es[k]);
      EntriesFit(m, cs, es[..k]);
    }
  }

  lemma CoreFits(m: Mem, cs: nat, n: nat, es: seq<Item>, free: seq<nat>, open: multiset<nat>, whole: bool)
    requires Core(m, cs, n, es, free, open, whole)
    ensures |es| + |free| + |open| <= n
  {
    EntriesFit(m, cs, es);
    var used := multiset(free) + open + Owned(es);
    BagFits(used, All(n));
  }

  lemma BagFits(a: multiset<nat>, b: multiset<nat>)
    requires a <= b
    ensures |a| <= |b|
  {
    assert b == a + (b - a);
  }

  /** A finished write over the chunks in hand makes an entry that can be indexed. */
  lemma StoredStep(m0: Mem, m: Mem, cs: nat, n: nat, es: seq<Item>, free: seq<nat>, whole: bool,
                   e: Item, val: Val)
    requires Core(m0, cs, n, es, free, multiset(e.value.chunks), whole) && !Has(es, e.key)
    requires MemOk(m, cs) && SameBut(m0, m, Elems(e.value.chunks))
    requires Shaped(m, cs, e) && e.value.valSize == |val| && Body(e.key, val) <= Payload(m, cs, e.value.chunks)
    requires Tidy(cs, e, Words(m, e.value.chunks)) && forall c :: c in e.value.chunks ==> Next(m, c) != 0
    ensures Core(m, cs, n, [e] + es, free, multiset{}, whole) && |es| < n
    ensures View(m, cs, [e] + es) == [Entry(e.key, val)] + View(m0, cs, es)
    ensures Synced(m, cs, [e] + es) <==> Synced(m0, cs, es) && Linked(m, cs, e.value.chunks)
    ensures TornOf(m, cs, [e] + es) == TornOf(m0, cs, es) + TornOf(m, cs, [e])
    ensures ChainsOf(m, [e] + es) == ChainsOf(m0, es) + {(e, Words(m, e.value.chunks))}
  {
    var open := multiset(e.value.chunks);
    forall c | c in Elems(e.value.chunks) ensures c in open {}
    WriteStep(m0, m, cs, n, es, free, open, whole, Elems(e.value.chunks));
    NodeFromBody(m, cs, e, val);
    CoreFits(m, cs, n, es, free, open, whole);
    AttachStep(m, cs, n, es, free, whole, e);
    ViewPush(m, cs, es, e);
  }
}
