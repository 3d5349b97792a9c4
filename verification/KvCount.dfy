/**
 Counting ends. A chain that was torn by shrinking has no end in the image, and without grown chains every end is the
 last chunk of an entry. So a reload finds fewer entries than were stored, whatever has become of the chunks since.
 */
module KvCount {
  import opened Bytes
  import opened KvArena
  import opened KvNode
  import opened KvWrite
  import opened KvLru
  import opened KvSpec
  import opened KvState
  import opened KvSnap
  import opened KvUpdate
  import opened KvReload
  import opened KvOpen
  import opened KvStart
  import opened KvBuffer
  import opened KvMarks
  import opened KvStale
  import KvLife
  import KvRun

  // ---- ends and entries

  /** Without grown chains every end is the last chunk of an entry. */
  lemma OwnEnd(s: Snap, p: nat) returns (a: nat)
    requires s.open == multiset{} && GrownKeys(s) == {} && 1 <= p < |s.m| && MemOk(s.m, s.cs) && Next(s.m, p) == p
    ensures a < |s.es| && EndsAt(s.es[a], p)
  {
    hide Times, Words, GrownKeys;
    SnapFacts(s);
    var j;
    a, j := PlaceOf(s, p);
    var e := s.es[a];
    var c, w := e.value.chunks, Words(s.m, e.value.chunks);
    assert Shaped(s.m, s.cs, e) && RightBut(s.cs, e, w) by {
      EntryFacts(s, a, s.cs);
      assert Peek(0);
    }
    GrownSplit(s, a);
    WordAt(s.m, s.cs, c, j);
    assert w[j] == LinkOf(c, j) <==> j + 1 == |c|;
  }

  lemma WordAt(m: Mem, cs: nat, chunks: seq<nat>, j: nat)
    requires MemOk(m, cs) && InRange(m, chunks) && j < |chunks|
    ensures Words(m, chunks)[j] == Next(m, chunks[j])
  {
  }

  /** A torn chain whose value is empty has no end. */
  lemma TornNoEnd(s: Snap, i: nat, p: nat)
    requires i < |s.es| && s.es[i].key in TornKeys(s) && s.es[i].value.valSize == 0 && EndsAt(s.es[i], p)
    requires MemOk(s.m, s.cs) && p < |s.m|
    ensures Next(s.m, p) != p
  {
    hide Times, Words, TornKeys, Linked;
    var e := s.es[i];
    var c, w := e.value.chunks, Words(s.m, e.value.chunks);
    assert Shaped(s.m, s.cs, e) && RightBut(s.cs, e, w) by {
      EntryFacts(s, i, s.cs);
      assert Peek(0);
    }
    TornSplit(s, i);
    LinkedIs(s.m, s.cs, c);
    var j :| 0 <= j < |c| && w[j] != LinkOf(c, j);
    FitsUnique(s.cs - 4, |c|, j + 1, 8 + |e.key|) by { FitsTimes(s.cs - 4, j); }
    WordAt(s.m, s.cs, c, j);
  }

  lemma FitsTimes(w: nat, j: nat)
    requires w > 0
    ensures Fits(w, j + 1, Times(w, j + 1))
  {
  }

  /** The entries that end where the first `k` of `es` end. */
  lemma Owners(s: Snap, i: nat, es: seq<Item>, k: nat) returns (o: seq<nat>)
    requires s.open == multiset{} && GrownKeys(s) == {} && i < |s.es| && s.es[i].key in TornKeys(s) && s.es[i].value.valSize == 0
    requires Untangled(es, s.m, s.cs, s.n) && k <= |es|
    ensures |o| == k && forall t :: 0 <= t < k ==> o[t] < |s.es| && o[t] != i && EndsAt(s.es[o[t]], LastOf(es[t]))
  {
    hide GrownKeys, TornKeys, Linked, Rootless;
    o := [];
    if k > 0 {
      o := Owners(s, i, es, k - 1);
      var x := es[k - 1];
      assert x in es;
      var a := OwnerOfEnd(s, i, x);
      o := o + [a];
    }
  }

  lemma OwnerOfEnd(s: Snap, i: nat, x: Item) returns (a: nat)
    requires s.open == multiset{} && GrownKeys(s) == {} && i < |s.es| && s.es[i].key in TornKeys(s) && s.es[i].value.valSize == 0
    requires Faithful(s.m, s.cs, x)
    ensures a < |s.es| && a != i && EndsAt(s.es[a], LastOf(x))
  {
    hide GrownKeys, TornKeys, Rootless, FromBytes;
    SnapFacts(s);
    var c := x.value.chunks;
    LinkIs(s.m, s.cs, c, |c| - 1);
    a := OwnEnd(s, LastOf(x));
    if a == i { TornNoEnd(s, i, LastOf(x)); }
  }

  /** Fewer entries can be loaded than there are. */
  lemma FewerLoaded(s: Snap, i: nat, es: seq<Item>)
    requires s.open == multiset{} && GrownKeys(s) == {} && i < |s.es| && s.es[i].key in TornKeys(s) && s.es[i].value.valSize == 0
    requires Untangled(es, s.m, s.cs, s.n) && Distinct(es)
    ensures |es| < |s.es|
  {
    hide GrownKeys, TornKeys, Faithful;
    var o := Owners(s, i, es, |es|);
    var all := o + [i];
    forall t, u | 0 <= t < u < |all| ensures all[t] != all[u] {
      if u < |es| { assert es[t] in es && es[u] in es && es[t] != es[u]; }
    }
    var up := seq(|all|, t requires 0 <= t < |all| => all[t] + 1);
    NoDupFits(up, |s.es|);
  }

  /** Among more keys there is one that is not among fewer. */
  lemma SomeMissing(es: seq<Item>, es0: seq<Item>) returns (key: Key)
    requires Distinct(es0) && |es| < |es0|
    ensures Has(es0, key) && !Has(es, key)
  {
    if k: nat :| k < |es0| && !Has(es, es0[k].key) {
      key := es0[k].key;
    } else {
      var at := Places(es, es0, |es0|);
      forall t, u | 0 <= t < u < |at| ensures at[t] != at[u] {}
      var up := seq(|at|, t requires 0 <= t < |at| => at[t] + 1);
      NoDupFits(up, |es|);
      assert false;
    }
  }

  lemma Places(es: seq<Item>, es0: seq<Item>, k: nat) returns (at: seq<nat>)
    requires k <= |es0| && forall t :: 0 <= t < k ==> Has(es, es0[t].key)
    ensures |at| == k && forall t :: 0 <= t < k ==> at[t] < |es| && es[at[t]].key == es0[t].key
  {
    at := [];
    if k > 0 {
      at := Places(es, es0, k - 1);
      at := at + [IndexOf(es, es0[k - 1].key)];
    }
  }

  // ---- the marks of a run

  /** Every marked key has been torn by shrinking, and its value is still empty. */
  predicate ShrunkOnly(marks: Marks, es: seq<Pair>)
  {
    forall k :: k in marks ==> marks[k] == Dangling && Has(es, k) && Lookup(es, k) == []
  }

  /** Chains that have grown are torn. */
  lemma GrownTorn(s: Snap, i: nat)
    requires i < |s.es| && s.es[i].key in GrownKeys(s)
    ensures s.es[i].key in TornKeys(s)
  {
    hide Times, Words, TornKeys, GrownKeys, Linked;
    EntryFacts(s, i, s.cs);
    GrownSplit(s, i);
    TornSplit(s, i);
    LinkedIs(s.m, s.cs, s.es[i].value.chunks);
  }

  /** With such marks nothing has grown, and a marked key is torn with an empty value. */
  lemma ShrunkMeans(s: Snap, marks: Marks)
    requires Marked(s, marks) && ShrunkOnly(marks, Seen(s))
    ensures GrownKeys(s) == {}
    ensures forall k :: k in marks ==> exists i :: 0 <= i < |s.es| && s.es[i].key == k && k in TornKeys(s) && s.es[i].value.valSize == 0
  {
    hide Seen, TornKeys, WholeChunks;
    forall k | k in GrownKeys(s) ensures false {
      var p :| p in Chains(s) && p.0.key == k && GrownBy(s.cs, p.0, p.1);
      var i := PlaceOfPair(s, p);
      assert Seen(s)[i].key == k;
      GrownTorn(s, i);
    }
    forall k | k in marks ensures exists i :: 0 <= i < |s.es| && s.es[i].key == k && k in TornKeys(s) && s.es[i].value.valSize == 0 {
      var i := IndexOf(Seen(s), k);
      EntryFacts(s, i, s.cs);
      assert s.es[i].key == k;
    }
  }

  /** A marked key of this kind costs a key: some stored key is not found. */
  lemma KeyMissing(s: Snap, marks: Marks, es: seq<Item>) returns (key: Key)
    requires s.open == multiset{} && Marked(s, marks) && ShrunkOnly(marks, Seen(s)) && marks != map[]
    requires Untangled(es, s.m, s.cs, s.n) && Distinct(es)
    ensures Has(s.es, key) && !Has(es, key)
  {
    hide Seen, TornKeys, GrownKeys, Untangled, Marked;
    ShrunkMeans(s, marks);
    var k :| k in marks;
    var i :| 0 <= i < |s.es| && s.es[i].key == k && k in TornKeys(s) && s.es[i].value.valSize == 0;
    FewerLoaded(s, i, es);
    SnapFacts(s);
    key := SomeMissing(es, s.es);
  }

  /**
   Any run on a buffer and then a restart. A run that leaves no mark gives its map back. If all marks are of keys that
   have shrunk and are still empty, the restart finds all keys if and only if there is no mark.
   */
  method PlayAndReopen(buf: KVBuffer, ops: seq<KvRun.Op>, extra: seq<byte>, openLru: bool, onLruDel: bool)
    returns (r: OpenResult, data: array<byte>)
    requires NewBuffer(buf, buf.data, buf.cs, buf.openLru, buf.onLruDel)
    requires 1024 <= buf.data.Length && buf.data.Length + |extra| < TWO32
    requires (forall op :: op in ops ==> KvLife.Storable(op)) && !KvRun.Run(buf.Abstract(), ops).Crashed()
    modifies buf`freeChunk, buf`s, buf.data, buf.lru
    ensures var marks, model := RunMarks(old(buf.Abstract()), map[], ops), KvRun.Run(old(buf.Abstract()), ops).model;
            && (marks == map[] ==> r.Opened? && NewBuffer(r.buf, data, buf.cs, openLru, onLruDel)
                                   && AsMap(r.buf.Abstract().entries) == AsMap(model.entries))
            && (ShrunkOnly(marks, model.entries) ==>
                  (r.Opened? && (forall k :: Has(model.entries, k) ==> Has(r.buf.lru.evictList, k)) <==> marks == map[]))
  {
    hide KvRun.Run, MemOf, InSync, Seen, Whole, HeaderOf, RunMarks, AsMap, Marked, Total, FreeList, Untangled, ShrunkOnly;
    ghost var marks := RunMarks(buf.Abstract(), map[], ops);
    SnapFacts(buf.s);
    MarkedNone(buf.s);
    var log := KvLife.Play(buf, ops, map[]);
    SnapFacts(buf.s);
    MarkedNone(buf.s);
    r, data := RestartAny(buf, extra, openLru, onLruDel);
    Verdict(buf.s, marks, r);
  }

  /** Which keys a restart finds. */
  lemma Verdict(s: Snap, marks: Marks, r: OpenResult)
    requires s.open == multiset{} && Marked(s, marks)
    requires marks == map[] ==> r.Opened? && Reopened(r.buf, s) && r.buf.s.es == r.buf.lru.evictList
    requires r.Opened? ==> r.buf.lru.Valid() && Untangled(r.buf.lru.evictList, s.m, s.cs, s.n)
    ensures marks == map[] ==> forall k :: Has(Seen(s), k) ==> Has(r.buf.lru.evictList, k)
    ensures marks != map[] && ShrunkOnly(marks, Seen(s)) && r.Opened? ==>
              exists k :: Has(Seen(s), k) && !Has(r.buf.lru.evictList, k)
  {
    hide Seen, Marked, Untangled, ShrunkOnly, Reopened, Has;
    if marks == map[] {
      forall k | Has(Seen(s), k) ensures Has(r.buf.lru.evictList, k) {
        SeenHas(s, k);
        MapInIndex(r.buf, s, k);
      }
    } else if ShrunkOnly(marks, Seen(s)) && r.Opened? {
      var k := KeyMissing(s, marks, r.buf.lru.evictList);
      SeenHas(s, k);
    }
  }
}
