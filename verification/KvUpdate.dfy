/**
 Rewriting the value of an entry that is already there. The entry is out of the index, its chunks are in
 hand; the chain grows at its end with chunks from the free list, or shrinks at its end, and then the
 value is written behind the key.
 */
module KvUpdate {
  import opened Bytes
  import opened KvArena
  import opened KvNode
  import opened KvWrite
  import opened KvLru
  import opened KvSpec
  import opened KvState
  import opened KvSnap

  /** The chain `chunks`, grown or shrunk at its end from `was`, still as in `m0` where it is old. */
  ghost predicate Same(m0: Mem, m: Mem, was: seq<nat>, chunks: seq<nat>)
  {
    && |m0| == |m|
    && forall j :: 0 <= j < |was| && j < |chunks| ==> chunks[j] == was[j] && (was[j] < |m| ==> m[was[j]] == m0[was[j]])
  }

  /** Chunks that were appended are still marked free. */
  ghost predicate FreshTail(m: Mem, cs: nat, was: seq<nat>, chunks: seq<nat>)
    requires MemOk(m, cs) && InRange(m, chunks)
  {
    forall j :: |was| <= j < |chunks| ==> Next(m, chunks[j]) == 0
  }

  /** The chain in hand in the middle of an update of `key`. */
  ghost predicate Hand(m0: Mem, m: Mem, cs: nat, key: Key, was: seq<nat>, chunks: seq<nat>)
  {
    HoldsKey(m, cs, chunks, key) && Same(m0, m, was, chunks) && FreshTail(m, cs, was, chunks)
  }

  lemma HoldsKeyMore(m: Mem, cs: nat, chunks: seq<nat>, c: nat, key: Key)
    requires HoldsKey(m, cs, chunks, key) && NoDup(chunks + [c]) && 1 <= c < |m|
    ensures HoldsKey(m, cs, chunks + [c], key)
  {
    var more := chunks + [c];
    assert more[..|chunks|] == chunks;
    var p, q := Payload(m, cs, chunks), Payload(m, cs, more);
    assert q == p + m[c][4..];
    assert q[..4] == p[..4] && q[8..8 + |key|] == p[8..8 + |key|];
  }

  lemma HoldsKeyLess(m: Mem, cs: nat, chunks: seq<nat>, k: nat, key: Key)
    requires HoldsKey(m, cs, chunks, key) && k <= |chunks| && 8 + |key| <= Times(cs - 4, k)
    ensures HoldsKey(m, cs, chunks[..k], key)
  {
    PayloadTake(m, cs, chunks, k);
    var p, q := Payload(m, cs, chunks), Payload(m, cs, chunks[..k]);
    assert q[..4] == p[..4];
    assert q[8..8 + |key|] == p[8..8 + |key|];
  }

  lemma HoldsKeyFrame(m: Mem, m': Mem, cs: nat, chunks: seq<nat>, key: Key)
    requires HoldsKey(m, cs, chunks, key) && MemOk(m', cs) && |m'| == |m|
    requires forall c :: c in chunks ==> m'[c] == m[c]
    ensures HoldsKey(m', cs, chunks, key)
  {
    PayloadFrame(m, m', cs, chunks);
  }

  lemma HandTake(m0: Mem, m: Mem, cs: nat, key: Key, was: seq<nat>, chunks: seq<nat>, c: nat)
    requires Hand(m0, m, cs, key, was, chunks) && |was| <= |chunks|
    requires NoDup(chunks + [c]) && 1 <= c < |m| && Next(m, c) == 0
    ensures Hand(m0, m, cs, key, was, chunks + [c])
  {
    HoldsKeyMore(m, cs, chunks, c, key);
  }

  lemma HandCut(m0: Mem, m: Mem, cs: nat, key: Key, was: seq<nat>, chunks: seq<nat>, k: nat)
    requires Hand(m0, m, cs, key, was, chunks)
    requires k <= |chunks| && 8 + |key| <= Times(cs - 4, k)
    ensures Hand(m0, m, cs, key, was, chunks[..k])
  {
    HoldsKeyLess(m, cs, chunks, k, key);
  }

  lemma HandCutFrame(m0: Mem, m: Mem, m': Mem, cs: nat, key: Key, was: seq<nat>, chunks: seq<nat>, k: nat)
    requires Hand(m0, m, cs, key, was, chunks) && MemOk(m', cs) && |m'| == |m|
    requires k <= |chunks| && 8 + |key| <= Times(cs - 4, k)
    requires forall c :: c in chunks[..k] ==> 0 <= c < |m| && m'[c] == m[c]
    ensures Hand(m0, m', cs, key, was, chunks[..k])
  {
    HandCut(m0, m, cs, key, was, chunks, k);
    HandFrame(m0, m, m', cs, key, was, chunks[..k]);
  }

  lemma HandFrame(m0: Mem, m: Mem, m': Mem, cs: nat, key: Key, was: seq<nat>, chunks: seq<nat>)
    requires Hand(m0, m, cs, key, was, chunks) && MemOk(m', cs) && |m'| == |m|
    requires forall c :: c in chunks ==> m'[c] == m[c]
    ensures Hand(m0, m', cs, key, was, chunks)
  {
    HoldsKeyFrame(m, m', cs, chunks, key);
    assert forall j :: 0 <= j < |chunks| ==> chunks[j] in chunks;
  }

  /** Where the value starts in a chain that can take the key. */
  lemma ValPosIn(cs: nat, len: nat, idx: nat, start: nat, k: nat)
    requires 32 <= cs && 4 <= start < cs && len == Times(cs - 4, idx) + start - 4 && len <= Times(cs - 4, k)
    ensures idx <= k && (idx == k <==> len == Times(cs - 4, k))
  {
    if idx > k { TimesMono(cs - 4, k, idx); }
    if idx < k { TimesMono(cs - 4, idx, k); }
  }

  /** `getValPos` of a node that is to have `k` chunks. */
  method ValuePlace(cs: nat, node: Node, ghost key: Key, ghost k: nat) returns (idx: nat, start: nat)
    requires 32 <= cs && node.keySize == |key|
    requires 8 + |key| <= Times(cs - 4, |node.chunks|) && 8 + |key| <= Times(cs - 4, k)
    ensures 4 <= start < cs && 8 + |key| == Times(cs - 4, idx) + start - 4
    ensures idx <= |node.chunks| && (idx == |node.chunks| <==> 8 + |key| == Times(cs - 4, |node.chunks|))
    ensures idx <= k && (idx == k <==> 8 + |key| == Times(cs - 4, k))
  {
    idx, start := GetValPos(cs, node);
    ValPosIn(cs, 8 + |key|, idx, start, |node.chunks|);
    ValPosIn(cs, 8 + |key|, idx, start, k);
  }

  /** Chunks before `idx` keep their links, and nothing outside the chain has changed. */
  lemma UpdatedFrame(m0: Mem, m: Mem, m': Mem, cs: nat, key: Key, val: Val, was: seq<nat>, chunks: seq<nat>, idx: nat)
    requires Hand(m0, m, cs, key, was, chunks) && chunks != []
    requires idx <= |was| && idx <= |chunks| && MemOk(m0, cs) && InRange(m0, was)
    requires Progress(Put(m, chunks[0], 8, Le32(|val|)), m', cs, chunks, Elems(chunks[idx..]), idx, |chunks|, Body(key, val))
    ensures SameBut(m, m', Elems(chunks))
    ensures forall j :: 0 <= j < idx ==> Next(m', chunks[j]) == Next(m0, was[j])
  {
    hide Payload, Times, HoldsKey, FreshTail, LinkedFrom;
    assert InRange(m, chunks) && MemOk(m, cs) && NoDup(chunks) by { HandFacts(m0, m, cs, key, was, chunks); }
    forall j | 0 <= j < idx ensures Next(m', chunks[j]) == Next(m0, was[j]) {
      NotInTail(chunks, idx, j);
      assert m'[chunks[j]] == Put(m, chunks[0], 8, Le32(|val|))[chunks[j]];
      assert m'[chunks[j]][..4] == m[chunks[j]][..4];
    }
    forall i | 0 <= i < |m| && i !in Elems(chunks) ensures m'[i] == m[i] {
      assert i !in Elems(chunks[idx..]);
      assert i != chunks[0];
    }
  }

  lemma HandFacts(m0: Mem, m: Mem, cs: nat, key: Key, was: seq<nat>, chunks: seq<nat>)
    requires Hand(m0, m, cs, key, was, chunks)
    ensures MemOk(m, cs) && InRange(m, chunks) && NoDup(chunks)
    ensures forall j :: 0 <= j < |was| && j < |chunks| ==> chunks[j] == was[j]
  {
    hide Payload, Times;
  }

  /** Link words before and after an update: those in front of `idx` stay, the others are right. */
  ghost predicate Rewritten(w0: seq<nat>, was: seq<nat>, w1: seq<nat>, chunks: seq<nat>, idx: nat)
  {
    && |w0| == |was| && |w1| == |chunks| && idx <= |was| && idx <= |chunks|
    && (forall j :: 0 <= j < |was| && j < |chunks| ==> chunks[j] == was[j])
    && (forall j :: 0 <= j < idx ==> w1[j] == w0[j])
    && (forall j :: idx <= j < |chunks| ==> w1[j] == LinkOf(chunks, j))
  }

  /** The newest entry of `s` is that of `key` on `c` chunks, which were `was` with these link words before. */
  ghost predicate Updated(w0: seq<nat>, was: seq<nat>, s: Snap, key: Key, c: nat, idx: nat)
  {
    && s.es != [] && s.es[0].key == key && |s.es[0].value.chunks| == c
    && Rewritten(w0, was, Words(s.m, s.es[0].value.chunks), s.es[0].value.chunks, idx)
  }

  /** Where an insert that finds enough free chunks puts its entry: on the first of them. */
  ghost predicate Placed(a: Snap, b: Snap, key: Key, val: Val, c: nat)
  {
    && c <= |a.free| && b.es == [Entry(key, Node(a.free[..c], |key|, |val|))] + a.es && b.free == a.free[c..]
    && SameBut(a.m, b.m, Elems(a.free[..c]))
  }

  /** The sorted free list after chunks have been given back, the last one first. */
  ghost function GiveBack(free: seq<nat>, cut: seq<nat>): seq<nat>
    decreases |cut|
  {
    if cut == [] then free else GiveBack(Insert(free, cut[|cut| - 1]), cut[..|cut| - 1])
  }

  /** The chunks of an update to `c` chunks that finds enough free ones: cut at the end, or grown by the first free ones. */
  ghost predicate Resized(free: seq<nat>, was: seq<nat>, free': seq<nat>, chunks: seq<nat>, c: nat)
  {
    c <= |was| + |free| ==>
      if c <= |was| then chunks == was[..c] && free' == GiveBack(free, was[c..])
      else chunks == was + free[..c - |was|] && free' == free[c - |was|..]
  }

  /** The chunks and the link words that storing a pair on `c` chunks leaves, for a new key and for one that was there. */
  ghost predicate Laid(a: Snap, b: Snap, key: Key, val: Val, c: nat)
  {
    && (!Has(a.es, key) && c <= |a.free| ==> Placed(a, b, key, val, c))
    && (forall i :: 0 <= i < |a.es| && a.es[i].key == key ==>
          b.es != [] && LaidAt(a.free, a.es[i].value.chunks, Words(a.m, a.es[i].value.chunks), b, key, c))
  }

  ghost predicate LaidAt(free: seq<nat>, was: seq<nat>, words: seq<nat>, b: Snap, key: Key, c: nat)
    requires b.es != []
  {
    && Resized(free, was, b.free, b.es[0].value.chunks, c)
    && exists idx: nat :: Updated(words, was, b, key, c, idx) && b.cs >= 4 && Times(b.cs - 4, idx) <= 8 + |key| < Times(b.cs - 4, idx + 1)
  }

  /** An update keeps a chain tidy: the only link it may leave wrong is the one at the end of the key. */
  lemma TidyAfter(cs: nat, key: Key, w0: seq<nat>, was: seq<nat>, w1: seq<nat>, chunks: seq<nat>, idx: nat, e: Item)
    requires 32 <= cs && Rewritten(w0, was, w1, chunks, idx) && Tidy(cs, Entry(key, Node(was, 0, 0)), w0)
    requires Times(cs - 4, idx) <= 8 + |key| <= Times(cs - 4, |was|) && 8 + |key| <= Times(cs - 4, |chunks|)
    requires e.key == key && e.value.chunks == chunks
    ensures Tidy(cs, e, w1)
  {
    hide Times;
    assert RightBut(cs, Entry(key, Node(was, 0, 0)), w0) by { assert Peek(0); }
    forall j | 0 <= j < |w1| && w1[j] != LinkOf(chunks, j) ensures 8 + |key| == Times(cs - 4, j + 1) {
      if j + 1 == idx && !(idx < |was| && idx < |chunks|) {
        assert 8 + |key| == Times(cs - 4, idx);
      }
    }
    assert RightBut(cs, e, w1);
  }

  lemma TidySame(cs: nat, e: Item, e': Item, words: seq<nat>)
    requires Tidy(cs, e, words) && e'.key == e.key && e'.value.chunks == e.value.chunks
    ensures Tidy(cs, e', words)
  {
    assert RightBut(cs, e, words) by { assert Peek(0); }
    assert RightBut(cs, e', words);
  }

  lemma DetachedTidy(m0: Mem, cs: nat, e: Item)
    requires NodeOk(m0, cs, e)
    ensures Tidy(cs, Entry(e.key, Node(e.value.chunks, 0, 0)), Words(m0, e.value.chunks))
  {
    hide Tidy, Words;
    TidySame(cs, e, Entry(e.key, Node(e.value.chunks, 0, 0)), Words(m0, e.value.chunks));
  }

  lemma RewrittenIs(m0: Mem, m': Mem, cs: nat, was: seq<nat>, chunks: seq<nat>, idx: nat)
    requires MemOk(m0, cs) && InRange(m0, was) && MemOk(m', cs) && InRange(m', chunks) && idx <= |was| && idx <= |chunks|
    requires forall j :: 0 <= j < |was| && j < |chunks| ==> chunks[j] == was[j]
    requires forall j :: 0 <= j < idx ==> Next(m', chunks[j]) == Next(m0, was[j])
    requires forall j :: idx <= j < |chunks| ==> Next(m', chunks[j]) == LinkOf(chunks, j)
    ensures Rewritten(Words(m0, was), was, Words(m', chunks), chunks, idx)
  {
    hide LinkOf, Next;
  }

  /** The update leaves a node with the new value whose links are all set. */
  lemma UpdatedHolds(m0: Mem, m: Mem, m': Mem, cs: nat, key: Key, val: Val, was: seq<nat>, chunks: seq<nat>, idx: nat)
    requires Hand(m0, m, cs, key, was, chunks) && chunks != []
    requires idx <= |was| && idx <= |chunks|
    requires MemOk(m0, cs) && InRange(m0, was) && forall j :: 0 <= j < |was| ==> Next(m0, was[j]) != 0
    requires 8 + |key| + |val| < TWO32 && Fits(cs - 4, |chunks|, 8 + |key| + |val|)
    requires Times(cs - 4, idx) <= 8 + |key| <= Times(cs - 4, |was|) && Tidy(cs, Entry(key, Node(was, 0, 0)), Words(m0, was))
    requires Progress(Put(m, chunks[0], 8, Le32(|val|)), m', cs, chunks, Elems(chunks[idx..]), idx, |chunks|, Body(key, val))
    ensures Rewritten(Words(m0, was), was, Words(m', chunks), chunks, idx)
    ensures Holds(m', cs, Entry(key, Node(chunks, |key|, |val|)), val)
    ensures SameBut(m, m', Elems(chunks))
    ensures forall j :: 0 <= j < idx ==> Next(m', chunks[j]) == Next(m0, was[j])
    ensures forall j :: idx <= j < |chunks| ==> Next(m', chunks[j]) == LinkOf(chunks, j)
  {
    hide Payload, HoldsKey, FreshTail, Same, Times, Put, Le32, Tidy, Words, Rewritten;
    HandFacts(m0, m, cs, key, was, chunks);
    UpdatedFrame(m0, m, m', cs, key, val, was, chunks, idx);
    assert chunks[..|chunks|] == chunks;
    forall c | c in chunks ensures Next(m', c) != 0 {
      var j :| 0 <= j < |chunks| && chunks[j] == c;
      if j >= idx { assert Next(m', chunks[j]) == LinkOf(chunks, j); }
    }
    RewrittenIs(m0, m', cs, was, chunks, idx);
    HandRoom(m0, m, cs, key, was, chunks);
    TidyAfter(cs, key, Words(m0, was), was, Words(m', chunks), chunks, idx, Entry(key, Node(chunks, |key|, |val|)));
  }

  lemma NotInTail(chunks: seq<nat>, idx: nat, j: nat)
    requires NoDup(chunks) && j < idx <= |chunks|
    ensures chunks[j] !in Elems(chunks[idx..])
  {
  }

  /**
   The update loop starts at the chunk of the first value byte and does not touch the link before it.
   That link is right exactly when that chunk exists before and after the update, or neither before nor after.
   */
  lemma StaleLink(m0: Mem, m': Mem, cs: nat, was: seq<nat>, chunks: seq<nat>, idx: nat)
    requires Linked(m0, cs, was) && MemOk(m', cs) && InRange(m', chunks) && NoDup(was) && NoDup(chunks)
    requires was != [] && chunks != [] && idx <= |was| && idx <= |chunks|
    requires forall j :: 0 <= j < |was| && j < |chunks| ==> chunks[j] == was[j]
    requires forall j :: 0 <= j < idx ==> Next(m', chunks[j]) == Next(m0, was[j])
    requires forall j :: idx <= j < |chunks| ==> Next(m', chunks[j]) == LinkOf(chunks, j)
    ensures Linked(m', cs, chunks) <==> (idx == |was| <==> idx == |chunks|)
  {
    forall j | 0 <= j < idx ensures Next(m', chunks[j]) == LinkOf(was, j) {}
    if idx == |was| <==> idx == |chunks| {
      forall j | 0 <= j < |chunks| ensures Next(m', chunks[j]) == LinkOf(chunks, j) {}
    } else {
      var j := idx - 1;
      assert Next(m', chunks[j]) == LinkOf(was, j) != LinkOf(chunks, j);
    }
  }

  /**
   The entry's chain is torn behind chunk `k`, where its key ends: either the chain goes on behind an end, or its
   last link leads to a free chunk.
   */
  ghost predicate TornAt(m: Mem, cs: nat, free: seq<nat>, e: Item, k: nat)
  {
    var chunks := e.value.chunks;
    && MemOk(m, cs) && InRange(m, chunks) && 1 <= k <= |chunks| && 8 + |e.key| == Times(cs - 4, k)
    && (forall j :: 0 <= j < k - 1 ==> Next(m, chunks[j]) == chunks[j + 1])
    && (forall j :: k <= j < |chunks| ==> Next(m, chunks[j]) == LinkOf(chunks, j))
    && if k < |chunks| then Next(m, chunks[k - 1]) == chunks[k - 1] && e.value.valSize > 0
       else Next(m, chunks[k - 1]) in free
  }

  /** The newest entry is torn, all others follow their links. */
  ghost predicate Torn(s: Snap)
  {
    s.es != [] && Synced(s.m, s.cs, s.es[1..]) && exists k :: TornAt(s.m, s.cs, s.free, s.es[0], k)
  }

  /** Image and index agree, or the newest entry is torn. */
  ghost predicate Settles(s: Snap, agree: bool) { if agree then InSync(s) else Torn(s) }

  /** Chunks that have been cut off the chain are free. */
  ghost predicate CutOff(free: seq<nat>, was: seq<nat>, k: nat)
  {
    forall j :: k <= j < |was| ==> was[j] in free
  }

  /** What the update loop leaves when exactly one of the two chains ends where the key ends. */
  lemma TornLink(m0: Mem, m': Mem, cs: nat, free: seq<nat>, key: Key, val: Val, was: seq<nat>, chunks: seq<nat>, idx: nat)
    requires Linked(m0, cs, was) && MemOk(m', cs) && InRange(m', chunks) && NoDup(was) && NoDup(chunks)
    requires was != [] && chunks != [] && idx <= |was| && idx <= |chunks| && CutOff(free, was, |chunks|)
    requires forall j :: 0 <= j < |was| && j < |chunks| ==> chunks[j] == was[j]
    requires forall j :: 0 <= j < idx ==> Next(m', chunks[j]) == Next(m0, was[j])
    requires forall j :: idx <= j < |chunks| ==> Next(m', chunks[j]) == LinkOf(chunks, j)
    requires 8 + |key| == Times(cs - 4, idx) && Fits(cs - 4, |chunks|, 8 + |key| + |val|)
    requires !(idx == |was| <==> idx == |chunks|)
    ensures TornAt(m', cs, free, Entry(key, Node(chunks, |key|, |val|)), idx)
  {
    hide Times, LinkOf, Next;
    assert idx > 0 by { TimesIsProduct(cs - 4, idx); }
    var k := idx - 1;
    forall j | 0 <= j < k ensures Next(m', chunks[j]) == chunks[j + 1] { LinkIs(m0, cs, was, j); }
    LinkIs(m0, cs, was, k);
    if idx < |chunks| {
      TimesMono(cs - 4, idx, |chunks| - 1);
      assert Next(m', chunks[k]) == chunks[k];
    } else {
      assert Next(m', chunks[k]) == was[idx];
    }
  }

  lemma LinkIs(m: Mem, cs: nat, chain: seq<nat>, j: nat)
    requires Linked(m, cs, chain) && j < |chain|
    ensures Next(m, chain[j]) == if j + 1 < |chain| then chain[j + 1] else chain[j]
  {
  }

  /** Writes the new value and turns the chain in hand into the entry of `key`. */
  method WriteBack(data: array<byte>, cs: nat, ghost n: nat, chunks: seq<nat>, key: Key, val: Val, idx: nat, start: nat,
                   ghost s: Snap, ghost m0: Mem, ghost was: seq<nat>)
    returns (ghost s': Snap)
    requires Geometry(data, cs, n) && s.m == MemOf(data, cs, n) && s.cfg.cs == cs && s.cfg.n == n
    requires s.open == multiset(chunks) && !Has(s.es, key) && chunks != [] && was != []
    requires Hand(m0, s.m, cs, key, was, chunks)
    requires MemOk(m0, cs) && InRange(m0, was) && NoDup(was) && forall j :: 0 <= j < |was| ==> Next(m0, was[j]) != 0
    requires idx <= |was| && 4 <= start < cs && 8 + |key| == Times(cs - 4, idx) + start - 4
    requires 8 + |key| <= Times(cs - 4, |was|) && CutOff(s.free, was, |chunks|)
    requires Tidy(cs, Entry(key, Node(was, 0, 0)), Words(m0, was))
    requires 8 + |key| + |val| < TWO32 && Fits(cs - 4, |chunks|, 8 + |key| + |val|)
    modifies data
    ensures s'.m == MemOf(data, cs, n) && |s.es| < n
    ensures s' == s.(m := s'.m, es := [Entry(key, Node(chunks, |key|, |val|))] + s.es, open := multiset{})
    ensures Seen(s') == [Entry(key, val)] + Seen(s)
    ensures Rejoined(s, s', key) && (Linked(m0, cs, was) ==> (key in TornKeys(s') <==> !(idx == |was| <==> idx == |chunks|)))
    ensures Rewritten(Words(m0, was), was, Words(s'.m, chunks), chunks, idx)
    ensures Linked(m0, cs, was) && InSync(s) ==> Settles(s', idx == |was| <==> idx == |chunks|)
  {
    hide Settles, TornKeys, Rejoined, CutOff, MemOf, Seen, InSync, Progress, Linked, Times, Payload, LinkedFrom;
    HandFacts(m0, s.m, cs, key, was, chunks);
    WriteVal(data, cs, n, chunks, key, val, idx, start);
    assert 8 + |key| <= Times(cs - 4, |chunks|) by { HandRoom(m0, s.m, cs, key, was, chunks); }
    s' := Reindex(s, m0, MemOf(data, cs, n), key, val, was, chunks, idx);
  }

  /** The entry of `key` has joined the others, whose chains are as they were. */
  ghost predicate Rejoined(s: Snap, s': Snap, key: Key)
  {
    KeptBut(s, s', key) && forall k :: k != key && k in TornKeys(s) ==> k in TornKeys(s')
  }

  lemma RejoinedBy(s: Snap, s': Snap, e: Item, torn: bool)
    requires s'.es == [e] + s.es && !Has(s.es, e.key) && TornKeys(s') == TornKeys(s) + if torn then {e.key} else {}
    requires exists words :: Chains(s') == Chains(s) + {(e, words)}
    ensures Rejoined(s, s', e.key) && (e.key in TornKeys(s') <==> torn)
  {
    hide Linked, Chains;
    forall k | k != e.key && Has(s'.es, k) ensures Has(s.es, k) {
      var i :| 0 <= i < |s'.es| && s'.es[i].key == k;
      assert s.es[i - 1].key == k;
    }
    forall x | x in s.es ensures x.key != e.key {
      var i :| 0 <= i < |s.es| && s.es[i] == x;
    }
  }

  lemma ReindexFacts(s: Snap, m0: Mem, m': Mem, key: Key, val: Val, was: seq<nat>, chunks: seq<nat>, idx: nat)
    requires s.open == multiset(chunks) && !Has(s.es, key) && chunks != [] && was != []
    requires Hand(m0, s.m, s.cs, key, was, chunks) && idx <= |was| && idx <= |chunks| && CutOff(s.free, was, |chunks|)
    requires Times(s.cs - 4, idx) <= 8 + |key| <= Times(s.cs - 4, |was|)
    requires MemOk(m0, s.cs) && InRange(m0, was) && NoDup(was) && forall j :: 0 <= j < |was| ==> Next(m0, was[j]) != 0
    requires 8 + |key| + |val| < TWO32 && Fits(s.cs - 4, |chunks|, 8 + |key| + |val|)
    requires Tidy(s.cs, Entry(key, Node(was, 0, 0)), Words(m0, was))
    requires Progress(Put(s.m, chunks[0], 8, Le32(|val|)), m', s.cs, chunks, Elems(chunks[idx..]), idx, |chunks|,
                      Body(key, val))
    ensures var e := Entry(key, Node(chunks, |key|, |val|));
            && MemOk(m', s.cs) && SameBut(s.m, m', Elems(chunks)) && Holds(m', s.cs, e, val) && |s.es| < s.n
            && Seen(Attach(s, m', e, val)) == [Entry(key, val)] + Seen(s)
            && Rejoined(s, Attach(s, m', e, val), key) && Rewritten(Words(m0, was), was, Words(m', chunks), chunks, idx)
            && (Linked(m0, s.cs, was) ==> (key in TornKeys(Attach(s, m', e, val)) <==> !(idx == |was| <==> idx == |chunks|)))
            && (Linked(m0, s.cs, was) && InSync(s) ==> Settles(Attach(s, m', e, val), idx == |was| <==> idx == |chunks|))
  {
    hide Seen, InSync, Hand, Payload, Times, Put, Holds, Linked, Has, TornAt, Torn, LinkOf, Next, TornKeys, TornOf, Rejoined, Chains, Words, Tidy, Rewritten;
    UpdatedHolds(m0, s.m, m', s.cs, key, val, was, chunks, idx);
    var e := Entry(key, Node(chunks, |key|, |val|));
    AttachSeen(s, m', e, val);
    TornOne(m', s.cs, e);
    assert Chains(Attach(s, m', e, val)) == Chains(s) + {(e, Words(m', chunks))};
    RejoinedBy(s, Attach(s, m', e, val), e, !Linked(m', s.cs, chunks));
    if Linked(m0, s.cs, was) {
      HandFacts(m0, s.m, s.cs, key, was, chunks);
      StaleLink(m0, m', s.cs, was, chunks, idx);
      if InSync(s) && !(idx == |was| <==> idx == |chunks|) {
        HandRoom(m0, s.m, s.cs, key, was, chunks);
        assert 8 + |key| == Times(s.cs - 4, idx);
        TornLink(m0, m', s.cs, s.free, key, val, was, chunks, idx);
        TornAttach(s, m', e, val, idx);
      }
    }
  }

  lemma TornAttach(s: Snap, m': Mem, e: Item, val: Val, k: nat)
    requires s.open == multiset(e.value.chunks) && !Has(s.es, e.key) && InSync(s)
    requires MemOk(m', s.cs) && SameBut(s.m, m', Elems(e.value.chunks)) && Holds(m', s.cs, e, val)
    requires TornAt(m', s.cs, s.free, e, k)
    ensures Torn(Attach(s, m', e, val))
  {
    hide TornAt, Holds, Has, InSync, Synced;
    OthersSynced(s, m', e, val);
    var s' := Attach(s, m', e, val);
    assert s'.es[0] == e && s'.es[1..] == s.es;
  }

  lemma HandRoom(m0: Mem, m: Mem, cs: nat, key: Key, was: seq<nat>, chunks: seq<nat>)
    requires Hand(m0, m, cs, key, was, chunks)
    ensures 8 + |key| <= Times(cs - 4, |chunks|)
  {
    hide Payload, Times;
  }

  /** Writing to the chunks in hand leaves the chains of the entries as they are. */
  lemma OthersSynced(s: Snap, m': Mem, e: Item, val: Val)
    requires s.open == multiset(e.value.chunks) && !Has(s.es, e.key) && InSync(s)
    requires MemOk(m', s.cs) && SameBut(s.m, m', Elems(e.value.chunks)) && Holds(m', s.cs, e, val)
    ensures Synced(m', s.cs, s.es)
  {
    assert Unfold(0);
    StoredStep(s.m, m', s.cs, s.n, s.es, s.free, s.whole, e, val);
    EntriesFrame(s.m, m', s.cs, s.es, Elems(e.value.chunks)) by {
      forall c | c in Elems(e.value.chunks) ensures c !in Owned(s.es) {
        PartitionApart(s.n, s.free, s.open, Owned(s.es), s.whole, c);
      }
    }
  }

  /** The snapshot after the value has been written. */
  ghost function Reindex(s: Snap, m0: Mem, m': Mem, key: Key, val: Val, was: seq<nat>, chunks: seq<nat>, idx: nat): (s': Snap)
    requires s.open == multiset(chunks) && !Has(s.es, key) && chunks != [] && was != []
    requires Hand(m0, s.m, s.cs, key, was, chunks) && idx <= |was| && idx <= |chunks| && CutOff(s.free, was, |chunks|)
    requires Times(s.cs - 4, idx) <= 8 + |key| <= Times(s.cs - 4, |was|)
    requires MemOk(m0, s.cs) && InRange(m0, was) && NoDup(was) && forall j :: 0 <= j < |was| ==> Next(m0, was[j]) != 0
    requires 8 + |key| + |val| < TWO32 && Fits(s.cs - 4, |chunks|, 8 + |key| + |val|)
    requires Tidy(s.cs, Entry(key, Node(was, 0, 0)), Words(m0, was))
    requires Progress(Put(s.m, chunks[0], 8, Le32(|val|)), m', s.cs, chunks, Elems(chunks[idx..]), idx, |chunks|,
                      Body(key, val))
    ensures s' == s.(m := m', es := [Entry(key, Node(chunks, |key|, |val|))] + s.es, open := multiset{})
    ensures Seen(s') == [Entry(key, val)] + Seen(s) && |s.es| < s.n
    ensures Rejoined(s, s', key) && (Linked(m0, s.cs, was) ==> (key in TornKeys(s') <==> !(idx == |was| <==> idx == |chunks|)))
    ensures Rewritten(Words(m0, was), was, Words(m', chunks), chunks, idx)
    ensures Linked(m0, s.cs, was) && InSync(s) ==> Settles(s', idx == |was| <==> idx == |chunks|)
  {
    ReindexFacts(s, m0, m', key, val, was, chunks, idx);
    Attach(s, m', Entry(key, Node(chunks, |key|, |val|)), val)
  }

  lemma LeakPartition(n: nat, free: seq<nat>, mine: multiset<nat>, extra: multiset<nat>, rest: multiset<nat>)
    requires Partition(n, free, mine + extra, rest, false)
    ensures Partition(n, free, multiset{}, mine + rest, false)
    ensures forall c :: c in extra ==> c !in mine && c !in rest
  {
    forall c | c in extra ensures c !in mine && c !in rest {
      PartitionApart(n, free, mine + extra, rest, false, c);
    }
  }

  /** Without eviction, an entry can go back into the index and the chunks taken for it are lost. */
  lemma LeakStep(m: Mem, cs: nat, n: nat, es: seq<Item>, free: seq<nat>, extra: multiset<nat>, e: Item)
    requires Core(m, cs, n, es, free, multiset(e.value.chunks) + extra, false)
    requires NodeOk(m, cs, e) && !Has(es, e.key)
    requires forall c :: c in e.value.chunks ==> Next(m, c) != 0
    requires forall c :: c in extra ==> 1 <= c < |m| && Next(m, c) == 0
    ensures Core(m, cs, n, [e] + es, free, multiset{}, false)
  {
    OwnedFront(e, es);
    DistinctPush(e, es);
    ViewPush(m, cs, es, e);
    LeakPartition(n, free, multiset(e.value.chunks), extra, Owned(es));
  }

  /** What the chain in hand says about the entry it came from. */
  lemma HandEntry(m0: Mem, m: Mem, cs: nat, e: Item, chunks: seq<nat>)
    requires NodeOk(m0, cs, e) && (forall c :: c in e.value.chunks ==> Next(m0, c) != 0)
    requires Hand(m0, m, cs, e.key, e.value.chunks, chunks) && |e.value.chunks| <= |chunks|
    ensures NodeOk(m, cs, e) && ValOf(m, cs, e) == ValOf(m0, cs, e)
    ensures Linked(m, cs, e.value.chunks) <==> Linked(m0, cs, e.value.chunks)
    ensures Words(m, e.value.chunks) == Words(m0, e.value.chunks)
    ensures forall c :: c in e.value.chunks ==> 1 <= c < |m| && Next(m, c) != 0
    ensures multiset(chunks) == multiset(e.value.chunks) + multiset(chunks[|e.value.chunks|..])
    ensures forall c :: c in multiset(chunks[|e.value.chunks|..]) ==> 1 <= c < |m| && Next(m, c) == 0
  {
    var was := e.value.chunks;
    forall c | c in was ensures m[c] == m0[c] {
      var j :| 0 <= j < |was| && was[j] == c;
      assert chunks[j] == was[j];
    }
    EntryFrame(m0, m, cs, e);
    assert chunks == was + chunks[|was|..];
    forall c | c in chunks[|was|..] ensures 1 <= c < |m| && Next(m, c) == 0 {
      var j :| 0 <= j < |chunks[|was|..]| && chunks[|was|..][j] == c;
      assert chunks[|was| + j] == c;
    }
  }

  lemma LeakOk(s: Snap, m0: Mem, e: Item, chunks: seq<nat>)
    requires !s.whole && s.open == multiset(chunks) && !Has(s.es, e.key)
    requires NodeOk(m0, s.cs, e) && (forall c :: c in e.value.chunks ==> Next(m0, c) != 0)
    requires Hand(m0, s.m, s.cs, e.key, e.value.chunks, chunks) && |e.value.chunks| <= |chunks|
    ensures SnapOk(s.(es := [e] + s.es, open := multiset{}))
  {
    assert Unfold(0);
    HandEntry(m0, s.m, s.cs, e, chunks);
    LeakStep(s.m, s.cs, s.n, s.es, s.free, multiset(chunks[|e.value.chunks|..]), e);
  }

  lemma LeakSeen(s: Snap, s': Snap, m0: Mem, e: Item, chunks: seq<nat>)
    requires s' == s.(es := [e] + s.es, open := multiset{})
    requires NodeOk(m0, s.cs, e) && (forall c :: c in e.value.chunks ==> Next(m0, c) != 0)
    requires Hand(m0, s.m, s.cs, e.key, e.value.chunks, chunks) && |e.value.chunks| <= |chunks|
    ensures Seen(s') == [Entry(e.key, ValOf(m0, s.cs, e))] + Seen(s)
    ensures InSync(s') <==> InSync(s) && Linked(m0, s.cs, e.value.chunks)
    ensures TornKeys(s') == TornKeys(s) + if Linked(m0, s.cs, e.value.chunks) then {} else {e.key}
    ensures Chains(s') == Chains(s) + {(e, Words(m0, e.value.chunks))}
  {
    assert Unfold(0);
    HandEntry(m0, s.m, s.cs, e, chunks);
    ViewPush(s.m, s.cs, s.es, e);
    TornOne(s.m, s.cs, e);
  }

  /** The snapshot after an update that failed for want of chunks: the old entry is back, what was taken is lost. */
  ghost function Leak(s: Snap, m0: Mem, e: Item, chunks: seq<nat>): (s': Snap)
    requires !s.whole && s.open == multiset(chunks) && !Has(s.es, e.key)
    requires NodeOk(m0, s.cs, e) && (forall c :: c in e.value.chunks ==> Next(m0, c) != 0)
    requires Hand(m0, s.m, s.cs, e.key, e.value.chunks, chunks) && |e.value.chunks| <= |chunks|
    ensures s' == s.(es := [e] + s.es, open := multiset{})
    ensures Seen(s') == [Entry(e.key, ValOf(m0, s.cs, e))] + Seen(s)
    ensures InSync(s') <==> InSync(s) && Linked(m0, s.cs, e.value.chunks)
    ensures TornKeys(s') == TornKeys(s) + if Linked(m0, s.cs, e.value.chunks) then {} else {e.key}
    ensures Chains(s') == Chains(s) + {(e, Words(m0, e.value.chunks))}
  {
    LeakOk(s, m0, e, chunks);
    LeakSeen(s, s.(es := [e] + s.es, open := multiset{}), m0, e, chunks);
    s.(es := [e] + s.es, open := multiset{})
  }

  lemma NodeHoldsKey(m: Mem, cs: nat, e: Item)
    requires NodeOk(m, cs, e)
    ensures HoldsKey(m, cs, e.value.chunks, e.key)
  {
    var p, b := Payload(m, cs, e.value.chunks), Body(e.key, ValOf(m, cs, e));
    assert p[..4] == b[..4] == Le32(|e.key|);
    assert p[8..8 + |e.key|] == b[8..8 + |e.key|] == e.key;
  }

  lemma EntryLinks(s: Snap, i: nat)
    requires i < |s.es|
    ensures NodeOk(s.m, s.cs, s.es[i])
    ensures forall c :: c in s.es[i].value.chunks ==> Next(s.m, c) != 0
    ensures InSync(s) ==> Linked(s.m, s.cs, s.es[i].value.chunks)
  {
    assert Unfold(0);
    OwnedMember(s.es, i);
    var chunks := s.es[i].value.chunks;
    forall c | c in chunks ensures Next(s.m, c) != 0 {
      assert c in multiset(chunks);
      PartitionApart(s.n, s.free, s.open, Owned(s.es), s.whole, c);
    }
  }

  /** Detaching entry `i` puts its chain in hand. */
  lemma HandStart(s: Snap, i: nat)
    requires i < |s.es|
    ensures var e := s.es[i];
            && NodeOk(s.m, s.cs, e) && (forall c :: c in e.value.chunks ==> Next(s.m, c) != 0)
            && Hand(s.m, s.m, s.cs, e.key, e.value.chunks, e.value.chunks)
            && (InSync(s) ==> Linked(s.m, s.cs, e.value.chunks))
  {
    EntryLinks(s, i);
    NodeHoldsKey(s.m, s.cs, s.es[i]);
  }

  /** Chunks of the free list are marked free. */
  lemma FirstFree(s: Snap, chunks: seq<nat>)
    requires s.free != [] && s.open == multiset(chunks)
    ensures 1 <= s.free[0] < |s.m| && |s.m[s.free[0]]| >= 4 && Next(s.m, s.free[0]) == 0
    ensures NoDup(chunks + [s.free[0]])
  {
    assert Unfold(0);
    TakeStep(s.m, s.cs, s.n, s.es, s.free, s.open, s.whole);
    assert multiset(chunks + [s.free[0]]) == s.open + multiset{s.free[0]};
    BagNoDup(s.m, s.n, s.free[1..], chunks + [s.free[0]], Owned(s.es), s.whole);
  }

  /** The last chunk of a chain in hand is in hand, and not among the others. */
  lemma CutFacts(s: Snap, chunks: seq<nat>, k: nat)
    requires s.open == multiset(chunks) && |chunks| == k + 1
    ensures chunks[k] in s.open
    ensures Free(s, chunks[k]).open == multiset(chunks[..k])
    ensures MemOk(Free(s, chunks[k]).m, s.cs) && |Free(s, chunks[k]).m| == |s.m|
    ensures forall c :: c in chunks[..k] ==> 0 <= c < |s.m| && Free(s, chunks[k]).m[c] == s.m[c]
  {
    assert chunks == chunks[..k] + [chunks[k]];
    OpenFacts(s, chunks);
    SnapFacts(s);
    SnapFacts(Free(s, chunks[k]));
  }

  /** Freeing the last chunk leaves the shorter chain in hand. */
  lemma CutHand(s: Snap, m0: Mem, key: Key, was: seq<nat>, chunks: seq<nat>, k: nat)
    requires s.open == multiset(chunks) && |chunks| == k + 1 && Hand(m0, s.m, s.cs, key, was, chunks)
    requires 8 + |key| <= Times(s.cs - 4, k)
    ensures chunks[k] in s.open
    ensures Free(s, chunks[k]).open == multiset(chunks[..k])
    ensures Hand(m0, Free(s, chunks[k]).m, s.cs, key, was, chunks[..k])
  {
    CutFacts(s, chunks, k);
    HandCutFrame(m0, s.m, Free(s, chunks[k]).m, s.cs, key, was, chunks, k);
  }

  /** An eviction leaves the chain in hand alone. */
  lemma EvictedHand(a: Snap, b: Snap, m0: Mem, key: Key, was: seq<nat>, chunks: seq<nat>)
    requires a.open == multiset(chunks) && Hand(m0, a.m, a.cs, key, was, chunks)
    requires EvictedOne(a, b)
    ensures b.open == multiset(chunks) && Hand(m0, b.m, a.cs, key, was, chunks)
  {
    SnapFacts(b);
    forall c | c in chunks ensures b.m[c] == a.m[c] {
      assert c in multiset(chunks);
    }
    HandFrame(m0, a.m, b.m, a.cs, key, was, chunks);
  }

  lemma {:induction false} InsertHas(s: seq<nat>, c: nat, x: nat)
    ensures x in Insert(s, c) <==> x in s || x == c
  {
    InsertBag(s, c);
    assert x in Insert(s, c) <==> x in multiset(Insert(s, c));
    assert x in s <==> x in multiset(s);
  }

  /** Cutting one more chunk off the chain. */
  lemma CutOffMore(s: Snap, m0: Mem, key: Key, was: seq<nat>, chunks: seq<nat>, k: nat)
    requires |chunks| == k + 1 && Hand(m0, s.m, s.cs, key, was, chunks) && CutOff(s.free, was, |chunks|)
    ensures CutOff(Insert(s.free, chunks[k]), was, k)
  {
    hide HoldsKey, FreshTail;
    forall j | k <= j < |was| ensures was[j] in Insert(s.free, chunks[k]) { InsertHas(s.free, chunks[k], was[j]); }
  }

  /** A torn entry is not in agreement. */
  lemma TornNotSynced(s: Snap)
    requires Torn(s)
    ensures !InSync(s)
  {
    var k :| TornAt(s.m, s.cs, s.free, s.es[0], k);
    TornUnlinked(s, k);
  }

  lemma TornUnlinked(s: Snap, k: nat)
    requires s.es != [] && TornAt(s.m, s.cs, s.free, s.es[0], k)
    ensures !Linked(s.m, s.cs, s.es[0].value.chunks)
  {
    var chunks := s.es[0].value.chunks;
    assert NoDup(chunks) by { EntryFacts(s, 0, s.cs); }
    if Linked(s.m, s.cs, chunks) {
      LinkIs(s.m, s.cs, chunks, k - 1);
      if k == |chunks| { FreeApart(s, chunks[k - 1]); }
    }
  }

  /** A chunk of an entry is not free. */
  lemma FreeApart(s: Snap, c: nat)
    requires s.es != [] && c in s.es[0].value.chunks
    ensures c !in s.free
  {
    assert Unfold(0);
    OwnedMember(s.es, 0);
    assert c in multiset(s.es[0].value.chunks);
    PartitionApart(s.n, s.free, s.open, Owned(s.es), s.whole, c);
  }

  lemma SettlesIff(s: Snap, agree: bool)
    requires Settles(s, agree)
    ensures InSync(s) <==> agree
  {
    hide InSync, Torn;
    if !agree { TornNotSynced(s); }
  }

  // ---- what an update does to a torn chain

  lemma TimesInjective(w: nat, i: nat, j: nat, r: nat)
    requires Times(w, i) == Times(w, j) + r && r < w
    ensures i == j && r == 0
  {
    if i < j { TimesMono(w, i, j); }
    if j < i { TimesMono(w, j + 1, i); }
  }

  /** The word of the chunk in front of the value tells whether the chain is torn, and whether it has grown. */
  lemma HealthByWord(s: Snap, i: nat, idx: nat, start: nat)
    requires i < |s.es| && s.cs >= 32 && 4 <= start < s.cs && 8 + |s.es[i].key| == Times(s.cs - 4, idx) + start - 4
    requires idx <= |s.es[i].value.chunks|
    ensures var e := s.es[i];
            var c, w := e.value.chunks, Words(s.m, e.value.chunks);
            && (e.key in TornKeys(s) <==> start == 4 && idx >= 1 && w[idx - 1] != LinkOf(c, idx - 1))
            && (e.key in GrownKeys(s) <==> start == 4 && 1 <= idx < |c| && w[idx - 1] == c[idx - 1])
  {
    hide Times, Words, TornKeys, GrownKeys, GrownBy, Linked, LinkOf;
    var e := s.es[i];
    var c, w := e.value.chunks, Words(s.m, e.value.chunks);
    assert Shaped(s.m, s.cs, e) && RightBut(s.cs, e, w) by {
      EntryFacts(s, i, s.cs);
      assert Peek(0);
    }
    TornSplit(s, i);
    LinkedIs(s.m, s.cs, c);
    GrownSplit(s, i);
    forall j | 0 <= j < |c| && w[j] != LinkOf(c, j) ensures j + 1 == idx && start == 4 {
      TimesInjective(s.cs - 4, j + 1, idx, start - 4);
    }
    GrownIs(s.cs, e, w, idx, start);
  }

  lemma GrownIs(cs: nat, e: Item, w: seq<nat>, idx: nat, start: nat)
    requires cs >= 32 && 4 <= start < cs && 8 + |e.key| == Times(cs - 4, idx) + start - 4 && |w| == |e.value.chunks|
    ensures GrownBy(cs, e, w) <==> start == 4 && 1 <= idx < |w| && w[idx - 1] == e.value.chunks[idx - 1]
  {
    hide Times;
    if GrownBy(cs, e, w) {
      var j :| 0 <= j < |w| - 1 && w[j] == e.value.chunks[j] && 8 + |e.key| == Times(cs - 4, j + 1);
      TimesInjective(cs - 4, j + 1, idx, start - 4);
    }
    if start == 4 && 1 <= idx < |w| && w[idx - 1] == e.value.chunks[idx - 1] {
      var j := idx - 1;
      assert 0 <= j < |w| - 1 && w[j] == e.value.chunks[j] && 8 + |e.key| == Times(cs - 4, j + 1);
    }
  }

  lemma GrownSplit(s: Snap, i: nat)
    requires i < |s.es|
    ensures s.es[i].key in GrownKeys(s) <==> GrownBy(s.cs, s.es[i], Words(s.m, s.es[i].value.chunks))
  {
    hide Words, GrownBy;
    assert Distinct(s.es) by { assert Unfold(0); }
    ChainIn(s, i);
    forall p | p in Chains(s) && p.0.key == s.es[i].key ensures p == (s.es[i], Words(s.m, s.es[i].value.chunks)) {
      var j :| 0 <= j < |s.es| && s.es[j] == p.0;
    }
  }

  /** `Goes` in terms of where the value begins: right behind the old chain, or right behind the new one. */
  predicate GoesBy(h: Health, behindOld: bool, behindNew: bool, h': Health)
  {
    match h
    case Linking => h' == if behindOld == behindNew then Linking else if behindNew then Dangling else Grown
    case Grown => h' == if behindNew then Linking else Grown
    case Dangling => h' == Dangling || (h' == Linking && !behindNew)
  }

  /** What an update does to the chain of its key. */
  lemma HealthGoes(a: Snap, i: nat, s: Snap, key: Key, idx: nat, start: nat, c: nat)
    requires i < |a.es| && a.es[i].key == key && a.cs == s.cs >= 32 && 4 <= start < a.cs
    requires 8 + |key| == Times(a.cs - 4, idx) + start - 4
    requires Updated(Words(a.m, a.es[i].value.chunks), a.es[i].value.chunks, s, key, c, idx)
    requires NoDup(a.es[i].value.chunks) && NoDup(s.es[0].value.chunks) && a.es[i].value.chunks != [] && c > 0
    requires idx == |a.es[i].value.chunks| ==> start == 4
    requires idx == c ==> start == 4
    ensures GoesBy(HealthOf(a, key), idx == |a.es[i].value.chunks|, idx == c, HealthOf(s, key))
  {
    hide Times, Words, TornKeys, GrownKeys;
    HealthByWord(a, i, idx, start);
    HealthByWord(s, 0, idx, start);
  }

  /** An entry whose chain is as it was is as healthy as it was. */
  lemma SameHealth(a: Snap, i: nat, s: Snap)
    requires i < |a.es| && a.cs == s.cs && (a.es[i], Words(a.m, a.es[i].value.chunks)) in Chains(s)
    requires a.es[i].key in TornKeys(s) <==> a.es[i].key in TornKeys(a)
    ensures HealthOf(s, a.es[i].key) == HealthOf(a, a.es[i].key)
  {
    hide Words, GrownBy, GrownKeys, TornKeys;
    GrownSplit(a, i);
    var j := PlaceOfPair(s, (a.es[i], Words(a.m, a.es[i].value.chunks)));
    GrownSplit(s, j);
  }

  lemma PlaceOfPair(s: Snap, p: (Item, seq<nat>)) returns (j: nat)
    requires p in Chains(s)
    ensures j < |s.es| && s.es[j] == p.0 && Words(s.m, s.es[j].value.chunks) == p.1
  {
    hide Words;
    j :| 0 <= j < |s.es| && s.es[j] == p.0;
  }

  lemma {:induction false} TimesWhole(w: nat, k: nat)
    requires w > 0
    ensures WholeChunks(w, Times(w, k))
  {
    if k > 0 { TimesWhole(w, k - 1); }
  }

  /** Only a key that fills its chunks can be torn. */
  lemma TornFills(s: Snap, i: nat)
    requires i < |s.es| && s.cs >= 32 && s.es[i].key in TornKeys(s)
    ensures WholeChunks(s.cs - 4, 8 + |s.es[i].key|)
  {
    hide Times, Words, TornKeys, Linked, WholeChunks;
    var e := s.es[i];
    var c, w := e.value.chunks, Words(s.m, e.value.chunks);
    assert Shaped(s.m, s.cs, e) && RightBut(s.cs, e, w) by {
      EntryFacts(s, i, s.cs);
      assert Peek(0);
    }
    TornSplit(s, i);
    LinkedIs(s.m, s.cs, c);
    var j :| 0 <= j < |c| && w[j] != LinkOf(c, j);
    TimesWhole(s.cs - 4, j + 1);
  }

  /** `GoesBy` in the user's terms. */
  lemma GoesIs(a: Snap, i: nat, b: Model, key: Key, val: Val, c: nat, h': Health)
    requires i < |a.es| && a.es[i].key == key && b.w == a.cs - 4 && a.cs >= 32 && Has(b.entries, key)
    requires Fits(b.w, |a.es[i].value.chunks|, 8 + |key| + |Lookup(b.entries, key)|) && Fits(b.w, c, 8 + |key| + |val|)
    requires GoesBy(HealthOf(a, key), 8 + |key| == Times(b.w, |a.es[i].value.chunks|), 8 + |key| == Times(b.w, c), h')
    ensures Goes(HealthOf(a, key), Stale(b, key, val), val, h')
  {
    hide Times, TornKeys, GrownKeys, Fits, WholeChunks;
    FullIffEmpty(b.w, key, Lookup(b.entries, key), |a.es[i].value.chunks|);
    FullIffEmpty(b.w, key, val, c);
    if key in TornKeys(a) { TornFills(a, i); }
  }
}
