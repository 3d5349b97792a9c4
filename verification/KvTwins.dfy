/**
 A torn image may still be read as the buffer's own map. Two buffers can stand on the same bytes and hold the same
 entries in different chunks, one following its links and one not; a reload finds the one that follows them. So
 torn entries alone do not decide what a reload finds.
 */
module KvTwins {
  import opened Bytes
  import opened KvArena
  import opened KvNode
  import opened KvWrite
  import opened KvLru
  import opened KvSpec
  import opened KvState
  import opened KvSnap
  import opened KvReload
  import opened KvOpen
  import opened KvStart
  import opened KvStale
  import opened KvBuffer
  import KvLife

  // ---- any reading of the bytes that follows the links

  /** `twin` is a settled buffer over the bytes of `s` whose chains follow their links. */
  ghost predicate Twin(s: Snap, twin: Snap)
  {
    twin.cfg == s.cfg && twin.m == s.m && twin.open == multiset{} && InSync(twin)
  }

  /** A restart over the bytes of a buffer gives the map of every such reading of them. */
  method RestartTwin(buf: KVBuffer, ghost twin: Snap, extra: seq<byte>, openLru: bool, onLruDel: bool) returns (r: OpenResult)
    requires Resting(buf) && Twin(buf.s, twin) && buf.data.Length + |extra| < TWO32
    ensures r.Opened? && r.buf.Valid() && Reopened(r.buf, twin) && AsMap(r.buf.Abstract().entries) == AsMap(Seen(twin))
  {
    hide MemOf, Blocks, Whole, HeaderOf, InSync, Seen, AsMap, FreeList, Total;
    var data := KvLife.Remap(buf, extra);
    RestingImage(buf, data[..]);
    SettledTells(twin);
    RestingSaved(buf, twin, data[..]);
    r := Open(data, buf.cs, openLru, onLruDel, Some(twin));
  }

  // ---- a torn buffer with a twin

  /** Keys and value whose sizes fill chunks of `w` bytes: `b` alone, and `a` with `v`. */
  predicate FillChunks(w: nat, a: Key, v: Val, b: Key)
  {
    28 <= w && 2 * w < TWO32 && 8 + |b| == w && 8 + |a| + |v| == w && a != b
  }

  /** Further chunks, all marked free. */
  predicate Unused(w: nat, more: Mem)
  {
    4 + |more| < TWO32 && forall i :: 0 <= i < |more| ==> |more[i]| == w + 4 && more[i][..4] == Le32(0)
  }

  /** Chunk 1 begins the node of `b` and links to chunk 2; chunks 2 and 3 are ends and hold the node of `a`. */
  function TwinImage(header: seq<byte>, w: nat, a: Key, v: Val, b: Key, more: Mem): Mem
  {
    [header, Le32(2) + (Le32(|b|) + Le32(w) + b), Le32(2) + Body(a, v), Le32(3) + Body(a, v)] + more
  }

  /** `b` with the bytes of the node of `a` as its value on chunks 1 and `p`, and `a` on chunk `q`. */
  function TwinEntries(w: nat, a: Key, v: Val, b: Key, p: nat, q: nat): seq<Item>
  {
    [Entry(b, Node([1, p], |b|, w)), Entry(a, Node([q], |a|, |v|))]
  }

  lemma TwinMem(header: seq<byte>, w: nat, a: Key, v: Val, b: Key, more: Mem, m: Mem)
    requires FillChunks(w, a, v, b) && |header| == HEADER && Unused(w, more) && m == TwinImage(header, w, a, v, b, more)
    ensures MemOk(m, w + 4) && |m| == 4 + |more| && Next(m, 1) == 2 && Next(m, 2) == 2 && Next(m, 3) == 3
    ensures |m| < TWO32 && m[0] == header && forall c :: 4 <= c < |m| ==> Next(m, c) == 0
    ensures m[1][4..] == Le32(|b|) + Le32(w) + b && m[2][4..] == Body(a, v) && m[3][4..] == Body(a, v)
  {
    assert m[1][..4] == Le32(2) && m[2][..4] == Le32(2) && m[3][..4] == Le32(3);
    U32OfLe32(2);
    U32OfLe32(3);
    U32OfLe32(0);
    assert forall c :: 4 <= c < |m| ==> m[c] == more[c - 4];
  }

  lemma TwinPayload(header: seq<byte>, w: nat, a: Key, v: Val, b: Key, more: Mem, m: Mem, p: nat, q: nat)
    requires FillChunks(w, a, v, b) && |header| == HEADER && Unused(w, more) && m == TwinImage(header, w, a, v, b, more) && 2 <= p <= 3 && 2 <= q <= 3
    ensures MemOk(m, w + 4) && |m| == 4 + |more|
    ensures Payload(m, w + 4, [1, p]) == Body(b, Body(a, v)) && Payload(m, w + 4, [q]) == Body(a, v)
  {
    hide Payload, TwinImage, Le32;
    TwinMem(header, w, a, v, b, more, m);
    PayloadOne(m, w + 4, q);
    PayloadTwo(m, w + 4, 1, p);
    assert Body(b, Body(a, v)) == Le32(|b|) + Le32(w) + b + Body(a, v);
  }

  lemma PayloadOne(m: Mem, cs: nat, c: nat)
    requires MemOk(m, cs) && 1 <= c < |m|
    ensures Payload(m, cs, [c]) == m[c][4..]
  {
    assert [c][..0] == [];
    assert [] + m[c][4..] == m[c][4..];
  }

  lemma PayloadTwo(m: Mem, cs: nat, c: nat, d: nat)
    requires MemOk(m, cs) && 1 <= c < |m| && 1 <= d < |m|
    ensures Payload(m, cs, [c, d]) == m[c][4..] + m[d][4..]
  {
    assert [c, d][..1] == [c];
    PayloadOne(m, cs, c);
  }

  lemma TwinNodes(header: seq<byte>, w: nat, a: Key, v: Val, b: Key, more: Mem, m: Mem, p: nat, q: nat, es: seq<Item>)
    requires FillChunks(w, a, v, b) && |header| == HEADER && Unused(w, more) && m == TwinImage(header, w, a, v, b, more)
    requires 2 <= p <= 3 && 2 <= q <= 3 && p != q && es == TwinEntries(w, a, v, b, p, q)
    ensures MemOk(m, w + 4) && NodesOk(m, w + 4, es) && View(m, w + 4, es) == [Entry(b, Body(a, v)), Entry(a, v)]
    ensures Synced(m, w + 4, es) <==> p == 2
  {
    hide Payload, Body, TwinImage, Unused;
    TwinMem(header, w, a, v, b, more, m);
    TwinPayload(header, w, a, v, b, more, m, p, q);
    assert Times(w, 1) == w && Times(w, 2) == 2 * w;
    BodyEnds(b, Body(a, v));
    BodyEnds(a, v);
    assert ValOf(m, w + 4, es[0]) == Body(a, v);
    assert ValOf(m, w + 4, es[1]) == v;
    assert View(m, w + 4, es) == [Entry(b, Body(a, v)), Entry(a, v)];
    TwinLinks(m, w, a, v, b, p, q, es);
  }

  /** The entry of `b` follows its links if and only if its second chunk is 2. */
  lemma TwinLinks(m: Mem, w: nat, a: Key, v: Val, b: Key, p: nat, q: nat, es: seq<Item>)
    requires FillChunks(w, a, v, b) && MemOk(m, w + 4) && |m| >= 4 && Next(m, 1) == 2 && Next(m, 2) == 2 && Next(m, 3) == 3
    requires 2 <= p <= 3 && 2 <= q <= 3 && es == TwinEntries(w, a, v, b, p, q) && NodesOk(m, w + 4, es)
    ensures Synced(m, w + 4, es) <==> p == 2
  {
    hide NodesOk, FillChunks, Next;
    assert Linked(m, w + 4, [q]);
    if p == 2 { assert Linked(m, w + 4, [1, 2]); } else { assert Next(m, [1, p][0]) != LinkOf([1, p], 0); }
    assert Synced(m, w + 4, es) <==> Linked(m, w + 4, es[0].value.chunks) && Linked(m, w + 4, es[1].value.chunks);
  }

  lemma BodyEnds(key: Key, val: Val)
    ensures Body(key, val)[8 + |key|..8 + |key| + |val|] == val
  {
  }

  lemma TwinOk(header: seq<byte>, w: nat, a: Key, v: Val, b: Key, more: Mem, m: Mem, p: nat, q: nat, es: seq<Item>, whole: bool)
    requires FillChunks(w, a, v, b) && |header| == HEADER && Unused(w, more) && m == TwinImage(header, w, a, v, b, more)
    requires 2 <= p <= 3 && 2 <= q <= 3 && p != q && es == TwinEntries(w, a, v, b, p, q)
    ensures SnapOk(Snap(Config(w + 4, 3 + |more|, whole, header), m, es, Upto(3, 3 + |more|), multiset{}))
  {
    hide NodesOk, Body, Payload, TwinImage, TwinEntries, All, Owned, Upto, Partition, ZeroWhenUnowned, Unused, FillChunks;
    TwinNodes(header, w, a, v, b, more, m, p, q, es);
    TwinMem(header, w, a, v, b, more, m);
    TwinOwned(w, a, v, b, p, q, es);
    TwinDistinct(w, a, v, b, p, q, es);
    TwinPartition(3 + |more|, Owned(es), whole);
    TwinZero(m, w + 4, Owned(es));
  }

  lemma TwinPartition(n: nat, owned: multiset<nat>, whole: bool)
    requires 3 <= n && owned == All(3)
    ensures Partition(n, Upto(3, n), multiset{}, owned, whole) && Ascending(Upto(3, n))
  {
    hide All;
    AllUpto(3, n);
    assert multiset(Upto(3, n)) + multiset{} + owned == All(3) + multiset(Upto(3, n));
  }

  lemma TwinZero(m: Mem, cs: nat, owned: multiset<nat>)
    requires MemOk(m, cs) && 4 <= |m| && Next(m, 1) != 0 && Next(m, 2) != 0 && Next(m, 3) != 0 && owned == All(3)
    requires forall c :: 4 <= c < |m| ==> Next(m, c) == 0
    ensures ZeroWhenUnowned(m, cs, multiset{}, owned)
  {
    hide Next;
  }

  lemma TwinDistinct(w: nat, a: Key, v: Val, b: Key, p: nat, q: nat, es: seq<Item>)
    requires FillChunks(w, a, v, b) && es == TwinEntries(w, a, v, b, p, q)
    ensures Distinct(es)
  {
  }

  lemma OwnedNone()
    ensures Owned([]) == multiset{}
  {
  }

  lemma TwinOwned(w: nat, a: Key, v: Val, b: Key, p: nat, q: nat, es: seq<Item>)
    requires 2 <= p <= 3 && 2 <= q <= 3 && p != q && es == TwinEntries(w, a, v, b, p, q)
    ensures Owned(es) == All(3)
  {
    hide Owned, All;
    OwnedSnoc([], es[0]);
    OwnedSnoc([es[0]], es[1]);
    OwnedNone();
    assert [] + [es[0]] == [es[0]] && [es[0]] + [es[1]] == es;
    assert Owned(es) == multiset{1, p, q};
    assert multiset{1, p, q} == All(3);
  }

  /** The buffer with those entries over that image. */
  ghost function TwinSnap(header: seq<byte>, w: nat, a: Key, v: Val, b: Key, more: Mem, p: nat, q: nat, whole: bool): (s: Snap)
    requires FillChunks(w, a, v, b) && |header| == HEADER && Unused(w, more) && 2 <= p <= 3 && 2 <= q <= 3 && p != q
    ensures s == Snap(Config(w + 4, 3 + |more|, whole, header), TwinImage(header, w, a, v, b, more),
                      TwinEntries(w, a, v, b, p, q), Upto(3, 3 + |more|), multiset{})
  {
    hide TwinImage, TwinEntries, FillChunks, Unused, Upto;
    TwinOk(header, w, a, v, b, more, TwinImage(header, w, a, v, b, more), p, q, TwinEntries(w, a, v, b, p, q), whole);
    Snap(Config(w + 4, 3 + |more|, whole, header), TwinImage(header, w, a, v, b, more), TwinEntries(w, a, v, b, p, q),
         Upto(3, 3 + |more|), multiset{})
  }

  lemma TwinSeen(header: seq<byte>, w: nat, a: Key, v: Val, b: Key, more: Mem, p: nat, q: nat, whole: bool, s: Snap)
    requires FillChunks(w, a, v, b) && |header| == HEADER && Unused(w, more) && 2 <= p <= 3 && 2 <= q <= 3 && p != q
    requires s == TwinSnap(header, w, a, v, b, more, p, q, whole)
    ensures Seen(s) == [Entry(b, Body(a, v)), Entry(a, v)] && (InSync(s) <==> p == 2)
  {
    hide Body, Payload, NodesOk, TwinImage, TwinEntries, Synced, View, FillChunks, Unused, Upto;
    TwinNodes(header, w, a, v, b, more, s.m, p, q, s.es);
  }

  /**
   For all such keys and values and any number of further chunks: a settled state whose newest entry does not follow its
   links, and a twin that does, with the same keys and values. By `RestartTwin` a restart over such a torn image gives
   the map that was stored.
   */
  lemma TornWithTwin(header: seq<byte>, w: nat, a: Key, v: Val, b: Key, more: Mem, whole: bool) returns (s: Snap, twin: Snap)
    requires FillChunks(w, a, v, b) && |header| == HEADER && Unused(w, more)
    ensures s.open == multiset{} && !InSync(s) && Twin(s, twin)
    ensures Seen(s) == Seen(twin) == [Entry(b, Body(a, v)), Entry(a, v)]
    ensures twin.cfg == Config(w + 4, 3 + |more|, whole, header) && twin.m == TwinImage(header, w, a, v, b, more)
  {
    hide Seen, InSync, FillChunks, Unused, TwinImage, TwinEntries, Upto, Body;
    s := TwinSnap(header, w, a, v, b, more, 3, 2, whole);
    twin := TwinSnap(header, w, a, v, b, more, 2, 3, whole);
    TwinSeen(header, w, a, v, b, more, 3, 2, whole, s);
    TwinSeen(header, w, a, v, b, more, 2, 3, whole, twin);
  }
}
