/**
 The buffer as its user sees it: entries from newest to oldest, and how many chunks are free.
 An entry of key `k` and value `v` takes the least number of chunks that holds `8 + |k| + |v|` bytes.
 */
module KvSpec {
  import opened Bytes
  import opened KvArena
  import opened KvLru
  import opened KvWrite

  type Val = seq<byte>
  type Pair = Entry<Val>

  /** Chunks needed for `len` bytes, `w` bytes to a chunk. */
  function ChunksFor(w: nat, len: nat): nat
    requires w > 0
    decreases len
  {
    if len == 0 then 0 else if len <= w then 1 else 1 + ChunksFor(w, len - w)
  }

  /** Whether `len` bytes fill whole chunks of `w` bytes. */
  predicate WholeChunks(w: nat, len: nat)
    requires w > 0
    decreases len
  {
    len == 0 || (w <= len && WholeChunks(w, len - w))
  }

  /** The program computes the count by division. */
  lemma {:induction false} ChunksForIsQuotient(w: nat, len: nat)
    requires w > 0
    ensures ChunksFor(w, len) == len / w + if len % w > 0 then 1 else 0
    ensures WholeChunks(w, len) <==> len % w == 0
    decreases len
  {
    if len < w {
      DivMod(w, len, 0, len);
    } else {
      ChunksForIsQuotient(w, len - w);
      assert len == (len - w) / w * w + (len - w) % w + w;
      DivMod(w, len, (len - w) / w + 1, (len - w) % w);
      if len == w { DivMod(w, 0, 0, 0); }
    }
  }

  /** Quotient and remainder are determined by the division equation. */
  lemma DivMod(w: nat, a: nat, q: nat, r: nat)
    requires w > 0 && a == q * w + r && r < w
    ensures a / w == q && a % w == r
  {
    var d := q - a / w;
    assert a == a / w * w + a % w;
    assert d * w == a % w - r by { assert d * w == q * w - a / w * w; }
    assert 0 - w < d * w < w;
  }

  function Cost(w: nat, e: Pair): nat
    requires w > 0
  {
    ChunksFor(w, 8 + |e.key| + |e.value|)
  }

  function Total(w: nat, es: seq<Pair>): nat
    requires w > 0
  {
    if es == [] then 0 else Total(w, es[..|es| - 1]) + Cost(w, es[|es| - 1])
  }

  /** The corner the readers cannot handle: the key fills its last chunk and the value is empty. */
  predicate Corner(w: nat, e: Pair)
    requires w > 0
  {
    WholeChunks(w, 8 + |e.key|) && e.value == []
  }

  datatype Model = Model(w: nat, n: nat, lru: bool, callback: bool, entries: seq<Pair>, free: nat)
  {
    /** Every chunk is free or paid for by an entry; without eviction chunks may have leaked. */
    ghost predicate Ok()
    {
      && w > 0 && Distinct(entries)
      && free + Total(w, entries) <= n
      && (lru ==> free + Total(w, entries) == n)
    }
  }

  datatype Eviction = Eviction(entries: seq<Pair>, free: nat, dropped: seq<Pair>, crash: bool)

  /** Drops oldest entries until `want` chunks are free. */
  function Evict(w: nat, callback: bool, es: seq<Pair>, free: nat, want: nat): Eviction
    requires w > 0
  {
    if free >= want || es == [] then Eviction(es, free, [], false)
    else
      var k := |es| - 1;
      if callback && Corner(w, es[k]) then Eviction(es[..k], free, [], true)
      else
        var r := Evict(w, callback, es[..k], free + Cost(w, es[k]), want);
        r.(dropped := [es[k]] + r.dropped)
  }

  /**
   Dropping `dropped` one after the other from `es0` and `free0`, each because fewer than `want` chunks
   were free, has left `es` and `free`.
   */
  predicate Underway(w: nat, callback: bool, es0: seq<Pair>, free0: nat, want: nat,
                     dropped: seq<Pair>, es: seq<Pair>, free: nat)
    requires w > 0
    decreases |dropped|
  {
    if dropped == [] then es == es0 && free == free0
    else
      var k := |dropped| - 1;
      && Cost(w, dropped[k]) <= free < Cost(w, dropped[k]) + want
      && !(callback && Corner(w, dropped[k]))
      && Underway(w, callback, es0, free0, want, dropped[..k], es + [dropped[k]], free - Cost(w, dropped[k]))
  }

  /** An eviction in the middle: begun with `es0` and `free0` for `want` chunks, come to `left` and `have`. */
  datatype RawTrack = Track(w: nat, callback: bool, es0: seq<Pair>, free0: nat, want: nat,
                          dropped: seq<Pair>, left: seq<Pair>, have: nat)

  type Track = t: RawTrack | t.w > 0 && Underway(t.w, t.callback, t.es0, t.free0, t.want, t.dropped, t.left, t.have)
    witness Track(1, false, [], 0, 0, [], [], 0)

  function Begin(w: nat, callback: bool, es: seq<Pair>, free: nat, want: nat): (t: Track)
    requires w > 0
  {
    Track(w, callback, es, free, want, [], es, free)
  }

  /** Drops one more. */
  function DropOne(t: Track, rest: seq<Pair>, last: Pair): (t': Track)
    requires t.left == rest + [last] && t.have < t.want && !(t.callback && Corner(t.w, last))
    ensures t' == t.(dropped := t.dropped + [last], left := rest, have := t.have + Cost(t.w, last))
  {
    assert (t.dropped + [last])[..|t.dropped|] == t.dropped;
    t.(dropped := t.dropped + [last], left := rest, have := t.have + Cost(t.w, last))
  }

  function Goal(t: RawTrack): Eviction
    requires t.w > 0
  {
    Evict(t.w, t.callback, t.es0, t.free0, t.want)
  }

  /** The same eviction at two points. */
  predicate SameGoal(t: Track, t': Track)
  {
    t'.w == t.w && t'.callback == t.callback && t'.es0 == t.es0 && t'.want == t.want && Goal(t') == Goal(t)
  }

  /** The rest of an eviction that is under way completes it. */
  lemma {:induction false} UnderwayGoes(w: nat, callback: bool, es0: seq<Pair>, free0: nat, want: nat,
                                        dropped: seq<Pair>, es: seq<Pair>, free: nat)
    requires w > 0 && Underway(w, callback, es0, free0, want, dropped, es, free)
    ensures var r := Evict(w, callback, es, free, want);
            Evict(w, callback, es0, free0, want) == r.(dropped := dropped + r.dropped)
    decreases |dropped|
  {
    var r := Evict(w, callback, es, free, want);
    if dropped == [] {
      assert [] + r.dropped == r.dropped;
    } else {
      var k := |dropped| - 1;
      var last := dropped[k];
      UnderwayGoes(w, callback, es0, free0, want, dropped[..k], es + [last], free - Cost(w, last));
      assert (es + [last])[..|es|] == es;
      assert dropped[..k] + ([last] + r.dropped) == dropped + r.dropped;
    }
  }

  /** Only oldest entries leave. */
  lemma {:induction false} UnderwayPrefix(w: nat, callback: bool, es0: seq<Pair>, free0: nat, want: nat,
                                          dropped: seq<Pair>, es: seq<Pair>, free: nat)
    requires w > 0 && Underway(w, callback, es0, free0, want, dropped, es, free)
    ensures es <= es0
    decreases |dropped|
  {
    if dropped != [] {
      var k := |dropped| - 1;
      UnderwayPrefix(w, callback, es0, free0, want, dropped[..k], es + [dropped[k]], free - Cost(w, dropped[k]));
      assert es <= es + [dropped[k]];
    }
  }

  lemma TrackNoKey(t: Track, k: Key)
    requires !Has(t.es0, k)
    ensures !Has(t.left, k)
  {
    UnderwayPrefix(t.w, t.callback, t.es0, t.free0, t.want, t.dropped, t.left, t.have);
    assert forall i :: 0 <= i < |t.left| ==> t.left[i] == t.es0[i];
  }

  lemma TrackDone(t: Track)
    requires t.have >= t.want || t.left == []
    ensures Goal(t) == Eviction(t.left, t.have, t.dropped, false)
  {
    UnderwayGoes(t.w, t.callback, t.es0, t.free0, t.want, t.dropped, t.left, t.have);
    assert t.dropped + [] == t.dropped;
  }

  lemma TrackCrash(t: Track, rest: seq<Pair>, last: Pair)
    requires t.left == rest + [last] && t.have < t.want && t.callback && Corner(t.w, last)
    ensures Goal(t) == Eviction(rest, t.have, t.dropped, true)
  {
    UnderwayGoes(t.w, t.callback, t.es0, t.free0, t.want, t.dropped, t.left, t.have);
    assert t.left[..|t.left| - 1] == rest;
    assert t.dropped + [] == t.dropped;
  }

  datatype Reply = Stored | TooLong | Full | Crash

  datatype SetResult = SetResult(model: Model, reply: Reply, dropped: seq<Pair>)

  function Lookup(es: seq<Pair>, k: Key): Val
    requires Has(es, k)
  {
    es[IndexOf(es, k)].value
  }

  /** More bytes than the payloads of all chunks together. */
  predicate TooLarge(w: nat, n: nat, len: nat) { len > w * n }

  /**
   What `Set` does. `mine` are the chunks the key already has, `rest` the other entries. With eviction and every chunk
   accounted for there is always room in the end.
   */
  function Set(b: Model, k: Key, v: Val): SetResult
    requires b.w > 0
  {
    var need := ChunksFor(b.w, 8 + |k| + |v|);
    if TooLarge(b.w, b.n, 8 + |k| + |v|) then SetResult(b, TooLong, [])
    else
      var rest := Without(b.entries, k);
      var mine := if Has(b.entries, k) then Cost(b.w, Entry(k, Lookup(b.entries, k))) else 0;
      if !b.lru && need > b.free + mine then
        if Has(b.entries, k)
        then SetResult(b.(entries := [Entry(k, Lookup(b.entries, k))] + rest, free := 0), Full, [])
        else SetResult(b, Full, [])
      else
        var r := Evict(b.w, b.callback, rest, b.free + mine, need);
        if r.crash then SetResult(b.(entries := r.entries), Crash, r.dropped)
        else if r.free < need then SetResult(b, Full, r.dropped)
        else SetResult(b.(entries := [Entry(k, v)] + r.entries, free := r.free - need), Stored, r.dropped)
  }

  /** An update that makes the value of an exact-fit key empty, or no longer empty, leaves a stale link. */
  predicate Stale(b: Model, k: Key, v: Val)
    requires b.w > 0
  {
    Has(b.entries, k) && WholeChunks(b.w, 8 + |k|) && (Lookup(b.entries, k) == []) != (v == [])
  }

  /** The chunks the key has already. */
  function Mine(b: Model, k: Key): nat
    requires b.w > 0
  {
    if Has(b.entries, k) then Cost(b.w, Entry(k, Lookup(b.entries, k))) else 0
  }

  /** The eviction that `Set` begins. */
  function SetTrack(b: Model, k: Key, v: Val): Track
    requires b.w > 0
  {
    Begin(b.w, b.callback, Without(b.entries, k), b.free + Mine(b, k), ChunksFor(b.w, 8 + |k| + |v|))
  }

  /** `Set` put together from that eviction. */
  lemma SetCases(b: Model, k: Key, v: Val, t0: Track)
    requires b.w > 0 && t0 == SetTrack(b, k, v) && !TooLarge(b.w, b.n, 8 + |k| + |v|)
    ensures !b.lru && t0.have < t0.want && Has(b.entries, k) ==>
              Set(b, k, v) == SetResult(b.(entries := [Entry(k, Lookup(b.entries, k))] + t0.left, free := 0), Full, [])
    ensures !b.lru && t0.have < t0.want && !Has(b.entries, k) ==> Set(b, k, v) == SetResult(b, Full, [])
    ensures (b.lru || t0.want <= t0.have) && Goal(t0).crash ==>
              Set(b, k, v).reply == Crash && Set(b, k, v).dropped == Goal(t0).dropped
    ensures (b.lru || t0.want <= t0.have) && !Goal(t0).crash && t0.want <= Goal(t0).free ==>
              Set(b, k, v) == SetResult(b.(entries := [Entry(k, v)] + Goal(t0).entries, free := Goal(t0).free - t0.want),
                                        Stored, Goal(t0).dropped)
  {
  }

  /** The link in front of the value goes stale exactly when one of the two chains ends right there. */
  lemma StaleIff(b: Model, k: Key, v: Val, c: nat, c': nat)
    requires b.w > 0 && Has(b.entries, k) && Fits(b.w, c, 8 + |k| + |Lookup(b.entries, k)|) && Fits(b.w, c', 8 + |k| + |v|)
    ensures Stale(b, k, v) <==> !(8 + |k| == Times(b.w, c) <==> 8 + |k| == Times(b.w, c'))
  {
    FullIffEmpty(b.w, k, Lookup(b.entries, k), c);
    FullIffEmpty(b.w, k, v, c');
  }

  /** Whether the value would start right behind the last of the needed chunks. */
  lemma FullIffEmpty(w: nat, k: Key, v: Val, c: nat)
    requires w > 0 && Fits(w, c, 8 + |k| + |v|)
    ensures 8 + |k| == Times(w, c) <==> WholeChunks(w, 8 + |k|) && v == []
  {
    if v == [] { FitsFull(w, c, 8 + |k|); }
  }

  lemma CountInArena(w: nat, n: nat, len: nat, c: nat)
    requires Fits(w, c, len) && !TooLarge(w, n, len)
    ensures c <= n
  {
    TimesIsProduct(w, n);
    if n < c { TimesMono(w, n, c - 1); }
  }

  /** The program's way to count the chunks that `len` bytes need. */
  method CountChunks(w: nat, len: nat) returns (c: nat)
    requires w > 0 && len > 0
    ensures c == ChunksFor(w, len) && Fits(w, c, len)
  {
    c := len / w;
    if len % w > 0 { c := c + 1; }
    ChunksForIsQuotient(w, len);
    ChunksForFits(w, len);
  }

  datatype GetReply = Hit(value: Val) | Miss | GetCrash

  datatype GetResult = GetResult(model: Model, reply: GetReply)

  /** `Get` moves the entry to the front and reads its value, which it cannot do in the corner. */
  function Get(b: Model, k: Key): GetResult
    requires b.w > 0
  {
    if !Has(b.entries, k) then GetResult(b, Miss)
    else
      var e := Entry(k, Lookup(b.entries, k));
      GetResult(b.(entries := [e] + Without(b.entries, k)), if Corner(b.w, e) then GetCrash else Hit(e.value))
  }

  datatype DelReply = Deleted | Absent | DelCrash

  datatype DelResult = DelResult(model: Model, reply: DelReply, dropped: seq<Pair>)

  /** `Del` removes the entry, tells the callback and frees the chunks. */
  function Del(b: Model, k: Key): DelResult
    requires b.w > 0
  {
    if !Has(b.entries, k) then DelResult(b, Absent, [])
    else
      var e := Entry(k, Lookup(b.entries, k));
      if b.callback && Corner(b.w, e) then DelResult(b, DelCrash, [])
      else DelResult(b.(entries := Without(b.entries, k), free := b.free + Cost(b.w, e)), Deleted, [e])
  }

  lemma NoKeyCases(b: Model, k: Key)
    requires b.w > 0 && !Has(b.entries, k)
    ensures Get(b, k) == GetResult(b, Miss) && Del(b, k) == DelResult(b, Absent, [])
    ensures forall v :: !Stale(b, k, v)
  {
  }

  lemma TooLargeCases(b: Model, k: Key, v: Val)
    requires b.w > 0 && TooLarge(b.w, b.n, 8 + |k| + |v|)
    ensures Set(b, k, v) == SetResult(b, TooLong, [])
  {
  }

  lemma GetCases(b: Model, k: Key, p: Pair)
    requires b.w > 0 && Has(b.entries, k) && p == Entry(k, Lookup(b.entries, k))
    ensures Get(b, k).model == b.(entries := [p] + Without(b.entries, k))
    ensures Get(b, k).reply == if Corner(b.w, p) then GetCrash else Hit(p.value)
  {
  }

  lemma DelCases(b: Model, k: Key, p: Pair)
    requires b.w > 0 && Has(b.entries, k) && p == Entry(k, Lookup(b.entries, k))
    ensures Del(b, k) == if b.callback && Corner(b.w, p) then DelResult(b, DelCrash, [])
                         else DelResult(b.(entries := Without(b.entries, k), free := b.free + Cost(b.w, p)), Deleted, [p])
  {
  }

  function AsMap(es: seq<Pair>): map<Key, Val>
  {
    if es == [] then map[] else AsMap(es[..|es| - 1])[es[|es| - 1].key := es[|es| - 1].value]
  }

  function Reversed(es: seq<Pair>): (r: seq<Pair>)
    ensures |r| == |es|
  {
    if es == [] then [] else [es[|es| - 1]] + Reversed(es[..|es| - 1])
  }

  /** The count is exactly enough. */
  lemma {:induction false} ChunksForFits(w: nat, len: nat)
    requires w > 0 && len > 0
    ensures Fits(w, ChunksFor(w, len), len)
    decreases len
  {
    assert Times(w, 1) == w;
    if len > w {
      ChunksForFits(w, len - w);
      TimesAdd(w, 1, ChunksFor(w, len - w));
      TimesAdd(w, 1, ChunksFor(w, len - w) - 1);
    }
  }

  lemma FitsUnique(w: nat, i: nat, j: nat, len: nat)
    requires Fits(w, i, len) && Fits(w, j, len)
    ensures i == j
  {
    if i < j { TimesMono(w, i, j - 1); }
    if j < i { TimesMono(w, j, i - 1); }
  }

  lemma {:induction false} FitsFull(w: nat, i: nat, len: nat)
    requires w > 0 && Fits(w, i, len)
    ensures len == Times(w, i) <==> WholeChunks(w, len)
    decreases i
  {
    if i > 1 {
      TimesMono(w, 1, i - 1);
      assert Times(w, 1) == w;
      assert Times(w, i) == Times(w, i - 1) + w && Times(w, i - 1) == Times(w, i - 2) + w;
      FitsFull(w, i - 1, len - w);
    } else {
      assert Times(w, 1) == w;
    }
  }
}
