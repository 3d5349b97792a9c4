/**
 What one call of the abstract buffer promises: eviction drops a shortest possible run of oldest entries, chunks
 are conserved or lost exactly when an update fails, and a fault of the callback has an exact cause.
 */
module KvTheorems {
  import opened KvLru
  import opened KvSpec

  // ---- lists of entries

  lemma TotalSnoc(w: nat, es: seq<Pair>, e: Pair)
    requires w > 0
    ensures Total(w, es + [e]) == Total(w, es) + Cost(w, e)
  {
    assert (es + [e])[..|es|] == es;
  }

  lemma {:induction false} TotalCut(w: nat, es: seq<Pair>, i: nat)
    requires w > 0 && i < |es|
    ensures Total(w, es) == Total(w, es[..i] + es[i + 1..]) + Cost(w, es[i])
    decreases |es|
  {
    var t := |es| - 1;
    if i == t {
      assert es[..i] + es[i + 1..] == es[..t];
    } else {
      TotalCut(w, es[..t], i);
      assert es[..i] + es[i + 1..] == (es[..t][..i] + es[..t][i + 1..]) + [es[t]];
      TotalSnoc(w, es[..t][..i] + es[..t][i + 1..], es[t]);
    }
  }

  /** The chunks of the other entries and the key's own. */
  lemma TotalWithout(w: nat, es: seq<Pair>, k: Key)
    requires w > 0 && Distinct(es)
    ensures Has(es, k) ==> Total(w, es) == Total(w, Without(es, k)) + Cost(w, Entry(k, Lookup(es, k)))
    ensures !Has(es, k) ==> Total(w, es) == Total(w, Without(es, k))
  {
    if Has(es, k) {
      var i := IndexOf(es, k);
      WithoutAt(es, i);
      TotalCut(w, es, i);
      assert es[i] == Entry(k, Lookup(es, k));
    } else {
      WithoutMiss(es, k);
    }
  }

  lemma TotalFront(w: nat, e: Pair, es: seq<Pair>)
    requires w > 0
    ensures Total(w, [e] + es) == Cost(w, e) + Total(w, es)
  {
    TotalCut(w, [e] + es, 0);
    assert ([e] + es)[..0] + ([e] + es)[1..] == es;
  }

  // ---- eviction

  /** What is kept is a prefix; the rest went, oldest first, up to the entry whose value cannot be read. */
  predicate Shape(w: nat, callback: bool, es: seq<Pair>, r: Eviction)
    requires w > 0
  {
    var c, s := |r.entries|, if r.crash then 1 else 0;
    && c + s <= |es| && r.entries == es[..c] && Reversed(r.dropped) == es[c + s..]
    && (r.crash ==> callback && Corner(w, es[c]))
  }

  lemma {:induction false} EvictShape(w: nat, callback: bool, es: seq<Pair>, free: nat, want: nat)
    requires w > 0
    ensures Shape(w, callback, es, Evict(w, callback, es, free, want))
    decreases |es|
  {
    hide Corner, Cost;
    if free >= want || es == [] {
      assert es[..|es|] == es;
    } else {
      var k := |es| - 1;
      if !(callback && Corner(w, es[k])) {
        EvictShape(w, callback, es[..k], free + Cost(w, es[k]), want);
        ShapeMore(w, callback, es, k, Evict(w, callback, es[..k], free + Cost(w, es[k]), want));
      }
    }
  }

  lemma ShapeMore(w: nat, callback: bool, es: seq<Pair>, k: nat, r: Eviction)
    requires w > 0 && |es| == k + 1 && Shape(w, callback, es[..k], r)
    ensures Shape(w, callback, es, r.(dropped := [es[k]] + r.dropped))
  {
    hide Corner, Reversed;
    ReversedPush(es[k], r.dropped);
    var c := |r.entries| + if r.crash then 1 else 0;
    assert es[..k][c..] + [es[k]] == es[c..];
    assert es[..k][..|r.entries|] == es[..|r.entries|];
  }

  lemma {:induction false} ReversedPush(e: Pair, es: seq<Pair>)
    ensures Reversed([e] + es) == Reversed(es) + [e]
    decreases |es|
  {
    if es != [] {
      var k := |es| - 1;
      assert ([e] + es)[..|es|] == [e] + es[..k];
      ReversedPush(e, es[..k]);
    }
  }

  /** Chunks only change hands: what the dropped entries held is free, and enough is free or nothing is left. */
  lemma {:induction false} EvictConserves(w: nat, callback: bool, es: seq<Pair>, free: nat, want: nat)
    requires w > 0
    ensures var r := Evict(w, callback, es, free, want);
            !r.crash ==> r.free + Total(w, r.entries) == free + Total(w, es) && (r.free >= want || r.entries == [])
    decreases |es|
  {
    if free < want && es != [] {
      var k := |es| - 1;
      if !(callback && Corner(w, es[k])) {
        EvictConserves(w, callback, es[..k], free + Cost(w, es[k]), want);
      }
    }
  }

  /** No entry goes without need: before the last one went, too little was free. */
  lemma {:induction false} EvictMinimal(w: nat, callback: bool, es: seq<Pair>, free: nat, want: nat)
    requires w > 0
    ensures var r := Evict(w, callback, es, free, want);
            !r.crash && r.dropped != [] ==> r.free - Cost(w, r.dropped[|r.dropped| - 1]) < want
    ensures free >= want ==> Evict(w, callback, es, free, want) == Eviction(es, free, [], false)
    decreases |es|
  {
    if free < want && es != [] {
      var k := |es| - 1;
      if !(callback && Corner(w, es[k])) {
        var r' := Evict(w, callback, es[..k], free + Cost(w, es[k]), want);
        EvictMinimal(w, callback, es[..k], free + Cost(w, es[k]), want);
        if r'.dropped == [] && !r'.crash {
          EvictNone(w, callback, es[..k], free + Cost(w, es[k]), want);
        }
      }
    }
  }

  lemma EvictNone(w: nat, callback: bool, es: seq<Pair>, free: nat, want: nat)
    requires w > 0 && Evict(w, callback, es, free, want).dropped == [] && !Evict(w, callback, es, free, want).crash
    ensures Evict(w, callback, es, free, want).free == free
  {
  }

  lemma EvictPrefix(w: nat, callback: bool, es: seq<Pair>, free: nat, want: nat)
    requires w > 0
    ensures Evict(w, callback, es, free, want).entries <= es
  {
    EvictShape(w, callback, es, free, want);
  }

  // ---- conservation

  lemma PrefixDistinct(es: seq<Pair>, kept: seq<Pair>, e: Pair)
    requires Distinct(es) && kept <= es && !Has(es, e.key)
    ensures Distinct([e] + kept)
  {
    forall i | 0 <= i < |kept| ensures kept[i].key != e.key { assert es[i].key != e.key; }
  }

  /** Every reply of `Set` but a crash keeps the chunk account. */
  lemma SetOk(b: Model, k: Key, v: Val)
    requires b.Ok() && Set(b, k, v).reply != Crash
    ensures Set(b, k, v).model.Ok()
  {
    hide Evict, Without, ChunksFor, Total, TooLarge;
    var rest := Without(b.entries, k);
    WithoutKeeps(b.entries, k);
    TotalWithout(b.w, b.entries, k);
    if Has(b.entries, k) {
      var e := Entry(k, Lookup(b.entries, k));
      TotalFront(b.w, e, rest);
      PrefixDistinct(rest, rest, e);
    }
    var need, have := ChunksFor(b.w, 8 + |k| + |v|), b.free + Mine(b, k);
    var r := Evict(b.w, b.callback, rest, have, need);
    EvictConserves(b.w, b.callback, rest, have, need);
    EvictPrefix(b.w, b.callback, rest, have, need);
    TotalFront(b.w, Entry(k, v), r.entries);
    PrefixDistinct(rest, r.entries, Entry(k, v));
  }

  lemma GetOk(b: Model, k: Key)
    requires b.Ok()
    ensures Get(b, k).model.Ok()
  {
    hide Without, ChunksFor, Total;
    WithoutKeeps(b.entries, k);
    TotalWithout(b.w, b.entries, k);
    if Has(b.entries, k) {
      var e := Entry(k, Lookup(b.entries, k));
      TotalFront(b.w, e, Without(b.entries, k));
      PrefixDistinct(Without(b.entries, k), Without(b.entries, k), e);
    }
  }

  lemma DelOk(b: Model, k: Key)
    requires b.Ok()
    ensures Del(b, k).model.Ok()
  {
    hide Without, ChunksFor, Total;
    WithoutKeeps(b.entries, k);
    TotalWithout(b.w, b.entries, k);
  }

  lemma TotalEmpty(w: nat)
    requires w > 0
    ensures Total(w, []) == 0
  {
  }

  /** An update of a present key that finds too few free chunks and may not evict. */
  predicate UpdateFails(b: Model, k: Key, v: Val)
    requires b.w > 0
  {
    && Has(b.entries, k) && 8 + |k| + |v| <= b.w * b.n
    && b.free + Mine(b, k) < ChunksFor(b.w, 8 + |k| + |v|)
  }

  /**
   Without eviction a `Set` loses chunks if and only if it is such an update and some chunks are free: it then loses
   all free chunks, whatever has been lost before.
   */
  lemma LeakIff(b: Model, k: Key, v: Val)
    requires b.Ok() && !b.lru
    ensures var b' := Set(b, k, v).model;
            b'.free + Total(b.w, b'.entries) == b.free + Total(b.w, b.entries) - if UpdateFails(b, k, v) then b.free else 0
    ensures Set(b, k, v).reply != Crash
  {
    hide Evict, Without, ChunksFor, Total;
    var rest := Without(b.entries, k);
    TotalWithout(b.w, b.entries, k);
    if Has(b.entries, k) { TotalFront(b.w, Entry(k, Lookup(b.entries, k)), rest); }
    var need, have := ChunksFor(b.w, 8 + |k| + |v|), b.free + Mine(b, k);
    var r := Evict(b.w, b.callback, rest, have, need);
    EvictMinimal(b.w, b.callback, rest, have, need);
    TotalFront(b.w, Entry(k, v), rest);
  }

  // ---- when the callback faults

  /** Going from the oldest entry on, one whose value cannot be read is met while too few chunks are free. */
  ghost predicate MeetsCorner(w: nat, es: seq<Pair>, free: nat, want: nat)
    requires w > 0
  {
    exists i :: 0 <= i < |es| && Corner(w, es[i]) && free + Total(w, es[i + 1..]) < want
  }

  lemma SuffixTotal(w: nat, es: seq<Pair>, k: nat, i: nat)
    requires w > 0 && |es| == k + 1 && i < k
    ensures Total(w, es[i + 1..]) == Total(w, es[..k][i + 1..]) + Cost(w, es[k])
  {
    assert es[i + 1..] == es[..k][i + 1..] + [es[k]];
    TotalSnoc(w, es[..k][i + 1..], es[k]);
  }

  lemma MeetsStep(w: nat, es: seq<Pair>, k: nat, free: nat, want: nat)
    requires w > 0 && |es| == k + 1
    ensures MeetsCorner(w, es, free, want) <==>
              (Corner(w, es[k]) && free < want) || MeetsCorner(w, es[..k], free + Cost(w, es[k]), want)
  {
    hide Corner, Cost, Total;
    TotalEmpty(w);
    assert es[k + 1..] == [];
    if MeetsCorner(w, es, free, want) {
      var i :| 0 <= i < |es| && Corner(w, es[i]) && free + Total(w, es[i + 1..]) < want;
      if i < k {
        SuffixTotal(w, es, k, i);
        assert es[..k][i] == es[i];
      }
    }
    if MeetsCorner(w, es[..k], free + Cost(w, es[k]), want) {
      var i :| 0 <= i < k && Corner(w, es[..k][i]) && free + Cost(w, es[k]) + Total(w, es[..k][i + 1..]) < want;
      SuffixTotal(w, es, k, i);
      assert es[i] == es[..k][i];
    }
    if Corner(w, es[k]) && free < want { assert free + Total(w, es[k + 1..]) < want; }
  }

  /** Nothing is met when enough is free. */
  lemma MeetsNone(w: nat, es: seq<Pair>, free: nat, want: nat)
    requires w > 0 && (free >= want || es == [])
    ensures !MeetsCorner(w, es, free, want)
  {
  }

  /** An eviction faults if and only if there is a callback and it meets such an entry. */
  lemma {:induction false} EvictCrashIff(w: nat, callback: bool, es: seq<Pair>, free: nat, want: nat)
    requires w > 0
    ensures Evict(w, callback, es, free, want).crash <==> callback && MeetsCorner(w, es, free, want)
    decreases |es|
  {
    hide MeetsCorner, Corner, Cost;
    if free >= want || es == [] {
      MeetsNone(w, es, free, want);
    } else {
      var k := |es| - 1;
      MeetsStep(w, es, k, free, want);
      if !(callback && Corner(w, es[k])) { EvictCrashIff(w, callback, es[..k], free + Cost(w, es[k]), want); }
    }
  }

  /**
   With eviction there are three outcomes: what does not fit the arena at all is refused, an eviction that meets an
   entry whose value the callback cannot be told faults, and everything else is stored.
   */
  lemma SetAlwaysStores(b: Model, k: Key, v: Val)
    requires b.Ok() && b.lru
    ensures var large := 8 + |k| + |v| > b.w * b.n;
            var meets := b.callback && MeetsCorner(b.w, Without(b.entries, k), b.free + Mine(b, k), ChunksFor(b.w, 8 + |k| + |v|));
            Set(b, k, v).reply == if large then TooLong else if meets then Crash else Stored
  {
    if TooLarge(b.w, b.n, 8 + |k| + |v|) {
      TooLargeCases(b, k, v);
    } else {
      hide Set, Evict, Without, Total, MeetsCorner, ChunksFor, Has;
      var t0 := SetTrack(b, k, v);
      SetCases(b, k, v, t0);
      RoomForAll(b, k, v, t0);
      EvictCrashIff(b.w, b.callback, t0.es0, t0.free0, t0.want);
    }
  }

  /** Dropping every other entry leaves enough chunks for whatever fits the arena. */
  lemma RoomForAll(b: Model, k: Key, v: Val, t0: Track)
    requires b.Ok() && b.lru && t0 == SetTrack(b, k, v) && !TooLarge(b.w, b.n, 8 + |k| + |v|)
    ensures !Goal(t0).crash ==> t0.want <= Goal(t0).free
  {
    hide Set, Evict, Without, Total, ChunksFor;
    ChunksForFits(b.w, 8 + |k| + |v|);
    CountInArena(b.w, b.n, 8 + |k| + |v|, t0.want);
    TotalWithout(b.w, b.entries, k);
    EvictConserves(b.w, b.callback, t0.es0, t0.free0, t0.want);
    TotalEmpty(b.w);
  }
}
