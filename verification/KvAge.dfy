/**
 What a buffer evicts first after a restart. A reload knows no order of use; it makes the entry the newest whose chain
 ends last in the array. So entries that have not been used since go in the order in which their chains end.
 */
module KvAge {
  import opened Bytes
  import opened KvNode
  import opened KvLru
  import opened KvSpec
  import opened KvState
  import opened KvSnap
  import opened KvReload
  import opened KvOpen
  import opened KvBuffer
  import opened KvStart
  import opened KvStat
  import opened KvRun
  import KvLife

  /** The chunk in which the entry of a key ends. */
  ghost function EndOf(es: seq<Item>, k: Key): nat
    requires Has(es, k)
  {
    LastOf(es[IndexOf(es, k)])
  }

  /** What stood in front ends later. */
  lemma EndsLater(s: Snap, k: Key, k': Key)
    requires ByEnd(s.es) && StoodBefore(Seen(s), k, k')
    ensures Has(s.es, k) && Has(s.es, k') && EndOf(s.es, k) > EndOf(s.es, k')
  {
    hide Seen, LastOf;
    SnapFacts(s);
    var i, j :| 0 <= i < j < |Seen(s)| && Seen(s)[i].key == k && Seen(s)[j].key == k';
    assert s.es[i].key == k && s.es[j].key == k';
  }

  /**
   After any run that follows a reload, what a `Set` drops of the entries that the run has not used goes from the chain
   that ends first on, and all such entries that it keeps end later.
   */
  lemma DropsByEnd(buf: KVBuffer, ops: seq<Op>, k: Key, v: Val)
    requires buf.Valid() && ByEnd(buf.lru.evictList) && !Run(buf.Abstract(), ops).Crashed()
    requires Set(Run(buf.Abstract(), ops).model, k, v).reply == Stored
    ensures var log, r, es := Run(buf.Abstract(), ops).log, Set(Run(buf.Abstract(), ops).model, k, v), buf.lru.evictList;
            && (forall p, e :: p in r.dropped && e in r.model.entries && e.key != k && LastUse(log, p.key) == 0 && LastUse(log, e.key) == 0 ==>
                  Has(es, p.key) && Has(es, e.key) && EndOf(es, p.key) < EndOf(es, e.key))
            && (forall i, j :: 0 <= i < j < |r.dropped| && LastUse(log, r.dropped[i].key) == 0 && LastUse(log, r.dropped[j].key) == 0 ==>
                  && Has(es, r.dropped[i].key) && Has(es, r.dropped[j].key)
                  && EndOf(es, r.dropped[i].key) < EndOf(es, r.dropped[j].key))
  {
    hide Run, KvSpec.Set, LastUse, Seen, StoodBefore, EndOf, ByEnd, Has, Model.Ok;
    var b := buf.Abstract();
    AbstractOk(buf);
    var log, r, es := Run(b, ops).log, Set(Run(b, ops).model, k, v), buf.lru.evictList;
    forall p, e | p in r.dropped && e in r.model.entries && e.key != k && LastUse(log, p.key) == 0 && LastUse(log, e.key) == 0
      ensures Has(es, p.key) && Has(es, e.key) && EndOf(es, p.key) < EndOf(es, e.key)
    {
      DropsLeastRecent(b, ops, k, v, p, e);
      EndsLater(buf.s, e.key, p.key);
    }
    forall i, j | 0 <= i < j < |r.dropped| && LastUse(log, r.dropped[i].key) == 0 && LastUse(log, r.dropped[j].key) == 0
      ensures Has(es, r.dropped[i].key) && Has(es, r.dropped[j].key) && EndOf(es, r.dropped[i].key) < EndOf(es, r.dropped[j].key)
    {
      DropsInOrder(b, ops, k, v, i, j);
      EndsLater(buf.s, r.dropped[j].key, r.dropped[i].key);
    }
  }

  /**
   A restart with eviction and a callback, and then a store: the callback hears of the dropped entries from the chain that
   ends first on, and every entry that is kept ended later. `es` are the entries as the restart has left them.
   */
  method RestartAndSet(buf: KVBuffer, extra: seq<byte>, key: Key, val: Val)
    returns (r: OpenResult, reply: Reply, calls: seq<Pair>, ghost es: seq<Item>)
    requires NewBuffer(buf, buf.data, buf.cs, buf.openLru, buf.onLruDel) && 8 + |key| + |val| < TWO32
    requires 1024 <= buf.data.Length && buf.data.Length + |extra| < TWO32
    ensures r.Opened? && (reply == Stored ==> r.buf.Valid())
    ensures forall x :: Has(es, x) <==> Has(buf.s.es, x)
    ensures reply == Stored ==> InEnds(es, calls) && KeptLater(es, calls, r.buf.Abstract().entries, key)
  {
    hide MemOf, Seen, InSync, KvSpec.Set, AsMap, Whole, HeaderOf, FreeList, EndOf, Has, ByEnd, InEnds, KeptLater;
    r := KvLife.Restart(buf, extra, true, true);
    es := r.buf.lru.evictList;
    SameKeys(r.buf, buf.s);
    FirstDrops(r.buf, key, val);
    reply, calls := r.buf.Set(key, val);
  }

  /** The pairs go from the chain that ends first on. */
  ghost predicate InEnds(es: seq<Item>, ps: seq<Pair>)
  {
    forall i, j :: 0 <= i < j < |ps| ==> Has(es, ps[i].key) && Has(es, ps[j].key) && EndOf(es, ps[i].key) < EndOf(es, ps[j].key)
  }

  /** All of `kept` but the entry of `key` end later than all of `ps`. */
  ghost predicate KeptLater(es: seq<Item>, ps: seq<Pair>, kept: seq<Pair>, key: Key)
  {
    forall p, x :: p in ps && x in kept && x.key != key ==>
      Has(es, p.key) && Has(es, x.key) && EndOf(es, p.key) < EndOf(es, x.key)
  }

  /** The first store after a reload. */
  lemma FirstDrops(buf: KVBuffer, key: Key, val: Val)
    requires buf.Valid() && ByEnd(buf.lru.evictList)
    ensures var r := KvSpec.Set(buf.Abstract(), key, val);
            r.reply == Stored ==> InEnds(buf.lru.evictList, r.dropped) && KeptLater(buf.lru.evictList, r.dropped, r.model.entries, key)
  {
    hide Run, KvSpec.Set, LastUse, Seen, EndOf, ByEnd, Has, InEnds, KeptLater;
    var b := buf.Abstract();
    NothingRun(b);
    var r := KvSpec.Set(b, key, val);
    if r.reply == Stored {
      DropsByEnd(buf, [], key, val);
      Unused(buf.lru.evictList, r.dropped, r.model.entries, key, Run(b, []).log);
    }
  }

  lemma Unused(es: seq<Item>, dropped: seq<Pair>, kept: seq<Pair>, key: Key, log: seq<Event>)
    requires forall k :: LastUse(log, k) == 0
    requires forall p, e :: p in dropped && e in kept && e.key != key && LastUse(log, p.key) == 0 && LastUse(log, e.key) == 0 ==>
               Has(es, p.key) && Has(es, e.key) && EndOf(es, p.key) < EndOf(es, e.key)
    requires forall i, j :: 0 <= i < j < |dropped| && LastUse(log, dropped[i].key) == 0 && LastUse(log, dropped[j].key) == 0 ==>
               Has(es, dropped[i].key) && Has(es, dropped[j].key) && EndOf(es, dropped[i].key) < EndOf(es, dropped[j].key)
    ensures InEnds(es, dropped) && KeptLater(es, dropped, kept, key)
  {
    forall i, j | 0 <= i < j < |dropped|
      ensures Has(es, dropped[i].key) && Has(es, dropped[j].key) && EndOf(es, dropped[i].key) < EndOf(es, dropped[j].key)
    {
      assert LastUse(log, dropped[i].key) == 0 && LastUse(log, dropped[j].key) == 0;
    }
    forall p, x | p in dropped && x in kept && x.key != key
      ensures Has(es, p.key) && Has(es, x.key) && EndOf(es, p.key) < EndOf(es, x.key)
    {
      assert LastUse(log, p.key) == 0 && LastUse(log, x.key) == 0;
    }
    assert InEnds(es, dropped);
    assert KeptLater(es, dropped, kept, key);
  }

  lemma NothingRun(b: Model)
    requires b.w > 0
    ensures Run(b, []) == Outcome(b, []) && forall k :: LastUse(Run(b, []).log, k) == 0
  {
  }

  lemma SameKeys(buf: KVBuffer, s: Snap)
    requires Reopened(buf, s) && buf.s.es == buf.lru.evictList
    ensures forall k :: Has(buf.lru.evictList, k) <==> Has(s.es, k)
  {
    hide Seen, AsMap, Has;
    SnapFacts(s);
    SnapFacts(buf.s);
    forall k ensures Has(buf.lru.evictList, k) <==> Has(s.es, k) {
      LookupIs(Seen(s), k);
      LookupIs(Seen(buf.s), k);
      SeenHas(buf.s, k);
      SeenHas(s, k);
    }
  }
}
