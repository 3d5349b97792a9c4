/**
 Runs of operations on the abstract buffer. Over any run the buffer is a plain map from which evicted keys
 have been taken, every answer agrees with that map, and the entries stand in the order of their last use.
 */
module KvRun {
  import opened KvLru
  import opened KvSpec
  import opened KvReload
  import opened KvTheorems

  datatype Op = SetOp(key: Key, val: Val) | GetOp(key: Key) | DelOp(key: Key)

  datatype Answer = SetAns(reply: Reply) | GetAns(get: GetReply) | DelAns(del: DelReply)
  {
    predicate Crashed() { this == SetAns(Crash) || this == GetAns(GetCrash) || this == DelAns(DelCrash) }
  }

  datatype Event = Event(op: Op, answer: Answer, dropped: seq<Pair>)

  datatype Outcome = Outcome(model: Model, log: seq<Event>)
  {
    predicate Crashed() { log != [] && log[|log| - 1].answer.Crashed() }
  }

  /** One operation. */
  function Step(b: Model, op: Op): (r: (Model, Event))
    requires b.w > 0
    ensures r.0.w == b.w && r.0.lru == b.lru && r.0.n == b.n && r.1.op == op
  {
    match op
    case SetOp(k, v) => var r := Set(b, k, v); (r.model, Event(op, SetAns(r.reply), r.dropped))
    case GetOp(k) => var r := Get(b, k); (r.model, Event(op, GetAns(r.reply), []))
    case DelOp(k) => var r := Del(b, k); (r.model, Event(op, DelAns(r.reply), r.dropped))
  }

  /** A run ends early when an operation crashes. */
  function Run(b: Model, ops: seq<Op>): (r: Outcome)
    requires b.w > 0
    ensures r.model.w == b.w && r.model.lru == b.lru && r.model.n == b.n
    decreases |ops|
  {
    if ops == [] then Outcome(b, [])
    else
      var r := Run(b, ops[..|ops| - 1]);
      if r.Crashed() then r
      else
        var s := Step(r.model, ops[|ops| - 1]);
        Outcome(s.0, r.log + [s.1])
  }

  // ---- one step, seen as a step on a plain map

  /** What an event does to a plain map. */
  ghost function MapAfter(m: map<Key, Val>, ev: Event): map<Key, Val>
  {
    match ev.op
    case SetOp(k, v) => if ev.answer == SetAns(Stored) then (m - KeySet(ev.dropped))[k := v] else m
    case GetOp(k) => m
    case DelOp(k) => if ev.answer == DelAns(Deleted) then m - {k} else m
  }

  /** An event that agrees with the map: reads give the stored bytes, and whoever is told of a drop is told the stored bytes. */
  ghost predicate Truthful(m: map<Key, Val>, ev: Event)
  {
    && (forall p :: p in ev.dropped ==> p.key in m && m[p.key] == p.value)
    && match ev.op
       case SetOp(k, v) => ev.answer == SetAns(Stored) ==> k !in KeySet(ev.dropped)
       case GetOp(k) => ev.answer == if k in m then GetAns(Hit(m[k])) else GetAns(Miss)
       case DelOp(k) => ev.answer == (if k in m then DelAns(Deleted) else DelAns(Absent))
                        && ev.dropped == if k in m then [Entry(k, m[k])] else []
  }

  lemma AsMapIs(es: seq<Pair>, e: Pair)
    requires Distinct(es)
    ensures e in es <==> e.key in AsMap(es) && AsMap(es)[e.key] == e.value
  {
    AsMapMember(es, e.key);
    if e in es {
      var i :| 0 <= i < |es| && es[i] == e;
      assert Has(es, e.key);
      var j :| 0 <= j < |es| && es[j] == Entry(e.key, AsMap(es)[e.key]);
    }
  }

  /** Two lists with the same members make the same map. */
  lemma MapOf(es: seq<Pair>, m: map<Key, Val>)
    requires Distinct(es)
    requires forall e: Pair :: e in es <==> e.key in m && m[e.key] == e.value
    ensures AsMap(es) == m
  {
    forall k ensures k in AsMap(es) <==> k in m
             ensures k in AsMap(es) && k in m ==> AsMap(es)[k] == m[k] {
      if k in m { assert Entry(k, m[k]) in es; AsMapIs(es, Entry(k, m[k])); }
      if k in AsMap(es) { AsMapIs(es, Entry(k, AsMap(es)[k])); }
    }
  }

  lemma LookupIs(es: seq<Pair>, k: Key)
    requires Distinct(es)
    ensures Has(es, k) <==> k in AsMap(es)
    ensures Has(es, k) ==> Lookup(es, k) == AsMap(es)[k] && Entry(k, Lookup(es, k)) in es
  {
    AsMapMember(es, k);
    if Has(es, k) {
      var i := IndexOf(es, k);
      assert es[i] == Entry(k, Lookup(es, k));
      AsMapIs(es, Entry(k, Lookup(es, k)));
    }
  }

  /** Moving an entry to the front does not change the map. */
  lemma FrontMap(es: seq<Pair>, k: Key)
    requires Distinct(es) && Has(es, k)
    ensures Distinct([Entry(k, Lookup(es, k))] + Without(es, k))
    ensures AsMap([Entry(k, Lookup(es, k))] + Without(es, k)) == AsMap(es)
  {
    var e := Entry(k, Lookup(es, k));
    LookupIs(es, k);
    WithoutKeeps(es, k);
    PrefixDistinct(Without(es, k), Without(es, k), e);
    var es' := [e] + Without(es, k);
    forall x: Pair ensures x in es' <==> x in es {
      if x in es && x.key == k { AsMapIs(es, x); }
    }
    AsMapPerm(es', es);
  }

  /** Cutting a key out of the list cuts it out of the map. */
  lemma CutMap(es: seq<Pair>, k: Key)
    requires Distinct(es)
    ensures Distinct(Without(es, k)) && AsMap(Without(es, k)) == AsMap(es) - {k}
  {
    WithoutKeeps(es, k);
    forall e: Pair ensures e in Without(es, k) <==> e.key in AsMap(es) - {k} && (AsMap(es) - {k})[e.key] == e.value {
      AsMapIs(es, e);
    }
    MapOf(Without(es, k), AsMap(es) - {k});
  }

  lemma ReversedMember(es: seq<Pair>, e: Pair)
    ensures e in Reversed(es) <==> e in es
    decreases |es|
  {
    if es != [] { ReversedMember(es[..|es| - 1], e); }
  }

  /** The entries before an eviction are those kept and those dropped. */
  lemma EvictMembers(w: nat, callback: bool, es: seq<Pair>, free: nat, want: nat, e: Pair)
    requires w > 0 && Distinct(es) && !Evict(w, callback, es, free, want).crash
    ensures var r := Evict(w, callback, es, free, want);
            && (e in es <==> e in r.entries || e in r.dropped)
            && (e in r.entries ==> e.key !in KeySet(r.dropped))
  {
    hide Evict;
    EvictShape(w, callback, es, free, want);
    var r := Evict(w, callback, es, free, want);
    var c := |r.entries|;
    assert es == es[..c] + es[c..];
    ReversedMember(r.dropped, e);
    if e in r.entries {
      forall d | d in r.dropped ensures d.key != e.key {
        ReversedMember(r.dropped, d);
        KeptApart(es, c, e, d);
      }
    }
  }

  lemma KeptApart(es: seq<Pair>, c: nat, e: Pair, d: Pair)
    requires Distinct(es) && c <= |es| && e in es[..c] && d in es[c..]
    ensures e.key != d.key
  {
    var i :| 0 <= i < c && es[i] == e;
    var j :| 0 <= j < |es[c..]| && es[c..][j] == d;
    assert es[c + j] == d;
  }

  /** A stored value replaces the old one; what is dropped for it leaves the map, all else stays. */
  lemma StoredMap(b: Model, k: Key, v: Val)
    requires b.Ok() && Set(b, k, v).reply == Stored
    ensures AsMap(Set(b, k, v).model.entries) == MapAfter(AsMap(b.entries), Event(SetOp(k, v), SetAns(Stored), Set(b, k, v).dropped))
    ensures Truthful(AsMap(b.entries), Event(SetOp(k, v), SetAns(Stored), Set(b, k, v).dropped))
  {
    hide Evict, Without, ChunksFor, Total, TooLarge, AsMap, Reversed;
    var rest := Without(b.entries, k);
    var want, have := ChunksFor(b.w, 8 + |k| + |v|), b.free + Mine(b, k);
    var r := Evict(b.w, b.callback, rest, have, want);
    var es := Set(b, k, v).model.entries;
    assert es == [Entry(k, v)] + r.entries && Set(b, k, v).dropped == r.dropped;
    SetOk(b, k, v);
    WithoutKeeps(b.entries, k);
    StoredMembers(b, k, v, rest, r, have, want);
  }

  lemma StoredMembers(b: Model, k: Key, v: Val, rest: seq<Pair>, r: Eviction, have: nat, want: nat)
    requires b.w > 0 && Distinct(b.entries) && Distinct(rest)
    requires forall e :: e in rest <==> e in b.entries && e.key != k
    requires r == Evict(b.w, b.callback, rest, have, want) && !r.crash && Distinct([Entry(k, v)] + r.entries)
    ensures AsMap([Entry(k, v)] + r.entries) == (AsMap(b.entries) - KeySet(r.dropped))[k := v]
    ensures k !in KeySet(r.dropped)
    ensures forall p :: p in r.dropped ==> p.key in AsMap(b.entries) && AsMap(b.entries)[p.key] == p.value
  {
    hide Evict, AsMap, Reversed;
    var es, m := [Entry(k, v)] + r.entries, AsMap(b.entries);
    var m' := (m - KeySet(r.dropped))[k := v];
    forall e: Pair ensures e in es <==> e.key in m' && m'[e.key] == e.value {
      EvictMembers(b.w, b.callback, rest, have, want, e);
      AsMapIs(b.entries, e);
      if e.key in KeySet(r.dropped) && e.key != k { DroppedKey(b.w, b.callback, rest, have, want, e); }
    }
    MapOf(es, m');
    forall p | p in r.dropped ensures p.key in m && m[p.key] == p.value && p.key != k {
      EvictMembers(b.w, b.callback, rest, have, want, p);
      AsMapIs(b.entries, p);
    }
  }

  lemma DroppedKey(w: nat, callback: bool, es: seq<Pair>, free: nat, want: nat, e: Pair)
    requires w > 0 && Distinct(es) && !Evict(w, callback, es, free, want).crash
    requires e.key in KeySet(Evict(w, callback, es, free, want).dropped)
    ensures e !in Evict(w, callback, es, free, want).entries
  {
    EvictMembers(w, callback, es, free, want, e);
  }

  /** A failed `Set` leaves the map alone and drops nothing. */
  lemma FailedMap(b: Model, k: Key, v: Val)
    requires b.Ok() && (Set(b, k, v).reply == Full || Set(b, k, v).reply == TooLong)
    ensures AsMap(Set(b, k, v).model.entries) == AsMap(b.entries) && Set(b, k, v).dropped == []
  {
    hide Evict, Without, ChunksFor, Total, TooLarge, AsMap, Reversed;
    if Has(b.entries, k) { FrontMap(b.entries, k); }
    if b.lru { SetAlwaysStores(b, k, v); }
    EvictMinimal(b.w, b.callback, Without(b.entries, k), b.free + Mine(b, k), ChunksFor(b.w, 8 + |k| + |v|));
  }

  /** Every operation that does not crash is a step of a plain map, and its answer is the map's. */
  lemma StepMap(b: Model, op: Op)
    requires b.Ok() && !Step(b, op).1.answer.Crashed()
    ensures Step(b, op).0.Ok()
    ensures AsMap(Step(b, op).0.entries) == MapAfter(AsMap(b.entries), Step(b, op).1)
    ensures Truthful(AsMap(b.entries), Step(b, op).1)
  {
    hide Set, Without, Total, AsMap, KeySet, Model.Ok;
    OkDistinct(b);
    match op
    case SetOp(k, v) =>
      SetOk(b, k, v);
      if Set(b, k, v).reply == Stored { StoredMap(b, k, v); } else { FailedMap(b, k, v); }
    case GetOp(k) =>
      GetOk(b, k);
      LookupIs(b.entries, k);
      if Has(b.entries, k) { FrontMap(b.entries, k); }
    case DelOp(k) =>
      DelOk(b, k);
      LookupIs(b.entries, k);
      CutMap(b.entries, k);
  }

  lemma OkDistinct(b: Model)
    requires b.Ok()
    ensures Distinct(b.entries) && b.w > 0
  {
  }

  // ---- runs

  ghost function MapRun(m: map<Key, Val>, log: seq<Event>): map<Key, Val>
    decreases |log|
  {
    if log == [] then m else MapAfter(MapRun(m, log[..|log| - 1]), log[|log| - 1])
  }

  /** Every event of the log agrees with the map as it was at that time. */
  ghost predicate AllTruthful(m: map<Key, Val>, log: seq<Event>)
    decreases |log|
  {
    log == [] || (AllTruthful(m, log[..|log| - 1]) && Truthful(MapRun(m, log[..|log| - 1]), log[|log| - 1]))
  }

  /** Any run that does not crash refines the plain map and keeps the chunk account. */
  lemma {:induction false} RunRefinesMap(b: Model, ops: seq<Op>)
    requires b.Ok() && !Run(b, ops).Crashed()
    ensures Run(b, ops).model.Ok()
    ensures AsMap(Run(b, ops).model.entries) == MapRun(AsMap(b.entries), Run(b, ops).log)
    ensures AllTruthful(AsMap(b.entries), Run(b, ops).log)
    decreases |ops|
  {
    hide Step, AsMap, Model.Ok, Truthful, MapAfter;
    OkDistinct(b);
    if ops != [] {
      var k := |ops| - 1;
      RunRefinesMap(b, ops[..k]);
      var r := Run(b, ops[..k]);
      var s := Step(r.model, ops[k]);
      StepMap(r.model, ops[k]);
      assert (r.log + [s.1])[..|r.log|] == r.log;
    }
  }

  // ---- order of last use

  /** An operation uses its key unless it deletes it or is refused for its size. */
  predicate Uses(ev: Event, k: Key)
  {
    match ev.op
    case SetOp(k', _) => k' == k && ev.answer != SetAns(TooLong)
    case GetOp(k') => k' == k
    case DelOp(_) => false
  }

  /** The number of the last event that used `k`, counted from 1; 0 if none did. */
  function LastUse(log: seq<Event>, k: Key): (r: nat)
    ensures r <= |log|
    decreases |log|
  {
    if log == [] then 0
    else if Uses(log[|log| - 1], k) then |log|
    else LastUse(log[..|log| - 1], k)
  }

  /** In `start` the entry of `k` stood in front of that of `k'`. */
  ghost predicate StoodBefore(start: seq<Pair>, k: Key, k': Key)
  {
    exists i, j :: 0 <= i < j < |start| && start[i].key == k && start[j].key == k'
  }

  /** `k` was used later than `k'`; or neither was used, and it was the newer one already at the start. */
  ghost predicate Newer(log: seq<Event>, start: seq<Pair>, k: Key, k': Key)
  {
    || LastUse(log, k) > LastUse(log, k')
    || (LastUse(log, k) == 0 && LastUse(log, k') == 0 && StoodBefore(start, k, k'))
  }

  /** The newer entries stand in front, and what was never used was there at the start. */
  ghost predicate ByLastUse(es: seq<Pair>, log: seq<Event>, start: seq<Pair>)
  {
    && (forall i :: 0 <= i < |es| ==> LastUse(log, es[i].key) > 0 || Has(start, es[i].key))
    && (forall i, j :: 0 <= i < j < |es| ==> Newer(log, start, es[i].key, es[j].key))
  }

  /** `sub` keeps the order of `es` but misses some entries. */
  ghost predicate Thinned(sub: seq<Pair>, es: seq<Pair>, at: seq<nat>)
  {
    && |at| == |sub| && (forall i :: 0 <= i < |sub| ==> at[i] < |es| && sub[i] == es[at[i]])
    && (forall i, j :: 0 <= i < j < |sub| ==> at[i] < at[j])
  }

  /** After an operation its key is in front, or nothing moved; the others keep their order. */
  ghost predicate Moved(es': seq<Pair>, es: seq<Pair>, ev: Event, at: seq<nat>)
  {
    if es' != [] && Uses(ev, es'[0].key)
    then Thinned(es'[1..], es, at) && forall i :: 0 < i < |es'| ==> !Uses(ev, es'[i].key)
    else Thinned(es', es, at) && forall i :: 0 <= i < |es'| ==> !Uses(ev, es'[i].key)
  }

  lemma MovedKeepsOrder(es': seq<Pair>, es: seq<Pair>, ev: Event, at: seq<nat>, log: seq<Event>, start: seq<Pair>)
    requires ByLastUse(es, log, start) && Moved(es', es, ev, at)
    ensures ByLastUse(es', log + [ev], start)
  {
    hide StoodBefore, Has;
    var log' := log + [ev];
    assert log'[..|log|] == log;
    var front := es' != [] && Uses(ev, es'[0].key);
    var o := if front then 1 else 0;
    forall i | o <= i < |es'| ensures LastUse(log', es'[i].key) == LastUse(log, es'[i].key) {}
    forall i | o <= i < |es'| ensures es'[i] == es[at[i - o]] {
      if front { assert es'[1..][i - 1] == es'[i]; }
    }
    forall i, j | o <= i < j < |es'| ensures Newer(log', start, es'[i].key, es'[j].key) {
      assert Newer(log, start, es[at[i - o]].key, es[at[j - o]].key);
    }
  }

  function Skip(i: nat, n: nat): (at: seq<nat>)
    ensures |at| == n && forall j :: 0 <= j < n ==> at[j] == if j < i then j else j + 1
  {
    seq(n, j requires 0 <= j < n => if j < i then j else j + 1)
  }

  /** Any front of the list without `k` is the list thinned. */
  lemma FrontThinned(es: seq<Pair>, k: Key, kept: seq<Pair>) returns (at: seq<nat>)
    requires Distinct(es) && kept <= Without(es, k)
    ensures Thinned(kept, es, at) && forall i :: 0 <= i < |kept| ==> kept[i].key != k
  {
    hide Without, IndexOf;
    WithoutKeeps(es, k);
    assert forall i :: 0 <= i < |kept| ==> kept[i] == Without(es, k)[i];
    forall i | 0 <= i < |kept| ensures kept[i].key != k { assert Without(es, k)[i] in Without(es, k); }
    if Has(es, k) {
      var i := IndexOf(es, k);
      WithoutIndex(es, i);
      at := Skip(i, |kept|);
    } else {
      WithoutMiss(es, k);
      at := seq(|kept|, j => j);
    }
  }

  /** The list as it is, seen as thinned, when the event uses no key in it. */
  lemma Unmoved(es: seq<Pair>, ev: Event) returns (at: seq<nat>)
    requires forall i :: 0 <= i < |es| ==> !Uses(ev, es[i].key)
    ensures Moved(es, es, ev, at)
  {
    at := seq(|es|, j => j);
  }

  lemma PushMoved(e: Pair, kept: seq<Pair>, es: seq<Pair>, ev: Event) returns (at: seq<nat>)
    requires Distinct(es) && kept <= Without(es, e.key) && Uses(ev, e.key) && (forall k :: Uses(ev, k) ==> k == e.key)
    ensures Moved([e] + kept, es, ev, at)
  {
    at := FrontThinned(es, e.key, kept);
    var es' := [e] + kept;
    assert es'[1..] == kept;
    forall i | 0 < i < |es'| ensures !Uses(ev, es'[i].key) { assert es'[i] == kept[i - 1]; }
  }

  lemma SetMoves(b: Model, k: Key, v: Val) returns (at: seq<nat>)
    requires b.Ok() && Set(b, k, v).reply != Crash
    ensures Moved(Set(b, k, v).model.entries, b.entries, Step(b, SetOp(k, v)).1, at)
  {
    hide Evict, Without, ChunksFor, Total, TooLarge, Moved, Has;
    var ev, rest := Step(b, SetOp(k, v)).1, Without(b.entries, k);
    var have, want := b.free + Mine(b, k), ChunksFor(b.w, 8 + |k| + |v|);
    if Set(b, k, v).reply == Stored {
      EvictPrefix(b.w, b.callback, rest, have, want);
      at := PushMoved(Entry(k, v), Evict(b.w, b.callback, rest, have, want).entries, b.entries, ev);
    } else if Set(b, k, v).reply == TooLong {
      at := Unmoved(b.entries, ev);
    } else {
      at := FullMoves(b, k, v);
    }
  }

  lemma FullMoves(b: Model, k: Key, v: Val) returns (at: seq<nat>)
    requires b.Ok() && Set(b, k, v).reply == Full
    ensures Moved(Set(b, k, v).model.entries, b.entries, Step(b, SetOp(k, v)).1, at)
  {
    hide Evict, Without, ChunksFor, Total, TooLarge, Moved;
    var ev, rest := Step(b, SetOp(k, v)).1, Without(b.entries, k);
    if b.lru { SetAlwaysStores(b, k, v); }
    EvictMinimal(b.w, b.callback, rest, b.free + Mine(b, k), ChunksFor(b.w, 8 + |k| + |v|));
    if Has(b.entries, k) {
      at := PushMoved(Entry(k, Lookup(b.entries, k)), rest, b.entries, ev);
    } else {
      at := Unmoved(b.entries, ev);
    }
  }

  lemma StepMoves(b: Model, op: Op) returns (at: seq<nat>)
    requires b.Ok() && !Step(b, op).1.answer.Crashed()
    ensures Moved(Step(b, op).0.entries, b.entries, Step(b, op).1, at)
  {
    hide Set, Without, Total, Moved;
    var ev := Step(b, op).1;
    match op
    case SetOp(k, v) => at := SetMoves(b, k, v);
    case GetOp(k) =>
      if Has(b.entries, k) {
        at := PushMoved(Entry(k, Lookup(b.entries, k)), Without(b.entries, k), b.entries, ev);
      } else {
        at := Unmoved(b.entries, ev);
      }
    case DelOp(k) =>
      if Has(b.entries, k) {
        at := FrontThinned(b.entries, k, Without(b.entries, k));
        ThinnedMoved(Without(b.entries, k), b.entries, ev, at);
      } else {
        at := Unmoved(b.entries, ev);
      }
  }

  lemma ThinnedMoved(es': seq<Pair>, es: seq<Pair>, ev: Event, at: seq<nat>)
    requires Thinned(es', es, at) && forall i :: 0 <= i < |es'| ==> !Uses(ev, es'[i].key)
    ensures Moved(es', es, ev, at)
  {
  }

  /**
   After any run the entries stand in the order of their last use; those that the run has not used stand behind, in
   the order in which they stood at the start.
   */
  lemma {:induction false} RunOrder(b: Model, ops: seq<Op>)
    requires b.Ok() && !Run(b, ops).Crashed()
    ensures ByLastUse(Run(b, ops).model.entries, Run(b, ops).log, b.entries)
    decreases |ops|
  {
    hide Step, Moved, Model.Ok, ByLastUse;
    OkDistinct(b);
    if ops == [] {
      StartOrder(b.entries);
    } else {
      var k := |ops| - 1;
      RunOrder(b, ops[..k]);
      RunRefinesMap(b, ops[..k]);
      var r := Run(b, ops[..k]);
      var at := StepMoves(r.model, ops[k]);
      MovedKeepsOrder(Step(r.model, ops[k]).0.entries, r.model.entries, Step(r.model, ops[k]).1, at, r.log, b.entries);
    }
  }

  lemma StartOrder(es: seq<Pair>)
    ensures ByLastUse(es, [], es)
  {
  }

  /**
   Whatever a `Set` drops was used longer ago than everything it keeps; or neither has been used, and it was the older
   one already at the start.
   */
  lemma DropsLeastRecent(b: Model, ops: seq<Op>, k: Key, v: Val, p: Pair, e: Pair)
    requires b.Ok() && !Run(b, ops).Crashed()
    requires var r := Set(Run(b, ops).model, k, v); r.reply == Stored && p in r.dropped && e in r.model.entries && e.key != k
    ensures Newer(Run(b, ops).log, b.entries, e.key, p.key)
    ensures b.entries == [] ==> LastUse(Run(b, ops).log, p.key) < LastUse(Run(b, ops).log, e.key)
  {
    hide Run, Model.Ok, LastUse, Evict, Without;
    RunRefinesMap(b, ops);
    RunOrder(b, ops);
    var b', log := Run(b, ops).model, Run(b, ops).log;
    OkDistinct(b');
    var rest := Without(b'.entries, k);
    var have, want := b'.free + Mine(b', k), ChunksFor(b'.w, 8 + |k| + |v|);
    var r := Evict(b'.w, b'.callback, rest, have, want);
    assert Set(b', k, v).model.entries == [Entry(k, v)] + r.entries;
    DroppedBehind(b', k, rest, r, have, want, p, e, log, b.entries);
  }

  /** The entries are dropped from the oldest on. */
  lemma DropsInOrder(b: Model, ops: seq<Op>, k: Key, v: Val, i: nat, j: nat)
    requires b.Ok() && !Run(b, ops).Crashed()
    requires var r := Set(Run(b, ops).model, k, v); r.reply == Stored && i < j < |r.dropped|
    ensures var d := Set(Run(b, ops).model, k, v).dropped; Newer(Run(b, ops).log, b.entries, d[j].key, d[i].key)
  {
    hide Run, LastUse, Evict, Without, Newer, Reversed, ByLastUse, ChunksFor, Has, TooLarge, Total;
    RunRefinesMap(b, ops);
    RunOrder(b, ops);
    var b', log := Run(b, ops).model, Run(b, ops).log;
    OkDistinct(b');
    var rest := Without(b'.entries, k);
    var have, want := b'.free + Mine(b', k), ChunksFor(b'.w, 8 + |k| + |v|);
    var r := Evict(b'.w, b'.callback, rest, have, want);
    assert Set(b', k, v).dropped == r.dropped;
    DroppedOrder(b', k, rest, r, have, want, i, j, log, b.entries);
  }

  lemma DroppedOrder(b: Model, k: Key, rest: seq<Pair>, r: Eviction, have: nat, want: nat, i: nat, j: nat, log: seq<Event>,
                     start: seq<Pair>)
    requires b.w > 0 && Distinct(b.entries) && rest == Without(b.entries, k) && ByLastUse(b.entries, log, start)
    requires r == Evict(b.w, b.callback, rest, have, want) && !r.crash && i < j < |r.dropped|
    ensures Newer(log, start, r.dropped[j].key, r.dropped[i].key)
  {
    hide Without, Evict, LastUse, Reversed, Newer;
    var at := FrontThinned(b.entries, k, rest);
    EvictShape(b.w, b.callback, rest, have, want);
    ReversedAt(r.dropped, i);
    ReversedAt(r.dropped, j);
    var c, n := |r.entries|, |r.dropped|;
    assert rest[c..][n - 1 - i] == r.dropped[i] && rest[c..][n - 1 - j] == r.dropped[j];
    assert rest[c + (n - 1 - i)] == r.dropped[i] && rest[c + (n - 1 - j)] == r.dropped[j];
  }

  lemma {:induction false} ReversedAt(es: seq<Pair>, i: nat)
    requires i < |es|
    ensures |Reversed(es)| == |es| && Reversed(es)[|es| - 1 - i] == es[i]
    decreases |es|
  {
    if i < |es| - 1 { ReversedAt(es[..|es| - 1], i); }
  }

  lemma DroppedBehind(b: Model, k: Key, rest: seq<Pair>, r: Eviction, have: nat, want: nat, p: Pair, e: Pair, log: seq<Event>,
                      start: seq<Pair>)
    requires b.w > 0 && Distinct(b.entries) && rest == Without(b.entries, k) && ByLastUse(b.entries, log, start)
    requires r == Evict(b.w, b.callback, rest, have, want) && !r.crash && p in r.dropped && e in r.entries
    ensures Newer(log, start, e.key, p.key)
  {
    hide Without, Evict, LastUse, Reversed, Newer;
    var at := FrontThinned(b.entries, k, rest);
    EvictShape(b.w, b.callback, rest, have, want);
    ReversedMember(r.dropped, p);
    var c := |r.entries|;
    var i :| 0 <= i < c && r.entries[i] == e;
    var j :| 0 <= j < |rest[c..]| && rest[c..][j] == p;
    assert rest[i] == e && rest[c + j] == p && at[i] < at[c + j];
    assert b.entries[at[i]] == e && b.entries[at[c + j]] == p;
  }
}
