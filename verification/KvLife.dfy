/**
 The life of a real buffer: any run of calls does what the abstract run does, and a restart over the bytes
 it leaves, in an array of the same length or a longer one, gives back the same map.
 */
module KvLife {
  import opened Bytes
  import opened KvNode
  import opened KvLru
  import opened KvSpec
  import opened KvSnap
  import opened KvReload
  import opened KvOpen
  import opened KvBuffer
  import opened KvStart
  import opened KvMarks
  import KvRun

  type Op = KvRun.Op
  type Event = KvRun.Event

  /** Sizes are 32-bit words. */
  predicate Storable(op: Op) { op.SetOp? ==> 8 + |op.key| + |op.val| < TWO32 }

  /** The event as the caller hears of it: drops are told only to a callback. */
  function Heard(ev: Event, callback: bool): Event { if callback then ev else ev.(dropped := []) }

  /** The marks of the real buffer follow those of the abstract one. */
  lemma SetOn(a: Snap, s: Snap, b: Model, marks: Marks, k: Key, v: Val)
    requires Marked(a, marks) && a.cs == s.cs && b.w == a.cs - 4 > 0 && Seen(a) == b.entries && KeptBut(a, s, k)
    requires Seen(s) == Set(b, k, v).model.entries && Set(b, k, v).reply != Crash
    requires if Set(b, k, v).reply == Stored then Goes(HealthOf(a, k), Stale(b, k, v), v, HealthOf(s, k))
             else HealthOf(s, k) == HealthOf(a, k)
    ensures Marked(s, StepMarks(b, marks, KvRun.SetOp(k, v)))
  {
    hide Marked, Seen, HealthOf, Goes, KeptBut, Stale, KvSpec.Set;
    if Set(b, k, v).reply == Stored {
      SetMarked(a, s, b, marks, k, v);
    } else {
      forall x | Has(Seen(s), x) ensures HealthOf(s, x) == HealthOf(a, x) {
        SeenHas(s, x);
        if x != k { KeptHealth(a, s, k, x); }
      }
      SameMarked(a, s, b, marks, KvRun.SetOp(k, v));
    }
  }

  lemma GetOn(a: Snap, s: Snap, b: Model, marks: Marks, k: Key)
    requires Marked(a, marks) && a.cs == s.cs && b.w == a.cs - 4 > 0 && Seen(a) == b.entries
    requires Seen(s) == Get(b, k).model.entries && !KvRun.Step(b, KvRun.GetOp(k)).1.answer.Crashed()
    requires TornKeys(s) == TornKeys(a) && Chains(s) == Chains(a)
    ensures Marked(s, StepMarks(b, marks, KvRun.GetOp(k)))
  {
    hide Marked, Seen, TornKeys, Chains, GrownBy;
    SameMarked(a, s, b, marks, KvRun.GetOp(k));
  }

  lemma DelOn(a: Snap, s: Snap, b: Model, marks: Marks, k: Key)
    requires Marked(a, marks) && a.cs == s.cs && b.w == a.cs - 4 > 0 && Seen(a) == b.entries && KeptBut(a, s, k)
    requires Seen(s) == Del(b, k).model.entries && Del(b, k).reply != DelCrash
    ensures Marked(s, StepMarks(b, marks, KvRun.DelOp(k)))
  {
    hide Marked, Seen, HealthOf, KeptBut, KvSpec.Del;
    SnapFacts(a);
    forall x | Has(Seen(s), x) ensures HealthOf(s, x) == HealthOf(a, x) {
      SeenHas(s, x);
      var i :| 0 <= i < |Seen(s)| && Seen(s)[i].key == x;
      StepKeeps(b, KvRun.DelOp(k), Seen(s)[i]);
      KeptHealth(a, s, k, x);
    }
    SameMarked(a, s, b, marks, KvRun.DelOp(k));
  }

  /** Performs one operation. */
  method Perform(buf: KVBuffer, op: Op, ghost marks: Marks) returns (ev: Event)
    requires buf.Valid() && Storable(op)
    modifies buf`freeChunk, buf`s, buf.data, buf.lru
    ensures ev == Heard(KvRun.Step(old(buf.Abstract()), op).1, buf.onLruDel)
    ensures !ev.answer.Crashed() ==> buf.Valid() && buf.Abstract() == KvRun.Step(old(buf.Abstract()), op).0
    ensures !ev.answer.Crashed() && InSync(old(buf.s)) ==> (InSync(buf.s) <==> !MakesStale(old(buf.Abstract()), op))
    ensures !ev.answer.Crashed() && Marked(old(buf.s), marks) ==>
              Marked(buf.s, StepMarks(old(buf.Abstract()), marks, op))
  {
    hide KvSpec.Set, KvSpec.Get, KvSpec.Del, Stale, InSync, Seen, TornKeys, KeptBut, Chains, HealthOf, Goes, MemOf, Geometry;
    hide Marked, StepMarks;
    ghost var a, b := buf.s, buf.Abstract();
    match op
    case SetOp(k, v) =>
      var reply, calls := buf.Set(k, v);
      ev := KvRun.Event(op, KvRun.SetAns(reply), calls);
      if reply != Crash && Marked(a, marks) { SetOn(a, buf.s, b, marks, k, v); }
    case GetOp(k) =>
      var reply := buf.Get(k);
      ev := KvRun.Event(op, KvRun.GetAns(reply), []);
      if reply != GetCrash && Marked(a, marks) { GetOn(a, buf.s, b, marks, k); }
    case DelOp(k) =>
      var reply, calls := buf.Del(k);
      ev := KvRun.Event(op, KvRun.DelAns(reply), calls);
      if reply != DelCrash && Marked(a, marks) { DelOn(a, buf.s, b, marks, k); }
  }

  function HeardAll(log: seq<Event>, callback: bool): (r: seq<Event>)
    ensures |r| == |log| && forall i :: 0 <= i < |r| ==> r[i] == Heard(log[i], callback)
  {
    seq(|log|, i requires 0 <= i < |log| => Heard(log[i], callback))
  }

  lemma RunNone(b: Model, ops: seq<Op>)
    requires b.w > 0
    ensures KvRun.Run(b, ops[..0]) == KvRun.Outcome(b, [])
  {
  }

  lemma RunLast(b: Model, ops: seq<Op>, k: nat)
    requires b.w > 0 && |ops| == k + 1 && !KvRun.Run(b, ops[..k]).Crashed()
    ensures var r := KvRun.Run(b, ops[..k]);
            var s := KvRun.Step(r.model, ops[k]);
            KvRun.Run(b, ops) == KvRun.Outcome(s.0, r.log + [s.1])
  {
    hide KvRun.Step;
  }

  lemma RunMore(b: Model, ops: seq<Op>, i: nat)
    requires b.w > 0 && i < |ops| && !KvRun.Run(b, ops[..i]).Crashed()
    ensures var r := KvRun.Run(b, ops[..i]);
            var s := KvRun.Step(r.model, ops[i]);
            KvRun.Run(b, ops[..i + 1]) == KvRun.Outcome(s.0, r.log + [s.1])
  {
    hide KvRun.Step, KvRun.Run;
    assert ops[..i + 1][..i] == ops[..i];
    RunLast(b, ops[..i + 1], i);
  }

  /** Performs operations one after the other until one crashes: exactly the abstract run. */
  method Play(buf: KVBuffer, ops: seq<Op>, ghost marks: Marks) returns (log: seq<Event>)
    requires buf.Valid() && forall op :: op in ops ==> Storable(op)
    modifies buf`freeChunk, buf`s, buf.data, buf.lru
    ensures log == HeardAll(KvRun.Run(old(buf.Abstract()), ops).log, buf.onLruDel)
    ensures !KvRun.Run(old(buf.Abstract()), ops).Crashed() ==>
              buf.Valid() && buf.Abstract() == KvRun.Run(old(buf.Abstract()), ops).model
    ensures !KvRun.Run(old(buf.Abstract()), ops).Crashed() && Marked(old(buf.s), marks) ==>
              Marked(buf.s, RunMarks(old(buf.Abstract()), marks, ops))
  {
    hide KvRun.Run, KvRun.Step, InSync, Seen, KVBuffer.Agrees, Marked, StepMarks, RunMarks;
    ghost var b := buf.Abstract();
    log := [];
    RunNone(b, ops);
    MarksNone(b, marks, ops);
    for i := 0 to |ops|
      invariant log == HeardAll(KvRun.Run(b, ops[..i]).log, buf.onLruDel)
      invariant !KvRun.Run(b, ops[..i]).Crashed() && buf.Valid() && buf.Abstract() == KvRun.Run(b, ops[..i]).model
      invariant Marked(old(buf.s), marks) ==> Marked(buf.s, RunMarks(b, marks, ops[..i]))
    {
      RunMore(b, ops, i);
      MarksMore(b, marks, ops, i);
      var ev := Perform(buf, ops[i], RunMarks(b, marks, ops[..i]));
      log := log + [ev];
      if ev.answer.Crashed() {
        Stopped(b, ops, i + 1);
        return;
      }
    }
    assert ops[..|ops|] == ops;
  }

  /** A run that has crashed stays as it is. */
  lemma {:induction false} Stopped(b: Model, ops: seq<Op>, i: nat)
    requires b.w > 0 && i <= |ops| && KvRun.Run(b, ops[..i]).Crashed()
    ensures KvRun.Run(b, ops) == KvRun.Run(b, ops[..i])
    decreases |ops| - i
  {
    if i == |ops| {
      assert ops[..i] == ops;
    } else {
      assert ops[..i + 1][..i] == ops[..i];
      Stopped(b, ops, i + 1);
    }
  }

  /** The bytes of `buf`, followed by `extra`, in a new array: the file as the next process maps it. */
  method Remap(buf: KVBuffer, extra: seq<byte>) returns (data: array<byte>)
    ensures fresh(data) && data[..] == buf.data[..] + extra
  {
    var image := buf.data[..] + extra;
    data := new byte[|image|](i requires 0 <= i < |image| => image[i]);
  }

  /** Starts again over the image a buffer has left, possibly with more room behind it. */
  method Restart(buf: KVBuffer, extra: seq<byte>, openLru: bool, onLruDel: bool) returns (r: OpenResult)
    requires NewBuffer(buf, buf.data, buf.cs, buf.openLru, buf.onLruDel)
    requires 1024 <= buf.data.Length && buf.data.Length + |extra| < TWO32
    ensures r.Opened? && fresh(r.buf) && fresh(r.buf.data) && fresh(r.buf.lru) && NewBuffer(r.buf, r.buf.data, buf.cs, openLru, onLruDel)
    ensures r.buf.data.Length == buf.data.Length + |extra| && Reopened(r.buf, buf.s)
  {
    hide MemOf, InSync, Seen, Whole, HeaderOf, Reopened;
    AtRest(buf);
    var data := Remap(buf, extra);
    SavedIn(buf.s, buf.data[..], data[..]);
    SavedHeader(buf.s, data[..], buf.data.Length);
    r := Open(data, buf.cs, openLru, onLruDel, Some(buf.s));
  }

  /**
   A run of operations that leaves no mark, and then a restart in either mode: the new buffer holds the map the run has left, and every chunk is free or paid for by an
   entry. With eviction its free chunks are those that were free and the new ones.
   */
  method PlayAndRestart(buf: KVBuffer, ops: seq<Op>, extra: seq<byte>, openLru: bool, onLruDel: bool) returns (r: OpenResult)
    requires NewBuffer(buf, buf.data, buf.cs, buf.openLru, buf.onLruDel)
    requires 1024 <= buf.data.Length && buf.data.Length + |extra| < TWO32
    requires forall op :: op in ops ==> Storable(op)
    requires !KvRun.Run(buf.Abstract(), ops).Crashed() && RunMarks(buf.Abstract(), map[], ops) == map[]
    modifies buf`freeChunk, buf`s, buf.data, buf.lru
    ensures r.Opened? && NewBuffer(r.buf, r.buf.data, buf.cs, openLru, onLruDel)
    ensures AsMap(r.buf.Abstract().entries) == AsMap(KvRun.Run(old(buf.Abstract()), ops).model.entries)
    ensures buf.n <= r.buf.n && |r.buf.freeChunk| + Total(buf.cs - 4, r.buf.Abstract().entries) == r.buf.n
    ensures buf.openLru ==> r.buf.freeChunk == buf.freeChunk + Upto(buf.n, r.buf.n)
  {
    hide KvRun.Run, MemOf, InSync, Seen, Whole, HeaderOf, FreeList, Upto, RunMarks, AsMap, Total, Marked;
    SnapFacts(buf.s);
    MarkedNone(buf.s);
    var log := Play(buf, ops, map[]);
    SnapFacts(buf.s);
    MarkedNone(buf.s);
    r := Restart(buf, extra, openLru, onLruDel);
    SnapFacts(buf.s);
    if buf.openLru { SameFree(buf.s); }
  }
}
