/**
 Which chains are torn after a run, told from the abstract run alone. A mark says of a key that its chain has been torn
 by growing, or that it has been torn by shrinking and may dangle since; a key without a mark follows its links.
 */
module KvMarks {
  import opened KvLru
  import opened KvSpec
  import opened KvState
  import opened KvSnap
  import opened KvTheorems
  import opened KvRun

  type Marks = map<Key, Health>

  /** The operation puts a node into the image whose links are stale. */
  predicate MakesStale(b: Model, op: Op)
    requires b.w > 0
  {
    op.SetOp? && Stale(b, op.key, op.val) && Set(b, op.key, op.val).reply == Stored
  }

  function MarkOf(marks: Marks, k: Key): Health { if k in marks then marks[k] else Linking }

  /** The mark of a key after a value has been stored. */
  function MarkAfter(h: Health, stale: bool, val: Val): Health
  {
    match h
    case Linking => if !stale then Linking else if val != [] then Grown else Dangling
    case Grown => if val == [] then Linking else Grown
    case Dangling => Dangling
  }

  /** The marks after an operation; a key that is deleted or evicted loses its mark. */
  function StepMarks(b: Model, marks: Marks, op: Op): Marks
    requires b.w > 0
  {
    match op
    case SetOp(k, v) =>
      var r := Set(b, k, v);
      if r.reply != Stored then marks
      else
        var kept := map x | x in marks && x != k && Has(r.model.entries, x) :: marks[x];
        var h := MarkAfter(MarkOf(marks, k), Stale(b, k, v), v);
        if h == Linking then kept else kept[k := h]
    case GetOp(_) => marks
    case DelOp(k) => map x | x in marks && x != k :: marks[x]
  }

  function RunMarks(b: Model, marks: Marks, ops: seq<Op>): Marks
    requires b.w > 0
    decreases |ops|
  {
    if ops == [] then marks
    else
      var k := |ops| - 1;
      StepMarks(Run(b, ops[..k]).model, RunMarks(b, marks, ops[..k]), ops[k])
  }

  /** A mark is exact, except that a chain marked as dangling may be whole again while its value is not empty. */
  predicate MarkFits(h: Health, mark: Health, val: Val)
  {
    match mark
    case Linking => h == Linking
    case Grown => h == Grown
    case Dangling => h == Dangling || (h == Linking && val != [])
  }

  /** The marks tell the health of every chain; only present keys that fill their chunks have one. */
  ghost predicate Marked(s: Snap, marks: Marks)
  {
    && 5 <= s.cs
    && (forall i :: 0 <= i < |Seen(s)| ==> MarkFits(HealthOf(s, Seen(s)[i].key), MarkOf(marks, Seen(s)[i].key), Seen(s)[i].value))
    && (forall k :: k in marks ==> marks[k] != Linking && Has(Seen(s), k) && WholeChunks(s.cs - 4, 8 + |k|))
  }

  /** Without marks image and index agree, and the other way round. */
  lemma MarkedNone(s: Snap)
    requires 5 <= s.cs
    ensures Marked(s, map[]) <==> InSync(s)
  {
    hide Seen, InSync, TornKeys, GrownKeys;
    InSyncIff(s);
    if Marked(s, map[]) {
      forall k | k in TornKeys(s) ensures false {
        TornHas(s, k);
        SeenHas(s, k);
      }
    }
  }

  /** Entries that were there before and have kept their health and their mark. */
  ghost predicate Carried(a: Snap, s: Snap, marks: Marks, marks': Marks, k: Key)
  {
    forall i :: 0 <= i < |Seen(s)| && Seen(s)[i].key != k ==>
      && Seen(s)[i] in Seen(a) && HealthOf(s, Seen(s)[i].key) == HealthOf(a, Seen(s)[i].key)
      && MarkOf(marks', Seen(s)[i].key) == MarkOf(marks, Seen(s)[i].key)
  }

  lemma MarkedOn(a: Snap, s: Snap, marks: Marks, marks': Marks, k: Key)
    requires Marked(a, marks) && s.cs == a.cs && Carried(a, s, marks, marks', k)
    requires forall i :: 0 <= i < |Seen(s)| && Seen(s)[i].key == k ==> MarkFits(HealthOf(s, k), MarkOf(marks', k), Seen(s)[i].value)
    requires forall x :: x in marks' ==> marks'[x] != Linking && Has(Seen(s), x) && WholeChunks(s.cs - 4, 8 + |x|)
    ensures Marked(s, marks')
  {
    hide Seen, HealthOf, MarkOf, MarkFits, Has, WholeChunks;
    forall i | 0 <= i < |Seen(s)| ensures MarkFits(HealthOf(s, Seen(s)[i].key), MarkOf(marks', Seen(s)[i].key), Seen(s)[i].value) {
      if Seen(s)[i].key != k {
        var j :| 0 <= j < |Seen(a)| && Seen(a)[j] == Seen(s)[i];
      }
    }
  }

  /** An entry that has kept its chain has kept its health. */
  lemma KeptHealth(a: Snap, s: Snap, key: Key, k: Key)
    requires KeptBut(a, s, key) && a.cs == s.cs && k != key && Has(s.es, k)
    ensures HealthOf(s, k) == HealthOf(a, k)
  {
    hide TornKeys, GrownBy, Words;
    SnapFacts(a);
    if k in GrownKeys(s) {
      var p :| p in Chains(s) && GrownBy(s.cs, p.0, p.1) && p.0.key == k;
      assert p in Chains(a);
    }
    if k in GrownKeys(a) {
      var p :| p in Chains(a) && GrownBy(a.cs, p.0, p.1) && p.0.key == k;
      var i :| 0 <= i < |s.es| && s.es[i].key == k;
      ChainIn(s, i);
      SameChain(a, p, (s.es[i], Words(s.m, s.es[i].value.chunks)));
    }
  }

  lemma SameChain(a: Snap, p: (Item, seq<nat>), q: (Item, seq<nat>))
    requires p in Chains(a) && q in Chains(a) && p.0.key == q.0.key
    ensures p == q
  {
    hide Words;
    SnapFacts(a);
    var i :| 0 <= i < |a.es| && a.es[i] == p.0;
    var j :| 0 <= j < |a.es| && a.es[j] == q.0;
  }

  // ---- one operation

  /** What an operation leaves of the entries was there before, but for the entry it stores. */
  lemma StepKeeps(b: Model, op: Op, p: Pair)
    requires b.w > 0 && Distinct(b.entries) && !Step(b, op).1.answer.Crashed() && p in Step(b, op).0.entries
    ensures (op.SetOp? && Set(b, op.key, op.val).reply == Stored && p == Entry(op.key, op.val)) || p in b.entries
    ensures op.DelOp? ==> p.key != op.key
    ensures op.SetOp? && Set(b, op.key, op.val).reply == Stored && p.key == op.key ==> p == Entry(op.key, op.val)
  {
    hide Evict, Without, ChunksFor, Corner;
    var k := op.key;
    WithoutKeeps(b.entries, k);
    if Has(b.entries, k) {
      var i := IndexOf(b.entries, k);
      assert b.entries[i] == Entry(k, Lookup(b.entries, k));
    } else {
      WithoutMiss(b.entries, k);
    }
    if op.SetOp? {
      var r := Evict(b.w, b.callback, Without(b.entries, k), b.free + Mine(b, k), ChunksFor(b.w, 8 + |k| + |op.val|));
      EvictPrefix(b.w, b.callback, Without(b.entries, k), b.free + Mine(b, k), ChunksFor(b.w, 8 + |k| + |op.val|));
      assert forall x :: x in r.entries ==> x in Without(b.entries, k);
    }
  }

  /** The health of a key goes on as its mark does. */
  lemma GoesOnMark(b: Model, k: Key, v: Val, u: Val, h: Health, h': Health, mark: Health)
    requires b.w > 0 && MarkFits(h, mark, u) && Goes(h, Stale(b, k, v), v, h')
    requires Stale(b, k, v) <==> WholeChunks(b.w, 8 + |k|) && (u == []) != (v == [])
    requires mark != Linking ==> WholeChunks(b.w, 8 + |k|)
    ensures MarkFits(h', MarkAfter(mark, Stale(b, k, v), v), v)
  {
    hide Stale, WholeChunks;
  }

  lemma SetMarkFits(a: Snap, b: Model, marks: Marks, k: Key, v: Val, h': Health)
    requires Marked(a, marks) && b.w == a.cs - 4 && Seen(a) == b.entries && Goes(HealthOf(a, k), Stale(b, k, v), v, h')
    ensures MarkFits(h', MarkAfter(MarkOf(marks, k), Stale(b, k, v), v), v)
    ensures MarkAfter(MarkOf(marks, k), Stale(b, k, v), v) != Linking ==> WholeChunks(b.w, 8 + |k|)
  {
    hide Seen, TornKeys, GrownKeys, WholeChunks, Goes, MarkFits;
    SnapFacts(a);
    SeenHas(a, k);
    if Has(b.entries, k) {
      var i := IndexOf(b.entries, k);
      GoesOnMark(b, k, v, Seen(a)[i].value, HealthOf(a, k), h', MarkOf(marks, k));
    } else {
      NotTorn(a, k);
      GoesNew(k, v, h', HealthOf(a, k));
    }
  }

  lemma GoesNew(k: Key, v: Val, h': Health, h: Health)
    requires h == Linking && Goes(h, false, v, h')
    ensures MarkFits(h', MarkAfter(Linking, false, v), v)
  {
  }

  lemma SetMarked(a: Snap, s: Snap, b: Model, marks: Marks, k: Key, v: Val)
    requires Marked(a, marks) && a.cs == s.cs && b.w == a.cs - 4 && Seen(a) == b.entries
    requires Seen(s) == Set(b, k, v).model.entries && KeptBut(a, s, k) && Set(b, k, v).reply == Stored
    requires Goes(HealthOf(a, k), Stale(b, k, v), v, HealthOf(s, k))
    ensures Marked(s, StepMarks(b, marks, SetOp(k, v)))
  {
    hide Seen, HealthOf, WholeChunks, Goes, MarkFits, KvSpec.Set, Stale, MarkAfter, KeptBut;
    SnapFacts(a);
    var marks' := StepMarks(b, marks, SetOp(k, v));
    SetMarkFits(a, b, marks, k, v, HealthOf(s, k));
    forall i | 0 <= i < |Seen(s)|
      ensures Seen(s)[i].key != k ==>
                && Seen(s)[i] in Seen(a) && HealthOf(s, Seen(s)[i].key) == HealthOf(a, Seen(s)[i].key)
                && MarkOf(marks', Seen(s)[i].key) == MarkOf(marks, Seen(s)[i].key)
      ensures Seen(s)[i].key == k ==> Seen(s)[i].value == v
    {
      StepKeeps(b, SetOp(k, v), Seen(s)[i]);
      if Seen(s)[i].key != k {
        SeenHas(s, Seen(s)[i].key);
        KeptHealth(a, s, k, Seen(s)[i].key);
      }
    }
    HasStored(b, k, v);
    MarkedOn(a, s, marks, marks', k);
  }

  lemma HasStored(b: Model, k: Key, v: Val)
    requires b.w > 0 && Set(b, k, v).reply == Stored
    ensures Has(Set(b, k, v).model.entries, k)
  {
    hide Evict, Without, ChunksFor;
    assert Set(b, k, v).model.entries[0].key == k;
  }

  /** Operations that store nothing: the entries that are left have their health and their marks. */
  lemma SameMarked(a: Snap, s: Snap, b: Model, marks: Marks, op: Op)
    requires Marked(a, marks) && a.cs == s.cs && b.w == a.cs - 4 && Seen(a) == b.entries && Seen(s) == Step(b, op).0.entries
    requires !Step(b, op).1.answer.Crashed() && (op.SetOp? ==> Set(b, op.key, op.val).reply != Stored)
    requires forall k :: Has(Seen(s), k) ==> HealthOf(s, k) == HealthOf(a, k)
    ensures Marked(s, StepMarks(b, marks, op))
  {
    hide Seen, HealthOf, WholeChunks, MarkFits, Step, Has;
    SnapFacts(a);
    var marks' := StepMarks(b, marks, op);
    forall i | 0 <= i < |Seen(s)|
      ensures Seen(s)[i] in Seen(a) && HealthOf(s, Seen(s)[i].key) == HealthOf(a, Seen(s)[i].key)
      ensures MarkOf(marks', Seen(s)[i].key) == MarkOf(marks, Seen(s)[i].key)
      ensures Has(Seen(s), Seen(s)[i].key)
    {
      StepKeeps(b, op, Seen(s)[i]);
      HasAt(Seen(s), i);
    }
    forall x | x in marks' ensures Has(Seen(s), x) { StepHas(b, op, x); }
    forall i | 0 <= i < |Seen(s)|
      ensures MarkFits(HealthOf(s, Seen(s)[i].key), MarkOf(marks', Seen(s)[i].key), Seen(s)[i].value)
    {
      var j :| 0 <= j < |Seen(a)| && Seen(a)[j] == Seen(s)[i];
    }
  }

  lemma HasAt(es: seq<Pair>, i: nat)
    requires i < |es|
    ensures Has(es, es[i].key)
  {
  }

  /** Such an operation loses no key but the one it deletes. */
  lemma StepHas(b: Model, op: Op, x: Key)
    requires b.w > 0 && Distinct(b.entries) && Has(b.entries, x) && (op.DelOp? ==> x != op.key)
    requires !Step(b, op).1.answer.Crashed() && (op.SetOp? ==> Set(b, op.key, op.val).reply != Stored)
    ensures Has(Step(b, op).0.entries, x)
  {
    hide Evict, ChunksFor, Without;
    var k := op.key;
    WithoutKeeps(b.entries, k);
    var i :| 0 <= i < |b.entries| && b.entries[i].key == x;
    var moved := if Has(b.entries, k) then [Entry(k, Lookup(b.entries, k))] + Without(b.entries, k) else b.entries;
    if x != k && Has(b.entries, k) {
      assert b.entries[i] in Without(b.entries, k);
      MemberHas(Without(b.entries, k), b.entries[i]);
      MemberHas(moved, b.entries[i]);
    } else if Has(b.entries, k) {
      assert moved[0].key == k;
    }
  }

  lemma MemberHas(es: seq<Pair>, p: Pair)
    requires p in es
    ensures Has(es, p.key)
  {
    var i :| 0 <= i < |es| && es[i] == p;
  }

  // ---- runs

  lemma MarksNone(b: Model, marks: Marks, ops: seq<Op>)
    requires b.w > 0
    ensures RunMarks(b, marks, ops[..0]) == marks
  {
  }

  lemma MarksMore(b: Model, marks: Marks, ops: seq<Op>, i: nat)
    requires b.w > 0 && i < |ops|
    ensures RunMarks(b, marks, ops[..i + 1]) == StepMarks(Run(b, ops[..i]).model, RunMarks(b, marks, ops[..i]), ops[i])
  {
    hide Run, StepMarks;
    assert ops[..i + 1][..i] == ops[..i];
  }

  /** A run without stale updates leaves no mark. */
  lemma {:induction false} NoMarks(b: Model, ops: seq<Op>)
    requires b.w > 0 && forall i :: 0 <= i < |ops| ==> !MakesStale(Run(b, ops[..i]).model, ops[i])
    ensures RunMarks(b, map[], ops) == map[]
    decreases |ops|
  {
    hide Run;
    if ops != [] {
      var k := |ops| - 1;
      forall i | 0 <= i < k ensures !MakesStale(Run(b, ops[..k][..i]).model, ops[..k][i]) {
        assert ops[..k][..i] == ops[..i];
      }
      NoMarks(b, ops[..k]);
      NoneAdded(Run(b, ops[..k]).model, ops[k]);
    }
  }

  lemma NoneAdded(b: Model, op: Op)
    requires b.w > 0 && !MakesStale(b, op)
    ensures StepMarks(b, map[], op) == map[]
  {
    hide KvSpec.Set, Stale;
  }
}
