/**
 Round trip and compatibility. Decoding an encoded value into a zero target of a schema it can evolve to gives
 the projection onto the shared fields; into its own schema, the value itself.
 */
module SpbTheorems {
  import opened Bytes
  import opened SpbWire
  import opened SpbValue
  import opened SpbCodec
  import opened SpbSkip
  import opened SpbCoerce

  /** A reader with schema `t'` may read what was written with `t`: fields with the same tag evolve in turn. */
  predicate Evolves(t: Ty, t': Ty)
    decreases t
  {
    match t
    case TVec(e) => t'.TVec? && Evolves(e, t'.elem)
    case TMap(k, e) => t'.TMap? && k == t'.key && Evolves(k, k) && Evolves(e, t'.val)
    case TStruct(fs) =>
      && t'.TStruct? && DistinctTags(fs) && DistinctTags(t'.fields)
      && forall i, j {:trigger fs[i], t'.fields[j]} :: 0 <= i < |fs| && 0 <= j < |t'.fields| ==>
           TagOf(fs, i) == TagOf(t'.fields, j) ==> Evolves(fs[i].ty, t'.fields[j].ty)
    case _ => t' == t
  }

  /** What a reader with schema `t'` should see: shared fields by tag, zero values elsewhere. */
  function Project(t: Ty, v: Value, t': Ty): (r: Value)
    requires Typed(v, t) && Evolves(t, t')
    decreases v
  {
    match t
    case TVec(e) => VVec(seq(|v.elems|, i requires 0 <= i < |v.elems| => Project(e, v.elems[i], t'.elem)))
    case TMap(k, e) =>
      VMap(seq(|v.pairs|, i requires 0 <= i < |v.pairs| => Pair(v.pairs[i].key, Project(e, v.pairs[i].val, t'.val))))
    case TStruct(fs) =>
      VStruct(seq(|t'.fields|, j requires 0 <= j < |t'.fields| => ProjectField(fs, v.fields, t'.fields, j)))
    case _ => v
  }

  /** Field `j` of the reader. */
  function ProjectField(fs: seq<Field>, vs: seq<Value>, fs': seq<Field>, j: nat): (r: Value)
    requires FieldsTyped(vs, fs) && Evolves(TStruct(fs), TStruct(fs')) && j < |fs'|
    decreases vs
  {
    var i := FindField(fs, TagOf(fs', j));
    if i.None? then Zero(fs'[j].ty)
    else
      FieldTyped(vs, fs, i.value);
      Project(fs[i.value].ty, vs[i.value], fs'[j].ty)
  }

  /** A value that may be left out projects to the zero value. */
  lemma EmptyProjects(t: Ty, v: Value, t': Ty)
    requires Typed(v, t) && Evolves(t, t') && Empty(v)
    ensures Project(t, v, t') == Zero(t')
  {
  }

  /** A list of pairs with distinct keys is its own map. */
  lemma {:induction false} MapSame(ps: seq<Pair>)
    requires DistinctKeys(ps)
    ensures MapOf(ps) == ps
    decreases |ps|
  {
    if ps != [] {
      var k := |ps| - 1;
      MapSame(ps[..k]);
      assert ps == ps[..k] + [ps[k]];
    }
  }

  /** Storing a value into a zero target of an evolved schema is the projection. */
  lemma {:induction false} CoerceProjects(t: Ty, v: Value, t': Ty)
    requires Typed(v, t) && Evolves(t, t')
    ensures Typed(Zero(t'), t') && Coerce(t, v, Some(t'), Zero(t')) == Project(t, v, t')
    decreases v, 1
  {
    ZeroTyped(t');
    match t
    case TStr =>
    case TVec(e) => ElemsProject(e, v.elems, t'.elem);
    case TMap(k, e) => MapProjects(k, e, v, t'.val);
    case TStruct(fs) => StructProjects(fs, v.fields, t'.fields);
    case _ => ScalarSame(t, v, Zero(t'));
  }

  lemma {:induction false} ElemsProject(e: Ty, vs: seq<Value>, e': Ty)
    requires (forall i :: 0 <= i < |vs| ==> Typed(vs[i], e)) && Evolves(e, e')
    ensures forall i :: 0 <= i < |vs| ==> CoerceElems(e, vs, e')[i] == Project(e, vs[i], e')
    decreases vs
  {
    hide Coerce, Project;
    if vs != [] {
      CoerceProjects(e, vs[0], e');
      ElemsProject(e, vs[1..], e');
      var r, more := CoerceElems(e, vs, e'), CoerceElems(e, vs[1..], e');
      forall i | 0 <= i < |vs| ensures r[i] == Project(e, vs[i], e') {
        if i > 0 { assert r[i] == more[i - 1] && vs[i] == vs[1..][i - 1]; }
      }
    }
  }

  lemma {:induction false} PairProjects(k: Ty, e: Ty, p: Pair, e': Ty)
    requires Typed(p.key, k) && Typed(p.val, e) && Evolves(k, k) && Evolves(e, e')
    ensures CoercePair(k, e, p, k, e') == Pair(p.key, Project(e, p.val, e'))
    decreases p
  {
    hide Coerce, Project;
    CoerceProjects(k, p.key, k);
    SelfProject(k, p.key);
    CoerceProjects(e, p.val, e');
  }

  lemma {:induction false} PairsProject(k: Ty, e: Ty, ps: seq<Pair>, e': Ty)
    requires (forall i :: 0 <= i < |ps| ==> Typed(ps[i].key, k) && Typed(ps[i].val, e)) && Evolves(k, k) && Evolves(e, e')
    ensures forall i :: 0 <= i < |ps| ==> CoercePairs(k, e, ps, k, e')[i] == Pair(ps[i].key, Project(e, ps[i].val, e'))
    decreases ps
  {
    hide CoercePair, Project, Typed, Evolves;
    if ps != [] {
      PairProjects(k, e, ps[0], e');
      PairsProject(k, e, ps[1..], e');
      var r, more := CoercePairs(k, e, ps, k, e'), CoercePairs(k, e, ps[1..], k, e');
      forall i | 0 <= i < |ps| ensures r[i] == Pair(ps[i].key, Project(e, ps[i].val, e')) {
        if i > 0 { assert r[i] == more[i - 1] && ps[i] == ps[1..][i - 1]; }
      }
    }
  }

  lemma {:induction false} MapProjects(k: Ty, e: Ty, v: Value, e': Ty)
    requires Typed(v, TMap(k, e)) && Evolves(k, k) && Evolves(e, e')
    ensures VMap(MapOf(CoercePairs(k, e, v.pairs, k, e'))) == Project(TMap(k, e), v, TMap(k, e'))
    decreases v, 0
  {
    hide CoercePairs, MapOf;
    PairsProject(k, e, v.pairs, e');
    var ps := CoercePairs(k, e, v.pairs, k, e');
    MapSame(ps);
    assert ps == Project(TMap(k, e), v, TMap(k, e')).pairs;
  }

  lemma {:induction false} StructProjects(fs: seq<Field>, vs: seq<Value>, fs': seq<Field>)
    requires FieldsTyped(vs, fs) && Evolves(TStruct(fs), TStruct(fs'))
    ensures FieldsTyped(Zero(TStruct(fs')).fields, fs') && |Zero(TStruct(fs')).fields| == |fs'|
    ensures |CoerceFields(fs, vs, 0, fs', Zero(TStruct(fs')).fields)| == |fs'|
    ensures forall j :: 0 <= j < |fs'| ==>
              CoerceFields(fs, vs, 0, fs', Zero(TStruct(fs')).fields)[j] == ProjectField(fs, vs, fs', j)
    decreases vs, 1
  {
    hide CoerceFields, ProjectField, Evolves;
    ZeroTyped(TStruct(fs'));
    var xs := Zero(TStruct(fs')).fields;
    StructSize(CoerceFields(fs, vs, 0, fs', xs), fs');
    assert vs[0..] == vs;
    forall j | 0 <= j < |fs'| ensures CoerceFields(fs, vs, 0, fs', xs)[j] == ProjectField(fs, vs, fs', j) {
      FieldsProject(fs, vs, vs, 0, fs', xs, j);
    }
  }

  /** Field `j` after the fields from `i` on have been stored: still as it was if its writer comes before `i`. */
  lemma {:induction false} FieldsProject(fs: seq<Field>, all: seq<Value>, vs: seq<Value>, i: nat, fs': seq<Field>,
                                         xs: seq<Value>, j: nat)
    requires FieldsTyped(all, fs) && Evolves(TStruct(fs), TStruct(fs')) && j < |fs'| && FieldsTyped(xs, fs')
    requires i <= |all| && vs == all[i..] && RestTyped(fs, vs, i) && |xs| == |fs'|
    requires var w := FindField(fs, TagOf(fs', j)); (w.None? || w.value >= i) ==> xs[j] == Zero(fs'[j].ty)
    ensures |CoerceFields(fs, vs, i, fs', xs)| == |fs'|
    ensures var w := FindField(fs, TagOf(fs', j));
            CoerceFields(fs, vs, i, fs', xs)[j] == if w.None? || w.value >= i then ProjectField(fs, all, fs', j) else xs[j]
    decreases vs, 0
  {
    hide CoerceField, Project, FindField, FieldsTyped, RestTyped, Zero;
    StructSize(all, fs);
    if vs == [] {
      assert i == |fs|;
    } else {
      RestSplit(fs, vs, i);
      var f, v := fs[i], vs[0];
      var absent := Empty(v) && !f.require;
      var xs' := if absent then xs else CoerceField(f.ty, v, FindField(fs', TagOf(fs, i)), fs', xs);
      StructSize(xs', fs');
      FieldStep(fs, all, i, fs', xs, xs', j);
      assert vs[1..] == all[i + 1..];
      FieldsProject(fs, all, vs[1..], i + 1, fs', xs', j);
    }
  }

  /** One field is stored where it belongs and nowhere else. */
  lemma {:induction false} FieldStep(fs: seq<Field>, all: seq<Value>, i: nat, fs': seq<Field>, xs: seq<Value>,
                                     xs': seq<Value>, j: nat)
    requires FieldsTyped(all, fs) && Evolves(TStruct(fs), TStruct(fs')) && i < |fs| == |all| && j < |fs'|
    requires FieldsTyped(xs, fs') && |xs| == |fs'| && Typed(all[i], fs[i].ty)
    requires xs' == if Empty(all[i]) && !fs[i].require then xs
                    else CoerceField(fs[i].ty, all[i], FindField(fs', TagOf(fs, i)), fs', xs)
    requires var w := FindField(fs, TagOf(fs', j)); (w.None? || w.value >= i) ==> xs[j] == Zero(fs'[j].ty)
    ensures |xs'| == |fs'|
    ensures var w := FindField(fs, TagOf(fs', j));
            xs'[j] == if w == Some(i) then ProjectField(fs, all, fs', j) else xs[j]
    decreases all[i], 2
  {
    hide Project, Coerce, Zero;
    FindIs(fs, i);
    var w := FindField(fs, TagOf(fs', j));
    if w == Some(i) {
      FindIs(fs', j);
      assert Evolves(fs[i].ty, fs'[j].ty);
      if Empty(all[i]) && !fs[i].require {
        EmptyProjects(fs[i].ty, all[i], fs'[j].ty);
      } else {
        CoerceProjects(fs[i].ty, all[i], fs'[j].ty);
      }
    }
  }

  // ---- a schema read with itself

  lemma {:induction false} SelfProject(t: Ty, v: Value)
    requires Typed(v, t) && Evolves(t, t)
    ensures Project(t, v, t) == v
    decreases v
  {
    match t
    case TVec(e) =>
      forall i | 0 <= i < |v.elems| ensures Project(e, v.elems[i], e) == v.elems[i] { SelfProject(e, v.elems[i]); }
    case TMap(k, e) =>
      forall i | 0 <= i < |v.pairs| ensures Project(e, v.pairs[i].val, e) == v.pairs[i].val { SelfProject(e, v.pairs[i].val); }
    case TStruct(fs) =>
      forall j | 0 <= j < |fs| ensures ProjectField(fs, v.fields, fs, j) == v.fields[j] {
        FindIs(fs, j);
        FieldTyped(v.fields, fs, j);
        SelfProject(fs[j].ty, v.fields[j]);
      }
    case _ =>
  }

  /** Tags are distinct in every struct of the schema. */
  predicate WellTagged(t: Ty)
    decreases t
  {
    match t
    case TVec(e) => WellTagged(e)
    case TMap(k, e) => WellTagged(k) && WellTagged(e)
    case TStruct(fs) => DistinctTags(fs) && forall i :: 0 <= i < |fs| ==> WellTagged(fs[i].ty)
    case _ => true
  }

  lemma {:induction false} SelfEvolves(t: Ty)
    ensures Evolves(t, t) <==> WellTagged(t)
    decreases t
  {
    match t
    case TVec(e) => SelfEvolves(e);
    case TMap(k, e) => SelfEvolves(k); SelfEvolves(e);
    case TStruct(fs) =>
      forall i | 0 <= i < |fs| ensures Evolves(fs[i].ty, fs[i].ty) <==> WellTagged(fs[i].ty) { SelfEvolves(fs[i].ty); }
      if Evolves(t, t) {
        forall i | 0 <= i < |fs| ensures WellTagged(fs[i].ty) { assert TagOf(fs, i) == TagOf(fs, i); }
      }
    case _ =>
  }

  // ---- the two entry points

  /** `SpbEncode`. */
  function SpbEncode(t: Ty, v: Value): seq<byte>
    requires Typed(v, t)
  {
    Encode(t, 0, v, true)
  }

  /** `SpbDecode` into `x`. */
  function SpbDecode(t: Ty, x: Value, data: seq<byte>): Result
    requires Typed(x, t)
  {
    Unpack(t, x, data, |data|)
  }

  /** Decoding an encoded value gives it back and leaves exactly what follows it. */
  lemma RoundTrip(t: Ty, v: Value, tail: seq<byte>)
    requires Typed(v, t) && WellTagged(t) && WireOk(t) && |SpbEncode(t, v)| + |tail| < TWO63
    ensures Typed(Zero(t), t) && SpbDecode(t, Zero(t), SpbEncode(t, v) + tail) == Result(v, tail, Fine)
  {
    hide Encode, Unpack, Coerce, Project;
    SelfEvolves(t);
    CoerceProjects(t, v, t);
    SelfProject(t, v);
    DecodeEncoded(t, 0, v, t, Zero(t), tail, |SpbEncode(t, v) + tail|);
  }

  /** A reader whose schema lacks fields, or has new ones, sees the shared fields and zero values elsewhere. */
  lemma ForwardCompatible(t: Ty, v: Value, t': Ty, tail: seq<byte>)
    requires Typed(v, t) && Evolves(t, t') && WireOk(t) && |SpbEncode(t, v)| + |tail| < TWO63
    ensures Typed(Zero(t'), t') && SpbDecode(t', Zero(t'), SpbEncode(t, v) + tail) == Result(Project(t, v, t'), tail, Fine)
  {
    hide Encode, Unpack, Coerce, Project;
    CoerceProjects(t, v, t');
    DecodeEncoded(t, 0, v, t', Zero(t'), tail, |SpbEncode(t, v) + tail|);
  }
}
