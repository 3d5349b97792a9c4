/**
 What decoding makes of an encoded value, for every schema it was written with and every target it is read
 into: `Coerce` says it value by value, and decoding does exactly that and consumes exactly those bytes.
 */
module SpbCoerce {
  import opened Bytes
  import opened SpbWire
  import opened SpbValue
  import opened SpbCodec
  import opened SpbSkip

  /** The value `v` of schema `t`, read into the target `x` of schema `t'`; without a target it is skipped. */
  function Coerce(t: Ty, v: Value, t': Option<Ty>, x: Value): (r: Value)
    requires Typed(v, t) && Fits(x, t')
    ensures Fits(r, t')
    decreases v, 0
  {
    if t'.None? then x
    else match t
      case TStr => if t'.value.TStr? then v else x
      case TVec(e) => if t'.value.TVec? then VVec(CoerceElems(e, v.elems, t'.value.elem)) else x
      case TMap(k, e) =>
        if t'.value.TMap? then
          var ps := CoercePairs(k, e, v.pairs, t'.value.key, t'.value.val);
          MapDistinct(ps);
          MapTyped(ps, t'.value.key, t'.value.val);
          VMap(MapOf(ps))
        else x
      case TStruct(fs) =>
        if t'.value.TStruct? then VStruct(CoerceFields(fs, v.fields, 0, t'.value.fields, x.fields)) else x
      case _ =>
        var n := NumberFor(v, t);
        if n.0 == 0 then SetPositive(t'.value, x, n.1) else SetNegative(t'.value, x, n.1)
  }

  function CoerceElems(e: Ty, vs: seq<Value>, e': Ty): (r: seq<Value>)
    requires forall i :: 0 <= i < |vs| ==> Typed(vs[i], e)
    ensures |r| == |vs| && forall i :: 0 <= i < |r| ==> Typed(r[i], e')
    decreases vs
  {
    if vs == [] then []
    else
      ZeroTyped(e');
      [Coerce(e, vs[0], Some(e'), Zero(e'))] + CoerceElems(e, vs[1..], e')
  }

  function CoercePair(k: Ty, e: Ty, p: Pair, k': Ty, e': Ty): (r: Pair)
    requires Typed(p.key, k) && Typed(p.val, e)
    ensures Typed(r.key, k') && Typed(r.val, e')
    decreases p
  {
    ZeroTyped(k');
    ZeroTyped(e');
    Pair(Coerce(k, p.key, Some(k'), Zero(k')), Coerce(e, p.val, Some(e'), Zero(e')))
  }

  function CoercePairs(k: Ty, e: Ty, ps: seq<Pair>, k': Ty, e': Ty): (r: seq<Pair>)
    requires forall i :: 0 <= i < |ps| ==> Typed(ps[i].key, k) && Typed(ps[i].val, e)
    ensures |r| == |ps| && PairsTyped(r, k', e')
    decreases ps
  {
    if ps == [] then [] else [CoercePair(k, e, ps[0], k', e')] + CoercePairs(k, e, ps[1..], k', e')
  }

  /** The fields from `i` on, stored one after the other into the target's fields. */
  function CoerceFields(fs: seq<Field>, vs: seq<Value>, i: nat, fs': seq<Field>, xs: seq<Value>): (r: seq<Value>)
    requires RestTyped(fs, vs, i) && FieldsTyped(xs, fs')
    ensures FieldsTyped(r, fs')
    decreases vs
  {
    if vs == [] then xs
    else
      RestSplit(fs, vs, i);
      var xs' := if Empty(vs[0]) && !fs[i].require then xs
                 else CoerceField(fs[i].ty, vs[0], FindField(fs', TagOf(fs, i)), fs', xs);
      CoerceFields(fs, vs[1..], i + 1, fs', xs')
  }

  function CoerceField(t: Ty, v: Value, j: Option<nat>, fs': seq<Field>, xs: seq<Value>): (r: seq<Value>)
    requires Typed(v, t) && FieldsTyped(xs, fs') && (j.Some? ==> j.value < |fs'|)
    ensures FieldsTyped(r, fs')
    decreases v, 1
  {
    if j.None? then xs
    else
      FieldTyped(xs, fs', j.value);
      var x := Coerce(t, v, Some(fs'[j.value].ty), xs[j.value]);
      FieldPut(xs, fs', j.value, x);
      xs[j.value := x]
  }

  // ---- decoding does that

  lemma DecodeFlat(t: Ty, v: Value, t': Option<Ty>, x: Value, tail: seq<byte>, len: nat)
    requires Typed(v, t) && Fits(x, t') && !t.TVec? && !t.TMap? && !t.TStruct? && |Content(t, v)| + |tail| <= len < TWO63
    ensures Body(WireType(v), t', x, Content(t, v) + tail, len) == Result(Coerce(t, v, t', x), tail, Fine)
  {
    hide Varint, ReadNumber, ReadBytes;
    if t.TStr? {
      Associative(Varint(|v.s|), v.s, tail);
      NumberOfVarint(|v.s|, v.s + tail);
      BytesRead(v.s, tail, len);
    } else {
      NumberOfVarint(NumberFor(v, t).1, tail);
    }
  }

  /** A target that cannot take a composite value is left alone. */
  lemma SkipBody(typ: nat, t': Option<Ty>, x: Value, b: seq<byte>, tail: seq<byte>, len: nat)
    requires |b| <= len && Fits(x, t') && SkipField(typ, b, len) == Skipped(tail, false) && |tail| < |b|
    requires typ == 5 || typ == 6 || typ == 7
    requires t'.Some? ==> !(typ == 5 && t'.value.TVec?) && !(typ == 6 && t'.value.TMap?) && !(typ == 7 && t'.value.TStruct?)
    ensures Body(typ, t', x, b, len) == Result(x, tail, Fine)
  {
    hide SkipMany, SkipToStructEnd;
  }

  lemma ContentLong(t: Ty, v: Value)
    requires Typed(v, t)
    ensures |Content(t, v)| >= 1
  {
    hide EncodeElems, EncodePairs, EncodeFields;
  }

  /** Whether a target takes a composite value of schema `t` rather than having it skipped. */
  predicate Takes(t: Ty, t': Option<Ty>)
  {
    t'.Some? && ((t.TVec? && t'.value.TVec?) || (t.TMap? && t'.value.TMap?) || (t.TStruct? && t'.value.TStruct?))
  }

  lemma DecodeSkipped(t: Ty, v: Value, t': Option<Ty>, x: Value, tail: seq<byte>, len: nat)
    requires Typed(v, t) && Fits(x, t') && WireOk(t) && |Content(t, v)| + |tail| <= len < TWO63
    requires (t.TVec? || t.TMap? || t.TStruct?) && !Takes(t, t')
    ensures Body(WireType(v), t', x, Content(t, v) + tail, len) == Result(Coerce(t, v, t', x), tail, Fine)
  {
    hide Content, SkipField, Body;
    SkipContent(t, v, tail, len);
    ContentLong(t, v);
    SkipBody(WireType(v), t', x, Content(t, v) + tail, tail, len);
  }

  /** Decoding the content of any value into any target. */
  lemma {:induction false} DecodeContent(t: Ty, v: Value, t': Option<Ty>, x: Value, tail: seq<byte>, len: nat)
    requires Typed(v, t) && Fits(x, t') && WireOk(t) && |Content(t, v)| + |tail| <= len < TWO63
    ensures Body(WireType(v), t', x, Content(t, v) + tail, len) == Result(Coerce(t, v, t', x), tail, Fine)
    decreases v, 0
  {
    hide Body, EncodeElems, EncodePairs, EncodeFields, CoerceElems, CoercePairs, CoerceFields, Varint, HeadOf, MapOf;
    if !t.TVec? && !t.TMap? && !t.TStruct? {
      DecodeFlat(t, v, t', x, tail, len);
    } else if !Takes(t, t') {
      DecodeSkipped(t, v, t', x, tail, len);
    } else if t.TVec? {
      DecodeVector(t.elem, v.elems, t'.value.elem, x, tail, len);
    } else if t.TMap? {
      DecodeMap(t.key, t.val, v.pairs, t'.value.key, t'.value.val, x, tail, len);
    } else {
      DecodeStruct(t.fields, v.fields, t'.value.fields, x.fields, x, tail, len);
    }
  }

  lemma {:induction false} DecodeVector(e: Ty, vs: seq<Value>, e': Ty, x: Value, tail: seq<byte>, len: nat)
    requires (forall i :: 0 <= i < |vs| ==> Typed(vs[i], e)) && WireOk(e) && Typed(x, TVec(e'))
    requires |Varint(|vs|) + EncodeElems(e, vs)| + |tail| <= len < TWO63
    ensures Body(5, Some(TVec(e')), x, Varint(|vs|) + EncodeElems(e, vs) + tail, len)
         == Result(VVec(CoerceElems(e, vs, e')), tail, Fine)
    decreases vs, 1
  {
    hide Varint, ReadNumber, EncodeElems, UnpackElems, CoerceElems;
    ElemsLong(e, vs);
    Associative(Varint(|vs|), EncodeElems(e, vs), tail);
    NumberOfVarint(|vs|, EncodeElems(e, vs) + tail);
    DecodeElems(e, vs, e', tail, len);
  }

  lemma {:induction false} DecodeMap(k: Ty, e: Ty, ps: seq<Pair>, k': Ty, e': Ty, x: Value, tail: seq<byte>, len: nat)
    requires (forall i :: 0 <= i < |ps| ==> Typed(ps[i].key, k) && Typed(ps[i].val, e)) && WireOk(k) && WireOk(e)
    requires Typed(x, TMap(k', e')) && |Varint(|ps|) + EncodePairs(k, e, ps)| + |tail| <= len < TWO63
    ensures Body(6, Some(TMap(k', e')), x, Varint(|ps|) + EncodePairs(k, e, ps) + tail, len)
         == Result(VMap(MapOf(CoercePairs(k, e, ps, k', e'))), tail, Fine)
    decreases ps, 1
  {
    hide Varint, ReadNumber, EncodePairs, UnpackPairs, CoercePairs, MapOf;
    PairsLong(k, e, ps);
    Associative(Varint(|ps|), EncodePairs(k, e, ps), tail);
    NumberOfVarint(|ps|, EncodePairs(k, e, ps) + tail);
    DecodePairs(k, e, ps, k', e', tail, len);
  }

  lemma {:induction false} DecodeStruct(fs: seq<Field>, vs: seq<Value>, fs': seq<Field>, xs: seq<Value>, x: Value,
                                        tail: seq<byte>, len: nat)
    requires RestTyped(fs, vs, 0) && WireOk(TStruct(fs)) && x == VStruct(xs) && FieldsTyped(xs, fs')
    requires |EncodeFields(fs, vs, 0) + HeadOf(0, 8)| + |tail| <= len < TWO63
    ensures Typed(x, TStruct(fs'))
    ensures Body(7, Some(TStruct(fs')), x, EncodeFields(fs, vs, 0) + HeadOf(0, 8) + tail, len)
         == Result(VStruct(CoerceFields(fs, vs, 0, fs', xs)), tail, Fine)
    decreases vs, 2
  {
    hide EncodeFields, HeadOf, BodyStruct, CoerceFields, RestTyped;
    assert |xs| == |fs'| by { StructSize(xs, fs'); }
    Associative(EncodeFields(fs, vs, 0), HeadOf(0, 8), tail);
    DecodeFields(fs, vs, 0, fs', xs, tail, len);
  }

  lemma StructSize(xs: seq<Value>, fs: seq<Field>)
    requires FieldsTyped(xs, fs)
    ensures |xs| == |fs|
  {
  }

  /** Decoding a value with its header. */
  lemma {:induction false} DecodeEncoded(t: Ty, tag: nat, v: Value, t': Ty, x: Value, tail: seq<byte>, len: nat)
    requires Typed(v, t) && Typed(x, t') && WireOk(t) && tag < TWO32 && |Encode(t, tag, v, true)| + |tail| <= len < TWO63
    ensures Unpack(t', x, Encode(t, tag, v, true) + tail, len) == Result(Coerce(t, v, Some(t'), x), tail, Fine)
    decreases v, 1
  {
    hide Content, HeadOf, ReadHeader, Body, Coerce;
    HeadFirst(t, tag, v, true, tail);
    DecodeContent(t, v, Some(t'), x, tail, len);
  }

  lemma {:induction false} DecodeElems(e: Ty, vs: seq<Value>, e': Ty, tail: seq<byte>, len: nat)
    requires (forall i :: 0 <= i < |vs| ==> Typed(vs[i], e)) && WireOk(e)
    requires |EncodeElems(e, vs)| + |tail| <= len < TWO63
    ensures UnpackElems(e', |vs|, EncodeElems(e, vs) + tail, len) == Results(CoerceElems(e, vs, e'), tail, Fine)
    decreases vs, 0
  {
    hide Encode, Unpack, Coerce;
    if vs == [] {
      assert [] + tail == tail;
    } else {
      var first, more := Encode(e, 0, vs[0], true), EncodeElems(e, vs[1..]);
      Associative(first, more, tail);
      ZeroTyped(e');
      DecodeEncoded(e, 0, vs[0], e', Zero(e'), more + tail, len);
      DecodeElems(e, vs[1..], e', tail, len);
    }
  }

  lemma {:induction false} DecodePair(k: Ty, e: Ty, p: Pair, k': Ty, e': Ty, tail: seq<byte>, len: nat)
    requires Typed(p.key, k) && Typed(p.val, e) && WireOk(k) && WireOk(e) && |EncodePair(k, e, p)| + |tail| <= len < TWO63
    ensures Typed(Zero(k'), k') && Typed(Zero(e'), e')
    ensures Unpack(k', Zero(k'), EncodePair(k, e, p) + tail, len)
         == Result(CoercePair(k, e, p, k', e').key, Encode(e, 0, p.val, true) + tail, Fine)
    ensures Unpack(e', Zero(e'), Encode(e, 0, p.val, true) + tail, len)
         == Result(CoercePair(k, e, p, k', e').val, tail, Fine)
    decreases p, 0
  {
    hide Encode, Unpack, Coerce;
    ZeroTyped(k');
    ZeroTyped(e');
    Associative(Encode(k, 0, p.key, true), Encode(e, 0, p.val, true), tail);
    DecodeEncoded(k, 0, p.key, k', Zero(k'), Encode(e, 0, p.val, true) + tail, len);
    DecodeEncoded(e, 0, p.val, e', Zero(e'), tail, len);
  }

  lemma {:induction false} DecodePairs(k: Ty, e: Ty, ps: seq<Pair>, k': Ty, e': Ty, tail: seq<byte>, len: nat)
    requires (forall i :: 0 <= i < |ps| ==> Typed(ps[i].key, k) && Typed(ps[i].val, e)) && WireOk(k) && WireOk(e)
    requires |EncodePairs(k, e, ps)| + |tail| <= len < TWO63
    ensures UnpackPairs(k', e', |ps|, EncodePairs(k, e, ps) + tail, len) == Pairs(CoercePairs(k, e, ps, k', e'), tail, Fine)
    decreases ps, 0
  {
    hide EncodePair, CoercePair, UnpackPairs, Typed, WireOk;
    if ps == [] {
      assert [] + tail == tail;
      PairsNone(k', e', tail, len);
    } else {
      DecodePairs(k, e, ps[1..], k', e', tail, len);
      DecodeFirst(k, e, ps[0], EncodePairs(k, e, ps[1..]), k', e', |ps| - 1, tail, len);
    }
  }

  /** A pair in front of `more`. */
  lemma {:induction false} DecodeFirst(k: Ty, e: Ty, p: Pair, more: seq<byte>, k': Ty, e': Ty, n: nat, tail: seq<byte>, len: nat)
    requires Typed(p.key, k) && Typed(p.val, e) && WireOk(k) && WireOk(e)
    requires |EncodePair(k, e, p) + more| + |tail| <= len < TWO63
    ensures var r := UnpackPairs(k', e', n, more + tail, len);
            UnpackPairs(k', e', n + 1, EncodePair(k, e, p) + more + tail, len)
            == Pairs([CoercePair(k, e, p, k', e')] + r.pairs, r.rest, r.err)
    decreases p, 1
  {
    hide EncodePair, Unpack, CoercePair, Encode, UnpackPairs, Typed, WireOk, Zero;
    Associative(EncodePair(k, e, p), more, tail);
    DecodePair(k, e, p, k', e', more + tail, len);
    PairsStep(k', e', n, EncodePair(k, e, p) + (more + tail), len, CoercePair(k, e, p, k', e'),
              Encode(e, 0, p.val, true) + (more + tail), more + tail);
  }

  lemma PairsNone(k: Ty, e: Ty, b: seq<byte>, len: nat)
    requires |b| <= len
    ensures UnpackPairs(k, e, 0, b, len) == Pairs([], b, Fine)
  {
  }

  /** One pair in front of the others. */
  lemma PairsStep(k: Ty, e: Ty, n: nat, b: seq<byte>, len: nat, p: Pair, mid: seq<byte>, rest: seq<byte>)
    requires |rest| <= |mid| <= |b| <= len && Typed(Zero(k), k) && Typed(Zero(e), e)
    requires Unpack(k, Zero(k), b, len) == Result(p.key, mid, Fine)
    requires Unpack(e, Zero(e), mid, len) == Result(p.val, rest, Fine)
    ensures var more := UnpackPairs(k, e, n, rest, len);
            UnpackPairs(k, e, n + 1, b, len) == Pairs([p] + more.pairs, more.rest, more.err)
  {
    hide Unpack, Typed, Zero;
  }

  /** The fields of a struct up to its end mark, into any struct. */
  lemma {:induction false} DecodeFields(fs: seq<Field>, vs: seq<Value>, i: nat, fs': seq<Field>, xs: seq<Value>,
                                        tail: seq<byte>, len: nat)
    requires RestTyped(fs, vs, i) && WireOk(TStruct(fs)) && FieldsTyped(xs, fs')
    requires |EncodeFields(fs, vs, i)| + |HeadOf(0, 8) + tail| <= len < TWO63
    ensures BodyStruct(fs', xs, EncodeFields(fs, vs, i) + (HeadOf(0, 8) + tail), len)
         == Result(VStruct(CoerceFields(fs, vs, i, fs', xs)), tail, Fine)
    decreases vs, 1
  {
    hide ReadHeader, HeadOf, RestTyped, Encode, FindField, CoerceField;
    if vs == [] {
      assert [] + (HeadOf(0, 8) + tail) == HeadOf(0, 8) + tail;
      HeaderReads(0, 8, tail);
      EndMark(FindField(fs', 0), fs', xs, tail, len);
    } else {
      DecodeFieldStep(fs, vs, i, fs', xs, tail, len);
    }
  }

  lemma EndMark(j: Option<nat>, fs: seq<Field>, xs: seq<Value>, b: seq<byte>, len: nat)
    requires |b| <= len && FieldsTyped(xs, fs) && (j.Some? ==> j.value < |fs|)
    ensures BodyField(8, j, fs, xs, b, len) == Results(xs, b, StructEnd)
  {
    if j.Some? {
      FieldTyped(xs, fs, j.value);
      assert xs[j.value := xs[j.value]] == xs;
    }
  }

  lemma {:induction false} DecodeField(t: Ty, v: Value, j: Option<nat>, fs': seq<Field>, xs: seq<Value>, tail: seq<byte>, len: nat)
    requires Typed(v, t) && WireOk(t) && FieldsTyped(xs, fs') && (j.Some? ==> j.value < |fs'|)
    requires |Content(t, v)| + |tail| <= len < TWO63
    ensures BodyField(WireType(v), j, fs', xs, Content(t, v) + tail, len) == Results(CoerceField(t, v, j, fs', xs), tail, Fine)
    decreases v, 1
  {
    hide Content, Body, Coerce, FieldsTyped;
    if j.Some? {
      FieldTyped(xs, fs', j.value);
      DecodeContent(t, v, Some(fs'[j.value].ty), xs[j.value], tail, len);
    } else {
      DecodeContent(t, v, None, VBool(false), tail, len);
    }
  }

  lemma {:induction false} DecodeFieldStep(fs: seq<Field>, vs: seq<Value>, i: nat, fs': seq<Field>, xs: seq<Value>,
                                           tail: seq<byte>, len: nat)
    requires vs != [] && RestTyped(fs, vs, i) && WireOk(TStruct(fs)) && FieldsTyped(xs, fs')
    requires |EncodeFields(fs, vs, i)| + |HeadOf(0, 8) + tail| <= len < TWO63
    ensures BodyStruct(fs', xs, EncodeFields(fs, vs, i) + (HeadOf(0, 8) + tail), len)
         == Result(VStruct(CoerceFields(fs, vs, i, fs', xs)), tail, Fine)
    decreases vs, 0
  {
    hide Content, ReadHeader, HeadOf, RestTyped, FieldsTyped, FindField, CoerceField, BodyField;
    RestSplit(fs, vs, i);
    FieldWire(fs, vs, i);
    var f, v := fs[i], vs[0];
    var first, more := Encode(f.ty, TagOf(fs, i), v, f.require), EncodeFields(fs, vs[1..], i + 1);
    var after := more + (HeadOf(0, 8) + tail);
    Associative(first, more, HeadOf(0, 8) + tail);
    if Empty(v) && !f.require {
      assert [] + after == after;
      DecodeFields(fs, vs[1..], i + 1, fs', xs, tail, len);
    } else {
      var j := FindField(fs', TagOf(fs, i));
      HeadFirst(f.ty, TagOf(fs, i), v, f.require, after);
      DecodeField(f.ty, v, j, fs', xs, after, len);
      DecodeFields(fs, vs[1..], i + 1, fs', CoerceField(f.ty, v, j, fs', xs), tail, len);
    }
  }
}
