/**
 Skipping consumes exactly the bytes that encoding a value has written, whatever the value and whatever
 follows.
 */
module SpbSkip {
  import opened Bytes
  import opened SpbWire
  import opened SpbValue
  import opened SpbCodec

  /** Tags are 32-bit numbers. */
  predicate WireOk(t: Ty)
    decreases t
  {
    match t
    case TVec(e) => WireOk(e)
    case TMap(k, e) => WireOk(k) && WireOk(e)
    case TStruct(fs) =>
      |fs| <= TWO32 && forall i :: 0 <= i < |fs| ==> (fs[i].tag.Some? ==> fs[i].tag.value < TWO32) && WireOk(fs[i].ty)
    case _ => true
  }

  /** Every element takes at least one byte, so a count never exceeds the bytes behind it. */
  lemma {:induction false} ElemsLong(e: Ty, vs: seq<Value>)
    requires forall i :: 0 <= i < |vs| ==> Typed(vs[i], e)
    ensures |EncodeElems(e, vs)| >= |vs|
    decreases |vs|
  {
    hide Content;
    if vs != [] { ElemsLong(e, vs[1..]); }
  }

  lemma EncodeLong(t: Ty, v: Value)
    requires Typed(v, t)
    ensures |Encode(t, 0, v, true)| >= 1
  {
    hide Content;
  }

  lemma {:induction false} PairsLong(k: Ty, e: Ty, ps: seq<Pair>)
    requires forall i :: 0 <= i < |ps| ==> Typed(ps[i].key, k) && Typed(ps[i].val, e)
    ensures |EncodePairs(k, e, ps)| >= 2 * |ps|
    decreases |ps|
  {
    hide Content, Encode;
    if ps != [] {
      EncodeLong(k, ps[0].key);
      EncodeLong(e, ps[0].val);
      PairsLong(k, e, ps[1..]);
    }
  }

  /** Number and string contents. */
  lemma SkipFlat(t: Ty, v: Value, tail: seq<byte>, len: nat)
    requires Typed(v, t) && !t.TVec? && !t.TMap? && !t.TStruct? && |Content(t, v)| + |tail| <= len < TWO63
    ensures SkipField(WireType(v), Content(t, v) + tail, len) == Skipped(tail, false)
  {
    hide Varint, ReadNumber, ReadBytes;
    if t.TStr? {
      Associative(Varint(|v.s|), v.s, tail);
      NumberOfVarint(|v.s|, v.s + tail);
      BytesRead(v.s, tail, len);
    } else {
      NumberOfVarint(NumberFor(v, t).1, tail);
    }
  }

  /** What a written value looks like to the reader: its header, then its content. */
  lemma HeadFirst(t: Ty, tag: nat, v: Value, require: bool, tail: seq<byte>)
    requires Typed(v, t) && tag < TWO32 && (require || !Empty(v))
    ensures Encode(t, tag, v, require) + tail == HeadOf(tag, WireType(v)) + (Content(t, v) + tail)
    ensures ReadHeader(Encode(t, tag, v, require) + tail) == Header(tag, WireType(v), Content(t, v) + tail, Fine)
  {
    hide Content, HeadOf, ReadHeader;
    Associative(HeadOf(tag, WireType(v)), Content(t, v), tail);
    HeaderReads(tag, WireType(v), Content(t, v) + tail);
  }

  /** The content of a value is skipped exactly. */
  lemma {:induction false} SkipContent(t: Ty, v: Value, tail: seq<byte>, len: nat)
    requires Typed(v, t) && WireOk(t) && |Content(t, v)| + |tail| <= len < TWO63
    ensures SkipField(WireType(v), Content(t, v) + tail, len) == Skipped(tail, false)
    decreases v, 0
  {
    hide SkipField, EncodeElems, EncodePairs, EncodeFields, HeadOf, Varint, NumberFor;
    match t
    case TVec(e) => SkipVector(e, v.elems, tail, len);
    case TMap(k, e) => SkipMap(k, e, v.pairs, tail, len);
    case TStruct(fs) => SkipStruct(fs, v.fields, tail, len);
    case _ => SkipFlat(t, v, tail, len);
  }

  lemma {:induction false} SkipStruct(fs: seq<Field>, vs: seq<Value>, tail: seq<byte>, len: nat)
    requires RestTyped(fs, vs, 0) && WireOk(TStruct(fs))
    requires |EncodeFields(fs, vs, 0) + HeadOf(0, 8)| + |tail| <= len < TWO63
    ensures SkipField(7, EncodeFields(fs, vs, 0) + HeadOf(0, 8) + tail, len) == Skipped(tail, false)
    decreases vs, 2
  {
    hide EncodeFields, SkipToStructEnd, HeadOf, RestTyped;
    Associative(EncodeFields(fs, vs, 0), HeadOf(0, 8), tail);
    SkipFields(fs, vs, 0, tail, len);
  }

  lemma {:induction false} SkipVector(e: Ty, vs: seq<Value>, tail: seq<byte>, len: nat)
    requires (forall i :: 0 <= i < |vs| ==> Typed(vs[i], e)) && WireOk(e)
    requires |Varint(|vs|) + EncodeElems(e, vs)| + |tail| <= len < TWO63
    ensures SkipField(5, Varint(|vs|) + EncodeElems(e, vs) + tail, len) == Skipped(tail, false)
    decreases vs, 1
  {
    hide Varint, ReadNumber, EncodeElems, SkipMany;
    ElemsLong(e, vs);
    Associative(Varint(|vs|), EncodeElems(e, vs), tail);
    NumberOfVarint(|vs|, EncodeElems(e, vs) + tail);
    SkipElems(e, vs, tail, len);
  }

  lemma {:induction false} SkipMap(k: Ty, e: Ty, ps: seq<Pair>, tail: seq<byte>, len: nat)
    requires (forall i :: 0 <= i < |ps| ==> Typed(ps[i].key, k) && Typed(ps[i].val, e)) && WireOk(k) && WireOk(e)
    requires |Varint(|ps|) + EncodePairs(k, e, ps)| + |tail| <= len < TWO63
    ensures SkipField(6, Varint(|ps|) + EncodePairs(k, e, ps) + tail, len) == Skipped(tail, false)
    decreases ps, 1
  {
    hide Varint, ReadNumber, EncodePairs, SkipMany;
    PairsLong(k, e, ps);
    Associative(Varint(|ps|), EncodePairs(k, e, ps), tail);
    NumberOfVarint(|ps|, EncodePairs(k, e, ps) + tail);
    SkipPairs(k, e, ps, tail, len);
  }

  /** A value with its header is skipped exactly. */
  lemma {:induction false} SkipEncoded(t: Ty, tag: nat, v: Value, require: bool, tail: seq<byte>, len: nat)
    requires Typed(v, t) && WireOk(t) && tag < TWO32 && (require || !Empty(v))
    requires |Encode(t, tag, v, require)| + |tail| <= len < TWO63
    ensures SkipHeadField(Encode(t, tag, v, require) + tail, len) == Skipped(tail, false)
    decreases v, 1
  {
    hide Content, HeadOf, ReadHeader, SkipField;
    HeadFirst(t, tag, v, require, tail);
    SkipContent(t, v, tail, len);
  }

  lemma {:induction false} SkipElems(e: Ty, vs: seq<Value>, tail: seq<byte>, len: nat)
    requires (forall i :: 0 <= i < |vs| ==> Typed(vs[i], e)) && WireOk(e)
    requires |EncodeElems(e, vs)| + |tail| <= len < TWO63
    ensures SkipMany(|vs|, EncodeElems(e, vs) + tail, len) == Skipped(tail, false)
    decreases vs, 0
  {
    hide Encode, SkipHeadField;
    if vs == [] {
      assert [] + tail == tail;
    } else {
      var first, more := Encode(e, 0, vs[0], true), EncodeElems(e, vs[1..]);
      Associative(first, more, tail);
      SkipEncoded(e, 0, vs[0], true, more + tail, len);
      SkipElems(e, vs[1..], tail, len);
    }
  }

  lemma {:induction false} SkipPair(k: Ty, e: Ty, p: Pair, tail: seq<byte>, len: nat)
    requires Typed(p.key, k) && Typed(p.val, e) && WireOk(k) && WireOk(e)
    requires |EncodePair(k, e, p)| + |tail| <= len < TWO63
    ensures SkipHeadField(EncodePair(k, e, p) + tail, len) == Skipped(Encode(e, 0, p.val, true) + tail, false)
    ensures SkipHeadField(Encode(e, 0, p.val, true) + tail, len) == Skipped(tail, false)
    decreases p
  {
    hide Encode, SkipHeadField;
    Associative(Encode(k, 0, p.key, true), Encode(e, 0, p.val, true), tail);
    SkipEncoded(k, 0, p.key, true, Encode(e, 0, p.val, true) + tail, len);
    SkipEncoded(e, 0, p.val, true, tail, len);
  }

  lemma {:induction false} SkipPairs(k: Ty, e: Ty, ps: seq<Pair>, tail: seq<byte>, len: nat)
    requires (forall i :: 0 <= i < |ps| ==> Typed(ps[i].key, k) && Typed(ps[i].val, e)) && WireOk(k) && WireOk(e)
    requires |EncodePairs(k, e, ps)| + |tail| <= len < TWO63
    ensures SkipMany(2 * |ps|, EncodePairs(k, e, ps) + tail, len) == Skipped(tail, false)
    decreases ps, 0
  {
    hide EncodePair, SkipHeadField;
    if ps == [] {
      assert [] + tail == tail;
    } else {
      var first, more := EncodePair(k, e, ps[0]), EncodePairs(k, e, ps[1..]);
      Associative(first, more, tail);
      SkipPair(k, e, ps[0], more + tail, len);
      SkipPairs(k, e, ps[1..], tail, len);
      SkipTwo(2 * |ps[1..]|, first + (more + tail), len);
    }
  }

  lemma SkipTwo(n: nat, b: seq<byte>, len: nat)
    requires |b| <= len && !SkipHeadField(b, len).panic
    requires !SkipHeadField(SkipHeadField(b, len).rest, len).panic
    ensures SkipMany(n + 2, b, len) == SkipMany(n, SkipHeadField(SkipHeadField(b, len).rest, len).rest, len)
  {
    hide SkipHeadField;
    var s := SkipHeadField(b, len);
    assert SkipMany(n + 2, b, len) == SkipMany(n + 1, s.rest, len);
  }

  /** The fields of a struct and its end mark are skipped exactly. */
  lemma {:induction false} SkipFields(fs: seq<Field>, vs: seq<Value>, i: nat, tail: seq<byte>, len: nat)
    requires RestTyped(fs, vs, i) && WireOk(TStruct(fs))
    requires |EncodeFields(fs, vs, i)| + |HeadOf(0, 8) + tail| <= len < TWO63
    ensures SkipToStructEnd(EncodeFields(fs, vs, i) + (HeadOf(0, 8) + tail), len) == Skipped(tail, false)
    decreases vs, 1
  {
    hide Encode, SkipField, ReadHeader, HeadOf, RestTyped;
    if vs == [] {
      assert [] + (HeadOf(0, 8) + tail) == HeadOf(0, 8) + tail;
      HeaderReads(0, 8, tail);
    } else {
      SkipFieldStep(fs, vs, i, tail, len);
    }
  }

  lemma FieldWire(fs: seq<Field>, vs: seq<Value>, i: nat)
    requires RestTyped(fs, vs, i) && vs != [] && WireOk(TStruct(fs))
    ensures i < |fs| && TagOf(fs, i) < TWO32 && TagOf(fs, i) % TWO32 == TagOf(fs, i) && WireOk(fs[i].ty)
  {
  }

  lemma {:induction false} SkipFieldStep(fs: seq<Field>, vs: seq<Value>, i: nat, tail: seq<byte>, len: nat)
    requires vs != [] && RestTyped(fs, vs, i) && WireOk(TStruct(fs))
    requires |EncodeFields(fs, vs, i)| + |HeadOf(0, 8) + tail| <= len < TWO63
    ensures SkipToStructEnd(EncodeFields(fs, vs, i) + (HeadOf(0, 8) + tail), len) == Skipped(tail, false)
    decreases vs, 0
  {
    hide Content, SkipField, ReadHeader, HeadOf, RestTyped;
    RestSplit(fs, vs, i);
    FieldWire(fs, vs, i);
    var f, v := fs[i], vs[0];
    var first, more := Encode(f.ty, TagOf(fs, i), v, f.require), EncodeFields(fs, vs[1..], i + 1);
    var after := more + (HeadOf(0, 8) + tail);
    Associative(first, more, HeadOf(0, 8) + tail);
    SkipFields(fs, vs[1..], i + 1, tail, len);
    if Empty(v) && !f.require {
      assert [] + after == after;
    } else {
      HeadFirst(f.ty, TagOf(fs, i), v, f.require, after);
      SkipContent(f.ty, v, after, len);
    }
  }
}
