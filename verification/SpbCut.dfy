/**
 Messages that end too early. A decoder whose schema takes every slice, map and struct of the message, its own
 schema above all, reports an error for every proper prefix; one that skips some of them may not notice. Types that
 no value of the model has are refused or read past.
 */
module SpbCut {
  import opened Bytes
  import opened SpbWire
  import opened SpbValue
  import opened SpbCodec
  import opened SpbSkip
  import opened SpbCoerce
  import opened SpbTheorems

  predicate Flat(t: Ty) { !t.TVec? && !t.TMap? && !t.TStruct? }

  /** Nothing composite that is written with schema `t` is skipped by a reader with the target `t'`. */
  predicate Covers(t: Ty, t': Option<Ty>)
    decreases t
  {
    Flat(t) ||
    (Takes(t, t') &&
     match t
     case TVec(e) => Covers(e, Some(t'.value.elem))
     case TMap(k, e) => Covers(k, Some(t'.value.key)) && Covers(e, Some(t'.value.val))
     case TStruct(fs) => forall i :: 0 <= i < |fs| ==> Covers(fs[i].ty, TypeOf(t'.value.fields, FindField(t'.value.fields, TagOf(fs, i))))
     case _ => true)
  }

  function TypeOf(fs: seq<Field>, j: Option<nat>): Option<Ty>
    requires j.Some? ==> j.value < |fs|
  {
    if j.Some? then Some(fs[j.value].ty) else None
  }

  /** Neither a value nor the end of a struct. */
  predicate Failed(err: Error) { err != Fine && err != StructEnd }

  // ---- where the cut is

  /** A cut through two parts is in the first or in the second. */
  lemma Where(b: seq<byte>, x: seq<byte>, y: seq<byte>)
    requires b < x + y
    ensures b < x || (b == x + b[|x|..] && |x| <= |b| && b[|x|..] < y)
  {
    if |b| < |x| {
      assert b == (x + y)[..|b|] == x[..|b|];
    } else {
      assert b[..|x|] == (x + y)[..|x|] == x;
      assert b[|x|..] == (x + y)[|x|..|b|] == y[..|b| - |x|];
    }
  }

  lemma {:induction false} CutDigits(x: nat, left: nat, b: seq<byte>)
    requires 1 <= left && x < Pow128(left) && b < Varint(x)
    ensures Digits(b, left).err == UnexpectedEOF
    decreases left
  {
    if x >= 128 && b != [] {
      assert b[0] == Varint(x)[0] == (x % 128 + 128) as byte;
      assert b[1..] < Varint(x / 128);
      CutDigits(x / 128, left - 1, b[1..]);
    }
  }

  lemma CutNumber(x: nat, b: seq<byte>)
    requires x < TWO64 && b < Varint(x)
    ensures ReadNumber(b) == Number(0, b, UnexpectedEOF)
  {
    TenDigits();
    CutDigits(x, 10, b);
  }

  lemma CutHeader(tag: nat, typ: nat, b: seq<byte>)
    requires tag < TWO32 && typ < 16 && b < HeadOf(tag, typ)
    ensures Failed(ReadHeader(b).err)
  {
    hide Varint, ReadNumber;
    if b != [] {
      Nibbles(typ, 15);
      assert b[0] == HeadOf(tag, typ)[0];
      assert b[1..] < Varint(tag);
      CutNumber(tag, b[1..]);
    }
  }

  // ---- values

  lemma CutFlat(t: Ty, v: Value, t': Option<Ty>, x: Value, b: seq<byte>, len: nat)
    requires Typed(v, t) && Flat(t) && Fits(x, t') && b < Content(t, v) && |b| <= len && |Content(t, v)| < TWO63
    ensures Failed(Body(WireType(v), t', x, b, len).err)
  {
    hide Varint, ReadNumber;
    if t.TStr? {
      Where(b, Varint(|v.s|), v.s);
      if b < Varint(|v.s|) {
        CutNumber(|v.s|, b);
      } else {
        NumberOfVarint(|v.s|, b[|Varint(|v.s|)|..]);
      }
    } else {
      CutNumber(NumberFor(v, t).1, b);
    }
  }

  /** The content of a value, cut off anywhere. */
  lemma {:induction false} CutContent(t: Ty, v: Value, t': Option<Ty>, x: Value, b: seq<byte>, len: nat)
    requires Typed(v, t) && Fits(x, t') && WireOk(t) && Covers(t, t')
    requires b < Content(t, v) && |b| <= len < TWO63 && |Content(t, v)| < TWO63
    ensures Failed(Body(WireType(v), t', x, b, len).err)
    decreases v, 0
  {
    hide Body, EncodeElems, EncodePairs, EncodeFields, Varint, HeadOf;
    if Flat(t) {
      CutFlat(t, v, t', x, b, len);
    } else if t.TVec? {
      CutVector(t.elem, v.elems, t'.value.elem, x, b, len);
    } else if t.TMap? {
      CutMap(t.key, t.val, v.pairs, t'.value.key, t'.value.val, x, b, len);
    } else {
      CutStruct(t.fields, v.fields, t'.value.fields, x, b, len);
    }
  }

  lemma {:induction false} CutVector(e: Ty, vs: seq<Value>, e': Ty, x: Value, b: seq<byte>, len: nat)
    requires (forall i :: 0 <= i < |vs| ==> Typed(vs[i], e)) && WireOk(e) && Covers(e, Some(e')) && Typed(x, TVec(e'))
    requires b < Varint(|vs|) + EncodeElems(e, vs) && |b| <= len < TWO63 && |Varint(|vs|) + EncodeElems(e, vs)| < TWO63
    ensures Failed(Body(5, Some(TVec(e')), x, b, len).err)
    decreases vs, 1
  {
    hide Varint, ReadNumber, EncodeElems, UnpackElems, Covers;
    var n := Varint(|vs|);
    ElemsLong(e, vs);
    Where(b, n, EncodeElems(e, vs));
    if b < n {
      CutNumber(|vs|, b);
    } else {
      NumberOfVarint(|vs|, b[|n|..]);
      CutElems(e, vs, e', b[|n|..], len);
    }
  }

  lemma {:induction false} CutMap(k: Ty, e: Ty, ps: seq<Pair>, k': Ty, e': Ty, x: Value, b: seq<byte>, len: nat)
    requires (forall i :: 0 <= i < |ps| ==> Typed(ps[i].key, k) && Typed(ps[i].val, e)) && WireOk(k) && WireOk(e)
    requires Covers(k, Some(k')) && Covers(e, Some(e')) && Typed(x, TMap(k', e'))
    requires b < Varint(|ps|) + EncodePairs(k, e, ps) && |b| <= len < TWO63 && |Varint(|ps|) + EncodePairs(k, e, ps)| < TWO63
    ensures Failed(Body(6, Some(TMap(k', e')), x, b, len).err)
    decreases ps, 1
  {
    hide Varint, ReadNumber, EncodePairs, UnpackPairs, MapOf, Covers;
    var n := Varint(|ps|);
    PairsLong(k, e, ps);
    Where(b, n, EncodePairs(k, e, ps));
    if b < n {
      CutNumber(|ps|, b);
    } else {
      NumberOfVarint(|ps|, b[|n|..]);
      CutPairs(k, e, ps, k', e', b[|n|..], len);
    }
  }

  lemma {:induction false} CutStruct(fs: seq<Field>, vs: seq<Value>, fs': seq<Field>, x: Value, b: seq<byte>, len: nat)
    requires RestTyped(fs, vs, 0) && WireOk(TStruct(fs)) && Covers(TStruct(fs), Some(TStruct(fs'))) && Typed(x, TStruct(fs'))
    requires b < EncodeFields(fs, vs, 0) + HeadOf(0, 8) && |b| <= len < TWO63 && |EncodeFields(fs, vs, 0) + HeadOf(0, 8)| < TWO63
    ensures Failed(Body(7, Some(TStruct(fs')), x, b, len).err)
    decreases vs, 2
  {
    hide EncodeFields, HeadOf, BodyStruct, Covers;
    CutFields(fs, vs, 0, fs', x.fields, b, len);
  }

  /** A value with its header, cut off anywhere. */
  lemma {:induction false} CutEncoded(t: Ty, tag: nat, v: Value, t': Ty, x: Value, b: seq<byte>, len: nat)
    requires Typed(v, t) && Typed(x, t') && WireOk(t) && Covers(t, Some(t')) && tag < TWO32
    requires b < Encode(t, tag, v, true) && |b| <= len < TWO63 && |Encode(t, tag, v, true)| < TWO63
    ensures Failed(Unpack(t', x, b, len).err)
    decreases v, 1
  {
    hide Content, HeadOf, ReadHeader, Body, Covers;
    var head := HeadOf(tag, WireType(v));
    Where(b, head, Content(t, v));
    if b < head {
      CutHeader(tag, WireType(v), b);
    } else {
      HeaderReads(tag, WireType(v), b[|head|..]);
      CutContent(t, v, Some(t'), x, b[|head|..], len);
    }
  }

  lemma {:induction false} CutElems(e: Ty, vs: seq<Value>, e': Ty, b: seq<byte>, len: nat)
    requires (forall i :: 0 <= i < |vs| ==> Typed(vs[i], e)) && WireOk(e) && Covers(e, Some(e'))
    requires b < EncodeElems(e, vs) && |b| <= len < TWO63 && |EncodeElems(e, vs)| < TWO63
    ensures Failed(UnpackElems(e', |vs|, b, len).err)
    decreases vs, 0
  {
    hide Encode, Unpack, Coerce, Covers;
    var first, more := Encode(e, 0, vs[0], true), EncodeElems(e, vs[1..]);
    ZeroTyped(e');
    Where(b, first, more);
    if b < first {
      CutEncoded(e, 0, vs[0], e', Zero(e'), b, len);
    } else {
      DecodeEncoded(e, 0, vs[0], e', Zero(e'), b[|first|..], len);
      CutElems(e, vs[1..], e', b[|first|..], len);
    }
  }

  lemma {:induction false} CutPair(k: Ty, e: Ty, p: Pair, k': Ty, e': Ty, n: nat, b: seq<byte>, len: nat)
    requires Typed(p.key, k) && Typed(p.val, e) && WireOk(k) && WireOk(e) && Covers(k, Some(k')) && Covers(e, Some(e'))
    requires b < EncodePair(k, e, p) && |b| <= len < TWO63 && |EncodePair(k, e, p)| < TWO63
    ensures Failed(UnpackPairs(k', e', n + 1, b, len).err)
    decreases p, 0
  {
    hide Encode, Unpack, Coerce, Covers;
    var key, val := Encode(k, 0, p.key, true), Encode(e, 0, p.val, true);
    ZeroTyped(k');
    ZeroTyped(e');
    Where(b, key, val);
    if b < key {
      CutEncoded(k, 0, p.key, k', Zero(k'), b, len);
    } else {
      DecodeEncoded(k, 0, p.key, k', Zero(k'), b[|key|..], len);
      CutEncoded(e, 0, p.val, e', Zero(e'), b[|key|..], len);
    }
  }

  lemma {:induction false} CutPairs(k: Ty, e: Ty, ps: seq<Pair>, k': Ty, e': Ty, b: seq<byte>, len: nat)
    requires (forall i :: 0 <= i < |ps| ==> Typed(ps[i].key, k) && Typed(ps[i].val, e)) && WireOk(k) && WireOk(e)
    requires Covers(k, Some(k')) && Covers(e, Some(e'))
    requires b < EncodePairs(k, e, ps) && |b| <= len < TWO63 && |EncodePairs(k, e, ps)| < TWO63
    ensures Failed(UnpackPairs(k', e', |ps|, b, len).err)
    decreases ps, 0
  {
    hide EncodePair, UnpackPairs, CoercePair, Covers, WireOk, Typed;
    var first, more := EncodePair(k, e, ps[0]), EncodePairs(k, e, ps[1..]);
    Where(b, first, more);
    if b < first {
      CutPair(k, e, ps[0], k', e', |ps| - 1, b, len);
    } else {
      var rest := b[|first|..];
      CutPairs(k, e, ps[1..], k', e', rest, len);
      assert b == first + [] + rest;
      DecodeFirst(k, e, ps[0], [], k', e', |ps| - 1, rest, len);
      assert [] + rest == rest;
    }
  }

  /** The fields of a struct from `i` on, cut off anywhere before its end mark is complete. */
  lemma {:induction false} CutFields(fs: seq<Field>, vs: seq<Value>, i: nat, fs': seq<Field>, xs: seq<Value>, b: seq<byte>, len: nat)
    requires RestTyped(fs, vs, i) && WireOk(TStruct(fs)) && Covers(TStruct(fs), Some(TStruct(fs'))) && FieldsTyped(xs, fs')
    requires b < EncodeFields(fs, vs, i) + HeadOf(0, 8) && |b| <= len < TWO63 && |EncodeFields(fs, vs, i) + HeadOf(0, 8)| < TWO63
    ensures Failed(BodyStruct(fs', xs, b, len).err)
    decreases vs, 1
  {
    hide ReadHeader, HeadOf, RestTyped, Encode, FindField, CoerceField, FieldsTyped, Covers, WireOk;
    if vs == [] {
      assert [] + HeadOf(0, 8) == HeadOf(0, 8);
      CutHeader(0, 8, b);
    } else {
      CutFieldStep(fs, vs, i, fs', xs, b, len);
    }
  }

  lemma {:induction false} CutFieldStep(fs: seq<Field>, vs: seq<Value>, i: nat, fs': seq<Field>, xs: seq<Value>, b: seq<byte>, len: nat)
    requires vs != [] && RestTyped(fs, vs, i) && WireOk(TStruct(fs)) && Covers(TStruct(fs), Some(TStruct(fs'))) && FieldsTyped(xs, fs')
    requires b < EncodeFields(fs, vs, i) + HeadOf(0, 8) && |b| <= len < TWO63 && |EncodeFields(fs, vs, i) + HeadOf(0, 8)| < TWO63
    ensures Failed(BodyStruct(fs', xs, b, len).err)
    decreases vs, 0
  {
    hide Content, ReadHeader, HeadOf, RestTyped, FieldsTyped, FindField, CoerceField, BodyField, Covers, WireOk;
    RestSplit(fs, vs, i);
    FieldWire(fs, vs, i);
    var f, v := fs[i], vs[0];
    var first, more := Encode(f.ty, TagOf(fs, i), v, f.require), EncodeFields(fs, vs[1..], i + 1);
    Associative(first, more, HeadOf(0, 8));
    if Empty(v) && !f.require {
      assert [] + (more + HeadOf(0, 8)) == more + HeadOf(0, 8);
      CutFields(fs, vs[1..], i + 1, fs', xs, b, len);
    } else {
      var j, rest := FindField(fs', TagOf(fs, i)), more + HeadOf(0, 8);
      Where(b, first, rest);
      if b < first {
        CutOneField(fs, v, i, fs', xs, b, len);
      } else {
        var after := b[|first|..];
        HeadFirst(f.ty, TagOf(fs, i), v, f.require, after);
        DecodeField(f.ty, v, j, fs', xs, after, len);
        CutFields(fs, vs[1..], i + 1, fs', CoerceField(f.ty, v, j, fs', xs), after, len);
      }
    }
  }

  /** A field that is cut off itself. */
  lemma {:induction false} CutOneField(fs: seq<Field>, v: Value, i: nat, fs': seq<Field>, xs: seq<Value>, b: seq<byte>, len: nat)
    requires i < |fs| && Typed(v, fs[i].ty) && WireOk(fs[i].ty) && TagOf(fs, i) < TWO32
    requires Covers(TStruct(fs), Some(TStruct(fs'))) && FieldsTyped(xs, fs')
    requires b < HeadOf(TagOf(fs, i), WireType(v)) + Content(fs[i].ty, v) && |b| <= len < TWO63
    requires |HeadOf(TagOf(fs, i), WireType(v)) + Content(fs[i].ty, v)| < TWO63
    ensures Failed(BodyStruct(fs', xs, b, len).err)
    decreases v, 1
  {
    hide Content, ReadHeader, HeadOf, FieldsTyped, FindField, Body;
    var head, j := HeadOf(TagOf(fs, i), WireType(v)), FindField(fs', TagOf(fs, i));
    Where(b, head, Content(fs[i].ty, v));
    if b < head {
      CutHeader(TagOf(fs, i), WireType(v), b);
    } else {
      var after := b[|head|..];
      HeaderReads(TagOf(fs, i), WireType(v), after);
      FieldCovered(fs, fs', i);
      if j.Some? {
        FieldTyped(xs, fs', j.value);
        CutContent(fs[i].ty, v, Some(fs'[j.value].ty), xs[j.value], after, len);
      } else {
        CutContent(fs[i].ty, v, None, VBool(false), after, len);
      }
    }
  }

  lemma FieldCovered(fs: seq<Field>, fs': seq<Field>, i: nat)
    requires i < |fs| && Covers(TStruct(fs), Some(TStruct(fs')))
    ensures Covers(fs[i].ty, TypeOf(fs', FindField(fs', TagOf(fs, i))))
  {
  }

  // ---- messages

  /** A reader with the writer's own schema skips nothing. */
  lemma {:induction false} SelfCovers(t: Ty)
    requires WellTagged(t)
    ensures Covers(t, Some(t))
    decreases t
  {
    match t
    case TVec(e) => SelfCovers(e);
    case TMap(k, e) => SelfCovers(k); SelfCovers(e);
    case TStruct(fs) =>
      forall i | 0 <= i < |fs| ensures Covers(fs[i].ty, TypeOf(fs, FindField(fs, TagOf(fs, i)))) {
        FindIs(fs, i);
        SelfCovers(fs[i].ty);
      }
    case _ =>
  }

  /** No proper prefix of a message is taken for a message, by any reader that skips nothing composite of it. */
  lemma CutNoticed(t: Ty, v: Value, t': Ty, x: Value, data: seq<byte>)
    requires Typed(v, t) && Typed(x, t') && WireOk(t) && Covers(t, Some(t'))
    requires data < SpbEncode(t, v) && |SpbEncode(t, v)| < TWO63
    ensures SpbDecode(t', x, data).err != Fine
  {
    hide Encode, Unpack, Covers;
    CutEncoded(t, 0, v, t', x, data, |data|);
  }

  /** Nor by a reader with the schema it was written with. */
  lemma CutNoticedBySelf(t: Ty, v: Value, x: Value, data: seq<byte>)
    requires Typed(v, t) && Typed(x, t) && WireOk(t) && WellTagged(t)
    requires data < SpbEncode(t, v) && |SpbEncode(t, v)| < TWO63
    ensures SpbDecode(t, x, data).err != Fine
  {
    hide SpbEncode, SpbDecode, Covers;
    SelfCovers(t);
    CutNoticed(t, v, t, x, data);
  }

  /** Headers of the types that no value has are refused and change nothing. */
  lemma UnknownType(t: Ty, x: Value, tag: nat, typ: nat, rest: seq<byte>)
    requires Typed(x, t) && tag < TWO32 && 8 <= typ < 16
    ensures SpbDecode(t, x, HeadOf(tag, typ) + rest) == Result(x, rest, if typ == 8 then StructEnd else InvalidType)
  {
    hide HeadOf, ReadHeader;
    HeaderReads(tag, typ, rest);
    var len := |HeadOf(tag, typ) + rest|;
    assert Body(typ, Some(t), x, rest, len) == Result(x, rest, if typ == 8 then StructEnd else InvalidType);
  }

  /** A number of a floating-point type is read past and changes no target of the model's types. */
  lemma FloatPassed(t: Ty, x: Value, tag: nat, typ: nat, n: nat, rest: seq<byte>)
    requires Typed(x, t) && tag < TWO32 && 2 <= typ <= 3 && n < TWO64
    ensures SpbDecode(t, x, HeadOf(tag, typ) + (Varint(n) + rest)) == Result(x, rest, Fine)
  {
    hide HeadOf, ReadHeader, Varint, ReadNumber;
    var b := Varint(n) + rest;
    HeaderReads(tag, typ, b);
    NumberOfVarint(n, rest);
    var len := |HeadOf(tag, typ) + b|;
    assert Body(typ, Some(t), x, b, len) == Result(x, rest, Fine);
  }

  /** One small number, whatever follows. */
  lemma SmallNumber(n: byte, rest: seq<byte>)
    requires n < 128
    ensures ReadNumber([n] + rest) == Number(n as nat, rest, Fine)
  {
    assert ([n] + rest)[1..] == rest;
  }

  /** Skipping a string of two bytes of which one has come leaves that one to be read again. */
  lemma SkippedString(c: byte, len: nat)
    requires 5 <= len < 100
    ensures SkipMany(1, [0x40, 0x02, c], len) == Skipped([c], false)
  {
    assert [0x02, c] == [0x02] + [c] && [0x40, 0x02, c][1..] == [0x02, c];
    SmallNumber(2, [c]);
    assert SkipField(4, [0x02, c], len) == Skipped([c], false);
    assert SkipHeadField([0x40, 0x02, c], len) == Skipped([c], false);
  }

  lemma SkippedSlice(c: byte)
    ensures Body(5, None, VBool(false), [0x01, 0x40, 0x02, c], 6) == Result(VBool(false), [c], Fine)
  {
    hide SkipMany, ReadNumber;
    assert [0x01, 0x40, 0x02, c] == [0x01] + [0x40, 0x02, c];
    SmallNumber(1, [0x40, 0x02, c]);
    SkippedString(c, 6);
  }

  lemma TakenForEnd()
    ensures BodyStruct([], [], [0x80], 6) == Result(VStruct([]), [], Fine)
  {
    hide Body;
    EndMark(None, [], [], [], 6);
    assert [0x80][1..] == [];
  }

  lemma DecodesCut()
    ensures SpbDecode(TStruct([]), VStruct([]), [0x70, 0x50, 0x01, 0x40, 0x02, 0x80]) == Result(VStruct([]), [], Fine)
  {
    hide BodyStruct, ReadNumber;
    var data: seq<byte> := [0x70, 0x50, 0x01, 0x40, 0x02, 0x80];
    assert data[1..] == [0x50, 0x01, 0x40, 0x02, 0x80];
    StructCut();
  }

  lemma StructCut()
    ensures BodyStruct([], [], [0x50, 0x01, 0x40, 0x02, 0x80], 6) == Result(VStruct([]), [], Fine)
  {
    hide Body, ReadNumber;
    var b: seq<byte> := [0x50, 0x01, 0x40, 0x02, 0x80];
    assert b[1..] == [0x01, 0x40, 0x02, 0x80];
    SkippedSlice(0x80);
    TakenForEnd();
  }

  /**
   A reader that lacks the field of a slice of strings takes a message that is cut off inside a string for a whole
   one, if the part of the string that has come begins with the byte of an end mark.
   */
  lemma CutUnnoticed()
    ensures var t, v := TStruct([Field(None, false, TVec(TStr))]), VStruct([VVec([VStr([0x80, 0x78])])]);
            var data := [0x70, 0x50, 0x01, 0x40, 0x02, 0x80];
            && Typed(v, t) && SpbEncode(t, v) == data + [0x78, 0x80]
            && SpbDecode(TStruct([]), VStruct([]), data) == Result(VStruct([]), [], Fine)
  {
    hide SpbDecode;
    DecodesCut();
    EncodesCut();
  }

  lemma EncodesCut()
    ensures var t, v := TStruct([Field(None, false, TVec(TStr))]), VStruct([VVec([VStr([0x80, 0x78])])]);
            Typed(v, t) && SpbEncode(t, v) == [0x70, 0x50, 0x01, 0x40, 0x02, 0x80, 0x78, 0x80]
  {
    hide Content, Typed;
    var e, vs := Field(None, false, TVec(TStr)), VVec([VStr([0x80, 0x78])]);
    EncodesSlice();
    OneField(e, vs);
    assert HeadOf(0, 8) == [0x80] && HeadOf(0, 7) == [0x70] && HeadOf(0, 5) == [0x50];
  }

  lemma StructBytes(fs: seq<Field>, vs: seq<Value>)
    requires RestTyped(fs, vs, 0)
    ensures Typed(VStruct(vs), TStruct(fs))
    ensures SpbEncode(TStruct(fs), VStruct(vs)) == HeadOf(0, 7) + (EncodeFields(fs, vs, 0) + HeadOf(0, 8))
  {
    hide HeadOf, EncodeFields;
    var t, v := TStruct(fs), VStruct(vs);
    assert Content(t, v) == EncodeFields(fs, v.fields, 0) + HeadOf(0, 8);
    assert SpbEncode(t, v) == HeadOf(0, 7) + Content(t, v);
  }

  /** A struct with one field that is not empty. */
  lemma OneField(f: Field, v: Value)
    requires Typed(v, f.ty) && f.tag.None? && !Empty(v)
    ensures Typed(VStruct([v]), TStruct([f]))
    ensures SpbEncode(TStruct([f]), VStruct([v])) == HeadOf(0, 7) + (HeadOf(0, WireType(v)) + Content(f.ty, v) + HeadOf(0, 8))
  {
    hide HeadOf, Content, SpbEncode, Typed;
    assert RestTyped([f], [v], 0);
    StructBytes([f], [v]);
    assert [v][1..] == [] && EncodeFields([f], [], 1) == [] && TagOf([f], 0) == 0;
    assert EncodeFields([f], [v], 0) == HeadOf(0, WireType(v)) + Content(f.ty, v);
  }

  lemma EncodesSlice()
    ensures var v := VVec([VStr([0x80, 0x78])]); Typed(v, TVec(TStr)) && Content(TVec(TStr), v) == [0x01, 0x40, 0x02, 0x80, 0x78]
  {
    var s := VStr([0x80, 0x78]);
    assert Encode(TStr, 0, s, true) == [0x40, 0x02, 0x80, 0x78];
    assert [s][1..] == [];
  }
}
