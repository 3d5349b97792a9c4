/**
 Fields are matched by their declared tags: what a reader sees of a written struct, said of the tags in the schemas
 alone, and where the tags stand in the bytes.
 */
module SpbTags {
  import opened Bytes
  import opened SpbWire
  import opened SpbValue
  import opened SpbCodec
  import opened SpbSkip
  import opened SpbCoerce
  import opened SpbTheorems

  /** Field `f` at position `i` and field `f'` at position `j` have one tag; a field without a tag has its position. */
  predicate SameTag(f: Field, i: nat, f': Field, j: nat)
  {
    || (f.tag.Some? && f'.tag.Some? && f.tag.value == f'.tag.value)
    || (f.tag.Some? && f'.tag.None? && f.tag.value == j)
    || (f.tag.None? && f'.tag.Some? && f'.tag.value == i)
    || (f.tag.None? && f'.tag.None? && i == j)
  }

  predicate NoClash(fs: seq<Field>)
  {
    forall i, j :: 0 <= i < j < |fs| ==> !SameTag(fs[i], i, fs[j], j)
  }

  /** No two fields of a struct share a tag, and fields of writer and reader that share one have compatible types. */
  predicate Compatible(t: Ty, t': Ty)
    decreases t
  {
    match t
    case TVec(e) => t'.TVec? && Compatible(e, t'.elem)
    case TMap(k, e) => t'.TMap? && k == t'.key && Compatible(k, k) && Compatible(e, t'.val)
    case TStruct(fs) =>
      && t'.TStruct? && NoClash(fs) && NoClash(t'.fields)
      && forall i, j :: 0 <= i < |fs| && 0 <= j < |t'.fields| && SameTag(fs[i], i, t'.fields[j], j) ==>
           Compatible(fs[i].ty, t'.fields[j].ty)
    case _ => t' == t
  }

  /** `v'` is what a reader with schema `t'` should see of `v`: shared fields by tag, zero values elsewhere. */
  predicate Sees(t: Ty, v: Value, t': Ty, v': Value)
    decreases t
  {
    match t
    case TVec(e) =>
      && t'.TVec? && v.VVec? && v'.VVec? && |v.elems| == |v'.elems|
      && forall i :: 0 <= i < |v.elems| ==> Sees(e, v.elems[i], t'.elem, v'.elems[i])
    case TMap(k, e) =>
      && t'.TMap? && v.VMap? && v'.VMap? && |v.pairs| == |v'.pairs|
      && forall i :: 0 <= i < |v.pairs| ==> v'.pairs[i].key == v.pairs[i].key && Sees(e, v.pairs[i].val, t'.val, v'.pairs[i].val)
    case TStruct(fs) =>
      && t'.TStruct? && v.VStruct? && v'.VStruct? && |v.fields| == |fs| && |v'.fields| == |t'.fields|
      && (forall i, j :: 0 <= i < |fs| && 0 <= j < |t'.fields| && SameTag(fs[i], i, t'.fields[j], j) ==>
            Sees(fs[i].ty, v.fields[i], t'.fields[j].ty, v'.fields[j]))
      && (forall j :: 0 <= j < |t'.fields| && Unwritten(fs, t'.fields[j], j) ==> v'.fields[j] == Zero(t'.fields[j].ty))
    case _ => v' == v
  }

  /** No field of the writer has the tag of the reader's field `f` at position `j`. */
  predicate Unwritten(fs: seq<Field>, f: Field, j: nat)
  {
    forall i :: 0 <= i < |fs| ==> !SameTag(fs[i], i, f, j)
  }

  lemma SameTagIs(fs: seq<Field>, i: nat, fs': seq<Field>, j: nat)
    requires i < |fs| && j < |fs'|
    ensures SameTag(fs[i], i, fs'[j], j) <==> TagOf(fs, i) == TagOf(fs', j)
  {
  }

  lemma NoClashIs(fs: seq<Field>)
    ensures NoClash(fs) <==> DistinctTags(fs)
  {
    forall i, j | 0 <= i < j < |fs| ensures SameTag(fs[i], i, fs[j], j) <==> TagOf(fs, i) == TagOf(fs, j) {
      SameTagIs(fs, i, fs, j);
    }
  }

  lemma {:induction false} CompatibleIs(t: Ty, t': Ty)
    ensures Compatible(t, t') <==> Evolves(t, t')
    decreases t
  {
    hide SameTag, TagOf, NoClash, DistinctTags;
    match t
    case TVec(e) => if t'.TVec? { CompatibleIs(e, t'.elem); }
    case TMap(k, e) => if t'.TMap? { CompatibleIs(k, k); CompatibleIs(e, t'.val); }
    case TStruct(fs) =>
      if t'.TStruct? {
        NoClashIs(fs);
        NoClashIs(t'.fields);
        forall i, j | 0 <= i < |fs| && 0 <= j < |t'.fields|
          ensures SameTag(fs[i], i, t'.fields[j], j) <==> TagOf(fs, i) == TagOf(t'.fields, j)
          ensures Compatible(fs[i].ty, t'.fields[j].ty) <==> Evolves(fs[i].ty, t'.fields[j].ty)
        {
          SameTagIs(fs, i, t'.fields, j);
          CompatibleIs(fs[i].ty, t'.fields[j].ty);
        }
      }
    case _ =>
  }

  /** The projection is what the reader should see. */
  lemma {:induction false} ProjectSees(t: Ty, v: Value, t': Ty)
    requires Typed(v, t) && Evolves(t, t')
    ensures Sees(t, v, t', Project(t, v, t'))
    decreases t
  {
    match t
    case TVec(e) =>
      forall i | 0 <= i < |v.elems| ensures Sees(e, v.elems[i], t'.elem, Project(e, v.elems[i], t'.elem)) {
        ProjectSees(e, v.elems[i], t'.elem);
      }
    case TMap(k, e) =>
      forall i | 0 <= i < |v.pairs| ensures Sees(e, v.pairs[i].val, t'.val, Project(e, v.pairs[i].val, t'.val)) {
        ProjectSees(e, v.pairs[i].val, t'.val);
      }
    case TStruct(fs) => StructSees(fs, v.fields, t'.fields);
    case _ =>
  }

  lemma {:induction false} StructSees(fs: seq<Field>, vs: seq<Value>, fs': seq<Field>)
    requires FieldsTyped(vs, fs) && Evolves(TStruct(fs), TStruct(fs'))
    ensures Sees(TStruct(fs), VStruct(vs), TStruct(fs'), Project(TStruct(fs), VStruct(vs), TStruct(fs')))
    decreases fs
  {
    hide SameTag, Project;
    var r := Project(TStruct(fs), VStruct(vs), TStruct(fs'));
    ProjectFields(fs, vs, fs');
    forall i, j | 0 <= i < |fs| && 0 <= j < |fs'| && SameTag(fs[i], i, fs'[j], j)
      ensures Sees(fs[i].ty, vs[i], fs'[j].ty, r.fields[j])
    {
      SameTagIs(fs, i, fs', j);
      FindIs(fs, i);
      FieldTyped(vs, fs, i);
      ProjectSees(fs[i].ty, vs[i], fs'[j].ty);
    }
    forall j | 0 <= j < |fs'| && Unwritten(fs, fs'[j], j) ensures r.fields[j] == Zero(fs'[j].ty) {
      var w := FindField(fs, TagOf(fs', j));
      if w.Some? { SameTagIs(fs, w.value, fs', j); }
    }
  }

  lemma ProjectFields(fs: seq<Field>, vs: seq<Value>, fs': seq<Field>)
    requires FieldsTyped(vs, fs) && Evolves(TStruct(fs), TStruct(fs'))
    ensures |vs| == |fs|
    ensures var r := Project(TStruct(fs), VStruct(vs), TStruct(fs'));
            r.VStruct? && |r.fields| == |fs'| && forall j :: 0 <= j < |fs'| ==> r.fields[j] == ProjectField(fs, vs, fs', j)
  {
  }

  /** Writing with one schema and reading with another: the reader sees the shared fields by their declared tags. */
  lemma DeclaredTags(t: Ty, v: Value, t': Ty, tail: seq<byte>)
    requires Typed(v, t) && Compatible(t, t') && WireOk(t) && |SpbEncode(t, v)| + |tail| < TWO63
    ensures Typed(Zero(t'), t')
    ensures var r := SpbDecode(t', Zero(t'), SpbEncode(t, v) + tail); r.err == Fine && r.rest == tail && Sees(t, v, t', r.value)
  {
    hide SpbEncode, SpbDecode, Project, Sees;
    CompatibleIs(t, t');
    ForwardCompatible(t, v, t', tail);
    ProjectSees(t, v, t');
  }

  /** All tags are written out, and no two are equal. */
  predicate Explicit(fs: seq<Field>)
  {
    && (forall i :: 0 <= i < |fs| ==> fs[i].tag.Some?)
    && forall i, j :: 0 <= i < j < |fs| ==> fs[i].tag != fs[j].tag
  }

  /** Structs whose tags are all written out: a field is the writer's field with that tag, or zero if there is none. */
  lemma ByTag(fs: seq<Field>, vs: seq<Value>, fs': seq<Field>, tail: seq<byte>)
    requires Typed(VStruct(vs), TStruct(fs)) && Explicit(fs) && Explicit(fs') && WireOk(TStruct(fs))
    requires forall i, j :: 0 <= i < |fs| && 0 <= j < |fs'| && fs[i].tag == fs'[j].tag ==> Compatible(fs[i].ty, fs'[j].ty)
    requires |SpbEncode(TStruct(fs), VStruct(vs))| + |tail| < TWO63
    ensures Typed(Zero(TStruct(fs')), TStruct(fs'))
    ensures var r := SpbDecode(TStruct(fs'), Zero(TStruct(fs')), SpbEncode(TStruct(fs), VStruct(vs)) + tail);
            && r.err == Fine && r.rest == tail && r.value.VStruct? && |r.value.fields| == |fs'|
            && (forall i, j :: 0 <= i < |fs| && 0 <= j < |fs'| && fs[i].tag == fs'[j].tag ==>
                  Sees(fs[i].ty, vs[i], fs'[j].ty, r.value.fields[j]))
            && (forall j :: 0 <= j < |fs'| && (forall i :: 0 <= i < |fs| ==> fs[i].tag != fs'[j].tag) ==>
                  r.value.fields[j] == Zero(fs'[j].ty))
  {
    hide SpbEncode, SpbDecode, WireOk;
    DeclaredTags(TStruct(fs), VStruct(vs), TStruct(fs'), tail);
    var r := SpbDecode(TStruct(fs'), Zero(TStruct(fs')), SpbEncode(TStruct(fs), VStruct(vs)) + tail);
    forall i, j | 0 <= i < |fs| && 0 <= j < |fs'| ensures SameTag(fs[i], i, fs'[j], j) <==> fs[i].tag == fs'[j].tag {}
    forall j | 0 <= j < |fs'| && forall i :: 0 <= i < |fs| ==> fs[i].tag != fs'[j].tag
      ensures r.value.fields[j] == Zero(fs'[j].ty)
    {
      assert Unwritten(fs, fs'[j], j);
    }
  }

  /** Structs without tags: fields are matched by position, and what the writer lacks is zero. */
  lemma ByPosition(fs: seq<Field>, vs: seq<Value>, fs': seq<Field>, tail: seq<byte>)
    requires Typed(VStruct(vs), TStruct(fs)) && WireOk(TStruct(fs))
    requires (forall i :: 0 <= i < |fs| ==> fs[i].tag.None?) && forall j :: 0 <= j < |fs'| ==> fs'[j].tag.None?
    requires forall i :: 0 <= i < |fs| && i < |fs'| ==> Compatible(fs[i].ty, fs'[i].ty)
    requires |SpbEncode(TStruct(fs), VStruct(vs))| + |tail| < TWO63
    ensures Typed(Zero(TStruct(fs')), TStruct(fs'))
    ensures var r := SpbDecode(TStruct(fs'), Zero(TStruct(fs')), SpbEncode(TStruct(fs), VStruct(vs)) + tail);
            && r.err == Fine && r.rest == tail && r.value.VStruct? && |r.value.fields| == |fs'|
            && forall j :: 0 <= j < |fs'| ==>
                 if j < |fs| then Sees(fs[j].ty, vs[j], fs'[j].ty, r.value.fields[j]) else r.value.fields[j] == Zero(fs'[j].ty)
  {
    hide SpbEncode, SpbDecode, WireOk;
    forall i, j | 0 <= i < |fs| && 0 <= j < |fs'| ensures SameTag(fs[i], i, fs'[j], j) <==> i == j {}
    DeclaredTags(TStruct(fs), VStruct(vs), TStruct(fs'), tail);
    forall j | |fs| <= j < |fs'| ensures Unwritten(fs, fs'[j], j) {}
  }

  // ---- the bytes

  /** Where a field stands: behind its header, which is that of its declared tag. */
  lemma {:induction false} FieldBytes(fs: seq<Field>, vs: seq<Value>, at: nat, i: nat, tag: nat) returns (front: seq<byte>, back: seq<byte>)
    requires RestTyped(fs, vs, at) && at <= i < |fs| && tag < TWO32
    requires fs[i].tag == Some(tag) || (fs[i].tag.None? && tag == i)
    requires fs[i].require || !Empty(vs[i - at])
    ensures Typed(vs[i - at], fs[i].ty)
    ensures EncodeFields(fs, vs, at) == front + (HeadOf(tag, WireType(vs[i - at])) + Content(fs[i].ty, vs[i - at])) + back
    ensures at == i ==> front == []
    decreases |vs|
  {
    hide Content, Encode, RestTyped, Typed, HeadOf, EncodeFields;
    TypedAt(fs, vs, at, i);
    RestSplit(fs, vs, at);
    FieldsFirst(fs, vs, at);
    var first, rest := Encode(fs[at].ty, TagOf(fs, at) % TWO32, vs[0], fs[at].require), EncodeFields(fs, vs[1..], at + 1);
    if at == i {
      Written(fs[i].ty, tag, vs[0], fs[i].require);
      front, back := [], rest;
      assert front + first == first;
    } else {
      front, back := FieldBytes(fs, vs[1..], at + 1, i, tag);
      var mid := HeadOf(tag, WireType(vs[i - at])) + Content(fs[i].ty, vs[i - at]);
      assert rest == front + mid + back;
      assert first + (front + mid + back) == first + front + mid + back;
      front := first + front;
    }
  }

  lemma FieldsFirst(fs: seq<Field>, vs: seq<Value>, at: nat)
    requires RestTyped(fs, vs, at) && vs != []
    ensures Typed(vs[0], fs[at].ty) && RestTyped(fs, vs[1..], at + 1)
    ensures EncodeFields(fs, vs, at)
         == Encode(fs[at].ty, TagOf(fs, at) % TWO32, vs[0], fs[at].require) + EncodeFields(fs, vs[1..], at + 1)
  {
    hide Encode;
    RestSplit(fs, vs, at);
  }

  lemma TypedAt(fs: seq<Field>, vs: seq<Value>, at: nat, i: nat)
    requires RestTyped(fs, vs, at) && at <= i < |fs|
    ensures vs != [] && i - at < |vs| && Typed(vs[i - at], fs[i].ty)
  {
    assert Typed(vs[i - at], fs[at + (i - at)].ty);
  }

  lemma Written(t: Ty, tag: nat, v: Value, require: bool)
    requires Typed(v, t) && (require || !Empty(v))
    ensures Encode(t, tag, v, require) == HeadOf(tag, WireType(v)) + Content(t, v)
  {
  }

  /** The bytes of a struct with one field of tag 5 that holds 7. */
  lemma WireExample()
    ensures var t := TStruct([Field(Some(5), false, TUint(W8))]); var v := VStruct([VUint(7)]);
            Typed(v, t) && SpbEncode(t, v) == [0x70, 0x05, 0x07, 0x80]
  {
    var fs, vs := [Field(Some(5), false, TUint(W8))], [VUint(7)];
    assert RestTyped(fs, vs, 0);
    assert vs[1..] == [];
    assert EncodeFields(fs, vs, 0) == [0x05, 0x07];
  }

  lemma VarintSmall(x: nat)
    requires x < 128
    ensures Varint(x) == [x as byte]
  {
  }

  /** The bytes of a negative number, a string, and a number behind a long tag. */
  lemma FlatExamples()
    ensures Typed(VInt(-1), TInt(W8)) && Encode(TInt(W8), 0, VInt(-1), true) == [0x10, 0x01]
    ensures Encode(TStr, 3, VStr([0x61]), true) == [0x43, 0x01, 0x61]
    ensures Typed(VUint(300), TUint(W32)) && Encode(TUint(W32), 20, VUint(300), true) == [0x0F, 0x14, 0xAC, 0x02]
  {
    hide Varint;
    VarintSmall(1);
    VarintSmall(20);
    LongNumber();
  }

  lemma LongNumber()
    ensures Varint(300) == [0xAC, 0x02]
  {
    VarintSmall(2);
  }

  lemma SmallUint(u: nat)
    requires u < 128
    ensures Typed(VUint(u), TUint(W8)) && Encode(TUint(W8), 0, VUint(u), true) == [0x00, u as byte]
  {
    VarintSmall(u);
  }

  /** The bytes of a slice of two numbers. */
  lemma SliceExample()
    ensures Typed(VVec([VUint(1), VUint(2)]), TVec(TUint(W8)))
    ensures Encode(TVec(TUint(W8)), 1, VVec([VUint(1), VUint(2)]), true) == [0x51, 0x02, 0x00, 0x01, 0x00, 0x02]
  {
    SmallUint(1);
    SmallUint(2);
    VarintSmall(2);
    hide Varint, Encode;
    var e, vs := TUint(W8), [VUint(1), VUint(2)];
    assert vs[1..] == [VUint(2)] && vs[1..][1..] == [];
    assert EncodeElems(e, []) == [];
    assert EncodeElems(e, vs[1..]) == [0x00, 0x02] + EncodeElems(e, []);
    assert EncodeElems(e, vs) == [0x00, 0x01] + EncodeElems(e, vs[1..]);
    SliceBytes(e, vs, [0x00, 0x01, 0x00, 0x02]);
  }

  lemma SliceBytes(e: Ty, vs: seq<Value>, body: seq<byte>)
    requires Typed(VVec(vs), TVec(e)) && |vs| == 2 && EncodeElems(e, vs) == body && Varint(2) == [0x02]
    ensures Encode(TVec(e), 1, VVec(vs), true) == [0x51] + ([0x02] + body)
  {
    hide Varint, EncodeElems;
  }

  /** The bytes of a map with one pair. */
  lemma MapExample()
    ensures Typed(VMap([Pair(VUint(1), VBool(true))]), TMap(TUint(W8), TBool))
    ensures Encode(TMap(TUint(W8), TBool), 0, VMap([Pair(VUint(1), VBool(true))]), true) == [0x60, 0x01, 0x00, 0x01, 0x00, 0x01]
  {
    SmallUint(1);
    VarintSmall(1);
    var k, e, ps := TUint(W8), TBool, [Pair(VUint(1), VBool(true))];
    assert Encode(e, 0, ps[0].val, true) == [0x00, 0x01];
    hide Varint, Encode;
    assert ps[1..] == [] && EncodePairs(k, e, []) == [];
    assert EncodePair(k, e, ps[0]) == [0x00, 0x01, 0x00, 0x01];
    assert EncodePairs(k, e, ps) == [0x00, 0x01, 0x00, 0x01] + EncodePairs(k, e, ps[1..]);
    MapBytes(k, e, ps, [0x00, 0x01, 0x00, 0x01]);
  }

  lemma MapBytes(k: Ty, e: Ty, ps: seq<Pair>, body: seq<byte>)
    requires Typed(VMap(ps), TMap(k, e)) && |ps| == 1 && EncodePairs(k, e, ps) == body && Varint(1) == [0x01]
    ensures Encode(TMap(k, e), 0, VMap(ps), true) == [0x60] + ([0x01] + body)
  {
    hide Varint, EncodePairs;
  }

  // ---- a number read into another type

  /** The number a scalar stands for. */
  function NumberOf(v: Value): int
  {
    match v
    case VBool(b) => if b then 1 else 0
    case VInt(i) => i
    case VUint(u) => u
    case _ => 0
  }

  /**
   A scalar read into a target of another scalar type. A number that fits the target arrives as it is, with one
   exception: the smallest number of a signed width arrives positive in every wider signed target, because it is its own
   negation at the width of the writer. A negative number leaves an unsigned or boolean target alone.
   */
  lemma ScalarRead(t: Ty, v: Value, t': Ty, x: Value)
    requires Typed(v, t) && Typed(x, t') && (t.TBool? || t.TInt? || t.TUint?)
    ensures var n, r := NumberOf(v), Coerce(t, v, Some(t'), x);
            && (t'.TInt? && -Half(t'.w) <= n < Half(t'.w) ==>
                  r == VInt(if t.TInt? && n == -Half(t.w) && t'.w != t.w then Half(t.w) else n))
            && (t'.TUint? && 0 <= n < Mod(t'.w) ==> r == VUint(n))
            && (t'.TBool? && n >= 0 ==> r == VBool(n > 0))
            && (n < 0 && (t'.TUint? || t'.TBool?) ==> r == x)
            && (!t'.TBool? && !t'.TInt? && !t'.TUint? ==> r == x)
  {
    NumberIs(t, v);
    match t'
    case TInt(w) => if -Half(w) <= NumberOf(v) < Half(w) { ReadSigned(t, v, w, x); }
    case TUint(w) => if 0 <= NumberOf(v) { ReadUnsigned(NumberOf(v), w); }
    case _ =>
  }

  /** What the wire says of a number that is not negative, and of one that is. */
  lemma NumberIs(t: Ty, v: Value)
    requires Typed(v, t) && (t.TBool? || t.TInt? || t.TUint?)
    ensures if NumberOf(v) >= 0 then NumberFor(v, t) == (0, NumberOf(v)) else NumberFor(v, t).0 == 1 && t.TInt?
  {
    hide Signed;
  }

  lemma ReadUnsigned(n: nat, w: Width)
    ensures n < Mod(w) ==> n % Mod(w) == n
  {
  }

  lemma ReadSigned(t: Ty, v: Value, w: Width, x: Value)
    requires Typed(v, t) && (t.TBool? || t.TInt? || t.TUint?) && -Half(w) <= NumberOf(v) < Half(w)
    ensures var m := NumberFor(v, t);
            (if m.0 == 0 then SetPositive(TInt(w), x, m.1) else SetNegative(TInt(w), x, m.1))
            == VInt(if t.TInt? && NumberOf(v) == -Half(t.w) && w != t.w then Half(t.w) else NumberOf(v))
  {
    hide Signed, Mod, Half;
    NumberIs(t, v);
    if NumberOf(v) >= 0 { SignedSame(w, NumberOf(v)); } else { NegativeRead(t.w, v.i, w); }
    if t.TInt? { HalfPositive(t.w); }
  }

  lemma HalfPositive(w: Width)
    ensures Half(w) > 0
  {
  }

  /** A negative number through the wire, from one width to another. */
  lemma NegativeRead(w: Width, i: int, w': Width)
    requires -Half(w) <= i < 0 && -Half(w') <= i
    ensures Signed(w', 0 - (Signed(w, -i) % TWO64)) == if i == -Half(w) && w' != w then Half(w) else i
  {
    if w == w' {
      NegateTwice(w, i);
    } else if i == -Half(w) {
      SmallestWider(w, w');
    } else {
      hide Signed;
      SignedSame(w, -i);
      SignedSame(w', i);
      HalfBelow(w);
      assert -i % TWO64 == -i;
    }
  }

  lemma SmallestWider(w: Width, w': Width)
    requires w != w' && Half(w) <= Half(w')
    ensures Signed(w', 0 - (Signed(w, Half(w)) % TWO64)) == Half(w)
  {
    var h := Half(w);
    assert Signed(w, h) == -h;
    assert -h % TWO64 == TWO64 - h by { HalfBelow(w); }
    assert Signed(w', h - TWO64) == h by {
      match w'
      case W8 =>
      case W16 => assert (h - TWO64 + 32768) % 65536 == h + 32768;
      case W32 => assert (h - TWO64 + 2147483648) % TWO32 == h + 2147483648;
      case W64 => assert (h - TWO64 + TWO63) % TWO64 == h + TWO63;
    }
  }
}
