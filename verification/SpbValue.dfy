/**
 Schemas and values. A schema stands for a Go type: booleans, integers of every width, strings, slices, maps
 and structs whose fields may carry a `tag` and a `require` mark. A map value lists its pairs in the order in
 which the program happens to enumerate them.
 */
module SpbValue {
  import opened Bytes
  import opened SpbWire

  datatype Width = W8 | W16 | W32 | W64

  function Mod(w: Width): (m: int)
    ensures m > 0
  {
    match w case W8 => 256 case W16 => 65536 case W32 => TWO32 case W64 => TWO64
  }

  function Half(w: Width): (h: int)
    ensures 2 * h == Mod(w) && h > 0
  {
    match w case W8 => 128 case W16 => 32768 case W32 => 2147483648 case W64 => TWO63
  }

  datatype Ty = TBool | TInt(w: Width) | TUint(w: Width) | TStr | TVec(elem: Ty) | TMap(key: Ty, val: Ty)
              | TStruct(fields: seq<Field>)

  datatype Field = Field(tag: Option<nat>, require: bool, ty: Ty)

  datatype Value = VBool(b: bool) | VInt(i: int) | VUint(u: nat) | VStr(s: seq<byte>) | VVec(elems: seq<Value>)
                 | VMap(pairs: seq<Pair>) | VStruct(fields: seq<Value>)

  datatype Pair = Pair(key: Value, val: Value)

  predicate DistinctKeys(ps: seq<Pair>)
  {
    forall i, j :: 0 <= i < j < |ps| ==> ps[i].key != ps[j].key
  }

  predicate Typed(v: Value, t: Ty)
    decreases v
  {
    match t
    case TBool => v.VBool?
    case TInt(w) => v.VInt? && -Half(w) <= v.i < Half(w)
    case TUint(w) => v.VUint? && v.u < Mod(w)
    case TStr => v.VStr?
    case TVec(e) => v.VVec? && forall i :: 0 <= i < |v.elems| ==> Typed(v.elems[i], e)
    case TMap(k, e) =>
      && v.VMap? && DistinctKeys(v.pairs)
      && forall i :: 0 <= i < |v.pairs| ==> Typed(v.pairs[i].key, k) && Typed(v.pairs[i].val, e)
    case TStruct(fs) => v.VStruct? && |v.fields| == |fs| && RestTyped(fs, v.fields, 0)
  }

  /** `vs` are values of the fields from `i` on. */
  predicate RestTyped(fs: seq<Field>, vs: seq<Value>, i: nat)
    decreases vs
  {
    i + |vs| == |fs| && forall j :: 0 <= j < |vs| ==> Typed(vs[j], fs[i + j].ty)
  }

  lemma RestSplit(fs: seq<Field>, vs: seq<Value>, i: nat)
    requires RestTyped(fs, vs, i) && vs != []
    ensures Typed(vs[0], fs[i].ty) && RestTyped(fs, vs[1..], i + 1)
  {
    assert Typed(vs[0], fs[i + 0].ty);
    forall j | 0 <= j < |vs[1..]| ensures Typed(vs[1..][j], fs[i + 1 + j].ty) {
      assert Typed(vs[j + 1], fs[i + (j + 1)].ty);
    }
  }

  function Zero(t: Ty): (v: Value)
    decreases t
  {
    match t
    case TBool => VBool(false)
    case TInt(_) => VInt(0)
    case TUint(_) => VUint(0)
    case TStr => VStr([])
    case TVec(_) => VVec([])
    case TMap(_, _) => VMap([])
    case TStruct(fs) => VStruct(seq(|fs|, i requires 0 <= i < |fs| => Zero(fs[i].ty)))
  }

  lemma {:induction false} ZeroTyped(t: Ty)
    ensures Typed(Zero(t), t)
    decreases t
  {
    if t.TStruct? {
      forall i | 0 <= i < |t.fields| ensures Typed(Zero(t).fields[i], t.fields[0 + i].ty) {
        ZeroTyped(t.fields[i].ty);
      }
    }
  }

  // ---- integers on the wire

  /** `v` cut to the width, as a signed number. */
  function Signed(w: Width, v: int): (r: int)
    ensures -Half(w) <= r < Half(w)
  {
    (v + Half(w)) % Mod(w) - Half(w)
  }

  /** Wire type and number of a scalar. The negation of the smallest number of a width is that number itself. */
  function NumberFor(v: Value, t: Ty): (r: (nat, nat))
    requires Typed(v, t) && (t.TBool? || t.TInt? || t.TUint?)
    ensures r.0 <= 1 && r.1 < TWO64
  {
    match t
    case TBool => (0, if v.b then 1 else 0)
    case TUint(w) => UintBelow(w, v.u); (0, v.u)
    case TInt(w) => IntBelow(w, v.i); if v.i >= 0 then (0, v.i) else (1, Signed(w, -v.i) % TWO64)
  }

  lemma UintBelow(w: Width, u: nat)
    requires u < Mod(w)
    ensures u < TWO64
  {
  }

  lemma IntBelow(w: Width, i: int)
    requires i < Half(w)
    ensures i < TWO64
  {
  }

  /** What a positive number stores into a target of type `t` that holds `x`. */
  function SetPositive(t: Ty, x: Value, v: nat): (r: Value)
    ensures Typed(x, t) ==> Typed(r, t)
  {
    match t
    case TUint(w) => VUint(v % Mod(w))
    case TInt(w) => VInt(Signed(w, v))
    case TBool => VBool(v > 0)
    case _ => x
  }

  function SetNegative(t: Ty, x: Value, v: nat): (r: Value)
    ensures Typed(x, t) ==> Typed(r, t)
  {
    match t
    case TInt(w) => VInt(Signed(w, 0 - v))
    case _ => x
  }

  lemma SignedSame(w: Width, i: int)
    requires -Half(w) <= i < Half(w)
    ensures Signed(w, i) == i
  {
  }

  /** Negating twice, through 64 bits, gives the number back, the smallest one included. */
  lemma NegateTwice(w: Width, i: int)
    requires -Half(w) <= i < 0
    ensures Signed(w, -(Signed(w, -i) % TWO64)) == i
  {
    if i == -Half(w) {
      NegateSmallest(w);
    } else {
      hide Signed;
      SignedSame(w, -i);
      SignedSame(w, i);
      HalfBelow(w);
      assert -i % TWO64 == -i;
    }
  }

  lemma HalfBelow(w: Width)
    ensures Half(w) < TWO64
  {
  }

  lemma NegateSmallest(w: Width)
    ensures Signed(w, -(Signed(w, Half(w)) % TWO64)) == -Half(w)
  {
    var h := Half(w);
    assert Signed(w, h) == -h;
    assert -h % TWO64 == TWO64 - h by { HalfBelow(w); }
    assert (h - (TWO64 - h)) % Mod(w) == 0 by {
      match w
      case W8 => assert (256 - TWO64) % 256 == 0;
      case W16 => assert (65536 - TWO64) % 65536 == 0;
      case W32 => assert (TWO32 - TWO64) % TWO32 == 0;
      case W64 => assert 0 % TWO64 == 0;
    }
  }

  /** A scalar stored into a target of its own type. */
  lemma ScalarSame(t: Ty, v: Value, x: Value)
    requires Typed(v, t) && (t.TBool? || t.TInt? || t.TUint?)
    ensures var n := NumberFor(v, t); (if n.0 == 0 then SetPositive(t, x, n.1) else SetNegative(t, x, n.1)) == v
  {
    if t.TInt? {
      if v.i >= 0 { SignedSame(t.w, v.i); } else { NegateTwice(t.w, v.i); }
    }
  }

  // ---- fields

  /** The tag a field has on the wire: its own, or its position. */
  function TagOf(fs: seq<Field>, i: nat): nat
    requires i < |fs|
  {
    if fs[i].tag.Some? then fs[i].tag.value else i
  }

  /** The first field from `i` on that carries the tag. */
  function Tagged(fs: seq<Field>, tag: nat, i: nat): (r: Option<nat>)
    ensures r.Some? ==> i <= r.value < |fs| && fs[r.value].tag == Some(tag)
    ensures r.None? ==> forall j :: i <= j < |fs| ==> fs[j].tag != Some(tag)
    decreases |fs| - i
  {
    if i >= |fs| then None else if fs[i].tag == Some(tag) then Some(i) else Tagged(fs, tag, i + 1)
  }

  /** The field a tag is decoded into: one that carries it, else the untagged one at that position. */
  function FindField(fs: seq<Field>, tag: nat): (r: Option<nat>)
    ensures r.Some? ==> r.value < |fs| && TagOf(fs, r.value) == tag
  {
    var j := Tagged(fs, tag, 0);
    if j.Some? then j
    else if tag < |fs| && fs[tag].tag.None? then Some(tag)
    else None
  }

  predicate DistinctTags(fs: seq<Field>)
  {
    forall i, j :: 0 <= i < j < |fs| ==> TagOf(fs, i) != TagOf(fs, j)
  }

  /** With distinct tags the decoder finds exactly the field the encoder wrote. */
  lemma FindIs(fs: seq<Field>, i: nat)
    requires i < |fs| && DistinctTags(fs)
    ensures FindField(fs, TagOf(fs, i)) == Some(i)
  {
  }

  // ---- encoding

  /** A value that is left out unless the field requires it. Structs are always written. */
  predicate Empty(v: Value)
  {
    match v
    case VBool(b) => !b
    case VInt(i) => i == 0
    case VUint(u) => u == 0
    case VStr(s) => s == []
    case VVec(vs) => vs == []
    case VMap(ps) => ps == []
    case VStruct(_) => false
  }

  function WireType(v: Value): (r: nat)
    ensures r <= 7
  {
    match v
    case VBool(_) => 0
    case VInt(i) => if i < 0 then 1 else 0
    case VUint(_) => 0
    case VStr(_) => 4
    case VVec(_) => 5
    case VMap(_) => 6
    case VStruct(_) => 7
  }

  /** The bytes behind the header. */
  function Content(t: Ty, v: Value): seq<byte>
    requires Typed(v, t)
    decreases v, 0
  {
    match t
    case TBool => Varint(NumberFor(v, t).1)
    case TInt(_) => Varint(NumberFor(v, t).1)
    case TUint(_) => Varint(NumberFor(v, t).1)
    case TStr => Varint(|v.s|) + v.s
    case TVec(e) => Varint(|v.elems|) + EncodeElems(e, v.elems)
    case TMap(k, e) => Varint(|v.pairs|) + EncodePairs(k, e, v.pairs)
    case TStruct(fs) => EncodeFields(fs, v.fields, 0) + HeadOf(0, 8)
  }

  function Encode(t: Ty, tag: nat, v: Value, require: bool): seq<byte>
    requires Typed(v, t)
    decreases v, 1
  {
    if Empty(v) && !require then [] else HeadOf(tag, WireType(v)) + Content(t, v)
  }

  function EncodeElems(e: Ty, vs: seq<Value>): seq<byte>
    requires forall i :: 0 <= i < |vs| ==> Typed(vs[i], e)
    decreases vs
  {
    if vs == [] then [] else Encode(e, 0, vs[0], true) + EncodeElems(e, vs[1..])
  }

  function EncodePair(k: Ty, e: Ty, p: Pair): seq<byte>
    requires Typed(p.key, k) && Typed(p.val, e)
    decreases p
  {
    Encode(k, 0, p.key, true) + Encode(e, 0, p.val, true)
  }

  function EncodePairs(k: Ty, e: Ty, ps: seq<Pair>): seq<byte>
    requires forall i :: 0 <= i < |ps| ==> Typed(ps[i].key, k) && Typed(ps[i].val, e)
    decreases ps
  {
    if ps == [] then [] else EncodePair(k, e, ps[0]) + EncodePairs(k, e, ps[1..])
  }

  /** The fields from `i` on; `vs` are their values. */
  function EncodeFields(fs: seq<Field>, vs: seq<Value>, i: nat): seq<byte>
    requires RestTyped(fs, vs, i)
    decreases vs
  {
    if vs == [] then []
    else
      RestSplit(fs, vs, i);
      Encode(fs[i].ty, TagOf(fs, i) % TWO32, vs[0], fs[i].require) + EncodeFields(fs, vs[1..], i + 1)
  }
}
