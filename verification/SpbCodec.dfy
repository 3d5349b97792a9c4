/**
 The decoder. It is driven by the bytes: every header names a wire type and a tag, and what the target cannot
 take is skipped. The result carries the target as it stands afterwards, what is left of the buffer and the
 error; `len` is the length of the whole buffer. Being functions, the readers end on every input.
 */
module SpbCodec {
  import opened Bytes
  import opened SpbWire
  import opened SpbValue

  // ---- skipping

  datatype Skipped = Skipped(rest: seq<byte>, panic: bool)

  /** Skips what follows a header of the given type. Errors are ignored; what could not be read stays. */
  function SkipField(typ: nat, b: seq<byte>, len: nat): (r: Skipped)
    requires |b| <= len
    ensures |r.rest| <= |b|
    decreases |b|, 0, 2
  {
    if typ <= 3 then Skipped(ReadNumber(b).rest, false)
    else if typ <= 6 then
      var n := ReadNumber(b);
      if n.err != Fine then Skipped(b, false)
      else if typ == 4 then
        var raw := ReadBytes(n.rest, n.value, len);
        Skipped(raw.rest, raw.err == Panic)
      else SkipMany(if typ == 5 then Count(n.value) else 2 * Count(n.value), n.rest, len)
    else if typ == 7 then SkipToStructEnd(b, len)
    else Skipped(b, false)
  }

  function SkipHeadField(b: seq<byte>, len: nat): (r: Skipped)
    requires |b| <= len
    ensures |r.rest| <= |b|
    decreases |b|, 0, 0
  {
    var h := ReadHeader(b);
    if h.err != Fine then Skipped(h.rest, false) else SkipField(h.typ, h.rest, len)
  }

  function SkipMany(n: nat, b: seq<byte>, len: nat): (r: Skipped)
    requires |b| <= len
    ensures |r.rest| <= |b|
    decreases |b|, n, 1
  {
    if n == 0 then Skipped(b, false)
    else
      var s := SkipHeadField(b, len);
      if s.panic then s else SkipMany(n - 1, s.rest, len)
  }

  function SkipToStructEnd(b: seq<byte>, len: nat): (r: Skipped)
    requires |b| <= len
    ensures |r.rest| <= |b|
    decreases |b|, 0, 1
  {
    var h := ReadHeader(b);
    if h.err != Fine then Skipped(h.rest, false)
    else if h.typ == 8 then Skipped(h.rest, false)
    else
      var s := SkipField(h.typ, h.rest, len);
      if s.panic then s else SkipToStructEnd(s.rest, len)
  }

  // ---- decoding

  datatype Result = Result(value: Value, rest: seq<byte>, err: Error)

  datatype Results = Results(values: seq<Value>, rest: seq<byte>, err: Error)

  datatype Pairs = Pairs(pairs: seq<Pair>, rest: seq<byte>, err: Error)

  /** The position of a key among the first `n` pairs. */
  function KeyAt(ps: seq<Pair>, k: Value, n: nat): (r: Option<nat>)
    requires n <= |ps|
    ensures r.Some? ==> r.value < n && ps[r.value].key == k
    ensures r.None? ==> forall i :: 0 <= i < n ==> ps[i].key != k
  {
    if n == 0 then None else if ps[n - 1].key == k then Some(n - 1) else KeyAt(ps, k, n - 1)
  }

  /** `m[k] = v`. */
  function PutPair(ps: seq<Pair>, p: Pair): (r: seq<Pair>)
  {
    var i := KeyAt(ps, p.key, |ps|);
    if i.Some? then ps[i.value := p] else ps + [p]
  }

  /** The map that a list of pairs makes; a later pair wins. */
  function MapOf(ps: seq<Pair>): (r: seq<Pair>)
  {
    if ps == [] then [] else PutPair(MapOf(ps[..|ps| - 1]), ps[|ps| - 1])
  }

  lemma PutDistinct(ps: seq<Pair>, p: Pair)
    requires DistinctKeys(ps)
    ensures DistinctKeys(PutPair(ps, p))
  {
  }

  lemma {:induction false} MapDistinct(ps: seq<Pair>)
    ensures DistinctKeys(MapOf(ps))
    decreases |ps|
  {
    if ps != [] {
      MapDistinct(ps[..|ps| - 1]);
      PutDistinct(MapOf(ps[..|ps| - 1]), ps[|ps| - 1]);
    }
  }

  /** Of the pairs with one key the map has the last, and it has no other keys. */
  lemma {:induction false} LastPairWins(ps: seq<Pair>, i: nat)
    requires i < |ps| && forall j :: i < j < |ps| ==> ps[j].key != ps[i].key
    ensures ps[i] in MapOf(ps)
    decreases |ps|
  {
    var k := |ps| - 1;
    if i < k {
      LastPairWins(ps[..k], i);
      PutKeeps(MapOf(ps[..k]), ps[k], ps[i]);
    } else {
      PutHas(MapOf(ps[..k]), ps[k]);
    }
  }

  lemma PutHas(ps: seq<Pair>, p: Pair)
    ensures p in PutPair(ps, p)
  {
    var i := KeyAt(ps, p.key, |ps|);
    assert PutPair(ps, p)[if i.Some? then i.value else |ps|] == p;
  }

  lemma PutKeeps(ps: seq<Pair>, p: Pair, q: Pair)
    requires q in ps && q.key != p.key
    ensures q in PutPair(ps, p)
  {
    var j :| 0 <= j < |ps| && ps[j] == q;
    assert PutPair(ps, p)[j] == q;
  }

  lemma {:induction false} OnlyThesePairs(ps: seq<Pair>, q: Pair)
    requires q in MapOf(ps)
    ensures q in ps
    decreases |ps|
  {
    if q != ps[|ps| - 1] { OnlyThesePairs(ps[..|ps| - 1], q); }
  }

  predicate PairsTyped(ps: seq<Pair>, k: Ty, e: Ty)
  {
    forall i :: 0 <= i < |ps| ==> Typed(ps[i].key, k) && Typed(ps[i].val, e)
  }

  lemma PutTyped(ps: seq<Pair>, p: Pair, k: Ty, e: Ty)
    requires PairsTyped(ps, k, e) && Typed(p.key, k) && Typed(p.val, e)
    ensures PairsTyped(PutPair(ps, p), k, e)
  {
    hide Typed;
  }

  lemma {:induction false} MapTyped(ps: seq<Pair>, k: Ty, e: Ty)
    requires PairsTyped(ps, k, e)
    ensures PairsTyped(MapOf(ps), k, e)
    decreases |ps|
  {
    hide Typed;
    if ps != [] {
      var t, p := ps[..|ps| - 1], ps[|ps| - 1];
      MapTyped(t, k, e);
      PutTyped(MapOf(t), p, k, e);
    }
  }

  /** A target of a known type, or none: what is decoded into none is skipped. */
  predicate Fits(x: Value, t: Option<Ty>) { t.Some? ==> Typed(x, t.value) }

  /** Decodes what follows a header of type `typ` into the target `x`. */
  function Body(typ: nat, t: Option<Ty>, x: Value, b: seq<byte>, len: nat): (r: Result)
    requires |b| <= len && Fits(x, t)
    ensures |r.rest| <= |b| && Fits(r.value, t)
    decreases |b|, 0, 2
  {
    if typ <= 3 then BodyNumber(typ, t, x, b)
    else if typ == 4 then BodyString(t, x, b, len)
    else if typ == 5 then BodyVector(t, x, b, len)
    else if typ == 6 then BodyMap(t, x, b, len)
    else if typ == 7 then
      if t.Some? && t.value.TStruct? then BodyStruct(t.value.fields, x.fields, b, len)
      else
        var s := SkipToStructEnd(b, len);
        Result(x, s.rest, if s.panic then Panic else Fine)
    else Result(x, b, if typ == 8 then StructEnd else InvalidType)
  }

  function BodyNumber(typ: nat, t: Option<Ty>, x: Value, b: seq<byte>): (r: Result)
    requires Fits(x, t)
    ensures |r.rest| <= |b| && Fits(r.value, t)
  {
    var n := ReadNumber(b);
    if n.err != Fine then Result(x, n.rest, n.err)
    else if t.None? || typ > 1 then Result(x, n.rest, Fine)
    else Result(if typ == 0 then SetPositive(t.value, x, n.value) else SetNegative(t.value, x, n.value), n.rest, Fine)
  }

  function BodyString(t: Option<Ty>, x: Value, b: seq<byte>, len: nat): (r: Result)
    requires |b| <= len && Fits(x, t)
    ensures |r.rest| <= |b| && Fits(r.value, t)
  {
    var n := ReadNumber(b);
    if n.err != Fine then Result(x, n.rest, n.err)
    else
      var raw := ReadBytes(n.rest, n.value, len);
      if raw.err != Fine then Result(x, raw.rest, raw.err)
      else Result(if t == Some(TStr) then VStr(raw.bytes) else x, raw.rest, Fine)
  }

  /** A slice target is emptied before its elements are read. */
  function BodyVector(t: Option<Ty>, x: Value, b: seq<byte>, len: nat): (r: Result)
    requires |b| <= len && Fits(x, t)
    ensures |r.rest| <= |b| && Fits(r.value, t)
    decreases |b|, 0, 1
  {
    var n := ReadNumber(b);
    if n.err != Fine then Result(x, n.rest, n.err)
    else if t.Some? && t.value.TVec? then
      var r := UnpackElems(t.value.elem, Count(n.value), n.rest, len);
      Result(VVec(if r.err == Fine then r.values else []), r.rest, r.err)
    else
      var s := SkipMany(Count(n.value), n.rest, len);
      Result(x, s.rest, if s.panic then Panic else Fine)
  }

  function BodyMap(t: Option<Ty>, x: Value, b: seq<byte>, len: nat): (r: Result)
    requires |b| <= len && Fits(x, t)
    ensures |r.rest| <= |b| && Fits(r.value, t)
    decreases |b|, 0, 1
  {
    var n := ReadNumber(b);
    if n.err != Fine then Result(x, n.rest, n.err)
    else if t.Some? && t.value.TMap? then
      var r := UnpackPairs(t.value.key, t.value.val, Count(n.value), n.rest, len);
      if r.err != Fine then Result(x, r.rest, r.err)
      else
        MapDistinct(r.pairs);
        MapTyped(r.pairs, t.value.key, t.value.val);
        Result(VMap(MapOf(r.pairs)), r.rest, Fine)
    else
      var s := SkipMany(2 * Count(n.value), n.rest, len);
      Result(x, s.rest, if s.panic then Panic else Fine)
  }

  predicate FieldsTyped(xs: seq<Value>, fs: seq<Field>)
  {
    RestTyped(fs, xs, 0)
  }

  lemma FieldTyped(xs: seq<Value>, fs: seq<Field>, j: nat)
    requires FieldsTyped(xs, fs) && j < |fs|
    ensures |xs| == |fs| && Typed(xs[j], fs[j].ty)
  {
    assert Typed(xs[j], fs[0 + j].ty);
  }

  lemma FieldPut(xs: seq<Value>, fs: seq<Field>, j: nat, x: Value)
    requires FieldsTyped(xs, fs) && j < |fs| && Typed(x, fs[j].ty)
    ensures |xs| == |fs| && FieldsTyped(xs[j := x], fs)
  {
    assert Typed(xs[j := x][j], fs[0 + j].ty);
  }

  /** The fields of a struct, one header after the other, until its end. */
  function BodyStruct(fs: seq<Field>, xs: seq<Value>, b: seq<byte>, len: nat): (r: Result)
    requires |b| <= len && FieldsTyped(xs, fs)
    ensures |r.rest| <= |b| && r.value.VStruct? && FieldsTyped(r.value.fields, fs)
    decreases |b|, 0, 1
  {
    var h := ReadHeader(b);
    if h.err != Fine then Result(VStruct(xs), h.rest, h.err)
    else
      var r := BodyField(h.typ, FindField(fs, h.tag), fs, xs, h.rest, len);
      if r.err == StructEnd then Result(VStruct(r.values), r.rest, Fine)
      else if r.err != Fine then Result(VStruct(r.values), r.rest, r.err)
      else BodyStruct(fs, r.values, r.rest, len)
  }

  /** One field: decoded into field `j` of the target, or skipped. */
  function BodyField(typ: nat, j: Option<nat>, fs: seq<Field>, xs: seq<Value>, b: seq<byte>, len: nat): (r: Results)
    requires |b| <= len && FieldsTyped(xs, fs) && (j.Some? ==> j.value < |fs|)
    ensures |r.rest| <= |b| && FieldsTyped(r.values, fs)
    decreases |b|, 0, 3
  {
    if j.Some? then
      FieldTyped(xs, fs, j.value);
      var r := Body(typ, Some(fs[j.value].ty), xs[j.value], b, len);
      FieldPut(xs, fs, j.value, r.value);
      Results(xs[j.value := r.value], r.rest, r.err)
    else
      var r := Body(typ, None, VBool(false), b, len);
      Results(xs, r.rest, r.err)
  }

  /** Header and body. */
  function Unpack(t: Ty, x: Value, b: seq<byte>, len: nat): (r: Result)
    requires |b| <= len && Typed(x, t)
    ensures |r.rest| <= |b| && Typed(r.value, t)
    ensures r.err == Fine ==> |r.rest| < |b|
    decreases |b|, 0, 0
  {
    var h := ReadHeader(b);
    if h.err != Fine then Result(x, h.rest, h.err) else Body(h.typ, Some(t), x, h.rest, len)
  }

  function UnpackElems(e: Ty, n: nat, b: seq<byte>, len: nat): (r: Results)
    requires |b| <= len
    ensures |r.rest| <= |b| && (r.err == Fine ==> |r.values| == n)
    ensures forall i :: 0 <= i < |r.values| ==> Typed(r.values[i], e)
    decreases |b|, n, 1
  {
    if n == 0 then Results([], b, Fine)
    else
      ZeroTyped(e);
      var r := Unpack(e, Zero(e), b, len);
      if r.err != Fine then Results([], r.rest, r.err)
      else
        var more := UnpackElems(e, n - 1, r.rest, len);
        Results([r.value] + more.values, more.rest, more.err)
  }

  function UnpackPairs(k: Ty, e: Ty, n: nat, b: seq<byte>, len: nat): (r: Pairs)
    requires |b| <= len
    ensures |r.rest| <= |b| && PairsTyped(r.pairs, k, e)
    decreases |b|, n, 1
  {
    if n == 0 then Pairs([], b, Fine)
    else
      ZeroTyped(k);
      ZeroTyped(e);
      var key := Unpack(k, Zero(k), b, len);
      if key.err != Fine then Pairs([], key.rest, key.err)
      else
        var val := Unpack(e, Zero(e), key.rest, len);
        if val.err != Fine then Pairs([], val.rest, val.err)
        else
          var more := UnpackPairs(k, e, n - 1, val.rest, len);
          Pairs([Pair(key.value, val.value)] + more.pairs, more.rest, more.err)
  }
}
