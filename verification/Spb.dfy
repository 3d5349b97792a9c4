/**
 The codec object: a byte buffer that packing appends to, and an index that unpacking moves forward. Every
 method is proved against the encoder and the decoder of the other modules; in particular the index never
 moves back and never leaves the buffer, on any bytes.
 */
module Spb {
  import opened Bytes
  import opened SpbWire
  import opened SpbValue
  import opened SpbCodec
  import SpbTheorems

  class Spb {
    var buf: seq<byte>
    var index: nat

    constructor (buf: seq<byte>)
      ensures this.buf == buf && index == 0
    {
      this.buf, index := buf, 0;
    }

    ghost predicate Valid()
      reads this
    {
      index <= |buf|
    }

    /** What is still to be read. */
    ghost function Rest(): seq<byte>
      requires Valid()
      reads this
    {
      buf[index..]
    }

    // ---- packing

    method PackNumber(x: nat)
      modifies this`buf
      ensures buf == old(buf) + Varint(x)
    {
      var y := x;
      while y >= 128
        invariant buf + Varint(y) == old(buf) + Varint(x)
      {
        buf := buf + [(y % 128 + 128) as byte];
        y := y / 128;
      }
      buf := buf + [y as byte];
    }

    method PackHeader(tag: nat, typ: nat)
      requires typ < 16
      modifies this`buf
      ensures buf == old(buf) + HeadOf(tag, typ)
    {
      if tag < 15 {
        buf := buf + [(typ * 16 + tag) as byte];
      } else {
        buf := buf + [(typ * 16 + 15) as byte];
        PackNumber(tag);
      }
    }

    /** Type and magnitude of a scalar, computed at its own width. */
    method Scalar(t: Ty, v: Value) returns (typ: nat, val: nat)
      requires Typed(v, t) && (t.TBool? || t.TInt? || t.TUint?)
      ensures typ == WireType(v) && (typ, val) == NumberFor(v, t)
      ensures val == 0 <==> Empty(v)
    {
      typ := 0;
      match t
      case TBool => val := if v.b then 1 else 0;
      case TUint(w) => val := v.u;
      case TInt(w) =>
        var n := v.i;
        if n < 0 {
          typ := 1;
          n := Signed(w, -n);
          NegatedNonZero(w, v.i);
        }
        val := n % TWO64;
        IntBelow(w, v.i);
    }

    method PackString(tag: nat, s: seq<byte>, require: bool)
      modifies this`buf
      ensures buf == old(buf) + Encode(TStr, tag, VStr(s), require)
    {
      hide Varint, HeadOf;
      if |s| == 0 && !require { return; }
      PackHeader(tag, 4);
      PackNumber(|s|);
      buf := buf + s;
    }

    method PackScalar(t: Ty, tag: nat, v: Value, require: bool)
      requires Typed(v, t) && (t.TBool? || t.TInt? || t.TUint?)
      modifies this`buf
      ensures buf == old(buf) + Encode(t, tag, v, require)
    {
      hide Varint, HeadOf, NumberFor;
      var typ, val := Scalar(t, v);
      if val == 0 && !require { return; }
      PackHeader(tag, typ);
      PackNumber(val);
    }

    method PackSlice(e: Ty, tag: nat, vs: seq<Value>, require: bool)
      requires Typed(VVec(vs), TVec(e))
      modifies this`buf
      ensures buf == old(buf) + Encode(TVec(e), tag, VVec(vs), require)
      decreases vs
    {
      hide Varint, HeadOf, Content, EncodeElems;
      if |vs| == 0 && !require { return; }
      PackHeader(tag, 5);
      PackNumber(|vs|);
      PackElems(e, vs);
      ContentOfVector(e, vs);
    }

    method PackElems(e: Ty, vs: seq<Value>)
      requires forall i :: 0 <= i < |vs| ==> Typed(vs[i], e)
      modifies this`buf
      ensures buf == old(buf) + EncodeElems(e, vs)
      decreases vs, 0
    {
      hide Encode, Typed;
      ghost var goal := buf + EncodeElems(e, vs);
      assert vs[0..] == vs;
      for i := 0 to |vs|
        invariant buf + EncodeElems(e, vs[i..]) == goal
      {
        assert vs[i..][1..] == vs[i + 1..];
        Pack(e, 0, vs[i], true);
      }
    }

    method PackMap(k: Ty, e: Ty, tag: nat, ps: seq<Pair>, require: bool)
      requires Typed(VMap(ps), TMap(k, e))
      modifies this`buf
      ensures buf == old(buf) + Encode(TMap(k, e), tag, VMap(ps), require)
      decreases ps
    {
      hide Varint, HeadOf, Content, EncodePairs;
      if |ps| == 0 && !require { return; }
      PackHeader(tag, 6);
      PackNumber(|ps|);
      PackPairs(k, e, ps);
      ContentOfMap(k, e, ps);
    }

    method PackPair(k: Ty, e: Ty, p: Pair)
      requires Typed(p.key, k) && Typed(p.val, e)
      modifies this`buf
      ensures buf == old(buf) + EncodePair(k, e, p)
      decreases p
    {
      hide Encode;
      Pack(k, 0, p.key, true);
      Pack(e, 0, p.val, true);
    }

    method PackPairs(k: Ty, e: Ty, ps: seq<Pair>)
      requires forall i :: 0 <= i < |ps| ==> Typed(ps[i].key, k) && Typed(ps[i].val, e)
      modifies this`buf
      ensures buf == old(buf) + EncodePairs(k, e, ps)
      decreases ps, 0
    {
      hide EncodePair, EncodePairs, Typed;
      ghost var goal := buf + EncodePairs(k, e, ps);
      assert ps[0..] == ps;
      for i := 0 to |ps|
        invariant buf + EncodePairs(k, e, ps[i..]) == goal
      {
        PairsFrom(k, e, ps, i);
        PackPair(k, e, ps[i]);
      }
      PairsFrom(k, e, ps, |ps|);
    }

    method PackStruct(fs: seq<Field>, tag: nat, vs: seq<Value>)
      requires RestTyped(fs, vs, 0)
      modifies this`buf
      ensures buf == old(buf) + (HeadOf(tag, 7) + (EncodeFields(fs, vs, 0) + HeadOf(0, 8)))
      decreases vs, 1
    {
      hide HeadOf, EncodeFields, RestTyped;
      PackHeader(tag, 7);
      PackFields(fs, vs);
      PackHeader(0, 8);
    }

    method PackFields(fs: seq<Field>, vs: seq<Value>)
      requires RestTyped(fs, vs, 0)
      modifies this`buf
      ensures buf == old(buf) + EncodeFields(fs, vs, 0)
      decreases vs, 0
    {
      hide Encode, RestTyped, Typed;
      ghost var goal := buf + EncodeFields(fs, vs, 0);
      assert vs[0..] == vs && |vs| == |fs| by { RestSize(fs, vs, 0); }
      for i := 0 to |fs|
        invariant RestTyped(fs, vs[i..], i) && buf + EncodeFields(fs, vs[i..], i) == goal
      {
        assert vs[i..][1..] == vs[i + 1..];
        RestSplit(fs, vs[i..], i);
        var iTg := if fs[i].tag.Some? then fs[i].tag.value else i;
        Pack(fs[i].ty, iTg % TWO32, vs[i], fs[i].require);
      }
    }

    /** Appends the encoding of a value. */
    method Pack(t: Ty, tag: nat, v: Value, require: bool)
      requires Typed(v, t)
      modifies this`buf
      ensures buf == old(buf) + Encode(t, tag, v, require)
      decreases v
    {
      hide Encode, EncodeFields, HeadOf;
      match t
      case TStr => PackString(tag, v.s, require);
      case TVec(e) => PackSlice(e, tag, v.elems, require);
      case TMap(k, e) => PackMap(k, e, tag, v.pairs, require);
      case TStruct(fs) => PackStruct(fs, tag, v.fields); EncodeOfStruct(fs, tag, v, require);
      case _ => PackScalar(t, tag, v, require);
    }

    // ---- unpacking

    method UnpackByte(n: int) returns (x: seq<byte>, err: Error)
      requires Valid() && -TWO63 <= n < TWO63
      modifies this`index
      ensures Valid() && ReadBytes(old(Rest()), n % TWO64, |buf|) == Raw(x, Rest(), err)
    {
      assert AsInt64(n % TWO64) == n;
      if n <= 0 { return [], Fine; }
      if index + n >= TWO63 { return [], Panic; }
      if index + n > |buf| { return [], NoEnoughData; }
      x := buf[index..index + n];
      index := index + n;
      err := Fine;
    }

    /** The loop of `unpackNumber`, from byte `i` on: `x` and `mult` are what it has read and the weight of the next byte. */
    method UnpackNumber() returns (x: nat, err: Error)
      requires Valid()
      modifies this`index
      ensures Valid() && x < TWO64
      ensures var n := ReadNumber(old(Rest())); err == n.err && Rest() == n.rest && (err == Fine ==> x == n.value)
    {
      hide Digits;
      var i: nat, shift: nat, mult: nat, left: nat := index, 0, 1, 10;
      ghost var acc: nat, all := 0, Digits(buf[index..], 10);
      x := 0;
      while shift < 64
        invariant index == old(index) <= i <= |buf| && shift == 70 - 7 * left && 0 <= left <= 10 && mult >= 1
        invariant Continues(all, acc, mult, Digits(buf[i..], left)) && x == acc % TWO64
        decreases left
      {
        Unfold(buf[i..], left);
        if i >= |buf| {
          assert buf[i..] == [];
          return 0, UnexpectedEOF;
        }
        var b := buf[i];
        i := i + 1;
        var d: nat := b as nat % 128;
        x := (x + d * mult) % TWO64;
        ModAdd(acc, d * mult);
        if b < 128 {
          LastDigit(acc, d, mult);
          index := i;
          err := Fine;
          return;
        }
        AddDigit(all, acc, mult, d, Digits(buf[i..], left - 1));
        acc := acc + d * mult;
        shift, mult, left := shift + 7, mult * 128, left - 1;
      }
      Unfold(buf[i..], 0);
      err := Overflow;
      x := 0;
    }

    method UnpackHeader() returns (tag: nat, typ: nat, err: Error)
      requires Valid()
      modifies this`index
      ensures Valid() && typ < 16
      ensures var h := ReadHeader(old(Rest())); err == h.err && Rest() == h.rest && (err == Fine ==> tag == h.tag && typ == h.typ)
    {
      if index >= |buf| { return 0, 0, NoEnoughData; }
      typ, tag := buf[index] as nat / 16, buf[index] as nat % 16;
      ghost var b := Rest();
      index := index + 1;
      assert Rest() == b[1..];
      err := Fine;
      if tag == 15 {
        tag, err := UnpackNumber();
        tag := tag % TWO32;
      }
    }

    // ---- skipping: errors are ignored, only a fault is reported

    method SkipHeadField() returns (panic: bool)
      requires Valid()
      modifies this`index
      ensures Valid() && SpbCodec.SkipHeadField(old(Rest()), |buf|) == Skipped(Rest(), panic)
      decreases |buf| - index, 0, 0
    {
      hide ReadHeader, SpbCodec.SkipField;
      var tag, typ, err := UnpackHeader();
      if err != Fine { return false; }
      panic := SkipField(typ);
    }

    method SkipField(typ: nat) returns (panic: bool)
      requires Valid()
      modifies this`index
      ensures Valid() && SpbCodec.SkipField(typ, old(Rest()), |buf|) == Skipped(Rest(), panic)
      decreases |buf| - index, 0, 2
    {
      hide ReadNumber, ReadBytes, SpbCodec.SkipMany, SpbCodec.SkipToStructEnd;
      panic := false;
      if typ <= 3 {
        var x, err := UnpackNumber();
      } else if typ <= 6 {
        var ln, err := UnpackNumber();
        if err != Fine { return false; }
        if typ == 4 {
          var x, er := UnpackByte(AsInt64(ln));
          panic := er == Panic;
        } else {
          panic := SkipMany(if typ == 5 then Count(ln) else 2 * Count(ln));
        }
      } else if typ == 7 {
        panic := SkipToStructEnd();
      }
    }

    method SkipMany(n: nat) returns (panic: bool)
      requires Valid()
      modifies this`index
      ensures Valid() && SpbCodec.SkipMany(n, old(Rest()), |buf|) == Skipped(Rest(), panic)
      decreases |buf| - index, n, 1
    {
      hide SpbCodec.SkipHeadField;
      for i := 0 to n
        invariant Valid() && old(index) <= index
        invariant SpbCodec.SkipMany(n, old(Rest()), |buf|) == SpbCodec.SkipMany(n - i, Rest(), |buf|)
      {
        panic := SkipHeadField();
        if panic { return; }
      }
      panic := false;
    }

    method SkipToStructEnd() returns (panic: bool)
      requires Valid()
      modifies this`index
      ensures Valid() && SpbCodec.SkipToStructEnd(old(Rest()), |buf|) == Skipped(Rest(), panic)
      decreases |buf| - index, 0, 1
    {
      hide ReadHeader, SpbCodec.SkipField;
      while true
        invariant Valid() && old(index) <= index
        invariant SpbCodec.SkipToStructEnd(old(Rest()), |buf|) == SpbCodec.SkipToStructEnd(Rest(), |buf|)
        decreases |buf| - index
      {
        var tag, typ, err := UnpackHeader();
        if err != Fine || typ == 8 { return false; }
        panic := SkipField(typ);
        if panic { return; }
      }
    }

    // ---- decoding into a target

    method UnpackBodyNumber(typ: nat, t: Option<Ty>, x: Value) returns (y: Value, err: Error)
      requires Valid() && Fits(x, t)
      modifies this`index
      ensures Valid() && BodyNumber(typ, t, x, old(Rest())) == Result(y, Rest(), err)
    {
      hide ReadNumber, Typed;
      y := x;
      var v;
      v, err := UnpackNumber();
      if err != Fine || t.None? { return; }
      if typ == 0 {
        y := SetPositive(t.value, x, v);
      } else if typ == 1 {
        var vv := AsInt64((0 - v) % TWO64);
        NarrowTwice(t.value, x, v, vv);
        y := if t.value.TInt? then VInt(Signed(t.value.w, vv)) else x;
      }
    }

    method UnpackBodyString(t: Option<Ty>, x: Value) returns (y: Value, err: Error)
      requires Valid() && Fits(x, t)
      modifies this`index
      ensures Valid() && BodyString(t, x, old(Rest()), |buf|) == Result(y, Rest(), err)
    {
      hide ReadNumber, ReadBytes, Typed;
      y := x;
      var ln, bt;
      ln, err := UnpackNumber();
      if err != Fine { return; }
      bt, err := UnpackByte(AsInt64(ln));
      if err != Fine { return; }
      if t == Some(TStr) { y := VStr(bt); }
    }

    method UnpackElems(e: Ty, n: nat) returns (vals: seq<Value>, err: Error)
      requires Valid()
      modifies this`index
      ensures Valid()
      ensures var r := SpbCodec.UnpackElems(e, n, old(Rest()), |buf|);
              err == r.err && Rest() == r.rest && (err == Fine ==> vals == r.values)
      decreases |buf| - index, n, 1
    {
      hide SpbCodec.Unpack, Typed, Zero;
      vals := [];
      ghost var all := SpbCodec.UnpackElems(e, n, Rest(), |buf|);
      assert [] + all.values == all.values;
      for i := 0 to n
        invariant Valid() && old(index) <= index
        invariant Joined(all, vals, SpbCodec.UnpackElems(e, n - i, Rest(), |buf|))
      {
        ZeroTyped(e);
        var v;
        v, err := Unpack(e, Zero(e));
        if err != Fine { return; }
        JoinedMore(all, vals, v, SpbCodec.UnpackElems(e, n - i - 1, Rest(), |buf|));
        vals := vals + [v];
      }
      err := Fine;
    }

    method UnpackBodyVector(t: Option<Ty>, x: Value) returns (y: Value, err: Error)
      requires Valid() && Fits(x, t)
      modifies this`index
      ensures Valid() && BodyVector(t, x, old(Rest()), |buf|) == Result(y, Rest(), err)
      decreases |buf| - index, 0, 1
    {
      hide ReadNumber, SpbCodec.UnpackElems, SpbCodec.SkipMany, Typed;
      y := x;
      var ln;
      ln, err := UnpackNumber();
      if err != Fine { return; }
      if t.Some? && t.value.TVec? {
        var vals;
        vals, err := UnpackElems(t.value.elem, Count(ln));
        y := VVec(if err == Fine then vals else []);
      } else {
        var panic := SkipMany(Count(ln));
        err := if panic then Panic else Fine;
      }
    }

    method UnpackPair(k: Ty, e: Ty) returns (p: Pair, err: Error)
      requires Valid() && Typed(Zero(k), k) && Typed(Zero(e), e)
      modifies this`index
      ensures Valid() && (err == Fine ==> old(index) < index)
      ensures var key := SpbCodec.Unpack(k, Zero(k), old(Rest()), |buf|);
              if key.err != Fine then err == key.err && Rest() == key.rest
              else var val := SpbCodec.Unpack(e, Zero(e), key.rest, |buf|);
                   err == val.err && Rest() == val.rest && p == Pair(key.value, val.value)
      decreases |buf| - index, 0, 1
    {
      hide SpbCodec.Unpack, Typed, Zero;
      var key, val;
      key, err := Unpack(k, Zero(k));
      if err != Fine { return Pair(key, key), err; }
      val, err := Unpack(e, Zero(e));
      p := Pair(key, val);
    }

    method UnpackPairs(k: Ty, e: Ty, n: nat) returns (ps: seq<Pair>, err: Error)
      requires Valid()
      modifies this`index
      ensures Valid()
      ensures var r := SpbCodec.UnpackPairs(k, e, n, old(Rest()), |buf|);
              err == r.err && Rest() == r.rest && (err == Fine ==> ps == r.pairs)
      decreases |buf| - index, n, 2
    {
      hide SpbCodec.Unpack, Typed, Zero;
      ps := [];
      ghost var all := SpbCodec.UnpackPairs(k, e, n, Rest(), |buf|);
      assert [] + all.pairs == all.pairs;
      ZeroTyped(k);
      ZeroTyped(e);
      for i := 0 to n
        invariant Valid() && old(index) <= index
        invariant PairsJoined(all, ps, SpbCodec.UnpackPairs(k, e, n - i, Rest(), |buf|))
      {
        var p;
        p, err := UnpackPair(k, e);
        if err != Fine { return; }
        PairsJoinedMore(all, ps, p, SpbCodec.UnpackPairs(k, e, n - i - 1, Rest(), |buf|));
        ps := ps + [p];
      }
      err := Fine;
    }

    /** Stores the pairs into a fresh map one after the other. */
    method MakeMap(ps: seq<Pair>) returns (m: seq<Pair>)
      ensures m == MapOf(ps)
    {
      m := [];
      for i := 0 to |ps|
        invariant m == MapOf(ps[..i])
      {
        assert ps[..i + 1][..i] == ps[..i];
        m := PutPair(m, ps[i]);
      }
      assert ps[..|ps|] == ps;
    }

    method UnpackBodyMap(t: Option<Ty>, x: Value) returns (y: Value, err: Error)
      requires Valid() && Fits(x, t)
      modifies this`index
      ensures Valid() && BodyMap(t, x, old(Rest()), |buf|) == Result(y, Rest(), err)
      decreases |buf| - index, 0, 1
    {
      hide ReadNumber, SpbCodec.UnpackPairs, SpbCodec.SkipMany, Typed, MapOf;
      y := x;
      var ln;
      ln, err := UnpackNumber();
      if err != Fine { return; }
      if t.Some? && t.value.TMap? {
        var ps;
        ps, err := UnpackPairs(t.value.key, t.value.val, Count(ln));
        if err != Fine { return; }
        var m := MakeMap(ps);
        y := VMap(m);
      } else {
        var panic := SkipMany(2 * Count(ln));
        err := if panic then Panic else Fine;
      }
    }

    /** Looks the field of a tag up: first among the tagged fields, then by position. */
    method Lookup(fs: seq<Field>, tag: nat) returns (j: Option<nat>)
      ensures j == FindField(fs, tag)
    {
      for i := 0 to |fs|
        invariant Tagged(fs, tag, 0) == Tagged(fs, tag, i)
      {
        if fs[i].tag == Some(tag) { return Some(i); }
      }
      j := if tag < |fs| && fs[tag].tag.None? then Some(tag) else None;
    }

    method UnpackField(typ: nat, j: Option<nat>, fs: seq<Field>, xs: seq<Value>) returns (ys: seq<Value>, err: Error)
      requires Valid() && FieldsTyped(xs, fs) && (j.Some? ==> j.value < |fs|)
      modifies this`index
      ensures Valid() && BodyField(typ, j, fs, xs, old(Rest()), |buf|) == Results(ys, Rest(), err)
      decreases |buf| - index, 0, 3
    {
      hide SpbCodec.Body, FieldsTyped, Typed;
      var y;
      if j.Some? {
        FieldTyped(xs, fs, j.value);
        y, err := UnpackBody(typ, Some(fs[j.value].ty), xs[j.value]);
        ys := xs[j.value := y];
      } else {
        y, err := UnpackBody(typ, None, VBool(false));
        ys := xs;
      }
    }

    method UnpackBodyStruct(fs: seq<Field>, xs: seq<Value>) returns (y: Value, err: Error)
      requires Valid() && FieldsTyped(xs, fs)
      modifies this`index
      ensures Valid() && BodyStruct(fs, xs, old(Rest()), |buf|) == Result(y, Rest(), err)
      decreases |buf| - index, 0, 1
    {
      hide ReadHeader, BodyField, FieldsTyped, FindField;
      var ys := xs;
      while true
        invariant Valid() && old(index) <= index && FieldsTyped(ys, fs)
        invariant BodyStruct(fs, xs, old(Rest()), |buf|) == BodyStruct(fs, ys, Rest(), |buf|)
        decreases |buf| - index
      {
        var tag, typ;
        tag, typ, err := UnpackHeader();
        if err != Fine { return VStruct(ys), err; }
        var j := Lookup(fs, tag);
        ys, err := UnpackField(typ, j, fs, ys);
        if err == StructEnd { return VStruct(ys), Fine; }
        if err != Fine { return VStruct(ys), err; }
      }
    }

    /** What follows a header. */
    method UnpackBody(typ: nat, t: Option<Ty>, x: Value) returns (y: Value, err: Error)
      requires Valid() && Fits(x, t)
      modifies this`index
      ensures Valid() && Body(typ, t, x, old(Rest()), |buf|) == Result(y, Rest(), err)
      decreases |buf| - index, 0, 2
    {
      hide BodyNumber, BodyString, BodyVector, BodyMap, BodyStruct, SpbCodec.SkipToStructEnd, RestTyped;
      if typ <= 3 {
        y, err := UnpackBodyNumber(typ, t, x);
      } else if typ == 4 {
        y, err := UnpackBodyString(t, x);
      } else if typ == 5 {
        y, err := UnpackBodyVector(t, x);
      } else if typ == 6 {
        y, err := UnpackBodyMap(t, x);
      } else if typ == 7 {
        if t.Some? && t.value.TStruct? {
          y, err := UnpackBodyStruct(t.value.fields, x.fields);
        } else {
          var panic := SkipToStructEnd();
          y, err := x, if panic then Panic else Fine;
        }
      } else {
        y, err := x, if typ == 8 then StructEnd else InvalidType;
      }
    }

    /** Decodes one value into the target `x`; on success the index has moved forward. */
    method Unpack(t: Ty, x: Value) returns (y: Value, err: Error)
      requires Valid() && Typed(x, t)
      modifies this`index
      ensures Valid() && SpbCodec.Unpack(t, x, old(Rest()), |buf|) == Result(y, Rest(), err)
      ensures old(index) <= index && (err == Fine ==> old(index) < index)
      decreases |buf| - index, 0, 0
    {
      hide ReadHeader, Body, Typed;
      var tag, typ;
      tag, typ, err := UnpackHeader();
      if err != Fine { return x, err; }
      y, err := UnpackBody(typ, Some(t), x);
    }
  }

  ghost predicate PairsJoined(all: Pairs, ps: seq<Pair>, more: Pairs)
  {
    all.err == more.err && all.rest == more.rest && all.pairs == ps + more.pairs
  }

  lemma PairsJoinedMore(all: Pairs, ps: seq<Pair>, p: Pair, more: Pairs)
    requires PairsJoined(all, ps, Pairs([p] + more.pairs, more.rest, more.err))
    ensures PairsJoined(all, ps + [p], more)
  {
    assert ps + ([p] + more.pairs) == ps + [p] + more.pairs;
  }

  /** The two conversions of a negative number, to 64 bits and to the target's width, are one. */
  lemma NarrowTwice(t: Ty, x: Value, v: nat, vv: int)
    requires v < TWO64 && vv == AsInt64((0 - v) % TWO64)
    ensures SetNegative(t, x, v) == if t.TInt? then VInt(Signed(t.w, vv)) else x
  {
    assert vv == 0 - v || vv == 0 - v + TWO64;
    if t.TInt? { WholeTurn(t.w, 0 - v + Half(t.w)); }
  }

  lemma WholeTurn(w: Width, a: int)
    ensures (a + TWO64) % Mod(w) == a % Mod(w)
  {
    match w
    case W8 => TurnBy(a, TWO64 / 256, 256);
    case W16 => TurnBy(a, TWO64 / 65536, 65536);
    case W32 => TurnBy(a, TWO32, TWO32);
    case W64 => TurnBy(a, 1, TWO64);
  }

  lemma {:induction false} TurnBy(a: int, k: nat, m: int)
    requires m > 0
    ensures (a + k * m) % m == a % m
  {
    var q, r := a / m, a % m;
    assert a == q * m + r;
    assert a + k * m == (q + k) * m + r;
    Remainder(a + k * m, q + k, r, m);
  }

  lemma Remainder(x: int, q: int, r: int, m: int)
    requires m > 0 && 0 <= r < m && x == q * m + r
    ensures x % m == r
  {
    var d := x / m - q;
    assert x == x / m * m + x % m;
    assert d * m == r - x % m by { assert d * m == x / m * m - q * m; }
    assert -m < d * m < m;
  }

  ghost predicate Joined(all: Results, vals: seq<Value>, more: Results)
  {
    all.err == more.err && all.rest == more.rest && all.values == vals + more.values
  }

  lemma JoinedMore(all: Results, vals: seq<Value>, v: Value, more: Results)
    requires Joined(all, vals, Results([v] + more.values, more.rest, more.err))
    ensures Joined(all, vals + [v], more)
  {
    assert vals + ([v] + more.values) == vals + [v] + more.values;
  }

  /** The number `all` is `acc` and, at weight `mult`, what is still to be read. */
  predicate Continues(all: Number, acc: nat, mult: nat, more: Number)
  {
    all.err == more.err && all.rest == more.rest && (all.err == Fine ==> all.value == acc + mult * more.value)
  }

  /** Seven more bits. */
  lemma AddDigit(all: Number, acc: nat, mult: nat, d: nat, more: Number)
    requires Continues(all, acc, mult, Number(d + 128 * more.value, more.rest, more.err))
    ensures Continues(all, acc + d * mult, mult * 128, more)
  {
    assert mult * (d + 128 * more.value) == d * mult + mult * 128 * more.value;
  }

  lemma LastDigit(acc: nat, d: nat, mult: nat)
    ensures acc + mult * d == acc + d * mult
  {
  }

  lemma ModAdd(a: nat, b: nat)
    ensures (a % TWO64 + b) % TWO64 == (a + b) % TWO64
  {
  }

  /** One byte of a number. */
  lemma Unfold(b: seq<byte>, left: nat)
    ensures left == 0 ==> Digits(b, left) == Number(0, b, Overflow)
    ensures left > 0 && b == [] ==> Digits(b, left) == Number(0, b, UnexpectedEOF)
    ensures left > 0 && b != [] && b[0] < 128 ==> Digits(b, left) == Number(b[0] as nat % 128, b[1..], Fine)
    ensures left > 0 && b != [] && b[0] >= 128 ==>
              var more := Digits(b[1..], left - 1);
              Digits(b, left) == Number(b[0] as nat % 128 + 128 * more.value, more.rest, more.err)
  {
  }

  lemma PairsFrom(k: Ty, e: Ty, ps: seq<Pair>, i: nat)
    requires i <= |ps| && forall i :: 0 <= i < |ps| ==> Typed(ps[i].key, k) && Typed(ps[i].val, e)
    ensures i == |ps| ==> EncodePairs(k, e, ps[i..]) == []
    ensures i < |ps| ==> EncodePairs(k, e, ps[i..]) == EncodePair(k, e, ps[i]) + EncodePairs(k, e, ps[i + 1..])
  {
    hide Typed, EncodePair;
    if i < |ps| { assert ps[i..][1..] == ps[i + 1..]; }
  }

  lemma ContentOfVector(e: Ty, vs: seq<Value>)
    requires Typed(VVec(vs), TVec(e))
    ensures Content(TVec(e), VVec(vs)) == Varint(|vs|) + EncodeElems(e, vs)
  {
  }

  lemma ContentOfMap(k: Ty, e: Ty, ps: seq<Pair>)
    requires Typed(VMap(ps), TMap(k, e))
    ensures Content(TMap(k, e), VMap(ps)) == Varint(|ps|) + EncodePairs(k, e, ps)
  {
  }

  lemma EncodeOfStruct(fs: seq<Field>, tag: nat, v: Value, require: bool)
    requires Typed(v, TStruct(fs))
    ensures Encode(TStruct(fs), tag, v, require) == HeadOf(tag, 7) + (EncodeFields(fs, v.fields, 0) + HeadOf(0, 8))
  {
  }

  lemma RestSize(fs: seq<Field>, vs: seq<Value>, i: nat)
    requires RestTyped(fs, vs, i)
    ensures i + |vs| == |fs|
  {
  }

  lemma NegatedNonZero(w: Width, i: int)
    requires -Half(w) <= i < 0
    ensures Signed(w, -i) % TWO64 != 0
  {
    if i != -Half(w) { SignedSame(w, -i); }
  }

  /** `SpbEncode`: a fresh codec packs the value, which any decoder of the same schema reads back. */
  method SpbEncode(t: Ty, v: Value) returns (data: seq<byte>)
    requires Typed(v, t)
    ensures data == SpbTheorems.SpbEncode(t, v)
  {
    var spb := new Spb([]);
    spb.Pack(t, 0, v, true);
    data := spb.buf;
  }

  /** `SpbDecode`: a codec over the data unpacks into the target. */
  method SpbDecode(data: seq<byte>, t: Ty, x: Value) returns (y: Value, err: Error)
    requires Typed(x, t)
    ensures Typed(y, t) && y == SpbTheorems.SpbDecode(t, x, data).value && err == SpbTheorems.SpbDecode(t, x, data).err
  {
    var spb := new Spb(data);
    assert data[0..] == data;
    y, err := spb.Unpack(t, x);
  }
}
