/**
 The wire level of the codec: variable-length numbers (unsigned LEB128, section 7.6 of DWARF 5), field
 headers and raw bytes. Readers take the bytes that are left and say what is left after them; the error is
 part of the result, because callers that skip a field ignore it and go on from wherever the reader stopped.
 */
module SpbWire {
  import opened Bytes

  const TWO63: int := 0x8000_0000_0000_0000

  datatype Error = Fine | NoEnoughData | UnexpectedEOF | Overflow | InvalidType | StructEnd | Panic

  /** The conversion of an unsigned 64-bit number to a signed one. */
  function AsInt64(v: nat): (r: int)
    requires v < TWO64
    ensures -TWO63 <= r < TWO63 && (r == v || r == v - TWO64)
  {
    if v < TWO63 then v else v - TWO64
  }

  /** How often a loop `for i := 0; i < int(v); i++` runs. */
  function Count(v: nat): (r: nat)
    requires v < TWO64
    ensures v < TWO63 ==> r == v
  {
    if v < TWO63 then v else 0
  }

  // ---- numbers

  /** Seven bits to a byte, lowest first; all bytes but the last have the top bit set. */
  function Varint(x: nat): (s: seq<byte>)
    ensures |s| >= 1
  {
    if x < 128 then [x as byte] else [(x % 128 + 128) as byte] + Varint(x / 128)
  }

  datatype Number = Number(value: nat, rest: seq<byte>, err: Error)

  /** Reads at most `left` bytes of a number. */
  function Digits(b: seq<byte>, left: nat): (r: Number)
    ensures |r.rest| <= |b| && (r.err == Fine ==> |r.rest| < |b|)
    decreases left
  {
    if left == 0 then Number(0, b, Overflow)
    else if b == [] then Number(0, b, UnexpectedEOF)
    else if b[0] < 128 then Number(b[0] as nat, b[1..], Fine)
    else
      var r := Digits(b[1..], left - 1);
      Number((b[0] - 128) as nat + 128 * r.value, r.rest, r.err)
  }

  /** A number of at most ten bytes, cut to 64 bits. On an error nothing is consumed. */
  function ReadNumber(b: seq<byte>): (r: Number)
    ensures r.value < TWO64 && |r.rest| <= |b|
    ensures r.err == Fine ==> |r.rest| < |b|
    ensures r.err != Fine ==> r.rest == b && r.err in {UnexpectedEOF, Overflow}
  {
    var d := Digits(b, 10);
    DigitsErr(b, 10);
    if d.err == Fine then Number(d.value % TWO64, d.rest, Fine) else Number(0, b, d.err)
  }

  lemma DigitsErr(b: seq<byte>, left: nat)
    ensures Digits(b, left).err in {Fine, UnexpectedEOF, Overflow}
    decreases left
  {
  }

  function Pow128(k: nat): (r: nat)
    ensures r >= 1
  {
    if k == 0 then 1 else 128 * Pow128(k - 1)
  }

  /** A number is read back, whatever follows it. */
  lemma {:induction false} DigitsOfVarint(x: nat, left: nat, tail: seq<byte>)
    requires 1 <= left && x < Pow128(left)
    ensures Digits(Varint(x) + tail, left) == Number(x, tail, Fine)
    decreases left
  {
    var b := Varint(x) + tail;
    if x < 128 {
      assert b[0] == x as byte && b[1..] == tail;
    } else {
      var y := x / 128;
      assert b[0] == (x % 128 + 128) as byte && b[1..] == Varint(y) + tail;
      assert y < Pow128(left - 1);
      DigitsOfVarint(y, left - 1, tail);
    }
  }

  lemma TenDigits()
    ensures TWO64 <= Pow128(10)
  {
    assert Pow128(3) == 2097152;
    assert Pow128(6) == 4398046511104;
    assert Pow128(9) == 9223372036854775808;
  }

  lemma NumberOfVarint(x: nat, tail: seq<byte>)
    requires x < TWO64
    ensures ReadNumber(Varint(x) + tail) == Number(x, tail, Fine)
  {
    TenDigits();
    DigitsOfVarint(x, 10, tail);
  }

  /** The first `n` bytes all announce another one. */
  predicate GoesOn(b: seq<byte>, n: nat) { n <= |b| && forall i :: 0 <= i < n ==> b[i] >= 128 }

  lemma {:induction false} DigitsIff(b: seq<byte>, left: nat, n: nat)
    requires GoesOn(b, n) && n <= left && (n == |b| || b[n] < 128 || n == left)
    ensures var r := Digits(b, left);
            && r.err == (if n == left then Overflow else if n == |b| then UnexpectedEOF else Fine)
            && (r.err == Fine ==> r.rest == b[n + 1..])
    decreases n
  {
    if n > 0 {
      assert b[0] >= 128;
      assert forall i :: 0 <= i < n - 1 ==> b[1..][i] == b[i + 1];
      DigitsIff(b[1..], left - 1, n - 1);
    }
  }

  /**
   A number ends at the first byte below 128. It is read if that is one of the first ten; if the bytes run out before,
   the data were cut off, and ten bytes that all announce another are an overflow.
   */
  lemma NumberEnds(b: seq<byte>, n: nat)
    requires GoesOn(b, n) && n <= 10 && (n == |b| || b[n] < 128 || n == 10)
    ensures var r := ReadNumber(b);
            && r.err == (if n == 10 then Overflow else if n == |b| then UnexpectedEOF else Fine)
            && r.rest == (if r.err == Fine then b[n + 1..] else b)
  {
    DigitsIff(b, 10, n);
  }

  // ---- headers

  function HeadOf(tag: nat, typ: nat): (s: seq<byte>)
    requires typ < 16
    ensures |s| >= 1
  {
    if tag < 15 then [(typ * 16 + tag) as byte] else [(typ * 16 + 15) as byte] + Varint(tag)
  }

  datatype Header = Header(tag: nat, typ: nat, rest: seq<byte>, err: Error)

  /** Type and tag of the next field. The first byte is consumed even when the tag behind it cannot be read. */
  function ReadHeader(b: seq<byte>): (r: Header)
    ensures r.tag < TWO32 && r.typ < 16 && |r.rest| <= |b|
    ensures b != [] ==> |r.rest| < |b|
    ensures r.err == Fine ==> b != []
    ensures r.err in {Fine, NoEnoughData, UnexpectedEOF, Overflow}
  {
    if b == [] then Header(0, 0, b, NoEnoughData)
    else
      var typ, tag := b[0] as nat / 16, b[0] as nat % 16;
      if tag == 15 then
        var n := ReadNumber(b[1..]);
        Header(n.value % TWO32, typ, n.rest, n.err)
      else Header(tag, typ, b[1..], Fine)
  }

  lemma Nibbles(hi: nat, lo: nat)
    requires hi < 16 && lo < 16
    ensures (hi * 16 + lo) / 16 == hi && (hi * 16 + lo) % 16 == lo
  {
  }

  lemma HeaderReads(tag: nat, typ: nat, tail: seq<byte>)
    requires tag < TWO32 && typ < 16
    ensures ReadHeader(HeadOf(tag, typ) + tail) == Header(tag, typ, tail, Fine)
  {
    hide Varint, ReadNumber;
    var b := HeadOf(tag, typ) + tail;
    Nibbles(typ, Min(tag, 15));
    if tag < 15 {
      assert b[1..] == tail;
    } else {
      assert b[1..] == Varint(tag) + tail;
      NumberOfVarint(tag, tail);
    }
  }

  // ---- raw bytes

  datatype Raw = Raw(bytes: seq<byte>, rest: seq<byte>, err: Error)

  /**
   `ln` raw bytes out of a buffer of `len` bytes of which `b` are left. A count that is negative as a signed
   number reads nothing; one that makes the end position wrap around makes the program fault.
   */
  function ReadBytes(b: seq<byte>, ln: nat, len: nat): (r: Raw)
    requires ln < TWO64 && |b| <= len
    ensures |r.rest| <= |b| && r.err in {Fine, NoEnoughData, Panic}
  {
    var n := AsInt64(ln);
    if n <= 0 then Raw([], b, Fine)
    else if len - |b| + n >= TWO63 then Raw([], b, Panic)
    else if n > |b| then Raw([], b, NoEnoughData)
    else Raw(b[..n], b[n..], Fine)
  }

  lemma BytesRead(s: seq<byte>, tail: seq<byte>, len: nat)
    requires |s| + |tail| <= len < TWO63
    ensures ReadBytes(s + tail, |s|, len) == Raw(s, tail, Fine)
  {
    assert (s + tail)[..|s|] == s && (s + tail)[|s|..] == tail;
  }
}
