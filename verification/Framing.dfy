/**
 Message framing on a byte stream: the 4-byte frame header of the RPC service, and what a parser that is given
 the whole stream at once would cut out of it.
 */
module Framing {
  import opened Bytes

  /** 2 MiB: the receiver refuses frames of this length and above. */
  const MAX_MSG: nat := 2 * 1024 * 1024

  /** The length in a frame header: three bytes, most significant first; the first byte carries flags. */
  function MsgLen(b: seq<byte>): (n: nat)
    requires 4 <= |b|
    ensures n < 16777216
  {
    b[3] as nat + b[2] as nat * 256 + b[1] as nat * 65536
  }

  /** Header with length and flags, then the data; too long for three bytes is refused. */
  function EncodeFrame(flags: byte, data: seq<byte>): (r: Option<seq<byte>>)
    requires |data| + 4 < TWO32
  {
    var n := |data| + 4;
    if n / 16777216 % 256 > 0 then None
    else Some([flags, (n / 65536 % 256) as byte, (n / 256 % 256) as byte, (n % 256) as byte] + data)
  }

  /** The sender takes data below 16 MiB, and its length and data can be read back. */
  lemma EncodeFrameReads(flags: byte, data: seq<byte>)
    requires |data| + 4 < TWO32
    ensures EncodeFrame(flags, data).Some? <==> |data| + 4 < 16777216
    ensures var r := EncodeFrame(flags, data);
            r.Some? ==> |r.value| == |data| + 4 && MsgLen(r.value) == |r.value| && r.value[0] == flags && r.value[4..] == data
  {
    var n := |data| + 4;
    if n < 16777216 {
      var a, b := n / 256, n / 65536;
      assert b == a / 256 && b < 256;
    }
  }

  /** The length stands most significant byte first and counts the header: 300 bytes of data make a frame of 304. */
  lemma HeaderExample(flags: byte, data: seq<byte>)
    requires |data| == 300
    ensures EncodeFrame(flags, data) == Some([flags, 0, 1, 48] + data)
  {
    assert 304 / 65536 == 0 && 304 / 256 == 1 && 304 % 256 == 48;
  }

  datatype Parse = More | Refused | Frame(len: nat)

  /** What the parser says of the data it has: it needs more, it refuses the header, or a frame is complete. */
  function ParseOne(b: seq<byte>): (r: Parse)
    ensures r.Frame? ==> 4 <= r.len <= |b| && r.len < MAX_MSG
    ensures r.More? ==> |b| < MAX_MSG
  {
    if |b| < 4 then More
    else
      var n := MsgLen(b);
      if n < 4 || n >= MAX_MSG then Refused
      else if |b| < n then More
      else Frame(n)
  }

  /** A complete frame that the receiver takes. */
  predicate IsFrame(f: seq<byte>)
  {
    4 <= |f| < MAX_MSG && MsgLen(f) == |f|
  }

  /** What is written as a frame is received as one exactly when it is shorter than 2 MiB. */
  lemma ReceivedIff(flags: byte, data: seq<byte>)
    requires |data| + 4 < 16777216
    ensures var f := EncodeFrame(flags, data);
            f.Some? && (IsFrame(f.value) <==> |data| + 4 < MAX_MSG) && (ParseOne(f.value).Refused? <==> |data| + 4 >= MAX_MSG)
  {
    EncodeFrameReads(flags, data);
  }

  datatype Cut = Cut(frames: seq<seq<byte>>, rest: seq<byte>, refused: bool)

  /** The whole stream parsed at once. */
  function Split(s: seq<byte>): (c: Cut)
    decreases |s|
  {
    var p := ParseOne(s);
    if p.More? then Cut([], s, false)
    else if p.Refused? then Cut([], s, true)
    else
      var c := Split(s[p.len..]);
      c.(frames := [s[..p.len]] + c.frames)
  }

  /** Data behind a header do not change what the header says. */
  lemma ParseMore(a: seq<byte>, b: seq<byte>)
    ensures ParseOne(a).Frame? ==> ParseOne(a + b) == ParseOne(a)
    ensures ParseOne(a).Refused? ==> ParseOne(a + b).Refused?
  {
    if 4 <= |a| { assert MsgLen(a + b) == MsgLen(a); }
  }

  /** A stream may be parsed piece by piece: what is left of the first piece goes in front of the second. */
  lemma {:induction false} SplitAppend(a: seq<byte>, b: seq<byte>)
    requires !Split(a + b).refused
    ensures !Split(a).refused
    ensures var r := Split(Split(a).rest + b); Split(a + b) == r.(frames := Split(a).frames + r.frames)
    decreases |a|
  {
    hide ParseOne, Split;
    ParseMore(a, b);
    SplitStep(a);
    SplitStep(a + b);
    var p := ParseOne(a);
    if p.Frame? {
      var f, t := a[..p.len], a[p.len..];
      assert (a + b)[..p.len] == f && (a + b)[p.len..] == t + b;
      SplitAppend(t, b);
      JoinFrames(f, Split(t).frames, Split(Split(t).rest + b).frames);
    } else {
      assert [] + Split(a + b).frames == Split(a + b).frames;
    }
  }

  lemma SplitStep(s: seq<byte>)
    ensures var p := ParseOne(s);
            Split(s) == if p.Frame? then Split(s[p.len..]).(frames := [s[..p.len]] + Split(s[p.len..]).frames)
                        else Cut([], s, p.Refused?)
  {
    hide ParseOne;
  }

  lemma JoinFrames(f: seq<byte>, a: seq<seq<byte>>, b: seq<seq<byte>>)
    ensures [f] + (a + b) == ([f] + a) + b
  {
  }

  function Concat(fs: seq<seq<byte>>): seq<byte>
  {
    if fs == [] then [] else fs[0] + Concat(fs[1..])
  }

  lemma ConcatFront(f: seq<byte>, fs: seq<seq<byte>>, rest: seq<byte>)
    ensures Concat([f] + fs) + rest == f + (Concat(fs) + rest) && Concat([]) + rest == rest
  {
    assert ([f] + fs)[1..] == fs;
  }

  /** What is cut out and what is left make the stream again. */
  lemma {:induction false} SplitIsAll(s: seq<byte>)
    ensures Concat(Split(s).frames) + Split(s).rest == s
    ensures forall f :: f in Split(s).frames ==> IsFrame(f)
    decreases |s|
  {
    hide Split, Concat;
    SplitStep(s);
    var p := ParseOne(s);
    if p.Frame? {
      var f, t := s[..p.len], s[p.len..];
      var c := Split(t);
      SplitIsAll(t);
      ConcatFront(f, c.frames, c.rest);
      assert s == f + t;
      assert MsgLen(f) == MsgLen(s);
    } else {
      ConcatFront([], [], s);
    }
  }

  /** A stream of frames is cut into exactly those frames, and any front of it into a front of them. */
  lemma {:induction false} SplitFrames(fs: seq<seq<byte>>, tail: seq<byte>)
    requires forall f :: f in fs ==> IsFrame(f)
    requires ParseOne(tail).More?
    ensures Split(Concat(fs) + tail) == Cut(fs, tail, false)
    decreases |fs|
  {
    if fs == [] {
      assert [] + tail == tail;
    } else {
      var f, more := fs[0], Concat(fs[1..]);
      var s := Concat(fs) + tail;
      assert s == f + (more + tail);
      assert f in fs && ParseOne(f) == Frame(|f|);
      ParseMore(f, more + tail);
      assert s[..|f|] == f && s[|f|..] == more + tail;
      SplitFrames(fs[1..], tail);
      assert fs == [f] + fs[1..];
    }
  }

  /** How many of the frames lie wholly in the first `len` bytes. */
  function Complete(fs: seq<seq<byte>>, len: nat): (k: nat)
    ensures k <= |fs|
  {
    if fs == [] || len < |fs[0]| then 0 else 1 + Complete(fs[1..], len - |fs[0]|)
  }

  /** A front of a stream of frames is those frames and an incomplete rest. */
  lemma {:induction false} FrontSplits(fs: seq<seq<byte>>, s: seq<byte>)
    requires (forall f :: f in fs ==> IsFrame(f)) && s <= Concat(fs)
    ensures var k := Complete(fs, |s|);
            && Concat(fs[..k]) <= s && ParseOne(s[|Concat(fs[..k])|..]).More?
            && (s == Concat(fs) ==> k == |fs|)
    decreases |fs|
  {
    if fs != [] {
      var f := fs[0];
      assert f in fs && Concat(fs) == f + Concat(fs[1..]);
      if |s| < |f| {
        assert s == f[..|s|] && fs[..0] == [];
        if 4 <= |s| { assert MsgLen(s) == MsgLen(f); }
      } else {
        var t := s[|f|..];
        assert s[..|f|] == f && s == f + t && t <= Concat(fs[1..]);
        FrontSplits(fs[1..], t);
        var k := Complete(fs[1..], |t|);
        ConcatTake(fs, k);
        assert s[|f + Concat(fs[1..][..k])|..] == t[|Concat(fs[1..][..k])|..];
      }
    } else {
      assert s == [] && fs[..0] == [];
    }
  }

  lemma ConcatTake(fs: seq<seq<byte>>, k: nat)
    requires k < |fs|
    ensures Concat(fs[..k + 1]) == fs[0] + Concat(fs[1..][..k])
  {
    assert fs[..k + 1][1..] == fs[1..][..k];
  }
}
