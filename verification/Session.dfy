/**
 The receiving side of a session. Reads of any size arrive on a queue; the handler joins each one to what was
 left over, cuts out frames and hands them to the service. However the stream is cut into reads, the service
 gets the frames of the stream in their order, and after a close it has got the first of them.
 */
module Session {
  import opened Bytes
  import opened Framing

  /** What the service is handed: a frame, or an error for a header it refuses. */
  datatype Handed = Msg(frame: seq<byte>) | Err

  datatype Drained = Drained(events: seq<Handed>, temp: Option<seq<byte>>)

  /** The inner loop over one buffer. A refused header uses up all the data at hand. */
  function Drain(data: seq<byte>): (d: Drained)
    decreases |data|
  {
    var p := ParseOne(data);
    if p.More? then Drained([], if data == [] then None else Some(data))
    else if p.Refused? then Drained([Err], None)
    else if p.len == |data| then Drained([Msg(data)], None)
    else
      var d := Drain(data[p.len..]);
      d.(events := [Msg(data[..p.len])] + d.events)
  }

  function OrEmpty(temp: Option<seq<byte>>): seq<byte> { if temp.Some? then temp.value else [] }

  function Msgs(fs: seq<seq<byte>>): (r: seq<Handed>)
    ensures |r| == |fs| && forall i :: 0 <= i < |r| ==> r[i] == Msg(fs[i])
  {
    seq(|fs|, i requires 0 <= i < |fs| => Msg(fs[i]))
  }

  lemma DrainStep(data: seq<byte>)
    ensures var p := ParseOne(data);
            p.Frame? && p.len < |data| ==>
              Drain(data) == Drain(data[p.len..]).(events := [Msg(data[..p.len])] + Drain(data[p.len..]).events)
    ensures ParseOne(data) == Frame(|data|) ==> Drain(data) == Drained([Msg(data)], None)
    ensures ParseOne(data).More? ==> Drain(data) == Drained([], if data == [] then None else Some(data))
    ensures ParseOne(data).Refused? ==> Drain(data) == Drained([Err], None)
  {
    hide ParseOne;
  }

  /** The inner loop does what parsing the buffer at once does, unless a header is refused. */
  lemma {:induction false} DrainIsSplit(data: seq<byte>)
    requires !Split(data).refused
    ensures Drain(data).events == Msgs(Split(data).frames) && OrEmpty(Drain(data).temp) == Split(data).rest
    decreases |data|
  {
    hide ParseOne, Split, Drain;
    DrainStep(data);
    SplitStep(data);
    var p := ParseOne(data);
    if p.Frame? {
      var t := data[p.len..];
      if p.len == |data| {
        assert t == [] && data[..p.len] == data;
        SplitEmpty();
      } else {
        DrainIsSplit(t);
      }
    }
  }

  lemma SplitEmpty()
    ensures Split([]) == Cut([], [], false)
  {
  }

  /** What is kept for the next read is shorter than the limit, whatever the bytes are. */
  lemma {:induction false} TempBelowLimit(data: seq<byte>)
    ensures |OrEmpty(Drain(data).temp)| < MAX_MSG
    decreases |data|
  {
    hide ParseOne, Drain;
    DrainStep(data);
    var p := ParseOne(data);
    if p.Frame? && p.len < |data| { TempBelowLimit(data[p.len..]); }
  }

  class Session {
    var tempBuf: Option<seq<byte>>
    var socketClosed: bool
    var handed: seq<Handed>

    constructor ()
      ensures tempBuf == None && !socketClosed && handed == []
    {
      tempBuf, socketClosed, handed := None, false, [];
    }

    /** `Service.ParseMsg` with the RPC parser: hands a frame or an error on and says how much it used. */
    method ParseMsg(data: seq<byte>) returns (parseLen: nat)
      modifies this`handed
      ensures var p := ParseOne(data);
              && parseLen == (if p.More? then 0 else if p.Refused? then |data| else p.len)
              && handed == old(handed) + (if p.More? then [] else if p.Refused? then [Err] else [Msg(data[..p.len])])
    {
      if |data| < 4 { return 0; }
      var n := MsgLen(data);
      if n < 4 || n >= MAX_MSG {
        handed := handed + [Err];
        return |data|;
      }
      if |data| < n { return 0; }
      handed := handed + [Msg(data[..n])];
      parseLen := n;
    }

    /** One read: joined to what was left over, then cut into frames. The limit is never exceeded. */
    method Hand(buf: seq<byte>)
      modifies this
      ensures var d := Drain(OrEmpty(old(tempBuf)) + buf);
              handed == old(handed) + d.events && tempBuf == d.temp && socketClosed == old(socketClosed)
    {
      hide ParseOne, Drain;
      var data := if tempBuf.Some? then tempBuf.value + buf else [] + buf;
      ghost var goal := Drained(handed + Drain(data).events, Drain(data).temp);
      while true
        invariant goal == Drained(handed + Drain(data).events, Drain(data).temp) && socketClosed == old(socketClosed)
        decreases |data|
      {
        DrainStep(data);
        ghost var before := handed;
        var parseLen := ParseMsg(data);
        if parseLen >= |data| {
          tempBuf := None;
          LastPiece(data);
          return;
        } else if parseLen > 0 {
          Joined(before, Msg(data[..parseLen]), Drain(data[parseLen..]).events);
          data := data[parseLen..];
        } else {
          tempBuf := Some(data);
          TempBelowLimit(data);
          socketClosed := socketClosed || |data| > MAX_MSG;
          return;
        }
      }
    }

    /** After the close: at most one more read is taken, and at most one more frame is handed on. */
    method HandLast(last: Option<seq<byte>>)
      modifies this`handed
      ensures var data := OrEmpty(tempBuf) + OrEmpty(last);
              var p := ParseOne(data);
              handed == old(handed) + (if p.More? then [] else if p.Refused? then [Err] else [Msg(data[..p.len])])
    {
      var data := OrEmpty(tempBuf) + OrEmpty(last);
      if tempBuf.Some? || last.Some? {
        var parseLen := ParseMsg(data);
      }
    }
  }

  lemma Joined(a: seq<Handed>, m: Handed, b: seq<Handed>)
    ensures a + ([m] + b) == a + [m] + b
  {
  }

  lemma LastPiece(data: seq<byte>)
    requires !ParseOne(data).More? || data == []
    requires ParseOne(data).Frame? ==> ParseOne(data).len == |data|
    ensures Drain(data).temp == None
    ensures Drain(data).events
         == var p := ParseOne(data); if p.More? then [] else if p.Refused? then [Err] else [Msg(data[..p.len])]
  {
    assert data[..|data|] == data;
  }

  // ---- every run of reader, handler and close

  datatype Step = Arrive(chunk: seq<byte>) | Shut | Take | Last

  /** What has arrived, what of it has been taken, what is queued and left over, and what the service was handed. */
  datatype Rx = Rx(stream: seq<byte>, taken: seq<byte>, queue: seq<seq<byte>>, temp: Option<seq<byte>>,
                   events: seq<Handed>, closing: bool, done: bool)

  /** The reader queues a read; the read side fails; the handler takes a read; the handler sees the close. */
  function Do(s: Rx, step: Step): Rx
  {
    match step
    case Arrive(c) => if s.closing || c == [] then s else s.(stream := s.stream + c, queue := s.queue + [c])
    case Shut => s.(closing := true)
    case Take =>
      if s.done || s.queue == [] then s
      else
        var d := Drain(OrEmpty(s.temp) + s.queue[0]);
        s.(taken := s.taken + s.queue[0], queue := s.queue[1..], temp := d.temp, events := s.events + d.events)
    case Last =>
      if s.done || !s.closing then s
      else
        var data := OrEmpty(s.temp) + if s.queue != [] then s.queue[0] else [];
        var p := ParseOne(data);
        s.(done := true, events := s.events + if p.More? then [] else if p.Refused? then [Err] else [Msg(data[..p.len])])
  }

  function Run(steps: seq<Step>): Rx
  {
    if steps == [] then Rx([], [], [], None, [], false, false) else Do(Run(steps[..|steps| - 1]), steps[|steps| - 1])
  }

  /** What is taken and what is queued is the stream; what was handed on is what parsing the taken part gives. */
  predicate Inv(s: Rx)
  {
    && s.taken + Concat(s.queue) == s.stream
    && (!Split(s.taken).refused && !s.done ==>
          s.events == Msgs(Split(s.taken).frames) && OrEmpty(s.temp) == Split(s.taken).rest)
    && (!Split(s.stream).refused ==> s.events <= Msgs(Split(s.stream).frames))
  }

  lemma {:induction false} ConcatSnoc(fs: seq<seq<byte>>, f: seq<byte>)
    ensures Concat(fs + [f]) == Concat(fs) + f
    decreases |fs|
  {
    if fs == [] {
      assert [f][1..] == [];
    } else {
      ConcatSnoc(fs[1..], f);
      assert (fs + [f])[1..] == fs[1..] + [f];
      assert fs[0] + (Concat(fs[1..]) + f) == fs[0] + Concat(fs[1..]) + f;
    }
  }

  /** More of the stream gives more frames behind those there are. */
  lemma FramesGrow(a: seq<byte>, b: seq<byte>)
    requires !Split(a + b).refused
    ensures !Split(a).refused && Msgs(Split(a).frames) <= Msgs(Split(a + b).frames)
  {
    hide Split;
    SplitAppend(a, b);
  }

  lemma ArriveKeeps(s: Rx, c: seq<byte>)
    requires Inv(s)
    ensures Inv(Do(s, Arrive(c)))
  {
    hide Split, Concat, Drain;
    ConcatSnoc(s.queue, c);
    assert s.taken + (Concat(s.queue) + c) == s.stream + c;
    if !Split(s.stream + c).refused { FramesGrow(s.stream, c); }
  }

  lemma TakeKeeps(s: Rx)
    requires Inv(s) && !s.done && s.queue != []
    ensures Inv(Do(s, Take))
  {
    hide Split, Drain;
    var c, rest := s.queue[0], Concat(s.queue[1..]);
    assert s.taken + (c + rest) == s.taken + c + rest;
    if !Split(s.taken + c).refused {
      SplitAppend(s.taken, c);
      DrainIsSplit(OrEmpty(s.temp) + c);
    }
    if !Split(s.stream).refused { FramesGrow(s.taken + c, rest); }
  }

  /** The frame handed on after the close is the next one of the stream. */
  lemma LastKeeps(s: Rx)
    requires Inv(s) && !s.done && s.closing
    ensures Inv(Do(s, Last))
  {
    hide Split, Drain, ParseOne;
    var c := if s.queue != [] then s.queue[0] else [];
    var rest := if s.queue != [] then Concat(s.queue[1..]) else [];
    assert s.taken + c + rest == s.stream;
    if !Split(s.stream).refused {
      FramesGrow(s.taken + c, rest);
      SplitAppend(s.taken, c);
      SplitStep(OrEmpty(s.temp) + c);
    }
  }

  lemma {:induction false} RunInv(steps: seq<Step>)
    ensures Inv(Run(steps))
    decreases |steps|
  {
    hide Split, Drain, ParseOne;
    if steps == [] {
      SplitEmpty();
    } else {
      var s, step := Run(steps[..|steps| - 1]), steps[|steps| - 1];
      RunInv(steps[..|steps| - 1]);
      match step
      case Arrive(c) => ArriveKeeps(s, c);
      case Take => if !s.done && s.queue != [] { TakeKeeps(s); }
      case Last => if !s.done && s.closing { LastKeeps(s); }
      case Shut =>
    }
  }

  /**
   For every front of a stream of frames, however it is cut into reads and whenever it is closed, the service has got a
   front of the frames that have arrived in full, in order; once the handler has caught up it has got all of these,
   and the incomplete rest is kept.
   */
  lemma Reassembly(steps: seq<Step>, fs: seq<seq<byte>>)
    requires (forall f :: f in fs ==> IsFrame(f)) && Run(steps).stream <= Concat(fs)
    ensures var s := Run(steps);
            var k := Complete(fs, |s.stream|);
            && s.events <= Msgs(fs[..k]) && (s.stream == Concat(fs) ==> k == |fs|)
            && (!s.done && s.queue == [] ==> s.events == Msgs(fs[..k]) && Concat(fs[..k]) + OrEmpty(s.temp) == s.stream)
  {
    hide Run, Split, ParseOne, Complete, Concat;
    RunInv(steps);
    var s := Run(steps);
    FrontIs(fs, s.stream);
    if s.queue == [] {
      ConcatNone();
      assert s.taken + [] == s.taken;
    }
  }

  /** What parsing a front of a stream of frames at once gives. */
  lemma FrontIs(fs: seq<seq<byte>>, s: seq<byte>)
    requires (forall f :: f in fs ==> IsFrame(f)) && s <= Concat(fs)
    ensures var k := Complete(fs, |s|);
            && !Split(s).refused && Split(s).frames == fs[..k] && Concat(fs[..k]) + Split(s).rest == s
            && (s == Concat(fs) ==> k == |fs|)
  {
    hide Split, ParseOne, Complete, Concat, IsFrame;
    FrontSplits(fs, s);
    FrontCut(fs, Complete(fs, |s|), s);
  }

  lemma FrontCut(fs: seq<seq<byte>>, k: nat, s: seq<byte>)
    requires (forall f :: f in fs ==> IsFrame(f)) && k <= |fs|
    requires Concat(fs[..k]) <= s && ParseOne(s[|Concat(fs[..k])|..]).More?
    ensures !Split(s).refused && Split(s).frames == fs[..k] && Concat(fs[..k]) + Split(s).rest == s
  {
    hide Split, ParseOne, Concat, IsFrame;
    var front := fs[..k];
    var tail := s[|Concat(front)|..];
    assert Concat(front) + tail == s;
    assert forall f :: f in front ==> f in fs;
    SplitFrames(front, tail);
  }

  lemma ConcatNone()
    ensures Concat([]) == []
  {
  }
}
