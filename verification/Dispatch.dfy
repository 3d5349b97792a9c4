/**
 Dispatch of messages to worker threads. Every service has one bounded queue per worker; a message goes to the
 queue that the hash of its session names, and each queue index has exactly one worker.
 */
module Dispatch {
  import opened Bytes

  /** The queue of a message: by hash, by the service's own thread, or by session id. */
  function GetProcessor(hash: int, sess: Option<nat>, threadId: nat, threads: nat): (th: nat)
    requires threadId < threads
    ensures th < threads
  {
    if hash > 0 then hash % threads
    else if hash == 0 then threadId
    else if sess.Some? then sess.value % threads
    else threadId
  }

  /** For a hash that is not positive the queue depends on the sign only: a session stays in one queue. */
  lemma StaysInQueue(h: int, h': int, sess: nat, threadId: nat, threads: nat)
    requires threadId < threads && h <= 0 && h' <= 0 && (h == 0 <==> h' == 0)
    ensures GetProcessor(h, Some(sess), threadId, threads) == GetProcessor(h', Some(sess), threadId, threads)
    ensures h == 0 ==> GetProcessor(h, Some(sess), threadId, threads) == threadId
  {
  }

  /**
   A positive hash names a queue by its remainder: hashes below the number of threads have queues of their own, and
   two hashes share a queue if and only if they differ by a multiple of that number.
   */
  lemma SharesQueueIff(h: int, h': int, sess: Option<nat>, sess': Option<nat>, threadId: nat, threads: nat)
    requires threadId < threads && 0 < h <= h'
    ensures GetProcessor(h, sess, threadId, threads) == GetProcessor(h', sess', threadId, threads) <==> (h' - h) % threads == 0
    ensures h < threads ==> GetProcessor(h, sess, threadId, threads) == h
    ensures h < h' < threads ==> GetProcessor(h, sess, threadId, threads) != GetProcessor(h', sess', threadId, threads)
  {
    SameRemainderIff(h, h', threads);
    if h' < threads { Remainder(h', 0, h', threads); }
    if h < threads { Remainder(h, 0, h, threads); }
  }

  /** With a negative hash two sessions share a queue if and only if their numbers differ by a multiple of the threads. */
  lemma SessionsShareIff(h: int, h': int, sess: nat, sess': nat, threadId: nat, threads: nat)
    requires threadId < threads && h < 0 && h' < 0 && sess <= sess'
    ensures GetProcessor(h, Some(sess), threadId, threads) == GetProcessor(h', Some(sess'), threadId, threads)
       <==> (sess' - sess) % threads == 0
    ensures sess < threads ==> GetProcessor(h, Some(sess), threadId, threads) == sess
    ensures GetProcessor(h, None, threadId, threads) == GetProcessor(0, Some(sess), threadId, threads) == threadId
  {
    SameRemainderIff(sess, sess', threads);
    if sess < threads { Remainder(sess, 0, sess, threads); }
  }

  lemma SameRemainderIff(a: nat, b: nat, n: nat)
    requires n > 0 && a <= b
    ensures a % n == b % n <==> (b - a) % n == 0
  {
    var q, q', r := a / n, b / n, a % n;
    DivMod(a, n);
    DivMod(b, n);
    DivMod(b - a, n);
    if r == b % n {
      Distributes(q', -q, n);
      Remainder(b - a, q' - q, 0, n);
    } else if (b - a) % n == 0 {
      Distributes(q, (b - a) / n, n);
      Remainder(b, q + (b - a) / n, r, n);
    }
  }

  lemma DivMod(a: int, n: nat)
    requires n > 0
    ensures a == a / n * n + a % n && 0 <= a % n < n
  {
  }

  lemma Distributes(a: int, b: int, n: int)
    ensures (a + b) * n == a * n + b * n && -b * n == -(b * n)
  {
  }

  lemma AtLeast(d: int, n: nat)
    requires d >= 1
    ensures d * n >= n
  {
    Distributes(d - 1, 1, n);
  }

  /** Quotient and remainder are unique. */
  lemma Remainder(a: int, q: int, r: nat, n: nat)
    requires r < n && a == q * n + r
    ensures a % n == r
  {
    var q' := a / n;
    DivMod(a, n);
    Distributes(q, -q', n);
    Distributes(q', -q, n);
    if q > q' { AtLeast(q - q', n); }
    if q < q' { AtLeast(q' - q, n); }
  }

  /** The server: services by thread index. A service is represented by its number. */
  class Server {
    const threads: nat
    var services: map<nat, seq<nat>>

    constructor (threadnum: int)
      ensures threads == (if threadnum <= 0 then 1 else threadnum) && services == map[] && Valid()
    {
      threads := if threadnum <= 0 then 1 else threadnum;
      services := map[];
    }

    ghost predicate Valid()
      reads this
    {
      1 <= threads && forall k :: k in services ==> k < threads
    }

    /** The thread numbers 0 and `threads` mean the same thread; `made` is whether the service itself could be made. */
    method AddService(id: nat, threadId: int, made: bool) returns (th: Option<nat>)
      requires Valid()
      modifies this`services
      ensures Valid()
      ensures th.Some? <==> 0 <= threadId <= threads && made
      ensures th.None? ==> services == old(services)
      ensures th.Some? ==> th.value == threadId % threads && th.value < threads && th.value in services
                           && services == old(services)[th.value := services[th.value]]
                           && services[th.value] == (if th.value in old(services) then old(services)[th.value] else []) + [id]
    {
      if threadId < 0 || threadId > threads { return None; }
      var t := threadId % threads;
      if !made { return None; }
      services := services[t := (if t in services then services[t] else []) + [id]];
      th := Some(t);
    }

    /** Initialises the services, stopping at the first that fails; `ready` are those whose `Init` succeeds. */
    method InitAll(ready: set<nat>) returns (ok: bool)
      ensures ok <==> forall k, i :: k in services && 0 <= i < |services[k]| ==> services[k][i] in ready
    {
      var left := services.Keys;
      while left != {}
        invariant left <= services.Keys
        invariant forall k, i :: k in services && k !in left && 0 <= i < |services[k]| ==> services[k][i] in ready
        decreases |left|
      {
        var k :| k in left;
        left := left - {k};
        for i := 0 to |services[k]|
          invariant forall j :: 0 <= j < i ==> services[k][j] in ready
        {
          if services[k][i] !in ready { return false; }
        }
      }
      ok := true;
    }

    /**
     Starts no worker when a service cannot be initialised; else one for every index that has services, then one for
     every other index: one each.
     */
    method Start(ready: set<nat>) returns (ok: bool, workers: seq<nat>)
      requires Valid()
      ensures ok <==> forall k, i :: k in services && 0 <= i < |services[k]| ==> services[k][i] in ready
      ensures if ok then NoDup(workers) && forall i: nat :: i in workers <==> i < threads else workers == []
    {
      workers := [];
      ok := InitAll(ready);
      if !ok { return; }
      var left := services.Keys;
      while left != {}
        invariant left <= services.Keys && NoDup(workers)
        invariant forall i :: i in workers <==> i in services && i !in left
        decreases |left|
      {
        var k :| k in left;
        left := left - {k};
        workers := workers + [k];
      }
      for i := 0 to threads
        invariant NoDup(workers)
        invariant forall k: nat :: k in workers <==> k in services || k < i
      {
        if i !in services { workers := workers + [i]; }
      }
    }
  }

  /** The queues of one service. */
  class Queues<M> {
    const cap: nat
    var messageQ: seq<seq<M>>

    constructor (threads: nat, cap: nat)
      ensures this.cap == cap && |messageQ| == threads && forall i :: 0 <= i < threads ==> messageQ[i] == []
    {
      this.cap := cap;
      messageQ := seq(threads, i => []);
    }

    /** Puts a message behind the others, or drops it when the queue is full. */
    method Push(th: nat, m: M) returns (pushed: bool)
      requires th < |messageQ|
      modifies this
      ensures pushed <==> |old(messageQ)[th]| < cap
      ensures messageQ == if pushed then old(messageQ)[th := old(messageQ)[th] + [m]] else old(messageQ)
    {
      pushed := |messageQ[th]| < cap;
      if pushed { messageQ := messageQ[th := messageQ[th] + [m]]; }
    }

    /** One turn of a worker: it handles the oldest messages of its queue, 1024 at most, in their order. */
    method MessageThread(th: nat) returns (handled: seq<M>)
      requires th < |messageQ|
      modifies this
      ensures |messageQ| == |old(messageQ)| && messageQ == old(messageQ)[th := messageQ[th]]
      ensures |handled| == Min(1024, |old(messageQ)[th]|) && old(messageQ)[th] == handled + messageQ[th]
    {
      handled := [];
      for i := 0 to 1024
        invariant |messageQ| == |old(messageQ)| && messageQ == old(messageQ)[th := messageQ[th]]
        invariant |handled| == i && old(messageQ)[th] == handled + messageQ[th]
      {
        if messageQ[th] == [] { return; }
        handled := handled + [messageQ[th][0]];
        messageQ := messageQ[th := messageQ[th][1..]];
      }
    }
  }

  // ---- the messages of one session, over every run

  /** Events of the session's incarnations, and messages of others. */
  datatype Msg = Opened(inc: nat) | Data(inc: nat, k: nat) | Closed(inc: nat) | Other

  /** An incarnation is starting, reading, has stopped handling reads, or has announced its close. */
  datatype Phase = Opening | Reading | Drained | Over

  /**
   `phases` and `counts` give phase and number of parsed messages of every incarnation; `queues` are the queues
   of the service, `log` what has been handled, in time.
   */
  datatype State = State(phases: seq<Phase>, counts: seq<nat>, queues: seq<seq<Msg>>, log: seq<Msg>)

  datatype Step = Restart | Open(i: nat) | Parse(i: nat, hash: int, fits: bool) | End(i: nat) | Close(i: nat, fits: bool)
                | Noise(q: nat) | Work(q: nat)

  /** The id of the session and the thread of its service. */
  datatype Home = Home(sid: nat, t: nat)

  /** The queue for data of the session with this hash, out of `n`. */
  function QueueOf(c: Home, hash: int, n: nat): (q: nat)
    requires c.t < n
    ensures q < n
  {
    GetProcessor(hash, Some(c.sid), c.t, n)
  }

  function Enqueue(s: State, q: nat, m: Msg, fits: bool): State
    requires q < |s.queues|
  {
    if fits then s.(queues := s.queues[q := s.queues[q] + [m]]) else s
  }

  /** A session is restarted only after its handler has stopped; the close of the old incarnation may still be due. */
  predicate CanRestart(s: State) { s.phases == [] || s.phases[|s.phases| - 1] in {Drained, Over} }

  predicate Enabled(s: State, c: Home, step: Step)
  {
    && |s.counts| == |s.phases| && c.t < |s.queues|
    && match step
       case Restart => CanRestart(s)
       case Open(i) => i < |s.phases| && s.phases[i] == Opening
       case Parse(i, _, _) => i < |s.phases| && s.phases[i] == Reading
       case End(i) => i < |s.phases| && s.phases[i] == Reading
       case Close(i, _) => i < |s.phases| && s.phases[i] == Drained
       case Noise(q) => q < |s.queues|
       case Work(q) => q < |s.queues| && s.queues[q] != []
  }

  /** The open event is handled on the spot, before the first read; the close goes to the service's own thread. */
  function Next(s: State, c: Home, step: Step): State
    requires Enabled(s, c, step)
  {
    match step
    case Restart => s.(phases := s.phases + [Opening], counts := s.counts + [0])
    case Open(i) => s.(phases := s.phases[i := Reading], log := s.log + [Opened(i)])
    case Parse(i, hash, fits) =>
      Enqueue(s.(counts := s.counts[i := s.counts[i] + 1]), QueueOf(c, hash, |s.queues|), Data(i, s.counts[i]), fits)
    case End(i) => s.(phases := s.phases[i := Drained])
    case Close(i, fits) => Enqueue(s.(phases := s.phases[i := Over]), c.t, Closed(i), fits)
    case Noise(q) => Enqueue(s, q, Other, true)
    case Work(q) => s.(queues := s.queues[q := s.queues[q][1..]], log := s.log + [s.queues[q][0]])
  }

  function Follow(s: State, c: Home, steps: seq<Step>): State
    decreases |steps|
  {
    if steps == [] then s
    else
      var k := |steps| - 1;
      var s' := Follow(s, c, steps[..k]);
      if Enabled(s', c, steps[k]) then Next(s', c, steps[k]) else s'
  }

  /** A run of a service with `n` queues. */
  function Run(n: nat, c: Home, steps: seq<Step>): State { Follow(State([], [], seq(n, i => []), []), c, steps) }

  // ---- the queues of the class and of the run

  /** A parsed message reaches the queues of the class as a `Parse` step puts it into those of the run. */
  method Deliver(queues: Queues<Msg>, ghost s: State, ghost c: Home, i: nat, hash: int, sess: nat, threadId: nat, m: Msg)
    returns (pushed: bool)
    requires queues.messageQ == s.queues && c == Home(sess, threadId) && threadId < |queues.messageQ|
    requires Enabled(s, c, Parse(i, hash, true)) && m == Data(i, s.counts[i])
    modifies queues
    ensures queues.messageQ == Next(s, c, Parse(i, hash, pushed)).queues
    ensures pushed <==> |s.queues[QueueOf(c, hash, |s.queues|)]| < queues.cap
  {
    var th := GetProcessor(hash, Some(sess), threadId, |queues.messageQ|);
    pushed := queues.Push(th, m);
  }

  lemma {:induction false} WorkMany(s: State, c: Home, q: nat, k: nat)
    requires |s.counts| == |s.phases| && c.t < |s.queues| && q < |s.queues| && k <= |s.queues[q]|
    ensures Follow(s, c, seq(k, i => Work(q))) == s.(queues := s.queues[q := s.queues[q][k..]], log := s.log + s.queues[q][..k])
  {
    var steps: seq<Step> := seq(k, i => Work(q));
    if k == 0 {
      assert s.queues[q := s.queues[q][0..]] == s.queues && s.log + s.queues[q][..0] == s.log;
    } else {
      WorkMany(s, c, q, k - 1);
      assert steps[..k - 1] == seq(k - 1, i => Work(q));
      assert s.queues[q][k - 1..][1..] == s.queues[q][k..];
      assert s.queues[q][..k] == s.queues[q][..k - 1] + [s.queues[q][k - 1]];
      assert s.log + s.queues[q][..k] == s.log + s.queues[q][..k - 1] + [s.queues[q][k - 1]];
    }
  }

  /** One turn of a worker over the queues of the class is so many `Work` steps of the run. */
  method Turn(queues: Queues<Msg>, ghost s: State, ghost c: Home, th: nat) returns (handled: seq<Msg>, ghost steps: seq<Step>)
    requires queues.messageQ == s.queues && |s.counts| == |s.phases| && c.t < |s.queues| && th < |queues.messageQ|
    modifies queues
    ensures |steps| == |handled| == Min(1024, |s.queues[th]|) && forall i :: 0 <= i < |steps| ==> steps[i] == Work(th)
    ensures queues.messageQ == Follow(s, c, steps).queues && Follow(s, c, steps).log == s.log + handled
  {
    handled := queues.MessageThread(th);
    steps := seq(|handled|, i => Work(th));
    WorkMany(s, c, th, |handled|);
    assert s.queues[th][..|handled|] == handled && s.queues[th][|handled|..] == queues.messageQ[th];
  }

  // ---- what every run keeps

  /** Data of the session stand in queue `d` only, its close events in queue `t`. */
  datatype Route = Route(d: nat, t: nat)

  /** The step puts messages where the route says. */
  predicate Routed(c: Home, r: Route, n: nat, step: Step)
  {
    r.t == c.t < n && (step.Parse? ==> QueueOf(c, step.hash, n) == r.d)
  }

  /** Parse order: by incarnation, then by position in its stream. */
  predicate Before(a: Msg, b: Msg)
  {
    a.Data? && b.Data? ==> a.inc < b.inc || (a.inc == b.inc && a.k < b.k)
  }

  /** What may stand in front of what, in the log and the queue of the session's data. */
  predicate InOrder(r: Route, a: Msg, b: Msg)
  {
    && Before(a, b)
    && !(a.Data? && b.Opened? && a.inc == b.inc)
    && (r.d == r.t ==> !(a.Closed? && b.Data? && a.inc == b.inc))
  }

  /** A message agrees with the phase and the count of its incarnation. */
  predicate Known(s: State, m: Msg)
  {
    match m
    case Opened(i) => i < |s.phases| && s.phases[i] != Opening
    case Data(i, k) => i < |s.phases| == |s.counts| && s.phases[i] != Opening && k < s.counts[i]
    case Closed(i) => i < |s.phases| && s.phases[i] == Over
    case Other => true
  }

  /** Handled, and then waiting in the session's queue. */
  function Line(s: State, r: Route): seq<Msg>
    requires r.d < |s.queues|
  {
    s.log + s.queues[r.d]
  }

  predicate Shape(s: State, r: Route)
  {
    && |s.counts| == |s.phases| && r.d < |s.queues| && r.t < |s.queues|
    && (forall i :: 0 <= i < |s.phases| - 1 ==> s.phases[i] in {Drained, Over})
  }

  predicate QueuesOk(s: State, r: Route)
  {
    && (forall q, p :: 0 <= q < |s.queues| && 0 <= p < |s.queues[q]| ==> Known(s, s.queues[q][p]) && !s.queues[q][p].Opened?)
    && (forall q, p :: 0 <= q < |s.queues| && 0 <= p < |s.queues[q]| && s.queues[q][p].Data? ==> q == r.d)
    && (forall q, p :: 0 <= q < |s.queues| && 0 <= p < |s.queues[q]| && s.queues[q][p].Closed? ==> q == r.t)
    && (forall p :: 0 <= p < |s.log| ==> Known(s, s.log[p]))
  }

  predicate Ordered(r: Route, l: seq<Msg>)
  {
    forall p, q :: 0 <= p < q < |l| ==> InOrder(r, l[p], l[q])
  }

  /** An incarnation that is past its opening has its open event in the log. */
  predicate OpenLogged(s: State)
  {
    forall i :: 0 <= i < |s.phases| && s.phases[i] != Opening ==> Opened(i) in s.log
  }

  predicate Inv(s: State, r: Route)
  {
    Shape(s, r) && QueuesOk(s, r) && Ordered(r, Line(s, r)) && OpenLogged(s)
  }

  /** A message that fits between those before and those behind it. */
  lemma InsertKeeps(r: Route, x: seq<Msg>, m: Msg, y: seq<Msg>)
    requires Ordered(r, x + y)
    requires (forall p :: 0 <= p < |x| ==> InOrder(r, x[p], m)) && forall p :: 0 <= p < |y| ==> InOrder(r, m, y[p])
    ensures Ordered(r, x + [m] + y)
  {
    hide InOrder;
    var l, l' := x + y, x + [m] + y;
    forall p, q | 0 <= p < q < |l'| ensures InOrder(r, l'[p], l'[q]) {
      if p < |x| {
        if q < |x| { assert l[p] == l'[p] && l[q] == l'[q]; }
        else if q > |x| { assert l[p] == l'[p] && l[q - 1] == l'[q]; }
      } else if p > |x| {
        assert l[p - 1] == l'[p] && l[q - 1] == l'[q];
      }
    }
  }

  lemma OpenKeeps(s: State, c: Home, r: Route, i: nat)
    requires Inv(s, r) && Enabled(s, c, Open(i))
    ensures Inv(Next(s, c, Open(i)), r)
  {
    var s' := Next(s, c, Open(i));
    KnownStays(s, s', r);
    InsertKeeps(r, s.log, Opened(i), s.queues[r.d]);
    assert s'.log[|s.log|] == Opened(i);
    forall j | 0 <= j < |s'.phases| && s'.phases[j] != Opening ensures Opened(j) in s'.log {
      if j != i { assert Opened(j) in s.log; }
    }
  }

  /** Phases only move on and counts only grow, so what was known stays known. */
  ghost predicate Forward(s: State, s': State)
  {
    && |s.counts| == |s.phases| <= |s'.phases| == |s'.counts|
    && (forall i :: 0 <= i < |s.phases| ==> s.counts[i] <= s'.counts[i])
    && (forall i :: 0 <= i < |s.phases| ==> (s.phases[i] != Opening ==> s'.phases[i] != Opening))
    && (forall i :: 0 <= i < |s.phases| ==> (s.phases[i] == Over ==> s'.phases[i] == Over))
  }

  lemma KnownStays(s: State, s': State, r: Route)
    requires QueuesOk(s, r) && Forward(s, s')
    ensures forall q, p :: 0 <= q < |s.queues| && 0 <= p < |s.queues[q]| ==> Known(s', s.queues[q][p])
    ensures forall p :: 0 <= p < |s.log| ==> Known(s', s.log[p])
  {
    forall q, p | 0 <= q < |s.queues| && 0 <= p < |s.queues[q]| ensures Known(s', s.queues[q][p]) {
      assert Known(s, s.queues[q][p]);
    }
    forall p | 0 <= p < |s.log| ensures Known(s', s.log[p]) { assert Known(s, s.log[p]); }
  }

  /** Putting a message behind a queue. */
  lemma EnqueueKeeps(s: State, s1: State, r: Route, q: nat, m: Msg)
    requires Inv(s, r) && Forward(s, s1) && s1.queues == s.queues && s1.log == s.log && Shape(s1, r) && OpenLogged(s1)
    requires q < |s.queues| && Known(s1, m) && !m.Opened? && (m.Data? ==> q == r.d) && (m.Closed? ==> q == r.t)
    requires q == r.d ==> forall p :: 0 <= p < |Line(s, r)| ==> InOrder(r, Line(s, r)[p], m)
    ensures Inv(Enqueue(s1, q, m, true), r)
  {
    hide InOrder;
    KnownStays(s, s1, r);
    var s' := Enqueue(s1, q, m, true);
    forall c | 0 <= c < |s'.queues| ensures s'.queues[c] == if c == q then s.queues[c] + [m] else s.queues[c] {}
    assert QueuesOk(s', r) by { EnqueueQueues(s1, s', r, q, m); }
    if q == r.d {
      var l := Line(s, r);
      assert l + [] == l;
      InsertKeeps(r, l, m, []);
      assert Line(s', r) == l + [m] + [];
    }
  }

  lemma EnqueueQueues(s1: State, s': State, r: Route, q: nat, m: Msg)
    requires q < |s1.queues| && s' == Enqueue(s1, q, m, true) && QueuesOk(s1, r)
    requires Known(s1, m) && !m.Opened? && (m.Data? ==> q == r.d) && (m.Closed? ==> q == r.t)
    ensures QueuesOk(s', r)
  {
    forall c, p | 0 <= c < |s'.queues| && 0 <= p < |s'.queues[c]|
      ensures Known(s', s'.queues[c][p]) && !s'.queues[c][p].Opened?
      ensures s'.queues[c][p].Data? ==> c == r.d
      ensures s'.queues[c][p].Closed? ==> c == r.t
    {
      if !(c == q && p == |s1.queues[q]|) { assert s'.queues[c][p] == s1.queues[c][p]; }
    }
  }

  lemma ParseKeeps(s: State, c: Home, r: Route, i: nat, hash: int, fits: bool)
    requires Inv(s, r) && Enabled(s, c, Parse(i, hash, fits)) && QueueOf(c, hash, |s.queues|) == r.d
    ensures Inv(Next(s, c, Parse(i, hash, fits)), r)
  {
    var s1 := s.(counts := s.counts[i := s.counts[i] + 1]);
    KnownStays(s, s1, r);
    if fits {
      var m, l := Data(i, s.counts[i]), Line(s, r);
      forall p | 0 <= p < |l| ensures InOrder(r, l[p], m) {
        assert l[p] == if p < |s.log| then s.log[p] else s.queues[r.d][p - |s.log|];
        assert Known(s, l[p]);
      }
      EnqueueKeeps(s, s1, r, r.d, m);
    }
  }

  lemma CloseKeeps(s: State, c: Home, r: Route, i: nat, fits: bool)
    requires Inv(s, r) && Enabled(s, c, Close(i, fits)) && r.t == c.t
    ensures Inv(Next(s, c, Close(i, fits)), r)
  {
    var s1 := s.(phases := s.phases[i := Over]);
    KnownStays(s, s1, r);
    if fits { EnqueueKeeps(s, s1, r, r.t, Closed(i)); }
  }

  lemma WorkKeeps(s: State, c: Home, r: Route, q: nat)
    requires Inv(s, r) && Enabled(s, c, Work(q))
    ensures Inv(Next(s, c, Work(q)), r)
  {
    hide InOrder, Known;
    var s', m := Next(s, c, Work(q)), s.queues[q][0];
    WorkQueues(s, s', r, q);
    if q == r.d {
      assert Line(s', r) == Line(s, r);
    } else {
      OutsideInOrder(s, r, q);
      InsertKeeps(r, s.log, m, s.queues[r.d]);
    }
    forall i | 0 <= i < |s.phases| && s.phases[i] != Opening ensures Opened(i) in s'.log { assert Opened(i) in s.log; }
  }

  /** What comes out of another queue may be handled at any time. */
  lemma OutsideInOrder(s: State, r: Route, q: nat)
    requires Inv(s, r) && q < |s.queues| && s.queues[q] != [] && q != r.d
    ensures var m := s.queues[q][0];
            (forall p :: 0 <= p < |s.log| ==> InOrder(r, s.log[p], m))
            && forall p :: 0 <= p < |s.queues[r.d]| ==> InOrder(r, m, s.queues[r.d][p])
  {
    var m := s.queues[q][0];
    assert !m.Data? && !m.Opened? && (m.Closed? ==> q == r.t);
  }

  lemma WorkQueues(s: State, s': State, r: Route, q: nat)
    requires QueuesOk(s, r) && q < |s.queues| && s.queues[q] != []
    requires s' == s.(queues := s.queues[q := s.queues[q][1..]], log := s.log + [s.queues[q][0]])
    ensures QueuesOk(s', r)
  {
    hide Known;
    KnownSame(s, s');
    forall c, p | 0 <= c < |s'.queues| && 0 <= p < |s'.queues[c]|
      ensures Known(s', s'.queues[c][p]) && !s'.queues[c][p].Opened?
      ensures s'.queues[c][p].Data? ==> c == r.d
      ensures s'.queues[c][p].Closed? ==> c == r.t
    {
      var o := if c == q then p + 1 else p;
      assert s'.queues[c][p] == s.queues[c][o] && Known(s, s.queues[c][o]);
    }
    forall p | 0 <= p < |s'.log| ensures Known(s', s'.log[p]) {
      if p == |s.log| { assert Known(s, s.queues[q][0]); } else { assert Known(s, s.log[p]); }
    }
  }

  lemma KnownSame(s: State, s': State)
    requires s'.phases == s.phases && s'.counts == s.counts
    ensures forall m :: Known(s, m) <==> Known(s', m)
  {
  }

  lemma StepKeeps(s: State, c: Home, r: Route, step: Step)
    requires Inv(s, r) && Enabled(s, c, step) && Routed(c, r, |s.queues|, step)
    ensures Inv(Next(s, c, step), r) && |Next(s, c, step).queues| == |s.queues|
  {
    match step
    case Restart => KnownStays(s, Next(s, c, step), r);
    case Open(i) => OpenKeeps(s, c, r, i);
    case Parse(i, hash, fits) => ParseKeeps(s, c, r, i, hash, fits);
    case End(i) => KnownStays(s, Next(s, c, step), r);
    case Close(i, fits) => CloseKeeps(s, c, r, i, fits);
    case Noise(q) => EnqueueKeeps(s, s, r, q, Other);
    case Work(q) => WorkKeeps(s, c, r, q);
  }

  /** All hashes of the run name queue `d`. */
  predicate OneQueue(n: nat, c: Home, steps: seq<Step>, d: nat)
    requires c.t < n
  {
    forall i :: 0 <= i < |steps| ==> Routed(c, Route(d, c.t), n, steps[i])
  }

  /** Hashes that are all 0, or all negative, name one queue; for hash 0 it is that of the service's own thread. */
  lemma SignNamesQueue(n: nat, c: Home, steps: seq<Step>, h: int)
    requires c.t < n && h <= 0
    requires forall i :: 0 <= i < |steps| && steps[i].Parse? ==> steps[i].hash <= 0 && (steps[i].hash == 0 <==> h == 0)
    ensures OneQueue(n, c, steps, QueueOf(c, h, n)) && (h == 0 ==> QueueOf(c, h, n) == c.t)
  {
    forall i | 0 <= i < |steps| && steps[i].Parse? ensures QueueOf(c, steps[i].hash, n) == QueueOf(c, h, n) {
      StaysInQueue(steps[i].hash, h, c.sid, c.t, n);
    }
  }

  lemma {:induction false} RunInv(n: nat, c: Home, steps: seq<Step>, d: nat)
    requires c.t < n && d < n && OneQueue(n, c, steps, d)
    ensures Inv(Run(n, c, steps), Route(d, c.t)) && |Run(n, c, steps).queues| == n
    decreases |steps|
  {
    hide Next, Enabled;
    if steps != [] {
      var k := |steps| - 1;
      RunInv(n, c, steps[..k], d);
      var s := Run(n, c, steps[..k]);
      if Enabled(s, c, steps[k]) { StepKeeps(s, c, Route(d, c.t), steps[k]); }
    }
  }

  /** The handled data are in parse order. */
  predicate InParseOrder(log: seq<Msg>)
  {
    forall p, q :: 0 <= p < q < |log| ==> Before(log[p], log[q])
  }

  /**
   In every run whose hashes name one queue the handled data of a session are in parse order, each incarnation's behind
   its open event; and if that queue is the service's own, in front of its close event.
   */
  lemma HandledInOrder(n: nat, c: Home, steps: seq<Step>, d: nat)
    requires c.t < n && d < n && OneQueue(n, c, steps, d)
    ensures var log := Run(n, c, steps).log;
            && InParseOrder(log)
            && (forall p, q :: 0 <= p < q < |log| && log[p].Data? && log[q].Opened? ==> log[p].inc != log[q].inc)
            && (d == c.t ==> forall p, q :: 0 <= p < q < |log| && log[p].Closed? && log[q].Data? ==> log[p].inc != log[q].inc)
  {
    hide Run;
    RunInv(n, c, steps, d);
    var s, r := Run(n, c, steps), Route(d, c.t);
    forall p, q | 0 <= p < q < |s.log| ensures InOrder(r, s.log[p], s.log[q]) {
      assert Line(s, r)[p] == s.log[p] && Line(s, r)[q] == s.log[q];
    }
  }

  // ---- the open event, wherever the data stand

  /** Incarnations past their opening are in the log, messages that wait belong to such, and handled data stand behind it. */
  ghost predicate OpenInv(s: State)
  {
    && (forall i: nat :: Opened(i) in s.log <==> i < |s.phases| && s.phases[i] != Opening)
    && (forall q, p :: 0 <= q < |s.queues| && 0 <= p < |s.queues[q]| ==> !s.queues[q][p].Opened?)
    && (forall q, p :: 0 <= q < |s.queues| && 0 <= p < |s.queues[q]| && s.queues[q][p].Data? ==> Opened(s.queues[q][p].inc) in s.log)
    && OpenFirst(s.log)
  }

  /** Data stand behind the open event of their incarnation, and never in front of it. */
  ghost predicate OpenFirst(log: seq<Msg>)
  {
    && (forall q :: 0 <= q < |log| && log[q].Data? ==> Opened(log[q].inc) in log[..q])
    && (forall p, q :: 0 <= p < q < |log| && log[p].Data? && log[q].Opened? ==> log[p].inc != log[q].inc)
  }

  lemma OpenFirstMore(log: seq<Msg>, m: Msg)
    requires OpenFirst(log) && (m.Data? ==> Opened(m.inc) in log) && (m.Opened? ==> m !in log)
    ensures OpenFirst(log + [m])
  {
    var l := log + [m];
    forall q | 0 <= q < |l| ensures l[q].Data? ==> Opened(l[q].inc) in l[..q] {
      assert l[..q] == log[..q] && l[q] == if q < |log| then log[q] else m;
    }
    forall p | 0 <= p < |log| && log[p].Data? && m.Opened? ensures log[p].inc != m.inc {
      assert Opened(log[p].inc) in log[..p];
    }
  }

  lemma OpenEnqueue(s: State, q: nat, m: Msg, fits: bool)
    requires OpenInv(s) && q < |s.queues| && !m.Opened? && (m.Data? ==> Opened(m.inc) in s.log)
    ensures OpenInv(Enqueue(s, q, m, fits))
  {
    hide OpenFirst;
    var s' := Enqueue(s, q, m, fits);
    forall c, p | 0 <= c < |s'.queues| && 0 <= p < |s'.queues[c]|
      ensures !s'.queues[c][p].Opened? && (s'.queues[c][p].Data? ==> Opened(s'.queues[c][p].inc) in s'.log)
    {
      if c == q && p == |s.queues[q]| { assert s'.queues[c][p] == m; } else { assert s'.queues[c][p] == s.queues[c][p]; }
    }
  }

  lemma OpenWork(s: State, s': State, q: nat)
    requires OpenInv(s) && q < |s.queues| && s.queues[q] != []
    requires s' == s.(queues := s.queues[q := s.queues[q][1..]], log := s.log + [s.queues[q][0]])
    ensures OpenInv(s')
  {
    hide OpenFirst;
    OpenFirstMore(s.log, s.queues[q][0]);
    forall c, p | 0 <= c < |s'.queues| && 0 <= p < |s'.queues[c]|
      ensures !s'.queues[c][p].Opened? && (s'.queues[c][p].Data? ==> Opened(s'.queues[c][p].inc) in s'.log)
    {
      var o := if c == q then p + 1 else p;
      assert s'.queues[c][p] == s.queues[c][o];
    }
  }

  lemma OpenStep(s: State, c: Home, step: Step)
    requires OpenInv(s) && Enabled(s, c, step)
    ensures OpenInv(Next(s, c, step))
  {
    hide OpenFirst, QueueOf;
    match step
    case Restart =>
    case Open(i) => OpenFirstMore(s.log, Opened(i));
    case Parse(i, hash, fits) =>
      OpenEnqueue(s.(counts := s.counts[i := s.counts[i] + 1]), QueueOf(c, hash, |s.queues|), Data(i, s.counts[i]), fits);
    case End(i) =>
    case Close(i, fits) => OpenEnqueue(s.(phases := s.phases[i := Over]), c.t, Closed(i), fits);
    case Noise(q) => OpenEnqueue(s, q, Other, true);
    case Work(q) => OpenWork(s, Next(s, c, step), q);
  }

  lemma {:induction false} OpenRun(n: nat, c: Home, steps: seq<Step>)
    ensures OpenInv(Run(n, c, steps))
    decreases |steps|
  {
    hide Next, Enabled, OpenInv;
    if steps == [] {
      OpenStart(n);
    } else {
      var k := |steps| - 1;
      OpenRun(n, c, steps[..k]);
      var s := Run(n, c, steps[..k]);
      if Enabled(s, c, steps[k]) { OpenStep(s, c, steps[k]); }
    }
  }

  lemma OpenStart(n: nat)
    ensures OpenInv(State([], [], seq(n, i => []), []))
  {
  }

  /**
   In every run, whatever the hashes are and however many workers handle the session, nothing is handled of an
   incarnation before its open event, and the open event is not handled behind any of its data.
   */
  lemma HandledAfterOpen(n: nat, c: Home, steps: seq<Step>, q: nat)
    requires q < |Run(n, c, steps).log| && Run(n, c, steps).log[q].Data?
    ensures var log := Run(n, c, steps).log;
            && (exists p :: 0 <= p < q && log[p] == Opened(log[q].inc))
            && forall p :: q < p < |log| ==> log[p] != Opened(log[q].inc)
  {
    hide Run;
    OpenRun(n, c, steps);
    var log := Run(n, c, steps).log;
    var p :| 0 <= p < q && log[..q][p] == Opened(log[q].inc);
    assert log[p] == Opened(log[q].inc);
  }

  // ---- when the order breaks

  /** Two messages of one incarnation, the second of them handled first. */
  function Race(h: int, h': int, q: nat, q': nat): seq<Step>
  {
    [Restart, Open(0), Parse(0, h, true), Parse(0, h', true), Work(q'), Work(q)]
  }

  /** As soon as two hashes name different queues, a later message can overtake an earlier one. */
  lemma HashesOvertake(n: nat, c: Home, h: int, h': int)
    requires c.t < n && QueueOf(c, h, n) != QueueOf(c, h', n)
    ensures var q, q' := QueueOf(c, h, n), QueueOf(c, h', n);
            Run(n, c, Race(h, h', q, q')).log == [Opened(0), Data(0, 1), Data(0, 0)]
  {
    hide Next, Enabled, Follow;
    var q, q' := QueueOf(c, h, n), QueueOf(c, h', n);
    var none: seq<seq<Msg>> := seq(n, i => []);
    var one, both := none[q := [Data(0, 0)]], none[q := [Data(0, 0)]][q' := [Data(0, 1)]];
    var s0 := State([], [], none, []);
    var s1 := State([Opening], [0], none, []);
    var s2 := State([Reading], [0], none, [Opened(0)]);
    var s3 := State([Reading], [1], one, [Opened(0)]);
    var s4 := State([Reading], [2], both, [Opened(0)]);
    var s5 := State([Reading], [2], one, [Opened(0), Data(0, 1)]);
    var s6 := State([Reading], [2], none, [Opened(0), Data(0, 1), Data(0, 0)]);
    ParsesBoth(n, c, h, h', none, s2, s3, s4);
    WorksBoth(c, q, q', none, s4, s5, s6);
    Starts(c, s0, s1, s2);
    var t1 := [Restart];
    var t2 := t1 + [Open(0)];
    var t3 := t2 + [Parse(0, h, true)];
    var t4 := t3 + [Parse(0, h', true)];
    var t5 := t4 + [Work(q')];
    StartsFollow(s0, c);
    FollowMore(s0, c, [], Restart);
    assert [] + [Restart] == t1;
    FollowMore(s0, c, t1, Open(0));
    FollowMore(s0, c, t2, Parse(0, h, true));
    FollowMore(s0, c, t3, Parse(0, h', true));
    FollowMore(s0, c, t4, Work(q'));
    FollowMore(s0, c, t5, Work(q));
    assert t5 + [Work(q)] == Race(h, h', q, q');
  }

  lemma StartsFollow(s: State, c: Home)
    ensures Follow(s, c, []) == s
  {
  }

  lemma Starts(c: Home, s0: State, s1: State, s2: State)
    requires c.t < |s0.queues| && s0 == State([], [], s0.queues, [])
    requires s1 == State([Opening], [0], s0.queues, []) && s2 == State([Reading], [0], s0.queues, [Opened(0)])
    ensures Enabled(s0, c, Restart) && Next(s0, c, Restart) == s1
    ensures Enabled(s1, c, Open(0)) && Next(s1, c, Open(0)) == s2
  {
  }

  lemma ParsesBoth(n: nat, c: Home, h: int, h': int, none: seq<seq<Msg>>, s2: State, s3: State, s4: State)
    requires c.t < n == |none| && (forall i :: 0 <= i < n ==> none[i] == []) && QueueOf(c, h, n) != QueueOf(c, h', n)
    requires s2 == State([Reading], [0], none, [Opened(0)])
    requires s3 == s2.(counts := [1], queues := none[QueueOf(c, h, n) := [Data(0, 0)]])
    requires s4 == s3.(counts := [2], queues := s3.queues[QueueOf(c, h', n) := [Data(0, 1)]])
    ensures Enabled(s2, c, Parse(0, h, true)) && Next(s2, c, Parse(0, h, true)) == s3
    ensures Enabled(s3, c, Parse(0, h', true)) && Next(s3, c, Parse(0, h', true)) == s4
  {
    hide QueueOf;
    var q, q' := QueueOf(c, h, n), QueueOf(c, h', n);
    assert none[q] + [Data(0, 0)] == [Data(0, 0)] && s3.queues[q'] == none[q'] && none[q'] + [Data(0, 1)] == [Data(0, 1)];
    assert [0][0 := 1] == [1] && [1][0 := 2] == [2];
  }

  lemma WorksBoth(c: Home, q: nat, q': nat, none: seq<seq<Msg>>, s4: State, s5: State, s6: State)
    requires c.t < |none| && (forall i :: 0 <= i < |none| ==> none[i] == []) && q < |none| && q' < |none| && q != q'
    requires s4 == State([Reading], [2], none[q := [Data(0, 0)]][q' := [Data(0, 1)]], [Opened(0)])
    requires s5 == s4.(queues := none[q := [Data(0, 0)]], log := [Opened(0), Data(0, 1)])
    requires s6 == s5.(queues := none, log := [Opened(0), Data(0, 1), Data(0, 0)])
    ensures Enabled(s4, c, Work(q')) && Next(s4, c, Work(q')) == s5
    ensures Enabled(s5, c, Work(q)) && Next(s5, c, Work(q)) == s6
  {
    assert s4.queues[q'] == [Data(0, 1)] && s4.queues[q'][1..] == none[q'] && s5.queues[q][1..] == none[q];
    assert s4.queues[q' := none[q']] == s5.queues;
    assert s5.queues[q := none[q]] == s6.queues;
  }

  lemma FollowMore(s: State, c: Home, steps: seq<Step>, step: Step)
    ensures var s' := Follow(s, c, steps);
            Follow(s, c, steps + [step]) == if Enabled(s', c, step) then Next(s', c, step) else s'
  {
    hide Next, Enabled;
    assert (steps + [step])[..|steps|] == steps;
  }

  /** The hashes of the run are among `hashes`. */
  predicate HashedBy(steps: seq<Step>, hashes: set<int>)
  {
    forall i :: 0 <= i < |steps| && steps[i].Parse? ==> steps[i].hash in hashes
  }

  /** Every schedule of data with these hashes handles them in order. */
  ghost predicate AlwaysInOrder(n: nat, c: Home, hashes: set<int>)
  {
    forall steps :: HashedBy(steps, hashes) ==> InParseOrder(Run(n, c, steps).log)
  }

  lemma NotAlways(n: nat, c: Home, hashes: set<int>, h: int, h': int)
    requires c.t < n && h in hashes && h' in hashes && QueueOf(c, h, n) != QueueOf(c, h', n)
    ensures !AlwaysInOrder(n, c, hashes)
  {
    hide Run, QueueOf;
    HashesOvertake(n, c, h, h');
    var race := Race(h, h', QueueOf(c, h, n), QueueOf(c, h', n));
    assert HashedBy(race, hashes) && !Before(Run(n, c, race).log[1], Run(n, c, race).log[2]);
  }

  /** Every schedule handles a session's data in order if and only if their hashes name one queue. */
  lemma InOrderIff(n: nat, c: Home, hashes: set<int>)
    requires c.t < n
    ensures AlwaysInOrder(n, c, hashes) <==> forall h, h' :: h in hashes && h' in hashes ==> QueueOf(c, h, n) == QueueOf(c, h', n)
  {
    hide Run, QueueOf;
    forall h, h' | AlwaysInOrder(n, c, hashes) && h in hashes && h' in hashes ensures QueueOf(c, h, n) == QueueOf(c, h', n) {
      if QueueOf(c, h, n) != QueueOf(c, h', n) { NotAlways(n, c, hashes, h, h'); }
    }
    if forall h, h' :: h in hashes && h' in hashes ==> QueueOf(c, h, n) == QueueOf(c, h', n) {
      var d: nat := 0;
      if h :| h in hashes { d := QueueOf(c, h, n); }
      forall steps | HashedBy(steps, hashes) ensures InParseOrder(Run(n, c, steps).log) {
        HandledInOrder(n, c, steps, d);
      }
    }
  }

  /** Data are handled before the close of their incarnation. */
  predicate BeforeClose(log: seq<Msg>)
  {
    forall p, q :: 0 <= p < q < |log| && log[p].Closed? && log[q].Data? ==> log[p].inc != log[q].inc
  }

  /** A message, then the close, which the service's own thread handles first. */
  function CloseRace(h: int, q: nat, t: nat): seq<Step>
  {
    [Restart, Open(0), Parse(0, h, true), End(0), Close(0, true), Work(t), Work(q)]
  }

  lemma ClosesFirst(c: Home, q: nat, none: seq<seq<Msg>>, s3: State, s4: State, s5: State, s6: State, s7: State)
    requires c.t < |none| && (forall i :: 0 <= i < |none| ==> none[i] == []) && q < |none| && q != c.t
    requires s3 == State([Reading], [1], none[q := [Data(0, 0)]], [Opened(0)]) && s4 == s3.(phases := [Drained])
    requires s5 == s4.(phases := [Over], queues := s3.queues[c.t := [Closed(0)]])
    requires s6 == s5.(queues := s3.queues, log := [Opened(0), Closed(0)])
    requires s7 == s6.(queues := none, log := [Opened(0), Closed(0), Data(0, 0)])
    ensures Enabled(s3, c, End(0)) && Next(s3, c, End(0)) == s4
    ensures Enabled(s4, c, Close(0, true)) && Next(s4, c, Close(0, true)) == s5
    ensures Enabled(s5, c, Work(c.t)) && Next(s5, c, Work(c.t)) == s6
    ensures Enabled(s6, c, Work(q)) && Next(s6, c, Work(q)) == s7
  {
    assert s3.queues[c.t] == none[c.t] && none[c.t] + [Closed(0)] == [Closed(0)];
    assert s5.queues[c.t][1..] == none[c.t] && s6.queues[q][1..] == none[q];
    assert s5.queues[c.t := none[c.t]] == s3.queues;
    assert s6.queues[q := none[q]] == none;
  }

  lemma ParsesOne(n: nat, c: Home, h: int, none: seq<seq<Msg>>, s2: State, s3: State)
    requires c.t < n == |none| && forall i :: 0 <= i < n ==> none[i] == []
    requires s2 == State([Reading], [0], none, [Opened(0)])
    requires s3 == s2.(counts := [1], queues := none[QueueOf(c, h, n) := [Data(0, 0)]])
    ensures Enabled(s2, c, Parse(0, h, true)) && Next(s2, c, Parse(0, h, true)) == s3
  {
    hide QueueOf;
    var q := QueueOf(c, h, n);
    assert none[q] + [Data(0, 0)] == [Data(0, 0)] && [0][0 := 1] == [1];
  }

  /** A hash that names another queue than the service's own lets the close overtake the data. */
  lemma CloseOvertakes(n: nat, c: Home, h: int)
    requires c.t < n && QueueOf(c, h, n) != c.t
    ensures Run(n, c, CloseRace(h, QueueOf(c, h, n), c.t)).log == [Opened(0), Closed(0), Data(0, 0)]
  {
    hide Next, Enabled, Follow;
    var q := QueueOf(c, h, n);
    var none: seq<seq<Msg>> := seq(n, i => []);
    var s0 := State([], [], none, []);
    var s1 := State([Opening], [0], none, []);
    var s2 := State([Reading], [0], none, [Opened(0)]);
    var s3 := State([Reading], [1], none[q := [Data(0, 0)]], [Opened(0)]);
    var s4 := s3.(phases := [Drained]);
    var s5 := s4.(phases := [Over], queues := s3.queues[c.t := [Closed(0)]]);
    var s6 := s5.(queues := s3.queues, log := [Opened(0), Closed(0)]);
    var s7 := s6.(queues := none, log := [Opened(0), Closed(0), Data(0, 0)]);
    Starts(c, s0, s1, s2);
    ParsesOne(n, c, h, none, s2, s3);
    ClosesFirst(c, q, none, s3, s4, s5, s6, s7);
    var t1 := [Restart];
    var t2 := t1 + [Open(0)];
    var t3 := t2 + [Parse(0, h, true)];
    var t4 := t3 + [End(0)];
    var t5 := t4 + [Close(0, true)];
    var t6 := t5 + [Work(c.t)];
    StartsFollow(s0, c);
    FollowMore(s0, c, [], Restart);
    assert [] + [Restart] == t1;
    FollowMore(s0, c, t1, Open(0));
    FollowMore(s0, c, t2, Parse(0, h, true));
    FollowMore(s0, c, t3, End(0));
    FollowMore(s0, c, t4, Close(0, true));
    FollowMore(s0, c, t5, Work(c.t));
    FollowMore(s0, c, t6, Work(q));
    assert t6 + [Work(q)] == CloseRace(h, q, c.t);
  }

  /** Every schedule of data with these hashes handles them before the close. */
  ghost predicate AlwaysBeforeClose(n: nat, c: Home, hashes: set<int>)
  {
    forall steps :: HashedBy(steps, hashes) ==> BeforeClose(Run(n, c, steps).log)
  }

  lemma NotBeforeClose(n: nat, c: Home, hashes: set<int>, h: int)
    requires c.t < n && h in hashes && QueueOf(c, h, n) != c.t
    ensures !AlwaysBeforeClose(n, c, hashes)
  {
    hide Run, QueueOf;
    CloseOvertakes(n, c, h);
    var race := CloseRace(h, QueueOf(c, h, n), c.t);
    var log := Run(n, c, race).log;
    assert log[1] == Closed(0) && log[2] == Data(0, 0);
    assert HashedBy(race, hashes) && !BeforeClose(log);
  }

  /** Every schedule handles a session's data before its close if and only if their hashes name the service's own queue. */
  lemma BeforeCloseIff(n: nat, c: Home, hashes: set<int>)
    requires c.t < n
    ensures AlwaysBeforeClose(n, c, hashes) <==> forall h :: h in hashes ==> QueueOf(c, h, n) == c.t
  {
    hide Run, QueueOf;
    forall h | AlwaysBeforeClose(n, c, hashes) && h in hashes ensures QueueOf(c, h, n) == c.t {
      if QueueOf(c, h, n) != c.t { NotBeforeClose(n, c, hashes, h); }
    }
    if forall h :: h in hashes ==> QueueOf(c, h, n) == c.t {
      forall steps | HashedBy(steps, hashes) ensures BeforeClose(Run(n, c, steps).log) {
        HandledInOrder(n, c, steps, c.t);
      }
    }
  }
}
