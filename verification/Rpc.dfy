/**
 The table of pending RPC requests. Calls, responses, the timers of synchronous callers and the expiry loop
 meet in it in any order; each step below is what one goroutine does under the mutex, or the running of one
 callback or exception that it has taken out of the table.
 */
module Rpc {
  import opened Bytes

  const CALL_TIMEOUT: int := -2
  const PARAM_ERR: int := -3

  datatype Call = Call(sync: bool, callback: bool, exception: bool, timeout: int)

  /** A response; `decodes` says whether its data fit the parameters of the callback. */
  datatype Rsp = Rsp(num: nat, code: int, decodes: bool)

  datatype Event = Callback(num: nat, rsp: Rsp) | Exception(num: nat, code: int)

  /** Where the goroutine of a synchronous caller is. */
  datatype Caller = Sending | Waiting | Gone

  /**
   `calls` are all calls ever made, `pending` those in the table, `signals` responses on their way to waiting
   callers, `queue` responses on their way to a worker, `owed` what has been taken out of the table but not
   run yet, `log` what has been run.
   */
  datatype State = State(last: nat, calls: map<nat, Call>, pending: set<nat>, callers: map<nat, Caller>,
                         signals: map<nat, Rsp>, queue: seq<Rsp>, owed: seq<Event>, log: seq<Event>)

  datatype Action =
    | Begin(call: Call)
    | Sent(num: nat, ok: bool)
    | Receive(rsp: Rsp)
    | Drop(i: nat)
    | Handle(i: nat)
    | Wake(num: nat)
    | Timer(num: nat)
    | Expire(num: nat, now: int)
    | Fire(i: nat)

  function Cut<T>(s: seq<T>, i: nat): seq<T>
    requires i < |s|
  {
    s[..i] + s[i + 1..]
  }

  /** What a response makes of the request it answers: its callback, its exception, or nothing. */
  function Answer(c: Call, rsp: Rsp): (r: seq<Event>)
    ensures |r| <= 1
  {
    if rsp.code != 0 then if c.exception then [Exception(rsp.num, rsp.code)] else []
    else if !c.callback then []
    else if rsp.decodes then [Callback(rsp.num, rsp)]
    else if c.exception then [Exception(rsp.num, PARAM_ERR)] else []
  }

  /**
   `es` is what the response `rsp` should make of the call `c`: its callback with the response if that is good and
   its data fit, its exception with the code of the response if that is not 0, its exception with PARAM_ERR if the
   data of a good response do not fit the callback, and nothing else.
   */
  ghost predicate RightAnswer(c: Call, rsp: Rsp, es: seq<Event>)
  {
    && |es| <= 1 && (forall i :: 0 <= i < |es| ==> es[i].num == rsp.num && (es[i].Callback? ==> es[i].rsp == rsp))
    && (Callback(rsp.num, rsp) in es <==> rsp.code == 0 && rsp.decodes && c.callback)
    && forall code :: Exception(rsp.num, code) in es
                 <==> c.exception && (if rsp.code != 0 then code == rsp.code else code == PARAM_ERR && c.callback && !rsp.decodes)
  }

  lemma AnswerIsRight(c: Call, rsp: Rsp)
    ensures RightAnswer(c, rsp, Answer(c, rsp))
  {
    var es := Answer(c, rsp);
    forall code ensures Exception(rsp.num, code) in es
                   <==> c.exception && (if rsp.code != 0 then code == rsp.code else code == PARAM_ERR && c.callback && !rsp.decodes) {
      if es != [] { assert es[0] in es; }
    }
  }

  /** `handleRpcRsp`: whoever deletes the request from the table answers it. */
  function Claim(s: State, rsp: Rsp): State
  {
    if rsp.num !in s.pending || rsp.num !in s.calls then s
    else s.(pending := s.pending - {rsp.num}, owed := s.owed + Answer(s.calls[rsp.num], rsp))
  }

  /** A request that is given up: its exception with the timeout code. */
  function TimedOut(c: Call, num: nat): (r: seq<Event>)
    ensures |r| <= 1
  {
    if c.exception then [Exception(num, CALL_TIMEOUT)] else []
  }

  predicate Enabled(s: State, a: Action)
  {
    match a
    case Begin(c) => s.last + 1 < TWO32
    case Sent(n, ok) => n in s.callers && s.callers[n] == Sending
    case Receive(rsp) => rsp.num in s.calls && (rsp.num in s.pending && s.calls[rsp.num].sync ==> rsp.num !in s.signals)
    case Drop(i) => i < |s.queue|
    case Handle(i) => i < |s.queue|
    case Wake(n) => n in s.callers && s.callers[n] == Waiting && n in s.signals
    case Timer(n) => n in s.callers && s.callers[n] == Waiting && n in s.calls
    case Expire(n, now) => n in s.pending && n in s.calls && s.calls[n].timeout < now
    case Fire(i) => i < |s.owed|
  }

  /** One step; the network may lose, delay and repeat responses, but only answers requests that were made. */
  function Next(s: State, a: Action): State
    requires Enabled(s, a)
  {
    match a
    case Begin(c) =>
      var n := s.last + 1;
      s.(last := n, calls := s.calls[n := c], pending := s.pending + {n},
         callers := if c.sync then s.callers[n := Sending] else s.callers)
    case Sent(n, ok) => s.(callers := s.callers[n := if ok then Waiting else Gone])
    case Receive(rsp) =>
      if rsp.num in s.pending && s.calls[rsp.num].sync then s.(signals := s.signals[rsp.num := rsp])
      else s.(queue := s.queue + [rsp])
    case Drop(i) => s.(queue := Cut(s.queue, i))
    case Handle(i) => Claim(s.(queue := Cut(s.queue, i)), s.queue[i])
    case Wake(n) => Claim(s.(callers := s.callers[n := Gone], signals := s.signals - {n}), s.signals[n])
    case Timer(n) => s.(callers := s.callers[n := Gone], pending := s.pending - {n}, owed := s.owed + TimedOut(s.calls[n], n))
    case Expire(n, now) =>
      s.(pending := s.pending - {n}, owed := s.owed + if s.calls[n].sync then TimedOut(s.calls[n], n) else [])
    case Fire(i) => s.(owed := Cut(s.owed, i), log := s.log + [s.owed[i]])
  }

  const INIT := State(0, map[], {}, map[], map[], [], [], [])

  /** One action after the other; those that are not enabled do nothing. */
  function Follow(s: State, actions: seq<Action>): State
  {
    if actions == [] then s
    else
      var s1 := Follow(s, actions[..|actions| - 1]);
      var a := actions[|actions| - 1];
      if Enabled(s1, a) then Next(s1, a) else s1
  }

  function Run(actions: seq<Action>): State { Follow(INIT, actions) }

  // ---- counting

  function Callbacks(es: seq<Event>, n: nat): nat
  {
    if es == [] then 0
    else Callbacks(es[..|es| - 1], n) + var e := es[|es| - 1]; if e.Callback? && e.num == n then 1 else 0
  }

  function Exceptions(es: seq<Event>, n: nat): nat
  {
    if es == [] then 0
    else Exceptions(es[..|es| - 1], n) + var e := es[|es| - 1]; if e.Exception? && e.num == n then 1 else 0
  }

  /** Callbacks and exceptions of call `n` that have run or will. */
  function Cs(s: State, n: nat): nat { Callbacks(s.owed, n) + Callbacks(s.log, n) }
  function Es(s: State, n: nat): nat { Exceptions(s.owed, n) + Exceptions(s.log, n) }

  lemma CountSnoc(es: seq<Event>, e: Event, n: nat)
    ensures Callbacks(es + [e], n) == Callbacks(es, n) + if e.Callback? && e.num == n then 1 else 0
    ensures Exceptions(es + [e], n) == Exceptions(es, n) + if e.Exception? && e.num == n then 1 else 0
  {
    assert (es + [e])[..|es|] == es;
  }

  lemma {:induction false} CountCut(es: seq<Event>, i: nat, n: nat)
    requires i < |es|
    ensures Callbacks(es, n) == Callbacks(Cut(es, i), n) + if es[i].Callback? && es[i].num == n then 1 else 0
    ensures Exceptions(es, n) == Exceptions(Cut(es, i), n) + if es[i].Exception? && es[i].num == n then 1 else 0
    decreases |es|
  {
    var k := |es| - 1;
    if i == k {
      assert Cut(es, i) == es[..k];
    } else {
      CountCut(es[..k], i, n);
      assert Cut(es, i) == Cut(es[..k], i) + [es[k]];
      CountSnoc(Cut(es[..k], i), es[k], n);
    }
  }

  /** Adding at most one event. */
  lemma CountAdd(es: seq<Event>, more: seq<Event>, n: nat)
    requires |more| <= 1
    ensures Callbacks(es + more, n) == Callbacks(es, n) + Callbacks(more, n)
    ensures Exceptions(es + more, n) == Exceptions(es, n) + Exceptions(more, n)
    ensures Callbacks(more, n) + Exceptions(more, n) == (if more != [] && more[0].num == n then 1 else 0)
  {
    if more == [] {
      assert es + more == es;
    } else {
      assert more == [more[0]];
      CountSnoc(es, more[0], n);
    }
  }

  // ---- the invariant

  /** What may have happened to call `n`, by where it stands. */
  predicate CallOk(s: State, n: nat)
  {
    && (n in s.pending ==> Cs(s, n) == 0 && Es(s, n) == 0)
    && (n !in s.calls ==> n !in s.pending && n !in s.callers && n !in s.signals && Cs(s, n) == 0 && Es(s, n) == 0)
    && (n in s.calls ==>
          && n <= s.last && (n in s.callers <==> s.calls[n].sync)
          && (!s.calls[n].sync ==> Cs(s, n) + Es(s, n) <= 1)
          && (s.calls[n].sync && s.callers[n] != Gone ==> Cs(s, n) == 0 && Es(s, n) <= 1)
          && (s.calls[n].sync ==> Cs(s, n) + Es(s, n) <= 2 && (Cs(s, n) > 0 ==> Cs(s, n) == 1 && Es(s, n) == 0)))
  }

  predicate Settled(s: State, n: nat) { n in s.calls && (s.calls[n].sync ==> n !in s.pending) }

  /** Queued responses are for asynchronous calls or for calls that are no longer pending. */
  predicate QueueOk(s: State)
  {
    && (forall i :: 0 <= i < |s.queue| ==> Settled(s, s.queue[i].num))
    && (forall n :: n in s.signals ==> s.signals[n].num == n)
  }

  /** Events name calls that were made, carry a good response to that call, and the function that was passed. */
  predicate EventOk(s: State, e: Event)
  {
    && e.num in s.calls
    && (e.Callback? ==> e.rsp.num == e.num && e.rsp.code == 0 && e.rsp.decodes && s.calls[e.num].callback)
    && (e.Exception? ==> s.calls[e.num].exception)
  }

  predicate EventsOk(s: State)
  {
    (forall i :: 0 <= i < |s.owed| ==> EventOk(s, s.owed[i])) && forall i :: 0 <= i < |s.log| ==> EventOk(s, s.log[i])
  }

  ghost predicate Inv(s: State)
  {
    QueueOk(s) && EventsOk(s) && forall n {:trigger CallOk(s, n)} :: CallOk(s, n)
  }

  lemma OwedMore(s: State, more: seq<Event>, n: nat)
    requires |more| <= 1
    ensures Cs(s.(owed := s.owed + more), n) == Cs(s, n) + Callbacks(more, n)
    ensures Es(s.(owed := s.owed + more), n) == Es(s, n) + Exceptions(more, n)
    ensures Callbacks(more, n) + Exceptions(more, n) == (if more != [] && more[0].num == n then 1 else 0)
  {
    CountAdd(s.owed, more, n);
  }

  /** Answering a request keeps its account, if no synchronous caller is still waiting for it. */
  lemma ClaimKeeps(s: State, rsp: Rsp, n: nat)
    requires CallOk(s, n) && (n == rsp.num && n in s.calls && n in s.pending && s.calls[n].sync ==>
                                n in s.callers && s.callers[n] == Gone)
    ensures CallOk(Claim(s, rsp), n)
  {
    hide Callbacks, Exceptions;
    if rsp.num in s.pending && rsp.num in s.calls { OwedMore(s, Answer(s.calls[rsp.num], rsp), n); }
  }

  lemma TimerKeeps(s: State, m: nat, n: nat)
    requires Enabled(s, Timer(m)) && CallOk(s, m) && CallOk(s, n)
    ensures CallOk(Next(s, Timer(m)), n)
  {
    hide Callbacks, Exceptions;
    OwedMore(s, TimedOut(s.calls[m], m), n);
    TimedOutIsException(s.calls[m], m, n);
  }

  lemma TimedOutIsException(c: Call, m: nat, n: nat)
    ensures Callbacks(TimedOut(c, m), n) == 0
  {
  }

  lemma ExpireKeeps(s: State, m: nat, now: int, n: nat)
    requires Enabled(s, Expire(m, now)) && CallOk(s, n)
    ensures CallOk(Next(s, Expire(m, now)), n)
  {
    hide Callbacks, Exceptions;
    var more := if s.calls[m].sync then TimedOut(s.calls[m], m) else [];
    OwedMore(s, more, n);
    if s.calls[m].sync { TimedOutIsException(s.calls[m], m, n); }
  }

  lemma FireKeeps(s: State, i: nat, n: nat)
    requires Enabled(s, Fire(i)) && CallOk(s, n)
    ensures CallOk(Next(s, Fire(i)), n)
  {
    hide Callbacks, Exceptions;
    CountCut(s.owed, i, n);
    CountSnoc(s.log, s.owed[i], n);
  }

  lemma BeginKeeps(s: State, c: Call, n: nat)
    requires Enabled(s, Begin(c)) && CallOk(s, n) && CallOk(s, s.last + 1)
    ensures CallOk(Next(s, Begin(c)), n)
  {
    hide Callbacks, Exceptions;
  }

  /** The account of every call is kept by every step. */
  lemma CallKeeps(s: State, a: Action, n: nat)
    requires Enabled(s, a) && Inv(s)
    ensures CallOk(Next(s, a), n)
  {
    hide Callbacks, Exceptions, EventsOk;
    assert CallOk(s, n);
    match a
    case Begin(c) => assert CallOk(s, s.last + 1); BeginKeeps(s, c, n);
    case Sent(m, ok) =>
    case Receive(rsp) =>
    case Drop(i) =>
    case Handle(i) =>
      var s1 := s.(queue := Cut(s.queue, i));
      assert Settled(s, s.queue[i].num);
      ClaimKeeps(s1, s.queue[i], n);
    case Wake(m) =>
      assert CallOk(s, m);
      var s1 := s.(callers := s.callers[m := Gone], signals := s.signals - {m});
      ClaimKeeps(s1, s.signals[m], n);
    case Timer(m) => assert CallOk(s, m); TimerKeeps(s, m, n);
    case Expire(m, now) => ExpireKeeps(s, m, now, n);
    case Fire(i) => FireKeeps(s, i, n);
  }

  lemma QueueKeeps(s: State, a: Action)
    requires Enabled(s, a) && Inv(s)
    ensures QueueOk(Next(s, a))
  {
    hide Callbacks, Exceptions, EventsOk, Answer, TimedOut;
    var s' := Next(s, a);
    if a.Begin? { assert CallOk(s, s.last + 1); }
    forall i | 0 <= i < |s'.queue| ensures Settled(s', s'.queue[i].num) {
      if a.Receive? && i == |s.queue| {
      } else {
        var j := if (a.Handle? || a.Drop?) && i >= a.i then i + 1 else i;
        assert s'.queue[i] == s.queue[j] && Settled(s, s.queue[j].num);
      }
    }
  }

  /** The table of calls only grows, so an event that was right stays right. */
  lemma EventStays(s: State, a: Action, e: Event)
    requires Enabled(s, a) && CallOk(s, s.last + 1) && EventOk(s, e)
    ensures EventOk(Next(s, a), e)
  {
    hide Callbacks, Exceptions;
  }

  /** What a step newly owes is right. */
  lemma NewEvents(s: State, a: Action, i: nat)
    requires Enabled(s, a) && Inv(s) && |s.owed| <= i < |Next(s, a).owed|
    ensures EventOk(Next(s, a), Next(s, a).owed[i])
  {
    hide Callbacks, Exceptions;
  }

  lemma EventsKeep(s: State, a: Action)
    requires Enabled(s, a) && Inv(s)
    ensures EventsOk(Next(s, a))
  {
    hide Callbacks, Exceptions, EventOk, QueueOk, CallOk;
    var s' := Next(s, a);
    assert CallOk(s, s.last + 1);
    forall i | 0 <= i < |s'.owed| ensures EventOk(s', s'.owed[i]) {
      if i >= |s.owed| {
        NewEvents(s, a, i);
      } else {
        var j := if a.Fire? && i >= a.i then i + 1 else i;
        assert s'.owed[i] == s.owed[j];
        EventStays(s, a, s.owed[j]);
      }
    }
    forall i | 0 <= i < |s'.log| ensures EventOk(s', s'.log[i]) {
      if i == |s.log| { EventStays(s, a, s.owed[a.i]); } else { EventStays(s, a, s.log[i]); }
    }
  }

  lemma {:induction false} RunInv(actions: seq<Action>)
    ensures Inv(Run(actions))
    decreases |actions|
  {
    hide Next, Enabled, CallOk, QueueOk, EventsOk;
    if actions == [] {
      InitInv();
    } else {
      var s, a := Run(actions[..|actions| - 1]), actions[|actions| - 1];
      RunInv(actions[..|actions| - 1]);
      if Enabled(s, a) {
        QueueKeeps(s, a);
        EventsKeep(s, a);
        forall n ensures CallOk(Next(s, a), n) { CallKeeps(s, a, n); }
      }
    }
  }

  lemma InitInv()
    ensures Inv(INIT)
  {
  }

  // ---- what has run, over every interleaving

  /**
   In every run, a callback runs at most once and only with a successful response to its own call; callback and
   exception of a call never both run; an asynchronous call hears of itself at most once, a synchronous one at
   most twice.
   */
  lemma Safety(actions: seq<Action>, n: nat)
    ensures var s := Run(actions);
            && Callbacks(s.log, n) <= 1
            && (Callbacks(s.log, n) == 1 ==> Exceptions(s.log, n) == 0)
            && (n in s.calls && !s.calls[n].sync ==> Callbacks(s.log, n) + Exceptions(s.log, n) <= 1)
            && Exceptions(s.log, n) <= 2
            && (n !in s.calls ==> Callbacks(s.log, n) == 0 && Exceptions(s.log, n) == 0)
            && forall i :: 0 <= i < |s.log| ==> EventOk(s, s.log[i])
  {
    hide Run, Callbacks, Exceptions;
    RunInv(actions);
    assert CallOk(Run(actions), n);
  }

  lemma RunMore(actions: seq<Action>, a: Action)
    ensures Run([]) == INIT
    ensures Run(actions + [a]) == if Enabled(Run(actions), a) then Next(Run(actions), a) else Run(actions)
  {
    hide Next, Enabled;
    assert (actions + [a])[..|actions|] == actions;
  }

  // ---- the service object

  lemma FollowMore(s: State, actions: seq<Action>, a: Action)
    requires Enabled(Follow(s, actions), a)
    ensures Follow(s, actions + [a]) == Next(Follow(s, actions), a)
  {
    assert (actions + [a])[..|actions|] == actions;
  }

  class ServiceRpc {
    var rpcRequests: map<nat, Call>
    var rpcReqSequence: nat
    var signals: map<nat, Rsp>

    constructor ()
      ensures Shows(INIT)
    {
      rpcRequests, rpcReqSequence, signals := map[], 0, map[];
    }

    /** The fields are those of the machine state `s`. */
    ghost predicate Shows(s: State)
      reads this
    {
      && rpcReqSequence == s.last < TWO32 && signals == s.signals
      && (forall n :: n in rpcRequests <==> n in s.pending)
      && (forall n :: n in rpcRequests ==> n in s.calls && rpcRequests[n] == s.calls[n])
    }

    /** The locked part of `rpc_call`. */
    method Register(c: Call, ghost s: State) returns (num: nat)
      requires Shows(s) && Inv(s) && Enabled(s, Begin(c))
      modifies this
      ensures Shows(Next(s, Begin(c))) && num == s.last + 1 && num !in s.calls
    {
      hide Callbacks, Exceptions;
      assert CallOk(s, s.last + 1);
      rpcReqSequence := (rpcReqSequence + 1) % TWO32;
      num := rpcReqSequence;
      rpcRequests := rpcRequests[num := c];
    }

    /** The locked part of `Unmarshal` for a response: to its waiting caller, or on to a worker. */
    method Receive(rsp: Rsp, ghost s: State) returns (queued: bool)
      requires Shows(s) && Enabled(s, Action.Receive(rsp))
      modifies this`signals
      ensures Shows(Next(s, Action.Receive(rsp)))
      ensures Next(s, Action.Receive(rsp)).queue == if queued then s.queue + [rsp] else s.queue
    {
      if rsp.num in rpcRequests && rpcRequests[rsp.num].sync {
        signals := signals[rsp.num := rsp];
        return false;
      }
      queued := true;
    }

    /** `handleRpcRsp`: takes the request out of the table and says what to run for it. */
    method HandleRsp(rsp: Rsp, ghost s: State) returns (run: seq<Event>)
      requires Shows(s)
      modifies this`rpcRequests
      ensures Shows(Claim(s, rsp)) && Claim(s, rsp).owed == s.owed + run
      ensures rpcRequests == old(rpcRequests) - {rsp.num}
      ensures if rsp.num in old(rpcRequests) then RightAnswer(old(rpcRequests)[rsp.num], rsp, run) else run == []
    {
      if rsp.num !in rpcRequests { return []; }
      var v := rpcRequests[rsp.num];
      AnswerIsRight(v, rsp);
      rpcRequests := rpcRequests - {rsp.num};
      run := [];
      if rsp.code != 0 {
        if v.exception { run := [Exception(rsp.num, rsp.code)]; }
      } else if v.callback {
        if !rsp.decodes {
          if v.exception { run := [Exception(rsp.num, PARAM_ERR)]; }
        } else {
          run := [Callback(rsp.num, rsp)];
        }
      }
    }

    /** The timer branch of a synchronous caller. */
    method GiveUp(num: nat, c: Call, ghost s: State) returns (run: seq<Event>)
      requires Shows(s) && Enabled(s, Timer(num)) && c == s.calls[num]
      modifies this`rpcRequests
      ensures Shows(Next(s, Timer(num))) && Next(s, Timer(num)).owed == s.owed + run
    {
      rpcRequests := rpcRequests - {num};
      run := [];
      if c.exception { run := [Exception(num, CALL_TIMEOUT)]; }
    }

    /** The expiry loop meets one request that is over time. */
    method ExpireOne(k: nat, now: int, ghost s: State) returns (run: seq<Event>)
      requires Shows(s) && k in rpcRequests && rpcRequests[k].timeout < now
      modifies this`rpcRequests
      ensures Enabled(s, Expire(k, now)) && Shows(Next(s, Expire(k, now))) && Next(s, Expire(k, now)).owed == s.owed + run
      ensures Next(s, Expire(k, now)).calls == s.calls && rpcRequests == old(rpcRequests) - {k}
    {
      var v := rpcRequests[k];
      run := [];
      if v.exception && v.sync { run := [Exception(k, CALL_TIMEOUT)]; }
      rpcRequests := rpcRequests - {k};
    }

    /** The expiry loop: takes out what is over time, in any order, and runs the exceptions of synchronous calls. */
    method Loop(now: int, ghost s: State) returns (timeouts: seq<Event>, ghost s': State, ghost did: seq<Action>)
      requires Shows(s)
      modifies this`rpcRequests
      ensures Shows(s') && s' == Follow(s, did) && s'.owed == s.owed + timeouts
      ensures forall a :: a in did ==> a.Expire? && a.now == now
      ensures forall n :: n in rpcRequests <==> n in old(rpcRequests) && old(rpcRequests)[n].timeout >= now
    {
      hide Next, Enabled, Follow;
      timeouts, s', did := [], s, [];
      FollowNone(s);
      var left := rpcRequests.Keys;
      while left != {}
        invariant Shows(s') && s' == Follow(s, did) && s'.owed == s.owed + timeouts
        invariant forall a :: a in did ==> a.Expire? && a.now == now
        invariant left <= rpcRequests.Keys <= old(rpcRequests).Keys
        invariant forall n :: n in rpcRequests ==> rpcRequests[n] == old(rpcRequests)[n]
        invariant forall n :: n in old(rpcRequests) && n !in left ==> (n in rpcRequests <==> old(rpcRequests)[n].timeout >= now)
        decreases |left|
      {
        var k :| k in left;
        left := left - {k};
        if rpcRequests[k].timeout < now {
          var run := ExpireOne(k, now, s');
          FollowMore(s, did, Expire(k, now));
          timeouts := timeouts + run;
          did, s' := did + [Expire(k, now)], Next(s', Expire(k, now));
        }
      }
    }
  }

  lemma FollowNone(s: State)
    ensures Follow(s, []) == s
  {
  }
}
