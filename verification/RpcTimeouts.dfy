/**
 Timeouts of RPC calls, over every run: how often the exception of a synchronous call is run, and what becomes of
 an asynchronous call that the expiry loop has dropped.
 */
module RpcTimeouts {
  import opened Rpc

  // ---- synchronous calls

  /** At some point of the run the timer branch of the caller of `n` ran. */
  predicate TimerRan(actions: seq<Action>, n: nat)
  {
    actions != [] &&
    var k := |actions| - 1;
    TimerRan(actions[..k], n) || (actions[k] == Timer(n) && Enabled(Run(actions[..k]), actions[k]))
  }

  /** At some point of the run the loop expired `n`. */
  predicate LoopExpired(actions: seq<Action>, n: nat)
  {
    actions != [] &&
    var k := |actions| - 1;
    LoopExpired(actions[..k], n) || (actions[k].Expire? && actions[k].num == n && Enabled(Run(actions[..k]), actions[k]))
  }

  function One(b: bool): nat { if b then 1 else 0 }

  /** The exceptions of a synchronous call, by whether its timer ran and whether the loop expired it. */
  predicate Account(s: State, n: nat, timer: bool, loop: bool)
  {
    && (n !in s.calls ==> !timer && !loop)
    && (n in s.calls && s.calls[n].sync && s.calls[n].exception && n in s.callers ==>
          && (n in s.pending ==> !timer && !loop)
          && (s.callers[n] != Gone ==> !timer && Es(s, n) == One(loop))
          && (if timer then Es(s, n) == 1 + One(loop) else One(loop) <= Es(s, n) <= 1))
  }

  lemma AccountClaim(s: State, rsp: Rsp, n: nat, timer: bool, loop: bool)
    requires CallOk(s, n) && Account(s, n, timer, loop)
    requires n == rsp.num && n in s.calls && n in s.pending && s.calls[n].sync ==> n in s.callers && s.callers[n] == Gone
    ensures Account(Claim(s, rsp), n, timer, loop)
  {
    hide Callbacks, Exceptions;
    if rsp.num in s.pending && rsp.num in s.calls { OwedMore(s, Answer(s.calls[rsp.num], rsp), n); }
  }

  lemma AccountTimer(s: State, m: nat, n: nat, timer: bool, loop: bool)
    requires Enabled(s, Timer(m)) && CallOk(s, n) && CallOk(s, m) && Account(s, n, timer, loop)
    ensures Account(Next(s, Timer(m)), n, timer || m == n, loop)
  {
    hide Callbacks, Exceptions;
    OwedMore(s, TimedOut(s.calls[m], m), n);
    TimedOutIsException(s.calls[m], m, n);
  }

  lemma AccountExpire(s: State, m: nat, now: int, n: nat, timer: bool, loop: bool)
    requires Enabled(s, Expire(m, now)) && CallOk(s, n) && Account(s, n, timer, loop)
    ensures Account(Next(s, Expire(m, now)), n, timer, loop || m == n)
  {
    hide Callbacks, Exceptions;
    var more := if s.calls[m].sync then TimedOut(s.calls[m], m) else [];
    OwedMore(s, more, n);
    if s.calls[m].sync { TimedOutIsException(s.calls[m], m, n); }
  }

  lemma AccountFire(s: State, i: nat, n: nat, timer: bool, loop: bool)
    requires Enabled(s, Fire(i)) && Account(s, n, timer, loop)
    ensures Account(Next(s, Fire(i)), n, timer, loop)
  {
    hide Callbacks, Exceptions;
    CountCut(s.owed, i, n);
    CountSnoc(s.log, s.owed[i], n);
  }

  /** Every step keeps the account, counting itself. */
  lemma AccountStep(s: State, a: Action, n: nat, timer: bool, loop: bool)
    requires Enabled(s, a) && Inv(s) && Account(s, n, timer, loop)
    ensures Account(Next(s, a), n, timer || a == Timer(n), loop || (a.Expire? && a.num == n))
  {
    hide Callbacks, Exceptions, EventsOk;
    assert CallOk(s, n);
    match a
    case Begin(c) => assert CallOk(s, s.last + 1);
    case Sent(m, ok) =>
    case Receive(rsp) =>
    case Drop(i) =>
    case Handle(i) =>
      assert Settled(s, s.queue[i].num);
      AccountClaim(s.(queue := Cut(s.queue, i)), s.queue[i], n, timer, loop);
    case Wake(m) =>
      assert CallOk(s, m);
      AccountClaim(s.(callers := s.callers[m := Gone], signals := s.signals - {m}), s.signals[m], n, timer, loop);
    case Timer(m) => assert CallOk(s, m); AccountTimer(s, m, n, timer, loop);
    case Expire(m, now) => AccountExpire(s, m, now, n, timer, loop);
    case Fire(i) => AccountFire(s, i, n, timer, loop);
  }

  lemma {:induction false} RunAccount(actions: seq<Action>, n: nat)
    ensures Account(Run(actions), n, TimerRan(actions, n), LoopExpired(actions, n))
    decreases |actions|
  {
    hide Next, Enabled, Account;
    if actions == [] {
      AccountInit(n);
    } else {
      var k := |actions| - 1;
      var t, a := actions[..k], actions[k];
      RunAccount(t, n);
      RunInv(t);
      if Enabled(Run(t), a) { AccountStep(Run(t), a, n, TimerRan(t, n), LoopExpired(t, n)); }
    }
  }

  lemma AccountInit(n: nat)
    ensures Account(INIT, n, false, false)
  {
  }

  /**
   In every run the exception of a synchronous call is owed or run twice if and only if the loop expired the call
   and its own timer ran as well; otherwise at most once.
   */
  lemma TwiceIff(actions: seq<Action>, n: nat)
    requires var s := Run(actions); n in s.calls && s.calls[n].sync && s.calls[n].exception
    ensures Es(Run(actions), n) == 2 <==> TimerRan(actions, n) && LoopExpired(actions, n)
    ensures Es(Run(actions), n) <= 2
    ensures TimerRan(actions, n) || LoopExpired(actions, n) ==> Es(Run(actions), n) >= 1
  {
    hide Run, Exceptions, Callbacks, TimerRan, LoopExpired;
    RunAccount(actions, n);
    RunInv(actions);
    assert CallOk(Run(actions), n);
  }

  lemma TwoExceptions(e: Event)
    requires e.Exception?
    ensures Exceptions([e, e], e.num) == 2
  {
    CountSnoc([], e, e.num);
    CountSnoc([e], e, e.num);
    assert [] + [e] == [e] && [e] + [e] == [e, e];
  }

  /** A call that the loop has expired while its caller waits. */
  lemma ExpiredWaiting(c: Call)
    requires c == Call(true, true, true, 5)
    ensures Run([Begin(c), Sent(1, true), Expire(1, 6)])
         == State(1, map[1 := c], {}, map[1 := Waiting], map[], [], [Exception(1, CALL_TIMEOUT)], [])
  {
    hide Run;
    var as1 := [] + [Begin(c)];
    var as2 := as1 + [Sent(1, true)];
    RunMore([], Begin(c));
    RunMore(as1, Sent(1, true));
    RunMore(as2, Expire(1, 6));
    assert as2 + [Expire(1, 6)] == [Begin(c), Sent(1, true), Expire(1, 6)];
  }

  /** A synchronous call can hear its exception twice: once from the loop and once from its own timer. */
  lemma SyncTimeoutTwice()
    ensures var c := Call(true, true, true, 5);
            Exceptions(Run([Begin(c), Sent(1, true), Expire(1, 6), Timer(1), Fire(0), Fire(0)]).log, 1) == 2
  {
    hide Run, Callbacks, Exceptions;
    var c, e := Call(true, true, true, 5), Exception(1, CALL_TIMEOUT);
    ExpiredWaiting(c);
    var as3 := [Begin(c), Sent(1, true), Expire(1, 6)];
    var as4 := as3 + [Timer(1)];
    var as5 := as4 + [Fire(0)];
    RunMore(as3, Timer(1));
    RunMore(as4, Fire(0));
    RunMore(as5, Fire(0));
    assert Run(as4).owed == [e, e];
    assert as5 + [Fire(0)] == [Begin(c), Sent(1, true), Expire(1, 6), Timer(1), Fire(0), Fire(0)];
    assert Run(as5 + [Fire(0)]).log == [e, e];
    TwoExceptions(e);
  }

  // ---- asynchronous calls

  /** An asynchronous call that is not pending is left alone by every step. */
  lemma ForgottenStep(s: State, a: Action, n: nat)
    requires Enabled(s, a) && Inv(s) && n in s.calls && !s.calls[n].sync && n !in s.pending
    ensures n in Next(s, a).calls && Next(s, a).calls[n] == s.calls[n] && n !in Next(s, a).pending
    ensures Cs(Next(s, a), n) == Cs(s, n) && Es(Next(s, a), n) == Es(s, n)
  {
    hide Callbacks, Exceptions, EventsOk;
    assert CallOk(s, n) && CallOk(s, s.last + 1);
    match a
    case Begin(c) =>
    case Sent(m, ok) =>
    case Receive(rsp) =>
    case Drop(i) =>
    case Handle(i) =>
      var rsp := s.queue[i];
      if rsp.num in s.pending && rsp.num in s.calls { OwedMore(s, Answer(s.calls[rsp.num], rsp), n); }
    case Wake(m) =>
      var rsp := s.signals[m];
      if rsp.num in s.pending && rsp.num in s.calls { OwedMore(s, Answer(s.calls[rsp.num], rsp), n); }
    case Timer(m) => assert CallOk(s, m); OwedMore(s, TimedOut(s.calls[m], m), n);
    case Expire(m, now) => OwedMore(s, if s.calls[m].sync then TimedOut(s.calls[m], m) else [], n);
    case Fire(i) => CountCut(s.owed, i, n); CountSnoc(s.log, s.owed[i], n);
  }

  lemma InvStep(s: State, a: Action)
    requires Inv(s) && Enabled(s, a)
    ensures Inv(Next(s, a))
  {
    hide Next, Enabled, CallOk, QueueOk, EventsOk;
    QueueKeeps(s, a);
    EventsKeep(s, a);
    forall n ensures CallOk(Next(s, a), n) { CallKeeps(s, a, n); }
  }

  lemma {:induction false} FollowInv(s: State, actions: seq<Action>)
    requires Inv(s)
    ensures Inv(Follow(s, actions))
    decreases |actions|
  {
    hide Next, Enabled, Inv;
    if actions != [] {
      var k := |actions| - 1;
      FollowInv(s, actions[..k]);
      if Enabled(Follow(s, actions[..k]), actions[k]) { InvStep(Follow(s, actions[..k]), actions[k]); }
    }
  }

  /** An asynchronous call that is no longer pending never hears of itself again, whatever happens. */
  lemma {:induction false} Forgotten(s: State, actions: seq<Action>, n: nat)
    requires Inv(s) && n in s.calls && !s.calls[n].sync && n !in s.pending
    ensures var s' := Follow(s, actions);
            && n in s'.calls && s'.calls[n] == s.calls[n] && n !in s'.pending
            && Cs(s', n) == Cs(s, n) && Es(s', n) == Es(s, n)
    decreases |actions|
  {
    hide Next, Enabled, Inv, Cs, Es;
    if actions != [] {
      var k := |actions| - 1;
      Forgotten(s, actions[..k], n);
      FollowInv(s, actions[..k]);
      if Enabled(Follow(s, actions[..k]), actions[k]) { ForgottenStep(Follow(s, actions[..k]), actions[k], n); }
    }
  }

  // ---- who hears of an expiry

  lemma EsGrows(s: State, a: Action, n: nat)
    requires Enabled(s, a) && Inv(s) && n in s.calls
    ensures Es(Next(s, a), n) >= Es(s, n) && n in Next(s, a).calls && Next(s, a).calls[n] == s.calls[n]
  {
    hide Callbacks, Exceptions, EventsOk;
    assert CallOk(s, s.last + 1);
    match a
    case Begin(c) =>
    case Sent(m, ok) =>
    case Receive(rsp) =>
    case Drop(i) =>
    case Handle(i) =>
      var rsp := s.queue[i];
      if rsp.num in s.pending && rsp.num in s.calls { OwedMore(s, Answer(s.calls[rsp.num], rsp), n); }
    case Wake(m) =>
      var rsp := s.signals[m];
      if rsp.num in s.pending && rsp.num in s.calls { OwedMore(s, Answer(s.calls[rsp.num], rsp), n); }
    case Timer(m) => OwedMore(s, TimedOut(s.calls[m], m), n);
    case Expire(m, now) => OwedMore(s, if s.calls[m].sync then TimedOut(s.calls[m], m) else [], n);
    case Fire(i) => CountCut(s.owed, i, n); CountSnoc(s.log, s.owed[i], n);
  }

  lemma {:induction false} EsOnlyGrows(s: State, actions: seq<Action>, n: nat)
    requires Inv(s) && n in s.calls
    ensures var s' := Follow(s, actions); Es(s', n) >= Es(s, n) && n in s'.calls && s'.calls[n] == s.calls[n]
    decreases |actions|
  {
    hide Next, Enabled, Inv, Es;
    if actions != [] {
      var k := |actions| - 1;
      EsOnlyGrows(s, actions[..k], n);
      FollowInv(s, actions[..k]);
      if Enabled(Follow(s, actions[..k]), actions[k]) { EsGrows(Follow(s, actions[..k]), actions[k], n); }
    }
  }

  lemma {:induction false} NoneWithout(es: seq<Event>, n: nat)
    requires forall i :: 0 <= i < |es| ==> !(es[i].Exception? && es[i].num == n)
    ensures Exceptions(es, n) == 0
    decreases |es|
  {
    if es != [] { NoneWithout(es[..|es| - 1], n); }
  }

  /** A call without an exception function never has an exception. */
  lemma NoFunction(s: State, n: nat)
    requires Inv(s) && n in s.calls && !s.calls[n].exception
    ensures Es(s, n) == 0
  {
    hide Callbacks, Exceptions, CallOk;
    forall i | 0 <= i < |s.owed| ensures !(s.owed[i].Exception? && s.owed[i].num == n) { assert EventOk(s, s.owed[i]); }
    forall i | 0 <= i < |s.log| ensures !(s.log[i].Exception? && s.log[i].num == n) { assert EventOk(s, s.log[i]); }
    NoneWithout(s.owed, n);
    NoneWithout(s.log, n);
  }

  /** What the loop itself owes for the call it expires. */
  lemma ExpiryOwes(s: State, n: nat, now: int)
    requires Inv(s) && Enabled(s, Expire(n, now))
    ensures var s' := Next(s, Expire(n, now));
            && n !in s'.pending && n in s'.calls && s'.calls[n] == s.calls[n] && Cs(s', n) == 0
            && Es(s', n) == One(s.calls[n].sync && s.calls[n].exception)
  {
    hide Callbacks, Exceptions;
    assert CallOk(s, n);
    var c := s.calls[n];
    OwedMore(s, if c.sync then TimedOut(c, n) else [], n);
    if c.sync { TimedOutIsException(c, n, n); }
  }

  /**
   After the loop has expired a call, in every continuation its exception is owed or run if and only if the call is
   synchronous and has one; an asynchronous call never hears of its expiry.
   */
  lemma ExpiryHeardIff(s: State, n: nat, now: int, actions: seq<Action>)
    requires Inv(s) && Enabled(s, Expire(n, now))
    ensures Es(Follow(Next(s, Expire(n, now)), actions), n) > 0 <==> s.calls[n].sync && s.calls[n].exception
  {
    hide Next, Inv, Es, Cs, Follow;
    var s' := Next(s, Expire(n, now));
    ExpiryOwes(s, n, now);
    InvStep(s, Expire(n, now));
    EsOnlyGrows(s', actions, n);
    FollowInv(s', actions);
    if !s.calls[n].exception { NoFunction(Follow(s', actions), n); }
    if !s.calls[n].sync { Forgotten(s', actions, n); }
  }
}
