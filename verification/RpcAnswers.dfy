/**
 Which answer a response gives, over every run: the callback for a good response, the exception with its code for
 a failed one; and where everything that is run comes from.
 */
module RpcAnswers {
  import opened Rpc
  import opened RpcTimeouts

  /** `a` is the step that hands `rsp` to the table: from a worker's queue or from the waiting caller. */
  predicate Handles(s: State, a: Action, rsp: Rsp)
  {
    Enabled(s, a) && ((a.Handle? && s.queue[a.i] == rsp) || (a.Wake? && s.signals[a.num] == rsp))
  }

  /**
   Handling a response to a pending call takes the call out of the table and runs its callback with the response if
   and only if the response is good, its data fit and there is a callback; its exception with the code of the
   response if and only if that is not 0, and with PARAM_ERR if and only if the data of a good response do not fit
   the callback. A response to any other call is dropped.
   */
  lemma Answered(actions: seq<Action>, a: Action, rsp: Rsp)
    requires Handles(Run(actions), a, rsp)
    ensures var s, s' := Run(actions), Run(actions + [a]);
            && (rsp.num !in s.pending ==> s'.owed == s.owed && s'.pending == s.pending)
            && (rsp.num in s.pending ==>
                  && rsp.num in s.calls && s'.pending == s.pending - {rsp.num}
                  && s.owed <= s'.owed && RightAnswer(s.calls[rsp.num], rsp, s'.owed[|s.owed|..]))
            && s'.log == s.log && s'.calls == s.calls
  {
    hide Run, Callbacks, Exceptions;
    var s := Run(actions);
    RunMore(actions, a);
    RunInv(actions);
    assert CallOk(s, rsp.num);
    if rsp.num in s.pending {
      AnswerIsRight(s.calls[rsp.num], rsp);
      assert Run(actions + [a]).owed[|s.owed|..] == Answer(s.calls[rsp.num], rsp);
    }
  }

  /** A response that comes in can be handled: by the caller that waits for it, else by a worker. */
  lemma CanBeHandled(actions: seq<Action>, rsp: Rsp)
    requires Enabled(Run(actions), Receive(rsp))
    ensures var s, s' := Run(actions), Run(actions + [Receive(rsp)]);
            if rsp.num in s.pending && s.calls[rsp.num].sync then
              rsp.num in s'.callers && (s'.callers[rsp.num] == Waiting ==> Handles(s', Wake(rsp.num), rsp))
            else Handles(s', Handle(|s.queue|), rsp)
  {
    hide Run, Callbacks, Exceptions;
    RunMore(actions, Receive(rsp));
    RunInv(actions);
    assert CallOk(Run(actions), rsp.num);
  }

  // ---- where everything comes from

  /** At some point of the run the response `rsp` came in. */
  predicate Arrived(actions: seq<Action>, rsp: Rsp)
  {
    actions != [] &&
    var k := |actions| - 1;
    Arrived(actions[..k], rsp) || (actions[k] == Receive(rsp) && Enabled(Run(actions[..k]), actions[k]))
  }

  /** What brings about the event `e` of the call `c`. */
  predicate Caused(actions: seq<Action>, c: Call, e: Event)
  {
    match e
    case Callback(n, rsp) => c.callback && rsp == Rsp(n, 0, true) && Arrived(actions, rsp)
    case Exception(n, code) =>
      && c.exception
      && (|| (code == CALL_TIMEOUT && c.sync && (TimerRan(actions, n) || LoopExpired(actions, n)))
          || (code == PARAM_ERR && c.callback && Arrived(actions, Rsp(n, 0, false)))
          || (code != 0 && (Arrived(actions, Rsp(n, code, true)) || Arrived(actions, Rsp(n, code, false)))))
  }

  predicate EventCaused(actions: seq<Action>, calls: map<nat, Call>, e: Event)
  {
    e.num in calls && Caused(actions, calls[e.num], e)
  }

  /** The same of everything that is under way, owed or run. */
  ghost predicate AllCaused(actions: seq<Action>, s: State)
  {
    && (forall i :: 0 <= i < |s.queue| ==> Arrived(actions, s.queue[i]))
    && (forall n :: n in s.signals ==> Arrived(actions, s.signals[n]))
    && (forall i :: 0 <= i < |s.owed| ==> EventCaused(actions, s.calls, s.owed[i]))
    && (forall i :: 0 <= i < |s.log| ==> EventCaused(actions, s.calls, s.log[i]))
  }

  /** A cause stays one. */
  lemma CauseStays(actions: seq<Action>, a: Action, calls: map<nat, Call>, calls': map<nat, Call>, e: Event)
    requires EventCaused(actions, calls, e) && e.num in calls' && calls'[e.num] == calls[e.num]
    ensures EventCaused(actions + [a], calls', e)
  {
    assert (actions + [a])[..|actions|] == actions;
  }

  lemma ArrivedStays(actions: seq<Action>, a: Action, rsp: Rsp)
    ensures Arrived(actions + [a], rsp) <==> Arrived(actions, rsp) || (a == Receive(rsp) && Enabled(Run(actions), a))
  {
    assert (actions + [a])[..|actions|] == actions;
  }

  lemma TimeoutsStay(actions: seq<Action>, a: Action, n: nat)
    ensures TimerRan(actions + [a], n) <==> TimerRan(actions, n) || (a == Timer(n) && Enabled(Run(actions), a))
    ensures LoopExpired(actions + [a], n)
       <==> LoopExpired(actions, n) || (a.Expire? && a.num == n && Enabled(Run(actions), a))
  {
    assert (actions + [a])[..|actions|] == actions;
  }

  /** The answer to a response that has come in has a cause. */
  lemma AnswerCaused(actions: seq<Action>, calls: map<nat, Call>, rsp: Rsp, e: Event)
    requires rsp.num in calls && Arrived(actions, rsp) && e in Answer(calls[rsp.num], rsp)
    ensures EventCaused(actions, calls, e)
  {
    hide Arrived, TimerRan, LoopExpired;
    assert rsp == Rsp(rsp.num, rsp.code, true) || rsp == Rsp(rsp.num, rsp.code, false);
  }

  /** Whatever a step newly owes has a cause. */
  lemma NewCaused(actions: seq<Action>, a: Action, i: nat)
    requires var s := Run(actions); Enabled(s, a) && AllCaused(actions, s) && |s.owed| <= i < |Next(s, a).owed|
    ensures EventCaused(actions + [a], Next(Run(actions), a).calls, Next(Run(actions), a).owed[i])
  {
    hide Run, Arrived, TimerRan, LoopExpired, Callbacks, Exceptions;
    RunInv(actions);
    var s := Run(actions);
    var e := Next(s, a).owed[i];
    match a
    case Handle(j) =>
      ArrivedStays(actions, a, s.queue[j]);
      AnswerCaused(actions + [a], s.calls, s.queue[j], e);
    case Wake(n) =>
      ArrivedStays(actions, a, s.signals[n]);
      AnswerCaused(actions + [a], s.calls, s.signals[n], e);
    case Timer(n) =>
      assert CallOk(s, n);
      TimeoutsStay(actions, a, n);
    case Expire(n, now) => TimeoutsStay(actions, a, n);
  }

  /** What a step leaves under way has come in. */
  lemma UnderWay(actions: seq<Action>, a: Action)
    requires Enabled(Run(actions), a) && AllCaused(actions, Run(actions))
    ensures var s' := Next(Run(actions), a);
            && (forall i :: 0 <= i < |s'.queue| ==> Arrived(actions + [a], s'.queue[i]))
            && (forall n :: n in s'.signals ==> Arrived(actions + [a], s'.signals[n]))
  {
    hide Run, Arrived, EventCaused, Answer, TimedOut;
    var s := Run(actions);
    var s' := Next(s, a);
    forall i | 0 <= i < |s'.queue| ensures Arrived(actions + [a], s'.queue[i]) {
      ArrivedStays(actions, a, s'.queue[i]);
      if !(a.Receive? && i == |s.queue|) {
        var j := if (a.Handle? || a.Drop?) && i >= a.i then i + 1 else i;
        assert s'.queue[i] == s.queue[j];
      }
    }
    forall n | n in s'.signals ensures Arrived(actions + [a], s'.signals[n]) { ArrivedStays(actions, a, s'.signals[n]); }
  }

  lemma CausedStep(actions: seq<Action>, a: Action)
    requires Enabled(Run(actions), a) && AllCaused(actions, Run(actions))
    ensures AllCaused(actions + [a], Next(Run(actions), a))
  {
    hide Run, Arrived, EventCaused, Callbacks, Exceptions, CallOk;
    var s := Run(actions);
    var s' := Next(s, a);
    var more := actions + [a];
    RunInv(actions);
    assert CallOk(s, s.last + 1);
    CallsStay(s, a);
    UnderWay(actions, a);
    forall i | 0 <= i < |s'.owed| ensures EventCaused(more, s'.calls, s'.owed[i]) {
      if i >= |s.owed| {
        NewCaused(actions, a, i);
      } else {
        var j := if a.Fire? && i >= a.i then i + 1 else i;
        assert s'.owed[i] == s.owed[j];
        OldCaused(actions, a, s.owed[j]);
      }
    }
    forall i | 0 <= i < |s'.log| ensures EventCaused(more, s'.calls, s'.log[i]) {
      OldCaused(actions, a, if i == |s.log| then s.owed[a.i] else s.log[i]);
    }
  }

  lemma CallsStay(s: State, a: Action)
    requires Enabled(s, a) && CallOk(s, s.last + 1)
    ensures forall n :: n in s.calls ==> n in Next(s, a).calls && Next(s, a).calls[n] == s.calls[n]
  {
    hide Callbacks, Exceptions;
  }

  lemma OldCaused(actions: seq<Action>, a: Action, e: Event)
    requires Enabled(Run(actions), a) && EventCaused(actions, Run(actions).calls, e)
    ensures EventCaused(actions + [a], Next(Run(actions), a).calls, e)
  {
    hide Run, Arrived, TimerRan, LoopExpired, Callbacks, Exceptions;
    RunInv(actions);
    var s := Run(actions);
    assert CallOk(s, s.last + 1);
    CallsStay(s, a);
    CauseStays(actions, a, s.calls, Next(s, a).calls, e);
  }

  /**
   In every run, whatever is under way has come in, a callback gets a good response to its own call whose data fit,
   and an exception of a call carries the code of a response to it, PARAM_ERR after a good response whose data do
   not fit, or the timeout code after its caller's timer or the loop gave it up.
   */
  lemma {:induction false} WhereFrom(actions: seq<Action>)
    ensures AllCaused(actions, Run(actions))
    decreases |actions|
  {
    hide AllCaused, Next, Enabled;
    if actions == [] {
      NothingYet();
    } else {
      var t, a := actions[..|actions| - 1], actions[|actions| - 1];
      assert t + [a] == actions;
      WhereFrom(t);
      RunMore(t, a);
      if Enabled(Run(t), a) { CausedStep(t, a); } else { NothingLost(t, a); }
    }
  }

  lemma NothingYet()
    ensures AllCaused([], INIT)
  {
  }

  lemma NothingLost(actions: seq<Action>, a: Action)
    requires !Enabled(Run(actions), a) && AllCaused(actions, Run(actions))
    ensures AllCaused(actions + [a], Run(actions))
  {
    hide Run, Arrived, Caused, Next;
    var s := Run(actions);
    forall rsp | Arrived(actions, rsp) ensures Arrived(actions + [a], rsp) { ArrivedStays(actions, a, rsp); }
    forall e | EventCaused(actions, s.calls, e) ensures EventCaused(actions + [a], s.calls, e) {
      CauseStays(actions, a, s.calls, s.calls, e);
    }
  }
}
