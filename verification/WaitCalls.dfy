/**
 Whole calls of `wait_until`, `wake_one` and `wake_all` in any run of the wait queue, whatever other
 tasks do in between: what has happened by the time a call returns, and in which order wakers leave
 the queue.
 */
module WaitCalls {
  import opened WaitQueue

  /** Task `t` begins a call with action `i` and has returned from it in state `j`, and not before. */
  predicate Call(states: seq<State>, actions: seq<Action>, i: nat, j: nat, t: Task) {
    && IsRun(states, actions)
    && i < j < |states|
    && actions[i].t == t && t in states[j].pc && states[j].pc[t].Idle?
    && (forall k | i < k < j :: Busy(states[k], t))
  }

  predicate Busy(s: State, t: Task) {
    t in s.pc && !s.pc[t].Idle?
  }

  // ---- Wake calls ----

  /** A pass through the wake loop, of `wake_all` or of `wake_one`. */
  predicate Waking(p: Pc, all: bool) {
    && (p.WakeLoad? || p.WakeLock? || p.WakePop? || p.WakeCount? || p.WakeUnlock? || p.WakeFlag? || p.WakeDone?)
    && p.all == all
  }

  /** With action `k`, `t` sees that there is nobody to wake. */
  predicate SawNobody(states: seq<State>, actions: seq<Action>, k: nat, t: Task)
    requires |states| == |actions| + 1 && k < |actions|
  {
    (actions[k] == Load(t) && states[k].numWakers == 0) || (actions[k] == Pop(t) && states[k].queue == [])
  }

  /** With action `k`, `t` sets a flag that was not set. */
  predicate WokeSomebody(states: seq<State>, actions: seq<Action>, k: nat, t: Task)
    requires IsRun(states, actions) && k < |actions|
  {
    assert StepAt(states, actions, k);
    actions[k] == Flag(t) && !states[k].hasWoken[states[k].pc[t].w]
  }

  /** One step while `t` is in the wake loop: it stays there, or leaves in one of three ways. */
  lemma WakeMove(s: State, a: Action, t: Task, all: bool)
    requires Enabled(s, a) && t in s.pc && Waking(s.pc[t], all)
    ensures var s' := Step(s, a);
            && t in s'.pc && (Busy(s', t) ==> Waking(s'.pc[t], all))
            && (Busy(s', t) && s'.pc[t].WakeDone? ==> s.pc[t].WakeDone? || (a == Pop(t) && s.queue == []))
            && (!Busy(s', t) ==>
                  || (a == Load(t) && s.numWakers == 0)
                  || s.pc[t].WakeDone?
                  || (a == Flag(t) && !all && !s.hasWoken[s.pc[t].w]))
  {
    if t != a.t { assert Step(s, a).pc[t] == s.pc[t]; }
  }

  lemma {:induction false} DuringWake(states: seq<State>, actions: seq<Action>, i: nat, j: nat, t: Task, all: bool)
    requires IsRun(states, actions) && i < j < |states| && actions[i] == BeginWake(t, all)
    requires Busy(states[j], t) && forall k | i < k < j :: Busy(states[k], t)
    ensures Waking(states[j].pc[t], all)
    ensures states[j].pc[t].WakeDone? ==> exists k | i < k < j :: SawNobody(states, actions, k, t)
  {
    assert StepAt(states, actions, j - 1);
    if j > i + 1 {
      DuringWake(states, actions, i, j - 1, t, all);
      WakeMove(states[j - 1], actions[j - 1], t, all);
      if states[j].pc[t].WakeDone? && !states[j - 1].pc[t].WakeDone? { assert SawNobody(states, actions, j - 1, t); }
    }
  }

  /** `wake_all` returns only after it has seen that there is nobody left to wake. */
  lemma WakeAllReturns(states: seq<State>, actions: seq<Action>, i: nat, j: nat, t: Task)
    requires Call(states, actions, i, j, t) && actions[i] == BeginWake(t, true)
    ensures exists k | i < k < j :: SawNobody(states, actions, k, t)
  {
    assert StepAt(states, actions, j - 1);
    if j > i + 1 {
      DuringWake(states, actions, i, j - 1, t, true);
      WakeMove(states[j - 1], actions[j - 1], t, true);
      if actions[j - 1].t == t && actions[j - 1].Load? { assert SawNobody(states, actions, j - 1, t); }
    }
  }

  /** `wake_one` returns once it has set one flag that was not set, or has seen that there is nobody left to wake. */
  lemma WakeOneReturns(states: seq<State>, actions: seq<Action>, i: nat, j: nat, t: Task)
    requires Call(states, actions, i, j, t) && actions[i] == BeginWake(t, false)
    ensures WokeSomebody(states, actions, j - 1, t) || exists k | i < k < j :: SawNobody(states, actions, k, t)
    ensures forall k | i < k < j - 1 :: !WokeSomebody(states, actions, k, t)
  {
    assert StepAt(states, actions, j - 1);
    if j > i + 1 {
      DuringWake(states, actions, i, j - 1, t, false);
      WakeMove(states[j - 1], actions[j - 1], t, false);
      if actions[j - 1].t == t && actions[j - 1].Load? { assert SawNobody(states, actions, j - 1, t); }
    }
    forall k | i < k < j - 1 ensures !WokeSomebody(states, actions, k, t) {
      DuringWake(states, actions, i, k, t, false);
      assert StepAt(states, actions, k) && Busy(states[k + 1], t);
    }
  }

  /** A wake call that loads a zero counter returns at once, without the lock. */
  lemma FastPath(states: seq<State>, actions: seq<Action>, k: nat, t: Task)
    requires IsRun(states, actions) && k < |actions| && actions[k] == Load(t)
    ensures Busy(states[k + 1], t) <==> states[k].numWakers != 0
  {
    assert StepAt(states, actions, k);
  }

  // ---- Wait calls ----

  predicate InWait(p: Pc) {
    p.FirstCheck? || Owns(p)
  }

  predicate ChecksAt(actions: seq<Action>, k: nat, t: Task)
    requires k < |actions|
  {
    IsCheck(actions[k]) && actions[k].t == t
  }

  predicate Checks(actions: seq<Action>, k: nat, t: Task, ok: bool)
    requires k < |actions|
  {
    ChecksAt(actions, k, t) && actions[k].ok == ok
  }

  /** One step while `t` is inside `wait_until`: it turns to leaving exactly with a check that succeeds. */
  lemma WaitMove(s: State, a: Action, t: Task)
    requires Enabled(s, a) && t in s.pc && InWait(s.pc[t])
    ensures var s' := Step(s, a);
            && t in s'.pc && (Busy(s', t) ==> InWait(s'.pc[t])) && (a.t != t ==> s'.pc[t] == s.pc[t])
            && (if s.pc[t].Closing? then Busy(s', t) ==> s'.pc[t].Closing?
                else !Busy(s', t) || s'.pc[t].Closing? <==> IsCheck(a) && a.t == t && a.ok)
            && (s.pc[t].Closing? && a.t == t ==> !IsCheck(a))
  {
    if t != a.t { assert Step(s, a).pc[t] == s.pc[t]; }
  }

  lemma {:induction false} DuringWait(states: seq<State>, actions: seq<Action>, i: nat, j: nat, t: Task)
    requires IsRun(states, actions) && i < j < |states| && actions[i] == BeginWait(t)
    requires Busy(states[j], t) && forall k | i < k < j :: Busy(states[k], t)
    ensures InWait(states[j].pc[t])
    ensures states[j].pc[t].Closing? ==> exists k | i < k < j :: Checks(actions, k, t, true)
    ensures !states[j].pc[t].Closing? ==> forall k | i < k < j :: !Checks(actions, k, t, true)
  {
    assert StepAt(states, actions, j - 1);
    if j > i + 1 {
      DuringWait(states, actions, i, j - 1, t);
      WaitMove(states[j - 1], actions[j - 1], t);
      if states[j].pc[t].Closing? && !states[j - 1].pc[t].Closing? { assert Checks(actions, j - 1, t, true); }
    }
  }

  /**
   `wait_until` returns exactly when its condition has held: one check succeeded, it was the last one,
   and a waker that the call had created is closed.
   */
  lemma WaitReturns(states: seq<State>, actions: seq<Action>, i: nat, j: nat, t: Task)
    requires Call(states, actions, i, j, t) && actions[i] == BeginWait(t)
    ensures exists k | i < k < j :: Checks(actions, k, t, true) && forall l | k < l < j :: !ChecksAt(actions, l, t)
    ensures if Owns(states[j - 1].pc[t]) then Flagged(states[j], states[j - 1].pc[t].w)
            else states[j].hasWoken == states[j - 1].hasWoken
  {
    assert StepAt(states, actions, j - 1);
    if j == i + 1 { return; }
    DuringWait(states, actions, i, j - 1, t);
    if actions[j - 1].CheckFirst? {
      assert Checks(actions, j - 1, t, true);
    } else {
      var k :| i < k < j - 1 && Checks(actions, k, t, true);
      SucceededOnce(states, actions, i, k, j, t);
    }
  }

  lemma {:induction false} ClosingStays(states: seq<State>, actions: seq<Action>, k: nat, l: nat, t: Task)
    requires IsRun(states, actions) && k <= l < |states| && t in states[k].pc && states[k].pc[t].Closing?
    requires Busy(states[l], t) && forall m | k <= m < l :: Busy(states[m], t)
    ensures states[l].pc[t].Closing?
  {
    if k < l {
      ClosingStays(states, actions, k, l - 1, t);
      assert StepAt(states, actions, l - 1) && Busy(states[l], t);
    }
  }

  /** After a check that succeeded, the call makes no other. */
  lemma SucceededOnce(states: seq<State>, actions: seq<Action>, i: nat, k: nat, j: nat, t: Task)
    requires Call(states, actions, i, j, t) && i < k < j && Checks(actions, k, t, true)
    ensures forall l | k < l < j :: !ChecksAt(actions, l, t)
  {
    assert StepAt(states, actions, k);
    forall l | k < l < j ensures !ChecksAt(actions, l, t) {
      assert Busy(states[k + 1], t);
      ClosingStays(states, actions, k + 1, l, t);
      assert StepAt(states, actions, l);
    }
  }

  // ---- First in, first out ----

  /** The waker that action `k` pushes, if it pushes one. */
  function PushedBy(states: seq<State>, actions: seq<Action>, k: nat): seq<WakerId>
    requires IsRun(states, actions) && k < |actions|
  {
    assert StepAt(states, actions, k);
    if actions[k].Push? then [states[k].pc[actions[k].t].w] else []
  }

  /** The waker that action `k` brings into its task's hands, if it does. */
  function TakenBy(states: seq<State>, actions: seq<Action>, k: nat): seq<WakerId>
    requires IsRun(states, actions) && k < |actions|
  {
    assert StepAt(states, actions, k);
    var p := states[k + 1].pc[actions[k].t];
    if actions[k].Pop? && Carries(p) then [p.w] else []
  }

  /** The wakers that the first `n` actions have pushed, in order. */
  function Pushed(states: seq<State>, actions: seq<Action>, n: nat): seq<WakerId>
    requires IsRun(states, actions) && n <= |actions|
  {
    if n == 0 then [] else Pushed(states, actions, n - 1) + PushedBy(states, actions, n - 1)
  }

  /** The wakers that the first `n` actions have brought into some task's hands, in order. */
  function Taken(states: seq<State>, actions: seq<Action>, n: nat): seq<WakerId>
    requires IsRun(states, actions) && n <= |actions|
  {
    if n == 0 then [] else Taken(states, actions, n - 1) + TakenBy(states, actions, n - 1)
  }

  lemma QueueMove(states: seq<State>, actions: seq<Action>, k: nat)
    requires IsRun(states, actions) && k < |actions|
    ensures states[k].queue + PushedBy(states, actions, k) == TakenBy(states, actions, k) + states[k + 1].queue
  {
    assert StepAt(states, actions, k);
  }

  /** Wakers leave the queue in the order in which they came, none is lost and none is invented. */
  lemma {:induction false} FirstInFirstOut(states: seq<State>, actions: seq<Action>, n: nat)
    requires IsRun(states, actions) && n <= |actions|
    ensures Pushed(states, actions, n) == Taken(states, actions, n) + states[n].queue
  {
    if n > 0 {
      FirstInFirstOut(states, actions, n - 1);
      QueueMove(states, actions, n - 1);
      Balance(Taken(states, actions, n - 1), states[n - 1].queue, PushedBy(states, actions, n - 1),
              TakenBy(states, actions, n - 1), states[n].queue);
    }
  }

  lemma Balance(taken: seq<WakerId>, queue: seq<WakerId>, pushed: seq<WakerId>, out: seq<WakerId>, rest: seq<WakerId>)
    requires queue + pushed == out + rest
    ensures (taken + queue) + pushed == (taken + out) + rest
  {
    assert (taken + queue) + pushed == taken + (queue + pushed);
    assert (taken + out) + rest == taken + (out + rest);
  }
}
