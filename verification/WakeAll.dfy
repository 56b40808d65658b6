/**
 `wake_all` against a condition that stays true once it is set.

 A task sets the condition and then calls `wake_all`, as the documentation of `wait_until` asks; any
 number of others wait for the condition, wake single waiters, or call `wake_all` as well.
 */
module WakeAll {
  import WQ = WaitQueue
  import opened WaitQueue
  import opened WaitCalls

  /**
   `armed` are the tasks inside a `wake_all` that began after the condition was set; `swept` says
   that such a `wake_all` has returned.
   */
  datatype Latch = Latch(wq: State, cond: bool, armed: set<Task>, swept: bool)

  datatype Event =
    | Set(t: Task)
    | Inner(a: Action)

  predicate Possible(l: Latch, e: Event) {
    match e
    case Set(t) => t in l.wq.pc && l.wq.pc[t].Idle?
    case Inner(a) => Enabled(l.wq, a) && (IsCheck(a) ==> a.ok == l.cond)
  }

  function Next(l: Latch, e: Event): Latch
    requires Possible(l, e)
  {
    match e
    case Set(t) => l.(cond := true)
    case Inner(a) =>
      var l' := l.(wq := Step(l.wq, a));
      if a.BeginWake? && a.all && l.cond then l'.(armed := l.armed + {a.t})
      else if a.t in l.armed && l'.wq.pc[a.t].Idle? then l'.(armed := l.armed - {a.t}, swept := true)
      else l'
  }

  predicate Init(l: Latch) {
    WQ.Init(l.wq) && !l.cond && l.armed == {} && !l.swept
  }

  predicate Inv(l: Latch) {
    && WQ.Inv(l.wq)
    && (l.armed != {} || l.swept ==> l.cond)
    && (forall t | t in l.armed :: t in l.wq.pc && Waking(l.wq.pc[t], true))
    && (l.swept ==> forall t | t in l.wq.pc && Parked(l.wq, t) :: l.wq.pc[t].w !in l.wq.queue)
  }

  /** A parked waiter that has left the queue does not come back while it is parked. */
  lemma StaysOutOfQueue(s: State, a: Action, t: Task)
    requires WQ.Inv(s) && Enabled(s, a) && Parked(s, t) && Parked(Step(s, a), t)
    requires s.pc[t].w !in s.queue
    ensures Step(s, a).pc[t] == s.pc[t] && s.pc[t].w !in Step(s, a).queue
  {}

  /** Once the condition is true nobody becomes parked. */
  lemma ParkedBeforeLatch(l: Latch, a: Action, t: Task)
    requires WQ.Inv(l.wq) && l.cond && Possible(l, Inner(a)) && Parked(Step(l.wq, a), t)
    ensures Parked(l.wq, t)
  {
    if IsCheck(a) { assert t != a.t; } else { ParkedBefore(l.wq, a, t); }
  }

  /** When an armed `wake_all` returns, nobody who is parked is in the queue. */
  lemma SweepsQueue(l: Latch, a: Action, t: Task)
    requires Inv(l) && Enabled(l.wq, a) && a.t in l.armed && Step(l.wq, a).pc[a.t].Idle? && Parked(l.wq, t)
    ensures l.wq.pc[t].w !in l.wq.queue
  {
    WakeMove(l.wq, a, a.t, true);
    if l.wq.numWakers == 0 { ZeroCountHidesNobody(l.wq, t); }
  }

  lemma ArmedStay(l: Latch, a: Action, t: Task)
    requires Inv(l) && Possible(l, Inner(a)) && t in Next(l, Inner(a)).armed
    ensures t in Step(l.wq, a).pc && Waking(Step(l.wq, a).pc[t], true)
  {
    if t in l.armed { WakeMove(l.wq, a, t, true); }
  }

  lemma NextInv(l: Latch, e: Event)
    requires Inv(l) && Possible(l, e)
    ensures Inv(Next(l, e))
  {
    if e.Inner? {
      var a, l' := e.a, Next(l, e);
      StepInv(l.wq, a);
      forall t | t in l'.armed ensures t in l'.wq.pc && Waking(l'.wq.pc[t], true) { ArmedStay(l, a, t); }
      if l'.swept {
        forall t | t in l'.wq.pc && Parked(l'.wq, t) ensures l'.wq.pc[t].w !in l'.wq.queue {
          ParkedBeforeLatch(l, a, t);
          if !l.swept { SweepsQueue(l, a, t); }
          StaysOutOfQueue(l.wq, a, t);
        }
      }
    }
  }

  predicate NextAt(ls: seq<Latch>, es: seq<Event>, i: nat)
    requires |ls| == |es| + 1 && i < |es|
  {
    Possible(ls[i], es[i]) && ls[i + 1] == Next(ls[i], es[i])
  }

  predicate IsRun(ls: seq<Latch>, es: seq<Event>) {
    && |ls| == |es| + 1
    && Init(ls[0])
    && (forall i | 0 <= i < |es| :: NextAt(ls, es, i))
  }

  lemma {:induction false} RunInv(ls: seq<Latch>, es: seq<Event>, i: nat)
    requires IsRun(ls, es) && i < |ls|
    ensures Inv(ls[i])
  {
    if i == 0 {
      WQ.InitInv(ls[0].wq);
    } else {
      RunInv(ls, es, i - 1);
      assert NextAt(ls, es, i - 1);
      NextInv(ls[i - 1], es[i - 1]);
    }
  }

  /**
   Once a `wake_all` that began after the condition was set has returned, a waiter can be parked
   only while another waker is about to flag it. With no waker at work, nobody is parked.
   */
  lemma NobodyLeftBehind(ls: seq<Latch>, es: seq<Event>, i: nat, t: Task)
    requires IsRun(ls, es) && i < |ls| && ls[i].swept && Parked(ls[i].wq, t)
    ensures exists u | u in ls[i].wq.pc :: Carries(ls[i].wq.pc[u]) && ls[i].wq.pc[u].w == ls[i].wq.pc[t].w
  {
    RunInv(ls, es, i);
    ParkedIsCarried(ls[i].wq, t);
  }
}
