/**
 What becomes of the mutex when `wait_until` returns without closing its waker.

 `Waiter` closes its waker in `drop`, which the source wants called automatically but, because of a
 limitation of its verifier, declares as a plain method that `wait_until` never calls. Read to the
 letter, a satisfied waiter then leaves an entry behind whose flag is still clear, and the next
 `wake_one` spends its wakeup on it. The mutex can then end up free, with a waiter parked and nobody
 left to wake it: exactly if at least two tasks share it.
 */
module UnclosedWaiter {
  import opened Base
  import opened WaitQueue
  import opened MutexProtocol

  /** The mutex protocol with the closing step left out. */
  function NextUnclosed(m: Mutex, e: Event): Mutex
    requires Possible(m, e)
  {
    if e.Inner? && e.a.Close? then m.(wq := At(m.wq, e.a.t, Idle)) else Next(m, e)
  }

  predicate UnclosedAt(ms: seq<Mutex>, es: seq<Event>, i: nat)
    requires |ms| == |es| + 1 && i < |es|
  {
    Possible(ms[i], es[i]) && ms[i + 1] == NextUnclosed(ms[i], es[i])
  }

  predicate IsUnclosedRun(ms: seq<Mutex>, es: seq<Event>) {
    |ms| == |es| + 1 && forall i: nat | i < |es| :: UnclosedAt(ms, es, i)
  }

  ghost predicate Reaches(m: Mutex, m': Mutex) {
    exists ms, es :: IsUnclosedRun(ms, es) && ms[0] == m && ms[|es|] == m'
  }

  lemma Start(m: Mutex)
    ensures Reaches(m, m)
  {
    assert IsUnclosedRun([m], []);
  }

  lemma Extend(m: Mutex, m': Mutex, e: Event, m'': Mutex)
    requires Reaches(m, m') && Possible(m', e) && m'' == NextUnclosed(m', e)
    ensures Reaches(m, m'')
  {
    var ms, es :| IsUnclosedRun(ms, es) && ms[0] == m && ms[|es|] == m';
    var ms', es' := ms + [m''], es + [e];
    forall i: nat | i < |es'| ensures UnclosedAt(ms', es', i) {
      if i < |es| { assert UnclosedAt(ms, es, i); }
    }
    assert IsUnclosedRun(ms', es');
  }

  /** The four steps of `enqueue`, undisturbed. */
  lemma Enqueues(m: Mutex, m0: Mutex, t: Task, w: WakerId)
    requires Reaches(m, m0) && t in m0.wq.pc && m0.wq.pc[t] == EnqueueLock(w, false)
    requires m0.wq.spin.None? && m0.wq.numWakers < U32_MAX
    ensures Reaches(m, m0.(wq := m0.wq.(numWakers := m0.wq.numWakers + 1, queue := m0.wq.queue + [w],
                                        pc := m0.wq.pc[t := Recheck(w, false)])))
  {
    var s := m0.wq;
    var m1 := m0.(wq := s.(spin := Some(t), pc := s.pc[t := EnqueuePush(w, false)]));
    Extend(m, m0, Inner(LockToPush(t)), m1);
    var m2 := m0.(wq := s.(spin := Some(t), queue := s.queue + [w], pc := s.pc[t := EnqueueCount(w, false)]));
    assert m1.wq.pc[t := EnqueueCount(w, false)] == m2.wq.pc;
    Extend(m, m1, Inner(Push(t)), m2);
    EnqueuesEnd(m, m0, m2, t, w);
  }

  lemma EnqueuesEnd(m: Mutex, m0: Mutex, m2: Mutex, t: Task, w: WakerId)
    requires t in m0.wq.pc && m0.wq.spin.None? && m0.wq.numWakers < U32_MAX && Reaches(m, m2)
    requires m2 == m0.(wq := m0.wq.(spin := Some(t), queue := m0.wq.queue + [w],
                                    pc := m0.wq.pc[t := EnqueueCount(w, false)]))
    ensures Reaches(m, m0.(wq := m0.wq.(numWakers := m0.wq.numWakers + 1, queue := m0.wq.queue + [w],
                                        pc := m0.wq.pc[t := Recheck(w, false)])))
  {
    var s := m0.wq;
    var m3 := m0.(wq := s.(spin := Some(t), numWakers := s.numWakers + 1, queue := s.queue + [w],
                           pc := s.pc[t := EnqueueUnlock(w, false)]));
    assert m2.wq.pc[t := EnqueueUnlock(w, false)] == m3.wq.pc;
    Extend(m, m2, Inner(CountUp(t)), m3);
    var m4 := m0.(wq := s.(numWakers := s.numWakers + 1, queue := s.queue + [w], pc := s.pc[t := Recheck(w, false)]));
    assert m3.wq.pc[t := Recheck(w, false)] == m4.wq.pc;
    Extend(m, m3, Inner(UnlockPushed(t)), m4);
  }

  /** `wake_one` with an unflagged entry in front, undisturbed: that entry takes the wakeup. */
  lemma WakesFront(m: Mutex, m0: Mutex, t: Task)
    requires Reaches(m, m0) && t in m0.wq.pc && m0.wq.pc[t] == WakeLoad(false)
    requires m0.wq.spin.None? && m0.wq.numWakers > 0 && m0.wq.queue != []
    requires m0.wq.queue[0] in m0.wq.hasWoken && !m0.wq.hasWoken[m0.wq.queue[0]]
    ensures var s := m0.wq;
            Reaches(m, m0.(wq := s.(numWakers := s.numWakers - 1, queue := s.queue[1..],
                                    hasWoken := s.hasWoken[s.queue[0] := true], pc := s.pc[t := Idle])))
  {
    var s := m0.wq;
    var w := s.queue[0];
    var m1 := m0.(wq := s.(pc := s.pc[t := WakeLock(false)]));
    Extend(m, m0, Inner(Load(t)), m1);
    var m2 := m0.(wq := s.(spin := Some(t), pc := s.pc[t := WakePop(false)]));
    assert m1.wq.pc[t := WakePop(false)] == m2.wq.pc;
    Extend(m, m1, Inner(LockToPop(t)), m2);
    var m3 := m0.(wq := s.(spin := Some(t), queue := s.queue[1..], pc := s.pc[t := WakeCount(false, w)]));
    assert m2.wq.pc[t := WakeCount(false, w)] == m3.wq.pc;
    Extend(m, m2, Inner(Pop(t)), m3);
    WakesFrontEnd(m, m0, m3, t, w);
  }

  lemma WakesFrontEnd(m: Mutex, m0: Mutex, m3: Mutex, t: Task, w: WakerId)
    requires t in m0.wq.pc && m0.wq.spin.None? && m0.wq.numWakers > 0 && m0.wq.queue != []
    requires w in m0.wq.hasWoken && !m0.wq.hasWoken[w]
    requires m3 == m0.(wq := m0.wq.(spin := Some(t), queue := m0.wq.queue[1..],
                                    pc := m0.wq.pc[t := WakeCount(false, w)]))
    requires Reaches(m, m3)
    ensures var s := m0.wq;
            Reaches(m, m0.(wq := s.(numWakers := s.numWakers - 1, queue := s.queue[1..],
                                    hasWoken := s.hasWoken[w := true], pc := s.pc[t := Idle])))
  {
    var s := m0.wq;
    var m4 := m0.(wq := s.(numWakers := s.numWakers - 1, spin := Some(t), queue := s.queue[1..],
                           pc := s.pc[t := WakeUnlock(false, w)]));
    assert m3.wq.pc[t := WakeUnlock(false, w)] == m4.wq.pc;
    Extend(m, m3, Inner(CountDown(t)), m4);
    WakesFrontLast(m, m0, m4, t, w);
  }

  lemma WakesFrontLast(m: Mutex, m0: Mutex, m4: Mutex, t: Task, w: WakerId)
    requires t in m0.wq.pc && m0.wq.spin.None? && m0.wq.numWakers > 0 && m0.wq.queue != []
    requires w in m0.wq.hasWoken && !m0.wq.hasWoken[w]
    requires m4 == m0.(wq := m0.wq.(numWakers := m0.wq.numWakers - 1, spin := Some(t), queue := m0.wq.queue[1..],
                                    pc := m0.wq.pc[t := WakeUnlock(false, w)]))
    requires Reaches(m, m4)
    ensures var s := m0.wq;
            Reaches(m, m0.(wq := s.(numWakers := s.numWakers - 1, queue := s.queue[1..],
                                    hasWoken := s.hasWoken[w := true], pc := s.pc[t := Idle])))
  {
    var s := m0.wq;
    var m5 := m0.(wq := s.(numWakers := s.numWakers - 1, queue := s.queue[1..], pc := s.pc[t := WakeFlag(false, w)]));
    assert m4.wq.pc[t := WakeFlag(false, w)] == m5.wq.pc;
    Extend(m, m4, Inner(UnlockPopped(t)), m5);
    var m6 := m0.(wq := s.(numWakers := s.numWakers - 1, queue := s.queue[1..],
                           hasWoken := s.hasWoken[w := true], pc := s.pc[t := Idle]));
    assert m5.wq.pc[t := Idle] == m6.wq.pc;
    Extend(m, m5, Inner(Flag(t)), m6);
  }

  /** The positions of two tasks, with the spin lock free and all others idle. */
  predicate Positions(m: Mutex, t: Task, u: Task, p: Pc, r: Pc) {
    && t in m.wq.pc && u in m.wq.pc && m.wq.pc[t] == p && m.wq.pc[u] == r && m.wq.spin.None?
    && (forall x | x in m.wq.pc && x != t && x != u :: m.wq.pc[x].Idle?)
  }

  /** Task `u` fails its first check because task `t` holds the mutex. */
  lemma FirstCheckFails(m: Mutex, t: Task, u: Task, v: WakerId) returns (m': Mutex)
    requires t != u && MutexProtocol.Init(m) && t in m.wq.pc && u in m.wq.pc
    ensures Reaches(m, m') && Positions(m', t, u, Idle, EnqueueLock(v, false))
    ensures m'.lock && m'.guards == multiset{t} && m'.wq.queue == [] && m'.wq.numWakers == 0
    ensures m'.wq.hasWoken == map[v := false]
  {
    Start(m);
    var m1 := NextUnclosed(m, TryLock(t));
    Extend(m, m, TryLock(t), m1);
    var m2 := NextUnclosed(m1, Inner(BeginWait(u)));
    Extend(m, m1, Inner(BeginWait(u)), m2);
    m' := NextUnclosed(m2, Inner(CheckFirst(u, false, v)));
    Extend(m, m2, Inner(CheckFirst(u, false, v)), m');
  }

  /** Task `t` releases the mutex and finds nobody queued. */
  lemma FirstPart(m: Mutex, m3: Mutex, t: Task, u: Task, v: WakerId) returns (m': Mutex)
    requires t != u && Reaches(m, m3) && Positions(m3, t, u, Idle, EnqueueLock(v, false))
    requires m3.lock && m3.guards == multiset{t} && m3.wq.queue == [] && m3.wq.numWakers == 0
    requires m3.wq.hasWoken == map[v := false]
    ensures Reaches(m, m') && Positions(m', t, u, Idle, EnqueueLock(v, false))
    ensures !m'.lock && m'.guards == multiset{} && m'.wq.queue == [] && m'.wq.numWakers == 0
    ensures m'.wq.hasWoken == map[v := false]
  {
    var m4 := NextUnclosed(m3, Unlock(t));
    Extend(m, m3, Unlock(t), m4);
    m' := NextUnclosed(m4, Inner(Load(t)));
    Extend(m, m4, Inner(Load(t)), m');
  }

  /** Task `u` enqueues, acquires, and returns without closing its waker. */
  lemma SecondPart(m: Mutex, m5: Mutex, t: Task, u: Task, v: WakerId) returns (m': Mutex)
    requires t != u && Reaches(m, m5) && Positions(m5, t, u, Idle, EnqueueLock(v, false))
    requires !m5.lock && m5.guards == multiset{} && m5.wq.queue == [] && m5.wq.numWakers == 0
    requires m5.wq.hasWoken == map[v := false]
    ensures Reaches(m, m') && Positions(m', t, u, Idle, Idle)
    ensures m'.lock && m'.guards == multiset{u} && m'.wq.queue == [v] && m'.wq.numWakers == 1
    ensures m'.wq.hasWoken == map[v := false]
  {
    Enqueues(m, m5, u, v);
    var m6 := m5.(wq := m5.wq.(numWakers := m5.wq.numWakers + 1, queue := m5.wq.queue + [v],
                               pc := m5.wq.pc[u := Recheck(v, false)]));
    var m7 := NextUnclosed(m6, Inner(CheckAgain(u, true)));
    Extend(m, m6, Inner(CheckAgain(u, true)), m7);
    m' := NextUnclosed(m7, Inner(Close(u)));
    Extend(m, m7, Inner(Close(u)), m');
  }

  /** Task `t` finds the mutex held. */
  lemma SecondCheckFails(m: Mutex, m8: Mutex, t: Task, u: Task, v: WakerId, w: WakerId) returns (m': Mutex)
    requires t != u && v != w && Reaches(m, m8) && Positions(m8, t, u, Idle, Idle)
    requires m8.lock && m8.guards == multiset{u} && m8.wq.queue == [v] && m8.wq.numWakers == 1
    requires m8.wq.hasWoken == map[v := false]
    ensures Reaches(m, m') && Positions(m', t, u, EnqueueLock(w, false), Idle)
    ensures m'.lock && m'.guards == multiset{u} && m'.wq.queue == [v] && m'.wq.numWakers == 1
    ensures m'.wq.hasWoken == map[v := false, w := false]
  {
    var m9 := NextUnclosed(m8, Inner(BeginWait(t)));
    Extend(m, m8, Inner(BeginWait(t)), m9);
    m' := NextUnclosed(m9, Inner(CheckFirst(t, false, w)));
    Extend(m, m9, Inner(CheckFirst(t, false, w)), m');
  }

  /** Task `t` parks behind the entry left in the queue. */
  lemma ThirdPart(m: Mutex, m10: Mutex, t: Task, u: Task, v: WakerId, w: WakerId) returns (m': Mutex)
    requires t != u && v != w && Reaches(m, m10) && Positions(m10, t, u, EnqueueLock(w, false), Idle)
    requires m10.lock && m10.guards == multiset{u} && m10.wq.queue == [v] && m10.wq.numWakers == 1
    requires m10.wq.hasWoken == map[v := false, w := false]
    ensures Reaches(m, m') && Positions(m', t, u, Waiting(w), Idle)
    ensures m'.lock && m'.guards == multiset{u} && m'.wq.queue == [v, w] && m'.wq.numWakers == 2
    ensures m'.wq.hasWoken == map[v := false, w := false]
  {
    Enqueues(m, m10, t, w);
    var m11 := m10.(wq := m10.wq.(numWakers := m10.wq.numWakers + 1, queue := m10.wq.queue + [w],
                                  pc := m10.wq.pc[t := Recheck(w, false)]));
    m' := NextUnclosed(m11, Inner(CheckAgain(t, false)));
    Extend(m, m11, Inner(CheckAgain(t, false)), m');
  }

  /** Task `u` unlocks, and its `wake_one` ends with the entry it left itself. */
  lemma FourthPart(m: Mutex, m12: Mutex, t: Task, u: Task, v: WakerId, w: WakerId) returns (m': Mutex)
    requires t != u && v != w && Reaches(m, m12) && Positions(m12, t, u, Waiting(w), Idle)
    requires m12.lock && m12.guards == multiset{u} && m12.wq.queue == [v, w] && m12.wq.numWakers == 2
    requires m12.wq.hasWoken == map[v := false, w := false]
    ensures Reaches(m, m') && Positions(m', t, u, Waiting(w), Idle)
    ensures !m'.lock && m'.wq.hasWoken == map[v := true, w := false]
  {
    var m13 := NextUnclosed(m12, Unlock(u));
    Extend(m, m12, Unlock(u), m13);
    WakesFront(m, m13, u);
    var s := m13.wq;
    m' := m13.(wq := s.(numWakers := s.numWakers - 1, queue := s.queue[1..],
                        hasWoken := s.hasWoken[s.queue[0] := true], pc := s.pc[u := Idle]));
  }

  /** The mutex is free, a waiter is parked, and no task owes anything: nothing under way will wake it. */
  predicate Lost(m: Mutex) {
    !m.lock && SomeoneParked(m.wq) && !SomeoneOwes(m.wq)
  }

  lemma NobodyOwes(m: Mutex, t: Task, u: Task, w: WakerId)
    requires t != u && Positions(m, t, u, Waiting(w), Idle) && w in m.wq.hasWoken && !m.wq.hasWoken[w]
    ensures Parked(m.wq, t) && !SomeoneOwes(m.wq)
  {
    forall x | x in m.wq.pc ensures !Owes(m.wq, x) {
      assert x == t || m.wq.pc[x].Idle?;
    }
  }

  /** Without the closing step, any two of the tasks that share a fresh mutex can lose a wakeup. */
  lemma WakeupIsLost(m: Mutex, t: Task, u: Task, v: WakerId, w: WakerId)
    requires t != u && v != w && MutexProtocol.Init(m) && t in m.wq.pc && u in m.wq.pc
    ensures exists m' :: Reaches(m, m') && Lost(m') && Parked(m'.wq, t)
  {
    var m3 := FirstCheckFails(m, t, u, v);
    var m5 := FirstPart(m, m3, t, u, v);
    var m8 := SecondPart(m, m5, t, u, v);
    var m10 := SecondCheckFails(m, m8, t, u, v, w);
    var m12 := ThirdPart(m, m10, t, u, v, w);
    var lost := FourthPart(m, m12, t, u, v, w);
    NobodyOwes(lost, t, u, w);
    assert Lost(lost);
  }

  // ---- A task on its own ----

  predicate Alone(m: Mutex) {
    forall t, u | t in m.wq.pc && u in m.wq.pc :: t == u
  }

  /** A task waits only for a mutex that it holds itself, or it has been woken. */
  predicate WaitsForItself(m: Mutex) {
    forall t | t in m.wq.pc && m.wq.pc[t].Waiting? :: m.lock || Flagged(m.wq, m.wq.pc[t].w)
  }

  lemma StartsWaiting(s: State, a: Action)
    requires Enabled(s, a) && Step(s, a).pc[a.t].Waiting?
    ensures a == CheckAgain(a.t, false)
  {}

  lemma AloneWaits(m: Mutex, e: Event)
    requires Possible(m, e) && NextUnclosed(m, e).wq.pc[Actor(e)].Waiting?
    ensures NextUnclosed(m, e).lock
  {
    if e.Inner? && !e.a.Close? { StartsWaiting(m.wq, e.a); }
  }

  lemma UpdateKeys(pc: map<Task, Pc>, t: Task, p: Pc)
    requires t in pc
    ensures pc[t := p].Keys == pc.Keys
  {}

  lemma MovesOne(s: State, a: Action)
    requires Enabled(s, a)
    ensures a.t in Step(s, a).pc && Step(s, a).pc == s.pc[a.t := Step(s, a).pc[a.t]]
  {}

  lemma SameTasks(m: Mutex, e: Event)
    requires Possible(m, e)
    ensures NextUnclosed(m, e).wq.pc.Keys == m.wq.pc.Keys && Actor(e) in m.wq.pc
  {
    var t := Actor(e);
    if e.Unlock? { MovesOne(m.wq, BeginWake(t, false)); } else if e.Inner? { MovesOne(m.wq, e.a); }
    UpdateKeys(m.wq.pc, t, NextUnclosed(m, e).wq.pc[t]);
  }

  lemma AloneStep(m: Mutex, m': Mutex, e: Event)
    requires Alone(m) && Possible(m, e) && m' == NextUnclosed(m, e)
    ensures Alone(m') && WaitsForItself(m')
  {
    SameTasks(m, e);
    assert forall t | t in m'.wq.pc :: t in m.wq.pc;
    forall t | t in m'.wq.pc && m'.wq.pc[t].Waiting? ensures m'.lock {
      assert t == Actor(e);
      AloneWaits(m, e);
    }
  }

  lemma {:induction false} AloneRun(ms: seq<Mutex>, es: seq<Event>, i: nat)
    requires IsUnclosedRun(ms, es) && i < |ms| && Alone(ms[0]) && WaitsForItself(ms[0])
    ensures Alone(ms[i]) && WaitsForItself(ms[i])
  {
    if i > 0 {
      AloneRun(ms, es, i - 1);
      assert UnclosedAt(ms, es, i - 1);
      AloneStep(ms[i - 1], ms[i], es[i - 1]);
    }
  }

  lemma AloneLosesNothing(m: Mutex, m': Mutex)
    requires MutexProtocol.Init(m) && Alone(m) && Reaches(m, m')
    ensures !Lost(m')
  {
    var ms, es :| IsUnclosedRun(ms, es) && ms[0] == m && ms[|es|] == m';
    AloneRun(ms, es, |es|);
  }

  lemma TwoTasks(pc: map<Task, Pc>) returns (t: Task, u: Task)
    requires |pc| >= 2
    ensures t != u && t in pc && u in pc
  {
    t :| t in pc.Keys;
    assert |pc.Keys - {t}| == |pc.Keys| - 1;
    u :| u in pc.Keys - {t};
  }

  lemma FewAreAlone(m: Mutex)
    requires |m.wq.pc| < 2
    ensures Alone(m)
  {
    forall t, u | t in m.wq.pc && u in m.wq.pc ensures t == u {
      var rest := m.wq.pc.Keys - {t};
      assert |rest| == |m.wq.pc.Keys| - 1;
      assert rest == {};
      assert u !in rest;
    }
  }

  /** Without the closing step a wakeup can be lost if and only if at least two tasks share the mutex. */
  lemma LostExactlyWhenShared(m: Mutex)
    requires MutexProtocol.Init(m)
    ensures (exists m' :: Reaches(m, m') && Lost(m')) <==> |m.wq.pc| >= 2
  {
    if |m.wq.pc| >= 2 {
      var t, u := TwoTasks(m.wq.pc);
      WakeupIsLost(m, t, u, 0, 1);
    } else {
      FewAreAlone(m);
      forall m' | Reaches(m, m') ensures !Lost(m') { AloneLosesNothing(m, m'); }
    }
  }
}
