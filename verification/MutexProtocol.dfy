/**
 `Mutex` as a client of the wait queue: `lock` waits until a compare-exchange succeeds, and the
 guard's drop stores `false` and then calls `wake_one`.
 */
module MutexProtocol {
  import opened Base
  import WQ = WaitQueue
  import opened WaitQueue
  import opened WaitCalls

  datatype Mutex = Mutex(wq: State, lock: bool, guards: multiset<Task>)

  datatype Event =
    | TryLock(t: Task)
    | Unlock(t: Task)
    | Inner(a: Action)

  function Actor(e: Event): Task {
    match e
    case TryLock(t) => t
    case Unlock(t) => t
    case Inner(a) => a.t
  }

  predicate Possible(m: Mutex, e: Event) {
    match e
    case TryLock(t) => t in m.wq.pc && m.wq.pc[t].Idle?
    case Unlock(t) => t in m.wq.pc && m.wq.pc[t].Idle? && t in m.guards
    case Inner(a) => Enabled(m.wq, a) && !a.BeginWake? && (IsCheck(a) ==> a.ok == !m.lock)
  }

  function Acquire(m: Mutex, t: Task): Mutex {
    m.(lock := true, guards := m.guards + multiset{t})
  }

  function Next(m: Mutex, e: Event): Mutex
    requires Possible(m, e)
  {
    match e
    case TryLock(t) => if m.lock then m else Acquire(m, t)
    case Unlock(t) => Mutex(Step(m.wq, BeginWake(t, false)), false, m.guards - multiset{t})
    case Inner(a) =>
      var m' := m.(wq := Step(m.wq, a));
      if IsCheck(a) && a.ok then Acquire(m', a.t) else m'
  }

  predicate Init(m: Mutex) {
    WQ.Init(m.wq) && !m.lock && m.guards == multiset{}
  }

  /** An unlocker that has not finished `wake_one`. */
  predicate Unlocking(p: Pc) {
    || p.WakeLoad? || p.WakeLock? || p.WakePop? || p.WakeCount? || p.WakeUnlock? || p.WakeFlag?
    || p.WakeDone?
  }

  /** A waiter that has been woken and has not yet tried again. */
  predicate Retrying(s: State, p: Pc) {
    && Owns(p) && !p.Closing?
    && (Flagged(s, p.w) || (!p.Waiting? && p.woken))
  }

  predicate Owes(s: State, t: Task) {
    t in s.pc && (Unlocking(s.pc[t]) || Retrying(s, s.pc[t]))
  }

  predicate SomeoneOwes(s: State) {
    exists t | t in s.pc :: Owes(s, t)
  }

  predicate SomeoneParked(s: State) {
    exists t | t in s.pc :: Parked(s, t)
  }

  predicate Inv(m: Mutex) {
    && WQ.Inv(m.wq)
    && |m.guards| == (if m.lock then 1 else 0)
    && (forall t | t in m.wq.pc && m.wq.pc[t].Closing? :: t in m.guards)
    && (!m.lock && SomeoneParked(m.wq) ==> SomeoneOwes(m.wq))
  }

  /** A waker that leaves without having woken anybody leaves nobody behind. */
  lemma LeavingEmptyHanded(s: State, a: Action, t: Task)
    requires WQ.Inv(s) && Enabled(s, a)
    requires (a.Load? && s.numWakers == 0) || a.UnlockEmpty?
    requires Parked(Step(s, a), t)
    ensures SomeoneOwes(Step(s, a))
  {
    var s' := Step(s, a);
    assert Parked(s, t);
    if a.Load? { ZeroCountHidesNobody(s, t); }
    ParkedIsCarried(s, t);
    var u :| u in s.pc && Carries(s.pc[u]) && s.pc[u].w == s.pc[t].w;
    assert s'.pc[u] == s.pc[u];
    assert Owes(s', u);
  }

  /** A waker that leaves having woken somebody leaves a waiter that will try again, or the lock held. */
  lemma LeavingAfterFlag(s: State, a: Action)
    requires WQ.Inv(s) && Enabled(s, a) && a.Flag? && !Flagged(s, s.pc[a.t].w)
    requires forall t | t in s.pc :: !s.pc[t].Closing?
    ensures SomeoneOwes(Step(s, a))
  {
    var s' := Step(s, a);
    var w := s.pc[a.t].w;
    var u :| u in s.pc && Owns(s.pc[u]) && s.pc[u].w == w;
    assert Owes(s', u);
  }

  predicate Leaves(s: State, a: Action)
    requires Enabled(s, a)
  {
    || (a.Load? && s.numWakers == 0)
    || a.UnlockEmpty?
    || (a.Flag? && !s.pc[a.t].all && !s.hasWoken[s.pc[a.t].w])
  }

  /** A debt ends only by leaving `wake_one` or by trying again. */
  lemma DebtStays(s: State, a: Action, t: Task)
    requires WQ.Inv(s) && Enabled(s, a) && !IsCheck(a) && !Leaves(s, a) && Owes(s, t)
    requires forall u | u in s.pc :: !s.pc[u].Closing?
    ensures Owes(Step(s, a), t)
  {
    if t == a.t { OwnDebtStays(s, a); } else { OthersDebtStays(s, a, t); }
  }

  lemma OwnDebtStays(s: State, a: Action)
    requires Enabled(s, a) && !IsCheck(a) && !Leaves(s, a) && Owes(s, a.t)
    ensures Owes(Step(s, a), a.t)
  {}

  lemma OthersDebtStays(s: State, a: Action, t: Task)
    requires WQ.Inv(s) && Enabled(s, a) && t != a.t && Owes(s, t)
    ensures Owes(Step(s, a), t)
  {
    var s' := Step(s, a);
    assert s'.pc[t] == s.pc[t];
    if Retrying(s, s.pc[t]) && Flagged(s, s.pc[t].w) {
      assert Flagged(s', s.pc[t].w);
    }
  }

  /** Progress is owed after every action that is not a check, while the lock is free. */
  lemma InnerKeepsDebt(s: State, a: Action)
    requires WQ.Inv(s) && Enabled(s, a) && !IsCheck(a)
    requires forall u | u in s.pc :: !s.pc[u].Closing?
    requires SomeoneParked(s) ==> SomeoneOwes(s)
    requires SomeoneParked(Step(s, a))
    ensures SomeoneOwes(Step(s, a))
  {
    var t :| t in Step(s, a).pc && Parked(Step(s, a), t);
    ParkedBefore(s, a, t);
    if Leaves(s, a) {
      if a.Flag? { LeavingAfterFlag(s, a); } else { LeavingEmptyHanded(s, a, t); }
    } else {
      var u :| u in s.pc && Owes(s, u);
      DebtStays(s, a, u);
    }
  }

  lemma InitInv(m: Mutex)
    requires Init(m)
    ensures Inv(m)
  {
    WQ.InitInv(m.wq);
  }

  lemma BecomesClosing(s: State, a: Action, t: Task)
    requires Enabled(s, a) && t in Step(s, a).pc && Step(s, a).pc[t].Closing?
    ensures a == CheckAgain(t, true) || (t in s.pc && s.pc[t].Closing? && t != a.t)
  {}

  /** A waiter about to close its waker got there by acquiring the mutex and still holds it. */
  lemma ClosingHoldsGuard(m: Mutex, e: Event, t: Task)
    requires Inv(m) && Possible(m, e) && t in Next(m, e).wq.pc && Next(m, e).wq.pc[t].Closing?
    ensures t in Next(m, e).guards
  {
    match e
    case TryLock(_) =>
    case Unlock(u) => BecomesClosing(m.wq, BeginWake(u, false), t);
    case Inner(a) => BecomesClosing(m.wq, a, t);
  }

  lemma NextInv(m: Mutex, e: Event)
    requires Inv(m) && Possible(m, e)
    ensures Inv(Next(m, e))
  {
    forall t | t in Next(m, e).wq.pc && Next(m, e).wq.pc[t].Closing? ensures t in Next(m, e).guards {
      ClosingHoldsGuard(m, e, t);
    }
    match e
    case TryLock(t) =>
    case Unlock(t) =>
      StepInv(m.wq, BeginWake(t, false));
      assert Owes(Next(m, e).wq, t);
    case Inner(a) =>
      StepInv(m.wq, a);
      if !m.lock && !IsCheck(a) && SomeoneParked(Next(m, e).wq) {
        InnerKeepsDebt(m.wq, a);
      }
  }

  // ---- Over every run ----

  predicate NextAt(ms: seq<Mutex>, es: seq<Event>, i: nat)
    requires |ms| == |es| + 1 && i < |es|
  {
    Possible(ms[i], es[i]) && ms[i + 1] == Next(ms[i], es[i])
  }

  predicate IsRun(ms: seq<Mutex>, es: seq<Event>) {
    && |ms| == |es| + 1
    && Init(ms[0])
    && (forall i | 0 <= i < |es| :: NextAt(ms, es, i))
  }

  lemma {:induction false} RunInv(ms: seq<Mutex>, es: seq<Event>, i: nat)
    requires IsRun(ms, es) && i < |ms|
    ensures Inv(ms[i])
  {
    if i == 0 {
      InitInv(ms[0]);
    } else {
      RunInv(ms, es, i - 1);
      assert NextAt(ms, es, i - 1);
      NextInv(ms[i - 1], es[i - 1]);
    }
  }

  /** At most one guard is alive, and the flag says whether one is. */
  lemma MutualExclusion(ms: seq<Mutex>, es: seq<Event>, i: nat)
    requires IsRun(ms, es) && i < |ms|
    ensures |ms[i].guards| <= 1 && (ms[i].lock <==> |ms[i].guards| == 1)
  {
    RunInv(ms, es, i);
  }

  /** `try_lock` gets the guard exactly if the mutex is free. */
  lemma TryLockExactly(ms: seq<Mutex>, es: seq<Event>, i: nat, t: Task)
    requires IsRun(ms, es) && i < |es| && es[i] == TryLock(t)
    ensures ms[i + 1].guards == if ms[i].guards == multiset{} then multiset{t} else ms[i].guards
  {
    RunInv(ms, es, i);
    assert NextAt(ms, es, i);
  }

  /** Dropping the guard frees the mutex and enters `wake_one`. */
  lemma UnlockFrees(ms: seq<Mutex>, es: seq<Event>, i: nat, t: Task)
    requires IsRun(ms, es) && i < |es| && es[i] == Unlock(t)
    ensures ms[i].guards == multiset{t} && ms[i + 1].guards == multiset{} && !ms[i + 1].lock
    ensures Owes(ms[i + 1].wq, t)
  {
    RunInv(ms, es, i);
    RunInv(ms, es, i + 1);
    assert NextAt(ms, es, i);
    assert ms[i].guards == multiset{t} + (ms[i].guards - multiset{t});
  }

  /** Inside `lock`, the guard comes with the check that succeeds. */
  predicate GuardComes(m: Mutex, m': Mutex, t: Task) {
    && t in m.wq.pc && t in m'.wq.pc
    && var comes := !m.wq.pc[t].Closing? && (!Busy(m'.wq, t) || m'.wq.pc[t].Closing?);
       m'.guards[t] == m.guards[t] + if comes then 1 else 0
  }

  lemma LockMove(m: Mutex, e: Event, t: Task)
    requires Possible(m, e) && t in m.wq.pc && InWait(m.wq.pc[t])
    ensures var m' := Next(m, e);
            && GuardComes(m, m', t) && (Busy(m'.wq, t) ==> InWait(m'.wq.pc[t]))
            && (m.wq.pc[t].Closing? && Busy(m'.wq, t) ==> m'.wq.pc[t].Closing?)
  {
    match e
    case TryLock(u) => assert u != t;
    case Unlock(u) => assert u != t; WaitMove(m.wq, BeginWake(u, false), t);
    case Inner(a) => WaitMove(m.wq, a, t);
  }

  lemma {:induction false} DuringLock(ms: seq<Mutex>, es: seq<Event>, i: nat, j: nat, t: Task)
    requires IsRun(ms, es) && i < j < |ms| && es[i] == Inner(BeginWait(t)) && Busy(ms[j].wq, t)
    requires forall k | i < k < j :: Busy(ms[k].wq, t)
    ensures InWait(ms[j].wq.pc[t])
    ensures ms[j].guards[t] == ms[i].guards[t] + if ms[j].wq.pc[t].Closing? then 1 else 0
  {
    assert NextAt(ms, es, j - 1);
    if j > i + 1 {
      DuringLock(ms, es, i, j - 1, t);
      LockMove(ms[j - 1], es[j - 1], t);
    }
  }

  /** When `lock` returns, the caller has the guard, nobody else has one, and it did not have it before. */
  lemma LockReturnsGuard(ms: seq<Mutex>, es: seq<Event>, i: nat, j: nat, t: Task)
    requires IsRun(ms, es) && i < j < |ms| && es[i] == Inner(BeginWait(t))
    requires t in ms[j].wq.pc && !Busy(ms[j].wq, t) && forall k | i < k < j :: Busy(ms[k].wq, t)
    ensures t !in ms[i].guards && ms[j].guards == multiset{t}
  {
    assert NextAt(ms, es, j - 1);
    if j > i + 1 {
      DuringLock(ms, es, i, j - 1, t);
      LockMove(ms[j - 1], es[j - 1], t);
      MutualExclusion(ms, es, j);
      assert ms[j].guards == multiset{t} + (ms[j].guards - multiset{t});
    }
  }

  /**
   No wakeup is lost: whenever the mutex is free and a waiter is parked without having been woken,
   an unlocker is still inside `wake_one` or a woken waiter is still to try again.
   */
  lemma NoLostWakeup(ms: seq<Mutex>, es: seq<Event>, i: nat, t: Task)
    requires IsRun(ms, es) && i < |ms|
    requires !ms[i].lock && Parked(ms[i].wq, t)
    ensures exists u | u in ms[i].wq.pc :: u != t && Owes(ms[i].wq, u)
  {
    RunInv(ms, es, i);
    var u :| u in ms[i].wq.pc && Owes(ms[i].wq, u);
    assert u != t;
  }

  // ---- Debts can be paid ----

  ghost predicate CanAct(m: Mutex, t: Task) {
    exists e :: Possible(m, e) && Actor(e) == t
  }

  /** The one thing a task inside the queue's code does next. */
  function Due(p: Pc, t: Task, free: bool): Action {
    match p
    case EnqueueLock(_, _) => LockToPush(t)
    case EnqueuePush(_, _) => Push(t)
    case EnqueueCount(_, _) => CountUp(t)
    case EnqueueUnlock(_, _) => UnlockPushed(t)
    case Recheck(_, _) => CheckAgain(t, free)
    case Waiting(_) => Consume(t)
    case Closing(_) => Close(t)
    case WakeLoad(_) => Load(t)
    case WakeLock(_) => LockToPop(t)
    case WakePop(_) => Pop(t)
    case WakeCount(_, _) => CountDown(t)
    case WakeUnlock(_, _) => UnlockPopped(t)
    case WakeFlag(_, _) => Flag(t)
    case WakeDone(_) => UnlockEmpty(t)
    case _ => BeginWait(t)
  }

  lemma HolderCanAct(m: Mutex, t: Task)
    requires WQ.Inv(m.wq) && m.wq.spin == Some(t) && m.wq.numWakers < U32_MAX
    ensures CanAct(m, t)
  {
    assert InCritical(m.wq.pc[t]);
    var e := Inner(Due(m.wq.pc[t], t, !m.lock));
    assert Possible(m, e) && Actor(e) == t;
  }

  /**
   Whoever owes progress can make it at once, or waits only for the queue's spin lock, whose holder
   can make a step. (The source assumes that the counter has room for one more waiter.)
   */
  lemma DebtorCanAct(m: Mutex, t: Task)
    requires WQ.Inv(m.wq) && Owes(m.wq, t) && m.wq.numWakers < U32_MAX
    ensures CanAct(m, t) || (m.wq.spin.Some? && CanAct(m, m.wq.spin.value))
  {
    var p := m.wq.pc[t];
    if (p.EnqueueLock? || p.WakeLock?) && m.wq.spin.Some? {
      HolderCanAct(m, m.wq.spin.value);
    } else {
      var e := Inner(Due(p, t, !m.lock));
      if InCritical(p) { HolderCanAct(m, t); }
      else {
        assert Possible(m, e) && Actor(e) == t;
      }
    }
  }
}
