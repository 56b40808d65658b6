/**
 The atomic-step protocol of `WaitQueue`, `Waiter` and `Waker`.

 Any number of tasks wait and wake on one queue. One action is one atomic operation: a load or an
 update of `num_wakers`, taking or releasing the spin lock, a change of the deque under that lock, a
 swap of one `has_woken` flag, or one evaluation of the waiting condition, whose result is left to
 the client. A `Waiter` closes its waker when it is dropped at the end of `wait_until`.
 */
module WaitQueue {
  import opened Base

  type Task = nat
  type WakerId = nat

  const U32_MAX: nat := 0xFFFF_FFFF

  /** The next thing a task will do. `woken` says that the waiter was woken and owes a new try. */
  datatype Pc =
    | Idle
    // `wait_until`
    | FirstCheck
    | EnqueueLock(w: WakerId, woken: bool)
    | EnqueuePush(w: WakerId, woken: bool)
    | EnqueueCount(w: WakerId, woken: bool)
    | EnqueueUnlock(w: WakerId, woken: bool)
    | Recheck(w: WakerId, woken: bool)
    | Waiting(w: WakerId)
    | Closing(w: WakerId)
    // `wake_one`, and `wake_all` where `all` is set
    | WakeLoad(all: bool)
    | WakeLock(all: bool)
    | WakePop(all: bool)
    | WakeCount(all: bool, w: WakerId)
    | WakeUnlock(all: bool, w: WakerId)
    | WakeFlag(all: bool, w: WakerId)
    | WakeDone(all: bool)

  datatype State = State(
    numWakers: nat,
    queue: seq<WakerId>,
    spin: Option<Task>,
    hasWoken: map<WakerId, bool>,
    pc: map<Task, Pc>)

  datatype Action =
    | BeginWait(t: Task)
    | CheckFirst(t: Task, ok: bool, id: WakerId)
    | LockToPush(t: Task)
    | Push(t: Task)
    | CountUp(t: Task)
    | UnlockPushed(t: Task)
    | CheckAgain(t: Task, ok: bool)
    | Consume(t: Task)
    | Close(t: Task)
    | BeginWake(t: Task, all: bool)
    | Load(t: Task)
    | LockToPop(t: Task)
    | Pop(t: Task)
    | CountDown(t: Task)
    | UnlockPopped(t: Task)
    | Flag(t: Task)
    | UnlockEmpty(t: Task)

  predicate Enabled(s: State, a: Action) {
    && a.t in s.pc
    && var p := s.pc[a.t];
       match a
       case BeginWait(_) => p.Idle?
       case CheckFirst(_, ok, id) => p.FirstCheck? && id !in s.hasWoken
       case LockToPush(_) => p.EnqueueLock? && s.spin.None?
       case Push(_) => p.EnqueuePush?
       case CountUp(_) => p.EnqueueCount? && s.numWakers < U32_MAX  // assumed by the source as well
       case UnlockPushed(_) => p.EnqueueUnlock?
       case CheckAgain(_, ok) => p.Recheck?
       case Consume(_) => p.Waiting? && p.w in s.hasWoken && s.hasWoken[p.w]
       case Close(_) => p.Closing?
       case BeginWake(_, all) => p.Idle?
       case Load(_) => p.WakeLoad?
       case LockToPop(_) => p.WakeLock? && s.spin.None?
       case Pop(_) => p.WakePop?
       case CountDown(_) => p.WakeCount? && s.numWakers > 0
       case UnlockPopped(_) => p.WakeUnlock?
       case Flag(_) => p.WakeFlag? && p.w in s.hasWoken
       case UnlockEmpty(_) => p.WakeDone?
  }

  function At(s: State, t: Task, p: Pc): State {
    s.(pc := s.pc[t := p])
  }

  function Step(s: State, a: Action): State
    requires Enabled(s, a)
  {
    var t := a.t;
    var p := s.pc[t];
    match a
    case BeginWait(_) => At(s, t, FirstCheck)
    case CheckFirst(_, ok, id) =>
      if ok then At(s, t, Idle)
      else At(s, t, EnqueueLock(id, false)).(hasWoken := s.hasWoken[id := false])
    case LockToPush(_) => At(s, t, EnqueuePush(p.w, p.woken)).(spin := Some(t))
    case Push(_) => At(s, t, EnqueueCount(p.w, p.woken)).(queue := s.queue + [p.w])
    case CountUp(_) => At(s, t, EnqueueUnlock(p.w, p.woken)).(numWakers := s.numWakers + 1)
    case UnlockPushed(_) => At(s, t, Recheck(p.w, p.woken)).(spin := None)
    case CheckAgain(_, ok) => At(s, t, if ok then Closing(p.w) else Waiting(p.w))
    case Consume(_) => At(s, t, EnqueueLock(p.w, true)).(hasWoken := s.hasWoken[p.w := false])
    case Close(_) => At(s, t, Idle).(hasWoken := s.hasWoken[p.w := true])
    case BeginWake(_, all) => At(s, t, WakeLoad(all))
    case Load(_) => At(s, t, if s.numWakers == 0 then Idle else WakeLock(p.all))
    case LockToPop(_) => At(s, t, WakePop(p.all)).(spin := Some(t))
    case Pop(_) =>
      if s.queue == [] then At(s, t, WakeDone(p.all))
      else At(s, t, WakeCount(p.all, s.queue[0])).(queue := s.queue[1..])
    case CountDown(_) => At(s, t, WakeUnlock(p.all, p.w)).(numWakers := s.numWakers - 1)
    case UnlockPopped(_) => At(s, t, WakeFlag(p.all, p.w)).(spin := None)
    case Flag(_) =>
      At(s, t, if !s.hasWoken[p.w] && !p.all then Idle else WakeLock(p.all))
        .(hasWoken := s.hasWoken[p.w := true])
    case UnlockEmpty(_) => At(s, t, Idle).(spin := None)
  }

  predicate Init(s: State) {
    && s.numWakers == 0 && s.queue == [] && s.spin.None? && s.hasWoken == map[]
    && (forall t | t in s.pc :: s.pc[t].Idle?)
  }

  // ---- The invariant ----

  predicate Owns(p: Pc) {
    || p.EnqueueLock? || p.EnqueuePush? || p.EnqueueCount? || p.EnqueueUnlock? || p.Recheck?
    || p.Waiting? || p.Closing?
  }

  predicate NotYetQueued(p: Pc) {
    p.EnqueueLock? || p.EnqueuePush?
  }

  /** A popped entry is in the hands of a waker. */
  predicate Carries(p: Pc) {
    p.WakeCount? || p.WakeUnlock? || p.WakeFlag?
  }

  predicate InCritical(p: Pc) {
    || p.EnqueuePush? || p.EnqueueCount? || p.EnqueueUnlock?
    || p.WakePop? || p.WakeCount? || p.WakeUnlock? || p.WakeDone?
  }

  predicate Carried(s: State, w: WakerId) {
    exists t | t in s.pc :: Carries(s.pc[t]) && s.pc[t].w == w
  }

  predicate Flagged(s: State, w: WakerId) {
    w in s.hasWoken && s.hasWoken[w]
  }

  /** The spin lock is held exactly by whoever is inside a critical section. */
  predicate SpinInv(s: State) {
    && (forall t | t in s.pc :: InCritical(s.pc[t]) <==> s.spin == Some(t))
    && (s.spin.Some? ==> s.spin.value in s.pc)
  }

  /** `num_wakers` is the length of the queue, but for one critical section on its way. */
  function InFlight(s: State): int {
    if s.spin.Some? && s.spin.value in s.pc then
      var p := s.pc[s.spin.value];
      if p.EnqueueCount? then -1 else if p.WakeCount? then 1 else 0
    else 0
  }

  predicate CountInv(s: State) {
    && s.numWakers == |s.queue| + InFlight(s)
    && (forall t | t in s.pc && s.pc[t].EnqueueCount? :: |s.queue| > 0 && s.queue[|s.queue| - 1] == s.pc[t].w)
    && (forall t | t in s.pc && s.pc[t].WakeDone? :: s.queue == [])
  }

  /** Every entry exists once: in the queue or with one waker. */
  predicate EntriesInv(s: State) {
    && (forall i, j | 0 <= i < j < |s.queue| :: s.queue[i] != s.queue[j])
    && (forall i | 0 <= i < |s.queue| :: s.queue[i] in s.hasWoken)
    && (forall t | t in s.pc && Carries(s.pc[t]) :: s.pc[t].w in s.hasWoken && s.pc[t].w !in s.queue)
    && (forall t, u | t in s.pc && u in s.pc && Carries(s.pc[t]) && Carries(s.pc[u]) && t != u ::
          s.pc[t].w != s.pc[u].w)
  }

  /** A waker that belongs to nobody has been closed. */
  predicate OwnersInv(s: State) {
    && (forall t | t in s.pc && Owns(s.pc[t]) :: s.pc[t].w in s.hasWoken)
    && (forall t, u | t in s.pc && u in s.pc && Owns(s.pc[t]) && Owns(s.pc[u]) && t != u ::
          s.pc[t].w != s.pc[u].w)
    && (forall w | w in s.hasWoken && !s.hasWoken[w] :: exists t | t in s.pc :: Owns(s.pc[t]) && s.pc[t].w == w)
  }

  /** An open waiter that has enqueued is in exactly one place: queued, carried, or flagged. */
  predicate OnePlace(s: State, w: WakerId) {
    && (w in s.queue || Carried(s, w) || Flagged(s, w))
    && !(w in s.queue && Carried(s, w))
    && !(w in s.queue && Flagged(s, w))
    && !(Carried(s, w) && Flagged(s, w))
  }

  predicate NoPlace(s: State, w: WakerId) {
    w !in s.queue && !Carried(s, w) && !Flagged(s, w)
  }

  predicate PlacesInv(s: State) {
    forall t | t in s.pc && Owns(s.pc[t]) ::
      if NotYetQueued(s.pc[t]) then NoPlace(s, s.pc[t].w) else OnePlace(s, s.pc[t].w)
  }

  predicate TokensInv(s: State) {
    EntriesInv(s) && OwnersInv(s) && PlacesInv(s)
  }

  predicate Inv(s: State) {
    SpinInv(s) && CountInv(s) && TokensInv(s)
  }

  lemma InitInv(s: State)
    requires Init(s)
    ensures Inv(s)
  {}

  // ---- Every action keeps it ----

  predicate Critical(a: Action) {
    || a.LockToPush? || a.UnlockPushed? || a.LockToPop? || a.UnlockPopped? || a.UnlockEmpty?
  }

  lemma StepSpin(s: State, a: Action)
    requires SpinInv(s) && Enabled(s, a)
    ensures SpinInv(Step(s, a))
  {
    var p, p' := s.pc[a.t], Step(s, a).pc[a.t];
    assert InCritical(p) <==> s.spin == Some(a.t);
    if !Critical(a) { assert InCritical(p) <==> InCritical(p'); }
  }

  lemma StepCount(s: State, a: Action)
    requires SpinInv(s) && CountInv(s) && Enabled(s, a)
    ensures CountInv(Step(s, a))
  {
    StepSpin(s, a);
    var p, p' := s.pc[a.t], Step(s, a).pc[a.t];
    assert InCritical(p) <==> s.spin == Some(a.t);
  }

  /** Nothing moved: the same queue, flags, owners and carriers. */
  predicate SameTokens(s: State, s': State) {
    && s'.queue == s.queue && s'.hasWoken == s.hasWoken && s'.pc.Keys == s.pc.Keys
    && (forall t | t in s.pc ::
          && (Owns(s'.pc[t]) <==> Owns(s.pc[t]))
          && (Carries(s'.pc[t]) <==> Carries(s.pc[t]))
          && (NotYetQueued(s'.pc[t]) <==> NotYetQueued(s.pc[t]))
          && (Owns(s.pc[t]) || Carries(s.pc[t]) ==> s'.pc[t].w == s.pc[t].w))
  }

  lemma SameCarried(s: State, s': State, w: WakerId)
    requires SameTokens(s, s')
    ensures Carried(s', w) <==> Carried(s, w)
  {
    if Carried(s, w) {
      var t :| t in s.pc && Carries(s.pc[t]) && s.pc[t].w == w;
      assert Carries(s'.pc[t]) && s'.pc[t].w == w;
    }
    if Carried(s', w) {
      var t :| t in s'.pc && Carries(s'.pc[t]) && s'.pc[t].w == w;
      assert Carries(s.pc[t]) && s.pc[t].w == w;
    }
  }

  lemma SameTokensKeep(s: State, s': State)
    requires TokensInv(s) && SameTokens(s, s')
    ensures TokensInv(s')
  {
    forall w ensures Carried(s', w) <==> Carried(s, w) { SameCarried(s, s', w); }
    forall w | w in s'.hasWoken && !s'.hasWoken[w] ensures exists t | t in s'.pc :: Owns(s'.pc[t]) && s'.pc[t].w == w {
      var t :| t in s.pc && Owns(s.pc[t]) && s.pc[t].w == w;
      assert Owns(s'.pc[t]);
    }
  }

  /** A task that carries nothing before or after changes nobody's entry. */
  lemma CarriedKept(s: State, s': State, t: Task, w: WakerId)
    requires t in s.pc && t in s'.pc && s'.pc == s.pc[t := s'.pc[t]]
    requires !Carries(s.pc[t]) && !Carries(s'.pc[t])
    ensures Carried(s', w) <==> Carried(s, w)
  {
    if Carried(s, w) {
      var u :| u in s.pc && Carries(s.pc[u]) && s.pc[u].w == w;
      assert s'.pc[u] == s.pc[u];
    }
    if Carried(s', w) {
      var u :| u in s'.pc && Carries(s'.pc[u]) && s'.pc[u].w == w;
      assert s'.pc[u] == s.pc[u];
    }
  }

  lemma NewWaiterKeeps(s: State, a: Action)
    requires TokensInv(s) && Enabled(s, a) && a.CheckFirst? && !a.ok
    ensures TokensInv(Step(s, a))
  {
    var s' := Step(s, a);
    forall w ensures Carried(s', w) <==> Carried(s, w) { CarriedKept(s, s', a.t, w); }
    assert !Carried(s, a.id);
    forall w | w in s'.hasWoken && !s'.hasWoken[w] ensures exists t | t in s'.pc :: Owns(s'.pc[t]) && s'.pc[t].w == w {
      if w == a.id {
        assert Owns(s'.pc[a.t]);
      } else {
        var t :| t in s.pc && Owns(s.pc[t]) && s.pc[t].w == w;
        assert Owns(s'.pc[t]);
      }
    }
  }

  lemma OwnersKept(s: State, s': State, t: Task)
    requires OwnersInv(s) && t in s.pc && t in s'.pc && s'.pc == s.pc[t := s'.pc[t]]
    requires s'.hasWoken.Keys == s.hasWoken.Keys
    requires Owns(s.pc[t]) && Owns(s'.pc[t]) && s'.pc[t].w == s.pc[t].w
    requires forall w | w in s.hasWoken && w != s.pc[t].w :: s'.hasWoken[w] == s.hasWoken[w]
    ensures OwnersInv(s')
  {
    forall w | w in s'.hasWoken && !s'.hasWoken[w] ensures exists u | u in s'.pc :: Owns(s'.pc[u]) && s'.pc[u].w == w {
      if w == s.pc[t].w {
        assert Owns(s'.pc[t]);
      } else {
        var u :| u in s.pc && Owns(s.pc[u]) && s.pc[u].w == w;
        assert Owns(s'.pc[u]);
      }
    }
  }

  lemma PushKeeps(s: State, a: Action)
    requires TokensInv(s) && Enabled(s, a) && a.Push?
    ensures TokensInv(Step(s, a))
  {
    var s' := Step(s, a);
    forall w ensures Carried(s', w) <==> Carried(s, w) { CarriedKept(s, s', a.t, w); }
    OwnersKept(s, s', a.t);
  }

  lemma ConsumeKeeps(s: State, a: Action)
    requires TokensInv(s) && Enabled(s, a) && a.Consume?
    ensures TokensInv(Step(s, a))
  {
    var s' := Step(s, a);
    forall w ensures Carried(s', w) <==> Carried(s, w) { CarriedKept(s, s', a.t, w); }
    OwnersKept(s, s', a.t);
  }

  lemma CloseKeeps(s: State, a: Action)
    requires TokensInv(s) && Enabled(s, a) && a.Close?
    ensures TokensInv(Step(s, a))
  {
    var s' := Step(s, a);
    forall w ensures Carried(s', w) <==> Carried(s, w) { CarriedKept(s, s', a.t, w); }
    forall w | w in s'.hasWoken && !s'.hasWoken[w] ensures exists u | u in s'.pc :: Owns(s'.pc[u]) && s'.pc[u].w == w {
      var u :| u in s.pc && Owns(s.pc[u]) && s.pc[u].w == w;
      assert u != a.t && Owns(s'.pc[u]);
    }
  }

  lemma PopKeeps(s: State, a: Action)
    requires TokensInv(s) && Enabled(s, a) && a.Pop? && s.queue != []
    ensures TokensInv(Step(s, a))
  {
    var s' := Step(s, a);
    var e := s.queue[0];
    assert s.queue == [e] + s'.queue;
    forall w ensures Carried(s', w) <==> Carried(s, w) || w == e {
      CarriedAfterPop(s, a, w);
    }
    SameOwners(s, s', a.t);
  }

  lemma CarriedAfterPop(s: State, a: Action, w: WakerId)
    requires Enabled(s, a) && a.Pop? && s.queue != []
    ensures Carried(Step(s, a), w) <==> Carried(s, w) || w == s.queue[0]
  {
    var s' := Step(s, a);
    if Carried(s, w) {
      var u :| u in s.pc && Carries(s.pc[u]) && s.pc[u].w == w;
      assert s'.pc[u] == s.pc[u];
    }
    if w == s.queue[0] { assert Carries(s'.pc[a.t]) && s'.pc[a.t].w == w; }
    if Carried(s', w) && w != s.queue[0] {
      var u :| u in s'.pc && Carries(s'.pc[u]) && s'.pc[u].w == w;
      assert s'.pc[u] == s.pc[u];
    }
  }

  lemma SameOwners(s: State, s': State, t: Task)
    requires OwnersInv(s) && t in s.pc && t in s'.pc && s'.pc == s.pc[t := s'.pc[t]]
    requires s'.hasWoken.Keys == s.hasWoken.Keys && !Owns(s.pc[t]) && !Owns(s'.pc[t])
    requires forall w | w in s.hasWoken && !s'.hasWoken[w] :: !s.hasWoken[w]
    ensures OwnersInv(s')
  {
    forall w | w in s'.hasWoken && !s'.hasWoken[w] ensures exists u | u in s'.pc :: Owns(s'.pc[u]) && s'.pc[u].w == w {
      var u :| u in s.pc && Owns(s.pc[u]) && s.pc[u].w == w;
      assert Owns(s'.pc[u]);
    }
  }

  lemma FlagKeeps(s: State, a: Action)
    requires TokensInv(s) && Enabled(s, a) && a.Flag?
    ensures TokensInv(Step(s, a))
  {
    var s' := Step(s, a);
    var e := s.pc[a.t].w;
    assert Carried(s, e);
    forall w ensures Carried(s', w) <==> Carried(s, w) && w != e {
      CarriedAfterFlag(s, a, w);
    }
    SameOwners(s, s', a.t);
  }

  lemma CarriedAfterFlag(s: State, a: Action, w: WakerId)
    requires EntriesInv(s) && Enabled(s, a) && a.Flag?
    ensures Carried(Step(s, a), w) <==> Carried(s, w) && w != s.pc[a.t].w
  {
    var s' := Step(s, a);
    if Carried(s, w) && w != s.pc[a.t].w {
      var u :| u in s.pc && Carries(s.pc[u]) && s.pc[u].w == w;
      assert s'.pc[u] == s.pc[u];
    }
    if Carried(s', w) {
      var u :| u in s'.pc && Carries(s'.pc[u]) && s'.pc[u].w == w;
      assert s'.pc[u] == s.pc[u];
    }
  }

  /** Actions that move no token. */
  predicate Quiet(s: State, a: Action) {
    && !(a.CheckFirst? && !a.ok) && !a.Push? && !a.Consume? && !a.Close? && !a.Flag?
    && !(a.Pop? && s.queue != [])
  }

  lemma QuietSame(s: State, a: Action)
    requires Enabled(s, a) && Quiet(s, a)
    ensures SameTokens(s, Step(s, a))
  {
    var s' := Step(s, a);
    var p, p' := s.pc[a.t], s'.pc[a.t];
    QuietMove(s, a);
    assert s'.pc == s.pc[a.t := p'];
  }

  lemma QuietMove(s: State, a: Action)
    requires Enabled(s, a) && Quiet(s, a)
    ensures var s', p, p' := Step(s, a), s.pc[a.t], Step(s, a).pc[a.t];
            && s'.queue == s.queue && s'.hasWoken == s.hasWoken
            && (Owns(p') <==> Owns(p)) && (Carries(p') <==> Carries(p)) && (NotYetQueued(p') <==> NotYetQueued(p))
            && (Owns(p) || Carries(p) ==> p'.w == p.w)
  {}

  /** Every action of every task keeps the invariant, whatever the conditions answer. */
  lemma StepInv(s: State, a: Action)
    requires Inv(s) && Enabled(s, a)
    ensures Inv(Step(s, a))
  {
    StepSpin(s, a);
    StepCount(s, a);
    if Quiet(s, a) { QuietSame(s, a); SameTokensKeep(s, Step(s, a)); }
    else if a.CheckFirst? { NewWaiterKeeps(s, a); }
    else if a.Push? { PushKeeps(s, a); }
    else if a.Consume? { ConsumeKeeps(s, a); }
    else if a.Close? { CloseKeeps(s, a); }
    else if a.Flag? { FlagKeeps(s, a); }
    else { PopKeeps(s, a); }
  }

  // ---- Parked waiters ----

  /** The evaluations of the waiting condition. */
  predicate IsCheck(a: Action) {
    a.CheckFirst? || a.CheckAgain?
  }

  /** The waiter has failed its check after enqueueing and nobody has flagged it. */
  predicate Parked(s: State, t: Task) {
    t in s.pc && s.pc[t].Waiting? && !Flagged(s, s.pc[t].w)
  }

  /** With an empty queue, a parked waiter's entry is in the hands of a waker. */
  lemma ParkedIsCarried(s: State, t: Task)
    requires Inv(s) && Parked(s, t) && s.pc[t].w !in s.queue
    ensures exists u | u in s.pc :: Carries(s.pc[u]) && s.pc[u].w == s.pc[t].w
  {
    assert OnePlace(s, s.pc[t].w);
  }

  /** Where `num_wakers` reads zero, the queue holds nobody who is parked. */
  lemma ZeroCountHidesNobody(s: State, t: Task)
    requires Inv(s) && s.numWakers == 0 && Parked(s, t)
    ensures s.pc[t].w !in s.queue
  {
    if s.queue != [] {
      var h := s.spin.value;
      assert s.pc[h].EnqueueCount? && s.queue == [s.pc[h].w];
      assert s.pc[h].w != s.pc[t].w;
    }
  }

  /** Nobody becomes parked except by failing the check after enqueueing. */
  lemma ParkedBefore(s: State, a: Action, t: Task)
    requires Inv(s) && Enabled(s, a) && !IsCheck(a) && Parked(Step(s, a), t)
    ensures Parked(s, t)
  {
    assert t != a.t;
  }

  // ---- Bookkeeping over every run, for any client ----

  predicate StepAt(states: seq<State>, actions: seq<Action>, i: nat)
    requires |states| == |actions| + 1 && i < |actions|
  {
    Enabled(states[i], actions[i]) && states[i + 1] == Step(states[i], actions[i])
  }

  predicate IsRun(states: seq<State>, actions: seq<Action>) {
    && |states| == |actions| + 1
    && Init(states[0])
    && (forall i | 0 <= i < |actions| :: StepAt(states, actions, i))
  }

  lemma {:induction false} RunInv(states: seq<State>, actions: seq<Action>, i: nat)
    requires IsRun(states, actions) && i < |states|
    ensures Inv(states[i])
  {
    if i == 0 {
      InitInv(states[0]);
    } else {
      RunInv(states, actions, i - 1);
      assert StepAt(states, actions, i - 1);
      StepInv(states[i - 1], actions[i - 1]);
    }
  }

  /**
   `num_wakers` is the queue's length while the spin lock is free, and off by one at most inside a
   critical section, where the difference is the entry just pushed or just popped. The subtraction
   never wraps.
   */
  lemma CountTracksQueue(states: seq<State>, actions: seq<Action>, i: nat)
    requires IsRun(states, actions) && i < |states|
    ensures var s := states[i];
            && (s.spin.None? ==> s.numWakers == |s.queue|)
            && |s.queue| - 1 <= s.numWakers <= |s.queue| + 1
            && (forall t | t in s.pc && s.pc[t].WakeCount? :: s.numWakers > 0)
  {
    RunInv(states, actions, i);
  }

  /** A waiter that has enqueued has its entry queued, or in one waker's hands, or its flag set: one of the three. */
  lemma OneWakeupPerWaiter(states: seq<State>, actions: seq<Action>, i: nat, t: Task)
    requires IsRun(states, actions) && i < |states| && t in states[i].pc
    requires Owns(states[i].pc[t]) && !NotYetQueued(states[i].pc[t])
    ensures OnePlace(states[i], states[i].pc[t].w)
    ensures forall u, v | u in states[i].pc && v in states[i].pc && Carries(states[i].pc[u]) && Carries(states[i].pc[v])
              && states[i].pc[u].w == states[i].pc[v].w == states[i].pc[t].w :: u == v
  {
    RunInv(states, actions, i);
  }
}
