/**
 What the shootdown protocol guarantees in every run.
 */
module ShootdownTheorems {
  import opened TlbOps
  import opened Shootdown
  import opened ShootdownStale
  import opened ShootdownSync
  import opened ShootdownOnce

  /** The bookkeeping of locks, acknowledgements, dispatches and calls. */
  ghost predicate Books(s: State) {
    && Shape(s) && LockInv(s) && AckInv(s) && ContentInv(s) && CarryInv(s) && ReachInv(s)
    && CallInv(s) && PendingInv(s) && OnceInv(s)
  }

  ghost predicate Inv(s: State) {
    Books(s) && StaleInv(s)
  }

  lemma InitInv(s: State)
    requires Init(s)
    ensures Inv(s)
  {
    InitShape(s);
  }

  predicate SameQueues(s: State, s': State) {
    && s'.fl == s.fl && s'.content == s.content && s'.reached == s.reached && s'.performed == s.performed
    && s'.cpu.Keys == s.cpu.Keys
    && forall c | c in s.cpu :: SameQueue(s.cpu[c], s'.cpu[c])
  }

  predicate SameQueue(cs: CpuState, cs': CpuState) {
    && cs'.queue == cs.queue && cs'.queued == cs.queued && cs'.ack == cs.ack && cs'.calls == cs.calls
    && cs'.ipi == cs.ipi && cs'.handler == cs.handler && cs'.hand == cs.hand && cs'.held == cs.held
  }

  /** Joining, leaving, loading and evicting translations is invisible to the protocol. */
  lemma EnvFrame(s: State, e: EnvAction)
    requires EnabledEnv(s, e)
    ensures SameQueues(s, StepEnv(s, e))
  {}

  lemma EnvAckInv(s: State, s': State)
    requires SameQueues(s, s') && LockInv(s) && AckInv(s)
    ensures LockInv(s') && AckInv(s')
  {
    assert forall c | c in s'.cpu :: SameQueue(s.cpu[c], s'.cpu[c]);
  }

  lemma EnvCarryInv(s: State, s': State)
    requires SameQueues(s, s') && CarryInv(s) && ContentInv(s)
    ensures CarryInv(s') && ContentInv(s')
  {
    forall c | c in s'.cpu ensures Carries(s'.cpu[c], s'.content) {
      assert SameQueue(s.cpu[c], s'.cpu[c]) && Carries(s.cpu[c], s.content);
    }
  }

  lemma EnvReachInv(s: State, s': State)
    requires SameQueues(s, s') && ReachInv(s)
    ensures ReachInv(s')
  {
    forall b, c | b in s'.reached && c in s'.reached[b] ensures c in s'.cpu && Underway(s', b, c) {
      assert Underway(s, b, c) && SameQueue(s.cpu[c], s'.cpu[c]);
    }
  }

  lemma EnvCallInv(s: State, s': State)
    requires SameQueues(s, s') && CallInv(s)
    ensures CallInv(s')
  {
    forall c | c in s'.cpu
      ensures (!s'.cpu[c].ack ==> CallComing(s', c)) && (s'.cpu[c].calls > 0 ==> InterruptComing(s', c))
    {
      assert SameQueue(s.cpu[c], s'.cpu[c]);
    }
  }

  lemma EnvOnceInv(s: State, s': State)
    requires SameQueues(s, s') && PendingInv(s) && OnceInv(s)
    ensures PendingInv(s') && OnceInv(s')
  {
    forall f, c | f in s'.fl ensures PendingReached(s', f, c) {
      assert PendingReached(s, f, c);
    }
    forall b, c | Given(s', b, c)
      ensures c in s'.cpu && b in s'.reached && c in s'.reached[b] && !ToGive(s', b, c) && OneCopy(s', b, c)
    {
      assert c in s.cpu ==> SameQueue(s.cpu[c], s'.cpu[c]);
      assert Given(s, b, c) && OneCopy(s, b, c) && !ToGive(s, b, c);
    }
  }

  lemma EnvBooks(s: State, e: EnvAction)
    requires Books(s) && EnabledEnv(s, e)
    ensures Books(StepEnv(s, e))
  {
    var s' := StepEnv(s, e);
    EnvFrame(s, e);
    EnvShape(s, e);
    EnvAckInv(s, s');
    EnvCarryInv(s, s');
    EnvReachInv(s, s');
    EnvCallInv(s, s');
    EnvOnceInv(s, s');
  }

  lemma FlushBooks(s: State, f: Flusher, a: FlushAction)
    requires Books(s) && EnabledFlush(s, f, a)
    ensures Books(StepFlush(s, f, a))
  {
    FlushShape(s, f, a);
    FlushLock(s, f, a);
    FlushAck(s, f, a);
    FlushContent(s, f, a);
    FlushCarries(s, f, a);
    FlushReach(s, f, a);
    FlushCalls(s, f, a);
    FlushPending(s, f, a);
    FlushOnceInv(s, f, a);
  }

  lemma HandlerPending(s: State, c: Cpu, h: HandlerAction)
    requires PendingInv(s) && ContentInv(s) && EnabledHandler(s, c, h)
    ensures PendingInv(StepHandler(s, c, h)) && ContentInv(StepHandler(s, c, h))
  {
    forall f, d | f in s.fl ensures PendingReached(StepHandler(s, c, h), f, d) {
      assert PendingReached(s, f, d);
    }
  }

  lemma HandlerBooks(s: State, c: Cpu, h: HandlerAction)
    requires Books(s) && EnabledHandler(s, c, h)
    ensures Books(StepHandler(s, c, h))
  {
    HandlerShape(s, c, h);
    HandlerLock(s, c, h);
    HandlerAck(s, c, h);
    HandlerCarries(s, c, h);
    HandlerReach(s, c, h);
    HandlerCalls(s, c, h);
    HandlerPending(s, c, h);
    HandlerOnce(s, c, h);
  }

  lemma StepInv(s: State, a: Action)
    requires Inv(s) && Enabled(s, a)
    ensures Inv(Step(s, a))
  {
    StepStale(s, a);
    match a
    case Env(e) => EnvBooks(s, e);
    case Flush(f, x) => FlushBooks(s, f, x);
    case Handle(c, h) => HandlerBooks(s, c, h);
  }

  // ---- Runs ----

  predicate StepAt(states: seq<State>, actions: seq<Action>, i: nat)
    requires |states| == |actions| + 1 && i < |actions|
  {
    Enabled(states[i], actions[i]) && states[i + 1] == Step(states[i], actions[i])
  }

  predicate IsRun(states: seq<State>, actions: seq<Action>) {
    && |states| == |actions| + 1
    && Init(states[0])
    && forall i: nat | i < |actions| :: StepAt(states, actions, i)
  }

  lemma {:induction false} RunInv(states: seq<State>, actions: seq<Action>, i: nat)
    requires IsRun(states, actions) && i < |states|
    ensures Inv(states[i])
  {
    if i == 0 {
      InitInv(states[0]);
    } else {
      RunInv(states, actions, i - 1);
      assert StepAt(states, actions, i - 1);
      StepInv(states[i - 1], actions[i - 1]);
    }
  }

  ghost predicate Reachable(s0: State, s: State) {
    exists states, actions :: IsRun(states, actions) && states[0] == s0 && states[|actions|] == s
  }

  lemma Start(s: State)
    requires Init(s)
    ensures Reachable(s, s)
  {
    assert IsRun([s], []);
  }

  lemma Extend(s0: State, s: State, a: Action)
    requires Reachable(s0, s) && Enabled(s, a)
    ensures Reachable(s0, Step(s, a))
  {
    var states, actions :| IsRun(states, actions) && states[0] == s0 && states[|actions|] == s;
    var states', actions' := states + [Step(s, a)], actions + [a];
    forall i: nat | i < |actions'| ensures StepAt(states', actions', i) {
      if i < |actions| { assert StepAt(states, actions, i); }
    }
    assert IsRun(states', actions');
  }

  // ---- No stale translation without a request; no frame released before its translations ----

  /** No pending request keeps the frame alive any more. */
  predicate Released(s: State, fr: Frame) {
    && (forall f | f in s.fl :: fr !in s.fl[f].ops.keeper)
    && (forall c | c in s.cpu :: fr !in s.cpu[c].queue.keeper && fr !in s.cpu[c].hand.keeper)
  }

  /**
   A CPU caches only what the table says, or what a request on its way to it is about to remove, unless
   it is leaving.
   */
  lemma StaleIsCovered(states: seq<State>, actions: seq<Action>, i: nat, c: Cpu, va: Vaddr)
    requires IsRun(states, actions) && i < |states| && c in states[i].cpu && va in states[i].cpu[c].tlb
    ensures LiveOrKept(states[i], c, va, states[i].cpu[c].tlb[va]) || Leaving(states[i], c)
  {
    RunInv(states, actions, i);
  }

  /**
   Once a frame has been released, a CPU reaches it through a translation that the table has dropped only
   while it is leaving.
   */
  lemma ReleasedIsUnreachable(states: seq<State>, actions: seq<Action>, i: nat, c: Cpu, va: Vaddr)
    requires IsRun(states, actions) && i < |states| && c in states[i].cpu && va in states[i].cpu[c].tlb
    requires Released(states[i], states[i].cpu[c].tlb[va])
    ensures Live(states[i], va, states[i].cpu[c].tlb[va]) || Leaving(states[i], c)
  {
    StaleIsCovered(states, actions, i, c, va);
  }

  /** A frame handed over with a dispatch stays alive until every CPU the dispatch was for has performed it. */
  lemma FrameHeldUntilPerformed(states: seq<State>, actions: seq<Action>, i: nat, b: Batch, c: Cpu, fr: Frame)
    requires IsRun(states, actions) && i < |states|
    requires b in states[i].reached && c in states[i].reached[b]
    requires b in states[i].content && fr in states[i].content[b].keeper && Released(states[i], fr)
    ensures (b, c) in states[i].performed
  {
    RunInv(states, actions, i);
    var s := states[i];
    assert Underway(s, b, c) && Carries(s.cpu[c], s.content);
    assert b.n == s.fl[b.f].n ==> b == Current(b.f, s.fl[b.f]);
  }

  // ---- What `sync_tlb_flush` waits for ----

  /** The handler has taken requests and has not finished performing them: the CPU is inside its interrupt handler. */
  predicate InHandler(cs: CpuState) {
    cs.handler.Acking? || cs.handler.Flushing?
  }

  /**
   When `sync_tlb_flush` returns, every dispatch of this flusher has, at every CPU it was for, been
   performed or been taken by a handler that has yet to return.
   */
  lemma SyncDelivers(states: seq<State>, actions: seq<Action>, i: nat, f: Flusher, b: Batch, c: Cpu)
    requires IsRun(states, actions) && i < |actions| && actions[i] == Flush(f, EndSync)
    requires b.f == f && b in states[i].reached && c in states[i].reached[b]
    ensures var s := states[i];
            c in s.cpu && ((b, c) in s.performed || (b in s.cpu[c].held && InHandler(s.cpu[c])))
  {
    RunInv(states, actions, i);
    assert StepAt(states, actions, i);
    var s := states[i];
    assert Underway(s, b, c) && CpuShape(s.cpu[c]);
    if b in s.cpu[c].queued { SyncEmptiesQueues(s, f, c, b); }
  }

  /** Who can still be responsible for a stale translation when `sync_tlb_flush` returns. */
  lemma SyncLeavesOthers(states: seq<State>, actions: seq<Action>, i: nat, f: Flusher, c: Cpu, va: Vaddr)
    requires IsRun(states, actions) && i < |actions| && actions[i] == Flush(f, EndSync)
    requires var s := states[i]; c in s.cpu && va in s.cpu[c].tlb && !Live(s, va, s.cpu[c].tlb[va])
    requires var s := states[i]; !InHandler(s.cpu[c]) && f in s.fl && IsEmpty(s.fl[f].ops)
    ensures var s := states[i];
            || Leaving(s, c)
            || (exists g | g in s.fl && g != f :: FlusherKeeps(s.fl[g], c, va, s.cpu[c].tlb[va]))
            || (exists b | b in s.cpu[c].queued :: b.f != f)
  {
    RunInv(states, actions, i);
    assert StepAt(states, actions, i);
    var s := states[i];
    var fr := s.cpu[c].tlb[va];
    if !Leaving(s, c) {
      assert LiveOrKept(s, c, va, fr);
      if CpuKeeps(s.cpu[c], va, fr) {
        assert Carries(s.cpu[c], s.content);
        var b :| b in s.cpu[c].queued;
        SyncEmptiesQueues(s, f, c, b);
      } else {
        var g :| g in s.fl && FlusherKeeps(s.fl[g], c, va, fr);
      }
    }
  }

  lemma AloneInQueues(s: State, f: Flusher, c: Cpu)
    requires AckInv(s) && s.fl.Keys == {f} && c in s.cpu
    ensures (forall g | g in s.fl :: g == f) && (forall b | b in s.cpu[c].queued :: b.f == f)
  {
    forall g | g in s.fl ensures g == f { assert g in s.fl.Keys; }
  }

  lemma RunAck(states: seq<State>, actions: seq<Action>, i: nat)
    requires IsRun(states, actions) && i < |states|
    ensures AckInv(states[i])
  {
    RunInv(states, actions, i);
  }

  /**
   A flusher that is alone leaves every CPU coherent with the table, but for those in their handler or
   leaving.
   */
  lemma AloneSyncIsCoherent(states: seq<State>, actions: seq<Action>, i: nat, f: Flusher, c: Cpu, va: Vaddr)
    requires IsRun(states, actions) && i < |actions| && actions[i] == Flush(f, EndSync)
    requires states[i].fl.Keys == {f} && IsEmpty(states[i].fl[f].ops)
    requires c in states[i].cpu && !InHandler(states[i].cpu[c]) && va in states[i].cpu[c].tlb
    ensures Live(states[i], va, states[i].cpu[c].tlb[va]) || Leaving(states[i], c)
  {
    RunAck(states, actions, i);
    AloneInQueues(states[i], f, c);
    if !Live(states[i], va, states[i].cpu[c].tlb[va]) {
      SyncLeavesOthers(states, actions, i, f, c, va);
    }
  }

  /** Waiting for an acknowledgement is never in vain: a call is queued or owed, and so is its interrupt. */
  lemma WaitIsAnswered(states: seq<State>, actions: seq<Action>, i: nat, c: Cpu)
    requires IsRun(states, actions) && i < |states| && c in states[i].cpu && !states[i].cpu[c].ack
    ensures var s := states[i]; var cs := s.cpu[c];
            || cs.handler.Swapping? || cs.handler.Acking?
            || (exists g | g in s.fl :: OwesCall(s.fl[g], c))
            || (cs.calls > 0 && InterruptComing(s, c))
  {
    RunInv(states, actions, i);
    assert CallComing(states[i], c);
  }

  // ---- Which CPUs a dispatch is for, and what performing it does ----

  /** The loads of the words of the target set, one at a time, miss no CPU that is a target all along. */
  lemma {:induction false} LoadedSoFar(states: seq<State>, actions: seq<Action>, i: nat, j: nat, f: Flusher, c: Cpu)
    requires IsRun(states, actions) && i < j < |states|
    requires actions[i] == Flush(f, BeginDispatch)
    requires forall k | i < k <= j :: LoadingAt(states[k], f)
    requires forall k | i <= k <= j :: c in states[k].targets
    ensures f in states[j].fl && PendingFor(states[j].fl[f], c)
  {
    assert StepAt(states, actions, j - 1);
    if i + 1 < j {
      LoadedSoFar(states, actions, i, j - 1, f, c);
      assert LoadingAt(states[j - 1], f) && LoadingAt(states[j], f);
      LoadStep(states[j - 1], actions[j - 1], f, c);
    } else {
      assert LoadingAt(states[j], f);
    }
  }

  predicate LoadingAt(s: State, f: Flusher) {
    f in s.fl && s.fl[f].pc.Loading?
  }

  lemma LoadStep(s: State, a: Action, f: Flusher, c: Cpu)
    requires Enabled(s, a) && LoadingAt(s, f) && LoadingAt(Step(s, a), f)
    requires c in s.targets && PendingFor(s.fl[f], c)
    ensures PendingFor(Step(s, a).fl[f], c)
  {}

  lemma TargetsAreReached(states: seq<State>, actions: seq<Action>, i: nat, j: nat, f: Flusher, c: Cpu)
    requires IsRun(states, actions) && i < j < |actions|
    requires actions[i] == Flush(f, BeginDispatch) && actions[j] == Flush(f, StartQueueing)
    requires forall k | i < k <= j :: LoadingAt(states[k], f)
    requires forall k | i <= k <= j :: c in states[k].targets
    ensures f in states[j].fl
    ensures var b := Current(f, states[j].fl[f]); b in states[j + 1].reached && c in states[j + 1].reached[b]
  {
    LoadedSoFar(states, actions, i, j, f, c);
    RunInv(states, actions, j);
    assert StepAt(states, actions, j);
    LoadedIsReached(states[j], f, c);
  }

  lemma LoadedIsReached(s: State, f: Flusher, c: Cpu)
    requires Shape(s) && EnabledFlush(s, f, StartQueueing) && c in s.targets && PendingFor(s.fl[f], c)
    ensures var s', b := StepFlush(s, f, StartQueueing), Current(f, s.fl[f]); b in s'.reached && c in s'.reached[b]
  {
    assert c in s.cpu;
  }

  /** A cached translation that the dispatch covers is still going to be removed, or not the dispatch's concern. */
  predicate Accounted(s: State, b: Batch, c: Cpu, va: Vaddr) {
    c in s.cpu && (va in s.cpu[c].tlb ==> Coming(s, b, c, va) || Missed(s, b, c))
  }

  lemma EnvAccounted(s: State, e: EnvAction, b: Batch, c: Cpu, va: Vaddr)
    requires EnabledEnv(s, e) && e != Refill(c, va) && Accounted(s, b, c, va)
    ensures Accounted(StepEnv(s, e), b, c, va)
  {
    EnvFrame(s, e);
    assert SameQueue(s.cpu[c], StepEnv(s, e).cpu[c]);
  }

  lemma FlushAccounted(s: State, f: Flusher, a: FlushAction, b: Batch, c: Cpu, va: Vaddr)
    requires Shape(s) && ContentInv(s) && ReachInv(s) && EnabledFlush(s, f, a)
    requires b in s.content && Covers(s.content[b], va) && Accounted(s, b, c, va)
    ensures Accounted(StepFlush(s, f, a), b, c, va)
  {
    if va in StepFlush(s, f, a).cpu[c].tlb {
      Survives(s, f, a, c, va);
      if Missed(s, b, c) { MissedStays(s, f, a, b, c); } else { FlushComing(s, f, a, b, c, va); }
    }
  }

  lemma HandlerAccounted(s: State, d: Cpu, h: HandlerAction, b: Batch, c: Cpu, va: Vaddr)
    requires Shape(s) && CarryInv(s) && EnabledHandler(s, d, h)
    requires b in s.content && Covers(s.content[b], va) && Accounted(s, b, c, va)
    ensures Accounted(StepHandler(s, d, h), b, c, va)
  {
    if va in StepHandler(s, d, h).cpu[c].tlb {
      assert va in s.cpu[c].tlb;
      if !Missed(s, b, c) { HandlerComing(s, d, h, b, c, va); }
    }
  }

  lemma StepAccounted(s: State, a: Action, b: Batch, c: Cpu, va: Vaddr)
    requires Inv(s) && Enabled(s, a) && a != Env(Refill(c, va))
    requires b in s.content && Covers(s.content[b], va) && Accounted(s, b, c, va)
    ensures Accounted(Step(s, a), b, c, va)
  {
    match a
    case Env(e) => EnvAccounted(s, e, b, c, va);
    case Flush(f, x) => FlushAccounted(s, f, x, b, c, va);
    case Handle(d, h) => HandlerAccounted(s, d, h, b, c, va);
  }

  predicate RefilledBetween(actions: seq<Action>, i: nat, j: nat, c: Cpu, va: Vaddr)
    requires j <= |actions|
  {
    exists k | i <= k < j :: actions[k] == Env(Refill(c, va))
  }

  lemma {:induction false} AccountedSince(states: seq<State>, actions: seq<Action>, i: nat, j: nat,
                                          f: Flusher, b: Batch, c: Cpu, va: Vaddr)
    requires IsRun(states, actions) && i < j < |states| && c in states[i].cpu
    requires actions[i] == Flush(f, BeginDispatch) && f in states[i].fl && !IsEmpty(states[i].fl[f].ops)
    requires b == Current(f, states[i].fl[f]) && Covers(states[i].fl[f].ops, va)
    ensures b in states[j].content && states[j].content[b] == states[i].fl[f].ops
    ensures RefilledBetween(actions, i, j, c, va) || Accounted(states[j], b, c, va)
  {
    assert StepAt(states, actions, j - 1);
    if i + 1 < j {
      AccountedSince(states, actions, i, j - 1, f, b, c, va);
      RunInv(states, actions, j - 1);
      ContentStays(states[j - 1], actions[j - 1], b);
      if actions[j - 1] != Env(Refill(c, va)) && Accounted(states[j - 1], b, c, va) {
        StepAccounted(states[j - 1], actions[j - 1], b, c, va);
      }
    } else {
      BeginAccounted(states[i], f, c, va);
    }
  }

  lemma BeginAccounted(s: State, f: Flusher, c: Cpu, va: Vaddr)
    requires EnabledFlush(s, f, BeginDispatch) && !IsEmpty(s.fl[f].ops) && c in s.cpu && Covers(s.fl[f].ops, va)
    ensures Accounted(StepFlush(s, f, BeginDispatch), Current(f, s.fl[f]), c, va)
  {
    assert ToGive(StepFlush(s, f, BeginDispatch), Current(f, s.fl[f]), c);
  }

  lemma ContentStays(s: State, a: Action, b: Batch)
    requires Inv(s) && Enabled(s, a) && b in s.content
    ensures b in Step(s, a).content && Step(s, a).content[b] == s.content[b]
  {
    if a.Flush? { FlushContent(s, a.f, a.a); }
  }

  /**
   Once a CPU is recorded as having performed a dispatch, any translation it caches for an address the
   dispatch asked to flush was loaded after the dispatch began.
   */
  lemma PerformedMeansFlushed(states: seq<State>, actions: seq<Action>, i: nat, j: nat, f: Flusher, c: Cpu, va: Vaddr)
    requires IsRun(states, actions) && i < j < |states| && c in states[i].cpu
    requires actions[i] == Flush(f, BeginDispatch) && f in states[i].fl && !IsEmpty(states[i].fl[f].ops)
    requires Covers(states[i].fl[f].ops, va)
    requires (Current(f, states[i].fl[f]), c) in states[j].performed
    requires c in states[j].cpu && va in states[j].cpu[c].tlb
    ensures RefilledBetween(actions, i, j, c, va)
  {
    var b := Current(f, states[i].fl[f]);
    AccountedSince(states, actions, i, j, f, b, c, va);
    RunInv(states, actions, j);
    NothingComing(states[j], b, c, va);
  }

  lemma NothingComing(s: State, b: Batch, c: Cpu, va: Vaddr)
    requires OnceInv(s) && ReachInv(s) && c in s.cpu && (b, c) in s.performed
    ensures !Coming(s, b, c, va) && !Missed(s, b, c)
  {
    assert Given(s, b, c) && OneCopy(s, b, c);
  }
}
