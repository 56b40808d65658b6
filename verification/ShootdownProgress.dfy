/**
 The shootdown protocol gets done.

 Every step of a dispatch, of a wait and of an interrupt handler brings it nearer to its end, and
 somebody can always act as long as anybody is busy. So a dispatch that is left alone, together with
 the handlers it calls and the wait for them, runs to its end, and all its targets have then
 performed it.
 */
module ShootdownProgress {
  import opened TlbOps
  import opened Shootdown
  import opened ShootdownStale
  import opened ShootdownSync
  import opened ShootdownTheorems

  // ---- Every step is progress ----

  /** What a flusher still has to go through, phase by phase. */
  function Phase(pc: Pc): nat {
    match pc
    case Working => 0
    case Syncing(_) => 1
    case Finishing(_, _) => 2
    case Sending(_, _) => 3
    case Calling(_, _, _) => 4
    case Queueing(_, _, _) => 5
    case Clearing(_, _, _, _) => 5
    case Loading(_, _) => 6
  }

  /** What it still has to do in its phase. */
  function Left(words: nat, fs: FlusherState): int {
    match fs.pc
    case Working => 0
    case Syncing(todo) => |todo|
    case Finishing(_, next) => FlushSteps(fs.ops) - next
    case Sending(todo, _) => |todo|
    case Calling(todo, _, _) => |todo|
    case Queueing(todo, _, _) => 2 * |todo|
    case Clearing(_, todo, _, _) => 2 * |todo| + 1
    case Loading(k, _) => words - k
  }

  lemma FlusherProgresses(s: State, f: Flusher, a: FlushAction)
    requires EnabledFlush(s, f, a) && !s.fl[f].pc.Working?
    ensures var fs, fs' := s.fl[f], FlusherAfter(s, f, a);
            || Phase(fs'.pc) < Phase(fs.pc)
            || (Phase(fs'.pc) == Phase(fs.pc) && Left(s.words, fs) > Left(s.words, fs') && Left(s.words, fs) > 0)
  {}

  function HandlerPhase(h: Handler): nat {
    match h
    case Off => 0
    case Draining => 1
    case Flushing(_) => 2
    case Acking => 3
    case Swapping => 4
  }

  function HandlerLeft(cs: CpuState): int {
    if cs.handler.Flushing? then FlushSteps(cs.hand) - cs.handler.next else 0
  }

  /** A step of a handler that runs: a call fewer, or the same calls and a later phase, or one request fewer. */
  predicate Nearer(cs: CpuState, cs': CpuState) {
    || cs'.calls < cs.calls
    || (cs'.calls == cs.calls && HandlerPhase(cs'.handler) < HandlerPhase(cs.handler))
    || (cs'.calls == cs.calls && HandlerPhase(cs'.handler) == HandlerPhase(cs.handler)
        && HandlerLeft(cs) > HandlerLeft(cs') && HandlerLeft(cs) > 0)
  }

  lemma HandlerProgresses(s: State, c: Cpu, h: HandlerAction)
    requires EnabledHandler(s, c, h)
    ensures var cs, cs' := s.cpu[c], HandlerAfter(s.cpu[c], h);
            if cs.handler.Off? then cs.ipi && !cs'.ipi && cs'.handler.Draining? else Nearer(cs, cs')
  {}

  // ---- Somebody can always act ----

  /** The next step of a handler that runs. */
  function NextOf(cs: CpuState): HandlerAction {
    match cs.handler
    case Off => TakeIpi
    case Draining => PopCall
    case Swapping => Swap
    case Acking => Ack
    case Flushing(_) => if FlushFinished(cs) then EndFlush else FlushOne
  }

  /** No handler runs and no other flusher holds the lock of a queue. */
  predicate Clear(s: State, f: Flusher) {
    && (forall c | c in s.cpu :: s.cpu[c].handler.Off?)
    && (forall g | g in s.fl && g != f :: !s.fl[g].pc.Clearing?)
  }

  /** A flusher that has the queues to itself can act. */
  lemma DispatchCanAct(s: State, f: Flusher) returns (a: FlushAction)
    requires Shape(s) && f in s.fl && Dispatching(s.fl[f].pc) && Clear(s, f)
    ensures EnabledFlush(s, f, a)
  {
    assert FlusherShape(s.cpu.Keys, s.fl[f]);
    match s.fl[f].pc {
      case Loading(k, _) => a := if k < s.words then LoadWord else StartQueueing;
      case Queueing(todo, _, _) => a := StartCalling; if c :| c in todo { a := PushOps(c); }
      case Clearing(_, _, _, _) => a := ClearAck;
      case Calling(todo, _, _) => a := StartSending; if c :| c in todo { a := PushCall(c); }
      case Sending(todo, _) => a := StartFinishing; if c :| c in todo { a := SendIpi(c); }
      case Finishing(onSelf, next) => a := if onSelf && next < FlushSteps(s.fl[f].ops) then FlushLocal else Finish;
    }
  }

  /** Nobody is in the middle of anything but waiting. */
  predicate Settled(s: State) {
    && (forall c | c in s.cpu :: s.cpu[c].handler.Off?)
    && (forall g | g in s.fl :: !Dispatching(s.fl[g].pc))
  }

  lemma SettledOwesNothing(s: State, c: Cpu)
    requires CallInv(s) && Settled(s) && c in s.cpu
    ensures !s.cpu[c].ack ==> s.cpu[c].calls > 0
    ensures s.cpu[c].calls > 0 ==> s.cpu[c].ipi
  {
    forall g | g in s.fl ensures !OwesCall(s.fl[g], c) && !OwesInterrupt(s.fl[g], c) {
      assert !Dispatching(s.fl[g].pc);
    }
  }

  /** An action of a busy flusher or of a handler. */
  predicate Busy(s: State, a: Action) {
    match a
    case Env(_) => false
    case Flush(f, _) => f in s.fl && !s.fl[f].pc.Working?
    case Handle(_, _) => true
  }

  lemma WaitCanAct(s: State, f: Flusher) returns (a: Action)
    requires Shape(s) && CallInv(s) && Settled(s) && f in s.fl && s.fl[f].pc.Syncing?
    ensures Busy(s, a) && Enabled(s, a)
  {
    assert FlusherShape(s.cpu.Keys, s.fl[f]);
    a := Flush(f, EndSync);
    if c :| c in s.fl[f].pc.todo {
      SettledOwesNothing(s, c);
      a := if s.cpu[c].ack then Flush(f, SyncOne(c)) else Handle(c, TakeIpi);
    }
  }

  lemma SomebodyCanAct(s: State, f: Flusher) returns (a: Action)
    requires Shape(s) && CallInv(s) && f in s.fl && !s.fl[f].pc.Working?
    ensures Busy(s, a) && Enabled(s, a)
  {
    if g :| g in s.fl && s.fl[g].pc.Clearing? {
      assert FlusherShape(s.cpu.Keys, s.fl[g]);
      a := Flush(g, ClearAck);
    } else if c :| c in s.cpu && !s.cpu[c].handler.Off? {
      a := Handle(c, NextOf(s.cpu[c]));
    } else if g :| g in s.fl && Dispatching(s.fl[g].pc) {
      var x := DispatchCanAct(s, g);
      a := Flush(g, x);
    } else {
      a := WaitCanAct(s, f);
    }
  }

  /** No deadlock: as long as any flusher dispatches or waits, a flusher that does, or a handler, can act. */
  lemma NeverStuck(states: seq<State>, actions: seq<Action>, i: nat, f: Flusher)
    requires IsRun(states, actions) && i < |states| && f in states[i].fl && !states[i].fl[f].pc.Working?
    ensures exists a :: Busy(states[i], a) && Enabled(states[i], a)
  {
    RunInv(states, actions, i);
    var a := SomebodyCanAct(states[i], f);
  }

  // ---- A dispatch that is left alone is performed ----

  /** The dispatch `b` is going to reach these CPUs. */
  predicate Aims(s: State, f: Flusher, b: Batch, cpus: set<Cpu>) {
    && f in s.fl && cpus <= s.targets
    && if s.fl[f].pc.Loading? then b == Current(f, s.fl[f]) && forall c | c in cpus :: PendingFor(s.fl[f], c)
       else b in s.reached && cpus <= s.reached[b]
  }

  /** The flusher has the protocol to itself. */
  predicate Alone(s: State, f: Flusher) {
    && (forall c | c in s.cpu :: s.cpu[c].handler.Off?)
    && (forall g | g in s.fl && g != f :: s.fl[g].pc.Working?)
  }

  lemma AloneStays(s: State, f: Flusher, a: FlushAction)
    requires Alone(s, f) && EnabledFlush(s, f, a)
    ensures Alone(StepFlush(s, f, a), f)
  {
    var s' := StepFlush(s, f, a);
    assert forall c | c in s.cpu :: s'.cpu[c].handler == s.cpu[c].handler;
    assert forall g | g in s.fl && g != f :: s'.fl[g] == s.fl[g];
  }

  lemma AimsStay(s: State, f: Flusher, a: FlushAction, b: Batch, cpus: set<Cpu>)
    requires Shape(s) && EnabledFlush(s, f, a) && Dispatching(s.fl[f].pc) && Aims(s, f, b, cpus)
    ensures Aims(StepFlush(s, f, a), f, b, cpus)
  {
    var s' := StepFlush(s, f, a);
    if a.LoadWord? {
      forall c | c in cpus ensures PendingFor(s'.fl[f], c) { LoadStep(s, Flush(f, a), f, c); }
    } else if a.StartQueueing? {
      forall c | c in cpus ensures c in s'.reached[b] { LoadedIsReached(s, f, c); }
    }
  }

  /** A dispatch goes on until it finishes. */
  lemma DispatchGoesOn(s: State, f: Flusher, a: FlushAction)
    requires Shape(s) && EnabledFlush(s, f, a) && Dispatching(s.fl[f].pc)
    ensures var fs' := FlusherAfter(s, f, a);
            if a.Finish? then fs'.pc.Working? && fs'.n == s.fl[f].n + 1 else Dispatching(fs'.pc) && fs'.n == s.fl[f].n
  {
    DispatchAfter(s, f, a);
  }

  /** The dispatch comes to its end. */
  lemma {:induction false} DispatchEnds(s0: State, s: State, f: Flusher, b: Batch, cpus: set<Cpu>) returns (r: State)
    requires Reachable(s0, s) && Alone(s, f) && Aims(s, f, b, cpus) && Dispatching(s.fl[f].pc) && s.fl[f].n == b.n
    ensures Reachable(s0, r) && Alone(r, f) && Aims(r, f, b, cpus) && r.fl[f].pc.Working? && r.fl[f].n == b.n + 1
    decreases Phase(s.fl[f].pc), if Left(s.words, s.fl[f]) > 0 then Left(s.words, s.fl[f]) else 0
  {
    ReachableShape(s0, s);
    var a := DispatchCanAct(s, f);
    r := Advance(s0, s, f, a);
    AloneStays(s, f, a);
    AimsStay(s, f, a, b, cpus);
    DispatchGoesOn(s, f, a);
    FlusherProgresses(s, f, a);
    if !a.Finish? { r := DispatchEnds(s0, r, f, b, cpus); }
  }

  lemma Advance(s0: State, s: State, f: Flusher, a: FlushAction) returns (r: State)
    requires Reachable(s0, s) && EnabledFlush(s, f, a)
    ensures Reachable(s0, r) && r == StepFlush(s, f, a)
    ensures r.words == s.words && r.fl == s.fl[f := FlusherAfter(s, f, a)]
  {
    Extend(s0, s, Flush(f, a));
    r := StepFlush(s, f, a);
  }

  lemma ReachableInv(s0: State, s: State)
    requires Reachable(s0, s)
    ensures Inv(s)
  {
    var states, actions :| IsRun(states, actions) && states[0] == s0 && states[|actions|] == s;
    RunInv(states, actions, |actions|);
  }

  lemma ReachableShape(s0: State, s: State)
    requires Reachable(s0, s)
    ensures Shape(s)
  {
    ReachableInv(s0, s);
  }

  /** No flusher is dispatching or waiting. */
  predicate AllWorking(s: State) {
    forall g | g in s.fl :: s.fl[g].pc.Working?
  }

  /** All but the CPU `c`, and what `c` has performed, is the same. */
  predicate SameButCpu(s: State, s': State, c: Cpu) {
    && s'.fl == s.fl && s'.reached == s.reached && s'.targets == s.targets && s'.cpu.Keys == s.cpu.Keys
    && (forall d | d in s.cpu && d != c :: s'.cpu[d] == s.cpu[d])
  }

  lemma HandlerStep(s: State, c: Cpu)
    requires AllWorking(s) && c in s.cpu && (!s.cpu[c].handler.Off? || s.cpu[c].ipi)
    ensures EnabledHandler(s, c, NextOf(s.cpu[c]))
    ensures var s' := StepHandler(s, c, NextOf(s.cpu[c]));
            && SameButCpu(s, s', c) && s'.cpu[c] == HandlerAfter(s.cpu[c], NextOf(s.cpu[c]))
            && (!s.cpu[c].handler.Off? ==> s'.cpu[c].ipi == s.cpu[c].ipi)
  {}

  /** A handler that runs comes to its end. */
  lemma {:induction false} HandlerEnds(s0: State, s: State, c: Cpu) returns (r: State)
    requires Reachable(s0, s) && AllWorking(s) && c in s.cpu && !s.cpu[c].ipi
    ensures Reachable(s0, r) && SameButCpu(s, r, c) && r.cpu[c].handler.Off? && !r.cpu[c].ipi
    decreases s.cpu[c].calls, HandlerPhase(s.cpu[c].handler),
              if HandlerLeft(s.cpu[c]) > 0 then HandlerLeft(s.cpu[c]) else 0
  {
    r := s;
    if !s.cpu[c].handler.Off? {
      var h := NextOf(s.cpu[c]);
      HandlerStep(s, c);
      HandlerProgresses(s, c, h);
      Extend(s0, s, Handle(c, h));
      r := HandlerEnds(s0, StepHandler(s, c, h), c);
    }
  }

  /** The CPU takes its interrupt, if there is one, and returns from it. */
  lemma CpuQuietens(s0: State, s: State, c: Cpu) returns (r: State)
    requires Reachable(s0, s) && AllWorking(s) && c in s.cpu && s.cpu[c].handler.Off?
    ensures Reachable(s0, r) && SameButCpu(s, r, c) && r.cpu[c].handler.Off? && !r.cpu[c].ipi
  {
    r := s;
    if s.cpu[c].ipi {
      HandlerStep(s, c);
      Extend(s0, s, Handle(c, TakeIpi));
      r := HandlerEnds(s0, StepHandler(s, c, TakeIpi), c);
    }
  }

  /** No interrupt is pending or being handled. */
  predicate NoInterrupts(s: State) {
    forall c | c in s.cpu :: s.cpu[c].handler.Off? && !s.cpu[c].ipi
  }

  /** One CPU after the other takes its interrupt. */
  lemma {:induction false} AllQuieten(s0: State, s: State, cpus: set<Cpu>) returns (r: State)
    requires Reachable(s0, s) && AllWorking(s) && cpus <= s.cpu.Keys
    requires forall c | c in s.cpu :: s.cpu[c].handler.Off? && (c in cpus || !s.cpu[c].ipi)
    ensures Reachable(s0, r) && r.fl == s.fl && r.reached == s.reached && r.targets == s.targets
    ensures NoInterrupts(r)
    decreases cpus
  {
    r := s;
    if c :| c in cpus {
      r := CpuQuietens(s0, s, c);
      r := AllQuieten(s0, r, cpus - {c});
    }
  }

  lemma QuietAcks(s: State, c: Cpu)
    requires CallInv(s) && AllWorking(s) && NoInterrupts(s) && c in s.cpu
    ensures s.cpu[c].ack
  {
    SettledOwesNothing(s, c);
  }

  lemma QuietQueues(s: State, c: Cpu)
    requires CallInv(s) && AckInv(s) && AllWorking(s) && NoInterrupts(s) && c in s.cpu
    ensures s.cpu[c].queued == {}
  {
    QuietAcks(s, c);
  }

  /** With nobody busy and no interrupt pending, a CPU has performed every dispatch that was for it. */
  lemma QuietIsPerformed(s: State, b: Batch, c: Cpu)
    requires Shape(s) && ReachInv(s) && CallInv(s) && AckInv(s) && AllWorking(s) && NoInterrupts(s)
    requires b in s.reached && c in s.reached[b]
    ensures (b, c) in s.performed
  {
    assert Underway(s, b, c) && CpuShape(s.cpu[c]);
    QuietQueues(s, c);
  }

  /** The wait comes to its end. */
  lemma {:induction false} SyncEnds(s0: State, s: State, f: Flusher) returns (r: State)
    requires Reachable(s0, s) && f in s.fl && s.fl[f].pc.Syncing?
    requires forall c | c in s.cpu :: s.cpu[c].ack
    ensures Reachable(s0, r) && f in r.fl && r.fl[f].pc.Working? && r.fl[f].unsynced == {}
    ensures r.performed == s.performed
    decreases s.fl[f].pc.todo
  {
    ReachableShape(s0, s);
    if c :| c in s.fl[f].pc.todo {
      SyncWaits(s, f, c);
      r := Advance(s0, s, f, SyncOne(c));
      r := SyncEnds(s0, r, f);
    } else {
      r := Advance(s0, s, f, EndSync);
    }
  }

  lemma SyncWaits(s: State, f: Flusher, c: Cpu)
    requires Shape(s) && f in s.fl && s.fl[f].pc.Syncing? && c in s.fl[f].pc.todo
    requires forall d | d in s.cpu :: s.cpu[d].ack
    ensures EnabledFlush(s, f, SyncOne(c))
    ensures var s' := StepFlush(s, f, SyncOne(c));
            s'.cpu == s.cpu && s'.performed == s.performed && s'.fl[f].pc == Syncing(s.fl[f].pc.todo - {c})
  {
    assert FlusherShape(s.cpu.Keys, s.fl[f]);
    assert StepFlush(s, f, SyncOne(c)).cpu == s.cpu;
  }

  /**
   A flusher with requests that is left alone with the CPUs it calls can dispatch them, and wait for
   them, to the end; all the CPUs that were targets have then performed the dispatch.
   */
  lemma FlushCompletes(s0: State, s: State, f: Flusher) returns (r: State)
    requires Reachable(s0, s) && AllWorking(s) && (forall c | c in s.cpu :: s.cpu[c].handler.Off?)
    requires f in s.fl && !IsEmpty(s.fl[f].ops)
    ensures Reachable(s0, r) && f in r.fl && r.fl[f].pc.Working? && r.fl[f].unsynced == {}
    ensures forall c | c in s.targets :: (Current(f, s.fl[f]), c) in r.performed
  {
    var b := Current(f, s.fl[f]);
    r := Advance(s0, s, f, BeginDispatch);
    AloneStays(s, f, BeginDispatch);
    r := DispatchEnds(s0, r, f, b, s.targets);
    r := AllQuieten(s0, r, r.cpu.Keys);
    r := WaitsAndReturns(s0, r, f, b);
  }

  lemma QuietIsDone(s0: State, s: State, b: Batch)
    requires Reachable(s0, s) && AllWorking(s) && NoInterrupts(s) && b in s.reached
    ensures forall c | c in s.reached[b] :: (b, c) in s.performed
    ensures forall c | c in s.cpu :: s.cpu[c].ack
  {
    ReachableInv(s0, s);
    forall c | c in s.reached[b] ensures (b, c) in s.performed { QuietIsPerformed(s, b, c); }
    forall c | c in s.cpu ensures s.cpu[c].ack { QuietAcks(s, c); }
  }

  lemma WaitsAndReturns(s0: State, s: State, f: Flusher, b: Batch) returns (r: State)
    requires Reachable(s0, s) && AllWorking(s) && NoInterrupts(s) && f in s.fl && b in s.reached
    ensures Reachable(s0, r) && f in r.fl && r.fl[f].pc.Working? && r.fl[f].unsynced == {}
    ensures forall c | c in s.reached[b] :: (b, c) in r.performed
  {
    QuietIsDone(s0, s, b);
    r := Advance(s0, s, f, BeginSync);
    assert r.cpu == s.cpu;
    r := SyncEnds(s0, r, f);
  }
}
