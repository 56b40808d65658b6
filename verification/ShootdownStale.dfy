/**
 No stale translation without a request that removes it.

 In every reachable state, a translation cached by a CPU that runs on the page table and is in the
 target set is either the one in the table, or some request that is still on its way to that CPU covers
 it and keeps its frame alive.
 */
module ShootdownStale {
  import opened TlbOps
  import opened Shootdown

  // ---- Shape of the states ----

  predicate Dispatching(pc: Pc) {
    pc.Loading? || pc.Queueing? || pc.Clearing? || pc.Calling? || pc.Sending? || pc.Finishing?
  }

  predicate FlusherShape(cpus: set<Cpu>, fs: FlusherState) {
    && fs.on in cpus && WellFormed(fs.ops) && fs.unsynced <= cpus
    && (Dispatching(fs.pc) ==> !IsEmpty(fs.ops))
    && match fs.pc
       case Loading(_, acc) => acc <= cpus
       case Queueing(todo, remote, _) => todo <= remote <= cpus && fs.on !in remote
       case Clearing(c, todo, remote, _) => todo <= remote <= cpus && c in remote && c !in todo && fs.on !in remote
       case Calling(todo, remote, _) => todo <= remote <= cpus && fs.on !in remote
       case Sending(todo, _) => todo <= cpus
       case Syncing(todo) => todo <= fs.unsynced
       case _ => true
  }

  predicate CpuShape(cs: CpuState) {
    && WellFormed(cs.queue) && WellFormed(cs.hand)
    && (!cs.handler.Acking? && !cs.handler.Flushing? ==> cs.hand == NO_OPS && cs.held == {})
    && (!cs.loaded ==> cs.tlb == map[])
  }

  predicate Shape(s: State) {
    && s.targets <= s.cpu.Keys
    && (forall c | c in s.cpu :: c < BITS_PER_PART * s.words && CpuShape(s.cpu[c]))
    && (forall f | f in s.fl :: FlusherShape(s.cpu.Keys, s.fl[f]))
  }

  lemma InitShape(s: State)
    requires Init(s)
    ensures Shape(s)
  {}

  lemma EnvShape(s: State, e: EnvAction)
    requires Shape(s) && EnabledEnv(s, e)
    ensures Shape(StepEnv(s, e))
  {
    assert CpuShape(s.cpu[e.c]) && CpuShape(EnvCpu(s, e));
    assert StepEnv(s, e).cpu.Keys == s.cpu.Keys;
  }

  lemma HandlerShape(s: State, c: Cpu, h: HandlerAction)
    requires Shape(s) && EnabledHandler(s, c, h)
    ensures Shape(StepHandler(s, c, h))
  {
    assert CpuShape(s.cpu[c]) && CpuShape(HandlerAfter(s.cpu[c], h));
    assert StepHandler(s, c, h).cpu.Keys == s.cpu.Keys;
  }

  lemma OpsShape(s: State, fs: FlusherState, a: FlushAction)
    requires WellFormed(fs.ops)
    ensures WellFormed(OpsAfter(s, fs, a))
    ensures !a.Finish? ==> Includes(OpsAfter(s, fs, a), fs.ops)
  {
    match a
    case Remap(va, fr) => if va in s.pt { PushOpIncludes(fs.ops, Address(va), {s.pt[va]}); }
    case Unmap(va) => if va in s.pt { PushOpIncludes(fs.ops, Address(va), {s.pt[va]}); }
    case UnmapRange(start, end) => PushOpIncludes(fs.ops, Range(start, end), FramesIn(s.pt, start, end));
    case _ =>
  }

  lemma FlusherAfterShape(s: State, f: Flusher, a: FlushAction)
    requires Shape(s) && EnabledFlush(s, f, a)
    ensures FlusherShape(s.cpu.Keys, FlusherAfter(s, f, a))
  {
    assert FlusherShape(s.cpu.Keys, s.fl[f]);
    OpsShape(s, s.fl[f], a);
  }

  lemma CpuAfterShape(f: Flusher, fs: FlusherState, a: FlushAction, cs: CpuState)
    requires CpuShape(cs) && WellFormed(fs.ops)
    requires a.FlushLocal? ==> fs.pc.Finishing? && fs.pc.next < FlushSteps(fs.ops)
    ensures CpuShape(CpuAfter(f, fs, a, cs))
  {
    PushFromIncludes(cs.queue, fs.ops);
  }

  lemma FlushShape(s: State, f: Flusher, a: FlushAction)
    requires Shape(s) && EnabledFlush(s, f, a)
    ensures Shape(StepFlush(s, f, a))
  {
    var s' := StepFlush(s, f, a);
    FlusherAfterShape(s, f, a);
    assert s'.cpu.Keys == s.cpu.Keys;
    forall c | c in s'.cpu
      ensures c < BITS_PER_PART * s.words && CpuShape(s'.cpu[c])
    {
      assert FlusherShape(s.cpu.Keys, s.fl[f]);
      CpuAfterShape(f, s.fl[f], a, s.cpu[c]);
    }
  }

  // ---- Every stale translation has a request on its way ----

  predicate Holds(o: Ops, va: Vaddr, fr: Frame) {
    fr in o.keeper && Covers(o, va)
  }

  /** The flusher has yet to hand its requests to this CPU, or to perform them there itself. */
  predicate PendingFor(fs: FlusherState, c: Cpu) {
    match fs.pc
    case Working => true
    case Syncing(_) => true
    case Loading(k, acc) => c / BITS_PER_PART >= k || c in acc
    case Queueing(todo, _, onSelf) => c in todo || (onSelf && c == fs.on)
    case Clearing(_, todo, _, onSelf) => c in todo || (onSelf && c == fs.on)
    case Calling(_, _, onSelf) => onSelf && c == fs.on
    case Sending(_, onSelf) => onSelf && c == fs.on
    case Finishing(onSelf, _) => onSelf && c == fs.on
  }

  /** A request of the flusher's stack covers the address and has not been performed on its own CPU yet. */
  predicate StackCovers(fs: FlusherState, va: Vaddr) {
    if fs.pc.Finishing? then CoversFrom(fs.ops, fs.pc.next, va) else Covers(fs.ops, va)
  }

  predicate FlusherKeeps(fs: FlusherState, c: Cpu, va: Vaddr, fr: Frame) {
    PendingFor(fs, c) && fr in fs.ops.keeper && StackCovers(fs, va)
  }

  /** The handler has taken a request for the address and has not performed it yet. */
  predicate HandCovers(cs: CpuState, va: Vaddr) {
    match cs.handler
    case Acking => Covers(cs.hand, va)
    case Flushing(next) => CoversFrom(cs.hand, next, va)
    case _ => false
  }

  predicate CpuKeeps(cs: CpuState, va: Vaddr, fr: Frame) {
    Holds(cs.queue, va, fr) || (fr in cs.hand.keeper && HandCovers(cs, va))
  }

  /** Some request on its way to the CPU removes the translation and keeps the frame alive until then. */
  predicate Kept(s: State, c: Cpu, va: Vaddr, fr: Frame)
    requires c in s.cpu
  {
    CpuKeeps(s.cpu[c], va, fr) || exists f | f in s.fl :: FlusherKeeps(s.fl[f], c, va, fr)
  }

  predicate Live(s: State, va: Vaddr, fr: Frame) {
    va in s.pt && s.pt[va] == fr
  }

  predicate LiveOrKept(s: State, c: Cpu, va: Vaddr, fr: Frame)
    requires c in s.cpu
  {
    Live(s, va, fr) || Kept(s, c, va, fr)
  }

  ghost predicate StaleInv(s: State) {
    forall c, va | Active(s, c) && va in s.cpu[c].tlb :: LiveOrKept(s, c, va, s.cpu[c].tlb[va])
  }

  lemma EnvStale(s: State, e: EnvAction)
    requires Shape(s) && StaleInv(s) && EnabledEnv(s, e)
    ensures StaleInv(StepEnv(s, e))
  {
    var s' := StepEnv(s, e);
    forall c, va | Active(s', c) && va in s'.cpu[c].tlb ensures LiveOrKept(s', c, va, s'.cpu[c].tlb[va]) {
      var fr := s'.cpu[c].tlb[va];
      if !Live(s', va, fr) {
        assert Active(s, c) && va in s.cpu[c].tlb && s.cpu[c].tlb[va] == fr;
        assert LiveOrKept(s, c, va, fr);
        assert CpuKeeps(s.cpu[c], va, fr) ==> CpuKeeps(s'.cpu[c], va, fr);
      }
    }
  }

  /** The handler drops a request only after performing it. */
  lemma HandlerKeeps(cs: CpuState, h: HandlerAction, va: Vaddr, fr: Frame)
    requires CpuShape(cs) && CpuKeeps(cs, va, fr)
    requires h.TakeIpi? ==> cs.handler.Off?
    requires h.PopCall? ==> cs.handler.Draining?
    requires h.Swap? ==> cs.handler.Swapping?
    requires h.Ack? ==> cs.handler.Acking?
    requires h.FlushOne? ==> cs.handler.Flushing? && !FlushFinished(cs)
    requires h.EndFlush? ==> FlushFinished(cs)
    requires va in HandlerAfter(cs, h).tlb
    ensures CpuKeeps(HandlerAfter(cs, h), va, fr)
  {
    if HandCovers(cs, va) {
      if h.Ack? { CoversFromStart(cs.hand, va); }
      if h.FlushOne? || h.EndFlush? { CoversLater(cs.tlb, cs.hand, cs.handler.next, va); }
    }
  }

  lemma HandlerStale(s: State, c0: Cpu, h: HandlerAction)
    requires Shape(s) && StaleInv(s) && EnabledHandler(s, c0, h)
    ensures StaleInv(StepHandler(s, c0, h))
  {
    var s' := StepHandler(s, c0, h);
    forall c, va | Active(s', c) && va in s'.cpu[c].tlb ensures LiveOrKept(s', c, va, s'.cpu[c].tlb[va]) {
      var fr := s'.cpu[c].tlb[va];
      assert Active(s, c) && va in s.cpu[c].tlb && s.cpu[c].tlb[va] == fr;
      assert LiveOrKept(s, c, va, fr);
      if CpuKeeps(s.cpu[c], va, fr) && c == c0 {
        HandlerKeeps(s.cpu[c], h, va, fr);
      }
    }
  }

  /** A flusher stays responsible for a CPU until it has pushed its requests there or performed them. */
  lemma PendingStays(s: State, f: Flusher, a: FlushAction, c: Cpu)
    requires Shape(s) && EnabledFlush(s, f, a) && Active(s, c)
    requires PendingFor(s.fl[f], c) && a != PushOps(c) && !a.Finish?
    ensures PendingFor(FlusherAfter(s, f, a), c)
  {
    assert FlusherShape(s.cpu.Keys, s.fl[f]);
    if a.LoadWord? {
      assert c in s.targets;
    }
  }

  lemma QueueKeeps(f: Flusher, fs: FlusherState, a: FlushAction, cs: CpuState, va: Vaddr, fr: Frame)
    requires CpuShape(cs) && WellFormed(fs.ops)
    requires a.FlushLocal? ==> fs.pc.Finishing? && fs.pc.next < FlushSteps(fs.ops)
    requires CpuKeeps(cs, va, fr) || (a.PushOps? && Holds(fs.ops, va, fr))
    ensures CpuKeeps(CpuAfter(f, fs, a, cs), va, fr)
  {
    PushFromIncludes(cs.queue, fs.ops);
    if a.PushOps? {
      var q := PushFrom(cs.queue, fs.ops);
      if Holds(cs.queue, va, fr) { IncludesCovers(q, cs.queue, va); }
      if Holds(fs.ops, va, fr) { IncludesCovers(q, fs.ops, va); }
    }
  }

  /** Whoever takes a mapping out of the table holds a request for it. */
  lemma RemovedIsHeld(s: State, fs: FlusherState, a: FlushAction, va: Vaddr)
    requires WellFormed(fs.ops) && va in s.pt
    requires a.Map? ==> a.va !in s.pt
    requires va !in TableAfter(s, a) || TableAfter(s, a)[va] != s.pt[va]
    ensures Holds(OpsAfter(s, fs, a), va, s.pt[va])
  {
    match a
    case Remap(x, fr) => PushOpIncludes(fs.ops, Address(x), {s.pt[x]}); assert CoversOp(Address(x), va);
    case Unmap(x) => PushOpIncludes(fs.ops, Address(x), {s.pt[x]}); assert CoversOp(Address(x), va);
    case UnmapRange(start, end) =>
      PushOpIncludes(fs.ops, Range(start, end), FramesIn(s.pt, start, end));
      assert CoversOp(Range(start, end), va);
    case _ =>
  }

  lemma FlusherStillKeeps(s: State, f: Flusher, a: FlushAction, c: Cpu, va: Vaddr, fr: Frame)
    requires Shape(s) && EnabledFlush(s, f, a) && Active(s, c)
    requires FlusherKeeps(s.fl[f], c, va, fr) && a != PushOps(c) && !a.Finish? && !a.FlushLocal?
    ensures FlusherKeeps(FlusherAfter(s, f, a), c, va, fr)
  {
    assert FlusherShape(s.cpu.Keys, s.fl[f]);
    PendingStays(s, f, a, c);
    OpsShape(s, s.fl[f], a);
    assert !s.fl[f].pc.Finishing?;
    IncludesCovers(OpsAfter(s, s.fl[f], a), s.fl[f].ops, va);
    if a.StartFinishing? { CoversFromStart(s.fl[f].ops, va); }
  }

  /** The local flush lets go of a request only after performing it. */
  lemma LocalFlushKeeps(s: State, f: Flusher, a: FlushAction, c: Cpu, va: Vaddr, fr: Frame)
    requires EnabledFlush(s, f, a) && c in s.cpu && (a.FlushLocal? || a.Finish?)
    requires FlusherKeeps(s.fl[f], c, va, fr)
    requires va in StepFlush(s, f, a).cpu[c].tlb
    ensures a.FlushLocal? && FlusherKeeps(FlusherAfter(s, f, a), c, va, fr)
  {
    CoversLater(s.cpu[c].tlb, s.fl[f].ops, s.fl[f].pc.next, va);
  }

  // A translation that survives a step of a flusher: it was live, or kept by its CPU, or kept by a flusher.

  lemma LiveBefore(s: State, f: Flusher, a: FlushAction, c: Cpu, va: Vaddr, fr: Frame)
    requires Shape(s) && EnabledFlush(s, f, a) && c in s.cpu && Live(s, va, fr)
    ensures LiveOrKept(StepFlush(s, f, a), c, va, fr)
  {
    var s' := StepFlush(s, f, a);
    assert FlusherShape(s.cpu.Keys, s.fl[f]);
    if !Live(s', va, fr) {
      RemovedIsHeld(s, s.fl[f], a, va);
      assert FlusherKeeps(s'.fl[f], c, va, fr);
    }
  }

  lemma CpuKeptBefore(s: State, f: Flusher, a: FlushAction, c: Cpu, va: Vaddr, fr: Frame)
    requires Shape(s) && EnabledFlush(s, f, a) && c in s.cpu
    requires CpuKeeps(s.cpu[c], va, fr) || (a == PushOps(c) && Holds(s.fl[f].ops, va, fr))
    ensures LiveOrKept(StepFlush(s, f, a), c, va, fr)
  {
    assert FlusherShape(s.cpu.Keys, s.fl[f]) && CpuShape(s.cpu[c]);
    QueueKeeps(f, s.fl[f], a, s.cpu[c], va, fr);
    assert CpuKeeps(StepFlush(s, f, a).cpu[c], va, fr);
  }

  lemma FlusherKeptBefore(s: State, f: Flusher, a: FlushAction, c: Cpu, va: Vaddr, fr: Frame)
    requires Shape(s) && EnabledFlush(s, f, a) && Active(s, c)
    requires FlusherKeeps(s.fl[f], c, va, fr)
    requires va in StepFlush(s, f, a).cpu[c].tlb
    ensures LiveOrKept(StepFlush(s, f, a), c, va, fr)
  {
    if a == PushOps(c) {
      CpuKeptBefore(s, f, a, c, va, fr);
    } else if a.FlushLocal? || a.Finish? {
      LocalFlushKeeps(s, f, a, c, va, fr);
      assert f in StepFlush(s, f, a).fl;
    } else {
      FlusherStillKeeps(s, f, a, c, va, fr);
      assert f in StepFlush(s, f, a).fl;
    }
  }

  /** Flushers only ever remove translations. */
  lemma Survives(s: State, f: Flusher, a: FlushAction, c: Cpu, va: Vaddr)
    requires EnabledFlush(s, f, a) && c in s.cpu && va in StepFlush(s, f, a).cpu[c].tlb
    ensures va in s.cpu[c].tlb && s.cpu[c].tlb[va] == StepFlush(s, f, a).cpu[c].tlb[va]
  {}

  lemma OtherKeptBefore(s: State, f: Flusher, a: FlushAction, g: Flusher, c: Cpu, va: Vaddr, fr: Frame)
    requires EnabledFlush(s, f, a) && c in s.cpu && g in s.fl && g != f
    requires FlusherKeeps(s.fl[g], c, va, fr)
    ensures LiveOrKept(StepFlush(s, f, a), c, va, fr)
  {
    assert StepFlush(s, f, a).fl[g] == s.fl[g];
  }

  lemma FlushOneStale(s: State, f: Flusher, a: FlushAction, c: Cpu, va: Vaddr)
    requires Shape(s) && StaleInv(s) && EnabledFlush(s, f, a) && Active(s, c)
    requires var s' := StepFlush(s, f, a); va in s'.cpu[c].tlb
    ensures var s' := StepFlush(s, f, a); LiveOrKept(s', c, va, s'.cpu[c].tlb[va])
  {
    Survives(s, f, a, c, va);
    var fr := s.cpu[c].tlb[va];
    assert LiveOrKept(s, c, va, fr);
    if Live(s, va, fr) {
      LiveBefore(s, f, a, c, va, fr);
    } else if CpuKeeps(s.cpu[c], va, fr) {
      CpuKeptBefore(s, f, a, c, va, fr);
    } else {
      var g :| g in s.fl && FlusherKeeps(s.fl[g], c, va, fr);
      if g == f {
        FlusherKeptBefore(s, f, a, c, va, fr);
      } else {
        OtherKeptBefore(s, f, a, g, c, va, fr);
      }
    }
  }

  lemma FlushStale(s: State, f: Flusher, a: FlushAction)
    requires Shape(s) && StaleInv(s) && EnabledFlush(s, f, a)
    ensures StaleInv(StepFlush(s, f, a))
  {
    var s' := StepFlush(s, f, a);
    forall c, va | Active(s', c) && va in s'.cpu[c].tlb ensures LiveOrKept(s', c, va, s'.cpu[c].tlb[va]) {
      assert Active(s, c);
      FlushOneStale(s, f, a, c, va);
    }
  }

  lemma StepStale(s: State, a: Action)
    requires Shape(s) && StaleInv(s) && Enabled(s, a)
    ensures StaleInv(Step(s, a))
  {
    match a
    case Env(e) => EnvStale(s, e);
    case Flush(f, x) => FlushStale(s, f, x);
    case Handle(c, h) => HandlerStale(s, c, h);
  }
}
