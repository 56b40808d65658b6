/**
 Each dispatch is at one place per target, and performing it removes what it covers.

 The record `performed` is not trusted: this module shows that once a CPU is recorded as having
 performed a dispatch, every translation it still caches for an address the dispatch covers has been
 loaded after the dispatch began.
 */
module ShootdownOnce {
  import opened TlbOps
  import opened Shootdown
  import opened ShootdownStale
  import opened ShootdownSync

  // ---- One place per target ----

  /** The dispatch is running and its flusher has not handed it to this CPU yet. */
  predicate ToGive(s: State, b: Batch, c: Cpu) {
    b.f in s.fl && b.n == s.fl[b.f].n && Dispatching(s.fl[b.f].pc) && PendingFor(s.fl[b.f], c)
  }

  predicate Given(s: State, b: Batch, c: Cpu) {
    (b, c) in s.performed || (c in s.cpu && (b in s.cpu[c].queued || b in s.cpu[c].held))
  }

  predicate OneCopy(s: State, b: Batch, c: Cpu)
    requires c in s.cpu
  {
    && !(b in s.cpu[c].queued && b in s.cpu[c].held)
    && ((b, c) in s.performed ==> b !in s.cpu[c].queued && b !in s.cpu[c].held)
  }

  ghost predicate OnceInv(s: State) {
    && (forall b, c | Given(s, b, c) :: c in s.cpu && b in s.reached && c in s.reached[b] && !ToGive(s, b, c))
    && (forall b, c | c in s.cpu && Given(s, b, c) :: OneCopy(s, b, c))
  }

  /** After the target set has been loaded, a flusher only loses targets. */
  lemma TargetsShrink(s: State, f: Flusher, a: FlushAction, c: Cpu)
    requires Shape(s) && EnabledFlush(s, f, a) && !a.BeginDispatch?
    requires Dispatching(PcAfter(s, f, a)) && PendingFor(FlusherAfter(s, f, a), c)
    ensures Dispatching(s.fl[f].pc) && PendingFor(s.fl[f], c) && a != PushOps(c)
  {
    assert FlusherShape(s.cpu.Keys, s.fl[f]);
  }

  lemma ToGiveBefore(s: State, f: Flusher, a: FlushAction, b: Batch, c: Cpu)
    requires Shape(s) && ContentInv(s) && EnabledFlush(s, f, a) && ToGive(StepFlush(s, f, a), b, c)
    ensures ToGive(s, b, c) || b !in s.content
    ensures a == PushOps(c) ==> b != Current(f, s.fl[f])
    ensures a.Finish? ==> b.f != f
  {
    if b.f == f {
      DispatchAfter(s, f, a);
      if !a.BeginDispatch? {
        TargetsShrink(s, f, a, c);
      }
    }
  }

  /** What one step hands over. */
  lemma GivenBefore(s: State, f: Flusher, a: FlushAction, b: Batch, c: Cpu)
    requires Shape(s) && EnabledFlush(s, f, a) && Given(StepFlush(s, f, a), b, c)
    ensures || Given(s, b, c)
            || (b == Current(f, s.fl[f]) && c in s.cpu && ToGive(s, b, c) && (a == PushOps(c) || a.Finish?))
  {
    assert FlusherShape(s.cpu.Keys, s.fl[f]);
  }

  lemma ReachedGrows(s: State, f: Flusher, a: FlushAction, b: Batch)
    requires ReachInv(s) && EnabledFlush(s, f, a) && b in s.reached
    ensures var s' := StepFlush(s, f, a); b in s'.reached && s'.reached[b] == s.reached[b]
  {
    if a.StartQueueing? {
      assert s.fl[f].pc.Loading?;
      assert b != Current(f, s.fl[f]);
    }
  }

  /** A dispatch past loading has recorded every CPU it still has to reach. */
  predicate PendingReached(s: State, f: Flusher, c: Cpu)
    requires f in s.fl
  {
    Dispatching(s.fl[f].pc) && !s.fl[f].pc.Loading? && PendingFor(s.fl[f], c) ==>
      var b := Current(f, s.fl[f]); b in s.reached && c in s.reached[b]
  }

  ghost predicate PendingInv(s: State) {
    forall f, c | f in s.fl :: PendingReached(s, f, c)
  }

  lemma FlushPending(s: State, f: Flusher, a: FlushAction)
    requires Shape(s) && ReachInv(s) && PendingInv(s) && EnabledFlush(s, f, a)
    ensures PendingInv(StepFlush(s, f, a))
  {
    var s' := StepFlush(s, f, a);
    forall g, c | g in s'.fl ensures PendingReached(s', g, c) {
      if g == f {
        OwnPendingReached(s, f, a, c);
      } else {
        assert PendingReached(s, g, c);
        if Current(g, s.fl[g]) in s.reached { ReachedGrows(s, f, a, Current(g, s.fl[g])); }
      }
    }
  }

  lemma OwnPendingReached(s: State, f: Flusher, a: FlushAction, c: Cpu)
    requires Shape(s) && ReachInv(s) && PendingInv(s) && EnabledFlush(s, f, a)
    ensures PendingReached(StepFlush(s, f, a), f, c)
  {
    var s' := StepFlush(s, f, a);
    var fs' := FlusherAfter(s, f, a);
    if Dispatching(fs'.pc) && !fs'.pc.Loading? && PendingFor(fs', c) {
      DispatchAfter(s, f, a);
      TargetsShrink(s, f, a, c);
      if !a.StartQueueing? {
        LoadedBefore(s, f, a);
        assert PendingReached(s, f, c);
        ReachedGrows(s, f, a, Current(f, s.fl[f]));
      }
    }
  }

  lemma LoadedBefore(s: State, f: Flusher, a: FlushAction)
    requires EnabledFlush(s, f, a) && !a.StartQueueing? && !PcAfter(s, f, a).Loading?
    ensures !s.fl[f].pc.Loading?
  {}

  lemma OtherCopies(s: State, f: Flusher, a: FlushAction, b: Batch, c: Cpu)
    requires EnabledFlush(s, f, a) && c in s.cpu && OneCopy(s, b, c)
    requires b != Current(f, s.fl[f]) || !(a == PushOps(c) || a.Finish?)
    ensures OneCopy(StepFlush(s, f, a), b, c)
  {
    var s' := StepFlush(s, f, a);
    assert (b, c) in s'.performed <==> (b, c) in s.performed;
    assert b in s'.cpu[c].queued <==> b in s.cpu[c].queued;
  }

  lemma FirstCopy(s: State, f: Flusher, a: FlushAction, b: Batch, c: Cpu)
    requires EnabledFlush(s, f, a) && c in s.cpu && !Given(s, b, c) && (a == PushOps(c) || a.Finish?)
    ensures OneCopy(StepFlush(s, f, a), b, c)
  {}

  /** The step records that the flusher has performed its own requests on its own CPU. */
  predicate PerformsOn(s: State, f: Flusher, a: FlushAction, c: Cpu)
    requires EnabledFlush(s, f, a)
  {
    a.Finish? && s.fl[f].pc.onSelf && c == s.fl[f].on
  }

  /** Whoever pushes to a CPU, or performs on it, had it to give. */
  lemma GiverGives(s: State, f: Flusher, a: FlushAction, c: Cpu)
    requires EnabledFlush(s, f, a) && (a == PushOps(c) || PerformsOn(s, f, a, c))
    ensures ToGive(s, Current(f, s.fl[f]), c)
  {}

  lemma CopiesAfter(s: State, f: Flusher, a: FlushAction, b: Batch, c: Cpu)
    requires EnabledFlush(s, f, a) && c in s.cpu
    requires Given(s, b, c) ==> OneCopy(s, b, c) && !ToGive(s, b, c)
    ensures OneCopy(StepFlush(s, f, a), b, c)
  {
    if b != Current(f, s.fl[f]) || !(a == PushOps(c) || a.Finish?) {
      OtherCopies(s, f, a, b, c);
    } else if !Given(s, b, c) {
      FirstCopy(s, f, a, b, c);
    } else if a == PushOps(c) || PerformsOn(s, f, a, c) {
      GiverGives(s, f, a, c);
    } else {
      FinishElsewhere(s, f, a, b, c);
    }
  }

  lemma FinishElsewhere(s: State, f: Flusher, a: FlushAction, b: Batch, c: Cpu)
    requires EnabledFlush(s, f, a) && a.Finish? && c in s.cpu && !PerformsOn(s, f, a, c) && OneCopy(s, b, c)
    ensures OneCopy(StepFlush(s, f, a), b, c)
  {}

  lemma FlushOnce(s: State, f: Flusher, a: FlushAction, b: Batch, c: Cpu)
    requires Shape(s) && ContentInv(s) && ReachInv(s) && PendingInv(s) && OnceInv(s) && EnabledFlush(s, f, a)
    requires Given(StepFlush(s, f, a), b, c)
    ensures var s' := StepFlush(s, f, a);
            c in s'.cpu && b in s'.reached && c in s'.reached[b] && !ToGive(s', b, c)
  {
    GivenBefore(s, f, a, b, c);
    if !Given(s, b, c) {
      assert PendingReached(s, f, c);
    }
    ReachedGrows(s, f, a, b);
    if ToGive(StepFlush(s, f, a), b, c) {
      ToGiveBefore(s, f, a, b, c);
    }
  }

  lemma FlushOnceInv(s: State, f: Flusher, a: FlushAction)
    requires Shape(s) && ContentInv(s) && ReachInv(s) && PendingInv(s) && OnceInv(s) && EnabledFlush(s, f, a)
    ensures OnceInv(StepFlush(s, f, a))
  {
    var s' := StepFlush(s, f, a);
    forall b, c | Given(s', b, c)
      ensures c in s'.cpu && b in s'.reached && c in s'.reached[b] && !ToGive(s', b, c) && OneCopy(s', b, c)
    {
      FlushOnce(s, f, a, b, c);
      CopiesAfter(s, f, a, b, c);
    }
  }

  lemma HandlerOnce(s: State, c: Cpu, h: HandlerAction)
    requires Shape(s) && OnceInv(s) && EnabledHandler(s, c, h)
    ensures OnceInv(StepHandler(s, c, h))
  {
    var s' := StepHandler(s, c, h);
    assert CpuShape(s.cpu[c]);
    forall b, d | Given(s', b, d)
      ensures d in s'.cpu && b in s'.reached && d in s'.reached[b] && !ToGive(s', b, d) && OneCopy(s', b, d)
    {
      assert Given(s, b, d) && OneCopy(s, b, d);
    }
  }

  // ---- Performing a dispatch removes what it covers ----

  /** The dispatch is still going to remove this translation from the CPU. */
  predicate Coming(s: State, b: Batch, c: Cpu, va: Vaddr)
    requires c in s.cpu
  {
    || (ToGive(s, b, c) && StackCovers(s.fl[b.f], va))
    || b in s.cpu[c].queued
    || (b in s.cpu[c].held && HandCovers(s.cpu[c], va))
  }

  /** The dispatch is not meant for this CPU. */
  predicate Missed(s: State, b: Batch, c: Cpu) {
    && b.f in s.fl
    && if b.n == s.fl[b.f].n && s.fl[b.f].pc.Loading? then !PendingFor(s.fl[b.f], c)
       else b.n <= s.fl[b.f].n && !(b in s.reached && c in s.reached[b])
  }

  lemma OwnMissed(s: State, f: Flusher, a: FlushAction, b: Batch, c: Cpu)
    requires Shape(s) && EnabledFlush(s, f, a) && b.f == f && b.n == s.fl[f].n
    requires s.fl[f].pc.Loading? && !PendingFor(s.fl[f], c)
    requires b !in s.reached
    ensures Missed(StepFlush(s, f, a), b, c)
  {
    if a.LoadWord? && PendingFor(FlusherAfter(s, f, a), c) {
      TargetsShrink(s, f, a, c);
    }
  }

  lemma StaysUnreached(s: State, f: Flusher, a: FlushAction, b: Batch, c: Cpu)
    requires EnabledFlush(s, f, a) && b.f == f && b.n <= s.fl[f].n && !(b in s.reached && c in s.reached[b])
    requires b.n == s.fl[f].n ==> Dispatching(s.fl[f].pc) && !s.fl[f].pc.Loading?
    ensures Missed(StepFlush(s, f, a), b, c)
  {}

  lemma MissedStays(s: State, f: Flusher, a: FlushAction, b: Batch, c: Cpu)
    requires Shape(s) && ContentInv(s) && ReachInv(s) && b in s.content && EnabledFlush(s, f, a) && Missed(s, b, c)
    ensures Missed(StepFlush(s, f, a), b, c)
  {
    if b.f == f {
      if b.n == s.fl[f].n && s.fl[f].pc.Loading? {
        OwnMissed(s, f, a, b, c);
      } else {
        StaysUnreached(s, f, a, b, c);
      }
    } else {
      assert StepFlush(s, f, a).fl[b.f] == s.fl[b.f];
    }
  }

  lemma LoadingComing(s: State, f: Flusher, a: FlushAction, c: Cpu)
    requires Shape(s) && EnabledFlush(s, f, a) && c in s.cpu && (a.LoadWord? || a.StartQueueing?)
    requires PendingFor(s.fl[f], c)
    ensures var s', b := StepFlush(s, f, a), Current(f, s.fl[f]); ToGive(s', b, c) || Missed(s', b, c)
  {
    assert FlusherShape(s.cpu.Keys, s.fl[f]);
  }

  lemma LoadedComing(s: State, f: Flusher, a: FlushAction, c: Cpu)
    requires Shape(s) && EnabledFlush(s, f, a) && c in s.cpu && !(a.LoadWord? || a.StartQueueing? || a.Finish?)
    requires Dispatching(s.fl[f].pc) && PendingFor(s.fl[f], c)
    ensures var s', b := StepFlush(s, f, a), Current(f, s.fl[f]); ToGive(s', b, c) || b in s'.cpu[c].queued
  {
    if a == PushOps(c) {
      assert Touches(s, f, a, c);
    } else {
      DispatchAfter(s, f, a);
      LoadedPending(s, f, a, c);
    }
  }

  lemma LoadedPending(s: State, f: Flusher, a: FlushAction, c: Cpu)
    requires Shape(s) && EnabledFlush(s, f, a) && PendingFor(s.fl[f], c) && Dispatching(s.fl[f].pc)
    requires !a.LoadWord? && !a.StartQueueing? && a != PushOps(c) && !a.Finish?
    ensures PendingFor(FlusherAfter(s, f, a), c)
  {
    assert FlusherShape(s.cpu.Keys, s.fl[f]);
  }

  /** While the dispatch goes on, its stack covers a surviving translation as before. */
  lemma StackStillCovers(s: State, f: Flusher, a: FlushAction, c: Cpu, va: Vaddr)
    requires EnabledFlush(s, f, a) && c in s.cpu && Dispatching(s.fl[f].pc) && PendingFor(s.fl[f], c)
    requires StackCovers(s.fl[f], va) && va in StepFlush(s, f, a).cpu[c].tlb
    ensures !a.Finish? && StackCovers(FlusherAfter(s, f, a), va)
  {
    if s.fl[f].pc.Finishing? {
      CoversLater(s.cpu[c].tlb, s.fl[f].ops, s.fl[f].pc.next, va);
    } else if a.StartFinishing? {
      CoversFromStart(s.fl[f].ops, va);
    }
  }

  lemma OwnFlushComing(s: State, f: Flusher, a: FlushAction, b: Batch, c: Cpu, va: Vaddr)
    requires Shape(s) && EnabledFlush(s, f, a) && c in s.cpu
    requires ToGive(s, b, c) && b.f == f && StackCovers(s.fl[f], va)
    requires va in StepFlush(s, f, a).cpu[c].tlb
    ensures var s' := StepFlush(s, f, a); Coming(s', b, c, va) || Missed(s', b, c)
  {
    StackStillCovers(s, f, a, c, va);
    assert b == Current(f, s.fl[f]);
    if a.LoadWord? || a.StartQueueing? {
      LoadingComing(s, f, a, c);
    } else {
      LoadedComing(s, f, a, c);
    }
  }

  lemma FlushComing(s: State, f: Flusher, a: FlushAction, b: Batch, c: Cpu, va: Vaddr)
    requires Shape(s) && EnabledFlush(s, f, a) && c in s.cpu && Coming(s, b, c, va)
    requires va in StepFlush(s, f, a).cpu[c].tlb
    ensures var s' := StepFlush(s, f, a); Coming(s', b, c, va) || Missed(s', b, c)
  {
    if ToGive(s, b, c) && StackCovers(s.fl[b.f], va) {
      if b.f == f {
        OwnFlushComing(s, f, a, b, c, va);
      } else {
        assert StepFlush(s, f, a).fl[b.f] == s.fl[b.f];
      }
    } else {
      HandUnchanged(s, f, a, c);
    }
  }

  lemma HandUnchanged(s: State, f: Flusher, a: FlushAction, c: Cpu)
    requires EnabledFlush(s, f, a) && c in s.cpu
    ensures var cs, cs' := s.cpu[c], StepFlush(s, f, a).cpu[c];
            cs'.hand == cs.hand && cs'.held == cs.held && cs'.handler == cs.handler && cs.queued <= cs'.queued
  {}

  lemma HandStillCovers(cs: CpuState, h: HandlerAction, va: Vaddr)
    requires CpuShape(cs) && HandCovers(cs, va)
    requires h.TakeIpi? || h.PopCall? || h.Swap? ==> !cs.handler.Acking? && !cs.handler.Flushing?
    requires h.Ack? ==> cs.handler.Acking?
    requires h.FlushOne? ==> cs.handler.Flushing? && !FlushFinished(cs)
    requires h.EndFlush? ==> FlushFinished(cs)
    requires va in HandlerAfter(cs, h).tlb
    ensures HandCovers(HandlerAfter(cs, h), va) && HandlerAfter(cs, h).held == cs.held
  {
    if h.Ack? {
      CoversFromStart(cs.hand, va);
    } else {
      CoversLater(cs.tlb, cs.hand, cs.handler.next, va);
    }
  }

  lemma HandlerComing(s: State, d: Cpu, h: HandlerAction, b: Batch, c: Cpu, va: Vaddr)
    requires Shape(s) && CarryInv(s) && EnabledHandler(s, d, h) && c in s.cpu
    requires b in s.content && Covers(s.content[b], va) && Coming(s, b, c, va)
    requires va in StepHandler(s, d, h).cpu[c].tlb
    ensures Coming(StepHandler(s, d, h), b, c, va)
  {
    var cs := s.cpu[c];
    assert CpuShape(cs) && Carries(cs, s.content);
    if d == c && !(ToGive(s, b, c) && StackCovers(s.fl[b.f], va)) {
      if b in cs.queued {
        IncludesCovers(cs.queue, s.content[b], va);
      } else {
        HandStillCovers(cs, h, va);
      }
    }
  }
}
