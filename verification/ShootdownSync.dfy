/**
 Acknowledgements and delivery.

 Any number of dispatchers share one queue and one acknowledgement flag per CPU. The invariants here
 say who answers for each dispatch that still sits in a queue, that queues and handlers carry all that
 the dispatches put into them, and that a CPU that has not acknowledged is going to be called.
 */
module ShootdownSync {
  import opened TlbOps
  import opened Shootdown
  import opened ShootdownStale

  // ---- The lock around each queue ----

  predicate ClearingAt(fs: FlusherState, c: Cpu) {
    fs.pc.Clearing? && fs.pc.c == c
  }

  predicate LockInv(s: State) {
    && (forall f, g | f in s.fl && g in s.fl && s.fl[f].pc.Clearing? && ClearingAt(s.fl[g], s.fl[f].pc.c) :: f == g)
    && (forall f | f in s.fl && s.fl[f].pc.Clearing? && s.fl[f].pc.c in s.cpu :: !s.cpu[s.fl[f].pc.c].handler.Acking?)
  }

  lemma FlushLock(s: State, f: Flusher, a: FlushAction)
    requires LockInv(s) && EnabledFlush(s, f, a)
    ensures LockInv(StepFlush(s, f, a))
  {
    var s' := StepFlush(s, f, a);
    assert s'.fl[f].pc.Clearing? ==> a.PushOps?;
    assert forall c | c in s.cpu :: s'.cpu[c].handler == s.cpu[c].handler;
    assert forall g | g in s.fl && g != f :: s'.fl[g] == s.fl[g];
  }

  lemma HandlerLock(s: State, c: Cpu, h: HandlerAction)
    requires LockInv(s) && EnabledHandler(s, c, h)
    ensures LockInv(StepHandler(s, c, h))
  {
  }

  // ---- Who answers for a dispatch in a queue ----

  /**
   The dispatcher is still about to clear the acknowledgement, or it is clear and the dispatcher will
   wait for it.
   */
  predicate Answers(fs: FlusherState, c: Cpu, ack: bool) {
    ClearingAt(fs, c) || (!ack && if fs.pc.Syncing? then c in fs.pc.todo else c in fs.unsynced)
  }

  predicate AckInv(s: State) {
    forall c | c in s.cpu ::
      && (s.cpu[c].handler.Acking? ==> s.cpu[c].queued == {})
      && (forall b | b in s.cpu[c].queued :: b.f in s.fl && Answers(s.fl[b.f], c, s.cpu[c].ack))
  }

  predicate AboutAck(a: FlushAction) {
    a.PushOps? || a.ClearAck? || a.BeginSync? || a.SyncOne? || a.EndSync?
  }

  lemma OwnAnswersAck(s: State, f: Flusher, a: FlushAction, c: Cpu)
    requires Shape(s) && EnabledFlush(s, f, a) && c in s.cpu && AboutAck(a)
    requires Answers(s.fl[f], c, s.cpu[c].ack) || a == PushOps(c)
    ensures Answers(FlusherAfter(s, f, a), c, StepFlush(s, f, a).cpu[c].ack)
  {
    assert FlusherShape(s.cpu.Keys, s.fl[f]);
  }

  lemma OwnAnswersStay(s: State, f: Flusher, a: FlushAction, c: Cpu)
    requires EnabledFlush(s, f, a) && c in s.cpu && !AboutAck(a) && Answers(s.fl[f], c, s.cpu[c].ack)
    ensures Answers(FlusherAfter(s, f, a), c, StepFlush(s, f, a).cpu[c].ack)
  {}

  lemma OwnAnswers(s: State, f: Flusher, a: FlushAction, c: Cpu)
    requires Shape(s) && EnabledFlush(s, f, a) && c in s.cpu
    requires Answers(s.fl[f], c, s.cpu[c].ack) || a == PushOps(c)
    ensures Answers(FlusherAfter(s, f, a), c, StepFlush(s, f, a).cpu[c].ack)
  {
    if AboutAck(a) { OwnAnswersAck(s, f, a, c); } else { OwnAnswersStay(s, f, a, c); }
  }

  lemma OthersAnswer(s: State, f: Flusher, a: FlushAction, g: Flusher, c: Cpu)
    requires EnabledFlush(s, f, a) && g in s.fl && c in s.cpu
    requires Answers(s.fl[g], c, s.cpu[c].ack)
    ensures Answers(s.fl[g], c, StepFlush(s, f, a).cpu[c].ack)
  {}

  lemma FlushAnswers(s: State, f: Flusher, a: FlushAction, c: Cpu, b: Batch)
    requires Shape(s) && AckInv(s) && EnabledFlush(s, f, a)
    requires c in s.cpu && b in StepFlush(s, f, a).cpu[c].queued
    ensures var s' := StepFlush(s, f, a); b.f in s'.fl && Answers(s'.fl[b.f], c, s'.cpu[c].ack)
  {
    if b !in s.cpu[c].queued {
      assert a == PushOps(c) && b.f == f;
    }
    if b.f == f {
      OwnAnswers(s, f, a, c);
    } else {
      OthersAnswer(s, f, a, b.f, c);
    }
  }

  lemma FlushAck(s: State, f: Flusher, a: FlushAction)
    requires Shape(s) && AckInv(s) && EnabledFlush(s, f, a)
    ensures AckInv(StepFlush(s, f, a))
  {
    var s' := StepFlush(s, f, a);
    forall c | c in s'.cpu
      ensures s'.cpu[c].handler.Acking? ==> s'.cpu[c].queued == {}
      ensures forall b | b in s'.cpu[c].queued :: b.f in s'.fl && Answers(s'.fl[b.f], c, s'.cpu[c].ack)
    {
      forall b | b in s'.cpu[c].queued ensures b.f in s'.fl && Answers(s'.fl[b.f], c, s'.cpu[c].ack) {
        FlushAnswers(s, f, a, c, b);
      }
    }
  }

  lemma HandlerAck(s: State, c: Cpu, h: HandlerAction)
    requires AckInv(s) && EnabledHandler(s, c, h)
    ensures AckInv(StepHandler(s, c, h))
  {
  }

  /** When `sync_tlb_flush` returns, none of this flusher's dispatches is left in any queue. */
  lemma SyncEmptiesQueues(s: State, f: Flusher, c: Cpu, b: Batch)
    requires AckInv(s) && EnabledFlush(s, f, EndSync) && c in s.cpu && b in s.cpu[c].queued
    ensures b.f != f
  {
  }

  // ---- What queues and handlers carry ----

  /** The record of each dispatch is written once, when it starts. */
  predicate Recorded(fl: map<Flusher, FlusherState>, content: map<Batch, Ops>) {
    && (forall f | f in fl && Dispatching(fl[f].pc) ::
          Current(f, fl[f]) in content && content[Current(f, fl[f])] == fl[f].ops)
    && (forall b | b in content ::
          b.f in fl && b.n <= fl[b.f].n && (b.n == fl[b.f].n ==> Dispatching(fl[b.f].pc)))
  }

  predicate ContentInv(s: State) {
    Recorded(s.fl, s.content)
  }

  predicate Grows(content: map<Batch, Ops>, content': map<Batch, Ops>) {
    forall b | b in content :: b in content' && content'[b] == content[b]
  }

  lemma DispatchAfter(s: State, f: Flusher, a: FlushAction)
    requires Shape(s) && EnabledFlush(s, f, a)
    ensures var fs, fs' := s.fl[f], FlusherAfter(s, f, a);
            && (Dispatching(fs'.pc) <==> (Dispatching(fs.pc) && !a.Finish?) || (a.BeginDispatch? && !IsEmpty(fs.ops)))
            && (Dispatching(fs'.pc) ==> fs'.ops == fs.ops && fs'.n == fs.n)
            && (fs'.n == if a.Finish? then fs.n + 1 else fs.n)
            && (a.BeginDispatch? ==> !Dispatching(fs.pc))
  {
    assert FlusherShape(s.cpu.Keys, s.fl[f]);
  }

  lemma RecordOne(fl: map<Flusher, FlusherState>, content: map<Batch, Ops>, f: Flusher, fs': FlusherState, begins: bool)
    requires Recorded(fl, content) && f in fl
    requires begins ==> !Dispatching(fl[f].pc) && Dispatching(fs'.pc)
    requires Dispatching(fs'.pc) ==> (begins || Dispatching(fl[f].pc)) && fs'.ops == fl[f].ops && fs'.n == fl[f].n
    requires fs'.n == fl[f].n ==> Dispatching(fl[f].pc) ==> Dispatching(fs'.pc)
    requires fl[f].n <= fs'.n
    ensures var content' := if begins then content[Current(f, fl[f]) := fl[f].ops] else content;
            Recorded(fl[f := fs'], content') && Grows(content, content')
  {}

  lemma FlushContent(s: State, f: Flusher, a: FlushAction)
    requires Shape(s) && ContentInv(s) && EnabledFlush(s, f, a)
    ensures ContentInv(StepFlush(s, f, a)) && Grows(s.content, StepFlush(s, f, a).content)
  {
    DispatchAfter(s, f, a);
    RecordOne(s.fl, s.content, f, FlusherAfter(s, f, a), a.BeginDispatch? && !IsEmpty(s.fl[f].ops));
  }

  predicate Carries(cs: CpuState, content: map<Batch, Ops>) {
    && (cs.queued == {} ==> cs.queue == NO_OPS)
    && (forall b | b in cs.queued :: b in content && Includes(cs.queue, content[b]))
    && (forall b | b in cs.held :: b in content && Includes(cs.hand, content[b]))
  }

  predicate CarryInv(s: State) {
    forall c | c in s.cpu :: Carries(s.cpu[c], s.content)
  }

  lemma PushCarries(f: Flusher, fs: FlusherState, c: Cpu, cs: CpuState, content: map<Batch, Ops>)
    requires CpuShape(cs) && WellFormed(fs.ops) && Carries(cs, content)
    requires Current(f, fs) in content && content[Current(f, fs)] == fs.ops
    ensures Carries(CpuAfter(f, fs, PushOps(c), cs), content)
  {
    var q := PushFrom(cs.queue, fs.ops);
    PushFromIncludes(cs.queue, fs.ops);
    forall b | b in cs.queued ensures Includes(q, content[b]) {
      IncludesTransitive(q, cs.queue, content[b]);
    }
  }

  lemma FlushCarries(s: State, f: Flusher, a: FlushAction)
    requires Shape(s) && ContentInv(s) && CarryInv(s) && EnabledFlush(s, f, a)
    ensures CarryInv(StepFlush(s, f, a))
  {
    var s' := StepFlush(s, f, a);
    FlushContent(s, f, a);
    forall c | c in s'.cpu ensures Carries(s'.cpu[c], s'.content) {
      assert CpuShape(s.cpu[c]) && Carries(s.cpu[c], s.content) && FlusherShape(s.cpu.Keys, s.fl[f]);
      if a == PushOps(c) {
        PushCarries(f, s.fl[f], c, s.cpu[c], s.content);
      } else {
        SameHands(s, f, a, c);
        CarriesMore(s.cpu[c], s'.cpu[c], s.content, s'.content);
      }
    }
  }

  predicate SameLoad(cs: CpuState, cs': CpuState) {
    cs'.queue == cs.queue && cs'.queued == cs.queued && cs'.hand == cs.hand && cs'.held == cs.held
  }

  lemma SameHands(s: State, f: Flusher, a: FlushAction, c: Cpu)
    requires EnabledFlush(s, f, a) && c in s.cpu && a != PushOps(c)
    ensures SameLoad(s.cpu[c], StepFlush(s, f, a).cpu[c])
  {}

  lemma CarriesMore(cs: CpuState, cs': CpuState, content: map<Batch, Ops>, content': map<Batch, Ops>)
    requires Carries(cs, content) && SameLoad(cs, cs') && Grows(content, content')
    ensures Carries(cs', content')
  {}

  lemma HandlerCarries(s: State, c: Cpu, h: HandlerAction)
    requires Shape(s) && CarryInv(s) && EnabledHandler(s, c, h)
    ensures CarryInv(StepHandler(s, c, h))
  {
    assert CpuShape(s.cpu[c]) && Carries(s.cpu[c], s.content);
    HandlerCarriesOne(s.cpu[c], h, s.content);
  }

  lemma HandlerCarriesOne(cs: CpuState, h: HandlerAction, content: map<Batch, Ops>)
    requires CpuShape(cs) && Carries(cs, content)
    requires h.FlushOne? ==> cs.handler.Flushing? && !FlushFinished(cs)
    ensures Carries(HandlerAfter(cs, h), content)
  {}

  // ---- Every dispatch reaches each of its targets ----

  /** The CPU has performed the dispatch, or has it in its queue or its hands, or is going to get it. */
  predicate Underway(s: State, b: Batch, c: Cpu)
    requires b.f in s.fl && c in s.cpu
  {
    || (b, c) in s.performed
    || b in s.cpu[c].queued
    || b in s.cpu[c].held
    || (b.n == s.fl[b.f].n && PendingFor(s.fl[b.f], c))
  }

  predicate ReachInv(s: State) {
    forall b | b in s.reached ::
      && b in s.content && b.f in s.fl
      && (b.n == s.fl[b.f].n ==> Dispatching(s.fl[b.f].pc) && !s.fl[b.f].pc.Loading?)
      && (forall c | c in s.reached[b] :: c in s.cpu && Underway(s, b, c))
  }

  lemma OwnUnderway(s: State, f: Flusher, a: FlushAction, c: Cpu)
    requires Shape(s) && EnabledFlush(s, f, a) && c in s.cpu
    requires PendingFor(s.fl[f], c) && Dispatching(s.fl[f].pc) && !s.fl[f].pc.Loading?
    ensures Underway(StepFlush(s, f, a), Current(f, s.fl[f]), c)
  {
    assert FlusherShape(s.cpu.Keys, s.fl[f]);
    var s' := StepFlush(s, f, a);
    if a.PushOps? || a.Finish? {
      assert s'.cpu[c] == if Touches(s, f, a, c) then CpuAfter(f, s.fl[f], a, s.cpu[c]) else s.cpu[c];
    }
  }

  lemma FlushUnderway(s: State, f: Flusher, a: FlushAction, b: Batch, c: Cpu)
    requires Shape(s) && ReachInv(s) && EnabledFlush(s, f, a)
    requires b in s.reached && c in s.reached[b] && c in s.cpu
    ensures Underway(StepFlush(s, f, a), b, c)
  {
    var s' := StepFlush(s, f, a);
    assert Underway(s, b, c);
    if b.f == f && b.n == s.fl[f].n && PendingFor(s.fl[f], c) {
      OwnUnderway(s, f, a, c);
      assert b == Current(f, s.fl[f]);
    } else {
      assert b.f != f ==> s'.fl[b.f] == s.fl[b.f];
    }
  }

  lemma TargetsUnderway(s: State, f: Flusher, c: Cpu)
    requires Shape(s) && EnabledFlush(s, f, StartQueueing) && c in s.fl[f].pc.acc
    ensures c in s.cpu && Underway(StepFlush(s, f, StartQueueing), Current(f, s.fl[f]), c)
  {
    assert FlusherShape(s.cpu.Keys, s.fl[f]);
  }

  lemma NotLoading(s: State, f: Flusher, a: FlushAction)
    requires EnabledFlush(s, f, a)
    requires (Dispatching(s.fl[f].pc) && !s.fl[f].pc.Loading? && !a.Finish?) || a.StartQueueing?
    ensures Dispatching(PcAfter(s, f, a)) && !PcAfter(s, f, a).Loading?
  {}

  lemma ReachedDispatch(s: State, f: Flusher, a: FlushAction, b: Batch)
    requires Shape(s) && ContentInv(s) && ReachInv(s) && EnabledFlush(s, f, a) && b in StepFlush(s, f, a).reached
    ensures var s' := StepFlush(s, f, a);
            && b in s'.content && b.f in s'.fl
            && (b.n == s'.fl[b.f].n ==> Dispatching(s'.fl[b.f].pc) && !s'.fl[b.f].pc.Loading?)
  {
    FlushContent(s, f, a);
    DispatchAfter(s, f, a);
    if b.f == f && b.n == FlusherAfter(s, f, a).n {
      NotLoading(s, f, a);
    }
  }

  lemma FlushReach(s: State, f: Flusher, a: FlushAction)
    requires Shape(s) && ContentInv(s) && ReachInv(s) && EnabledFlush(s, f, a)
    ensures ReachInv(StepFlush(s, f, a))
  {
    var s' := StepFlush(s, f, a);
    var starts := a.StartQueueing?;
    var b0 := Current(f, s.fl[f]);
    assert s'.reached == if starts then s.reached[b0 := s.fl[f].pc.acc] else s.reached;
    forall b | b in s'.reached
      ensures b in s'.content && b.f in s'.fl
      ensures b.n == s'.fl[b.f].n ==> Dispatching(s'.fl[b.f].pc) && !s'.fl[b.f].pc.Loading?
      ensures forall c | c in s'.reached[b] :: c in s'.cpu && Underway(s', b, c)
    {
      ReachedDispatch(s, f, a, b);
      forall c | c in s'.reached[b] ensures c in s'.cpu && Underway(s', b, c) {
        if starts && b == b0 {
          TargetsUnderway(s, f, c);
        } else {
          FlushUnderway(s, f, a, b, c);
        }
      }
    }
  }

  lemma HandlerReach(s: State, c: Cpu, h: HandlerAction)
    requires Shape(s) && ReachInv(s) && EnabledHandler(s, c, h)
    ensures ReachInv(StepHandler(s, c, h))
  {
    var s' := StepHandler(s, c, h);
    assert CpuShape(s.cpu[c]);
    forall b, d | b in s.reached && d in s.reached[b] ensures d in s'.cpu && Underway(s', b, d) {
      assert Underway(s, b, d);
      if h.EndFlush? && d == c && b in s.cpu[c].held {
        assert (b, c) in s'.performed;
      }
    }
  }

  // ---- A CPU that has not acknowledged is going to be called ----

  predicate OwesCall(fs: FlusherState, c: Cpu) {
    match fs.pc
    case Queueing(todo, remote, _) => c in remote && c !in todo
    case Clearing(_, todo, remote, _) => c in remote && c !in todo
    case Calling(todo, _, _) => c in todo
    case _ => false
  }

  predicate OwesInterrupt(fs: FlusherState, c: Cpu) {
    match fs.pc
    case Calling(todo, remote, _) => c in remote && c !in todo
    case Sending(todo, _) => c in todo
    case _ => false
  }

  predicate CallComing(s: State, c: Cpu)
    requires c in s.cpu
  {
    || s.cpu[c].calls > 0 || s.cpu[c].handler.Swapping? || s.cpu[c].handler.Acking?
    || exists f | f in s.fl :: OwesCall(s.fl[f], c)
  }

  predicate InterruptComing(s: State, c: Cpu)
    requires c in s.cpu
  {
    s.cpu[c].ipi || !s.cpu[c].handler.Off? || exists f | f in s.fl :: OwesInterrupt(s.fl[f], c)
  }

  predicate CallInv(s: State) {
    forall c | c in s.cpu ::
      (!s.cpu[c].ack ==> CallComing(s, c)) && (s.cpu[c].calls > 0 ==> InterruptComing(s, c))
  }

  lemma OwesCallAfter(s: State, f: Flusher, a: FlushAction, c: Cpu)
    requires Shape(s) && EnabledFlush(s, f, a)
    requires OwesCall(s.fl[f], c) || (a.ClearAck? && c == s.fl[f].pc.c)
    ensures OwesCall(FlusherAfter(s, f, a), c) || a == PushCall(c)
  {
    assert FlusherShape(s.cpu.Keys, s.fl[f]);
  }

  lemma OwesInterruptAfter(s: State, f: Flusher, a: FlushAction, c: Cpu)
    requires Shape(s) && EnabledFlush(s, f, a)
    requires OwesInterrupt(s.fl[f], c) || a == PushCall(c)
    ensures OwesInterrupt(FlusherAfter(s, f, a), c) || a == SendIpi(c)
  {
    assert FlusherShape(s.cpu.Keys, s.fl[f]);
  }

  lemma OthersOwe(s: State, f: Flusher, a: FlushAction, g: Flusher, c: Cpu)
    requires EnabledFlush(s, f, a) && g in s.fl && g != f && c in s.cpu
    ensures OwesCall(s.fl[g], c) ==> CallComing(StepFlush(s, f, a), c)
    ensures OwesInterrupt(s.fl[g], c) ==> InterruptComing(StepFlush(s, f, a), c)
  {
    assert StepFlush(s, f, a).fl[g] == s.fl[g];
  }

  /** No flusher takes a call or an interrupt back. */
  lemma CpuStillCalled(s: State, f: Flusher, a: FlushAction, c: Cpu)
    requires EnabledFlush(s, f, a) && c in s.cpu
    ensures var cs, cs' := s.cpu[c], StepFlush(s, f, a).cpu[c];
            && cs'.calls >= cs.calls && (cs.ipi ==> cs'.ipi) && cs'.handler == cs.handler
            && (a == PushCall(c) ==> cs'.calls > 0) && (a == SendIpi(c) ==> cs'.ipi)
  {}

  lemma FlushCallComing(s: State, f: Flusher, a: FlushAction, c: Cpu)
    requires Shape(s) && EnabledFlush(s, f, a) && c in s.cpu
    requires CallComing(s, c) || (a.ClearAck? && c == s.fl[f].pc.c)
    ensures CallComing(StepFlush(s, f, a), c)
  {
    CpuStillCalled(s, f, a, c);
    if OwesCall(s.fl[f], c) || (a.ClearAck? && c == s.fl[f].pc.c) {
      OwesCallAfter(s, f, a, c);
      assert f in StepFlush(s, f, a).fl;
    } else if g :| g in s.fl && OwesCall(s.fl[g], c) {
      OthersOwe(s, f, a, g, c);
    }
  }

  lemma FlushInterruptComing(s: State, f: Flusher, a: FlushAction, c: Cpu)
    requires Shape(s) && EnabledFlush(s, f, a) && c in s.cpu
    requires InterruptComing(s, c) || a == PushCall(c)
    ensures InterruptComing(StepFlush(s, f, a), c)
  {
    CpuStillCalled(s, f, a, c);
    if OwesInterrupt(s.fl[f], c) || a == PushCall(c) {
      OwesInterruptAfter(s, f, a, c);
      assert f in StepFlush(s, f, a).fl;
    } else if g :| g in s.fl && OwesInterrupt(s.fl[g], c) {
      OthersOwe(s, f, a, g, c);
    }
  }

  lemma FlushCalls(s: State, f: Flusher, a: FlushAction)
    requires Shape(s) && CallInv(s) && EnabledFlush(s, f, a)
    ensures CallInv(StepFlush(s, f, a))
  {
    var s' := StepFlush(s, f, a);
    forall c | c in s'.cpu
      ensures !s'.cpu[c].ack ==> CallComing(s', c)
      ensures s'.cpu[c].calls > 0 ==> InterruptComing(s', c)
    {
      if !s'.cpu[c].ack { FlushCallComing(s, f, a, c); }
      if s'.cpu[c].calls > 0 { FlushInterruptComing(s, f, a, c); }
    }
  }

  lemma HandlerCalls(s: State, c: Cpu, h: HandlerAction)
    requires CallInv(s) && EnabledHandler(s, c, h)
    ensures CallInv(StepHandler(s, c, h))
  {
    var s' := StepHandler(s, c, h);
    forall d | d in s'.cpu
      ensures !s'.cpu[d].ack ==> CallComing(s', d)
      ensures s'.cpu[d].calls > 0 ==> InterruptComing(s', d)
    {
      assert !s.cpu[d].ack ==> CallComing(s, d);
      assert s.cpu[d].calls > 0 ==> InterruptComing(s, d);
    }
  }
}
