/**
 The window in which a CPU is no target any more and still runs on the old table.

 `activate` takes the CPU out of the target set of the space it leaves before it loads the next table.
 A dispatch that falls between the two does not reach the CPU, and the frame it releases stays in the
 CPU's TLB. This module shows that this happens, and that nothing else lets it happen.
 */
module ShootdownWindow {
  import opened TlbOps
  import opened Shootdown
  import opened ShootdownStale
  import opened ShootdownTheorems

  /** A CPU reaches a released frame through a translation that the table has dropped. */
  predicate Dangling(s: State, c: Cpu, va: Vaddr, fr: Frame) {
    c in s.cpu && va in s.cpu[c].tlb && s.cpu[c].tlb[va] == fr && Released(s, fr) && !Live(s, va, fr)
  }

  /** Nobody but `f` keeps the frame. */
  predicate ReleasedBut(s: State, f: Flusher, fr: Frame) {
    && (forall g | g in s.fl && g != f :: fr !in s.fl[g].ops.keeper)
    && (forall d | d in s.cpu :: fr !in s.cpu[d].queue.keeper && fr !in s.cpu[d].hand.keeper)
  }

  /** The CPU is leaving with a translation cached, nobody else is a target, and at most `f` keeps the frame. */
  predicate Exposed(s: State, f: Flusher, c: Cpu, va: Vaddr, fr: Frame) {
    && Leaving(s, c) && va in s.cpu[c].tlb && s.cpu[c].tlb[va] == fr && s.targets == {}
    && ReleasedBut(s, f, fr) && f in s.fl && s.fl[f].on in s.cpu
  }

  /** The steps of a dispatch that finds no target. */
  predicate Idle(a: FlushAction) {
    || a.BeginDispatch? || a.LoadWord? || a.StartQueueing? || a.StartCalling? || a.StartSending?
    || a.StartFinishing? || a.Finish?
  }

  lemma ExposedStays(s0: State, s: State, f: Flusher, a: FlushAction, c: Cpu, va: Vaddr, fr: Frame)
    requires Reachable(s0, s) && Exposed(s, f, c, va, fr) && Idle(a) && EnabledFlush(s, f, a)
    ensures var s' := StepFlush(s, f, a);
            && Reachable(s0, s') && Exposed(s', f, c, va, fr)
            && s'.pt == s.pt && s'.words == s.words && s'.fl[f] == FlusherAfter(s, f, a)
  {
    Extend(s0, s, Flush(f, a));
    var s' := StepFlush(s, f, a);
    assert s'.cpu == s.cpu;
    assert forall g | g in s.fl && g != f :: s'.fl[g] == s.fl[g];
  }

  /** The loads of the words of an empty target set. */
  lemma {:induction false} LoadsNothing(s0: State, s: State, f: Flusher, c: Cpu, va: Vaddr, fr: Frame)
    returns (r: State)
    requires Reachable(s0, s) && Exposed(s, f, c, va, fr) && va !in s.pt
    requires s.fl[f].pc.Loading? && s.fl[f].pc.acc == {} && s.fl[f].pc.k <= s.words
    ensures Reachable(s0, r) && Exposed(r, f, c, va, fr) && va !in r.pt && r.fl[f].pc == Loading(r.words, {})
    decreases s.words - s.fl[f].pc.k
  {
    r := s;
    if s.fl[f].pc.k < s.words {
      ExposedStays(s0, s, f, LoadWord, c, va, fr);
      r := LoadsNothing(s0, StepFlush(s, f, LoadWord), f, c, va, fr);
    }
  }

  /** Nobody to push to or to call. */
  lemma CallsNobody(s0: State, s: State, f: Flusher, c: Cpu, va: Vaddr, fr: Frame) returns (r: State)
    requires Reachable(s0, s) && Exposed(s, f, c, va, fr) && va !in s.pt && s.fl[f].pc == Loading(s.words, {})
    ensures Reachable(s0, r) && Exposed(r, f, c, va, fr) && va !in r.pt && r.fl[f].pc == Calling({}, {}, false)
  {
    ExposedStays(s0, s, f, StartQueueing, c, va, fr);
    var s1 := StepFlush(s, f, StartQueueing);
    assert s1.fl[f].pc == Queueing({}, {}, false);
    ExposedStays(s0, s1, f, StartCalling, c, va, fr);
    r := StepFlush(s1, f, StartCalling);
  }

  /** Nobody to interrupt or to flush; the frame is released at the end. */
  lemma FlushesNobody(s0: State, s: State, f: Flusher, c: Cpu, va: Vaddr, fr: Frame) returns (r: State)
    requires Reachable(s0, s) && Exposed(s, f, c, va, fr) && va !in s.pt && s.fl[f].pc == Calling({}, {}, false)
    ensures Reachable(s0, r) && Leaving(r, c) && Dangling(r, c, va, fr)
  {
    ExposedStays(s0, s, f, StartSending, c, va, fr);
    var s1 := StepFlush(s, f, StartSending);
    ExposedStays(s0, s1, f, StartFinishing, c, va, fr);
    var s2 := StepFlush(s1, f, StartFinishing);
    ExposedStays(s0, s2, f, Finish, c, va, fr);
    r := StepFlush(s2, f, Finish);
  }

  /** Unmapping the page while the CPU is leaving. */
  lemma UnmapsExposed(s0: State, s: State, f: Flusher, c: Cpu, va: Vaddr, fr: Frame)
    requires Reachable(s0, s) && Exposed(s, f, c, va, fr) && Live(s, va, fr)
    requires s.fl[f].pc.Working? && s.fl[f].ops == NO_OPS
    ensures var s' := StepFlush(s, f, Unmap(va));
            && Reachable(s0, s') && Exposed(s', f, c, va, fr) && va !in s'.pt
            && s'.fl[f].pc.Working? && !IsEmpty(s'.fl[f].ops)
  {
    Extend(s0, s, Flush(f, Unmap(va)));
    PushOpIncludes(NO_OPS, Address(va), {fr});
    var s' := StepFlush(s, f, Unmap(va));
    assert s'.cpu == s.cpu;
    assert forall g | g in s.fl && g != f :: s'.fl[g] == s.fl[g];
  }

  /**
   Whenever a CPU is leaving with a live translation and nobody else is a target, an idle flusher can
   release the frame under it.
   */
  lemma LeavingDangles(s0: State, s: State, f: Flusher, c: Cpu, va: Vaddr, fr: Frame) returns (r: State)
    requires Reachable(s0, s) && Exposed(s, f, c, va, fr) && Live(s, va, fr)
    requires s.fl[f].pc.Working? && s.fl[f].ops == NO_OPS
    ensures Reachable(s0, r) && Leaving(r, c) && Dangling(r, c, va, fr)
  {
    UnmapsExposed(s0, s, f, c, va, fr);
    var s1 := StepFlush(s, f, Unmap(va));
    ExposedStays(s0, s1, f, BeginDispatch, c, va, fr);
    var s2 := LoadsNothing(s0, StepFlush(s1, f, BeginDispatch), f, c, va, fr);
    var s3 := CallsNobody(s0, s2, f, c, va, fr);
    r := FlushesNobody(s0, s3, f, c, va, fr);
  }

  /** Nothing is pending anywhere, and the CPU is not using the table. */
  predicate Quiet(s: State, f: Flusher, c: Cpu) {
    && s.targets == {} && c in s.cpu && !s.cpu[c].loaded && f in s.fl && s.fl[f].on in s.cpu
    && s.fl[f].pc.Working? && s.fl[f].ops == NO_OPS
    && (forall g | g in s.fl :: s.fl[g].ops == NO_OPS)
    && (forall d | d in s.cpu :: s.cpu[d].queue == NO_OPS && s.cpu[d].hand == NO_OPS)
  }

  /** The table comes to map the page. */
  lemma Maps(s0: State, f: Flusher, c: Cpu, va: Vaddr, fr: Frame) returns (s: State)
    requires Init(s0) && c in s0.cpu && f in s0.fl && (va in s0.pt ==> s0.pt[va] == fr)
    ensures Reachable(s0, s) && Quiet(s, f, c) && Live(s, va, fr)
  {
    Start(s0);
    s := s0;
    if va !in s0.pt {
      Extend(s0, s0, Flush(f, Map(va, fr)));
      s := StepFlush(s0, f, Map(va, fr));
      assert s.cpu == s0.cpu;
    }
  }

  /** The CPU joins, loads the table, caches the translation, and leaves the target set. */
  lemma Comes(s0: State, s: State, f: Flusher, c: Cpu, va: Vaddr, fr: Frame) returns (r: State)
    requires Reachable(s0, s) && Quiet(s, f, c) && Live(s, va, fr)
    ensures Reachable(s0, r) && Exposed(r, f, c, va, fr) && Live(r, va, fr)
    ensures r.fl == s.fl
  {
    Extend(s0, s, Env(Join(c)));
    var s1 := StepEnv(s, Join(c));
    Extend(s0, s1, Env(LoadTable(c)));
    var s2 := StepEnv(s1, LoadTable(c));
    Extend(s0, s2, Env(Refill(c, va)));
    var s3 := StepEnv(s2, Refill(c, va));
    Extend(s0, s3, Env(Leave(c)));
    r := StepEnv(s3, Leave(c));
  }

  /** From any fresh state, for any CPU, address and frame, the window can be hit. */
  lemma WindowIsHit(s0: State, f: Flusher, c: Cpu, va: Vaddr, fr: Frame) returns (r: State)
    requires Init(s0) && c in s0.cpu && f in s0.fl && (va in s0.pt ==> s0.pt[va] == fr)
    ensures Reachable(s0, r) && Leaving(r, c) && Dangling(r, c, va, fr)
  {
    var s1 := Maps(s0, f, c, va, fr);
    var s2 := Comes(s0, s1, f, c, va, fr);
    r := LeavingDangles(s0, s2, f, c, va, fr);
  }

  /**
   A released frame is reachable through a dropped translation on a CPU that has left the target set and
   not on one that is in it.
   */
  lemma DanglesExactlyWhileLeaving(s0: State, f: Flusher, c: Cpu, va: Vaddr, fr: Frame, target: bool)
    requires Init(s0) && c in s0.cpu && f in s0.fl && (va in s0.pt ==> s0.pt[va] == fr)
    ensures (exists s :: Reachable(s0, s) && Dangling(s, c, va, fr) && (c in s.targets <==> target)) <==> !target
  {
    if target {
      forall s | Reachable(s0, s) && Dangling(s, c, va, fr) ensures c !in s.targets {
        var states, actions :| IsRun(states, actions) && states[0] == s0 && states[|actions|] == s;
        ReleasedIsUnreachable(states, actions, |actions|, c, va);
      }
    } else {
      var s := WindowIsHit(s0, f, c, va, fr);
    }
  }
}
