/**
 The page table over whole runs, and the frames it hands over to be released after a flush.
 */
module ShootdownHandover {
  import opened TlbOps
  import opened Shootdown
  import opened ShootdownStale
  import opened ShootdownTheorems

  // ---- The table says what was last said about an address ----

  /** The action maps the address to the frame. */
  predicate Sets(a: Action, va: Vaddr, fr: Frame) {
    a.Flush? && (a.a == FlushAction.Map(va, fr) || a.a == Remap(va, fr))
  }

  /** The action unmaps the address, alone or with a range. */
  predicate Clears(a: Action, va: Vaddr) {
    a.Flush? && (a.a == Unmap(va) || (a.a.UnmapRange? && a.a.start <= va < a.a.end))
  }

  /** The action says something about the address. */
  predicate Names(a: Action, va: Vaddr) {
    Clears(a, va) || (a.Flush? && (a.a.Map? || a.a.Remap?) && a.a.va == va)
  }

  lemma TableStep(s: State, a: Action, va: Vaddr, fr: Frame)
    requires Enabled(s, a)
    ensures Sets(a, va, fr) ==> Live(Step(s, a), va, fr)
    ensures Clears(a, va) ==> va !in Step(s, a).pt
    ensures !Names(a, va) ==> (Live(Step(s, a), va, fr) <==> Live(s, va, fr))
    ensures Live(Step(s, a), va, fr) && !Live(s, va, fr) ==> Sets(a, va, fr)
  {}

  /** An address keeps its translation as long as no action names it. */
  lemma {:induction false} UnnamedStays(states: seq<State>, actions: seq<Action>, i: nat, j: nat, va: Vaddr, fr: Frame)
    requires IsRun(states, actions) && i <= j < |states|
    requires forall k | i <= k < j :: !Names(actions[k], va)
    ensures Live(states[j], va, fr) <==> Live(states[i], va, fr)
  {
    if i < j {
      UnnamedStays(states, actions, i, j - 1, va, fr);
      assert StepAt(states, actions, j - 1);
      TableStep(states[j - 1], actions[j - 1], va, fr);
    }
  }

  /** The last action that named an address decides what the table says about it. */
  lemma LastNameDecides(states: seq<State>, actions: seq<Action>, i: nat, j: nat, va: Vaddr, fr: Frame)
    requires IsRun(states, actions) && i < j < |states| && Names(actions[i], va)
    requires forall k | i < k < j :: !Names(actions[k], va)
    ensures Live(states[j], va, fr) <==> Sets(actions[i], va, fr)
  {
    assert StepAt(states, actions, i);
    TableStep(states[i], actions[i], va, fr);
    UnnamedStays(states, actions, i + 1, j, va, fr);
    if actions[i].a.Map? || actions[i].a.Remap? { TableStep(states[i], actions[i], va, actions[i].a.fr); }
  }

  predicate SetBetween(actions: seq<Action>, i: nat, j: nat, va: Vaddr, fr: Frame)
    requires j <= |actions|
  {
    exists k | i <= k < j :: Sets(actions[k], va, fr)
  }

  /** A translation that is not in the table comes into it only by being set. */
  lemma {:induction false} OnlyBySetting(states: seq<State>, actions: seq<Action>, i: nat, j: nat, va: Vaddr, fr: Frame)
    requires IsRun(states, actions) && i <= j < |states| && !Live(states[i], va, fr) && Live(states[j], va, fr)
    ensures SetBetween(actions, i, j, va, fr)
  {
    if i < j {
      assert StepAt(states, actions, j - 1);
      TableStep(states[j - 1], actions[j - 1], va, fr);
      if Live(states[j - 1], va, fr) { OnlyBySetting(states, actions, i, j - 1, va, fr); }
    }
  }

  // ---- Frames that have been handed over ----

  /** Step `i` takes the translation out of the table. */
  predicate TakenOut(states: seq<State>, i: nat, va: Vaddr, fr: Frame) {
    i + 1 < |states| && Live(states[i], va, fr) && !Live(states[i + 1], va, fr)
  }

  predicate Caches(s: State, c: Cpu, va: Vaddr, fr: Frame) {
    c in s.cpu && va in s.cpu[c].tlb && s.cpu[c].tlb[va] == fr
  }

  /** The frames a flusher keeps grow by exactly those whose translations the action names and finds in the table. */
  lemma HandsOverExactly(s: State, f: Flusher, a: FlushAction, fr: Frame)
    requires Shape(s) && EnabledFlush(s, f, a) && !a.Finish?
    ensures StepFlush(s, f, a).fl[f].ops == OpsAfter(s, s.fl[f], a)
    ensures fr in OpsAfter(s, s.fl[f], a).keeper <==> fr in s.fl[f].ops.keeper || FoundInTable(s, Flush(f, a), fr)
  {
    assert FlusherShape(s.cpu.Keys, s.fl[f]);
    KeeperGrows(s, s.fl[f], f, a, fr);
  }

  predicate FoundInTable(s: State, a: Action, fr: Frame) {
    exists va | va in s.pt :: s.pt[va] == fr && Names(a, va)
  }

  lemma KeeperGrows(s: State, fs: FlusherState, f: Flusher, a: FlushAction, fr: Frame)
    requires WellFormed(fs.ops) && !a.Finish? && (a.Map? ==> a.va !in s.pt)
    ensures fr in OpsAfter(s, fs, a).keeper <==> fr in fs.ops.keeper || FoundInTable(s, Flush(f, a), fr)
  {
    match a
    case Remap(va, _) => if va in s.pt { PushOpExact(fs.ops, Address(va), {s.pt[va]}); }
    case Unmap(va) => if va in s.pt { PushOpExact(fs.ops, Address(va), {s.pt[va]}); }
    case UnmapRange(start, end) => PushOpExact(fs.ops, Range(start, end), FramesIn(s.pt, start, end));
    case _ =>
  }

  /** Whoever takes a translation out has then a request for it and keeps its frame. */
  lemma TakenOutIsKept(states: seq<State>, actions: seq<Action>, i: nat, va: Vaddr, fr: Frame)
    requires IsRun(states, actions) && i < |actions| && TakenOut(states, i, va, fr)
    ensures actions[i].Flush? && actions[i].f in states[i + 1].fl
    ensures Holds(states[i + 1].fl[actions[i].f].ops, va, fr)
  {
    assert StepAt(states, actions, i);
    RunInv(states, actions, i);
    var a := actions[i];
    if a.Flush? {
      assert FlusherShape(states[i].cpu.Keys, states[i].fl[a.f]);
      RemovedIsHeld(states[i], states[i].fl[a.f], a.a, va);
    }
  }

  /**
   A frame that was handed over with a translation is out of the table at that address until somebody maps
   it there again; and once it has been released, a CPU has the translation only while it is leaving.
   */
  lemma HandedOver(states: seq<State>, actions: seq<Action>, i: nat, j: nat, c: Cpu, va: Vaddr, fr: Frame)
    requires IsRun(states, actions) && i < j < |states| && TakenOut(states, i, va, fr)
    requires !SetBetween(actions, i + 1, j, va, fr)
    ensures !Live(states[j], va, fr)
    ensures Released(states[j], fr) && Caches(states[j], c, va, fr) ==> Leaving(states[j], c)
  {
    if Live(states[j], va, fr) { OnlyBySetting(states, actions, i + 1, j, va, fr); }
    if Released(states[j], fr) && Caches(states[j], c, va, fr) {
      ReleasedIsUnreachable(states, actions, j, c, va);
    }
  }

  ghost predicate Mapped(s: State, fr: Frame) {
    exists va :: Live(s, va, fr)
  }

  /**
   A frame that the table maps nowhere stays out of it until somebody maps it again; and once it has been
   released, no CPU has any translation to it, except while it is leaving.
   */
  lemma UnmappedFrame(states: seq<State>, actions: seq<Action>, i: nat, j: nat, fr: Frame)
    requires IsRun(states, actions) && i <= j < |states| && !Mapped(states[i], fr)
    requires forall va :: !SetBetween(actions, i, j, va, fr)
    ensures !Mapped(states[j], fr)
    ensures Released(states[j], fr) ==>
              forall c, va | Caches(states[j], c, va, fr) :: Leaving(states[j], c)
  {
    var s := states[j];
    forall va ensures !Live(s, va, fr) {
      if Live(s, va, fr) { OnlyBySetting(states, actions, i, j, va, fr); }
    }
    if Released(s, fr) {
      forall c, va | Caches(s, c, va, fr) ensures Leaving(s, c) {
        ReleasedIsUnreachable(states, actions, j, c, va);
      }
    }
  }
}
