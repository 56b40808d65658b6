/**
 A whole call of `switch_to_task`, whatever other CPUs do in between.
 */
module TaskSwitchCalls {
  import opened Base
  import opened TaskSwitch

  // ---- A switch goes on, and ends ----

  /** How far a CPU is from the end of its switch. */
  function Distance(pc: Pc): nat {
    match pc
    case Running => 0
    case Leaving => 1
    case Releasing(_) => 2
    case ClearingPrevious(_) => 3
    case Arrived => 4
    case Switching => 5
    case StoringPrevious(_) => 6
    case Claimed(_, _) => 7
    case Claiming(_, _) => 8
  }

  lemma SwitchProgresses(s: State, c: Cpu, a: CpuAction)
    requires EnabledOn(s, c, a) && !s.cpu[c].pc.Running?
    ensures Distance(StepOn(s, c, a).cpu[c].pc) < Distance(s.cpu[c].pc)
  {}

  /** A switch waits exactly while the next task's flag is set. */
  lemma WaitsForFlag(s: State, c: Cpu)
    requires c in s.cpu && !s.cpu[c].pc.Running?
    ensures (exists a :: EnabledOn(s, c, a)) <==> !(s.cpu[c].pc.Claiming? && s.cpu[c].pc.next.t in s.switched)
  {
    match s.cpu[c].pc
    case Claiming(_, _) => assert s.cpu[c].pc.next.t !in s.switched ==> EnabledOn(s, c, Claim);
    case Claimed(_, _) => assert EnabledOn(s, c, StoreCurrent);
    case StoringPrevious(_) => assert EnabledOn(s, c, StorePrevious);
    case Switching => assert EnabledOn(s, c, SwitchContext);
    case Arrived => assert EnabledOn(s, c, LoadPrevious);
    case ClearingPrevious(_) => assert EnabledOn(s, c, ClearPrevious);
    case Releasing(_) => assert EnabledOn(s, c, Release);
    case Leaving => assert EnabledOn(s, c, EnableIrq);
  }

  // ---- What a switch has done when it returns ----

  /** In the middle of a switch to `next`, away from `from`. */
  predicate InSwitch(cs: CpuState, next: Slot, from: Option<Slot>) {
    match cs.pc
    case Running => false
    case Claiming(n, f) => n == next && f == from && cs.current == from
    case Claimed(n, f) => n == next && f == from && cs.current == from
    case StoringPrevious(f) => f == from && cs.current == Some(next)
    case Switching => cs.previous == from && cs.current == Some(next)
    case Arrived => cs.previous == from && cs.current == Some(next)
    case ClearingPrevious(p) => from == Some(p) && cs.current == Some(next)
    case Releasing(p) => from == Some(p) && cs.current == Some(next)
    case Leaving => cs.current == Some(next)
  }

  lemma InSwitchStays(s: State, a: Action, c: Cpu, next: Slot, from: Option<Slot>)
    requires Enabled(s, a) && c in s.cpu && InSwitch(s.cpu[c], next, from)
    ensures var cs, cs' := s.cpu[c], Step(s, a).cpu[c];
            && c in Step(s, a).cpu
            && (!cs'.pc.Running? ==> InSwitch(cs', next, from))
            && (cs'.pc.Running? ==> cs.pc.Leaving? && cs' == cs.(pc := Running))
            && (cs'.pc.Leaving? ==> cs.pc.Leaving? || from.None? || (a == On(c, Release) && from == Some(cs.pc.prev)))
  {}

  /** Action `k` lets go of the slot: the task's flag is cleared and the reference is an ordinary one again. */
  predicate LetGo(states: seq<State>, actions: seq<Action>, k: nat, c: Cpu, slot: Slot)
    requires |states| == |actions| + 1 && k < |actions|
  {
    && actions[k] == On(c, Release)
    && slot.t in states[k].switched && slot.t !in states[k + 1].switched
    && slot.r !in states[k].owned && slot.r in states[k + 1].owned
  }

  lemma ReleaseLetsGo(states: seq<State>, actions: seq<Action>, k: nat, c: Cpu)
    requires IsRun(states, actions) && k < |actions| && actions[k] == On(c, Release)
    ensures c in states[k].cpu && states[k].cpu[c].pc.Releasing?
    ensures LetGo(states, actions, k, c, states[k].cpu[c].pc.prev)
  {
    assert StepAt(states, actions, k);
    var slot := states[k].cpu[c].pc.prev;
    assert SlotAt(states[k].cpu[c], OutgoingPlace) == Some(slot);
    SlotsHoldReferences(states, actions, k, c, OutgoingPlace);
    assert At(states[k], c, OutgoingPlace, slot.t);
    FlagIsExact(states, actions, k, slot.t);
  }

  predicate Away(s: State, c: Cpu) {
    c in s.cpu && !s.cpu[c].pc.Running?
  }

  /** CPU `c` begins a switch to the task of `r` with action `i` and is running again in state `j`, not before. */
  predicate SwitchCall(states: seq<State>, actions: seq<Action>, i: nat, j: nat, c: Cpu, r: Ref) {
    && IsRun(states, actions) && i < j < |states| && actions[i] == On(c, BeginSwitch(r))
    && (forall k | i < k < j :: Away(states[k], c))
    && c in states[j].cpu && states[j].cpu[c].pc.Running?
  }

  lemma {:induction false} DuringSwitch(states: seq<State>, actions: seq<Action>, i: nat, j: nat, c: Cpu,
                                        next: Slot, from: Option<Slot>)
    requires IsRun(states, actions) && i < j < |states| && Away(states[j], c)
    requires c in states[i].cpu && next.r in states[i].arcs && next == Slot(states[i].arcs[next.r], next.r)
    requires actions[i] == On(c, BeginSwitch(next.r)) && from == states[i].cpu[c].current
    requires forall k | i < k < j :: Away(states[k], c)
    ensures InSwitch(states[j].cpu[c], next, from)
    ensures states[j].cpu[c].pc.Leaving? && from.Some? ==>
              exists k | i < k < j :: LetGo(states, actions, k, c, from.value)
  {
    assert StepAt(states, actions, j - 1);
    if j > i + 1 {
      DuringSwitch(states, actions, i, j - 1, c, next, from);
      InSwitchStays(states[j - 1], actions[j - 1], c, next, from);
      if actions[j - 1] == On(c, Release) { ReleaseLetsGo(states, actions, j - 1, c); }
    }
  }

  /**
   When a switch returns, the next task is the current one, on the reference that was handed in; the
   previous slot is empty; and the task the CPU came from, if any, has been let go on the way.
   */
  lemma SwitchReturns(states: seq<State>, actions: seq<Action>, i: nat, j: nat, c: Cpu, r: Ref)
    requires SwitchCall(states, actions, i, j, c, r)
    ensures c in states[i].cpu && r in states[i].arcs
    ensures states[j].cpu[c] == CpuState(Some(Slot(states[i].arcs[r], r)), None, Running)
    ensures states[i].cpu[c].current.Some? ==>
              exists k | i < k < j :: LetGo(states, actions, k, c, states[i].cpu[c].current.value)
  {
    assert StepAt(states, actions, i) && StepAt(states, actions, j - 1);
    if j > i + 1 {
      assert Away(states[j - 1], c);
      var next, from := Slot(states[i].arcs[r], r), states[i].cpu[c].current;
      DuringSwitch(states, actions, i, j - 1, c, next, from);
      InSwitchStays(states[j - 1], actions[j - 1], c, next, from);
      NoPrevious(states, actions, j, c);
    }
  }

  lemma NoPrevious(states: seq<State>, actions: seq<Action>, j: nat, c: Cpu)
    requires IsRun(states, actions) && j < |states| && c in states[j].cpu && states[j].cpu[c].pc.Running?
    ensures states[j].cpu[c].previous.None?
  {
    RunInv(states, actions, j);
    assert LocalInv(states[j].cpu[c]);
  }
}
