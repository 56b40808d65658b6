/**
 Switching tasks across CPUs.

 Any number of CPUs switch tasks at once; one action is one load, store or compare-and-exchange. A
 switch claims the next task through its flag, stores it as the current task, leaves the one it comes
 from in the previous slot, exchanges the contexts, and then, already in the new context, releases the
 previous task. The slots hold raw addresses made from counted references; each reference is followed
 by an identity, so that the counting itself is part of the model.
 */
module TaskSwitch {
  import opened Base

  type Task = nat
  type Cpu = nat
  type Ref = nat

  /** A raw task address together with the counted reference it was made from. */
  datatype Slot = Slot(t: Task, r: Ref)

  datatype Pc =
    | Running
    | Claiming(next: Slot, from: Option<Slot>)
    | Claimed(next: Slot, from: Option<Slot>)
    | StoringPrevious(from: Option<Slot>)
    | Switching
    | Arrived
    | ClearingPrevious(prev: Slot)
    | Releasing(prev: Slot)
    | Leaving

  /** The per-CPU cells `CURRENT_TASK_PTR` and `PREVIOUS_TASK_PTR`, and where the CPU is. */
  datatype CpuState = CpuState(current: Option<Slot>, previous: Option<Slot>, pc: Pc)

  /**
   `arcs` are the live references, `owned` those in ordinary variables, `switched` the tasks whose
   `switched_to_cpu` is set, `live` the tasks whose registers are on a CPU rather than in their context.
   */
  datatype State = State(
    arcs: map<Ref, Task>, owned: set<Ref>, switched: set<Task>, live: set<Task>, cpu: map<Cpu, CpuState>)

  datatype CpuAction =
    | BeginSwitch(r: Ref)
    | Claim
    | StoreCurrent
    | StorePrevious
    | SwitchContext
    | LoadPrevious
    | ClearPrevious
    | Release
    | EnableIrq

  datatype Action =
    | Clone(r: Ref, made: Ref)
    | Create(t: Task, made: Ref)
    | Drop(r: Ref)
    | On(c: Cpu, a: CpuAction)

  predicate EnabledOn(s: State, c: Cpu, a: CpuAction) {
    && c in s.cpu
    && var cs := s.cpu[c];
       match a
       case BeginSwitch(r) => cs.pc.Running? && r in s.owned && r in s.arcs
       case Claim => cs.pc.Claiming? && cs.pc.next.t !in s.switched
       case StoreCurrent => cs.pc.Claimed?
       case StorePrevious => cs.pc.StoringPrevious?
       case SwitchContext => cs.pc.Switching?
       case LoadPrevious => cs.pc.Arrived?
       case ClearPrevious => cs.pc.ClearingPrevious?
       case Release => cs.pc.Releasing?
       case EnableIrq => cs.pc.Leaving?
  }

  predicate Enabled(s: State, a: Action) {
    match a
    case Clone(r, made) => r in s.arcs && made !in s.arcs
    case Create(t, made) => made !in s.arcs && t !in s.arcs.Values
    case Drop(r) => r in s.owned && r in s.arcs
    case On(c, x) => EnabledOn(s, c, x)
  }

  function CpuAfter(s: State, cs: CpuState, a: CpuAction): CpuState
    requires a.BeginSwitch? ==> a.r in s.arcs
    requires a.Claim? ==> cs.pc.Claiming?
    requires a.StoreCurrent? ==> cs.pc.Claimed?
    requires a.StorePrevious? ==> cs.pc.StoringPrevious?
    requires a.ClearPrevious? ==> cs.pc.ClearingPrevious?
  {
    match a
    case BeginSwitch(r) => cs.(pc := Claiming(Slot(s.arcs[r], r), cs.current))
    case Claim => cs.(pc := Claimed(cs.pc.next, cs.pc.from))
    case StoreCurrent => cs.(current := Some(cs.pc.next), pc := StoringPrevious(cs.pc.from))
    case StorePrevious => cs.(previous := cs.pc.from, pc := Switching)
    case SwitchContext => cs.(pc := Arrived)
    case LoadPrevious => cs.(pc := if cs.previous.Some? then ClearingPrevious(cs.previous.value) else Leaving)
    case ClearPrevious => cs.(previous := None, pc := Releasing(cs.pc.prev))
    case Release => cs.(pc := Leaving)
    case EnableIrq => cs.(pc := Running)
  }

  function TaskOf(o: Option<Slot>): set<Task> {
    if o.Some? then {o.value.t} else {}
  }

  function RefOf(o: Option<Slot>): set<Ref> {
    if o.Some? then {o.value.r} else {}
  }

  function StepOn(s: State, c: Cpu, a: CpuAction): State
    requires EnabledOn(s, c, a)
  {
    var cs := s.cpu[c];
    State(s.arcs,
          if a.BeginSwitch? then s.owned - {a.r} else if a.Release? then s.owned + {cs.pc.prev.r} else s.owned,
          if a.Claim? then s.switched + {cs.pc.next.t}
          else if a.Release? then s.switched - {cs.pc.prev.t}
          else s.switched,
          if a.SwitchContext? then s.live - TaskOf(cs.previous) + TaskOf(cs.current) else s.live,
          s.cpu[c := CpuAfter(s, cs, a)])
  }

  function Step(s: State, a: Action): State
    requires Enabled(s, a)
  {
    match a
    case Clone(r, made) => s.(arcs := s.arcs[made := s.arcs[r]], owned := s.owned + {made})
    case Create(t, made) => s.(arcs := s.arcs[made := t], owned := s.owned + {made})
    case Drop(r) => s.(arcs := s.arcs - {r}, owned := s.owned - {r})
    case On(c, x) => StepOn(s, c, x)
  }

  predicate Init(s: State) {
    && s.arcs == map[] && s.owned == {} && s.switched == {} && s.live == {}
    && forall c | c in s.cpu :: s.cpu[c] == CpuState(None, None, Running)
  }

  // ---- Who is where ----

  /** What is on its way out: taken from one slot and not yet in the next, or not yet released. */
  function Outgoing(cs: CpuState): Option<Slot> {
    match cs.pc
    case StoringPrevious(from) => from
    case Releasing(prev) => Some(prev)
    case _ => None
  }

  function ClaimedNext(cs: CpuState): Option<Slot> {
    if cs.pc.Claimed? then Some(cs.pc.next) else None
  }

  datatype Place = NextPlace | CurrentPlace | PreviousPlace | OutgoingPlace

  function SlotAt(cs: CpuState, p: Place): Option<Slot> {
    match p
    case NextPlace => ClaimedNext(cs)
    case CurrentPlace => cs.current
    case PreviousPlace => cs.previous
    case OutgoingPlace => Outgoing(cs)
  }

  function Tasks(cs: CpuState): set<Task> {
    TaskOf(ClaimedNext(cs)) + TaskOf(cs.current) + TaskOf(cs.previous) + TaskOf(Outgoing(cs))
  }

  function NextRef(cs: CpuState): set<Ref> {
    if cs.pc.Claiming? || cs.pc.Claimed? then {cs.pc.next.r} else {}
  }

  function Refs(cs: CpuState): set<Ref> {
    NextRef(cs) + RefOf(cs.current) + RefOf(cs.previous) + RefOf(Outgoing(cs))
  }

  /** Tasks whose registers this CPU holds: the one that runs, until the contexts have been exchanged. */
  function LiveOn(cs: CpuState): set<Task> {
    match cs.pc
    case StoringPrevious(from) => TaskOf(from)
    case Switching => TaskOf(cs.previous)
    case _ => TaskOf(cs.current)
  }

  /** The tasks and the references in the places of one CPU are pairwise different. */
  predicate DistinctPlaces(cs: CpuState) {
    forall p, q | SlotAt(cs, p).Some? && SlotAt(cs, q).Some? && p != q ::
      SlotAt(cs, p).value.t != SlotAt(cs, q).value.t && SlotAt(cs, p).value.r != SlotAt(cs, q).value.r
  }

  predicate LocalInv(cs: CpuState) {
    && DistinctPlaces(cs)
    && (cs.previous.Some? ==> cs.pc.Switching? || cs.pc.Arrived? || cs.pc.ClearingPrevious?)
    && match cs.pc
       case Running => true
       case Claiming(_, from) => from == cs.current && cs.pc.next.r !in RefOf(cs.current)
       case Claimed(_, from) => from == cs.current
       case ClearingPrevious(prev) => cs.previous == Some(prev) && cs.current.Some?
       case _ => cs.current.Some?
  }

  /** Everything in `all` is at exactly one CPU, and nothing else is anywhere. */
  predicate Placed(at: map<Cpu, set<nat>>, all: set<nat>) {
    && (forall c | c in at :: at[c] <= all)
    && (forall x | x in all :: exists c | c in at :: x in at[c])
    && (forall c, d | c in at && d in at && c != d :: at[c] !! at[d])
  }

  function TaskMap(cpu: map<Cpu, CpuState>): map<Cpu, set<Task>> {
    map c | c in cpu :: Tasks(cpu[c])
  }

  function LiveMap(cpu: map<Cpu, CpuState>): map<Cpu, set<Task>> {
    map c | c in cpu :: LiveOn(cpu[c])
  }

  function RefMap(cpu: map<Cpu, CpuState>): map<Cpu, set<Ref>> {
    map c | c in cpu :: Refs(cpu[c])
  }

  predicate TaskInv(s: State) {
    (forall c | c in s.cpu :: LocalInv(s.cpu[c])) && Placed(TaskMap(s.cpu), s.switched)
  }

  predicate LiveInv(s: State) {
    Placed(LiveMap(s.cpu), s.live)
  }

  /** The slots of one CPU hold live references to the tasks they point to. */
  predicate Points(arcs: map<Ref, Task>, o: Option<Slot>) {
    o.Some? ==> o.value.r in arcs && arcs[o.value.r] == o.value.t
  }

  predicate PointsAll(arcs: map<Ref, Task>, cs: CpuState) {
    && Points(arcs, cs.current) && Points(arcs, cs.previous) && Points(arcs, Outgoing(cs))
    && (cs.pc.Claiming? || cs.pc.Claimed? ==> Points(arcs, Some(cs.pc.next)))
  }

  predicate RefInv(s: State) {
    && s.owned <= s.arcs.Keys
    && (forall c | c in s.cpu :: PointsAll(s.arcs, s.cpu[c]))
    && Placed(RefMap(s.cpu), InSlots(s))
  }

  predicate Inv(s: State) {
    TaskInv(s) && LiveInv(s) && RefInv(s)
  }

  // ---- One CPU, one step ----

  /** Only the claim adds a task to a CPU, and only the release takes one away. */
  lemma TasksAfter(s: State, c: Cpu, a: CpuAction)
    requires EnabledOn(s, c, a) && LocalInv(s.cpu[c])
    ensures var cs := s.cpu[c]; var ts := Tasks(CpuAfter(s, cs, a));
            ts == if a.Claim? then Tasks(cs) + {cs.pc.next.t}
                  else if a.Release? then Tasks(cs) - {cs.pc.prev.t}
                  else Tasks(cs)
  {
    var cs := s.cpu[c];
    if a.Release? {
      assert SlotAt(cs, OutgoingPlace).Some? && SlotAt(cs, CurrentPlace).Some?;
    }
  }

  lemma RefsAfter(s: State, c: Cpu, a: CpuAction)
    requires EnabledOn(s, c, a) && LocalInv(s.cpu[c])
    ensures var cs := s.cpu[c]; var rs := Refs(CpuAfter(s, cs, a));
            rs == if a.BeginSwitch? then Refs(cs) + {a.r}
                  else if a.Release? then Refs(cs) - {cs.pc.prev.r}
                  else Refs(cs)
  {
    var cs := s.cpu[c];
    if a.Release? {
      assert SlotAt(cs, OutgoingPlace).Some? && SlotAt(cs, CurrentPlace).Some?;
    }
  }

  lemma LiveAfter(s: State, c: Cpu, a: CpuAction)
    requires EnabledOn(s, c, a) && LocalInv(s.cpu[c])
    ensures var cs := s.cpu[c];
            LiveOn(CpuAfter(s, cs, a)) == if a.SwitchContext? then TaskOf(cs.current) else LiveOn(cs)
  {}

  lemma LocalAfter(s: State, c: Cpu, a: CpuAction)
    requires EnabledOn(s, c, a) && LocalInv(s.cpu[c])
    requires a.BeginSwitch? ==> a.r !in Refs(s.cpu[c])
    requires a.Claim? ==> s.cpu[c].pc.next.t !in Tasks(s.cpu[c])
    ensures LocalInv(CpuAfter(s, s.cpu[c], a))
  {
    var cs, cs' := s.cpu[c], CpuAfter(s, s.cpu[c], a);
    forall p, q | SlotAt(cs', p).Some? && SlotAt(cs', q).Some? && p != q
      ensures SlotAt(cs', p).value.t != SlotAt(cs', q).value.t && SlotAt(cs', p).value.r != SlotAt(cs', q).value.r
    {
      assert SlotAt(cs, CurrentPlace) == cs.current && SlotAt(cs, PreviousPlace) == cs.previous;
      assert SlotAt(cs, NextPlace) == ClaimedNext(cs) && SlotAt(cs, OutgoingPlace) == Outgoing(cs);
    }
  }

  lemma PointsAfter(s: State, c: Cpu, a: CpuAction)
    requires EnabledOn(s, c, a) && LocalInv(s.cpu[c]) && PointsAll(s.arcs, s.cpu[c])
    ensures PointsAll(s.arcs, CpuAfter(s, s.cpu[c], a))
  {}

  // ---- All CPUs ----

  lemma PlacedSame(at: map<Cpu, set<nat>>, all: set<nat>, c: Cpu)
    requires Placed(at, all) && c in at
    ensures Placed(at[c := at[c]], all)
  {
    assert at[c := at[c]] == at;
  }

  lemma PlacedMore(at: map<Cpu, set<nat>>, all: set<nat>, c: Cpu, x: nat)
    requires Placed(at, all) && c in at && x !in all
    ensures Placed(at[c := at[c] + {x}], all + {x})
  {
    var at' := at[c := at[c] + {x}];
    forall y | y in all + {x} ensures exists d | d in at' :: y in at'[d] {
      if y == x { assert x in at'[c]; } else { var d :| d in at && y in at[d]; assert y in at'[d]; }
    }
  }

  lemma PlacedLess(at: map<Cpu, set<nat>>, all: set<nat>, c: Cpu, x: nat)
    requires Placed(at, all) && c in at && x in at[c]
    ensures Placed(at[c := at[c] - {x}], all - {x})
  {
    var at' := at[c := at[c] - {x}];
    forall y | y in all - {x} ensures exists d | d in at' :: y in at'[d] {
      var d :| d in at && y in at[d];
      assert y in at'[d];
    }
    forall d | d in at' ensures at'[d] <= all - {x} {
      if d != c { assert at[c] !! at[d]; }
    }
  }

  lemma TaskMapUpdate(cpu: map<Cpu, CpuState>, c: Cpu, cs: CpuState)
    ensures TaskMap(cpu[c := cs]) == TaskMap(cpu)[c := Tasks(cs)]
  {}

  lemma LiveMapUpdate(cpu: map<Cpu, CpuState>, c: Cpu, cs: CpuState)
    ensures LiveMap(cpu[c := cs]) == LiveMap(cpu)[c := LiveOn(cs)]
  {}

  lemma RefMapUpdate(cpu: map<Cpu, CpuState>, c: Cpu, cs: CpuState)
    ensures RefMap(cpu[c := cs]) == RefMap(cpu)[c := Refs(cs)]
  {}

  lemma TasksPlaced(s: State, c: Cpu, a: CpuAction)
    requires EnabledOn(s, c, a) && LocalInv(s.cpu[c]) && Placed(TaskMap(s.cpu), s.switched)
    ensures Placed(TaskMap(StepOn(s, c, a).cpu), StepOn(s, c, a).switched)
  {
    var cs, at := s.cpu[c], TaskMap(s.cpu);
    TasksAfter(s, c, a);
    TaskMapUpdate(s.cpu, c, CpuAfter(s, cs, a));
    if a.Claim? {
      PlacedMore(at, s.switched, c, cs.pc.next.t);
    } else if a.Release? {
      PlacedLess(at, s.switched, c, cs.pc.prev.t);
    } else {
      PlacedSame(at, s.switched, c);
    }
  }

  lemma ClaimIsNew(s: State, c: Cpu)
    requires TaskInv(s) && c in s.cpu
    ensures Tasks(s.cpu[c]) <= s.switched
  {
    assert TaskMap(s.cpu)[c] == Tasks(s.cpu[c]);
  }

  lemma OwnedIsNew(s: State, c: Cpu)
    requires RefInv(s) && c in s.cpu
    ensures Refs(s.cpu[c]) !! s.owned && Refs(s.cpu[c]) <= s.arcs.Keys
  {
    assert RefMap(s.cpu)[c] == Refs(s.cpu[c]);
  }

  lemma StepTasks(s: State, c: Cpu, a: CpuAction)
    requires TaskInv(s) && RefInv(s) && EnabledOn(s, c, a)
    ensures TaskInv(StepOn(s, c, a))
  {
    ClaimIsNew(s, c);
    OwnedIsNew(s, c);
    LocalAfter(s, c, a);
    TasksPlaced(s, c, a);
  }

  lemma RefsPlaced(s: State, c: Cpu, a: CpuAction, kept: set<Ref>)
    requires EnabledOn(s, c, a) && LocalInv(s.cpu[c]) && Placed(RefMap(s.cpu), kept)
    requires a.BeginSwitch? ==> a.r !in kept
    ensures Placed(RefMap(StepOn(s, c, a).cpu),
                   if a.BeginSwitch? then kept + {a.r} else if a.Release? then kept - {s.cpu[c].pc.prev.r} else kept)
  {
    var cs, at := s.cpu[c], RefMap(s.cpu);
    RefsAfter(s, c, a);
    RefMapUpdate(s.cpu, c, CpuAfter(s, cs, a));
    if a.BeginSwitch? {
      PlacedMore(at, kept, c, a.r);
    } else if a.Release? {
      PlacedLess(at, kept, c, cs.pc.prev.r);
    } else {
      PlacedSame(at, kept, c);
    }
  }

  /** The references that are not in ordinary variables. */
  function InSlots(s: State): set<Ref> {
    s.arcs.Keys - s.owned
  }

  lemma InSlotsAfter(s: State, c: Cpu, a: CpuAction)
    requires EnabledOn(s, c, a)
    ensures InSlots(StepOn(s, c, a)) ==
      if a.BeginSwitch? then InSlots(s) + {a.r}
      else if a.Release? then InSlots(s) - {s.cpu[c].pc.prev.r}
      else InSlots(s)
  {}

  lemma StepRefs(s: State, c: Cpu, a: CpuAction)
    requires TaskInv(s) && RefInv(s) && EnabledOn(s, c, a)
    ensures RefInv(StepOn(s, c, a))
  {
    PointsAfter(s, c, a);
    RefsPlaced(s, c, a, InSlots(s));
    InSlotsAfter(s, c, a);
    assert Points(s.arcs, Outgoing(s.cpu[c]));
  }

  lemma PlacedMoved(at: map<Cpu, set<nat>>, all: set<nat>, c: Cpu, out: set<nat>, into: set<nat>)
    requires Placed(at, all) && c in at && at[c] == out && into !! all
    ensures Placed(at[c := into], all - out + into)
  {
    var at' := at[c := into];
    forall y | y in all - out + into ensures exists d | d in at' :: y in at'[d] {
      if y in into { assert y in at'[c]; } else { var d :| d in at && y in at[d]; assert y in at'[d]; }
    }
    forall d | d in at' ensures at'[d] <= all - out + into {
      if d != c { assert at[c] !! at[d]; }
    }
  }

  /** A context is loaded only after it has been saved. */
  lemma NextIsSaved(s: State, c: Cpu)
    requires TaskInv(s) && LiveInv(s) && EnabledOn(s, c, SwitchContext)
    ensures TaskOf(s.cpu[c].current) !! s.live
  {
    var cs := s.cpu[c];
    assert SlotAt(cs, CurrentPlace) == cs.current && SlotAt(cs, PreviousPlace) == cs.previous;
    if cs.current.Some? && cs.current.value.t in s.live {
      var t := cs.current.value.t;
      var d :| d in LiveMap(s.cpu) && t in LiveMap(s.cpu)[d];
      if d != c {
        LiveIsTask(s.cpu[d]);
        TasksDisjoint(s, c, d);
        assert false;
      }
    }
  }

  lemma TasksDisjoint(s: State, c: Cpu, d: Cpu)
    requires TaskInv(s) && c in s.cpu && d in s.cpu && c != d
    ensures Tasks(s.cpu[c]) !! Tasks(s.cpu[d])
  {
    assert TaskMap(s.cpu)[c] == Tasks(s.cpu[c]) && TaskMap(s.cpu)[d] == Tasks(s.cpu[d]);
  }

  lemma LiveIsTask(cs: CpuState)
    ensures LiveOn(cs) <= Tasks(cs)
  {}

  lemma StepLive(s: State, c: Cpu, a: CpuAction)
    requires TaskInv(s) && LiveInv(s) && EnabledOn(s, c, a)
    ensures LiveInv(StepOn(s, c, a))
  {
    var cs, at := s.cpu[c], LiveMap(s.cpu);
    assert at[c] == LiveOn(cs);
    LiveAfter(s, c, a);
    LiveMapUpdate(s.cpu, c, CpuAfter(s, cs, a));
    if a.SwitchContext? {
      NextIsSaved(s, c);
      PlacedMoved(at, s.live, c, TaskOf(cs.previous), TaskOf(cs.current));
    } else {
      PlacedSame(at, s.live, c);
    }
  }

  /** Making and dropping references elsewhere touches no slot. */
  lemma OtherRefs(s: State, a: Action)
    requires RefInv(s) && Enabled(s, a) && !a.On?
    ensures RefInv(Step(s, a))
  {
    var s' := Step(s, a);
    assert InSlots(s') == InSlots(s);
    forall c | c in s'.cpu ensures PointsAll(s'.arcs, s'.cpu[c]) {
      assert PointsAll(s.arcs, s.cpu[c]);
      assert RefMap(s.cpu)[c] == Refs(s.cpu[c]);
      StillPoints(s.arcs, s'.arcs, s.cpu[c]);
    }
  }

  lemma StillPoints(arcs: map<Ref, Task>, arcs': map<Ref, Task>, cs: CpuState)
    requires PointsAll(arcs, cs)
    requires forall r | r in Refs(cs) && r in arcs :: r in arcs' && arcs'[r] == arcs[r]
    ensures PointsAll(arcs', cs)
  {}

  lemma StepInv(s: State, a: Action)
    requires Inv(s) && Enabled(s, a)
    ensures Inv(Step(s, a))
  {
    match a {
      case On(c, x) =>
        StepTasks(s, c, x);
        StepLive(s, c, x);
        StepRefs(s, c, x);
      case _ => OtherRefs(s, a);
    }
  }

  // ---- Every run ----

  predicate StepAt(states: seq<State>, actions: seq<Action>, i: nat)
    requires |states| == |actions| + 1 && i < |actions|
  {
    Enabled(states[i], actions[i]) && states[i + 1] == Step(states[i], actions[i])
  }

  predicate IsRun(states: seq<State>, actions: seq<Action>) {
    && |states| == |actions| + 1
    && Init(states[0])
    && forall i: nat | i < |actions| :: StepAt(states, actions, i)
  }

  lemma InitInv(s: State)
    requires Init(s)
    ensures Inv(s)
  {
    assert forall c | c in s.cpu :: Tasks(s.cpu[c]) == {} && LiveOn(s.cpu[c]) == {} && Refs(s.cpu[c]) == {};
  }

  lemma {:induction false} RunInv(states: seq<State>, actions: seq<Action>, i: nat)
    requires IsRun(states, actions) && i < |states|
    ensures Inv(states[i])
  {
    if i == 0 {
      InitInv(states[0]);
    } else {
      RunInv(states, actions, i - 1);
      assert StepAt(states, actions, i - 1);
      StepInv(states[i - 1], actions[i - 1]);
    }
  }

  /** `t` is at this place of this CPU. */
  predicate At(s: State, c: Cpu, p: Place, t: Task) {
    c in s.cpu && SlotAt(s.cpu[c], p).Some? && SlotAt(s.cpu[c], p).value.t == t
  }

  lemma AtIsTask(s: State, c: Cpu, p: Place, t: Task)
    requires At(s, c, p, t)
    ensures t in Tasks(s.cpu[c]) && c in TaskMap(s.cpu) && TaskMap(s.cpu)[c] == Tasks(s.cpu[c])
  {}

  /** A task is in at most one place of all CPUs. */
  lemma OnePlace(states: seq<State>, actions: seq<Action>, i: nat, t: Task, c: Cpu, p: Place, d: Cpu, q: Place)
    requires IsRun(states, actions) && i < |states| && At(states[i], c, p, t) && At(states[i], d, q, t)
    ensures c == d && p == q
  {
    RunInv(states, actions, i);
    var s := states[i];
    AtIsTask(s, c, p, t);
    AtIsTask(s, d, q, t);
    assert LocalInv(s.cpu[c]);
  }

  lemma TaskIsAt(cs: CpuState, t: Task) returns (p: Place)
    requires t in Tasks(cs)
    ensures SlotAt(cs, p).Some? && SlotAt(cs, p).value.t == t
  {
    p := if t in TaskOf(ClaimedNext(cs)) then NextPlace
         else if t in TaskOf(cs.current) then CurrentPlace
         else if t in TaskOf(cs.previous) then PreviousPlace else OutgoingPlace;
  }

  /** The flag of a task is set exactly while it is in one of the places. */
  lemma FlagIsExact(states: seq<State>, actions: seq<Action>, i: nat, t: Task)
    requires IsRun(states, actions) && i < |states|
    ensures t in states[i].switched <==> exists c, p | c in states[i].cpu :: At(states[i], c, p, t)
  {
    RunInv(states, actions, i);
    var s := states[i];
    if t in s.switched {
      var c :| c in TaskMap(s.cpu) && t in TaskMap(s.cpu)[c];
      var p := TaskIsAt(s.cpu[c], t);
      assert At(s, c, p, t);
    }
    forall c, p | At(s, c, p, t) ensures t in s.switched {
      AtIsTask(s, c, p, t);
    }
  }

  /** Each slot keeps its task alive by one reference that nobody else has. */
  lemma SlotsHoldReferences(states: seq<State>, actions: seq<Action>, i: nat, c: Cpu, p: Place)
    requires IsRun(states, actions) && i < |states| && c in states[i].cpu && SlotAt(states[i].cpu[c], p).Some?
    ensures var s := states[i]; var slot := SlotAt(s.cpu[c], p).value;
            slot.r in s.arcs && s.arcs[slot.r] == slot.t && slot.r !in s.owned
    ensures forall d, q | d in states[i].cpu && SlotAt(states[i].cpu[d], q).Some? && (d, q) != (c, p) ::
              SlotAt(states[i].cpu[d], q).value.r != SlotAt(states[i].cpu[c], p).value.r
  {
    RunInv(states, actions, i);
    var s := states[i];
    assert PointsAll(s.arcs, s.cpu[c]);
    OwnedIsNew(s, c);
    forall d, q | d in s.cpu && SlotAt(s.cpu[d], q).Some? && (d, q) != (c, p)
      ensures SlotAt(s.cpu[d], q).value.r != SlotAt(s.cpu[c], p).value.r
    {
      DifferentRefs(s, c, p, d, q);
    }
  }

  lemma DifferentRefs(s: State, c: Cpu, p: Place, d: Cpu, q: Place)
    requires Inv(s) && c in s.cpu && d in s.cpu && (d, q) != (c, p)
    requires SlotAt(s.cpu[c], p).Some? && SlotAt(s.cpu[d], q).Some?
    ensures SlotAt(s.cpu[d], q).value.r != SlotAt(s.cpu[c], p).value.r
  {
    if c == d {
      assert LocalInv(s.cpu[c]);
    } else {
      assert SlotAt(s.cpu[c], p).value.r in RefMap(s.cpu)[c];
      assert SlotAt(s.cpu[d], q).value.r in RefMap(s.cpu)[d];
    }
  }

  /** The previous slot is empty whenever a switch stores into it. */
  lemma PreviousIsEmpty(states: seq<State>, actions: seq<Action>, i: nat, c: Cpu)
    requires IsRun(states, actions) && i < |actions| && actions[i] == On(c, StorePrevious)
    ensures c in states[i].cpu && states[i].cpu[c].previous.None?
  {
    RunInv(states, actions, i);
    assert StepAt(states, actions, i);
    assert LocalInv(states[i].cpu[c]);
  }

  /**
   When a CPU exchanges contexts, the one it loads has been saved, the one it saves is its own, and no
   other CPU has either task.
   */
  lemma ContextsAreExclusive(states: seq<State>, actions: seq<Action>, i: nat, c: Cpu, d: Cpu)
    requires IsRun(states, actions) && i < |actions| && actions[i] == On(c, SwitchContext)
    requires d in states[i].cpu && d != c
    ensures var s := states[i]; c in s.cpu && var cs := s.cpu[c];
            && cs.current.Some? && cs.current.value.t !in s.live && TaskOf(cs.previous) <= s.live
            && TaskOf(cs.current) + TaskOf(cs.previous) !! Tasks(s.cpu[d])
  {
    RunInv(states, actions, i);
    assert StepAt(states, actions, i);
    var s := states[i];
    var cs := s.cpu[c];
    NextIsSaved(s, c);
    assert LocalInv(cs);
    assert LiveMap(s.cpu)[c] == TaskOf(cs.previous);
    TasksDisjoint(s, c, d);
  }
}
