/**
 The TLB shootdown protocol around one address space.

 CPUs join the address space, load its table, cache translations of it, leave its target set and only
 then load another table. Any number of flushers change
 the page table, collect flush requests, push them to the queues of the target CPUs, clear the
 acknowledgement flags, queue the remote calls and send the interrupts, and wait for the
 acknowledgements. A CPU's interrupt handler drains its calls; each call takes the whole queue,
 acknowledges, and then performs the requests one by one. One action is one such step; a lock-free
 load of the acknowledgement may fall between the two writes that another CPU makes under the
 queue's lock.
 */
module Shootdown {
  import opened TlbOps

  type Cpu = nat
  type Flusher = nat

  const BITS_PER_PART: nat := 64

  /** The `n`-th dispatch of a flusher. */
  datatype Batch = Batch(f: Flusher, n: nat)

  /** Where a CPU's interrupt handler is; `Flushing(i)` has performed the first `i` requests. */
  datatype Handler = Off | Draining | Swapping | Acking | Flushing(next: nat)

  datatype CpuState = CpuState(
    tlb: map<Vaddr, Frame>,  // what the CPU caches of this page table
    loaded: bool,          // the CPU runs on this page table
    queue: Ops,            // `FLUSH_OPS`
    queued: set<Batch>,    // the dispatches that went into `queue` since it was last taken
    ack: bool,             // `ACK_REMOTE_FLUSH`
    calls: nat,            // length of `CALL_QUEUES`
    ipi: bool,             // an interrupt is pending
    handler: Handler,
    hand: Ops,             // the queue the handler has taken
    held: set<Batch>)

  /** Where a flusher is. `remote` are its target CPUs other than its own. */
  datatype Pc =
    | Working
    | Loading(k: nat, acc: set<Cpu>)
    | Queueing(todo: set<Cpu>, remote: set<Cpu>, onSelf: bool)
    | Clearing(c: Cpu, todo: set<Cpu>, remote: set<Cpu>, onSelf: bool)
    | Calling(todo: set<Cpu>, remote: set<Cpu>, onSelf: bool)
    | Sending(todo: set<Cpu>, onSelf: bool)
    | Finishing(onSelf: bool, next: nat)
    | Syncing(todo: set<Cpu>)

  datatype FlusherState = FlusherState(on: Cpu, ops: Ops, n: nat, unsynced: set<Cpu>, pc: Pc)

  /**
   `content` and `reached` record what each dispatch asked for and which CPUs it was to reach;
   `performed` records who has done it.
   */
  datatype State = State(
    words: nat,
    pt: map<Vaddr, Frame>,
    targets: set<Cpu>,
    cpu: map<Cpu, CpuState>,
    fl: map<Flusher, FlusherState>,
    content: map<Batch, Ops>,
    reached: map<Batch, set<Cpu>>,
    performed: set<(Batch, Cpu)>)

  /** What CPUs do outside the protocol. */
  datatype EnvAction =
    | Join(c: Cpu)
    | LoadTable(c: Cpu)
    | Leave(c: Cpu)
    | LoadOther(c: Cpu)
    | Refill(c: Cpu, va: Vaddr)
    | Evict(c: Cpu, va: Vaddr)

  datatype FlushAction =
    | Map(va: Vaddr, fr: Frame)
    | Remap(va: Vaddr, fr: Frame)
    | Unmap(va: Vaddr)
    | UnmapRange(start: Vaddr, end: Vaddr)
    | BeginDispatch
    | LoadWord
    | StartQueueing
    | PushOps(to: Cpu)
    | ClearAck
    | StartCalling
    | PushCall(to: Cpu)
    | StartSending
    | SendIpi(to: Cpu)
    | StartFinishing
    | FlushLocal
    | Finish
    | BeginSync
    | SyncOne(to: Cpu)
    | EndSync

  datatype HandlerAction = TakeIpi | PopCall | Swap | Ack | FlushOne | EndFlush

  datatype Action =
    | Env(e: EnvAction)
    | Flush(f: Flusher, a: FlushAction)
    | Handle(c: Cpu, h: HandlerAction)

  // ---- Enabled actions and their effect ----

  /** The CPU runs on this page table. */
  predicate Loaded(s: State, c: Cpu) {
    c in s.cpu && s.cpu[c].loaded
  }

  /** The CPU runs on this page table and is known to. */
  predicate Active(s: State, c: Cpu) {
    Loaded(s, c) && c in s.targets
  }

  /** The CPU has left the target set and has not loaded another table yet. */
  predicate Leaving(s: State, c: Cpu) {
    Loaded(s, c) && c !in s.targets
  }

  predicate QueueLocked(s: State, c: Cpu) {
    (c in s.cpu && s.cpu[c].handler.Acking?) || exists f | f in s.fl :: s.fl[f].pc.Clearing? && s.fl[f].pc.c == c
  }

  predicate EnabledEnv(s: State, e: EnvAction) {
    && e.c in s.cpu
    && match e
       case Join(c) => c !in s.targets && !s.cpu[c].loaded
       case LoadTable(c) => c in s.targets && !s.cpu[c].loaded
       case Leave(c) => Active(s, c)
       case LoadOther(c) => Leaving(s, c)
       case Refill(c, va) => Loaded(s, c) && va in s.pt
       case Evict(c, va) => true
  }

  predicate EnabledFlush(s: State, f: Flusher, a: FlushAction) {
    && f in s.fl
    && var pc := s.fl[f].pc;
       match a
       case Map(va, fr) => pc.Working? && va !in s.pt
       case Remap(va, fr) => pc.Working? && va in s.pt
       case Unmap(va) => pc.Working? && va in s.pt
       case UnmapRange(_, _) => pc.Working?
       case BeginDispatch => pc.Working?
       case LoadWord => pc.Loading? && pc.k < s.words
       case StartQueueing => pc.Loading? && pc.k >= s.words
       case PushOps(c) => pc.Queueing? && c in pc.todo && c in s.cpu && !QueueLocked(s, c)
       case ClearAck => pc.Clearing? && pc.c in s.cpu
       case StartCalling => pc.Queueing? && pc.todo == {}
       case PushCall(c) => pc.Calling? && c in pc.todo && c in s.cpu && s.cpu[c].handler.Off?
       case StartSending => pc.Calling? && pc.todo == {}
       case SendIpi(c) => pc.Sending? && c in pc.todo && c in s.cpu
       case StartFinishing => pc.Sending? && pc.todo == {}
       case FlushLocal => pc.Finishing? && pc.onSelf && pc.next < FlushSteps(s.fl[f].ops) && s.fl[f].on in s.cpu
       case Finish => pc.Finishing? && (pc.onSelf ==> pc.next >= FlushSteps(s.fl[f].ops)) && s.fl[f].on in s.cpu
       case BeginSync => pc.Working?
       case SyncOne(c) => pc.Syncing? && c in pc.todo && c in s.cpu && s.cpu[c].ack
       case EndSync => pc.Syncing? && pc.todo == {}
  }

  predicate FlushFinished(cs: CpuState) {
    cs.handler.Flushing? && cs.handler.next >= FlushSteps(cs.hand)
  }

  predicate EnabledHandler(s: State, c: Cpu, h: HandlerAction) {
    && c in s.cpu
    && var cs := s.cpu[c];
       match h
       case TakeIpi => cs.ipi && cs.handler.Off?
       case PopCall => cs.handler.Draining?
       case Swap => cs.handler.Swapping? && !QueueLocked(s, c)
       case Ack => cs.handler.Acking?
       case FlushOne => cs.handler.Flushing? && !FlushFinished(cs)
       case EndFlush => FlushFinished(cs)
  }

  /** What happens to the CPU that acts. */
  function EnvCpu(s: State, e: EnvAction): CpuState
    requires EnabledEnv(s, e)
  {
    var cs := s.cpu[e.c];
    match e
    case Join(_) => cs
    case LoadTable(_) => cs.(tlb := map[], loaded := true)
    case Leave(_) => cs
    case LoadOther(_) => cs.(tlb := map[], loaded := false)
    case Refill(_, va) => cs.(tlb := cs.tlb[va := s.pt[va]])
    case Evict(_, va) => cs.(tlb := cs.tlb - {va})
  }

  function StepEnv(s: State, e: EnvAction): State
    requires EnabledEnv(s, e)
  {
    s.(cpu := s.cpu[e.c := EnvCpu(s, e)],
       targets := if e.Join? then s.targets + {e.c} else if e.Leave? then s.targets - {e.c} else s.targets)
  }

  function FramesIn(pt: map<Vaddr, Frame>, start: Vaddr, end: Vaddr): set<Frame> {
    set va | va in pt && start <= va < end :: pt[va]
  }

  function Outside(pt: map<Vaddr, Frame>, start: Vaddr, end: Vaddr): map<Vaddr, Frame> {
    map va | va in pt && !(start <= va < end) :: pt[va]
  }

  /** The CPUs of one word of the target set. */
  function WordOf(targets: set<Cpu>, k: nat): set<Cpu> {
    set c | c in targets && c / BITS_PER_PART == k
  }

  function Current(f: Flusher, fs: FlusherState): Batch {
    Batch(f, fs.n)
  }

  function TableAfter(s: State, a: FlushAction): map<Vaddr, Frame> {
    match a
    case Map(va, fr) => s.pt[va := fr]
    case Remap(va, fr) => s.pt[va := fr]
    case Unmap(va) => s.pt - {va}
    case UnmapRange(start, end) => Outside(s.pt, start, end)
    case _ => s.pt
  }

  /** The stack of the acting flusher. */
  function OpsAfter(s: State, fs: FlusherState, a: FlushAction): Ops {
    match a
    case Remap(va, _) => if va in s.pt then PushOp(fs.ops, Address(va), {s.pt[va]}) else fs.ops
    case Unmap(va) => if va in s.pt then PushOp(fs.ops, Address(va), {s.pt[va]}) else fs.ops
    case UnmapRange(start, end) => PushOp(fs.ops, Range(start, end), FramesIn(s.pt, start, end))
    case Finish => NO_OPS
    case _ => fs.ops
  }

  /** Where the acting flusher goes. */
  function PcAfter(s: State, f: Flusher, a: FlushAction): Pc
    requires EnabledFlush(s, f, a)
  {
    var fs := s.fl[f];
    var pc := fs.pc;
    match a
    case BeginDispatch => if IsEmpty(fs.ops) then Working else Loading(0, {})
    case LoadWord => Loading(pc.k + 1, pc.acc + WordOf(s.targets, pc.k))
    case StartQueueing => Queueing(pc.acc - {fs.on}, pc.acc - {fs.on}, fs.on in pc.acc)
    case PushOps(c) => Clearing(c, pc.todo - {c}, pc.remote, pc.onSelf)
    case ClearAck => Queueing(pc.todo, pc.remote, pc.onSelf)
    case StartCalling => Calling(pc.remote, pc.remote, pc.onSelf)
    case PushCall(c) => Calling(pc.todo - {c}, pc.remote, pc.onSelf)
    case StartSending => Sending(pc.remote, pc.onSelf)
    case SendIpi(c) => Sending(pc.todo - {c}, pc.onSelf)
    case StartFinishing => Finishing(pc.onSelf, 0)
    case FlushLocal => Finishing(pc.onSelf, pc.next + 1)
    case Finish => Working
    case BeginSync => Syncing(fs.unsynced)
    case SyncOne(c) => Syncing(pc.todo - {c})
    case EndSync => Working
    case _ => Working
  }

  function FlusherAfter(s: State, f: Flusher, a: FlushAction): FlusherState
    requires EnabledFlush(s, f, a)
  {
    var fs := s.fl[f];
    FlusherState(fs.on, OpsAfter(s, fs, a), if a.Finish? then fs.n + 1 else fs.n,
                 if a.ClearAck? then fs.unsynced + {fs.pc.c} else if a.EndSync? then {} else fs.unsynced,
                 PcAfter(s, f, a))
  }

  /** The CPU whose shared state the action changes, if it changes any. */
  predicate Touches(s: State, f: Flusher, a: FlushAction, c: Cpu)
    requires EnabledFlush(s, f, a)
  {
    match a
    case PushOps(d) => c == d
    case ClearAck => c == s.fl[f].pc.c
    case PushCall(d) => c == d
    case SendIpi(d) => c == d
    case FlushLocal => c == s.fl[f].on
    case _ => false
  }

  function CpuAfter(f: Flusher, fs: FlusherState, a: FlushAction, cs: CpuState): CpuState
    requires a.FlushLocal? ==> fs.pc.Finishing? && fs.pc.next < FlushSteps(fs.ops)
  {
    match a
    case PushOps(_) => cs.(queue := PushFrom(cs.queue, fs.ops), queued := cs.queued + {Current(f, fs)})
    case ClearAck => cs.(ack := false)
    case PushCall(_) => cs.(calls := cs.calls + 1)
    case SendIpi(_) => cs.(ipi := true)
    case FlushLocal => cs.(tlb := PerformAt(cs.tlb, fs.ops, fs.pc.next))
    case _ => cs
  }

  function StepFlush(s: State, f: Flusher, a: FlushAction): State
    requires EnabledFlush(s, f, a)
  {
    var fs := s.fl[f];
    State(s.words, TableAfter(s, a), s.targets,
          map c | c in s.cpu :: if Touches(s, f, a, c) then CpuAfter(f, fs, a, s.cpu[c]) else s.cpu[c],
          s.fl[f := FlusherAfter(s, f, a)],
          if a.BeginDispatch? && !IsEmpty(fs.ops) then s.content[Current(f, fs) := fs.ops] else s.content,
          if a.StartQueueing? then s.reached[Current(f, fs) := fs.pc.acc] else s.reached,
          if a.Finish? && fs.pc.onSelf then s.performed + {(Current(f, fs), fs.on)} else s.performed)
  }

  function HandlerAfter(cs: CpuState, h: HandlerAction): CpuState
    requires h.FlushOne? ==> cs.handler.Flushing? && !FlushFinished(cs)
  {
    match h
    case TakeIpi => cs.(ipi := false, handler := Draining)
    case PopCall => if cs.calls > 0 then cs.(calls := cs.calls - 1, handler := Swapping) else cs.(handler := Off)
    case Swap => cs.(hand := cs.queue, held := cs.queued, queue := NO_OPS, queued := {}, handler := Acking)
    case Ack => cs.(ack := true, handler := Flushing(0))
    case FlushOne =>
      cs.(tlb := PerformAt(cs.tlb, cs.hand, cs.handler.next), handler := Flushing(cs.handler.next + 1))
    case EndFlush => cs.(hand := NO_OPS, held := {}, handler := Draining)
  }

  function StepHandler(s: State, c: Cpu, h: HandlerAction): State
    requires EnabledHandler(s, c, h)
  {
    s.(cpu := s.cpu[c := HandlerAfter(s.cpu[c], h)],
       performed := if h.EndFlush? then s.performed + set b | b in s.cpu[c].held :: (b, c) else s.performed)
  }

  predicate Enabled(s: State, a: Action) {
    match a
    case Env(e) => EnabledEnv(s, e)
    case Flush(f, x) => EnabledFlush(s, f, x)
    case Handle(c, h) => EnabledHandler(s, c, h)
  }

  function Step(s: State, a: Action): State
    requires Enabled(s, a)
  {
    match a
    case Env(e) => StepEnv(s, e)
    case Flush(f, x) => StepFlush(s, f, x)
    case Handle(c, h) => StepHandler(s, c, h)
  }

  predicate Init(s: State) {
    && s.targets == {} && s.content == map[] && s.reached == map[] && s.performed == {}
    && (forall c | c in s.cpu ::
          && c < BITS_PER_PART * s.words
          && !s.cpu[c].loaded && s.cpu[c].tlb == map[]
          && s.cpu[c].queue == NO_OPS && s.cpu[c].queued == {} && s.cpu[c].ack
          && s.cpu[c].calls == 0 && !s.cpu[c].ipi && s.cpu[c].handler.Off?
          && s.cpu[c].hand == NO_OPS && s.cpu[c].held == {})
    && (forall f | f in s.fl ::
          && s.fl[f].on in s.cpu && s.fl[f].ops == NO_OPS && s.fl[f].n == 0
          && s.fl[f].unsynced == {} && s.fl[f].pc.Working?)
  }
}
