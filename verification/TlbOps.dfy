/**
 Pending TLB flushes: `TlbFlushOp` and `OpsStack`.

 `Ops` is the value of a stack of pending requests; `OpsStack` is the bounded array that stores it
 and collapses to "flush all" when the array would overflow. The page keeper, commented out in the
 source, is part of both: it keeps the unmapped frames alive until the flush has been performed.
 */
module TlbOps {
  import opened Base

  type Vaddr = nat
  type Frame = nat

  const FLUSH_ALL_RANGE_THRESHOLD: nat := 32 * PAGE_SIZE
  const FLUSH_ALL_OPS_THRESHOLD: nat := 32

  datatype TlbFlushOp =
    | All
    | Address(va: Vaddr)
    | Range(start: Vaddr, end: Vaddr)

  /** The addresses whose cached translation an operation removes. */
  predicate CoversOp(op: TlbFlushOp, a: Vaddr) {
    match op
    case All => true
    case Address(va) => a / PAGE_SIZE == va / PAGE_SIZE
    case Range(start, end) => start <= a < end
  }

  predicate IsLarge(op: TlbFlushOp) {
    op.Range? && op.end - op.start > 32 * PAGE_SIZE
  }

  /** Flushing an aligned range is flushing each of its pages by its address. */
  lemma RangeIsPages(start: Vaddr, end: Vaddr, a: Vaddr)
    requires start % PAGE_SIZE == 0 && end % PAGE_SIZE == 0
    ensures CoversOp(Range(start, end), a) <==>
              exists va | start <= va < end :: va % PAGE_SIZE == 0 && CoversOp(Address(va), a)
  {
    var page := a / PAGE_SIZE * PAGE_SIZE;
    assert page <= a < page + PAGE_SIZE && page % PAGE_SIZE == 0 && page / PAGE_SIZE == a / PAGE_SIZE;
    if CoversOp(Range(start, end), a) { assert CoversOp(Address(page), a); }
  }

  /** More than 32 pages are flushed as a whole; any other request stays as it is. */
  function OptimizeForLargeRange(op: TlbFlushOp): (r: TlbFlushOp)
    ensures forall a :: CoversOp(op, a) ==> CoversOp(r, a)
    ensures r == if IsLarge(op) then All else op
  {
    if op.Range? && op.end - op.start > FLUSH_ALL_RANGE_THRESHOLD then All else op
  }

  /** A stack of requests: flush everything, or these operations; and the frames to release afterwards. */
  datatype Ops = Ops(all: bool, list: seq<TlbFlushOp>, keeper: set<Frame>)

  const NO_OPS: Ops := Ops(false, [], {})

  predicate IsEmpty(o: Ops) {
    !o.all && o.list == []
  }

  predicate Covers(o: Ops, a: Vaddr) {
    o.all || exists op | op in o.list :: CoversOp(op, a)
  }

  /** A frame is kept only together with a request. */
  predicate WellFormed(o: Ops) {
    && (o.all ==> o.list == [])
    && |o.list| <= FLUSH_ALL_OPS_THRESHOLD
    && (o.keeper != {} ==> !IsEmpty(o))
  }

  function PushOp(o: Ops, op: TlbFlushOp, frames: set<Frame>): (r: Ops) {
    var keeper := o.keeper + frames;
    var op' := OptimizeForLargeRange(op);
    if o.all || op'.All? || |o.list| >= FLUSH_ALL_OPS_THRESHOLD then Ops(true, [], keeper)
    else Ops(false, o.list + [op'], keeper)
  }

  function PushFrom(o: Ops, other: Ops): (r: Ops) {
    var keeper := o.keeper + other.keeper;
    if o.all || other.all || |o.list| + |other.list| >= FLUSH_ALL_OPS_THRESHOLD then Ops(true, [], keeper)
    else Ops(false, o.list + other.list, keeper)
  }

  /** Everything that `p` asks for, `o` asks for too, and keeps the same frames alive. */
  predicate Includes(o: Ops, p: Ops) {
    && p.keeper <= o.keeper
    && (p.all ==> o.all)
    && (o.all || forall op | op in p.list :: op in o.list)
  }

  lemma IncludesCovers(o: Ops, p: Ops, a: Vaddr)
    requires Includes(o, p) && Covers(p, a)
    ensures Covers(o, a)
  {}

  /** `push` forgets no earlier request and registers the new one. */
  lemma PushOpIncludes(o: Ops, op: TlbFlushOp, frames: set<Frame>)
    requires WellFormed(o)
    ensures var r := PushOp(o, op, frames);
            && WellFormed(r) && !IsEmpty(r) && Includes(r, o) && frames <= r.keeper
            && (forall a | CoversOp(op, a) :: Covers(r, a))
  {
    var r := PushOp(o, op, frames);
    if !r.all {
      var op' := OptimizeForLargeRange(op);
      assert r.list[|o.list|] == op';
      assert op' in r.list;
    }
  }

  /** `push_from` forgets nothing of either stack. */
  lemma PushFromIncludes(o: Ops, other: Ops)
    requires WellFormed(o) && WellFormed(other)
    ensures var r := PushFrom(o, other);
            WellFormed(r) && Includes(r, o) && Includes(r, other)
  {}

  /**
   What `push` adds. Until the stack is full, or a request is for everything or for more than 32 pages,
   it asks for what it asked for before and for the new request, and for nothing else.
   */
  lemma PushOpExact(o: Ops, op: TlbFlushOp, frames: set<Frame>)
    requires WellFormed(o)
    ensures var r := PushOp(o, op, frames);
            && r.keeper == o.keeper + frames
            && (r.all <==> o.all || op.All? || IsLarge(op) || |o.list| == 32)
            && (!r.all ==> |r.list| == |o.list| + 1
                           && forall a :: Covers(r, a) <==> Covers(o, a) || CoversOp(op, a))
  {
    PushOpIncludes(o, op, frames);
  }

  /** What `push_from` adds, likewise. */
  lemma PushFromExact(o: Ops, other: Ops)
    ensures var r := PushFrom(o, other);
            && r.keeper == o.keeper + other.keeper
            && (r.all <==> o.all || other.all || |o.list| + |other.list| >= 32)
            && (!r.all ==> |r.list| == |o.list| + |other.list|
                           && forall a :: Covers(r, a) <==> Covers(o, a) || Covers(other, a))
  {
    var r := PushFrom(o, other);
    if !r.all {
      assert forall op | op in o.list :: op in r.list;
      assert forall op | op in other.list :: op in r.list;
    }
  }

  lemma IncludesTransitive(o: Ops, p: Ops, q: Ops)
    requires Includes(o, p) && Includes(p, q)
    ensures Includes(o, q)
  {}

  // ---- Any sequence of operations ----

  datatype StackEvent =
    | Pushed(op: TlbFlushOp, frames: set<Frame>)
    | PushedFrom(other: Ops)
    | Cleared

  function AfterEvents(es: seq<StackEvent>): (o: Ops) {
    if es == [] then NO_OPS
    else
      var o := AfterEvents(es[..|es| - 1]);
      match es[|es| - 1]
      case Pushed(op, frames) => PushOp(o, op, frames)
      case PushedFrom(other) => PushFrom(o, other)
      case Cleared => NO_OPS
  }

  predicate EventsWellFormed(es: seq<StackEvent>) {
    forall i | 0 <= i < |es| && es[i].PushedFrom? :: WellFormed(es[i].other)
  }

  lemma {:induction false} EventsKeepWellFormed(es: seq<StackEvent>)
    requires EventsWellFormed(es)
    ensures WellFormed(AfterEvents(es))
  {
    if es != [] {
      var init, last := es[..|es| - 1], es[|es| - 1];
      EventsKeepWellFormed(init);
      match last
      case Pushed(op, frames) => PushOpIncludes(AfterEvents(init), op, frames);
      case PushedFrom(other) => PushFromIncludes(AfterEvents(init), other);
      case Cleared =>
    }
  }

  /**
   However often the stack has collapsed to "flush all", it still asks for every request since it was
   last cleared and still keeps every frame handed over since then.
   */
  lemma {:induction false} OverApproximates(es: seq<StackEvent>, i: nat)
    requires EventsWellFormed(es) && i < |es| && !es[i].Cleared?
    requires forall j | i < j < |es| :: !es[j].Cleared?
    ensures var o := AfterEvents(es);
            match es[i]
            case Pushed(op, frames) => frames <= o.keeper && forall a | CoversOp(op, a) :: Covers(o, a)
            case PushedFrom(other) => Includes(o, other)
  {
    var init, last := es[..|es| - 1], es[|es| - 1];
    var before, o := AfterEvents(init), AfterEvents(es);
    EventsKeepWellFormed(init);
    match last {
      case Pushed(op, frames) => PushOpIncludes(before, op, frames);
      case PushedFrom(other) => PushFromIncludes(before, other);
    }
    if i < |es| - 1 {
      OverApproximates(init, i);
      assert init[i] == es[i];
      match es[i] {
        case Pushed(op, _) =>
          forall a | CoversOp(op, a) ensures Covers(o, a) { IncludesCovers(o, before, a); }
        case PushedFrom(other) => IncludesTransitive(o, before, other);
      }
    }
  }

  /** Event `i` has happened after the last time the stack was cleared. */
  predicate Pending(es: seq<StackEvent>, i: nat) {
    i < |es| && !es[i].Cleared? && forall j | i < j < |es| :: !es[j].Cleared?
  }

  predicate AsksFor(e: StackEvent, a: Vaddr) {
    match e
    case Pushed(op, _) => CoversOp(op, a)
    case PushedFrom(other) => Covers(other, a)
    case Cleared => false
  }

  predicate HandsOver(e: StackEvent, fr: Frame) {
    match e
    case Pushed(_, frames) => fr in frames
    case PushedFrom(other) => fr in other.keeper
    case Cleared => false
  }

  /**
   The stack keeps exactly the frames handed over since it was last cleared; and as long as it has not
   collapsed, it asks for exactly what it has been asked for since then.
   */
  lemma {:induction false} NothingInvented(es: seq<StackEvent>, a: Vaddr, fr: Frame)
    requires EventsWellFormed(es)
    ensures fr in AfterEvents(es).keeper <==> exists i | 0 <= i < |es| :: Pending(es, i) && HandsOver(es[i], fr)
    ensures !AfterEvents(es).all ==>
              (Covers(AfterEvents(es), a) <==> exists i | 0 <= i < |es| :: Pending(es, i) && AsksFor(es[i], a))
  {
    if es != [] && !es[|es| - 1].Cleared? {
      var n := |es| - 1;
      var init := es[..n];
      NothingInvented(init, a, fr);
      EventsKeepWellFormed(init);
      match es[n] {
        case Pushed(op, frames) => PushOpExact(AfterEvents(init), op, frames);
        case PushedFrom(other) => PushFromExact(AfterEvents(init), other);
      }
      forall i | 0 <= i < n ensures Pending(es, i) <==> Pending(init, i) { PendingBefore(es, i); }
      assert Pending(es, n);
    }
  }

  lemma PendingBefore(es: seq<StackEvent>, i: nat)
    requires i < |es| - 1 && !es[|es| - 1].Cleared?
    ensures Pending(es, i) <==> Pending(es[..|es| - 1], i)
  {}

  // ---- The bounded array ----

  datatype Slot = Empty | Full(op: TlbFlushOp)

  class OpsStack {
    const ops: array<Slot>
    var needFlushAll: bool
    var size: nat
    var pageKeeper: set<Frame>

    /** The used slots are filled. */
    ghost predicate Shaped()
      reads this, ops
    {
      && ops.Length == FLUSH_ALL_OPS_THRESHOLD
      && size <= FLUSH_ALL_OPS_THRESHOLD
      && (forall i | 0 <= i < size :: ops[i].Full?)
    }

    ghost predicate Valid()
      reads this, ops
    {
      Shaped() && (needFlushAll ==> size == 0) && WellFormed(Value())
    }

    /** The requests the array holds. */
    ghost function Value(): Ops
      reads this, ops
    {
      Ops(needFlushAll, Listed(ops[..], size), pageKeeper)
    }

    constructor ()
      ensures Valid() && fresh(ops) && Value() == NO_OPS
    {
      ops := new Slot[FLUSH_ALL_OPS_THRESHOLD](_ => Empty);
      needFlushAll := false;
      size := 0;
      pageKeeper := {};
    }

    method IsEmptyStack() returns (r: bool)
      requires Valid()
      ensures r <==> IsEmpty(Value())
    {
      ListedLength(ops[..], size);
      return !needFlushAll && size == 0;
    }

    method Push(op: TlbFlushOp, dropAfterFlush: set<Frame>)
      requires Valid()
      modifies this, ops
      ensures Valid() && Value() == PushOp(old(Value()), op, dropAfterFlush)
    {
      PushOpIncludes(Value(), op, dropAfterFlush);
      ListedLength(ops[..], size);
      pageKeeper := pageKeeper + dropAfterFlush;
      if needFlushAll { return; }
      var op' := OptimizeForLargeRange(op);
      if op' == All || size >= FLUSH_ALL_OPS_THRESHOLD {
        needFlushAll := true;
        size := 0;
        return;
      }
      Append(Full(op'));
    }

    /** Stores one request in the next free slot. */
    method Append(slot: Slot)
      requires Shaped() && size < FLUSH_ALL_OPS_THRESHOLD && slot.Full?
      modifies this`size, ops
      ensures Shaped() && size == old(size) + 1
      ensures Listed(ops[..], size) == old(Listed(ops[..], size)) + [slot.op]
    {
      ghost var before := ops[..];
      ops[size] := slot;
      size := size + 1;
      ListedSame(before, ops[..], size - 1);
    }

    method PushAllFrom(other: OpsStack)
      requires Valid() && other.Valid() && other != this && other.ops != ops
      modifies this, ops
      ensures Valid() && Value() == PushFrom(old(Value()), other.Value())
      ensures other.Value() == old(other.Value())
    {
      PushFromIncludes(Value(), other.Value());
      ListedLength(ops[..], size);
      ListedLength(other.ops[..], other.size);
      pageKeeper := pageKeeper + other.pageKeeper;
      if needFlushAll { return; }
      if other.needFlushAll || size + other.size >= FLUSH_ALL_OPS_THRESHOLD {
        needFlushAll := true;
        size := 0;
        return;
      }
      ghost var mine := Listed(ops[..], size);
      for i := 0 to other.size
        invariant Shaped() && !needFlushAll && size == old(size) + i
        invariant pageKeeper == old(pageKeeper) + other.pageKeeper
        invariant Listed(ops[..], size) == mine + Listed(other.ops[..], i)
      {
        Append(other.ops[i]);
      }
    }

    /** Empties the stack without flushing, and releases the frames. */
    method ClearWithoutFlush()
      requires Valid()
      modifies this
      ensures Valid() && Value() == NO_OPS
    {
      needFlushAll := false;
      size := 0;
      pageKeeper := {};
    }

    /**
     Performs the requests on the TLB of the current CPU, then releases the frames. Every translation
     that any request covers is gone, and nothing is added.
     */
    method FlushAll(tlb: map<Vaddr, Frame>) returns (flushed: map<Vaddr, Frame>)
      requires Valid()
      modifies this
      ensures Valid() && Value() == NO_OPS
      ensures forall a | a in tlb :: a in flushed <==> !old(Covers(Value(), a))
      ensures forall a | a in flushed :: a in tlb && flushed[a] == tlb[a]
    {
      if needFlushAll {
        flushed := map[];
      } else {
        flushed := tlb;
        ghost var list := Value().list;
        ListedLength(ops[..], size);
        for i := 0 to size
          modifies {}
          invariant forall a | a in tlb :: a in flushed <==> !CoveredBefore(list, i, a)
          invariant forall a | a in flushed :: a in tlb && flushed[a] == tlb[a]
        {
          ListedAt(ops[..], size, i);
          flushed := Perform(flushed, ops[i].op);
        }
        CoveredBeforeIsCovers(Value());
      }
      ClearWithoutFlush();
    }
  }

  predicate CoveredBefore(list: seq<TlbFlushOp>, n: nat, a: Vaddr)
    requires n <= |list|
  {
    n > 0 && (CoversOp(list[n - 1], a) || CoveredBefore(list, n - 1, a))
  }

  lemma {:induction false} CoveredBeforeMeans(list: seq<TlbFlushOp>, n: nat, a: Vaddr)
    requires n <= |list|
    ensures CoveredBefore(list, n, a) <==> exists j | 0 <= j < n :: CoversOp(list[j], a)
  {
    if n > 0 { CoveredBeforeMeans(list, n - 1, a); }
  }

  lemma CoveredBeforeIsCovers(o: Ops)
    requires !o.all
    ensures forall a :: CoveredBefore(o.list, |o.list|, a) <==> Covers(o, a)
  {
    forall a ensures CoveredBefore(o.list, |o.list|, a) <==> Covers(o, a) {
      CoveredBeforeMeans(o.list, |o.list|, a);
      if Covers(o, a) {
        var op :| op in o.list && CoversOp(op, a);
        var j :| 0 <= j < |o.list| && o.list[j] == op;
      }
    }
  }

  /** The effect of one operation on a TLB. */
  function Perform(tlb: map<Vaddr, Frame>, op: TlbFlushOp): (r: map<Vaddr, Frame>)
    ensures forall a | a in tlb :: a in r <==> !CoversOp(op, a)
    ensures forall a | a in r :: a in tlb && r[a] == tlb[a]
  {
    map a | a in tlb && !CoversOp(op, a) :: tlb[a]
  }

  /** How many steps `flush_all` takes. */
  function FlushSteps(o: Ops): nat {
    if o.all then 1 else |o.list|
  }

  /** The TLB after one more step of `flush_all`. */
  function PerformAt(tlb: map<Vaddr, Frame>, o: Ops, next: nat): (r: map<Vaddr, Frame>)
    requires next < FlushSteps(o)
  {
    if o.all then map[] else Perform(tlb, o.list[next])
  }

  /** Some request that `flush_all` has not reached after `next` steps covers the address. */
  predicate CoversFrom(o: Ops, next: nat, a: Vaddr) {
    if o.all then next == 0 else exists j | next <= j < |o.list| :: CoversOp(o.list[j], a)
  }

  lemma CoversFromStart(o: Ops, a: Vaddr)
    requires Covers(o, a)
    ensures CoversFrom(o, 0, a)
  {
    if !o.all {
      var op :| op in o.list && CoversOp(op, a);
      var j :| 0 <= j < |o.list| && o.list[j] == op;
      assert CoversOp(o.list[j], a);
    }
  }

  /** A translation that survives a step is covered by a later one; after the last step nothing is left to do. */
  lemma CoversLater(tlb: map<Vaddr, Frame>, o: Ops, next: nat, a: Vaddr)
    requires CoversFrom(o, next, a)
    ensures next < FlushSteps(o)
    ensures a in PerformAt(tlb, o, next) ==> CoversFrom(o, next + 1, a)
  {}

  /** The operations in the first `n` slots. */
  function Listed(slots: seq<Slot>, n: nat): seq<TlbFlushOp> {
    if n == 0 || n > |slots| then []
    else Listed(slots, n - 1) + (match slots[n - 1] case Full(op) => [op] case Empty => [])
  }

  lemma {:induction false} ListedLength(slots: seq<Slot>, n: nat)
    requires n <= |slots| && forall i | 0 <= i < n :: slots[i].Full?
    ensures |Listed(slots, n)| == n
  {
    if n > 0 { ListedLength(slots, n - 1); }
  }

  lemma {:induction false} ListedAt(slots: seq<Slot>, n: nat, i: nat)
    requires i < n <= |slots| && forall j | 0 <= j < n :: slots[j].Full?
    ensures |Listed(slots, n)| == n && Listed(slots, n)[i] == slots[i].op
  {
    ListedLength(slots, n);
    ListedLength(slots, n - 1);
    if i < n - 1 { ListedAt(slots, n - 1, i); }
  }

  lemma {:induction false} ListedSame(s: seq<Slot>, r: seq<Slot>, n: nat)
    requires n <= |s| == |r| && forall i | 0 <= i < n :: s[i] == r[i]
    ensures Listed(s, n) == Listed(r, n)
  {
    if n > 0 { ListedSame(s, r, n - 1); }
  }
}
