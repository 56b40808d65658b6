/**
 Mapping and unmapping in a user address space, and the TLB of the CPU that does it.

 The page table is a table of base pages. Which page-table nodes exist, and so where `unmap` can detach
 a whole subtree at once, is an input; so are the translations that the CPU loads from the live table
 while `unmap` is at work.
 */
module VmSpace {
  import opened Base
  import opened TlbOps
  import Shootdown

  const ENTRIES_PER_NODE: nat := 512

  function KeysIn(pt: map<Vaddr, Frame>, start: Vaddr, end: Vaddr): set<Vaddr> {
    set a | a in pt && start <= a < end
  }

  /** What the page-table node at a level spans. */
  function PageSize(level: nat): (size: nat)
    requires level >= 1
    ensures size > 0 && size % PAGE_SIZE == 0
  {
    if level == 1 then PAGE_SIZE else ENTRIES_PER_NODE * PageSize(level - 1)
  }

  /** Every cached translation is the one in the table. */
  predicate Coherent(tlb: map<Vaddr, Frame>, pt: map<Vaddr, Frame>) {
    forall a | a in tlb :: a in pt && pt[a] == tlb[a]
  }

  /** Every cached translation is the one in the table or is going to be flushed. */
  predicate Covered(tlb: map<Vaddr, Frame>, pt: map<Vaddr, Frame>, o: Ops) {
    forall a | a in tlb :: (a in pt && pt[a] == tlb[a]) || Covers(o, a)
  }

  /** What the CPU loads from the table into its TLB. */
  function Refill(tlb: map<Vaddr, Frame>, pt: map<Vaddr, Frame>, loads: set<Vaddr>): map<Vaddr, Frame> {
    tlb + map a | a in loads && a in pt :: pt[a]
  }

  lemma RefillCovered(tlb: map<Vaddr, Frame>, pt: map<Vaddr, Frame>, o: Ops, loads: set<Vaddr>)
    requires Covered(tlb, pt, o)
    ensures Covered(Refill(tlb, pt, loads), pt, o)
  {}

  /** Taking mappings out of the table is safe once a request that covers them is on the stack. */
  lemma RemoveCovered(tlb: map<Vaddr, Frame>, pt: map<Vaddr, Frame>, o: Ops, pt': map<Vaddr, Frame>,
                      op: TlbFlushOp, frames: set<Frame>)
    requires WellFormed(o) && Covered(tlb, pt, o)
    requires forall a | a in pt && !(a in pt' && pt'[a] == pt[a]) :: CoversOp(op, a)
    ensures Covered(tlb, pt', PushOp(o, op, frames))
  {
    PushOpIncludes(o, op, frames);
    forall a | a in tlb ensures (a in pt' && pt'[a] == tlb[a]) || Covers(PushOp(o, op, frames), a) {
      if Covers(o, a) { IncludesCovers(PushOp(o, op, frames), o, a); }
    }
  }

  lemma KeysSplit(pt: map<Vaddr, Frame>, a: Vaddr, b: Vaddr, c: Vaddr)
    requires a <= b <= c
    ensures |KeysIn(pt, a, c)| == |KeysIn(pt, a, b)| + |KeysIn(pt, b, c)|
  {
    assert KeysIn(pt, a, c) == KeysIn(pt, a, b) + KeysIn(pt, b, c);
    assert KeysIn(pt, a, b) !! KeysIn(pt, b, c);
  }

  /** Where the next page-table node to detach is, if the table has one there. */
  datatype Choice = NextPage | Subtree(base: Vaddr, level: nat)

  datatype Frag =
    | Nothing
    | Mapped(va: Vaddr, frame: Frame)
    | StrayPageTable(base: Vaddr, size: nat, frames: set<Frame>, numFrames: nat)

  datatype UnmapResult = Panicked | Unmapped(num: nat)
  datatype MapResult = OutOfRange | Fresh | Replaced

  /** All that was mapped between the old and the new position of the cursor has been taken out. */
  predicate Took(pt: map<Vaddr, Frame>, va: Vaddr, frag: Frag, pt': map<Vaddr, Frame>, va': Vaddr) {
    && va <= va' && pt' == Shootdown.Outside(pt, va, va')
    && match frag
       case Nothing => KeysIn(pt, va, va') == {}
       case Mapped(a, frame) =>
         va' == a + PAGE_SIZE && KeysIn(pt, va, va') == {a} && a in pt && pt[a] == frame
       case StrayPageTable(base, size, frames, numFrames) =>
         && va <= base && 0 < size && va' == base + size && KeysIn(pt, va, va') == KeysIn(pt, base, va')
         && numFrames == |KeysIn(pt, va, va')| && frames == Shootdown.FramesIn(pt, base, va')
  }

  function SubtreeAt(pt: map<Vaddr, Frame>, base: Vaddr, size: nat): Frag {
    StrayPageTable(base, size, Shootdown.FramesIn(pt, base, base + size), |KeysIn(pt, base, base + size)|)
  }

  lemma SubtreeTook(pt: map<Vaddr, Frame>, va: Vaddr, base: Vaddr, size: nat)
    requires va <= base && size > 0 && KeysIn(pt, va, base) == {}
    ensures Took(pt, va, SubtreeAt(pt, base, size), Shootdown.Outside(pt, base, base + size), base + size)
  {
    forall a | a in pt ensures !(va <= a < base) { assert a !in KeysIn(pt, va, base); }
    assert KeysIn(pt, va, base + size) == KeysIn(pt, base, base + size);
  }

  lemma OnePageAt(a: Vaddr, va: Vaddr)
    requires a % PAGE_SIZE == 0 && va % PAGE_SIZE == 0 && va <= a < va + PAGE_SIZE
    ensures a == va
  {}

  lemma PageTook(pt: map<Vaddr, Frame>, start: Vaddr, va: Vaddr)
    requires start <= va && va in pt && va % PAGE_SIZE == 0 && forall a | a in pt :: a % PAGE_SIZE == 0
    requires forall a | a in pt :: !(start <= a < va)
    ensures Took(pt, start, Mapped(va, pt[va]), pt - {va}, va + PAGE_SIZE)
  {
    forall a | a in pt && va <= a < va + PAGE_SIZE ensures a == va { OnePageAt(a, va); }
  }

  function Taken(frag: Frag): nat {
    match frag
    case Nothing => 0
    case Mapped(_, _) => 1
    case StrayPageTable(_, _, _, numFrames) => numFrames
  }

  function RequestFor(o: Ops, frag: Frag): Ops {
    match frag
    case Nothing => o
    case Mapped(a, frame) => PushOp(o, Address(a), {frame})
    case StrayPageTable(base, size, frames, _) => PushOp(o, Range(base, base + size), frames)
  }

  /**
   The stack has grown by one request per page, has not collapsed, and asks for nothing outside the range
   that it did not ask for before.
   */
  ghost predicate Narrow(o: Ops, o': Ops, start: Vaddr, end: Vaddr, pages: nat) {
    && !o'.all && |o'.list| == |o.list| + pages
    && (forall a: Vaddr | Covers(o', a) :: Covers(o, a) || start <= a < end)
  }

  /** Page by page, and as long as the stack has room for the pages, it stays narrow. */
  ghost predicate Economical(plan: seq<Choice>, o: Ops, o': Ops, start: Vaddr, end: Vaddr, pages: nat) {
    PageByPage(plan) && !o.all && |o.list| + pages <= 32 ==> Narrow(o, o', start, end, pages)
  }

  lemma EconomicalStep(plan: seq<Choice>, o: Ops, o': Ops, start: Vaddr, end: Vaddr, pages: nat, frag: Frag)
    requires WellFormed(o') && Economical(plan, o, o', start, end, pages) && end % PAGE_SIZE == 0
    requires frag.StrayPageTable? ==> !PageByPage(plan)
    requires frag.Mapped? ==> frag.va % PAGE_SIZE == 0 && start <= frag.va < end
    ensures Economical(plan, o, RequestFor(o', frag), start, end, pages + Taken(frag))
  {
    if frag.Mapped? && PageByPage(plan) && !o.all && |o.list| + pages < 32 {
      NarrowStep(o, o', start, end, pages, frag.va, frag.frame);
    }
  }

  lemma NarrowStep(o: Ops, o': Ops, start: Vaddr, end: Vaddr, pages: nat, va: Vaddr, frame: Frame)
    requires WellFormed(o') && Narrow(o, o', start, end, pages) && |o.list| + pages < 32
    requires va % PAGE_SIZE == 0 && end % PAGE_SIZE == 0 && start <= va < end
    ensures Narrow(o, PushOp(o', Address(va), {frame}), start, end, pages + 1)
  {
    PushOpExact(o', Address(va), {frame});
    forall a: Vaddr | CoversOp(Address(va), a) ensures start <= a < end {}
  }

  /** The request issued for what was taken covers all of it. */
  lemma TookCovered(tlb: map<Vaddr, Frame>, pt: map<Vaddr, Frame>, va: Vaddr, frag: Frag,
                    pt': map<Vaddr, Frame>, va': Vaddr, o: Ops)
    requires WellFormed(o) && Covered(tlb, pt, o) && Took(pt, va, frag, pt', va')
    ensures Covered(tlb, pt', RequestFor(o, frag))
  {
    forall a | a in pt && va <= a < va' ensures a in KeysIn(pt, va, va') {}
    match frag
    case Nothing =>
    case Mapped(a, frame) => RemoveCovered(tlb, pt, o, pt', Address(a), {frame});
    case StrayPageTable(base, size, frames, _) => RemoveCovered(tlb, pt, o, pt', Range(base, base + size), frames);
  }

  /** The table and the count after one more step of the loop. */
  lemma TookMore(pt0: map<Vaddr, Frame>, start: Vaddr, pt: map<Vaddr, Frame>, va: Vaddr, frag: Frag,
                 pt': map<Vaddr, Frame>, va': Vaddr)
    requires start <= va && pt == Shootdown.Outside(pt0, start, va) && Took(pt, va, frag, pt', va')
    ensures pt' == Shootdown.Outside(pt0, start, va')
    ensures |KeysIn(pt0, start, va')| == |KeysIn(pt0, start, va)| + Taken(frag)
  {
    KeysSplit(pt0, start, va, va');
    assert KeysIn(pt0, va, va') == KeysIn(pt, va, va');
    assert frag.Mapped? ==> |{frag.va}| == 1;
  }

  /** No round detaches a subtree. */
  predicate PageByPage(plan: seq<Choice>) {
    forall i | 0 <= i < |plan| :: plan[i].NextPage?
  }

  class CursorMut {
    var pt: map<Vaddr, Frame>
    var va: Vaddr
    var tlb: map<Vaddr, Frame>   // of the CPU the cursor is on
    const barrierEnd: Vaddr
    const onTarget: bool         // that CPU is in the target set of the flusher
    const flusher: OpsStack

    ghost predicate Valid()
      reads this, flusher, flusher.ops
    {
      && flusher.Valid()
      && va % PAGE_SIZE == 0 && barrierEnd % PAGE_SIZE == 0 && va <= barrierEnd
      && (forall a | a in pt :: a % PAGE_SIZE == 0)
    }

    constructor (pt: map<Vaddr, Frame>, va: Vaddr, tlb: map<Vaddr, Frame>, barrierEnd: Vaddr, onTarget: bool)
      requires va % PAGE_SIZE == 0 && barrierEnd % PAGE_SIZE == 0 && va <= barrierEnd
      requires forall a | a in pt :: a % PAGE_SIZE == 0
      ensures Valid() && fresh(flusher) && fresh(flusher.ops) && flusher.Value() == NO_OPS
      ensures this.pt == pt && this.va == va && this.tlb == tlb
      ensures this.barrierEnd == barrierEnd && this.onTarget == onTarget
    {
      this.pt, this.va, this.tlb, this.barrierEnd, this.onTarget := pt, va, tlb, barrierEnd, onTarget;
      this.flusher := new OpsStack();
    }

    /** Skips absent entries up to `to`. */
    method SkipAbsent(to: Vaddr)
      requires Valid() && va <= to <= barrierEnd && to % PAGE_SIZE == 0
      modifies this`va
      ensures Valid() && old(va) <= va <= to
      ensures forall a | a in pt :: !(old(va) <= a < va)
      ensures va < to ==> va in pt
    {
      while va < to && va !in pt
        invariant Valid() && old(va) <= va <= to
        invariant forall a | a in pt :: !(old(va) <= a < va)
      {
        assert forall a | a in pt && va <= a < va + PAGE_SIZE :: a == va;
        va := va + PAGE_SIZE;
      }
    }

    /** There is a page-table node with nothing mapped before it that ends before `end`. */
    predicate CanDetach(end: Vaddr, choice: Choice)
      reads this
    {
      && choice.Subtree? && choice.level >= 2 && choice.base % PageSize(choice.level) == 0
      && va <= choice.base && choice.base + PageSize(choice.level) <= end && KeysIn(pt, va, choice.base) == {}
    }

    method TakeSubtree(base: Vaddr, size: nat) returns (frag: Frag)
      requires Valid() && base % PAGE_SIZE == 0 && size % PAGE_SIZE == 0 && size > 0
      requires va <= base && base + size <= barrierEnd && KeysIn(pt, va, base) == {}
      modifies this`va, this`pt
      ensures Valid() && va == base + size && frag.StrayPageTable? && Took(old(pt), old(va), frag, pt, va)
    {
      SubtreeTook(pt, va, base, size);
      frag := SubtreeAt(pt, base, size);
      va, pt := base + size, Shootdown.Outside(pt, base, base + size);
    }

    method TakePage(end: Vaddr) returns (frag: Frag)
      requires Valid() && va <= end <= barrierEnd && end % PAGE_SIZE == 0
      modifies this`va, this`pt
      ensures Valid() && va <= end && (frag.Nothing? ==> va == end) && Took(old(pt), old(va), frag, pt, va)
      ensures frag.Mapped? || frag.Nothing?
    {
      SkipAbsent(end);
      if va == end { return Nothing; }
      PageTook(pt, old(va), va);
      frag := Mapped(va, pt[va]);
      va, pt := va + PAGE_SIZE, pt - {va};
    }

    /** Removes the next mapped page, or the next subtree of the table, before `end`. */
    method TakeNext(end: Vaddr, choice: Choice) returns (frag: Frag)
      requires Valid() && va <= end <= barrierEnd && end % PAGE_SIZE == 0
      modifies this`va, this`pt
      ensures Valid() && va <= end && (frag.Nothing? ==> va == end) && Took(old(pt), old(va), frag, pt, va)
      ensures frag.StrayPageTable? <==> old(CanDetach(end, choice))
    {
      if CanDetach(end, choice) {
        AlignedToPage(choice.base, PageSize(choice.level));
        frag := TakeSubtree(choice.base, PageSize(choice.level));
      } else {
        frag := TakePage(end);
      }
    }

    /** Performs or drops the pending requests on this CPU. */
    method DispatchTlbFlush()
      requires Valid() && Covered(tlb, pt, flusher.Value())
      modifies this`tlb, flusher, flusher.ops
      ensures Valid() && flusher.Value() == NO_OPS
      ensures if onTarget then Coherent(tlb, pt) else tlb == old(tlb)
      ensures forall a | a in tlb :: a in old(tlb) && tlb[a] == old(tlb)[a]
      ensures onTarget ==> forall a | a in old(tlb) :: a in tlb <==> !Covers(old(flusher.Value()), a)
    {
      var empty := flusher.IsEmptyStack();
      if empty { return; }
      if onTarget {
        tlb := flusher.FlushAll(tlb);
      } else {
        flusher.ClearWithoutFlush();
      }
    }

    /** The request for what was taken out of the table. */
    method IssueFor(frag: Frag)
      requires Valid()
      modifies flusher, flusher.ops
      ensures Valid() && flusher.Value() == RequestFor(old(flusher.Value()), frag)
    {
      match frag
      case Nothing =>
      case Mapped(a, frame) => flusher.Push(Address(a), {frame});
      case StrayPageTable(base, size, frames, _) => flusher.Push(Range(base, base + size), frames);
    }

    /** One round of the loop of `Unmap`: take, issue; meanwhile the CPU loads translations. */
    method UnmapNext(end: Vaddr, choice: Choice, loads: set<Vaddr>) returns (frag: Frag)
      requires Valid() && va <= end <= barrierEnd && end % PAGE_SIZE == 0
      requires Covered(tlb, pt, flusher.Value())
      modifies this, flusher, flusher.ops
      ensures Valid() && va <= end && (frag.Nothing? ==> va == end) && Took(old(pt), old(va), frag, pt, va)
      ensures Covered(tlb, pt, flusher.Value()) && (!onTarget ==> tlb == old(tlb)) && old(tlb).Keys <= tlb.Keys
      ensures flusher.Value() == RequestFor(old(flusher.Value()), frag) && (choice.NextPage? ==> !frag.StrayPageTable?)
    {
      frag := TakeNext(end, choice);
      TookCovered(tlb, old(pt), old(va), frag, pt, va, flusher.Value());
      IssueFor(frag);
      if onTarget {
        RefillCovered(tlb, pt, flusher.Value(), loads);
        tlb := Refill(tlb, pt, loads);
      }
    }

    /** The loop of `Unmap`: takes out everything before `end` and issues the requests. */
    method TakeAll(end: Vaddr, plan: seq<Choice>, loads: seq<set<Vaddr>>) returns (num: nat)
      requires Valid() && Covered(tlb, pt, flusher.Value()) && va <= end <= barrierEnd && end % PAGE_SIZE == 0
      modifies this, flusher, flusher.ops
      ensures Valid() && va == end && pt == Shootdown.Outside(old(pt), old(va), end)
      ensures num == |KeysIn(old(pt), old(va), end)|
      ensures Covered(tlb, pt, flusher.Value()) && (!onTarget ==> tlb == old(tlb)) && old(tlb).Keys <= tlb.Keys
      ensures Economical(plan, old(flusher.Value()), flusher.Value(), old(va), end, num)
    {
      ghost var start, o := va, flusher.Value();
      var i := 0;
      num := 0;
      assert pt == Shootdown.Outside(old(pt), start, va);
      while true
        invariant Valid() && start == old(va) <= va <= end <= barrierEnd && end % PAGE_SIZE == 0
        invariant pt == Shootdown.Outside(old(pt), start, va) && num == |KeysIn(old(pt), start, va)|
        invariant Covered(tlb, pt, flusher.Value()) && (!onTarget ==> tlb == old(tlb)) && old(tlb).Keys <= tlb.Keys
        invariant Economical(plan, o, flusher.Value(), start, end, num)
        decreases end - va
      {
        ghost var pt0, va0, o0 := pt, va, flusher.Value();
        var frag := UnmapNext(end, if i < |plan| then plan[i] else NextPage, if i < |loads| then loads[i] else {});
        TookMore(old(pt), start, pt0, va0, frag, pt, va);
        EconomicalStep(plan, o, o0, start, end, num, frag);
        if frag.Nothing? { break; }
        num, i := num + Taken(frag), i + 1;
      }
    }

    /**
     Removes exactly the mappings of `[va, va + len)`, counts them, and leaves the TLB of this CPU
     coherent with the table if the CPU is a target. `plan` and `loads` say, round by round, where
     subtrees can be detached and what the CPU loads meanwhile. Page by page, and as long as the
     stack has room, nothing else is flushed.
     */
    method Unmap(len: nat, plan: seq<Choice>, loads: seq<set<Vaddr>>) returns (r: UnmapResult)
      requires Valid() && Covered(tlb, pt, flusher.Value()) && va + len <= USIZE_MAX
      modifies this, flusher, flusher.ops
      ensures Valid()
      ensures r.Panicked? <==> len % PAGE_SIZE != 0 || old(va) + len > barrierEnd
      ensures r.Panicked? ==>
        pt == old(pt) && va == old(va) && tlb == old(tlb) && flusher.Value() == old(flusher.Value())
      ensures r.Unmapped? ==>
        && pt == Shootdown.Outside(old(pt), old(va), old(va) + len) && va == old(va) + len
        && r.num == |KeysIn(old(pt), old(va), old(va) + len)|
        && flusher.Value() == NO_OPS
        && (if onTarget then Coherent(tlb, pt) else tlb == old(tlb))
      ensures r.Unmapped? && PageByPage(plan) && !old(flusher.Value().all)
              && old(|flusher.Value().list|) + r.num <= 32 ==>
        forall a | a in old(tlb) && !(old(va) <= a < old(va) + len) && !old(Covers(flusher.Value(), a)) :: a in tlb
    {
      if len % PAGE_SIZE != 0 { return Panicked; }
      if va + len > barrierEnd { return Panicked; }
      var num := TakeAll(va + len, plan, loads);
      DispatchTlbFlush();
      return Unmapped(num);
    }

    /** Maps one page at the cursor and moves on; a page that was mapped there is flushed at once. */
    method Map(frame: Frame) returns (r: MapResult)
      requires Valid() && Covered(tlb, pt, flusher.Value())
      modifies this, flusher, flusher.ops
      ensures Valid() && (onTarget || !r.Replaced? ==> Covered(tlb, pt, flusher.Value()))
      ensures r.OutOfRange? <==> old(va) >= barrierEnd
      ensures r.OutOfRange? ==>
        pt == old(pt) && va == old(va) && tlb == old(tlb) && flusher.Value() == old(flusher.Value())
      ensures !r.OutOfRange? ==> pt == old(pt)[old(va) := frame] && va == old(va) + PAGE_SIZE
      ensures r.Fresh? ==> old(va) !in old(pt) && tlb == old(tlb) && flusher.Value() == old(flusher.Value())
      ensures r.Replaced? ==> old(va) in old(pt) && flusher.Value() == NO_OPS
      ensures r.Replaced? ==> if onTarget then Coherent(tlb, pt) else tlb == old(tlb)
      ensures r.Replaced? && onTarget ==>
        var o := PushOp(old(flusher.Value()), Address(old(va)), {old(pt)[old(va)]});
        forall a | a in old(tlb) :: a in tlb <==> !Covers(o, a)
    {
      if va >= barrierEnd { return OutOfRange; }
      var start := va;
      var replaced := va in pt;
      if !replaced {
        pt, va := pt[va := frame], va + PAGE_SIZE;
        return Fresh;
      }
      var oldFrame := pt[va];
      pt, va := pt[va := frame], va + PAGE_SIZE;
      RemoveCovered(tlb, old(pt), flusher.Value(), pt, Address(start), {oldFrame});
      flusher.Push(Address(start), {oldFrame});
      DispatchTlbFlush();
      return Replaced;
    }
  }

  /**
   On a CPU that is not a target `unmap` does not touch the TLB, so it leaves it coherent exactly when
   the CPU had nothing of the range cached.
   */
  lemma UnflushedCoherent(tlb: map<Vaddr, Frame>, pt: map<Vaddr, Frame>, start: Vaddr, end: Vaddr)
    requires Coherent(tlb, pt)
    ensures Coherent(tlb, Shootdown.Outside(pt, start, end)) <==> KeysIn(tlb, start, end) == {}
  {
    if KeysIn(tlb, start, end) != {} {
      var a :| a in KeysIn(tlb, start, end);
      assert a in tlb && a !in Shootdown.Outside(pt, start, end);
    } else {
      forall a | a in tlb ensures !(start <= a < end) {
        assert a !in KeysIn(tlb, start, end);
      }
    }
  }

  lemma AlignedToPage(base: Vaddr, size: nat)
    requires size > 0 && size % PAGE_SIZE == 0 && base % size == 0
    ensures base % PAGE_SIZE == 0
  {
    var q, k := base / size, size / PAGE_SIZE;
    assert base == q * (k * PAGE_SIZE) == (q * k) * PAGE_SIZE;
  }
}
