/**
 Boot memory regions and their normal form.

 `Normalize` aligns the regions to pages, drops the empty ones, sweeps over the boundaries and merges
 neighbours of one type. This module says what the result means and that it is canonical: it depends
 only on the type of every address, hence neither on the order of the input nor on how often the
 regions have been normalized before.
 */
module MemoryRegions {
  import opened Base

  datatype RegionType =
    | BadMemory
    | Unknown
    | NonVolatileSleep
    | Reserved
    | Kernel
    | Module
    | Framebuffer
    | Reclaimable
    | Usable

  /** How usable the memory is. */
  function Rank(t: RegionType): nat {
    match t
    case BadMemory => 0
    case Unknown => 1
    case NonVolatileSleep => 2
    case Reserved => 3
    case Kernel => 4
    case Module => 5
    case Framebuffer => 6
    case Reclaimable => 7
    case Usable => 8
  }

  datatype Region = Region(base: nat, len: nat, typ: RegionType) {
    function End(): nat { base + len }
    predicate Contains(a: nat) { base <= a < End() }
  }

  function AlignDown(x: nat): nat { x / PAGE_SIZE * PAGE_SIZE }
  function AlignUp(x: nat): nat { AlignDown(x + PAGE_SIZE - 1) }

  // ---- Alignment ----

  /** Inward for usable memory, outward for the rest. */
  function AsAligned(r: Region): Region {
    if r.typ.Usable? then
      var base, end := AlignUp(r.base), AlignDown(r.End());
      Region(base, if end >= base then end - base else 0, r.typ)
    else
      Region(AlignDown(r.base), AlignUp(r.End()) - AlignDown(r.base), r.typ)
  }

  /** What the arithmetic of `as_aligned` demands. */
  predicate Alignable(r: Region) {
    && r.End() <= USIZE_MAX
    && if r.typ.Usable? then r.base <= USIZE_MAX - (PAGE_SIZE - 1) else r.End() <= USIZE_MAX - (PAGE_SIZE - 1)
  }

  lemma AlignDownMeans(x: nat)
    ensures AlignDown(x) % PAGE_SIZE == 0 && AlignDown(x) <= x < AlignDown(x) + PAGE_SIZE
    ensures AlignUp(x) % PAGE_SIZE == 0 && x <= AlignUp(x) < x + PAGE_SIZE
  {}

  lemma MultiplesDiffer(x: nat, y: nat)
    requires x % PAGE_SIZE == 0 && y % PAGE_SIZE == 0 && x <= y
    ensures (y - x) % PAGE_SIZE == 0
  {}

  /** The result lies on page boundaries, and computing it does not overflow. */
  lemma AsAlignedFits(r: Region)
    ensures var q := AsAligned(r);
            && q.base % PAGE_SIZE == 0 && q.len % PAGE_SIZE == 0 && q.typ == r.typ
            && (Alignable(r) ==> q.base <= USIZE_MAX && (q.len > 0 ==> q.End() <= USIZE_MAX))
  {
    AlignDownMeans(r.base);
    AlignDownMeans(r.End());
    var q := AsAligned(r);
    if q.len > 0 { MultiplesDiffer(q.base, q.End()); }
  }

  /** Usable memory shrinks and other memory grows, by less than a page at either end. */
  lemma AsAlignedSound(r: Region, a: nat)
    ensures var q := AsAligned(r);
            && (r.typ.Usable? ==> q.Contains(a) ==> r.Contains(a))
            && (!r.typ.Usable? ==> r.Contains(a) ==> q.Contains(a))
            && (q.Contains(a) != r.Contains(a) ==>
                  r.base - PAGE_SIZE < a < r.base + PAGE_SIZE || r.End() - PAGE_SIZE <= a < r.End() + PAGE_SIZE)
  {
    AlignDownMeans(r.base);
    AlignDownMeans(r.End());
  }

  /** What a region says about the page that starts at `p`: usable memory fills it, other memory touches it. */
  predicate Claims(r: Region, p: nat) {
    if r.typ.Usable? then r.base <= p && p + PAGE_SIZE <= r.End() else p < r.End() && r.base < p + PAGE_SIZE
  }

  lemma PageOf(a: nat, x: nat)
    requires x % PAGE_SIZE == 0
    ensures x <= a <==> x <= AlignDown(a)
    ensures a < x <==> AlignDown(a) + PAGE_SIZE <= x
  {
    AlignDownMeans(a);
    if x <= a { MultiplesDiffer(0, x); }
  }

  /** The aligned region holds exactly the pages that the region claims. */
  lemma AsAlignedExact(r: Region, a: nat)
    ensures AsAligned(r).Contains(a) <==> Claims(r, AlignDown(a))
  {
    AlignDownMeans(a);
    AlignDownMeans(r.base);
    AlignDownMeans(r.End());
    if r.typ.Usable? {
      PageOf(a, AlignUp(r.base));
      PageOf(a, AlignDown(r.End()));
    } else {
      PageOf(a, AlignDown(r.base));
      PageOf(a, AlignUp(r.End()));
    }
  }

  /** The aligned regions that are not empty, in order. */
  function AlignedRegions(rs: seq<Region>): (q: seq<Region>)
    ensures |q| <= |rs|
  {
    if rs == [] then [] else
    var q, r := AlignedRegions(rs[..|rs| - 1]), AsAligned(rs[|rs| - 1]);
    if r.len == 0 then q else q + [r]
  }

  predicate AllAligned(rs: seq<Region>) {
    forall r | r in rs :: r.base % PAGE_SIZE == 0 && r.len % PAGE_SIZE == 0 && r.len > 0
  }

  lemma {:induction false} AlignedRegionsMember(rs: seq<Region>, q: Region)
    ensures q in AlignedRegions(rs) <==> q.len > 0 && exists r | r in rs :: q == AsAligned(r)
  {
    if rs != [] {
      var init, last := rs[..|rs| - 1], rs[|rs| - 1];
      AlignedRegionsMember(init, q);
      assert rs == init + [last];
      assert forall r | r in init :: r in rs;
      assert last in rs;
    }
  }

  lemma AlignedRegionsAligned(rs: seq<Region>)
    ensures AllAligned(AlignedRegions(rs))
  {
    forall q | q in AlignedRegions(rs) ensures q.base % PAGE_SIZE == 0 && q.len % PAGE_SIZE == 0 && q.len > 0 {
      AlignedRegionsMember(rs, q);
      var r :| r in rs && q == AsAligned(r);
      AsAlignedFits(r);
    }
  }

  // ---- The type of an address ----

  /** The least usable type of the regions that contain the address. */
  function LeastType(rs: seq<Region>, a: nat): Option<RegionType> {
    if rs == [] then None else
    var t, r := LeastType(rs[..|rs| - 1], a), rs[|rs| - 1];
    if r.Contains(a) && (t.None? || Rank(r.typ) < Rank(t.value)) then Some(r.typ) else t
  }

  function TypeAt(rs: seq<Region>, a: nat): RegionType {
    match LeastType(rs, a) case Some(t) => t case None => Unknown
  }

  lemma {:induction false} LeastTypeMeans(rs: seq<Region>, a: nat)
    ensures LeastType(rs, a).None? <==> forall r | r in rs :: !r.Contains(a)
    ensures LeastType(rs, a).Some? ==> exists r | r in rs :: r.Contains(a) && r.typ == LeastType(rs, a).value
    ensures LeastType(rs, a).Some? ==>
              forall r | r in rs && r.Contains(a) :: Rank(LeastType(rs, a).value) <= Rank(r.typ)
  {
    if rs != [] {
      var init, last := rs[..|rs| - 1], rs[|rs| - 1];
      LeastTypeMeans(init, a);
      assert rs == init + [last];
      assert forall r | r in init :: r in rs;
      assert last in rs;
    }
  }

  // ---- Boundaries ----

  /** The types of the regions that contain the address. */
  function TypesAround(rs: seq<Region>, a: nat): set<RegionType> {
    set r | r in rs && r.Contains(a) :: r.typ
  }

  /** The decision between several types, from bad memory, which wins always, to usable memory, which never does. */
  function Verdict(types: set<RegionType>): RegionType {
    if BadMemory in types then BadMemory
    else if Unknown in types then Unknown
    else if NonVolatileSleep in types then NonVolatileSleep
    else if Reserved in types then Reserved
    else if Kernel in types then Kernel
    else if Module in types then Module
    else if Framebuffer in types then Framebuffer
    else if Reclaimable in types then Reclaimable
    else if Usable in types then Usable
    else Unknown
  }

  lemma TypeAtVerdict(rs: seq<Region>, a: nat)
    ensures TypeAt(rs, a) == Verdict(TypesAround(rs, a))
    ensures LeastType(rs, a).None? <==> TypesAround(rs, a) == {}
  {
    LeastTypeMeans(rs, a);
    if LeastType(rs, a).Some? {
      assert TypeAt(rs, a) in TypesAround(rs, a);
      var v := Verdict(TypesAround(rs, a));
      assert Rank(TypeAt(rs, a)) <= Rank(v) by {
        var r :| r in rs && r.Contains(a) && r.typ == v;
      }
    }
  }

  function MaxEnd(rs: seq<Region>): nat {
    if rs == [] then 0 else
    var m, r := MaxEnd(rs[..|rs| - 1]), rs[|rs| - 1];
    if r.End() > m then r.End() else m
  }

  lemma {:induction false} MaxEndMeans(rs: seq<Region>)
    ensures forall r | r in rs :: r.End() <= MaxEnd(rs)
    ensures MaxEnd(rs) > 0 ==> exists r | r in rs :: r.End() == MaxEnd(rs)
  {
    if rs != [] {
      var init, last := rs[..|rs| - 1], rs[|rs| - 1];
      MaxEndMeans(init);
      assert rs == init + [last];
      assert forall r | r in init :: r in rs;
      assert last in rs;
    }
  }

  /** The distinct positive boundaries. */
  function Boundaries(rs: seq<Region>): set<nat> {
    if rs == [] then {} else Boundaries(rs[..|rs| - 1]) + ({rs[|rs| - 1].base, rs[|rs| - 1].End()} - {0})
  }

  lemma {:induction false} BoundariesMember(rs: seq<Region>, b: nat)
    ensures b in Boundaries(rs) <==> b > 0 && exists r | r in rs :: r.base == b || r.End() == b
  {
    if rs != [] {
      var init, last := rs[..|rs| - 1], rs[|rs| - 1];
      BoundariesMember(init, b);
      assert rs == init + [last];
      assert forall r | r in init :: r in rs;
      assert last in rs;
    }
  }

  function BoundaryAfter(r: Region, cur: nat): Option<nat> {
    if r.base > cur then Some(r.base) else if r.End() > cur then Some(r.End()) else None
  }

  function NextBoundary(rs: seq<Region>, cur: nat): Option<nat> {
    if rs == [] then None else
    var b, c := NextBoundary(rs[..|rs| - 1], cur), BoundaryAfter(rs[|rs| - 1], cur);
    if c.Some? && (b.None? || c.value < b.value) then c else b
  }

  lemma {:induction false} NextBoundaryMeans(rs: seq<Region>, cur: nat)
    requires AllAligned(rs)
    ensures var b := NextBoundary(rs, cur);
            && (b.None? ==> forall r | r in rs :: r.End() <= cur)
            && (b.Some? ==> b.value > cur && (exists r | r in rs :: r.base == b.value || r.End() == b.value))
            && (b.Some? ==> forall r | r in rs ::
                  (r.base <= cur || b.value <= r.base) && (r.End() <= cur || b.value <= r.End()))
  {
    if rs != [] {
      var init, last := rs[..|rs| - 1], rs[|rs| - 1];
      assert rs == init + [last];
      assert forall r | r in init :: r in rs;
      assert last in rs;
      NextBoundaryMeans(init, cur);
      if NextBoundary(rs, cur) == BoundaryAfter(last, cur) {
        var b := BoundaryAfter(last, cur);
        assert b.Some? ==> last.base == b.value || last.End() == b.value;
      } else if NextBoundary(init, cur).Some? {
        var r :| r in init && (r.base == NextBoundary(init, cur).value || r.End() == NextBoundary(init, cur).value);
        assert r in rs;
      }
    }
  }

  lemma NextBoundarySome(rs: seq<Region>, cur: nat)
    requires AllAligned(rs) && cur < MaxEnd(rs)
    ensures NextBoundary(rs, cur).Some?
  {
    MaxEndMeans(rs);
    NextBoundaryMeans(rs, cur);
  }

  /** Before the last end there is a next boundary, and it is page aligned. */
  lemma NextBoundaryExists(rs: seq<Region>, cur: nat)
    requires AllAligned(rs) && cur < MaxEnd(rs)
    ensures var b := NextBoundary(rs, cur);
            b.Some? && cur < b.value <= MaxEnd(rs) && b.value % PAGE_SIZE == 0
  {
    NextBoundarySome(rs, cur);
    NextBoundaryMeans(rs, cur);
    var b := NextBoundary(rs, cur).value;
    var q :| q in rs && (q.base == b || q.End() == b);
    EndAligned(q);
    MaxEndMeans(rs);
    assert q.End() <= MaxEnd(rs);
  }

  lemma EndAligned(r: Region)
    requires r.base % PAGE_SIZE == 0 && r.len % PAGE_SIZE == 0
    ensures r.End() % PAGE_SIZE == 0
  {}

  // ---- The sweep ----

  /** One piece between every two neighbouring boundaries from `cur` on. */
  function Sweep(rs: seq<Region>, cur: nat): seq<Region>
    requires AllAligned(rs)
    decreases MaxEnd(rs) - cur
  {
    if cur >= MaxEnd(rs) then [] else
    NextBoundaryExists(rs, cur);
    var right := NextBoundary(rs, cur).value;
    [Region(cur, right - cur, TypeAt(rs, cur))] + Sweep(rs, right)
  }

  /** The regions follow each other without a gap, from `start` to `end`. */
  predicate Tiles(rs: seq<Region>, start: nat, end: nat) {
    && (rs == [] ==> start == end)
    && (rs != [] ==> rs[0].base == start && rs[|rs| - 1].End() == end)
    && (forall i | 0 <= i < |rs| :: rs[i].len > 0 && rs[i].base % PAGE_SIZE == 0 && rs[i].len % PAGE_SIZE == 0)
    && (forall i | 0 < i < |rs| :: rs[i - 1].End() == rs[i].base)
  }

  /** Every address of every region has the type that the regions `src` give it. */
  ghost predicate SameTypes(rs: seq<Region>, src: seq<Region>) {
    forall i, a | 0 <= i < |rs| && rs[i].Contains(a) :: TypeAt(src, a) == rs[i].typ
  }

  /** Between two neighbouring boundaries nothing changes. */
  lemma {:induction false} TypeConstant(rs: seq<Region>, cur: nat, a: nat, right: nat)
    requires cur <= a < right
    requires forall r | r in rs :: (r.base <= cur || right <= r.base) && (r.End() <= cur || right <= r.End())
    ensures LeastType(rs, a) == LeastType(rs, cur)
  {
    if rs != [] {
      var init, last := rs[..|rs| - 1], rs[|rs| - 1];
      assert forall r | r in init :: r in rs;
      assert last in rs;
      TypeConstant(init, cur, a, right);
    }
  }

  /** A tile in front of a tiling. */
  lemma TilesCons(r: Region, t: seq<Region>, end: nat)
    requires r.base % PAGE_SIZE == 0 && r.len % PAGE_SIZE == 0 && r.len > 0 && Tiles(t, r.End(), end)
    ensures Tiles([r] + t, r.base, end)
  {
    var s := [r] + t;
    forall i | 0 < i < |s| ensures s[i] == t[i - 1] {}
    forall i | 0 < i < |s| ensures s[i - 1].End() == s[i].base {
      if i > 1 { assert s[i - 1] == t[i - 2]; }
    }
  }

  lemma SameTypesCons(r: Region, t: seq<Region>, src: seq<Region>)
    requires SameTypes(t, src) && forall a: nat | r.Contains(a) :: TypeAt(src, a) == r.typ
    ensures SameTypes([r] + t, src)
  {
    var s := [r] + t;
    forall i, a | 0 <= i < |s| && s[i].Contains(a) ensures TypeAt(src, a) == s[i].typ {
      if i > 0 { assert s[i] == t[i - 1]; }
    }
  }

  lemma {:induction false} SweepTiles(rs: seq<Region>, cur: nat)
    requires AllAligned(rs) && cur % PAGE_SIZE == 0 && cur <= MaxEnd(rs)
    ensures Tiles(Sweep(rs, cur), cur, MaxEnd(rs))
    ensures SameTypes(Sweep(rs, cur), rs)
    decreases MaxEnd(rs) - cur
  {
    if cur < MaxEnd(rs) {
      NextBoundaryExists(rs, cur);
      var right := NextBoundary(rs, cur).value;
      SweepTiles(rs, right);
      var r, t := Region(cur, right - cur, TypeAt(rs, cur)), Sweep(rs, right);
      MultiplesDiffer(cur, right);
      TilesCons(r, t, MaxEnd(rs));
      forall a: nat | r.Contains(a) ensures TypeAt(rs, a) == r.typ { PieceType(rs, cur, a); }
      SameTypesCons(r, t, rs);
    }
  }

  lemma PieceType(rs: seq<Region>, cur: nat, a: nat)
    requires AllAligned(rs) && NextBoundary(rs, cur).Some? && cur <= a < NextBoundary(rs, cur).value
    ensures TypeAt(rs, a) == TypeAt(rs, cur)
  {
    NextBoundaryMeans(rs, cur);
    TypeConstant(rs, cur, a, NextBoundary(rs, cur).value);
  }

  function After(bs: set<nat>, cur: nat): set<nat> {
    set b | b in bs && b > cur
  }

  /** The sweep makes exactly one piece per boundary. */
  lemma {:induction false} SweepCount(rs: seq<Region>, cur: nat)
    requires AllAligned(rs)
    ensures |Sweep(rs, cur)| == |After(Boundaries(rs), cur)|
    decreases MaxEnd(rs) - cur
  {
    if cur >= MaxEnd(rs) {
      NoneAfterEnd(rs, cur);
    } else {
      NextBoundaryExists(rs, cur);
      var right := NextBoundary(rs, cur).value;
      SweepCount(rs, right);
      AfterNext(rs, cur);
    }
  }

  lemma NoneAfterEnd(rs: seq<Region>, cur: nat)
    requires cur >= MaxEnd(rs)
    ensures After(Boundaries(rs), cur) == {}
  {
    MaxEndMeans(rs);
    forall b | b in Boundaries(rs) ensures b <= cur {
      BoundariesMember(rs, b);
    }
  }

  lemma AfterNext(rs: seq<Region>, cur: nat)
    requires AllAligned(rs) && cur < MaxEnd(rs)
    ensures var b := NextBoundary(rs, cur);
            b.Some? && |After(Boundaries(rs), cur)| == 1 + |After(Boundaries(rs), b.value)|
  {
    NextBoundaryExists(rs, cur);
    NextBoundaryMeans(rs, cur);
    var bs, right := Boundaries(rs), NextBoundary(rs, cur).value;
    forall b: nat | cur < b <= right ensures b in bs <==> b == right {
      BoundariesMember(rs, b);
    }
    assert After(bs, cur) == After(bs, right) + {right};
  }

  // ---- The merge ----

  /** Neighbours of one type become one region. */
  function Merged(rs: seq<Region>): (m: seq<Region>)
    ensures |m| <= |rs| && (rs != [] ==> m != [])
  {
    if |rs| <= 1 then rs else
    var m, r := Merged(rs[..|rs| - 1]), rs[|rs| - 1];
    Joined(m, r)
  }

  function Joined(m: seq<Region>, r: Region): (j: seq<Region>)
    requires m != []
    ensures |m| <= |j| <= |m| + 1
  {
    var last := m[|m| - 1];
    if r.typ == last.typ then m[..|m| - 1] + [Region(last.base, last.len + r.len, last.typ)] else m + [r]
  }

  lemma MergedNext(rs: seq<Region>, i: nat)
    requires 1 <= i < |rs|
    ensures Merged(rs[..i + 1]) == Joined(Merged(rs[..i]), rs[i])
  {
    assert rs[..i + 1][..i] == rs[..i];
  }

  predicate Coalesced(rs: seq<Region>) {
    forall i | 0 < i < |rs| :: rs[i].typ != rs[i - 1].typ
  }

  lemma JoinedTiles(m: seq<Region>, r: Region, start: nat, mid: nat, src: seq<Region>)
    requires m != [] && Tiles(m, start, mid) && Coalesced(m) && SameTypes(m, src)
    requires r.base == mid && r.len > 0 && r.base % PAGE_SIZE == 0 && r.len % PAGE_SIZE == 0 && SameTypes([r], src)
    ensures var j := Joined(m, r); Tiles(j, start, r.End()) && Coalesced(j) && SameTypes(j, src)
  {
    var j, n := Joined(m, r), |m|;
    assert forall i | 0 <= i < n - 1 :: j[i] == m[i];
    assert j[n - 1].base == m[n - 1].base && j[n - 1].typ == m[n - 1].typ;
    assert m[n - 1].End() == mid;
    forall a | r.Contains(a) ensures TypeAt(src, a) == r.typ { assert [r][0].Contains(a); }
    forall i, a | 0 <= i < |j| && j[i].Contains(a) ensures TypeAt(src, a) == j[i].typ {
      if i < n && m[i].Contains(a) {
        assert TypeAt(src, a) == m[i].typ;
      } else {
        assert r.Contains(a);
      }
    }
  }

  lemma {:induction false} MergedTiles(rs: seq<Region>, start: nat, end: nat, src: seq<Region>)
    requires Tiles(rs, start, end) && SameTypes(rs, src)
    ensures Tiles(Merged(rs), start, end) && Coalesced(Merged(rs)) && SameTypes(Merged(rs), src)
  {
    if |rs| > 1 {
      var init, r := rs[..|rs| - 1], rs[|rs| - 1];
      assert forall i | 0 <= i < |init| :: init[i] == rs[i];
      MergedTiles(init, start, r.base, src);
      assert SameTypes([r], src);
      JoinedTiles(Merged(init), r, start, r.base, src);
    }
  }

  // ---- The normal form ----

  function Normalize(rs: seq<Region>): seq<Region> {
    AlignedRegionsAligned(rs);
    Merged(Sweep(AlignedRegions(rs), 0))
  }

  /**
   The meaning of normalization: page-aligned regions that tile the addresses from 0 to the last end of
   an aligned region, neighbours of different types, every address with the least usable type of the
   aligned regions around it, or `Unknown` in a hole.
   */
  lemma NormalizeMeaning(rs: seq<Region>)
    ensures var out, src := Normalize(rs), AlignedRegions(rs);
            Tiles(out, 0, MaxEnd(src)) && Coalesced(out) && SameTypes(out, src)
  {
    AlignedRegionsAligned(rs);
    SweepTiles(AlignedRegions(rs), 0);
    MergedTiles(Sweep(AlignedRegions(rs), 0), 0, MaxEnd(AlignedRegions(rs)), AlignedRegions(rs));
  }

  /** The types that the input claims for a page. */
  function Claimed(rs: seq<Region>, p: nat): set<RegionType> {
    set r | r in rs && Claims(r, p) :: r.typ
  }

  lemma ClaimedAround(rs: seq<Region>, a: nat)
    ensures TypesAround(AlignedRegions(rs), a) == Claimed(rs, AlignDown(a))
  {
    forall r | r in rs && Claims(r, AlignDown(a)) ensures r.typ in TypesAround(AlignedRegions(rs), a) {
      AsAlignedExact(r, a);
      AlignedRegionsMember(rs, AsAligned(r));
      assert AsAligned(r).typ == r.typ;
    }
    forall q | q in AlignedRegions(rs) && q.Contains(a) ensures q.typ in Claimed(rs, AlignDown(a)) {
      AlignedRegionsMember(rs, q);
      var r :| r in rs && q == AsAligned(r);
      AsAlignedExact(r, a);
      assert r.typ == q.typ;
    }
  }

  /**
   The type of a region of the result, in terms of the input. In particular the frame allocator gets a
   page exactly if a usable region fills it and no region of another type touches it.
   */
  lemma NormalizeTypes(rs: seq<Region>, i: nat, a: nat)
    requires i < |Normalize(rs)| && Normalize(rs)[i].Contains(a)
    ensures Normalize(rs)[i].typ == Verdict(Claimed(rs, AlignDown(a)))
    ensures Normalize(rs)[i].typ.Usable? <==>
              && (exists r | r in rs :: r.typ.Usable? && Claims(r, AlignDown(a)))
              && (forall r | r in rs && !r.typ.Usable? :: !Claims(r, AlignDown(a)))
  {
    NormalizeMeaning(rs);
    ClaimedAround(rs, a);
    TypeAtVerdict(AlignedRegions(rs), a);
    UsableVerdict(rs, AlignDown(a));
  }

  lemma UsableVerdict(rs: seq<Region>, p: nat)
    ensures Verdict(Claimed(rs, p)).Usable? <==>
              && (exists r | r in rs :: r.typ.Usable? && Claims(r, p))
              && (forall r | r in rs && !r.typ.Usable? :: !Claims(r, p))
  {
    var types := Claimed(rs, p);
    assert (exists r | r in rs :: r.typ.Usable? && Claims(r, p)) <==> Usable in types;
    forall r | r in rs && Claims(r, p) ensures r.typ in types {}
  }

  /** Coalesced tilings that give every address the same type are equal. */
  lemma {:induction false} TilingsAgree(x: seq<Region>, y: seq<Region>, end: nat, n: nat)
    requires Tiles(x, 0, end) && Tiles(y, 0, end) && Coalesced(x) && Coalesced(y)
    requires SameTypesAs(x, y) && n <= |x| && n <= |y|
    ensures forall i | 0 <= i < n :: x[i] == y[i]
  {
    if n > 0 {
      TilingsAgree(x, y, end, n - 1);
      var k := n - 1;
      assert k > 0 ==> x[k - 1] == y[k - 1];
      assert x[k].base == y[k].base;
      assert x[k].Contains(x[k].base) && y[k].Contains(x[k].base);
      TilesBelow(x, 0, end, k);
      TilesBelow(y, 0, end, k);
      if x[k].len < y[k].len {
        assert k + 1 < |x| && x[k + 1].Contains(x[k].End()) && y[k].Contains(x[k].End());
        assert false;
      } else if y[k].len < x[k].len {
        assert k + 1 < |y| && y[k + 1].Contains(y[k].End()) && x[k].Contains(y[k].End());
        assert false;
      }
    }
  }

  /** Where both say something about an address, they say the same. */
  ghost predicate SameTypesAs(x: seq<Region>, y: seq<Region>) {
    forall i, j, a | 0 <= i < |x| && 0 <= j < |y| && x[i].Contains(a) && y[j].Contains(a) :: x[i].typ == y[j].typ
  }

  /** No region of a tiling reaches beyond its end, and only the last one reaches it. */
  lemma {:induction false} TilesBelow(rs: seq<Region>, start: nat, end: nat, i: nat)
    requires Tiles(rs, start, end) && i < |rs|
    ensures start <= rs[i].base && rs[i].End() <= end && (rs[i].End() == end ==> i == |rs| - 1)
    decreases |rs| - i
  {
    if i < |rs| - 1 { TilesBelow(rs, start, end, i + 1); }
    TilesFrom(rs, start, end, i);
  }

  lemma {:induction false} TilesFrom(rs: seq<Region>, start: nat, end: nat, i: nat)
    requires Tiles(rs, start, end) && i < |rs|
    ensures start <= rs[i].base
  {
    if i > 0 { TilesFrom(rs, start, end, i - 1); }
  }

  lemma Canonical(x: seq<Region>, y: seq<Region>, end: nat)
    requires Tiles(x, 0, end) && Tiles(y, 0, end) && Coalesced(x) && Coalesced(y) && SameTypesAs(x, y)
    ensures x == y
  {
    var n := if |x| <= |y| then |x| else |y|;
    TilingsAgree(x, y, end, n);
    if n > 0 {
      assert x[n - 1] == y[n - 1];
      TilesBelow(x, 0, end, n - 1);
      TilesBelow(y, 0, end, n - 1);
    }
  }

  // ---- What the normal form depends on ----

  predicate SameMembers(x: seq<Region>, y: seq<Region>) {
    && (forall r | r in x :: r in y)
    && (forall r | r in y :: r in x)
  }

  lemma RankInjective(t: RegionType, u: RegionType)
    requires Rank(t) == Rank(u)
    ensures t == u
  {}

  lemma SameMembersSameType(x: seq<Region>, y: seq<Region>, a: nat)
    requires SameMembers(x, y)
    ensures TypeAt(x, a) == TypeAt(y, a)
  {
    LeastTypeMeans(x, a);
    LeastTypeMeans(y, a);
    if LeastType(x, a).Some? && LeastType(y, a).Some? {
      var r :| r in x && r.Contains(a) && r.typ == LeastType(x, a).value;
      var q :| q in y && q.Contains(a) && q.typ == LeastType(y, a).value;
      RankInjective(r.typ, q.typ);
    }
  }

  lemma SameMembersSameEnd(x: seq<Region>, y: seq<Region>)
    requires SameMembers(x, y)
    ensures MaxEnd(x) == MaxEnd(y)
  {
    MaxEndMeans(x);
    MaxEndMeans(y);
  }

  lemma SameMembersAligned(x: seq<Region>, y: seq<Region>)
    requires SameMembers(x, y)
    ensures SameMembers(AlignedRegions(x), AlignedRegions(y))
  {
    forall q ensures q in AlignedRegions(x) <==> q in AlignedRegions(y) {
      AlignedRegionsMember(x, q);
      AlignedRegionsMember(y, q);
    }
  }

  lemma TypesAgree(x: seq<Region>, y: seq<Region>, src: seq<Region>, src': seq<Region>)
    requires SameTypes(x, src) && SameTypes(y, src') && forall a: nat :: TypeAt(src, a) == TypeAt(src', a)
    ensures SameTypesAs(x, y)
  {
    forall i, j, a | 0 <= i < |x| && 0 <= j < |y| && x[i].Contains(a) && y[j].Contains(a) ensures x[i].typ == y[j].typ {
      assert TypeAt(src, a) == x[i].typ && TypeAt(src', a) == y[j].typ;
    }
  }

  lemma SameMembersSameBoundaries(x: seq<Region>, y: seq<Region>)
    requires SameMembers(x, y)
    ensures Boundaries(x) == Boundaries(y)
  {
    forall b: nat ensures b in Boundaries(x) <==> b in Boundaries(y) {
      BoundariesMember(x, b);
      BoundariesMember(y, b);
    }
  }

  /** Neither the order nor the repetition of the input regions matters. */
  lemma NormalizeOrder(x: seq<Region>, y: seq<Region>)
    requires SameMembers(x, y)
    ensures Normalize(x) == Normalize(y)
    ensures Boundaries(AlignedRegions(x)) == Boundaries(AlignedRegions(y))
  {
    var sx, sy := AlignedRegions(x), AlignedRegions(y);
    SameMembersAligned(x, y);
    SameMembersSameEnd(sx, sy);
    forall a: nat ensures TypeAt(sx, a) == TypeAt(sy, a) { SameMembersSameType(sx, sy, a); }
    NormalizeMeaning(x);
    NormalizeMeaning(y);
    TypesAgree(Normalize(x), Normalize(y), sx, sy);
    Canonical(Normalize(x), Normalize(y), MaxEnd(sx));
    SameMembersSameBoundaries(sx, sy);
  }

  lemma PermutationSameMembers(x: seq<Region>, y: seq<Region>)
    requires multiset(x) == multiset(y)
    ensures SameMembers(x, y)
  {
    forall r ensures r in x <==> r in y {
      assert r in x <==> r in multiset(x);
      assert r in y <==> r in multiset(y);
    }
  }

  lemma NormalizePermutation(x: seq<Region>, y: seq<Region>)
    requires multiset(x) == multiset(y)
    ensures Normalize(x) == Normalize(y)
  {
    PermutationSameMembers(x, y);
    NormalizeOrder(x, y);
  }

  // ---- Normalizing twice ----

  lemma {:induction false} AlignedStays(rs: seq<Region>)
    requires AllAligned(rs)
    ensures AlignedRegions(rs) == rs
  {
    if rs != [] {
      var init, last := rs[..|rs| - 1], rs[|rs| - 1];
      assert forall r | r in init :: r in rs;
      AlignedStays(init);
      assert last in rs;
      AlignedAgain(last);
      assert rs == init + [last];
    }
  }

  lemma AlignedAgain(r: Region)
    requires r.base % PAGE_SIZE == 0 && r.len % PAGE_SIZE == 0
    ensures AsAligned(r) == r
  {
    assert r.End() % PAGE_SIZE == 0;
  }

  lemma TilesAligned(rs: seq<Region>, end: nat)
    requires Tiles(rs, 0, end)
    ensures AllAligned(rs) && MaxEnd(rs) == end
  {
    MaxEndMeans(rs);
    if rs != [] {
      forall r | r in rs ensures r.End() <= end {
        var i :| 0 <= i < |rs| && rs[i] == r;
        TilesBelow(rs, 0, end, i);
      }
      assert rs[|rs| - 1] in rs;
    }
  }

  /** Regions of a tiling do not overlap. */
  lemma {:induction false} TilesOrdered(rs: seq<Region>, start: nat, end: nat, i: nat, j: nat)
    requires Tiles(rs, start, end) && i < j < |rs|
    ensures rs[i].End() <= rs[j].base
  {
    if i + 1 < j { TilesOrdered(rs, start, end, i, j - 1); }
  }

  /** A tiling read as input gives every address the type of the tile it is in. */
  lemma TilesKeepTypes(rs: seq<Region>, end: nat)
    requires Tiles(rs, 0, end)
    ensures SameTypes(rs, rs)
  {
    forall i, a | 0 <= i < |rs| && rs[i].Contains(a) ensures TypeAt(rs, a) == rs[i].typ {
      LeastTypeMeans(rs, a);
      assert rs[i] in rs;
      var r :| r in rs && r.Contains(a) && r.typ == LeastType(rs, a).value;
      var j :| 0 <= j < |rs| && rs[j] == r;
      if i < j { TilesOrdered(rs, 0, end, i, j); }
      if j < i { TilesOrdered(rs, 0, end, j, i); }
    }
  }

  lemma SelfAgree(x: seq<Region>, y: seq<Region>)
    requires SameTypes(x, y) && SameTypes(y, y)
    ensures SameTypesAs(x, y)
  {
    forall i, j, a | 0 <= i < |x| && 0 <= j < |y| && x[i].Contains(a) && y[j].Contains(a) ensures x[i].typ == y[j].typ {
      assert TypeAt(y, a) == x[i].typ;
    }
  }

  /** Normal forms are their own normal form. */
  lemma NormalizeIdempotent(rs: seq<Region>)
    ensures Normalize(Normalize(rs)) == Normalize(rs)
  {
    var y := Normalize(rs);
    var end := MaxEnd(AlignedRegions(rs));
    NormalizeMeaning(rs);
    TilesAligned(y, end);
    AlignedStays(y);
    NormalizeMeaning(y);
    TilesKeepTypes(y, end);
    SelfAgree(Normalize(y), y);
    Canonical(Normalize(y), y, end);
  }

  // ---- When the array is too small ----

  /** The sweep needs one slot per distinct positive boundary. */
  lemma SweepNeeds(rs: seq<Region>)
    requires AllAligned(rs)
    ensures |Sweep(rs, 0)| == |Boundaries(rs)|
  {
    SweepCount(rs, 0);
    forall b | b in Boundaries(rs) ensures b > 0 { BoundariesMember(rs, b); }
    assert After(Boundaries(rs), 0) == Boundaries(rs);
  }

  lemma OneMoreBoundary(bs: set<nat>, base: nat, end: nat)
    requires (base == 0 || base in bs) && end > 0 && end !in bs
    ensures bs + ({base, end} - {0}) == bs + {end} && |bs + {end}| == |bs| + 1
  {}

  /** A tiling has as many boundaries as tiles. */
  lemma {:induction false} TilesBoundaries(rs: seq<Region>, end: nat)
    requires Tiles(rs, 0, end)
    ensures |Boundaries(rs)| == |rs|
    ensures (forall b | b in Boundaries(rs) :: b <= end) && (rs != [] ==> end in Boundaries(rs))
  {
    if rs == [] {
      assert Boundaries(rs) == {};
    } else {
      var init, last := rs[..|rs| - 1], rs[|rs| - 1];
      assert forall i | 0 <= i < |init| :: init[i] == rs[i];
      TilesBoundaries(init, last.base);
      OneMoreBoundary(Boundaries(init), last.base, end);
    }
  }

  /** Normalizing a second time never needs more room than the first result takes. */
  lemma SecondTimeFits(rs: seq<Region>)
    ensures |Boundaries(AlignedRegions(Normalize(rs)))| == |Normalize(rs)| <= |Boundaries(AlignedRegions(rs))|
  {
    var y := Normalize(rs);
    NormalizeMeaning(rs);
    TilesAligned(y, MaxEnd(AlignedRegions(rs)));
    AlignedStays(y);
    TilesBoundaries(y, MaxEnd(AlignedRegions(rs)));
    AlignedRegionsAligned(rs);
    SweepNeeds(AlignedRegions(rs));
  }

  /**
   The number of regions in the result does not decide whether there is room: three overlapping regions
   of one type make a single region, by way of four pieces.
   */
  lemma RoomForPieces(r0: Region, r1: Region, r2: Region)
    requires AllAligned([r0, r1, r2]) && r0.typ == r1.typ == r2.typ
    requires r0.base == 0 < r1.base && r1.End() == r2.base && r2.End() < r0.End()
    ensures var rs := [r0, r1, r2];
            Normalize(rs) == [r0] && |Boundaries(AlignedRegions(rs))| == 4 > |rs|
  {
    var rs := [r0, r1, r2];
    AlignedStays(rs);
    NestedNormalizes(r0, r1, r2);
    NestedBoundaries(r0, r1, r2);
  }

  lemma NestedNormalizes(r0: Region, r1: Region, r2: Region)
    requires AllAligned([r0, r1, r2]) && r0.typ == r1.typ == r2.typ
    requires r0.base == 0 && r1.End() < r0.End() && r2.End() < r0.End()
    ensures Normalize([r0, r1, r2]) == [r0]
  {
    var rs, one := [r0, r1, r2], [r0];
    AlignedStays(rs);
    NormalizeMeaning(rs);
    NestedEnd(r0, r1, r2);
    assert r0 in rs;
    assert Tiles(one, 0, r0.End());
    forall i, j, a | 0 <= i < |Normalize(rs)| && 0 <= j < |one| && Normalize(rs)[i].Contains(a) && one[j].Contains(a)
      ensures Normalize(rs)[i].typ == one[j].typ
    {
      NestedType(r0, r1, r2, a);
      assert TypeAt(rs, a) == Normalize(rs)[i].typ;
    }
    Canonical(Normalize(rs), one, r0.End());
  }

  lemma NestedType(r0: Region, r1: Region, r2: Region, a: nat)
    requires r0.typ == r1.typ == r2.typ && r0.Contains(a)
    ensures TypeAt([r0, r1, r2], a) == r0.typ
  {
    LeastTypeMeans([r0, r1, r2], a);
    assert r0 in [r0, r1, r2];
  }

  lemma NestedEnd(r0: Region, r1: Region, r2: Region)
    requires r1.End() < r0.End() && r2.End() < r0.End()
    ensures MaxEnd([r0, r1, r2]) == r0.End()
  {
    MaxEndMeans([r0, r1, r2]);
    assert r0 in [r0, r1, r2];
  }

  lemma NestedBoundaries(r0: Region, r1: Region, r2: Region)
    requires r0.base == 0 < r1.base < r1.End() == r2.base < r2.End() < r0.End()
    ensures |Boundaries([r0, r1, r2])| == 4
  {
    var none: seq<Region> := [];
    ThreeBoundaries(none, r0, r1, r2);
    assert none + [r0] + [r1] + [r2] == [r0, r1, r2];
    FourBounds(r1.base, r2.base, r2.End(), r0.End());
  }

  lemma ThreeBoundaries(init: seq<Region>, r0: Region, r1: Region, r2: Region)
    ensures Boundaries(init + [r0] + [r1] + [r2]) == Boundaries(init)
      + ({r0.base, r0.End()} - {0}) + ({r1.base, r1.End()} - {0}) + ({r2.base, r2.End()} - {0})
  {
    BoundariesPush(init, r0);
    BoundariesPush(init + [r0], r1);
    BoundariesPush(init + [r0] + [r1], r2);
  }

  lemma BoundariesPush(init: seq<Region>, last: Region)
    ensures Boundaries(init + [last]) == Boundaries(init) + ({last.base, last.End()} - {0})
  {
    assert (init + [last])[..|init|] == init;
  }

  lemma FourBounds(a: nat, b: nat, c: nat, d: nat)
    requires 0 < a < b < c < d
    ensures |{} + ({0, d} - {0}) + ({a, b} - {0}) + ({b, c} - {0})| == 4
  {
    assert {} + ({0, d} - {0}) + ({a, b} - {0}) + ({b, c} - {0}) == {a, b, c, d};
  }

  /** The next piece of the sweep. */
  lemma SweepStep(rs: seq<Region>, cur: nat, done: seq<Region>, all: seq<Region>)
    requires AllAligned(rs) && cur < MaxEnd(rs) && done + Sweep(rs, cur) == all
    ensures var b := NextBoundary(rs, cur);
            && b.Some? && cur < b.value <= MaxEnd(rs) && |done| < |all|
            && done + [Region(cur, b.value - cur, TypeAt(rs, cur))] + Sweep(rs, b.value) == all
  {
    NextBoundaryExists(rs, cur);
  }

  /** No address computed on the way exceeds the machine's. */
  lemma NormalizeFits(rs: seq<Region>)
    requires forall r | r in rs :: Alignable(r)
    ensures MaxEnd(AlignedRegions(rs)) <= USIZE_MAX
  {
    var src := AlignedRegions(rs);
    MaxEndMeans(src);
    if MaxEnd(src) > 0 {
      var q :| q in src && q.End() == MaxEnd(src);
      AlignedRegionsMember(rs, q);
      var r :| r in rs && q == AsAligned(r);
      AsAlignedFits(r);
    }
  }
}
