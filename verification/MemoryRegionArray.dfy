/**
 The bounded array of boot memory regions.
 */
module MemoryRegionArray {
  import opened Base
  import opened MemoryRegions

  const BAD_REGION := Region(0, 0, BadMemory)

  /** The next element to treat, and what comes after it. */
  lemma NextOf(a: seq<Region>, rs: seq<Region>, i: nat, n: nat)
    requires i < n <= |a| && |rs| == n && a[i..n] == rs[i..]
    ensures a[i] == rs[i] && a[i + 1..n] == rs[i + 1..]
    ensures rs[..i + 1] == rs[..i] + [rs[i]] && rs[..i + 1][..i] == rs[..i]
  {
    assert a[i..n][0] == a[i] && rs[i..][0] == rs[i];
    assert a[i + 1..n] == a[i..n][1..] && rs[i + 1..] == rs[i..][1..];
  }

  /** Writing an element at `k` extends the part before it and leaves the part after `i` alone. */
  lemma PutInFront(a: seq<Region>, k: nat, r: Region, i: nat, n: nat)
    requires k <= i < n <= |a|
    ensures a[k := r][..k + 1] == a[..k] + [r] && a[k := r][i + 1..n] == a[i + 1..n]
  {}

  class RegionArray {
    const regions: array<Region>
    var count: nat

    ghost predicate Valid()
      reads this
    {
      count <= regions.Length
    }

    ghost function Value(): seq<Region>
      requires Valid()
      reads this, regions
    {
      regions[..count]
    }

    constructor (capacity: nat)
      ensures Valid() && Value() == [] && regions.Length == capacity && fresh(regions)
    {
      regions := new Region[capacity](_ => BAD_REGION);
      count := 0;
    }

    /** Appends a region; an array that is full stays as it is. */
    method Push(region: Region) returns (ok: bool)
      requires Valid()
      modifies this`count, regions
      ensures Valid() && ok == (old(count) < regions.Length)
      ensures Value() == old(Value()) + if ok then [region] else []
    {
      if count >= regions.Length { return false; }
      regions[count] := region;
      count := count + 1;
      return true;
    }

    /** Aligns all regions and moves those that are not empty to the front. */
    method AlignAndCompact()
      requires Valid() && forall r | r in Value() :: Alignable(r)
      modifies this`count, regions
      ensures Valid() && Value() == AlignedRegions(old(Value()))
    {
      ghost var rs, a := Value(), regions[..];
      var kept := 0;
      for i := 0 to count
        invariant kept <= i <= count == old(count) && a == regions[..]
        invariant a[..kept] == AlignedRegions(rs[..i]) && a[i..count] == rs[i..]
      {
        NextOf(a, rs, i, count);
        var region := AsAligned(regions[i]);
        if region.len != 0 {
          PutInFront(a, kept, region, i, count);
          regions[kept] := region;
          a := a[kept := region];
          kept := kept + 1;
        }
      }
      assert rs[..count] == rs && regions[..kept] == a[..kept];
      count := kept;
    }

    method MaxRegionEnd() returns (end: nat)
      requires Valid()
      ensures end == MaxEnd(Value())
    {
      end := 0;
      for i := 0 to count
        invariant end == MaxEnd(Value()[..i])
      {
        assert Value()[..i + 1][..i] == Value()[..i];
        if regions[i].End() > end { end := regions[i].End(); }
      }
      assert Value()[..count] == Value();
    }

    method MostRestrictiveType(a: nat) returns (t: Option<RegionType>)
      requires Valid()
      ensures t == LeastType(Value(), a)
      ensures t.None? <==> TypesAround(Value(), a) == {}
      ensures t.Some? ==> t.value == Verdict(TypesAround(Value(), a))
    {
      t := None;
      for i := 0 to count
        invariant t == LeastType(Value()[..i], a)
      {
        assert Value()[..i + 1][..i] == Value()[..i];
        var r := regions[i];
        if r.Contains(a) && (t.None? || Rank(r.typ) < Rank(t.value)) { t := Some(r.typ); }
      }
      assert Value()[..count] == Value();
      TypeAtVerdict(Value(), a);
    }

    method NextRegionBoundary(cur: nat) returns (b: Option<nat>)
      requires Valid()
      ensures b == NextBoundary(Value(), cur)
    {
      b := None;
      for i := 0 to count
        invariant b == NextBoundary(Value()[..i], cur)
      {
        assert Value()[..i + 1][..i] == Value()[..i];
        var c := BoundaryAfter(regions[i], cur);
        if c.Some? && (b.None? || c.value < b.value) { b := c; }
      }
      assert Value()[..count] == Value();
    }

    /** One piece of the sweep. */
    method SweepOne(result: RegionArray, curRight: nat, ghost all: seq<Region>) returns (ok: bool, right: nat)
      requires Valid() && AllAligned(Value()) && curRight < MaxEnd(Value())
      requires result.Valid() && result != this && result.regions != regions
      requires result.Value() + Sweep(Value(), curRight) == all
      modifies result`count, result.regions
      ensures result.Valid() && Value() == old(Value()) && ok == (old(result.count) < result.regions.Length)
      ensures curRight < right <= MaxEnd(Value()) && |all| > old(result.count)
      ensures ok ==> result.Value() + Sweep(Value(), right) == all
    {
      SweepStep(Value(), curRight, result.Value(), all);
      var t := MostRestrictiveType(curRight);
      var typ := if t.Some? then t.value else Unknown;
      var next := NextRegionBoundary(curRight);
      right := next.value;
      ok := result.Push(Region(curRight, right - curRight, typ));
    }

    /** The sweep over the boundaries; it fails when the result has no room for the next piece. */
    method SweepInto(result: RegionArray) returns (ok: bool)
      requires Valid() && AllAligned(Value())
      requires result.Valid() && result.Value() == [] && result != this && result.regions != regions
      modifies result`count, result.regions
      ensures result.Valid() && ok == (|Sweep(Value(), 0)| <= result.regions.Length)
      ensures ok ==> result.Value() == Sweep(Value(), 0)
    {
      ghost var rs, all := Value(), Sweep(Value(), 0);
      var maxAddr := MaxRegionEnd();
      var curRight := 0;
      while curRight < maxAddr
        invariant result.Valid() && Value() == rs && curRight <= maxAddr
        invariant result.Value() + Sweep(rs, curRight) == all
        decreases maxAddr - curRight
      {
        ok, curRight := SweepOne(result, curRight, all);
        if !ok { return; }
      }
      return true;
    }

    /** Joins the next region to the last one before `merged`, or appends it there. */
    method MergeOne(merged: nat, i: nat) returns (merged': nat)
      requires Valid() && 1 <= merged <= i < count
      modifies regions
      ensures var a, b := old(regions[..]), regions[..];
              && 1 <= merged' <= i + 1 && b[..merged'] == Joined(a[..merged], a[i])
              && b[i + 1..count] == a[i + 1..count]
    {
      ghost var a := regions[..];
      var r, last := regions[i], regions[merged - 1];
      if r.typ == last.typ {
        var longer := Region(last.base, last.len + r.len, last.typ);
        PutInFront(a, merged - 1, longer, i, count);
        regions[merged - 1] := longer;
        assert regions[..] == a[merged - 1 := longer];
        return merged;
      } else {
        PutInFront(a, merged, r, i, count);
        regions[merged] := r;
        assert regions[..] == a[merged := r];
        return merged + 1;
      }
    }

    /** Merges neighbours of one type in place. */
    method MergeNeighbours()
      requires Valid() && count > 0
      modifies this`count, regions
      ensures Valid() && Value() == Merged(old(Value()))
    {
      ghost var rs, a := Value(), regions[..];
      var merged := 1;
      assert a[..1] == Merged(rs[..1]) && a[1..count] == rs[1..];
      for i := 1 to count
        invariant 1 <= merged <= i <= count == old(count) && a == regions[..]
        invariant a[..merged] == Merged(rs[..i]) && a[i..count] == rs[i..]
      {
        NextOf(a, rs, i, count);
        MergedNext(rs, i);
        merged := MergeOne(merged, i);
        a := regions[..];
      }
      assert rs[..count] == rs && a[..merged] == regions[..merged];
      count := merged;
    }

    /**
     Replaces the regions by their normal form, in a new array of the same capacity. It panics exactly
     when the aligned regions have more distinct positive boundaries than the array has slots.
     */
    method IntoNonOverlapping() returns (r: Outcome)
      requires Valid() && forall q | q in Value() :: Alignable(q)
      modifies this`count, regions
      ensures r.Panicked? <==> |Boundaries(AlignedRegions(old(Value())))| > regions.Length
      ensures r.Normalized? ==>
        && fresh(r.result) && r.result.Valid() && r.result.regions.Length == regions.Length
        && r.result.Value() == Normalize(old(Value()))
    {
      ghost var rs := Value();
      AlignAndCompact();
      AlignedRegionsAligned(rs);
      SweepNeeds(AlignedRegions(rs));
      var result := new RegionArray(regions.Length);
      var ok := SweepInto(result);
      if !ok { return Panicked; }
      if result.count > 0 { result.MergeNeighbours(); }
      return Normalized(result);
    }
  }

  datatype Outcome = Panicked | Normalized(result: RegionArray)
}
