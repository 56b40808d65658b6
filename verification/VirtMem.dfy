/**
 Memory seen through address translation.

 A view maps virtual ranges to physical frames and holds the bytes of the frames, some of them not yet
 initialized. Bytes are read and written one at a time through the translation; the lemmas say what
 whole-range writes, reads and copies do to every address of the view. Where the original leaves a
 result arbitrary (no translation, a byte that is not initialized) the functions return some fixed
 value, and no lemma depends on it.
 */
module VirtMem {
  import opened Base

  type Vaddr = nat
  type Paddr = nat
  type Byte = b: int | 0 <= b < 256

  datatype Cell = Uninit | Init(byte: Byte) {
    function Value(): Byte { if Init? then byte else 0 }
  }

  datatype Mapping = Mapping(vaStart: Vaddr, vaEnd: Vaddr, paStart: Paddr, paEnd: Paddr) {
    predicate Covers(va: Vaddr) { vaStart <= va < vaEnd }
  }

  datatype MemView = MemView(mappings: set<Mapping>, memory: map<Paddr, seq<Cell>>)

  predicate Apart(m: Mapping, n: Mapping) {
    (m.vaEnd <= n.vaStart || n.vaEnd <= m.vaStart) && (m.paEnd <= n.paStart || n.paEnd <= m.paStart)
  }

  /** Mappings are disjoint in virtual and in physical space. */
  predicate Disjoint(ms: set<Mapping>) {
    && (forall m | m in ms :: m.vaStart < m.vaEnd && m.vaEnd - m.vaStart == m.paEnd - m.paStart)
    && (forall m, n {:trigger Apart(m, n)} | m in ms && n in ms && m != n :: Apart(m, n))
  }

  /** Every mapped frame has contents, as long as the mapping. */
  predicate Valid(mv: MemView) {
    && Disjoint(mv.mappings)
    && forall m | m in mv.mappings :: m.paStart in mv.memory && m.vaEnd - m.vaStart <= |mv.memory[m.paStart]|
  }

  predicate Mapped(ms: set<Mapping>, va: Vaddr) {
    exists m | m in ms :: m.Covers(va)
  }

  lemma CoversOnce(ms: set<Mapping>, va: Vaddr)
    requires Disjoint(ms)
    ensures forall m, n | m in ms && n in ms && m.Covers(va) && n.Covers(va) :: m == n
  {
    forall m, n | m in ms && n in ms && m.Covers(va) && n.Covers(va) ensures m == n {
      assert m == n || Apart(m, n);
    }
  }

  function MappingOf(ms: set<Mapping>, va: Vaddr): (m: Mapping)
    requires Disjoint(ms) && Mapped(ms, va)
    ensures m in ms && m.Covers(va)
  {
    CoversOnce(ms, va);
    var m :| m in ms && m.Covers(va);
    m
  }

  /** The frame and the offset in it. */
  function AddrTransl(ms: set<Mapping>, va: Vaddr): Option<(Paddr, nat)> {
    if Disjoint(ms) && Mapped(ms, va) then
      var m := MappingOf(ms, va);
      Some((m.paStart, va - m.vaStart))
    else None
  }

  /** The frame contents hold the byte that the address translates to. */
  predicate Backed(mv: MemView, t: Option<(Paddr, nat)>) {
    t.Some? && t.value.0 in mv.memory && t.value.1 < |mv.memory[t.value.0]|
  }

  function Read(mv: MemView, va: Vaddr): Cell {
    var t := AddrTransl(mv.mappings, va);
    if Backed(mv, t) then mv.memory[t.value.0][t.value.1] else Uninit
  }

  function Write(mv: MemView, va: Vaddr, x: Byte): (r: MemView)
    ensures r.mappings == mv.mappings
  {
    var t := AddrTransl(mv.mappings, va);
    if Backed(mv, t) then mv.(memory := mv.memory[t.value.0 := mv.memory[t.value.0][t.value.1 := Init(x)]]) else mv
  }

  // ---- One byte ----

  lemma WriteKeeps(mv: MemView, va: Vaddr, x: Byte)
    ensures Write(mv, va, x).memory.Keys == mv.memory.Keys && (Valid(mv) ==> Valid(Write(mv, va, x)))
  {}

  lemma MappedIsBacked(mv: MemView, va: Vaddr)
    requires Valid(mv)
    ensures Backed(mv, AddrTransl(mv.mappings, va)) <==> Mapped(mv.mappings, va)
  {}

  /** Different addresses are different bytes. */
  lemma TranslInjective(ms: set<Mapping>, va: Vaddr, va': Vaddr)
    requires Disjoint(ms) && Mapped(ms, va) && Mapped(ms, va') && va != va'
    ensures AddrTransl(ms, va) != AddrTransl(ms, va')
  {
    var m, n := MappingOf(ms, va), MappingOf(ms, va');
    if m != n { assert Apart(m, n); }
  }

  lemma ReadWrite(mv: MemView, va: Vaddr, x: Byte, q: Vaddr)
    requires Valid(mv) && Mapped(mv.mappings, va)
    ensures Read(Write(mv, va, x), q) == if q == va then Init(x) else Read(mv, q)
  {
    MappedIsBacked(mv, va);
    if q != va && Mapped(mv.mappings, q) { TranslInjective(mv.mappings, va, q); }
  }

  // ---- Ranges ----

  predicate AllMapped(ms: set<Mapping>, va: Vaddr, n: nat) {
    forall i | va <= i < va + n :: Mapped(ms, i)
  }

  predicate AllInit(mv: MemView, va: Vaddr, n: nat) {
    forall i | va <= i < va + n :: Read(mv, i).Init?
  }

  function WriteBytes(mv: MemView, va: Vaddr, bytes: seq<Byte>): (r: MemView)
    ensures r.mappings == mv.mappings
    decreases |bytes|
  {
    if bytes == [] then mv else WriteBytes(Write(mv, va, bytes[0]), va + 1, bytes[1..])
  }

  function ReadBytes(mv: MemView, va: Vaddr, n: nat): (r: seq<Byte>)
    ensures |r| == n
    decreases n
  {
    if n == 0 then [] else [Read(mv, va).Value()] + ReadBytes(mv, va + 1, n - 1)
  }

  lemma {:induction false} ReadBytesAt(mv: MemView, va: Vaddr, n: nat, i: nat)
    requires i < n
    ensures ReadBytes(mv, va, n)[i] == Read(mv, va + i).Value()
    decreases n
  {
    if i > 0 { ReadBytesAt(mv, va + 1, n - 1, i - 1); }
  }

  /** What writing a range does to every address. */
  lemma {:induction false} WriteBytesMeaning(mv: MemView, va: Vaddr, bytes: seq<Byte>, q: Vaddr)
    requires Valid(mv) && AllMapped(mv.mappings, va, |bytes|)
    ensures Read(WriteBytes(mv, va, bytes), q) == if va <= q < va + |bytes| then Init(bytes[q - va]) else Read(mv, q)
    decreases |bytes|
  {
    if bytes != [] {
      WriteKeeps(mv, va, bytes[0]);
      WriteBytesMeaning(Write(mv, va, bytes[0]), va + 1, bytes[1..], q);
      ReadWrite(mv, va, bytes[0], q);
    }
  }

  lemma {:induction false} WriteBytesKeeps(mv: MemView, va: Vaddr, bytes: seq<Byte>)
    ensures WriteBytes(mv, va, bytes).memory.Keys == mv.memory.Keys
    ensures Valid(mv) ==> Valid(WriteBytes(mv, va, bytes))
    decreases |bytes|
  {
    if bytes != [] {
      WriteKeeps(mv, va, bytes[0]);
      WriteBytesKeeps(Write(mv, va, bytes[0]), va + 1, bytes[1..]);
    }
  }

  /** Reading back what was written. */
  lemma ReadBackBytes(mv: MemView, va: Vaddr, bytes: seq<Byte>)
    requires Valid(mv) && AllMapped(mv.mappings, va, |bytes|)
    ensures AllInit(WriteBytes(mv, va, bytes), va, |bytes|)
    ensures ReadBytes(WriteBytes(mv, va, bytes), va, |bytes|) == bytes
  {
    var w := WriteBytes(mv, va, bytes);
    forall i | va <= i < va + |bytes| ensures Read(w, i) == Init(bytes[i - va]) {
      WriteBytesMeaning(mv, va, bytes, i);
    }
    forall i | 0 <= i < |bytes| ensures ReadBytes(w, va, |bytes|)[i] == bytes[i] {
      ReadBytesAt(w, va, |bytes|, i);
    }
  }

  // ---- Copying ----

  /** `memcpy_spec`: the last byte first. */
  function Memcpy(src: Vaddr, dst: Vaddr, from: MemView, to: MemView, n: nat): (r: MemView)
    ensures r.mappings == to.mappings
    decreases n
  {
    if n == 0 then to else Memcpy(src, dst, from, Write(to, dst + n - 1, Read(from, src + n - 1).Value()), n - 1)
  }

  function Updated(memory: map<Paddr, seq<Cell>>, at: (Paddr, nat), c: Cell): map<Paddr, seq<Cell>> {
    if at.0 in memory && at.1 < |memory[at.0]| then memory[at.0 := memory[at.0][at.1 := c]] else memory
  }

  lemma UpdatesCommute(memory: map<Paddr, seq<Cell>>, a: (Paddr, nat), x: Cell, b: (Paddr, nat), y: Cell)
    requires a != b
    ensures Updated(Updated(memory, a, x), b, y) == Updated(Updated(memory, b, y), a, x)
  {
    if a.0 == b.0 && a.0 in memory && a.1 < |memory[a.0]| && b.1 < |memory[b.0]| {
      assert memory[a.0][a.1 := x][b.1 := y] == memory[a.0][b.1 := y][a.1 := x];
    }
  }

  lemma WriteIsUpdated(mv: MemView, va: Vaddr, x: Byte)
    ensures var t := AddrTransl(mv.mappings, va);
            var memory := if t.Some? then Updated(mv.memory, t.value, Init(x)) else mv.memory;
            Write(mv, va, x) == MemView(mv.mappings, memory)
  {}

  lemma WriteCommutes(mv: MemView, a: Vaddr, x: Byte, b: Vaddr, y: Byte)
    requires Disjoint(mv.mappings) && a != b
    ensures Write(Write(mv, a, x), b, y) == Write(Write(mv, b, y), a, x)
  {
    WriteIsUpdated(mv, a, x);
    WriteIsUpdated(mv, b, y);
    WriteIsUpdated(Write(mv, a, x), b, y);
    WriteIsUpdated(Write(mv, b, y), a, x);
    var s, t := AddrTransl(mv.mappings, a), AddrTransl(mv.mappings, b);
    if s.Some? && t.Some? {
      TranslInjective(mv.mappings, a, b);
      UpdatesCommute(mv.memory, s.value, Init(x), t.value, Init(y));
    }
  }

  lemma {:induction false} WriteBytesCommutes(mv: MemView, va: Vaddr, bytes: seq<Byte>, q: Vaddr, x: Byte)
    requires Disjoint(mv.mappings) && !(va <= q < va + |bytes|)
    ensures Write(WriteBytes(mv, va, bytes), q, x) == WriteBytes(Write(mv, q, x), va, bytes)
    decreases |bytes|
  {
    if bytes != [] {
      WriteBytesCommutes(Write(mv, va, bytes[0]), va + 1, bytes[1..], q, x);
      WriteCommutes(mv, va, bytes[0], q, x);
    }
  }

  lemma {:induction false} WriteBytesLast(mv: MemView, va: Vaddr, bytes: seq<Byte>, x: Byte)
    ensures WriteBytes(mv, va, bytes + [x]) == Write(WriteBytes(mv, va, bytes), va + |bytes|, x)
    decreases |bytes|
  {
    if bytes == [] {
      assert [] + [x] == [x] && [x][1..] == [];
    } else {
      assert (bytes + [x])[1..] == bytes[1..] + [x];
      WriteBytesLast(Write(mv, va, bytes[0]), va + 1, bytes[1..], x);
    }
  }

  lemma {:induction false} ReadBytesLast(mv: MemView, va: Vaddr, n: nat)
    ensures ReadBytes(mv, va, n + 1) == ReadBytes(mv, va, n) + [Read(mv, va + n).Value()]
    decreases n
  {
    if n > 0 { ReadBytesLast(mv, va + 1, n - 1); }
  }

  /** Copying backwards, byte by byte, is writing the bytes read. */
  lemma {:induction false} MemcpyIsWriteBytes(src: Vaddr, dst: Vaddr, from: MemView, to: MemView, n: nat)
    requires Disjoint(to.mappings)
    ensures Memcpy(src, dst, from, to, n) == WriteBytes(to, dst, ReadBytes(from, src, n))
    decreases n
  {
    if n > 0 {
      var x, bytes := Read(from, src + n - 1).Value(), ReadBytes(from, src, n - 1);
      MemcpyIsWriteBytes(src, dst, from, Write(to, dst + n - 1, x), n - 1);
      WriteBytesCommutes(to, dst, bytes, dst + n - 1, x);
      WriteBytesLast(to, dst, bytes, x);
      ReadBytesLast(from, src, n - 1);
    }
  }

  lemma MemcpyByte(src: Vaddr, dst: Vaddr, from: MemView, to: MemView, n: nat, q: Vaddr)
    requires Valid(to) && AllMapped(to.mappings, dst, n)
    ensures Read(Memcpy(src, dst, from, to, n), q)
         == if dst <= q < dst + n then Init(ReadBytes(from, src, n)[q - dst]) else Read(to, q)
  {
    MemcpyIsWriteBytes(src, dst, from, to, n);
    WriteBytesMeaning(to, dst, ReadBytes(from, src, n), q);
  }

  lemma CopiedByte(src: Vaddr, from: MemView, n: nat, i: nat)
    requires AllInit(from, src, n) && i < n
    ensures Init(ReadBytes(from, src, n)[i]) == Read(from, src + i)
  {
    ReadBytesAt(from, src, n, i);
  }

  /** What copying does to every address. */
  lemma MemcpyMeaning(src: Vaddr, dst: Vaddr, from: MemView, to: MemView, n: nat, q: Vaddr)
    requires AllInit(from, src, n) && Valid(to) && AllMapped(to.mappings, dst, n)
    ensures Read(Memcpy(src, dst, from, to, n), q)
         == if dst <= q < dst + n then Read(from, src + (q - dst)) else Read(to, q)
  {
    MemcpyByte(src, dst, from, to, n, q);
    if dst <= q < dst + n { CopiedByte(src, from, n, q - dst); }
  }

  // ---- Splitting and joining views ----

  predicate MappedTo(ms: set<Mapping>, va: Vaddr, pa: Paddr) {
    AddrTransl(ms, va).Some? && AddrTransl(ms, va).value.0 == pa
  }

  /** The part of the view for `[va, end)`. */
  function SplitLeft(mv: MemView, va: Vaddr, end: Vaddr): MemView {
    MemView(set m | m in mv.mappings && m.vaStart < end && m.vaEnd > va,
            map pa | pa in mv.memory && (exists a | va <= a < end :: MappedTo(mv.mappings, a, pa)) :: mv.memory[pa])
  }

  /** The part of the view from `end` on. */
  ghost function SplitRight(mv: MemView, end: Vaddr): MemView {
    MemView(set m | m in mv.mappings && m.vaEnd > end,
            map pa | pa in mv.memory && (exists a :: a >= end && MappedTo(mv.mappings, a, pa)) :: mv.memory[pa])
  }

  /** Both parts again; where they share a frame, the right one decides. */
  function Join(left: MemView, right: MemView): MemView {
    MemView(left.mappings + right.mappings, left.memory + right.memory)
  }

  /** The view maps nothing before `va` and holds no frame that it does not map. */
  ghost predicate StartsAt(mv: MemView, va: Vaddr) {
    && (forall m | m in mv.mappings :: va <= m.vaStart < m.vaEnd)
    && (forall pa | pa in mv.memory :: exists a :: va <= a && MappedTo(mv.mappings, a, pa))
  }

  lemma SplitJoinMappings(mv: MemView, va: Vaddr, end: Vaddr)
    requires forall m | m in mv.mappings :: va <= m.vaStart < m.vaEnd
    requires va <= end
    ensures SplitLeft(mv, va, end).mappings + SplitRight(mv, end).mappings == mv.mappings
  {}

  lemma SplitJoinMemory(mv: MemView, va: Vaddr, end: Vaddr)
    requires forall pa | pa in mv.memory :: exists a :: va <= a && MappedTo(mv.mappings, a, pa)
    ensures SplitLeft(mv, va, end).memory + SplitRight(mv, end).memory == mv.memory
  {
    forall pa | pa in mv.memory ensures pa in SplitLeft(mv, va, end).memory || pa in SplitRight(mv, end).memory {
      var a :| va <= a && MappedTo(mv.mappings, a, pa);
    }
  }

  /** Nothing is lost between the two parts. */
  lemma SplitJoin(mv: MemView, va: Vaddr, end: Vaddr)
    requires StartsAt(mv, va) && va <= end
    ensures Join(SplitLeft(mv, va, end), SplitRight(mv, end)) == mv
  {
    SplitJoinMappings(mv, va, end);
    SplitJoinMemory(mv, va, end);
  }

  lemma SubsetDisjoint(ms: set<Mapping>, sub: set<Mapping>)
    requires Disjoint(ms) && sub <= ms
    ensures Disjoint(sub)
  {
    forall m, n {:trigger Apart(m, n)} | m in sub && n in sub && m != n ensures Apart(m, n) {}
  }

  /** On its side, each part translates as the whole does. */
  lemma SplitTranslates(mv: MemView, va: Vaddr, end: Vaddr, a: Vaddr)
    requires Disjoint(mv.mappings)
    ensures va <= a < end ==> AddrTransl(SplitLeft(mv, va, end).mappings, a) == AddrTransl(mv.mappings, a)
    ensures end <= a ==> AddrTransl(SplitRight(mv, end).mappings, a) == AddrTransl(mv.mappings, a)
  {
    var left, right := SplitLeft(mv, va, end).mappings, SplitRight(mv, end).mappings;
    SubsetDisjoint(mv.mappings, left);
    SubsetDisjoint(mv.mappings, right);
    CoversOnce(mv.mappings, a);
    if Mapped(mv.mappings, a) {
      var m := MappingOf(mv.mappings, a);
      if va <= a < end { assert m in left && MappingOf(left, a) == m; }
      if end <= a { assert m in right && MappingOf(right, a) == m; }
    }
  }

  lemma SplitReads(mv: MemView, va: Vaddr, end: Vaddr, a: Vaddr)
    requires Disjoint(mv.mappings)
    ensures va <= a < end ==> Read(SplitLeft(mv, va, end), a) == Read(mv, a)
    ensures end <= a ==> Read(SplitRight(mv, end), a) == Read(mv, a)
  {
    SplitTranslates(mv, va, end, a);
    var t := AddrTransl(mv.mappings, a);
    if t.Some? { assert MappedTo(mv.mappings, a, t.value.0); }
  }

  /** The frame of an address is also mapped at or after `end`. */
  predicate Straddles(mv: MemView, a: Vaddr, end: Vaddr)
    requires Disjoint(mv.mappings) && Mapped(mv.mappings, a)
  {
    MappingOf(mv.mappings, a).vaEnd > end
  }

  lemma StraddlesIff(mv: MemView, a: Vaddr, end: Vaddr)
    requires Valid(mv) && Mapped(mv.mappings, a)
    ensures Straddles(mv, a, end) <==> MappingOf(mv.mappings, a).paStart in SplitRight(mv, end).memory
  {
    var m := MappingOf(mv.mappings, a);
    if Straddles(mv, a, end) {
      var b := if m.vaStart >= end then m.vaStart else end;
      CoversOnce(mv.mappings, b);
      assert m.Covers(b) && MappingOf(mv.mappings, b) == m;
      assert MappedTo(mv.mappings, b, m.paStart);
    }
    if m.paStart in SplitRight(mv, end).memory {
      var b :| b >= end && MappedTo(mv.mappings, b, m.paStart);
      var n := MappingOf(mv.mappings, b);
      assert m == n || Apart(m, n);
    }
  }

  /** The left part holds a mapping, and its frame, exactly if the mapping has an address in the range. */
  lemma SplitLeftExact(mv: MemView, va: Vaddr, end: Vaddr, m: Mapping)
    requires Valid(mv) && m in mv.mappings
    ensures va < end ==> (m in SplitLeft(mv, va, end).mappings <==> exists a | va <= a < end :: m.Covers(a))
    ensures m.paStart in SplitLeft(mv, va, end).memory <==> exists a | va <= a < end :: m.Covers(a)
  {
    var left, b := SplitLeft(mv, va, end), if m.vaStart >= va then m.vaStart else va;
    if va < end && m in left.mappings { assert m.Covers(b); }
    if a :| va <= a < end && m.Covers(a) {
      CoversOnce(mv.mappings, a);
      assert MappingOf(mv.mappings, a) == m && MappedTo(mv.mappings, a, m.paStart);
    }
    if m.paStart in left.memory {
      var a :| va <= a < end && MappedTo(mv.mappings, a, m.paStart);
      assert m == MappingOf(mv.mappings, a) || Apart(m, MappingOf(mv.mappings, a));
    }
  }

  /** The right part holds a mapping, and its frame, exactly if the mapping has an address from `end` on. */
  lemma SplitRightExact(mv: MemView, end: Vaddr, m: Mapping)
    requires Valid(mv) && m in mv.mappings
    ensures m in SplitRight(mv, end).mappings <==> exists a :: a >= end && m.Covers(a)
    ensures m.paStart in SplitRight(mv, end).memory <==> exists a :: a >= end && m.Covers(a)
  {
    CoversOnce(mv.mappings, m.vaStart);
    assert MappingOf(mv.mappings, m.vaStart) == m;
    StraddlesIff(mv, m.vaStart, end);
    if m.vaEnd > end { assert m.Covers(if m.vaStart >= end then m.vaStart else end); }
  }

  lemma JoinUpdated<K, V>(l: map<K, V>, r: map<K, V>, k: K, v: V)
    requires k in l
    ensures l[k := v] + r == if k in r then l + r else (l + r)[k := v]
  {}

  /** A write replaces the contents of one frame. */
  lemma WriteFrame(mv: MemView, m: Mapping, a: Vaddr, x: Byte, frame: seq<Cell>)
    requires AddrTransl(mv.mappings, a) == Some((m.paStart, a - m.vaStart)) && m.Covers(a)
    requires m.paStart in mv.memory && mv.memory[m.paStart] == frame && a - m.vaStart < |frame|
    ensures Write(mv, a, x) == MemView(mv.mappings, mv.memory[m.paStart := frame[a - m.vaStart := Init(x)]])
  {}

  lemma TranslOf(mv: MemView, a: Vaddr)
    requires Valid(mv) && Mapped(mv.mappings, a)
    ensures var m := MappingOf(mv.mappings, a);
            && AddrTransl(mv.mappings, a) == Some((m.paStart, a - m.vaStart))
            && m.paStart in mv.memory && a - m.vaStart < |mv.memory[m.paStart]|
  {}

  lemma LeftHolds(mv: MemView, va: Vaddr, end: Vaddr, a: Vaddr)
    requires Valid(mv) && va <= a < end && Mapped(mv.mappings, a)
    ensures var left, m := SplitLeft(mv, va, end), MappingOf(mv.mappings, a);
            m.paStart in left.memory && left.memory[m.paStart] == mv.memory[m.paStart]
  {
    assert MappedTo(mv.mappings, a, MappingOf(mv.mappings, a).paStart);
  }

  /** How a write to the left part looks in the whole. */
  lemma JoinWrite(mv: MemView, left: MemView, right: MemView, m: Mapping, a: Vaddr, x: Byte, frame: seq<Cell>)
    requires Join(left, right) == mv
    requires m.Covers(a) && AddrTransl(mv.mappings, a) == Some((m.paStart, a - m.vaStart))
    requires AddrTransl(left.mappings, a) == AddrTransl(mv.mappings, a)
    requires m.paStart in mv.memory && mv.memory[m.paStart] == frame && a - m.vaStart < |frame|
    requires m.paStart in left.memory && left.memory[m.paStart] == frame
    ensures Join(Write(left, a, x), right) == if m.paStart in right.memory then mv else Write(mv, a, x)
  {
    WriteFrame(mv, m, a, x, frame);
    WriteFrame(left, m, a, x, frame);
    JoinUpdated(left.memory, right.memory, m.paStart, frame[a - m.vaStart := Init(x)]);
  }

  lemma JoinSplitWrite(mv: MemView, left: MemView, right: MemView, a: Vaddr, x: Byte)
    requires Valid(mv) && Mapped(mv.mappings, a) && Join(left, right) == mv
    requires AddrTransl(left.mappings, a) == AddrTransl(mv.mappings, a)
    requires var m := MappingOf(mv.mappings, a);
             m.paStart in left.memory && m.paStart in mv.memory && left.memory[m.paStart] == mv.memory[m.paStart]
    ensures Join(Write(left, a, x), right)
         == if MappingOf(mv.mappings, a).paStart in right.memory then mv else Write(mv, a, x)
  {
    var m := MappingOf(mv.mappings, a);
    TranslOf(mv, a);
    JoinWrite(mv, left, right, m, a, x, mv.memory[m.paStart]);
  }

  /**
   Splitting a view, writing to its left part and joining the parts again is writing to the view exactly
   if the mapping written to ends with the left part, or the byte does not change.
   */
  lemma WriteThroughSplit(mv: MemView, va: Vaddr, end: Vaddr, a: Vaddr, x: Byte)
    requires Valid(mv) && StartsAt(mv, va) && va <= a < end && Mapped(mv.mappings, a)
    ensures Join(Write(SplitLeft(mv, va, end), a, x), SplitRight(mv, end)) == Write(mv, a, x)
            <==> !Straddles(mv, a, end) || Read(mv, a) == Init(x)
  {
    SplitJoin(mv, va, end);
    SplitTranslates(mv, va, end, a);
    LeftHolds(mv, va, end, a);
    JoinSplitWrite(mv, SplitLeft(mv, va, end), SplitRight(mv, end), a, x);
    StraddlesIff(mv, a, end);
    ReadWrite(mv, a, x, a);
    UnchangedWrite(mv, a, x);
  }

  lemma UnchangedWrite(mv: MemView, a: Vaddr, x: Byte)
    ensures Read(mv, a) == Init(x) ==> Write(mv, a, x) == mv
  {
    var t := AddrTransl(mv.mappings, a);
    if Backed(mv, t) && Read(mv, a) == Init(x) {
      assert mv.memory[t.value.0][t.value.1 := Init(x)] == mv.memory[t.value.0];
      assert mv.memory[t.value.0 := mv.memory[t.value.0]] == mv.memory;
    }
  }
}
