/**
 Readers and writers over memory views.

 `VmReader` and `VmWriter` are cursors over a range of addresses. Copies between them advance both; the
 fallible forms stop at a page fault, whose position is an input, and their callers roll the cursor
 back.
 */
module VmIo {
  import opened VirtMem

  datatype Error = InvalidArgs | PageFault

  datatype Result<T> = Ok(value: T) | Err(error: Error)

  /** The bytes transferred, all of them or those before a page fault. */
  datatype Transfer = Complete(n: nat) | Faulted(n: nat)

  datatype FillResult = Panicked | Filled(num: nat)

  function Min(x: nat, y: nat): nat {
    if x <= y then x else y
  }

  /** Copies the last byte, then the rest. */
  method CopyNonoverlapping(src: Vaddr, dst: Vaddr, from: MemView, to: MemView, n: nat) returns (r: MemView)
    ensures r == Memcpy(src, dst, from, to, n)
    decreases n
  {
    if n == 0 { return to; }
    var copied := Write(to, dst + n - 1, Read(from, src + n - 1).Value());
    r := CopyNonoverlapping(src, dst, from, copied, n - 1);
  }

  /** `__memcpy_fallible`: copies up to the first fault. */
  method MemcpyFallible(src: Vaddr, dst: Vaddr, from: MemView, to: MemView, len: nat, faultAfter: nat)
    returns (copied: nat, r: MemView)
    ensures copied == Min(len, faultAfter) && r == Memcpy(src, dst, from, to, copied)
  {
    copied := Min(len, faultAfter);
    r := CopyNonoverlapping(src, dst, from, to, copied);
  }

  /** `n` bytes from `src` on have been copied to `dst`, and no other address has changed. */
  ghost predicate Copied(src: Vaddr, dst: Vaddr, from: MemView, to: MemView, n: nat, r: MemView) {
    && r.mappings == to.mappings
    && forall q: Vaddr :: Read(r, q) == if dst <= q < dst + n then Read(from, src + (q - dst)) else Read(to, q)
  }

  lemma MemcpyCopies(src: Vaddr, dst: Vaddr, from: MemView, to: MemView, n: nat)
    requires AllInit(from, src, n) && Valid(to) && AllMapped(to.mappings, dst, n)
    ensures Copied(src, dst, from, to, n, Memcpy(src, dst, from, to, n)) && Valid(Memcpy(src, dst, from, to, n))
  {
    forall q: Vaddr
      ensures Read(Memcpy(src, dst, from, to, n), q)
           == if dst <= q < dst + n then Read(from, src + (q - dst)) else Read(to, q)
    {
      MemcpyMeaning(src, dst, from, to, n, q);
    }
    MemcpyIsWriteBytes(src, dst, from, to, n);
    WriteBytesKeeps(to, dst, ReadBytes(from, src, n));
  }

  /** What has been copied is what is read there afterwards. */
  lemma CopiedBytes(src: Vaddr, dst: Vaddr, from: MemView, to: MemView, n: nat, r: MemView)
    requires Copied(src, dst, from, to, n, r)
    ensures ReadBytes(r, dst, n) == ReadBytes(from, src, n)
  {
    forall i | 0 <= i < n ensures ReadBytes(r, dst, n)[i] == ReadBytes(from, src, n)[i] {
      ReadBytesAt(r, dst, n, i);
      ReadBytesAt(from, src, n, i);
    }
  }

  /** Writes the value `num` times, one after the other. */
  method FillFrom(start: Vaddr, value: seq<Byte>, num: nat, to: MemView) returns (r: MemView)
    ensures r == WriteBytes(to, start, Repeat(value, num))
  {
    r := to;
    var at := start;
    for i := 0 to num
      invariant at == start + |Repeat(value, i)|
      invariant r == WriteBytes(to, start, Repeat(value, i))
    {
      WriteBytesAppend(to, start, Repeat(value, i), value);
      r := WriteBytes(r, at, value);
      at := at + |value|;
    }
  }

  class VmReader {
    var cursor: Vaddr
    var end: Vaddr

    predicate Ordered()
      reads this
    {
      cursor <= end
    }

    function Remain(): nat
      requires Ordered()
      reads this
    {
      end - cursor
    }

    constructor (start: Vaddr, len: nat)
      ensures Ordered() && cursor == start && Remain() == len
    {
      cursor, end := start, start + len;
    }

    method Limit(maxRemain: nat)
      requires Ordered()
      modifies this`end
      ensures Ordered() && Remain() == Min(old(Remain()), maxRemain)
    {
      if maxRemain < Remain() { end := cursor + maxRemain; }
    }

    /** Panics, and leaves the cursor, when fewer bytes remain. */
    method Skip(n: nat) returns (ok: bool)
      requires Ordered()
      modifies this`cursor
      ensures Ordered() && ok == (n <= old(Remain()))
      ensures cursor == old(cursor) + if ok then n else 0
    {
      if n > Remain() { return false; }
      cursor := cursor + n;
      return true;
    }

    /** Copies as much as both sides allow and advances both cursors by it. */
    method Read(writer: VmWriter, from: MemView, to: MemView) returns (n: nat, r: MemView)
      requires Ordered() && writer.Ordered() && Valid(to)
      requires var n := Min(Remain(), writer.Avail());
               AllInit(from, cursor, n) && AllMapped(to.mappings, writer.cursor, n)
      modifies this`cursor, writer`cursor
      ensures Ordered() && writer.Ordered() && Valid(r)
      ensures n == Min(old(Remain()), old(writer.Avail()))
      ensures cursor == old(cursor) + n && writer.cursor == old(writer.cursor) + n
      ensures Copied(old(cursor), old(writer.cursor), from, to, n, r)
    {
      n := Min(Remain(), writer.Avail());
      if n == 0 {
        assert Copied(cursor, writer.cursor, from, to, n, to);
        return n, to;
      }
      MemcpyCopies(cursor, writer.cursor, from, to, n);
      r := CopyNonoverlapping(cursor, writer.cursor, from, to, n);
      cursor := cursor + n;
      writer.cursor := writer.cursor + n;
    }

    /** The same, up to a page fault. */
    method ReadFallible(writer: VmWriter, from: MemView, to: MemView, faultAfter: nat) returns (t: Transfer, r: MemView)
      requires Ordered() && writer.Ordered() && Valid(to)
      requires var n := Min(Min(Remain(), writer.Avail()), faultAfter);
               AllInit(from, cursor, n) && AllMapped(to.mappings, writer.cursor, n)
      modifies this`cursor, writer`cursor
      ensures Ordered() && writer.Ordered() && Valid(r)
      ensures var len := Min(old(Remain()), old(writer.Avail()));
              t.n == Min(len, faultAfter) && (t.Complete? <==> len <= faultAfter)
      ensures cursor == old(cursor) + t.n && writer.cursor == old(writer.cursor) + t.n
      ensures Copied(old(cursor), old(writer.cursor), from, to, t.n, r)
    {
      var len := Min(Remain(), writer.Avail());
      if len == 0 {
        assert Copied(cursor, writer.cursor, from, to, len, to);
        return Complete(0), to;
      }
      MemcpyCopies(cursor, writer.cursor, from, to, Min(len, faultAfter));
      var copied;
      copied, r := MemcpyFallible(cursor, writer.cursor, from, to, len, faultAfter);
      cursor := cursor + copied;
      writer.cursor := writer.cursor + copied;
      t := if copied < len then Faulted(copied) else Complete(copied);
    }

    /**
     Reads a value into the buffer at `bufVa`. On any error the cursor is where it was. With `size` all
     that remains, this is also `collect`.
     */
    method ReadVal(size: nat, from: MemView, buf: MemView, bufVa: Vaddr, faultAfter: nat) returns (r: Result<seq<Byte>>)
      requires Ordered() && Valid(buf) && AllMapped(buf.mappings, bufVa, size)
      requires AllInit(from, cursor, Min(Min(Remain(), size), faultAfter))
      modifies this`cursor
      ensures Ordered()
      ensures r.Ok? <==> size <= old(Remain()) && size <= faultAfter
      ensures r.Ok? ==> r.value == ReadBytes(from, old(cursor), size) && cursor == old(cursor) + size
      ensures r.Err? ==> cursor == old(cursor) && (r.error.InvalidArgs? <==> old(Remain()) < size)
    {
      if Remain() < size { return Err(InvalidArgs); }
      var writer := new VmWriter(bufVa, size);
      var t, filled := ReadFallible(writer, from, buf, faultAfter);
      match t {
        case Complete(_) =>
          CopiedBytes(old(cursor), bufVa, from, buf, size, filled);
          return Ok(ReadBytes(filled, bufVa, size));
        case Faulted(copied) =>
          cursor := cursor - copied;
          return Err(PageFault);
      }
    }
  }

  class VmWriter {
    var cursor: Vaddr
    var end: Vaddr

    predicate Ordered()
      reads this
    {
      cursor <= end
    }

    function Avail(): nat
      requires Ordered()
      reads this
    {
      end - cursor
    }

    constructor (start: Vaddr, len: nat)
      ensures Ordered() && cursor == start && Avail() == len
    {
      cursor, end := start, start + len;
    }

    method Limit(maxAvail: nat)
      requires Ordered()
      modifies this`end
      ensures Ordered() && Avail() == Min(old(Avail()), maxAvail)
    {
      if maxAvail < Avail() { end := cursor + maxAvail; }
    }

    /** Panics, and leaves the cursor, when there is less room. */
    method Skip(n: nat) returns (ok: bool)
      requires Ordered()
      modifies this`cursor
      ensures Ordered() && ok == (n <= old(Avail()))
      ensures cursor == old(cursor) + if ok then n else 0
    {
      if n > Avail() { return false; }
      cursor := cursor + n;
      return true;
    }

    /**
     Fills the room with copies of one value. It panics exactly when the cursor is not aligned for the
     value or the room is not a multiple of its size.
     */
    method Fill(value: seq<Byte>, align: nat, to: MemView) returns (f: FillResult, r: MemView)
      requires Ordered() && Valid(to) && AllMapped(to.mappings, cursor, Avail())
      requires |value| > 0 && align > 0
      modifies this`cursor
      ensures Ordered() && (f.Panicked? <==> old(cursor) % align != 0 || old(Avail()) % |value| != 0)
      ensures f.Panicked? ==> r == to && cursor == old(cursor)
      ensures f.Filled? ==>
        && f.num == old(Avail()) / |value| && cursor == end
        && r == WriteBytes(to, old(cursor), Repeat(value, f.num)) && |Repeat(value, f.num)| == old(Avail())
    {
      r := to;
      if cursor % align != 0 { return Panicked, r; }
      if Avail() % |value| != 0 { return Panicked, r; }
      var num := Avail() / |value|;
      r := FillFrom(cursor, value, num, to);
      RepeatLength(value, num);
      WholeParts(Avail(), |value|);
      cursor := end;
      f := Filled(num);
    }

    /** Sets up to `len` bytes to zero, up to a page fault. */
    method FillZeros(len: nat, to: MemView, faultAfter: nat) returns (t: Transfer, r: MemView)
      requires Ordered()
      modifies this`cursor
      ensures Ordered() && t.n == Min(Min(old(Avail()), len), faultAfter)
      ensures t.Complete? <==> Min(old(Avail()), len) <= faultAfter
      ensures cursor == old(cursor) + t.n && r == WriteBytes(to, old(cursor), Zeros(t.n))
    {
      var lenToSet := Min(Avail(), len);
      var setLen := Min(lenToSet, faultAfter);
      r := WriteBytes(to, cursor, Zeros(setLen));
      cursor := cursor + setLen;
      t := if setLen < lenToSet then Faulted(setLen) else Complete(lenToSet);
    }

    /**
     Writes the value at `srcVa`. On an error the cursor is where it was, although the bytes before a page
     fault have been written.
     */
    method WriteVal(srcVa: Vaddr, size: nat, from: MemView, to: MemView, faultAfter: nat)
      returns (r: Result<()>, r': MemView)
      requires Ordered() && Valid(to)
      requires AllInit(from, srcVa, size) && AllMapped(to.mappings, cursor, Min(Avail(), size))
      modifies this`cursor
      ensures Ordered() && Valid(r')
      ensures r.Ok? <==> size <= old(Avail()) && size <= faultAfter
      ensures cursor == old(cursor) + if r.Ok? then size else 0
      ensures r.Err? ==> (r.error.InvalidArgs? <==> old(Avail()) < size)
      ensures Copied(srcVa, old(cursor), from, to, if size <= old(Avail()) then Min(size, faultAfter) else 0, r')
    {
      if Avail() < size {
        assert Copied(srcVa, cursor, from, to, 0, to);
        return Err(InvalidArgs), to;
      }
      var reader := new VmReader(srcVa, size);
      var t, written := reader.ReadFallible(this, from, to, faultAfter);
      match t {
        case Complete(_) => return Ok(()), written;
        case Faulted(copied) =>
          cursor := cursor - copied;
          return Err(PageFault), written;
      }
    }
  }

  // ---- Repeated values ----

  function Repeat(value: seq<Byte>, n: nat): seq<Byte> {
    if n == 0 then [] else Repeat(value, n - 1) + value
  }

  function Zeros(n: nat): (z: seq<Byte>)
    ensures |z| == n && forall i | 0 <= i < n :: z[i] == 0
  {
    seq(n, _ => 0)
  }

  lemma {:induction false} RepeatLength(value: seq<Byte>, n: nat)
    ensures |Repeat(value, n)| == n * |value|
  {
    if n > 0 {
      RepeatLength(value, n - 1);
      assert n * |value| == (n - 1) * |value| + |value|;
    }
  }

  lemma {:induction false} RepeatAt(value: seq<Byte>, n: nat, i: nat)
    requires i < |Repeat(value, n)| && |value| > 0
    ensures Repeat(value, n)[i] == value[i % |value|]
  {
    var m := |Repeat(value, n - 1)|;
    RepeatLength(value, n - 1);
    if i < m {
      RepeatAt(value, n - 1, i);
    } else {
      Offset(n - 1, |value|, i - m);
    }
  }

  lemma {:induction false} Offset(k: nat, size: nat, j: nat)
    requires j < size
    ensures (k * size + j) % size == j
  {
    if k > 0 {
      Offset(k - 1, size, j);
      var x := (k - 1) * size + j;
      assert k * size + j == x + size;
      ModShift(x, size);
    }
  }

  lemma ModShift(x: nat, size: nat)
    requires size > 0
    ensures (x + size) % size == x % size
  {
    var d := (x + size) / size - x / size - 1;
    assert (x + size) % size == x % size - size * d;
    assert d >= 1 ==> size * d >= size;
    assert d <= -1 ==> size * d + size <= 0;
  }

  lemma WholeParts(x: nat, size: nat)
    requires size > 0 && x % size == 0
    ensures (x / size) * size == x
  {}

  lemma {:induction false} WriteBytesAppend(mv: MemView, va: Vaddr, xs: seq<Byte>, ys: seq<Byte>)
    ensures WriteBytes(mv, va, xs + ys) == WriteBytes(WriteBytes(mv, va, xs), va + |xs|, ys)
    decreases |xs|
  {
    if xs == [] {
      assert xs + ys == ys;
    } else {
      assert (xs + ys)[1..] == xs[1..] + ys;
      WriteBytesAppend(Write(mv, va, xs[0]), va + 1, xs[1..], ys);
    }
  }

  /** After a fill every byte of the range is the byte of the value at its place, and no other byte has changed. */
  lemma FillMeaning(value: seq<Byte>, n: nat, va: Vaddr, to: MemView, q: Vaddr)
    requires |value| > 0 && Valid(to) && AllMapped(to.mappings, va, |Repeat(value, n)|)
    ensures var r := WriteBytes(to, va, Repeat(value, n));
            Read(r, q) == if va <= q < va + n * |value| then Init(value[(q - va) % |value|]) else Read(to, q)
  {
    RepeatLength(value, n);
    WriteBytesMeaning(to, va, Repeat(value, n), q);
    if va <= q < va + n * |value| { RepeatAt(value, n, q - va); }
  }
}
