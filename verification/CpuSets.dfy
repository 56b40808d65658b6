/**
 Sets of CPUs as vectors of 64-bit words, against sets of CPU ids.
 */
module CpuSets {
  import opened Bits

  function PartsFor(n: nat): nat {
    (n + 63) / 64
  }

  // ---- The set that a vector of words stands for ----

  predicate BitAt(words: seq<Word>, i: nat) {
    i / 64 < |words| && Bit(words[i / 64], i % 64)
  }

  /** The members below `n`. */
  function Below(words: seq<Word>, n: nat): set<nat> {
    set i | 0 <= i < n && BitAt(words, i)
  }

  function Members(words: seq<Word>): set<nat> {
    Below(words, 64 * |words|)
  }

  /** All CPUs. */
  function UpTo(n: nat): (s: set<nat>)
    ensures forall i :: i in s <==> 0 <= i < n
  {
    if n == 0 then {} else UpTo(n - 1) + {n - 1}
  }

  lemma MembersAre(words: seq<Word>, i: nat)
    ensures i in Members(words) <==> BitAt(words, i)
  {}

  /** Where a bit is. */
  lemma Position(k: nat, b: nat)
    requires b < 64
    ensures (64 * k + b) / 64 == k && (64 * k + b) % 64 == b
  {}

  // ---- Counting ----

  /** How many of the lowest `k` bits are set. */
  function Ones(x: nat, k: nat): nat {
    if k == 0 then 0 else Ones(x, k - 1) + if Bit(x, k - 1) then 1 else 0
  }

  lemma {:induction false} OnesOfHalf(x: nat, k: nat)
    requires k > 0
    ensures Ones(x, k) == x % 2 + Ones(x / 2, k - 1)
  {
    if k > 1 { OnesOfHalf(x, k - 1); }
  }

  lemma {:induction false} OnesOfZero(k: nat)
    ensures Ones(0, k) == 0
  {
    if k > 0 { OnesOfZero(k - 1); BitOfZero(k - 1); }
  }

  /** `count_ones` counts the set bits. */
  lemma {:induction false} PopCountIsOnes(x: nat, k: nat)
    requires x < Pow2(k)
    ensures PopCount(x) == Ones(x, k)
    decreases k
  {
    if x == 0 {
      OnesOfZero(k);
    } else {
      OnesOfHalf(x, k);
      PopCountIsOnes(x / 2, k - 1);
    }
  }

  lemma BelowNext(words: seq<Word>, n: nat)
    ensures |Below(words, n + 1)| == |Below(words, n)| + if BitAt(words, n) then 1 else 0
  {
    assert Below(words, n + 1) == Below(words, n) + if BitAt(words, n) then {n} else {};
  }

  lemma {:induction false} BelowInWord(words: seq<Word>, k: nat, b: nat)
    requires k < |words| && b <= 64
    ensures |Below(words, 64 * k + b)| == |Below(words, 64 * k)| + Ones(words[k], b)
    decreases b
  {
    if b > 0 {
      BelowInWord(words, k, b - 1);
      BelowNext(words, 64 * k + (b - 1));
      Position(k, b - 1);
    }
  }

  /** The sum that `count` computes. */
  function CountOnes(words: seq<Word>, k: nat): nat
    requires k <= |words|
  {
    if k == 0 then 0 else CountOnes(words, k - 1) + PopCount(words[k - 1])
  }

  lemma {:induction false} CountIsCardinality(words: seq<Word>, k: nat)
    requires k <= |words|
    ensures CountOnes(words, k) == |Below(words, 64 * k)|
    decreases k
  {
    if k == 0 {
      assert Below(words, 0) == {};
    } else {
      CountIsCardinality(words, k - 1);
      BelowInWord(words, k - 1, 64);
      Pow2Values();
      PopCountIsOnes(words[k - 1], 64);
    }
  }

  // ---- Changing one bit ----

  lemma SetBit(words: seq<Word>, i: nat)
    requires i / 64 < |words|
    ensures Or(words[i / 64], Pow2(i % 64)) < WORD_SIZE
    ensures Members(words[i / 64 := Or(words[i / 64], Pow2(i % 64))]) == Members(words) + {i}
  {
    var k, b := i / 64, i % 64;
    Pow2Values();
    Pow2Monotone(b, 63);
    OrOfWords(words[k], Pow2(b));
    var words' := words[k := Or(words[k], Pow2(b))];
    forall j | 0 <= j < 64 * |words| ensures BitAt(words', j) <==> BitAt(words, j) || j == i {
      if j / 64 == k {
        BitOr(words[k], Pow2(b), j % 64);
        BitPow2(b, j % 64);
      }
    }
  }

  lemma ClearBit(words: seq<Word>, i: nat)
    requires i / 64 < |words|
    ensures Pow2(i % 64) < WORD_SIZE
    ensures Members(words[i / 64 := And(words[i / 64], Not(Pow2(i % 64)))]) == Members(words) - {i}
  {
    var k, b := i / 64, i % 64;
    Pow2Values();
    Pow2Monotone(b, 63);
    var words' := words[k := And(words[k], Not(Pow2(b)))];
    forall j | 0 <= j < 64 * |words| ensures BitAt(words', j) <==> BitAt(words, j) && j != i {
      if j / 64 == k {
        BitAnd(words[k], Not(Pow2(b)), j % 64);
        BitNot(Pow2(b), j % 64);
        BitPow2(b, j % 64);
      }
    }
  }

  lemma TestBit(words: seq<Word>, i: nat)
    requires i / 64 < |words|
    ensures And(words[i / 64], Pow2(i % 64)) != 0 <==> i in Members(words)
  {
    AndPow2(words[i / 64], i % 64);
  }

  // ---- Whole words ----

  /** What `is_full` expects of a word. */
  function FullWord(n: nat, k: nat): Word
    requires k < PartsFor(n)
  {
    if k == PartsFor(n) - 1 && n % 64 != 0 then Mask(n % 64) else Not(0)
  }

  function Mask(b: nat): (m: Word)
    requires b < 64
    ensures m == Pow2(b) - 1
  {
    Pow2Values();
    Pow2Monotone(b, 63);
    Pow2(b) - 1
  }

  lemma FullWordBits(n: nat, k: nat, b: nat)
    requires k < PartsFor(n) && b < 64
    ensures Bit(FullWord(n, k), b) <==> 64 * k + b < n
  {
    if k == PartsFor(n) - 1 && n % 64 != 0 {
      BitOnes(n % 64, b);
    } else {
      BitOfZero(b);
      BitNot(0, b);
    }
  }

  /** A word that has the bits of all CPUs and no other is the full one. */
  lemma FullWordIf(w: Word, n: nat, k: nat)
    requires k < PartsFor(n) && forall b | 0 <= b < 64 :: Bit(w, b) <==> 64 * k + b < n
    ensures w == FullWord(n, k)
  {
    var full := FullWord(n, k);
    forall b | 0 <= b < 64 ensures Bit(w, b) <==> Bit(full, b) { FullWordBits(n, k, b); }
    Pow2Values();
    BitsDetermine(w, full, 64);
  }

  predicate NoTail(words: seq<Word>, n: nat) {
    |words| == PartsFor(n) && forall i | i in Members(words) :: i < n
  }

  /** All words are full exactly when the set is. */
  lemma FullIff(words: seq<Word>, n: nat)
    requires NoTail(words, n)
    ensures (forall k | 0 <= k < |words| :: words[k] == FullWord(n, k)) <==> Members(words) == UpTo(n)
  {
    if forall k | 0 <= k < |words| :: words[k] == FullWord(n, k) {
      forall i | 0 <= i < n ensures i in Members(words) {
        FullWordBits(n, i / 64, i % 64);
      }
    }
    if Members(words) == UpTo(n) {
      forall k | 0 <= k < |words| ensures words[k] == FullWord(n, k) {
        forall b | 0 <= b < 64 ensures Bit(words[k], b) <==> 64 * k + b < n {
          Position(k, b);
          MembersAre(words, 64 * k + b);
        }
        FullWordIf(words[k], n, k);
      }
    }
  }

  lemma EmptyIff(words: seq<Word>)
    ensures (forall k | 0 <= k < |words| :: words[k] == 0) <==> Members(words) == {}
  {
    if forall k | 0 <= k < |words| :: words[k] == 0 {
      forall i ensures i !in Members(words) {
        if i in Members(words) { BitOfZero(i % 64); }
      }
    }
    if Members(words) == {} {
      forall k | 0 <= k < |words| ensures words[k] == 0 {
        forall b | 0 <= b < 64 ensures !Bit(words[k], b) {
          Position(k, b);
          MembersAre(words, 64 * k + b);
        }
        Pow2Values();
        NoBitsIsZero(words[k], 64);
      }
    }
  }

  /** The bits of CPUs that do not exist masked away. */
  function Trimmed(words: seq<Word>, n: nat): seq<Word>
    requires |words| == PartsFor(n)
  {
    if n % 64 == 0 then words else words[|words| - 1 := And(words[|words| - 1], Mask(n % 64))]
  }

  /** Trimming drops the CPUs that do not exist and no other. */
  lemma TrimmedMembers(words: seq<Word>, n: nat)
    requires |words| == PartsFor(n)
    ensures NoTail(Trimmed(words, n), n) && Members(Trimmed(words, n)) == Members(words) * UpTo(n)
  {
    forall i | 0 <= i < 64 * |words| ensures i in Members(Trimmed(words, n)) <==> i in Members(words) && i < n {
      TrimmedBit(words, n, i);
    }
  }

  lemma TrimmedBit(words: seq<Word>, n: nat, i: nat)
    requires |words| == PartsFor(n) && i < 64 * |words|
    ensures BitAt(Trimmed(words, n), i) <==> BitAt(words, i) && i < n
  {
    if i / 64 == |words| - 1 && n % 64 != 0 {
      BitAnd(words[i / 64], Mask(n % 64), i % 64);
      BitOnes(n % 64, i % 64);
    }
  }

  /** Words of ones hold every CPU there is a bit for. */
  lemma OnesMembers(words: seq<Word>, n: nat)
    requires |words| == PartsFor(n) && forall k | 0 <= k < |words| :: words[k] == Not(0)
    ensures Members(words) * UpTo(n) == UpTo(n)
  {
    forall i | 0 <= i < n ensures i in Members(words) {
      BitOfZero(i % 64);
      BitNot(0, i % 64);
    }
  }

  // ---- The object ----

  class CpuSet {
    const numCpus: nat
    var bits: seq<Word>

    /** The unused bits of the last word are clear. */
    ghost predicate Valid()
      reads this
    {
      NoTail(bits, numCpus)
    }

    ghost function Value(): set<nat>
      reads this
    {
      Members(bits)
    }

    constructor Full(numCpus: nat)
      ensures Valid() && this.numCpus == numCpus && Value() == UpTo(numCpus)
    {
      this.numCpus := numCpus;
      bits := seq(PartsFor(numCpus), _ => Not(0));
      new;
      OnesMembers(bits, numCpus);
      ClearNonexistentCpuBits();
    }

    /** A set with given words. */
    constructor FromWords(numCpus: nat, words: seq<Word>)
      ensures this.numCpus == numCpus && bits == words
    {
      this.numCpus := numCpus;
      bits := words;
    }

    constructor Empty(numCpus: nat)
      ensures Valid() && this.numCpus == numCpus && Value() == {}
    {
      this.numCpus := numCpus;
      bits := seq(PartsFor(numCpus), _ => 0);
      new;
      EmptyIff(bits);
    }

    method ClearNonexistentCpuBits()
      requires |bits| == PartsFor(numCpus)
      modifies this`bits
      ensures Valid() && Value() == old(Value()) * UpTo(numCpus)
    {
      TrimmedMembers(bits, numCpus);
      if numCpus % 64 != 0 {
        var last := PartsFor(numCpus) - 1;
        bits := bits[last := And(bits[last], Mask(numCpus % 64))];
      }
    }

    method Add(cpu: nat)
      requires Valid()
      modifies this`bits
      ensures Value() == old(Value()) + {cpu} && (cpu < numCpus ==> Valid())
    {
      var part, bit := cpu / 64, cpu % 64;
      if part >= |bits| {
        GrowKeeps(bits, part + 1);
        bits := bits + seq(part + 1 - |bits|, _ => 0);
      }
      SetBit(bits, cpu);
      bits := bits[part := Or(bits[part], Pow2(bit))];
    }

    method Remove(cpu: nat)
      requires Valid()
      modifies this`bits
      ensures Valid() && Value() == old(Value()) - {cpu}
    {
      var part, bit := cpu / 64, cpu % 64;
      if part < |bits| {
        ClearBit(bits, cpu);
        bits := bits[part := And(bits[part], Not(Pow2(bit)))];
      }
    }

    method Contains(cpu: nat) returns (r: bool)
      ensures r <==> cpu in Value()
    {
      var part, bit := cpu / 64, cpu % 64;
      if part < |bits| { TestBit(bits, cpu); }
      return part < |bits| && And(bits[part], Pow2(bit)) != 0;
    }

    method Count() returns (count: nat)
      ensures count == |Value()|
    {
      count := 0;
      for k := 0 to |bits|
        invariant count == CountOnes(bits, k)
      {
        count := count + PopCount(bits[k]);
      }
      CountIsCardinality(bits, |bits|);
    }

    method IsEmpty() returns (r: bool)
      ensures r <==> Value() == {}
    {
      EmptyIff(bits);
      for k := 0 to |bits|
        invariant forall j | 0 <= j < k :: bits[j] == 0
      {
        if bits[k] != 0 { return false; }
      }
      return true;
    }

    method IsFull() returns (r: bool)
      requires Valid()
      ensures r <==> Value() == UpTo(numCpus)
    {
      FullIff(bits, numCpus);
      for k := 0 to |bits|
        invariant forall j | 0 <= j < k :: bits[j] == FullWord(numCpus, j)
      {
        var expected := if k == |bits| - 1 && numCpus % 64 != 0 then Mask(numCpus % 64) else Not(0);
        if bits[k] != expected { return false; }
      }
      return true;
    }

    method AddAll()
      requires Valid()
      modifies this`bits
      ensures Valid() && Value() == UpTo(numCpus)
    {
      bits := seq(|bits|, _ => Not(0));
      OnesMembers(bits, numCpus);
      ClearNonexistentCpuBits();
    }

    method Clear()
      requires Valid()
      modifies this`bits
      ensures Valid() && Value() == {}
    {
      bits := seq(|bits|, _ => 0);
      EmptyIff(bits);
    }

    /** The members, in strictly ascending order. */
    method Iter() returns (ids: seq<nat>)
      ensures forall i :: i in ids <==> i in Value()
      ensures forall j, k | 0 <= j < k < |ids| :: ids[j] < ids[k]
    {
      ids := [];
      for id := 0 to 64 * |bits|
        invariant forall i :: i in ids <==> i in Below(bits, id)
        invariant forall j, k | 0 <= j < k < |ids| :: ids[j] < ids[k]
      {
        TestBit(bits, id);
        if And(bits[id / 64], Pow2(id % 64)) != 0 {
          assert forall j | 0 <= j < |ids| :: ids[j] in ids;
          ids := ids + [id];
        }
      }
    }
  }

  lemma GrowKeeps(words: seq<Word>, n: nat)
    requires n >= |words|
    ensures Members(words + seq(n - |words|, _ => 0)) == Members(words)
  {
    var words' := words + seq(n - |words|, _ => 0);
    forall i ensures i in Members(words') <==> i in Members(words) {
      if i in Members(words') && i / 64 >= |words| { BitOfZero(i % 64); }
    }
  }

  // ---- The atomic set ----

  /** What others do to the atomic set, one word at a time. */
  datatype AtomicOp =
    | AtomicAdd(cpu: nat)
    | AtomicRemove(cpu: nat)
    | StoreWord(k: nat, w: Word)

  function AfterOp(words: seq<Word>, op: AtomicOp): (r: seq<Word>)
    ensures |r| == |words|
    ensures op.AtomicAdd? && op.cpu < 64 * |words| ==> Members(r) == Members(words) + {op.cpu}
    ensures op.AtomicRemove? ==> Members(r) == Members(words) - {op.cpu}
  {
    match op
    case AtomicAdd(cpu) =>
      if cpu / 64 >= |words| then words
      else SetBit(words, cpu); words[cpu / 64 := Or(words[cpu / 64], Pow2(cpu % 64))]
    case AtomicRemove(cpu) =>
      if cpu / 64 >= |words| then words
      else ClearBit(words, cpu); words[cpu / 64 := And(words[cpu / 64], Not(Pow2(cpu % 64)))]
    case StoreWord(k, w) => if k < |words| then words[k := w] else words
  }

  function AfterOps(words: seq<Word>, ops: seq<AtomicOp>): (r: seq<Word>)
    ensures |r| == |words|
  {
    if ops == [] then words else AfterOp(AfterOps(words, ops[..|ops| - 1]), ops[|ops| - 1])
  }

  /** The set when word `k` is loaded; `others[j]` is what others do before the load of word `j`. */
  function AtLoad(words: seq<Word>, others: seq<seq<AtomicOp>>, k: nat): (r: seq<Word>)
    ensures |r| == |words|
  {
    var before := if k == 0 then words else AtLoad(words, others, k - 1);
    if k < |others| then AfterOps(before, others[k]) else before
  }

  /** What the first `n` loads return. */
  function LoadedUpTo(words: seq<Word>, others: seq<seq<AtomicOp>>, n: nat): (r: seq<Word>)
    requires n <= |words|
    ensures |r| == n
  {
    if n == 0 then [] else LoadedUpTo(words, others, n - 1) + [AtLoad(words, others, n - 1)[n - 1]]
  }

  lemma {:induction false} LoadedAt(words: seq<Word>, others: seq<seq<AtomicOp>>, n: nat, k: nat)
    requires k < n <= |words|
    ensures LoadedUpTo(words, others, n)[k] == AtLoad(words, others, k)[k]
  {
    if k < n - 1 { LoadedAt(words, others, n - 1, k); }
  }

  /** What loading word by word returns. */
  function Loaded(words: seq<Word>, others: seq<seq<AtomicOp>>): seq<Word> {
    LoadedUpTo(words, others, |words|)
  }

  /**
   Racing with others, a load contains every CPU that is a member at every load of a word, in particular
   every CPU that is a member all the time, and no CPU that is a member at none of them.
   */
  lemma LoadedMeans(words: seq<Word>, others: seq<seq<AtomicOp>>, cpu: nat)
    requires words != []
    ensures (forall k | 0 <= k < |words| :: cpu in Members(AtLoad(words, others, k)))
            ==> cpu in Members(Loaded(words, others))
    ensures cpu in Members(Loaded(words, others))
            ==> exists k | 0 <= k < |words| :: cpu in Members(AtLoad(words, others, k))
  {
    var k := cpu / 64;
    if k < |words| {
      LoadedAt(words, others, |words|, k);
      assert cpu in Members(Loaded(words, others)) <==> cpu in Members(AtLoad(words, others, k));
    } else {
      assert cpu !in Members(AtLoad(words, others, 0));
    }
  }

  // ---- What others do takes effect ----

  /** The operation leaves the membership of the CPU alone. */
  predicate Spares(op: AtomicOp, cpu: nat) {
    match op
    case AtomicAdd(c) => c != cpu
    case AtomicRemove(c) => c != cpu
    case StoreWord(k, _) => k != cpu / 64
  }

  lemma {:induction false} OpsSpare(words: seq<Word>, ops: seq<AtomicOp>, cpu: nat)
    requires forall i | 0 <= i < |ops| :: Spares(ops[i], cpu)
    ensures cpu in Members(AfterOps(words, ops)) <==> cpu in Members(words)
  {
    if ops != [] {
      var init, last := ops[..|ops| - 1], ops[|ops| - 1];
      OpsSpare(words, init, cpu);
      OpSpares(AfterOps(words, init), last, cpu);
    }
  }

  lemma OpSpares(words: seq<Word>, op: AtomicOp, cpu: nat)
    requires Spares(op, cpu)
    ensures cpu in Members(AfterOp(words, op)) <==> cpu in Members(words)
  {}

  /** Operation `i` adds the CPU to the set or removes it, and no later one concerns it. */
  predicate LastOn(ops: seq<AtomicOp>, i: nat, cpu: nat) {
    && i < |ops| && (ops[i] == AtomicAdd(cpu) || ops[i] == AtomicRemove(cpu))
    && (forall j | i < j < |ops| :: Spares(ops[j], cpu))
  }

  /** The last operation on a CPU decides whether it is a member. */
  lemma {:induction false} LastOpDecides(words: seq<Word>, ops: seq<AtomicOp>, i: nat, cpu: nat)
    requires LastOn(ops, i, cpu) && cpu < 64 * |words|
    ensures cpu in Members(AfterOps(words, ops)) <==> ops[i].AtomicAdd?
  {
    if i < |ops| - 1 {
      LastOpDecides(words, ops[..|ops| - 1], i, cpu);
      OpSpares(AfterOps(words, ops[..|ops| - 1]), ops[|ops| - 1], cpu);
    }
  }

  /** Operation `i` of round `j` adds or removes the CPU, and nothing up to round `k` concerns it later. */
  predicate LastUntil(others: seq<seq<AtomicOp>>, j: nat, i: nat, k: nat, cpu: nat) {
    && j < |others| && j <= k && LastOn(others[j], i, cpu)
    && (forall m, n | j < m <= k && m < |others| && 0 <= n < |others[m]| :: Spares(others[m][n], cpu))
  }

  lemma {:induction false} AtLoadDecides(words: seq<Word>, others: seq<seq<AtomicOp>>, j: nat, i: nat, k: nat, cpu: nat)
    requires LastUntil(others, j, i, k, cpu) && cpu < 64 * |words|
    ensures cpu in Members(AtLoad(words, others, k)) <==> others[j][i].AtomicAdd?
  {
    var before := if k == 0 then words else AtLoad(words, others, k - 1);
    if j == k {
      LastOpDecides(before, others[j], i, cpu);
    } else {
      AtLoadDecides(words, others, j, i, k - 1, cpu);
      if k < |others| { OpsSpare(before, others[k], cpu); }
    }
  }

  /** A racing load sees the last change of a CPU before its word is loaded. */
  lemma LoadSeesChange(words: seq<Word>, others: seq<seq<AtomicOp>>, j: nat, i: nat, cpu: nat)
    requires cpu < 64 * |words| && LastUntil(others, j, i, cpu / 64, cpu)
    ensures cpu in Members(Loaded(words, others)) <==> others[j][i].AtomicAdd?
  {
    AtLoadDecides(words, others, j, i, cpu / 64, cpu);
    LoadedAt(words, others, |words|, cpu / 64);
  }

  // ---- Tail bits under races ----

  /** The operation concerns only CPUs that exist. */
  predicate Existing(op: AtomicOp, n: nat) {
    match op
    case AtomicAdd(cpu) => cpu < n
    case AtomicRemove(_) => true
    case StoreWord(k, w) => forall b | 0 <= b < 64 && Bit(w, b) :: 64 * k + b < n
  }

  predicate AllExisting(others: seq<seq<AtomicOp>>, n: nat) {
    forall k, i | 0 <= k < |others| && 0 <= i < |others[k]| :: Existing(others[k][i], n)
  }

  lemma OpKeepsTail(words: seq<Word>, op: AtomicOp, n: nat)
    requires NoTail(words, n) && Existing(op, n)
    ensures NoTail(AfterOp(words, op), n)
  {
    var r := AfterOp(words, op);
    forall i | i in Members(r) ensures i < n {
      if op.StoreWord? && i / 64 == op.k {
        assert Bit(op.w, i % 64);
      } else if op.StoreWord? {
        assert i in Members(words);
      }
    }
  }

  lemma {:induction false} OpsKeepTail(words: seq<Word>, ops: seq<AtomicOp>, n: nat)
    requires NoTail(words, n) && forall i | 0 <= i < |ops| :: Existing(ops[i], n)
    ensures NoTail(AfterOps(words, ops), n)
  {
    if ops != [] {
      OpsKeepTail(words, ops[..|ops| - 1], n);
      OpKeepsTail(AfterOps(words, ops[..|ops| - 1]), ops[|ops| - 1], n);
    }
  }

  lemma {:induction false} AtLoadKeepsTail(words: seq<Word>, others: seq<seq<AtomicOp>>, k: nat, n: nat)
    requires NoTail(words, n) && AllExisting(others, n)
    ensures NoTail(AtLoad(words, others, k), n)
  {
    var before := if k == 0 then words else AtLoad(words, others, k - 1);
    if k > 0 { AtLoadKeepsTail(words, others, k - 1, n); }
    if k < |others| { OpsKeepTail(before, others[k], n); }
  }

  /** Whatever others do with existing CPUs, a load has no bits of CPUs that do not exist. */
  lemma LoadedHasNoTail(words: seq<Word>, others: seq<seq<AtomicOp>>, n: nat)
    requires NoTail(words, n) && AllExisting(others, n)
    ensures NoTail(Loaded(words, others), n)
  {
    forall i | i in Members(Loaded(words, others)) ensures i < n {
      LoadedAt(words, others, |words|, i / 64);
      AtLoadKeepsTail(words, others, i / 64, n);
      assert i in Members(AtLoad(words, others, i / 64));
    }
  }

  // ---- Racing stores ----

  /** The set after `n` of the words of `value` have been stored; `others[k]` comes before the store of word `k`. */
  function AfterStores(words: seq<Word>, value: seq<Word>, others: seq<seq<AtomicOp>>, n: nat): (r: seq<Word>)
    requires n <= |words| == |value|
    ensures |r| == |words|
  {
    if n == 0 then words else
    var before := AfterStores(words, value, others, n - 1);
    var now := if n - 1 < |others| then AfterOps(before, others[n - 1]) else before;
    now[n - 1 := value[n - 1]]
  }

  /** A store that races with changes of other CPUs stores the membership of this one. */
  lemma {:induction false} StoredMeans(words: seq<Word>, value: seq<Word>, others: seq<seq<AtomicOp>>, n: nat, cpu: nat)
    requires cpu / 64 < n <= |words| == |value|
    requires forall k, i | 0 <= k < |others| && 0 <= i < |others[k]| :: Spares(others[k][i], cpu)
    ensures cpu in Members(AfterStores(words, value, others, n)) <==> cpu in Members(value)
  {
    if cpu / 64 < n - 1 {
      StoredMeans(words, value, others, n - 1, cpu);
      var before := AfterStores(words, value, others, n - 1);
      if n - 1 < |others| { OpsSpare(before, others[n - 1], cpu); }
    }
  }

  /** A change of a CPU after its word has been stored is not overwritten. */
  lemma {:induction false} StoredThenChanged(words: seq<Word>, value: seq<Word>, others: seq<seq<AtomicOp>>,
                                             n: nat, j: nat, i: nat, cpu: nat)
    requires cpu / 64 < j < n <= |words| == |value| && LastUntil(others, j, i, n - 1, cpu)
    ensures cpu in Members(AfterStores(words, value, others, n)) <==> others[j][i].AtomicAdd?
  {
    var before := AfterStores(words, value, others, n - 1);
    if j == n - 1 {
      LastOpDecides(before, others[j], i, cpu);
    } else {
      StoredThenChanged(words, value, others, n - 1, j, i, cpu);
      if n - 1 < |others| { OpsSpare(before, others[n - 1], cpu); }
    }
  }

  class AtomicCpuSet {
    const numCpus: nat
    var bits: seq<Word>

    ghost function Value(): set<nat>
      reads this
    {
      Members(bits)
    }

    constructor (value: CpuSet)
      ensures bits == value.bits && numCpus == value.numCpus
    {
      bits := value.bits;
      numCpus := value.numCpus;
    }

    method Add(cpu: nat)
      modifies this`bits
      ensures bits == AfterOp(old(bits), AtomicAdd(cpu))
      ensures Value() == if cpu / 64 < |bits| then old(Value()) + {cpu} else old(Value())
    {
      var part, bit := cpu / 64, cpu % 64;
      if part < |bits| {
        SetBit(bits, cpu);
        bits := bits[part := Or(bits[part], Pow2(bit))];
      }
    }

    method Remove(cpu: nat)
      modifies this`bits
      ensures bits == AfterOp(old(bits), AtomicRemove(cpu))
      ensures Value() == old(Value()) - {cpu}
    {
      var part, bit := cpu / 64, cpu % 64;
      if part < |bits| {
        ClearBit(bits, cpu);
        bits := bits[part := And(bits[part], Not(Pow2(bit)))];
      }
    }

    method Contains(cpu: nat) returns (r: bool)
      ensures r <==> cpu in Value()
    {
      var part, bit := cpu / 64, cpu % 64;
      if part < |bits| { TestBit(bits, cpu); }
      return part < |bits| && And(bits[part], Pow2(bit)) != 0;
    }

    /** Stores word by word while others change the set. */
    method Store(value: CpuSet, others: seq<seq<AtomicOp>>)
      requires |value.bits| == |bits|
      modifies this`bits
      ensures bits == AfterStores(old(bits), value.bits, others, |value.bits|)
    {
      for k := 0 to |bits|
        invariant |bits| == |value.bits| && bits == AfterStores(old(bits), value.bits, others, k)
      {
        if k < |others| { InterfereAll(others[k]); }
        bits := bits[k := value.bits[k]];
      }
    }

    /** One operation of another CPU. */
    method Interfere(op: AtomicOp)
      modifies this`bits
      ensures bits == AfterOp(old(bits), op)
    {
      match op
      case AtomicAdd(cpu) => Add(cpu);
      case AtomicRemove(cpu) => Remove(cpu);
      case StoreWord(k, w) => if k < |bits| { bits := bits[k := w]; }
    }

    /** Loads word by word while others change the set; the result is a proper set of existing CPUs. */
    method Load(others: seq<seq<AtomicOp>>) returns (set': CpuSet)
      modifies this`bits
      ensures fresh(set') && set'.numCpus == numCpus && set'.bits == Loaded(old(bits), others)
      ensures NoTail(old(bits), numCpus) && AllExisting(others, numCpus) ==> set'.Valid() && NoTail(bits, numCpus)
      ensures bits == if bits == [] then old(bits) else AtLoad(old(bits), others, |bits| - 1)
    {
      ghost var words := bits;
      var loaded := LoadWords(others);
      set' := new CpuSet.FromWords(numCpus, loaded);
      if NoTail(words, numCpus) && AllExisting(others, numCpus) {
        LoadedHasNoTail(words, others, numCpus);
        if words != [] { AtLoadKeepsTail(words, others, |words| - 1, numCpus); }
      }
    }

    method LoadWords(others: seq<seq<AtomicOp>>) returns (loaded: seq<Word>)
      modifies this`bits
      ensures loaded == Loaded(old(bits), others)
      ensures bits == if loaded == [] then old(bits) else AtLoad(old(bits), others, |loaded| - 1)
    {
      loaded := [];
      ghost var words := bits;
      for k := 0 to |bits|
        invariant |bits| == |words| && bits == if k == 0 then words else AtLoad(words, others, k - 1)
        invariant loaded == LoadedUpTo(words, others, k)
      {
        if k < |others| { InterfereAll(others[k]); }
        assert bits == AtLoad(words, others, k);
        loaded := loaded + [bits[k]];
      }
    }

    method InterfereAll(ops: seq<AtomicOp>)
      modifies this`bits
      ensures bits == AfterOps(old(bits), ops)
    {
      for i := 0 to |ops|
        invariant bits == AfterOps(old(bits), ops[..i])
      {
        assert ops[..i + 1][..i] == ops[..i];
        Interfere(ops[i]);
      }
      assert ops[..|ops|] == ops;
    }
  }
}
