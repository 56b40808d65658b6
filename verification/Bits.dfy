/**
 Machine words as natural numbers below 2^64, with the bitwise operations defined bit by bit.

 `RwLock`, `RwMutex` and `CpuSet` pack their state into such words. The lemmas relate every bitwise
 operation the repository performs to what it does to single bits and to the word's value.
 */
module Bits {

  const WORD_BITS: nat := 64

  /** 2^64, the modulus of `usize` and `u64` arithmetic. */
  const WORD_SIZE: nat := 0x1_0000_0000_0000_0000

  type Word = w: int | 0 <= w < WORD_SIZE

  function Pow2(k: nat): (p: nat)
    ensures p >= 1
  {
    if k == 0 then 1 else 2 * Pow2(k - 1)
  }

  predicate Bit(x: nat, i: nat) {
    if i == 0 then x % 2 == 1 else Bit(x / 2, i - 1)
  }

  function And(x: nat, y: nat): (r: nat)
    ensures r <= x && r <= y
  {
    if x == 0 || y == 0 then 0
    else 2 * And(x / 2, y / 2) + if x % 2 == 1 && y % 2 == 1 then 1 else 0
  }

  function Or(x: nat, y: nat): (r: nat)
    ensures x <= r && y <= r <= x + y
  {
    if x == 0 then y else if y == 0 then x
    else 2 * Or(x / 2, y / 2) + if x % 2 == 1 || y % 2 == 1 then 1 else 0
  }

  /** The complement within one word. */
  function Not(x: Word): (r: Word) {
    WORD_SIZE - 1 - x
  }

  /** The number of set bits. */
  function PopCount(x: nat): (n: nat)
    ensures n <= x
  {
    if x == 0 then 0 else PopCount(x / 2) + x % 2
  }

  // ---- Bits of the results ----

  lemma {:induction false} BitOfZero(i: nat)
    ensures !Bit(0, i)
  {
    if i > 0 { BitOfZero(i - 1); }
  }

  lemma {:induction false} BitAnd(x: nat, y: nat, i: nat)
    ensures Bit(And(x, y), i) <==> Bit(x, i) && Bit(y, i)
    decreases i
  {
    if x == 0 || y == 0 {
      BitOfZero(i);
    } else if i > 0 {
      BitAnd(x / 2, y / 2, i - 1);
    }
  }

  lemma {:induction false} BitOr(x: nat, y: nat, i: nat)
    ensures Bit(Or(x, y), i) <==> Bit(x, i) || Bit(y, i)
    decreases i
  {
    if x == 0 || y == 0 {
      BitOfZero(i);
    } else if i > 0 {
      BitOr(x / 2, y / 2, i - 1);
    }
  }

  lemma {:induction false} BitPow2(k: nat, i: nat)
    ensures Bit(Pow2(k), i) <==> i == k
  {
    if k == 0 {
      if i > 0 { BitOfZero(i - 1); }
    } else if i > 0 {
      BitPow2(k - 1, i - 1);
    }
  }

  /** The low `k` bits of `2^k - 1 - x` are the complements of those of `x`. */
  lemma {:induction false} BitComplement(x: nat, k: nat, i: nat)
    requires x < Pow2(k)
    ensures Bit(Pow2(k) - 1 - x, i) <==> i < k && !Bit(x, i)
    decreases k
  {
    if k == 0 {
      BitOfZero(i);
    } else if i > 0 {
      BitComplement(x / 2, k - 1, i - 1);
      assert (Pow2(k) - 1 - x) / 2 == Pow2(k - 1) - 1 - x / 2;
    }
  }

  lemma BitNot(x: Word, i: nat)
    ensures Bit(Not(x), i) <==> i < WORD_BITS && !Bit(x, i)
  {
    Pow2Values();
    BitComplement(x, 64, i);
  }

  /** `2^k - 1` has exactly the bits below `k`. */
  lemma BitOnes(k: nat, i: nat)
    ensures Bit(Pow2(k) - 1, i) <==> i < k
  {
    BitOfZero(i);
    BitComplement(0, k, i);
  }

  /** A word has no bits at or above its width. */
  lemma {:induction false} BitBeyond(x: nat, k: nat, i: nat)
    requires x < Pow2(k) && k <= i
    ensures !Bit(x, i)
    decreases k
  {
    if k == 0 {
      BitOfZero(i);
    } else {
      BitBeyond(x / 2, k - 1, i - 1);
    }
  }

  /** Words are determined by their bits. */
  lemma {:induction false} BitsDetermine(x: nat, y: nat, k: nat)
    requires x < Pow2(k) && y < Pow2(k)
    requires forall i | 0 <= i < k :: Bit(x, i) <==> Bit(y, i)
    ensures x == y
    decreases k
  {
    if k > 0 {
      assert Bit(x, 0) <==> Bit(y, 0);
      forall i | 0 <= i < k - 1 ensures Bit(x / 2, i) <==> Bit(y / 2, i) {
        assert Bit(x, i + 1) <==> Bit(y, i + 1);
      }
      BitsDetermine(x / 2, y / 2, k - 1);
    }
  }

  // ---- Values of the results ----

  lemma {:induction false} Pow2Add(a: nat, b: nat)
    ensures Pow2(a + b) == Pow2(a) * Pow2(b)
  {
    if a > 0 {
      Pow2Add(a - 1, b);
      assert Pow2(a + b) == 2 * Pow2((a - 1) + b);
    }
  }

  lemma {:induction false} Pow2Monotone(a: nat, b: nat)
    requires a <= b
    ensures Pow2(a) <= Pow2(b)
    decreases b
  {
    if a < b { Pow2Monotone(a, b - 1); }
  }

  lemma Pow2Values()
    ensures Pow2(60) == 0x1000_0000_0000_0000 && Pow2(61) == 0x2000_0000_0000_0000
    ensures Pow2(62) == 0x4000_0000_0000_0000 && Pow2(63) == 0x8000_0000_0000_0000
    ensures Pow2(64) == WORD_SIZE
  {
    Pow2Of48();
    Pow2Of12();
    Pow2Add(48, 12);
  }

  lemma Pow2Of12()
    ensures Pow2(12) == 0x1000
  {}

  lemma Pow2Of48()
    ensures Pow2(48) == 0x1_0000_0000_0000
  {
    Pow2Of12();
    Pow2Add(12, 12); Pow2Add(24, 24);
  }

  lemma {:induction false} OrPow2(x: nat, k: nat)
    ensures Or(x, Pow2(k)) == if Bit(x, k) then x else x + Pow2(k)
    decreases k
  {
    if x == 0 {
      BitOfZero(k);
    } else if k > 0 {
      OrPow2(x / 2, k - 1);
    }
  }

  lemma {:induction false} AndPow2(x: nat, k: nat)
    ensures And(x, Pow2(k)) == if Bit(x, k) then Pow2(k) else 0
    decreases k
  {
    if x == 0 {
      BitOfZero(k);
    } else if k > 0 {
      AndPow2(x / 2, k - 1);
    }
  }

  lemma AndOdd(x: nat, mask: nat)
    requires mask % 2 == 1
    ensures And(x, mask) == 2 * And(x / 2, mask / 2) + x % 2
  {}

  /** Masking with the complement of a single bit clears that bit and nothing else. */
  lemma {:induction false} AndNotPow2(x: nat, k: nat, n: nat)
    requires k < n && x < Pow2(n) && Pow2(k) < Pow2(n)
    ensures And(x, Pow2(n) - 1 - Pow2(k)) == if Bit(x, k) then x - Pow2(k) else x
    decreases k
  {
    var mask := Pow2(n) - 1 - Pow2(k);
    if x == 0 {
      BitOfZero(k);
    } else if k == 0 {
      assert mask / 2 == Pow2(n - 1) - 1 && mask % 2 == 0;
      AndOnes(x / 2, n - 1);
    } else {
      assert mask / 2 == Pow2(n - 1) - 1 - Pow2(k - 1) && mask % 2 == 1;
      AndNotPow2(x / 2, k - 1, n - 1);
      AndOdd(x, mask);
    }
  }

  lemma {:induction false} AndOnes(x: nat, k: nat)
    requires x < Pow2(k)
    ensures And(x, Pow2(k) - 1) == x
    decreases k
  {
    if x > 0 {
      assert (Pow2(k) - 1) / 2 == Pow2(k - 1) - 1;
      AndOnes(x / 2, k - 1);
    }
  }

  /** A word is its top bit and the rest. */
  lemma {:induction false} AndLowMask(x: nat, k: nat)
    requires x < Pow2(k + 1)
    ensures And(x, Pow2(k) - 1) == if Bit(x, k) then x - Pow2(k) else x
    ensures Bit(x, k) <==> Pow2(k) <= x
    decreases k
  {
    if k > 0 && x > 0 {
      assert (Pow2(k) - 1) / 2 == Pow2(k - 1) - 1;
      AndLowMask(x / 2, k - 1);
    } else {
      BitOfZero(k);
    }
  }

  lemma {:induction false} OrBound(x: nat, y: nat, k: nat)
    requires x < Pow2(k) && y < Pow2(k)
    ensures Or(x, y) < Pow2(k)
    decreases k
  {
    if x > 0 && y > 0 { OrBound(x / 2, y / 2, k - 1); }
  }

  lemma OrOfWords(x: Word, y: Word)
    ensures Or(x, y) < WORD_SIZE
  {
    Pow2Values();
    OrBound(x, y, 64);
  }

  /** Adding a power of two leaves the lower bits alone. */
  lemma {:induction false} BitBelowAddedPow2(x: nat, m: nat, i: nat)
    requires i < m
    ensures Bit(x + Pow2(m), i) <==> Bit(x, i)
    decreases i
  {
    assert (x + Pow2(m)) / 2 == x / 2 + Pow2(m - 1);
    if i > 0 { BitBelowAddedPow2(x / 2, m - 1, i - 1); }
  }

  lemma LowMaskOfAddedPow2(x: nat, m: nat, k: nat)
    requires k <= m
    ensures And(x + Pow2(m), Pow2(k) - 1) == And(x, Pow2(k) - 1)
  {
    var y, mask := x + Pow2(m), Pow2(k) - 1;
    forall i | 0 <= i < k ensures Bit(And(y, mask), i) <==> Bit(And(x, mask), i) {
      BitAnd(y, mask, i);
      BitAnd(x, mask, i);
      BitBelowAddedPow2(x, m, i);
    }
    BitsDetermine(And(y, mask), And(x, mask), k);
  }

  /** A word without bits is zero. */
  lemma NoBitsIsZero(x: nat, k: nat)
    requires x < Pow2(k)
    requires forall i | 0 <= i < k :: !Bit(x, i)
    ensures x == 0
  {
    forall i | 0 <= i < k ensures !Bit(0, i) { BitOfZero(i); }
    BitsDetermine(x, 0, k);
  }

  /** Words whose conjunction is zero share no bit. */
  lemma AndZeroSharesNoBit(x: nat, y: nat, i: nat)
    requires And(x, y) == 0
    ensures !(Bit(x, i) && Bit(y, i))
  {
    BitAnd(x, y, i);
    BitOfZero(i);
  }

  /** Words that share no bit have a zero conjunction. */
  lemma SharesNoBitAndZero(x: Word, y: Word)
    requires forall i | 0 <= i < WORD_BITS :: !(Bit(x, i) && Bit(y, i))
    ensures And(x, y) == 0
  {
    Pow2Values();
    forall i | 0 <= i < WORD_BITS ensures !Bit(And(x, y), i) { BitAnd(x, y, i); }
    NoBitsIsZero(And(x, y), 64);
  }
}
