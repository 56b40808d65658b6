/**
 The 64-bit word behind `RwLock` and `RwMutex`.

 Bit 63 is the writer, bit 62 the upgradeable reader, bit 61 says that an upgradeable reader is being
 upgraded, and bits 60-0 count readers. Additions and subtractions wrap at 2^64 and could carry from
 one field into the next; the lemmas say what every atomic operation of the two locks does to the
 four fields, and under which condition it stays inside its field.
 */
module LockWord {
  import opened Bits

  const READER: Word := 1
  const WRITER: Word := 0x8000_0000_0000_0000
  const UPGRADEABLE_READER: Word := 0x4000_0000_0000_0000
  const BEING_UPGRADED: Word := 0x2000_0000_0000_0000
  const MAX_READER: Word := 0x1000_0000_0000_0000
  const MAX_READER_MASK: Word := 0x1FFF_FFFF_FFFF_FFFF

  /** `UPGRADEABLE_READER | BEING_UPGRADED`. */
  const UPGRADING_WORD: Word := 0x6000_0000_0000_0000

  /** `WRITER | UPGRADEABLE_READER`. */
  const UPGRADED_WORD: Word := 0xC000_0000_0000_0000

  /** `fetch_add`, wrapping. */
  function FetchAdd(w: Word, d: Word): Word {
    (w + d) % WORD_SIZE
  }

  /** `fetch_sub`, wrapping. */
  function FetchSub(w: Word, d: Word): Word {
    (w - d) % WORD_SIZE
  }

  function FetchOr(w: Word, mask: Word): Word {
    OrOfWords(w, mask);
    Or(w, mask)
  }

  function FetchAnd(w: Word, mask: Word): Word {
    And(w, mask)
  }

  /** What the word says, field by field. */
  datatype Fields = Fields(writer: bool, upread: bool, upgrading: bool, readers: nat)

  function Decode(w: Word): Fields {
    Fields(And(w, WRITER) != 0, And(w, UPGRADEABLE_READER) != 0, And(w, BEING_UPGRADED) != 0,
           And(w, MAX_READER_MASK))
  }

  /** The test of `try_read` on the previous word. */
  predicate ReadBlocked(w: Word) {
    And(w, Or(Or(WRITER, MAX_READER), BEING_UPGRADED)) != 0
  }

  function Weight(b: bool, w: Word): Word {
    if b then w else 0
  }

  /** The count fits in its 61 bits. */
  predicate Encodable(f: Fields) {
    f.readers <= MAX_READER_MASK
  }

  function Encode(f: Fields): Word
    requires Encodable(f)
  {
    f.readers + Weight(f.upgrading, BEING_UPGRADED) + Weight(f.upread, UPGRADEABLE_READER)
    + Weight(f.writer, WRITER)
  }

  lemma SingleBits()
    ensures WRITER == Pow2(63) && UPGRADEABLE_READER == Pow2(62) && BEING_UPGRADED == Pow2(61)
    ensures MAX_READER == Pow2(60) && MAX_READER_MASK == Pow2(61) - 1
  {
    Pow2Values();
  }

  /**
   Peels the top bit off a word of `k + 1` bits, where `p` is the value of that bit. The lower bits
   and the low 61 bits of the rest are those of the word.
   */
  lemma PeelBit(w: nat, k: nat, p: nat)
    requires p == Pow2(k) && w < 2 * p && 61 <= k
    ensures And(w, p) != 0 <==> p <= w
    ensures Bit(w, k) <==> p <= w
    ensures var rest := if p <= w then w - p else w;
            && And(rest, MAX_READER_MASK) == And(w, MAX_READER_MASK)
            && (forall i | 0 <= i < k :: Bit(rest, i) <==> Bit(w, i))
  {
    SingleBits();
    AndPow2(w, k);
    AndLowMask(w, k);
    if p <= w {
      var rest := w - p;
      forall i | 0 <= i < k ensures Bit(rest, i) <==> Bit(w, i) { BitBelowAddedPow2(rest, k, i); }
      LowMaskOfAddedPow2(rest, k, 61);
    }
  }

  lemma PeelWriter(w: Word)
    ensures var rest := if WRITER <= w then w - WRITER else w;
            && (And(w, WRITER) != 0 <==> WRITER <= w) && (Bit(w, 63) <==> WRITER <= w)
            && And(rest, MAX_READER_MASK) == And(w, MAX_READER_MASK)
            && (forall i | 0 <= i < 63 :: Bit(rest, i) <==> Bit(w, i))
  {
    SingleBits();
    PeelBit(w, 63, WRITER);
  }

  lemma PeelUpread(w: Word)
    requires w < WRITER
    ensures var rest := if UPGRADEABLE_READER <= w then w - UPGRADEABLE_READER else w;
            && (And(w, UPGRADEABLE_READER) != 0 <==> UPGRADEABLE_READER <= w)
            && (Bit(w, 62) <==> UPGRADEABLE_READER <= w)
            && And(rest, MAX_READER_MASK) == And(w, MAX_READER_MASK)
            && (forall i | 0 <= i < 62 :: Bit(rest, i) <==> Bit(w, i))
  {
    SingleBits();
    PeelBit(w, 62, UPGRADEABLE_READER);
  }

  lemma PeelUpgrading(w: Word)
    requires w < UPGRADEABLE_READER
    ensures var rest := if BEING_UPGRADED <= w then w - BEING_UPGRADED else w;
            && (And(w, BEING_UPGRADED) != 0 <==> BEING_UPGRADED <= w)
            && (Bit(w, 61) <==> BEING_UPGRADED <= w)
            && And(w, MAX_READER_MASK) == rest
            && (Bit(rest, 60) <==> Bit(w, 60))
  {
    SingleBits();
    PeelBit(w, 61, BEING_UPGRADED);
    AndOnes(if BEING_UPGRADED <= w then w - BEING_UPGRADED else w, 61);
  }

  /** A single bit is tested by a mask or by its position alike. */
  lemma TestedBits(w: Word)
    ensures And(w, WRITER) != 0 <==> Bit(w, 63)
    ensures And(w, UPGRADEABLE_READER) != 0 <==> Bit(w, 62)
    ensures And(w, BEING_UPGRADED) != 0 <==> Bit(w, 61)
  {
    SingleBits();
    AndPow2(w, 63); AndPow2(w, 62); AndPow2(w, 61);
  }

  /** The fields are the word: encoding them gives it back, and the count has 61 bits. */
  lemma Layout(w: Word)
    ensures Encodable(Decode(w)) && Encode(Decode(w)) == w
    ensures Bit(w, 60) <==> MAX_READER <= Decode(w).readers
  {
    TestedBits(w);
    PeelWriter(w);
    var w1: Word := if WRITER <= w then w - WRITER else w;
    PeelUpread(w1);
    var w2: Word := if UPGRADEABLE_READER <= w1 then w1 - UPGRADEABLE_READER else w1;
    PeelUpgrading(w2);
    TestedBits(w1); TestedBits(w2);
    var w3 := if BEING_UPGRADED <= w2 then w2 - BEING_UPGRADED else w2;
    CountReachesMax(w3);
  }

  lemma EncodeInjective(f: Fields, g: Fields)
    requires Encodable(f) && Encodable(g) && Encode(f) == Encode(g)
    ensures f == g
  {
    assert f.writer <==> WRITER <= Encode(f);
    assert g.writer <==> WRITER <= Encode(g);
    assert f.upread <==> UPGRADEABLE_READER <= Encode(f) - Weight(f.writer, WRITER);
    assert g.upread <==> UPGRADEABLE_READER <= Encode(g) - Weight(g.writer, WRITER);
  }

  /** Decoding inverts encoding. */
  lemma DecodeEncode(f: Fields)
    requires Encodable(f)
    ensures Decode(Encode(f)) == f
  {
    Layout(Encode(f));
    EncodeInjective(f, Decode(Encode(f)));
  }

  lemma CountReachesMax(c: nat)
    requires c < BEING_UPGRADED
    ensures Bit(c, 60) <==> MAX_READER <= c
  {
    SingleBits();
    AndLowMask(c, 60);
  }

  // ---- One lemma per atomic operation ----

  /** Adding a reader stays inside the count exactly when the count is not at its maximum. */
  lemma AddReader(w: Word)
    ensures Decode(FetchAdd(w, READER)) == Decode(w).(readers := Decode(w).readers + 1)
            <==> Decode(w).readers < MAX_READER_MASK
  {
    Layout(w);
    var f := Decode(w);
    if f.readers < MAX_READER_MASK {
      var g := f.(readers := f.readers + 1);
      assert Encode(g) == FetchAdd(w, READER);
      DecodeEncode(g);
    } else {
      Layout(FetchAdd(w, READER));
    }
  }

  /** Removing a reader borrows from no other field exactly when the count is positive. */
  lemma SubReader(w: Word)
    ensures Decode(w).readers > 0 <==> Decode(FetchSub(w, READER)).readers == Decode(w).readers - 1
    ensures Decode(w).readers > 0
            ==> Decode(FetchSub(w, READER)) == Decode(w).(readers := Decode(w).readers - 1)
  {
    Layout(w);
    var f := Decode(w);
    if f.readers > 0 {
      var g := f.(readers := f.readers - 1);
      assert Encode(g) == FetchSub(w, READER);
      DecodeEncode(g);
    }
  }

  lemma SetUpread(w: Word)
    ensures Decode(FetchOr(w, UPGRADEABLE_READER)) == Decode(w).(upread := true)
  {
    SingleBits();
    OrPow2(w, 62);
    TestedBits(w);
    Layout(w);
    DecodeEncode(Decode(w).(upread := true));
  }

  lemma SetUpgrading(w: Word)
    ensures Decode(FetchOr(w, BEING_UPGRADED)) == Decode(w).(upgrading := true)
  {
    SingleBits();
    OrPow2(w, 61);
    TestedBits(w);
    Layout(w);
    DecodeEncode(Decode(w).(upgrading := true));
  }

  lemma EncodeWithout(f: Fields, w: Word)
    requires Encodable(f) && w == Encode(f)
    ensures FetchSub(w, UPGRADEABLE_READER) == Encode(f.(upread := false)) <==> f.upread
  {}

  /** Subtracting the upgradeable bit clears it and borrows nothing exactly when it is set. */
  lemma ClearUpread(w: Word)
    ensures Decode(FetchSub(w, UPGRADEABLE_READER)) == Decode(w).(upread := false) <==> Decode(w).upread
  {
    Layout(w);
    var f := Decode(w);
    DecodesTo(FetchSub(w, UPGRADEABLE_READER), Encode(f.(upread := false)), f.(upread := false));
    EncodeWithout(f, w);
  }

  lemma ClearWriter(w: Word)
    ensures Decode(FetchAnd(w, Not(WRITER))) == Decode(w).(writer := false)
    ensures !Decode(w).writer ==> FetchAnd(w, Not(WRITER)) == w
  {
    SingleBits();
    Pow2Values();
    AndNotPow2(w, 63, 64);
    TestedBits(w);
    Layout(w);
    DecodeEncode(Decode(w).(writer := false));
  }

  /** A word decodes to given fields exactly when it is their encoding. */
  lemma DecodesTo(w: Word, c: Word, f: Fields)
    requires Encodable(f) && c == Encode(f)
    ensures w == c <==> Decode(w) == f
  {
    Layout(w);
    DecodeEncode(f);
  }

  /** A compare-exchange, in terms of fields. */
  lemma CompareExchange(w: Word, expected: Word, desired: Word, f: Fields, g: Fields)
    requires Encodable(f) && Encodable(g) && expected == Encode(f) && desired == Encode(g)
    ensures Decode(if w == expected then desired else w) == if Decode(w) == f then g else Decode(w)
  {
    DecodesTo(w, expected, f);
    DecodeEncode(g);
  }

  /** The two words of the upgrading compare-exchange, as the code writes them. */
  lemma UpgradeWords()
    ensures UPGRADING_WORD == Or(UPGRADEABLE_READER, BEING_UPGRADED)
    ensures UPGRADED_WORD == Or(WRITER, UPGRADEABLE_READER)
  {
    SingleBits();
    OrPow2(UPGRADEABLE_READER, 61); OrPow2(WRITER, 62);
    BitPow2(62, 61); BitPow2(63, 62);
  }

  /** `try_read` is turned away by a writer, by an upgrade in progress, or by 2^60 recorded readers. */
  lemma ReadBlockedExactly(w: Word)
    ensures ReadBlocked(w)
            <==> Decode(w).writer || Decode(w).upgrading || MAX_READER <= Decode(w).readers
  {
    Layout(w);
    TestedBits(w);
    var mask := Or(Or(WRITER, MAX_READER), BEING_UPGRADED);
    OrOfWords(WRITER, MAX_READER);
    OrOfWords(Or(WRITER, MAX_READER), BEING_UPGRADED);
    forall i: nat ensures Bit(mask, i) <==> i == 63 || i == 61 || i == 60 {
      BlockingMask(i);
    }
    if And(w, mask) == 0 {
      AndZeroSharesNoBit(w, mask, 63);
      AndZeroSharesNoBit(w, mask, 61);
      AndZeroSharesNoBit(w, mask, 60);
    } else if !Bit(w, 63) && !Bit(w, 61) && !Bit(w, 60) {
      SharesNoBitAndZero(w, mask);
    }
  }

  /** Masking with two bits is masking with each. */
  lemma MaskedTwice(w: Word)
    ensures And(w, UPGRADED_WORD) == Or(And(w, WRITER), And(w, UPGRADEABLE_READER))
  {
    var seen, sum := And(w, UPGRADED_WORD), Or(And(w, WRITER), And(w, UPGRADEABLE_READER));
    UpgradeWords();
    forall i | 0 <= i < WORD_BITS ensures Bit(seen, i) <==> Bit(sum, i) {
      MaskedBit(w, WRITER, UPGRADEABLE_READER, i);
    }
    OrOfWords(And(w, WRITER), And(w, UPGRADEABLE_READER));
    Pow2Values();
    BitsDetermine(seen, sum, 64);
  }

  lemma MaskedBit(w: Word, x: Word, y: Word, i: nat)
    ensures Bit(And(w, Or(x, y)), i) <==> Bit(Or(And(w, x), And(w, y)), i)
  {
    BitAnd(w, Or(x, y), i);
    BitOr(x, y, i);
    BitAnd(w, x, i);
    BitAnd(w, y, i);
    BitOr(And(w, x), And(w, y), i);
  }

  /** `try_upread` reads two bits of the previous word. */
  lemma UpreadSeenExactly(w: Word)
    ensures And(w, UPGRADED_WORD) == 0 <==> !Decode(w).writer && !Decode(w).upread
    ensures And(w, UPGRADED_WORD) == WRITER <==> Decode(w).writer && !Decode(w).upread
  {
    MaskedTwice(w);
    SingleBits();
    AndPow2(w, 63); AndPow2(w, 62);
    BitPow2(63, 62);
    OrPow2(And(w, WRITER), 62);
  }

  lemma BlockingMask(i: nat)
    ensures Bit(Or(Or(WRITER, MAX_READER), BEING_UPGRADED), i) <==> i == 63 || i == 61 || i == 60
  {
    SingleBits();
    BitOr(Or(WRITER, MAX_READER), BEING_UPGRADED, i);
    BitOr(WRITER, MAX_READER, i);
    BitPow2(63, i); BitPow2(61, i); BitPow2(60, i);
  }
}
