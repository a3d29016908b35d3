/** Register and descriptor-word layout of the engine: masks, the coalesce field of the
    control register, and the length and packet flags of a descriptor's control word. */
module Registers {
  import opened Bits

  const CR_RUNSTOP: nat := 0x1
  const CR_RESET: nat := 0x4
  const CR_CYCLIC_BD_EN: nat := 0x10
  const CR_COALESCE_SHIFT: nat := 16
  const CR_COALESCE: nat := 0xFF_0000

  const IRQ_IOC: nat := 0x1000
  const IRQ_ERROR: nat := 0x4000
  const IRQ_ALL: nat := 0x7000

  const BD_SOP: nat := 0x800_0000
  const BD_EOP: nat := 0x400_0000
  const MAX_TRANS_LEN: nat := 0x7F_FFFF
  const WORD: nat := 0x1_0000_0000

  /** The control register with its coalesce field replaced by `count`. */
  function SetCoalesce(ctrl: nat, count: nat): nat {
    Or(AndNot(ctrl, CR_COALESCE), count * Pow2(CR_COALESCE_SHIFT))
  }

  /** Bits 16 to 23: how many descriptors must finish before the engine interrupts. */
  function Coalesce(ctrl: nat): nat {
    And(Shr(ctrl, CR_COALESCE_SHIFT), 0xFF)
  }

  /** The transfer length held in the low 23 bits of a control or status word. */
  function Length(word: nat): nat {
    And(word, MAX_TRANS_LEN)
  }

  /** The control word of segment k of n, for a transfer that marks packets when `mark`. */
  function ControlWord(length: nat, mark: bool, first: bool, last: bool): nat {
    var word := if mark && first then Or(length, BD_SOP) else length;
    if mark && last then Or(word, BD_EOP) else word
  }

  lemma PowersOfTwo()
    ensures Pow2(8) == 0x100 && Pow2(12) == IRQ_IOC && Pow2(14) == IRQ_ERROR
    ensures Pow2(16) == 0x1_0000 && Pow2(23) == MAX_TRANS_LEN + 1
    ensures Pow2(26) == BD_EOP && Pow2(27) == BD_SOP
    ensures Pow2(0) == CR_RUNSTOP && Pow2(2) == CR_RESET && Pow2(4) == CR_CYCLIC_BD_EN
  {
    assert Pow2(4) == 16;
    assert Pow2(6) == 64;
    assert Pow2(8) == 256;
    assert Pow2(10) == 1024;
    assert Pow2(12) == 4096;
    assert Pow2(14) == 16384;
    assert Pow2(16) == 65536;
    assert Pow2(18) == 262144;
    assert Pow2(20) == 1048576;
    assert Pow2(22) == 4194304;
    assert Pow2(24) == 16777216;
    assert Pow2(26) == 67108864;
  }

  /** The coalesce field, by division. */
  lemma CoalesceIsField(word: nat)
    ensures Coalesce(word) == word / 0x1_0000 % 0x100
  {
    PowersOfTwo();
    ShrIsDiv(word, 16);
    MaskIsLow(word / 0x1_0000, 8);
    LowIsMod(word / 0x1_0000, 8);
  }

  /** The length field of a word is its remainder modulo 2^23. */
  lemma LengthIsMod(word: nat)
    ensures Length(word) == word % 0x80_0000
  {
    PowersOfTwo();
    MaskIsLow(word, 23);
    LowIsMod(word, 23);
  }

  lemma {:induction false} BitAbove(x: nat, n: nat, k: nat)
    requires x < Pow2(n) && n <= k
    ensures !Bit(x, k)
  {
    if n == 0 { BitZero(k); } else { BitAbove(x / 2, n - 1, k - 1); }
  }

  lemma {:induction false} BitBelow(c: nat, n: nat, k: nat)
    requires k < n
    ensures !Bit(c * Pow2(n), k)
  {
    assert c * Pow2(n) == 2 * (c * Pow2(n - 1));
    if k > 0 { BitBelow(c, n - 1, k - 1); }
  }

  /** Bits of `count << 16` for a count that fits the field. */
  lemma BitOfField(count: nat, k: nat)
    requires count <= 0xFF
    ensures Bit(count * Pow2(16), k) ==> 16 <= k < 24
  {
    PowersOfTwo();
    if k < 16 {
      BitBelow(count, 16, k);
    } else {
      BitShr(count * Pow2(16), 16, k - 16);
      ShrTimes(count, 16);
      if k >= 24 { BitAbove(count, 8, k - 16); }
    }
  }

  lemma CoalesceMask()
    ensures CR_COALESCE == 0xFF * Pow2(16)
  {
    PowersOfTwo();
  }

  /** Replacing the w-bit field at bit n, read back. */
  lemma ReplaceField(word: nat, mask: nat, field: nat, n: nat, w: nat)
    requires Shr(mask, n) == Pow2(w) - 1 && Shr(field, n) < Pow2(w)
    ensures And(Shr(Or(AndNot(word, mask), field), n), Pow2(w) - 1) == Shr(field, n)
  {
    var high, count := AndNot(Shr(word, n), Pow2(w) - 1), Shr(field, n);
    assert Shr(Or(AndNot(word, mask), field), n) == Or(high, count) by {
      ShrOr(AndNot(word, mask), field, n);
      ShrAndNot(word, mask, n);
    }
    MaskIsLow(Or(high, count), w);
    LowOfCleared(Shr(word, n), count, w);
  }

  lemma LowOfCleared(x: nat, count: nat, w: nat)
    requires count < Pow2(w)
    ensures Low(Or(AndNot(x, Pow2(w) - 1), count), w) == count
  {
    LowOr(AndNot(x, Pow2(w) - 1), count, w);
    LowAndNotOnes(x, w);
    LowIsMod(count, w);
    ModUnique(count, Pow2(w), 0, count);
  }

  lemma CoalesceFieldExact(ctrl: nat, count: nat)
    requires count <= 0xFF
    ensures Coalesce(SetCoalesce(ctrl, count)) == count
  {
    CoalesceMask();
    ShrTimes(0xFF, CR_COALESCE_SHIFT);
    ShrTimes(count, CR_COALESCE_SHIFT);
    assert Pow2(8) == 0x100 by { PowersOfTwo(); }
    ReplaceField(ctrl, CR_COALESCE, count * Pow2(CR_COALESCE_SHIFT), CR_COALESCE_SHIFT, 8);
  }

  lemma CoalesceOtherBits(ctrl: nat, count: nat, k: nat)
    requires count <= 0xFF && !(16 <= k < 24)
    ensures Bit(SetCoalesce(ctrl, count), k) == Bit(ctrl, k)
  {
    CoalesceMask();
    BitOr(AndNot(ctrl, CR_COALESCE), count * Pow2(16), k);
    BitAndNot(ctrl, CR_COALESCE, k);
    BitOfField(count, k);
    BitOfField(0xFF, k);
  }

  /** Programming a batch sets the field to the batch's descriptor count and disturbs no
      other bit. */
  lemma SetCoalesceExact(ctrl: nat, count: nat)
    requires count <= 0xFF
    ensures Coalesce(SetCoalesce(ctrl, count)) == count
    ensures forall k: nat :: !(16 <= k < 24) ==> Bit(SetCoalesce(ctrl, count), k) == Bit(ctrl, k)
  {
    CoalesceFieldExact(ctrl, count);
    forall k: nat | !(16 <= k < 24)
      ensures Bit(SetCoalesce(ctrl, count), k) == Bit(ctrl, k)
    {
      CoalesceOtherBits(ctrl, count, k);
    }
  }

  /** Setting RUNSTOP changes bit 0 only, so the coalesce field survives it. */
  lemma RunstopExact(ctrl: nat)
    ensures Coalesce(Or(ctrl, CR_RUNSTOP)) == Coalesce(ctrl)
    ensures forall k: nat :: Bit(Or(ctrl, CR_RUNSTOP), k) == (k == 0 || Bit(ctrl, k))
  {
    PowersOfTwo();
    ShrOr(ctrl, CR_RUNSTOP, 16);
    assert Shr(CR_RUNSTOP, 16) == 0 by {
      assert Shr(1, 16) == Shr(0, 15);
      ShrZero(15);
    }
    forall k: nat ensures Bit(Or(ctrl, CR_RUNSTOP), k) == (k == 0 || Bit(ctrl, k)) {
      BitOr(ctrl, CR_RUNSTOP, k);
      BitPow2(0, k);
    }
  }

  /** Or-ing a flag above bit 22 into a word leaves its length alone. */
  lemma FlagKeepsLength(word: nat, j: nat)
    requires 23 <= j
    ensures Length(Or(word, Pow2(j))) == Length(word)
  {
    PowersOfTwo();
    MaskIsLow(word, 23);
    MaskIsLow(Or(word, Pow2(j)), 23);
    LowOr(word, Pow2(j), 23);
    LowIsMod(Pow2(j), 23);
    PowDivides(23, j);
  }

  lemma {:induction false} PowDivides(n: nat, j: nat)
    requires n <= j
    ensures Pow2(j) % Pow2(n) == 0
    decreases j - n
  {
    var q := Pow2(j - n);
    PowSum(n, j - n);
    ModUnique(Pow2(j), Pow2(n), q, 0);
  }

  lemma {:induction false} PowSum(a: nat, b: nat)
    ensures Pow2(a + b) == Pow2(a) * Pow2(b)
  {
    if b > 0 {
      PowSum(a, b - 1);
      assert Pow2(a + b) == 2 * Pow2(a + b - 1);
      assert Pow2(a) * Pow2(b) == Pow2(a) * (2 * Pow2(b - 1));
    }
  }

  /** Or-ing in a flag above the length field sets that bit and no other, and keeps the
      length. */
  lemma FlagExact(word: nat, j: nat, k: nat)
    requires 23 <= j
    ensures Length(Or(word, Pow2(j))) == Length(word)
    ensures Bit(Or(word, Pow2(j)), k) == (Bit(word, k) || k == j)
  {
    FlagKeepsLength(word, j);
    BitOr(word, Pow2(j), k);
    BitPow2(j, k);
  }

  lemma PlainLength(length: nat)
    requires length <= MAX_TRANS_LEN
    ensures Length(length) == length && !Bit(length, 26) && !Bit(length, 27)
  {
    PowersOfTwo();
    LengthIsMod(length);
    BitAbove(length, 23, 26);
    BitAbove(length, 23, 27);
  }

  /** The length is recoverable from the control word, and the two packet flags are present
      exactly when asked for. */
  lemma ControlWordExact(length: nat, mark: bool, first: bool, last: bool)
    requires length <= MAX_TRANS_LEN
    ensures Length(ControlWord(length, mark, first, last)) == length
    ensures Bit(ControlWord(length, mark, first, last), 27) <==> mark && first
    ensures Bit(ControlWord(length, mark, first, last), 26) <==> mark && last
  {
    assert BD_SOP == Pow2(27) && BD_EOP == Pow2(26) by { PowersOfTwo(); }
    PlainLength(length);
    var word := if mark && first then Or(length, BD_SOP) else length;
    FlagExact(length, 27, 26);
    FlagExact(length, 27, 27);
    FlagExact(word, 26, 26);
    FlagExact(word, 26, 27);
  }

  /** The interrupt mask is bits 12, 13 and 14. */
  lemma IrqAllBit(k: nat)
    ensures Bit(IRQ_ALL, k) <==> 12 <= k <= 14
  {
    PowersOfTwo();
    assert 7 * Pow2(12) == IRQ_ALL;
    if k < 12 {
      BitBelow(7, 12, k);
    } else {
      BitShr(IRQ_ALL, 12, k - 12);
      ShrTimes(7, 12);
      BitOfSeven(k - 12);
    }
  }

  lemma BitOfSeven(k: nat)
    ensures Bit(7, k) <==> k <= 2
  {
    assert Pow2(3) == 8;
    if k > 2 { BitAbove(7, 3, k); }
  }

  lemma AckBits(status: nat)
    ensures forall k: nat :: Bit(And(status, IRQ_ALL), k) <==> Bit(status, k) && 12 <= k <= 14
  {
    forall k: nat ensures Bit(And(status, IRQ_ALL), k) <==> Bit(status, k) && 12 <= k <= 14 {
      BitAnd(status, IRQ_ALL, k);
      IrqAllBit(k);
    }
  }

  /** A word with any of the three bits is an interrupt of the channel's; it covers completion,
      delay and error. */
  lemma StatusBits(status: nat)
    ensures And(status, IRQ_IOC) != 0 <==> Bit(status, 12)
    ensures And(status, IRQ_ERROR) != 0 <==> Bit(status, 14)
    ensures And(status, IRQ_ALL) != 0 <==> Bit(status, 12) || Bit(status, 13) || Bit(status, 14)
  {
    PowersOfTwo();
    TestBit(status, 12);
    TestBit(status, 14);
    MaskedBits(status);
  }

  lemma MaskedBits(status: nat)
    ensures And(status, IRQ_ALL) != 0 <==> Bit(status, 12) || Bit(status, 13) || Bit(status, 14)
  {
    if And(status, IRQ_ALL) != 0 {
      var k := SomeBit(And(status, IRQ_ALL));
      BitAnd(status, IRQ_ALL, k);
      IrqAllBit(k);
    } else {
      forall k | 12 <= k <= 14 ensures !Bit(status, k) {
        BitAnd(status, IRQ_ALL, k);
        IrqAllBit(k);
        BitZero(k);
      }
    }
  }
}
