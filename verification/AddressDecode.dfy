/** Address decoding: channel interleaving, bit packing, and the memory slice of a request. */
module AddressDecode {
  import opened Words

  const CHIP_SHIFT: nat := 10
  const BANK_MASK: nat := 0x7080
  const ROW_MASK: nat := 0x0fff8000
  const SLICES_PER_CHANNEL: nat := 2

  // ---------------------------------------------------------------- parallel bit extraction

  /** The bits of val under the mask, packed together. */
  function Extract(mask: nat, val: nat): nat
    decreases mask
  {
    if mask == 0 then 0
    else if mask % 2 == 1 then 2 * Extract(mask / 2, val / 2) + val % 2
    else Extract(mask / 2, val / 2)
  }

  /** The inverse: spread the bits of x over the mask. */
  function Deposit(mask: nat, x: nat): nat
    decreases mask
  {
    if mask == 0 then 0
    else if mask % 2 == 1 then 2 * Deposit(mask / 2, x / 2) + x % 2
    else 2 * Deposit(mask / 2, x)
  }

  function PopCount(mask: nat): nat
    decreases mask
  {
    if mask == 0 then 0 else PopCount(mask / 2) + mask % 2
  }

  /** Depositing what was extracted gives the masked value back. */
  lemma {:induction false} DepositExtract(mask: nat, val: nat)
    ensures Deposit(mask, Extract(mask, val)) == And(val, mask)
    decreases mask
  {
    if mask > 0 {
      DepositExtract(mask / 2, val / 2);
      if val == 0 { DepositOfZero(mask); ExtractOfZero(mask); }
    }
  }

  lemma {:induction false} ExtractOfZero(mask: nat)
    ensures Extract(mask, 0) == 0
    decreases mask
  {
    if mask > 0 { ExtractOfZero(mask / 2); }
  }

  lemma {:induction false} DepositOfZero(mask: nat)
    ensures Deposit(mask, 0) == 0
    decreases mask
  {
    if mask > 0 { DepositOfZero(mask / 2); }
  }

  /** Extracting what was deposited gives it back, when it has no more bits than the mask. */
  lemma {:induction false} ExtractDeposit(mask: nat, x: nat)
    requires x < Pow2(PopCount(mask))
    ensures Extract(mask, Deposit(mask, x)) == x
    decreases mask
  {
    if mask > 0 {
      if mask % 2 == 1 { ExtractDeposit(mask / 2, x / 2); } else { ExtractDeposit(mask / 2, x); }
    }
  }

  /** An extraction has as many bits as the mask. */
  lemma {:induction false} ExtractBound(mask: nat, val: nat)
    ensures Extract(mask, val) < Pow2(PopCount(mask))
    decreases mask
  {
    if mask > 0 { ExtractBound(mask / 2, val / 2); }
  }

  /** Only the bits under the mask matter. */
  lemma {:induction false} ExtractLooksUnderMask(mask: nat, a: nat, b: nat, k: nat)
    requires Low(mask, k) == 0 && Shr(a, k) == Shr(b, k)
    ensures Extract(mask, a) == Extract(mask, b)
    decreases k
  {
    if k > 0 && mask > 0 { ExtractLooksUnderMask(mask / 2, a / 2, b / 2, k - 1); }
  }

  // ---------------------------------------------------------------- the loops

  lemma MaskedBit(x: nat, i: nat)
    ensures And(x, Shl(1, i)) == Shl(BitValue(Bit(x, i)), i)
    ensures And(x, Shl(1, i)) != 0 <==> Bit(x, i)
  {
    AndShifted(x, 1, i);
    AndOddMask(Shr(x, i), 0);
    BitOfShr(x, i, 0);
    ShlRange(BitValue(Bit(x, i)), i);
  }

  lemma {:induction false} LowOfShl(x: nat, k: nat)
    ensures Low(Shl(x, k), k) == 0
    decreases k
  {
    if k > 0 { LowOfShl(x, k - 1); }
  }

  lemma {:induction false} PopNextBit(mask: nat, i: nat)
    ensures PopCount(Low(mask, i + 1)) == PopCount(Low(mask, i)) + BitValue(Bit(mask, i))
    decreases i
  {
    if i == 0 {
      assert Low(mask, 1) == mask % 2;
    } else {
      PopNextBit(mask / 2, i - 1);
      UnrollExtract(Low(mask / 2, i - 1), mask % 2, 0);
      UnrollExtract(Low(mask / 2, i), mask % 2, 0);
    }
  }

  /** The bit that mask bit i contributes to the extraction. */
  function NextBit(mask: nat, val: nat, i: nat): nat {
    if Bit(mask, i) then Shl(BitValue(Bit(val, i)), PopCount(Low(mask, i))) else 0
  }

  lemma NextBitUp(mask: nat, val: nat, i: nat)
    requires i > 0
    ensures NextBit(mask, val, i)
            == if mask % 2 == 1 then 2 * NextBit(mask / 2, val / 2, i - 1) else NextBit(mask / 2, val / 2, i - 1)
  {
    UnrollExtract(Low(mask / 2, i - 1), mask % 2, 0);
  }

  /** One more mask bit: the next extracted bit has the weight of the mask bits before it. */
  lemma {:induction false} ExtractNextBit(mask: nat, val: nat, i: nat)
    ensures Extract(Low(mask, i + 1), val) == Extract(Low(mask, i), val) + NextBit(mask, val, i)
    decreases i
  {
    if i == 0 {
      assert Low(mask, 1) == mask % 2;
    } else {
      ExtractNextBit(mask / 2, val / 2, i - 1);
      NextBitUp(mask, val, i);
      UnrollExtract(Low(mask / 2, i - 1), mask % 2, val);
      UnrollExtract(Low(mask / 2, i), mask % 2, val);
    }
  }

  lemma UnrollExtract(m: nat, bit: nat, val: nat)
    requires bit < 2
    ensures Extract(2 * m + bit, val) == if bit == 1 then 2 * Extract(m, val / 2) + val % 2 else Extract(m, val / 2)
    ensures PopCount(2 * m + bit) == PopCount(m) + bit
  {
    assert (2 * m + bit) / 2 == m && (2 * m + bit) % 2 == bit;
  }

  /** addrdec_packbits: the loop over the window [low, high) of the mask. */
  method PackBits(mask: nat, val: nat, high: nat, low: nat) returns (result: nat)
    requires low <= high && Low(mask, low) == 0 && Low(mask, high) == mask
    ensures result == Extract(mask, val)
    ensures result < Pow2(PopCount(mask))
  {
    var pos, i := 0, low;
    result := 0;
    while i < high
      invariant low <= i <= high
      invariant result == Extract(Low(mask, i), val) && pos == PopCount(Low(mask, i))
    {
      ExtractNextBit(mask, val, i);
      PopNextBit(mask, i);
      MaskedBit(mask, i);
      if And(mask, Shl(1, i)) != 0 {
        MaskedBit(val, i);
        ShrOfShl(BitValue(Bit(val, i)), i);
        var bit := Shr(And(val, Shl(1, i)), i);
        LowOfShl(bit, pos);
        ExtractBound(Low(mask, i), val);
        OrDisjoint(Shl(bit, pos), result, pos);
        result := Or(Shl(bit, pos), result);
        pos := pos + 1;
      }
      i := i + 1;
    }
    ExtractBound(mask, val);
  }

  /** [low, high) is the smallest window that holds all set bits below n. */
  ghost predicate TightWindow(mask: nat, low: nat, high: nat, n: nat) {
    && low < high <= n && Bit(mask, low) && Bit(mask, high - 1)
    && forall i: nat :: i < n && Bit(mask, i) ==> low <= i < high
  }

  ghost predicate NoBits(mask: nat, n: nat) { forall i: nat :: i < n ==> !Bit(mask, i) }

  /** addrdec_getmasklimit */
  method GetMaskLimit(mask: nat) returns (high: nat, low: nat)
    ensures if NoBits(mask, WORD_BITS) then high == WORD_BITS && low == 0 else TightWindow(mask, low, high, WORD_BITS)
  {
    high, low := WORD_BITS, 0;
    var lowFound := false;
    var i := 0;
    while i < WORD_BITS
      invariant i <= WORD_BITS
      invariant if lowFound then TightWindow(mask, low, high, i) else NoBits(mask, i) && high == WORD_BITS && low == 0
    {
      MaskedBit(mask, i);
      if And(mask, Shl(1, i)) != 0 {
        if lowFound {
          high := i + 1;
        } else {
          high, low, lowFound := i + 1, i, true;
        }
      }
      i := i + 1;
    }
  }

  /** A window found by addrdec_getmasklimit is one that addrdec_packbits may use. */
  lemma WindowCoversMask(mask: nat, low: nat, high: nat)
    requires mask < Pow2(WORD_BITS)
    requires if NoBits(mask, WORD_BITS) then high == WORD_BITS && low == 0 else TightWindow(mask, low, high, WORD_BITS)
    ensures low <= high && Low(mask, low) == 0 && Low(mask, high) == mask
  {
    NoBitsBelow(mask, low);
    NoBitsAbove(mask, high, WORD_BITS);
  }

  lemma {:induction false} NoBitsBelow(mask: nat, k: nat)
    requires forall i: nat :: i < k ==> !Bit(mask, i)
    ensures Low(mask, k) == 0
    decreases k
  {
    if k > 0 {
      assert !Bit(mask, 0);
      forall i: nat | i < k - 1 ensures !Bit(mask / 2, i) { assert !Bit(mask, i + 1); }
      NoBitsBelow(mask / 2, k - 1);
    }
  }

  lemma {:induction false} NoBitsAbove(mask: nat, k: nat, n: nat)
    requires k <= n && mask < Pow2(n) && forall i: nat :: k <= i < n ==> !Bit(mask, i)
    ensures Low(mask, k) == mask
    decreases n
  {
    if k > 0 {
      forall i: nat | k - 1 <= i < n - 1 ensures !Bit(mask / 2, i) { assert !Bit(mask, i + 1); }
      NoBitsAbove(mask / 2, k - 1, n - 1);
    } else if n > 0 {
      assert !Bit(mask, 0);
      forall i: nat | i < n - 1 ensures !Bit(mask / 2, i) { assert !Bit(mask, i + 1); }
      NoBitsAbove(mask / 2, 0, n - 1);
    }
  }

  // ---------------------------------------------------------------- channel interleaving

  datatype Decoded = Decoded(chip: nat, rest: nat, bk: nat, row: nat, node: nat)

  /** The channel of an address that is interleaved above its low `shift` bits. */
  function Chip(addr: nat, channels: nat, shift: nat): nat
    requires channels > 0
  {
    Shr(addr, shift) % channels
  }

  /** The address without its channel: quotient and low bits. */
  function Rest(addr: nat, channels: nat, shift: nat): nat
    requires channels > 0
  {
    Or(Shl(Shr(addr, shift) / channels, shift), And(addr, Pow2(shift) - 1))
  }

  /** The address with a given channel and rest. */
  function Join(chip: nat, rest: nat, channels: nat, shift: nat): nat {
    Shl(Shr(rest, shift) * channels + chip, shift) + Low(rest, shift)
  }

  lemma {:induction false} SplitWord(q: nat, r: nat, k: nat)
    requires r < Pow2(k)
    ensures Shr(Shl(q, k) + r, k) == q && Low(Shl(q, k) + r, k) == r
    decreases k
  {
    if k > 0 { SplitWord(q, r / 2, k - 1); }
  }

  lemma {:induction false} JoinWord(x: nat, k: nat)
    ensures x == Shl(Shr(x, k), k) + Low(x, k) && Low(x, k) < Pow2(k)
    decreases k
  {
    if k > 0 { JoinWord(x / 2, k - 1); }
  }

  /** The rest is the quotient above the low bits. */
  lemma RestParts(addr: nat, channels: nat, shift: nat)
    requires channels > 0
    ensures Rest(addr, channels, shift) == Shl(Shr(addr, shift) / channels, shift) + Low(addr, shift)
    ensures Shr(Rest(addr, channels, shift), shift) == Shr(addr, shift) / channels
    ensures Low(Rest(addr, channels, shift), shift) == Low(addr, shift)
  {
    var q := Shr(addr, shift) / channels;
    AndLowMask(addr, shift);
    JoinWord(addr, shift);
    LowOfShl(q, shift);
    OrDisjoint(Shl(q, shift), Low(addr, shift), shift);
    SplitWord(q, Low(addr, shift), shift);
  }

  /** Nothing is lost: channel and rest give the address back, for any number of channels. */
  lemma DecodeIsLossless(addr: nat, channels: nat, shift: nat)
    requires channels > 0
    ensures Chip(addr, channels, shift) < channels
    ensures Join(Chip(addr, channels, shift), Rest(addr, channels, shift), channels, shift) == addr
  {
    RestParts(addr, channels, shift);
    DivisionParts(Shr(addr, shift), channels);
    JoinWord(addr, shift);
  }

  lemma DivisionParts(x: nat, n: nat)
    requires n > 0
    ensures x / n * n + x % n == x && x % n < n
  {
  }

  /** Every channel and rest come from exactly one address. */
  lemma DecodeIsOnto(chip: nat, rest: nat, channels: nat, shift: nat)
    requires chip < channels
    ensures Chip(Join(chip, rest, channels, shift), channels, shift) == chip
    ensures Rest(Join(chip, rest, channels, shift), channels, shift) == rest
  {
    var q := Shr(rest, shift);
    JoinWord(rest, shift);
    SplitWord(q * channels + chip, Low(rest, shift), shift);
    QuotientUnique(q * channels + chip, channels, q, chip);
    RestParts(Join(chip, rest, channels, shift), channels, shift);
  }

  // ---------------------------------------------------------------- slices, banks and rows

  /** get_mem_sub_partition_id */
  function Decode(addr: nat, channels: nat, smNum: nat): Decoded
    requires channels > 0
  {
    var chip, rest := Chip(addr, channels, CHIP_SHIFT), Rest(addr, channels, CHIP_SHIFT);
    DecodeFrom(chip, rest, smNum)
  }

  function DecodeFrom(chip: nat, rest: nat, smNum: nat): Decoded {
    var bk := Extract(BANK_MASK, rest);
    Decoded(chip, rest, bk, Extract(ROW_MASK, rest),
            chip * SLICES_PER_CHANNEL + And(bk, SLICES_PER_CHANNEL - 1) + smNum)
  }

  /** The memory slice of a request, counted from 0. */
  function SliceOf(d: Decoded, smNum: nat): int { d.node - smNum }

  lemma {:induction false} ShiftedPop(m: nat, k: nat)
    ensures PopCount(Shl(m, k)) == PopCount(m)
  {
    if k > 0 {
      ShiftedPop(m, k - 1);
      UnrollExtract(Shl(m, k - 1), 0, 0);
    }
  }

  lemma {:induction false} OnesPop(k: nat)
    ensures PopCount(Pow2(k) - 1) == k
  {
    if k > 0 {
      OnesPop(k - 1);
      UnrollExtract(Pow2(k - 1) - 1, 1, 0);
    }
  }

  lemma {:induction false} LowOfShifted(m: nat, k: nat, j: nat)
    requires j <= k
    ensures Low(Shl(m, k), j) == 0
    decreases j
  {
    if j > 0 { LowOfShifted(m, k - 1, j - 1); }
  }

  /** The bank mask has four bits and the row mask thirteen, none of them inside a line. */
  lemma BankMaskFacts()
    ensures PopCount(BANK_MASK) == 4 && Low(BANK_MASK, 7) == 0
  {
    ShlIsProduct(0xE1, 7);
    assert Pow2(7) == 128;
    ShiftedPop(0xE1, 7);
    LowOfShifted(0xE1, 7, 7);
    BankBits();
  }

  lemma BankBits()
    ensures PopCount(0xE1) == 4
  {
    ShlIsProduct(7, 4);
    assert Pow2(4) == 16;
    ShiftedPop(7, 4);
    UnrollExtract(0x70, 1, 0);
    OnesPop(3);
    assert Pow2(3) == 8;
  }

  lemma RowMaskFacts()
    ensures PopCount(ROW_MASK) == 13 && Low(ROW_MASK, 7) == 0
  {
    ShlIsProduct(0x1fff, 15);
    Pow2Add(8, 7);
    assert Pow2(8) == 0x100 && Pow2(7) == 0x80;
    ShiftedPop(0x1fff, 15);
    LowOfShifted(0x1fff, 15, 7);
    OnesPop(13);
    assert Pow2(13) == 0x2000;
  }

  lemma DecodedRanges(chip: nat, rest: nat, channels: nat, smNum: nat)
    requires chip < channels
    ensures var d := DecodeFrom(chip, rest, smNum);
            && smNum <= d.node < smNum + SLICES_PER_CHANNEL * channels
            && SliceOf(d, smNum) / SLICES_PER_CHANNEL == d.chip
            && d.bk < Pow2(4) && d.row < Pow2(13)
  {
    var d := DecodeFrom(chip, rest, smNum);
    BankMaskFacts();
    RowMaskFacts();
    ExtractBound(BANK_MASK, rest);
    ExtractBound(ROW_MASK, rest);
    AndOddMask(d.bk, 0);
    assert And(d.bk, 1) == d.bk % 2;
  }

  /** The node is a memory slice of the decoded channel, and the bank indexes a bank array of 16. */
  lemma NodeAndBankInRange(addr: nat, channels: nat, smNum: nat)
    requires channels > 0
    ensures var d := Decode(addr, channels, smNum);
            && smNum <= d.node < smNum + SLICES_PER_CHANNEL * channels
            && SliceOf(d, smNum) / SLICES_PER_CHANNEL == d.chip
            && d.bk < Pow2(4) == 16 && d.row < Pow2(13)
  {
    DecodeIsLossless(addr, channels, CHIP_SHIFT);
    DecodedRanges(Chip(addr, channels, CHIP_SHIFT), Rest(addr, channels, CHIP_SHIFT), channels, smNum);
  }

  /** Words that agree above the line offset have the same channel, and rests that agree there too. */
  lemma LineSharesRest(a: nat, b: nat, channels: nat, line: nat, shift: nat)
    requires channels > 0 && line <= shift && Shr(a, line) == Shr(b, line)
    ensures Chip(a, channels, shift) == Chip(b, channels, shift)
    ensures Shr(Rest(a, channels, shift), line) == Shr(Rest(b, channels, shift), line)
  {
    var j := shift - line;
    ShrAgain(a, line, j);
    ShrAgain(b, line, j);
    RestParts(a, channels, shift);
    RestParts(b, channels, shift);
    var q := Shr(a, shift) / channels;
    ShrOfParts(q, a, line, j);
    ShrOfParts(q, b, line, j);
  }

  lemma {:induction false} ShrAgain(x: nat, k: nat, j: nat)
    ensures Shr(Shr(x, k), j) == Shr(x, k + j)
    decreases k
  {
    if k > 0 { ShrAgain(x / 2, k - 1, j); }
  }

  lemma {:induction false} ShrOfParts(q: nat, x: nat, k: nat, j: nat)
    ensures Shr(Shl(q, k + j) + Low(x, k + j), k) == Shl(q, j) + Low(Shr(x, k), j)
    decreases k
  {
    if k > 0 { ShrOfParts(q, x / 2, k - 1, j); }
  }

  const LINE_SHIFT: nat := 7

  lemma SameBankAndRow(chip: nat, r: nat, s: nat, smNum: nat)
    requires Shr(r, LINE_SHIFT) == Shr(s, LINE_SHIFT)
    ensures DecodeFrom(chip, r, smNum) == DecodeFrom(chip, s, smNum).(rest := r)
  {
    BankMaskFacts();
    RowMaskFacts();
    ExtractLooksUnderMask(BANK_MASK, r, s, LINE_SHIFT);
    ExtractLooksUnderMask(ROW_MASK, r, s, LINE_SHIFT);
  }

  /** All sectors of a 128-byte line have the same slice, bank and row. */
  lemma LineSharesBankAndRow(a: nat, b: nat, channels: nat, smNum: nat)
    requires channels > 0 && Shr(a, LINE_SHIFT) == Shr(b, LINE_SHIFT)
    ensures var d, e := Decode(a, channels, smNum), Decode(b, channels, smNum);
            d.chip == e.chip && d.bk == e.bk && d.row == e.row && d.node == e.node
  {
    LineSharesRest(a, b, channels, LINE_SHIFT, CHIP_SHIFT);
    SameBankAndRow(Chip(a, channels, CHIP_SHIFT), Rest(a, channels, CHIP_SHIFT), Rest(b, channels, CHIP_SHIFT), smNum);
  }

  lemma MasksAreWords(mask: nat)
    requires mask < 0x1000_0000
    ensures mask < Pow2(WORD_BITS)
  {
    Pow2Add(14, 14);
    assert Pow2(14) == 0x4000;
    Pow2Monotone(28, WORD_BITS);
  }

  /** addrdec_packbits over the window that addrdec_getmasklimit finds. */
  method Pack(mask: nat, val: nat) returns (result: nat)
    requires mask < Pow2(WORD_BITS)
    ensures result == Extract(mask, val)
  {
    var high, low := GetMaskLimit(mask);
    WindowCoversMask(mask, low, high);
    result := PackBits(mask, val, high, low);
  }

  /** get_mem_sub_partition_id with its loops. */
  method GetMemSubPartitionId(addr: nat, channels: nat, smNum: nat) returns (d: Decoded)
    requires channels > 0
    ensures d == Decode(addr, channels, smNum)
  {
    var chip, rest := Chip(addr, channels, CHIP_SHIFT), Rest(addr, channels, CHIP_SHIFT);
    MasksAreWords(BANK_MASK);
    MasksAreWords(ROW_MASK);
    var bk := Pack(BANK_MASK, rest);
    var row := Pack(ROW_MASK, rest);
    d := Decoded(chip, rest, bk, row, chip * SLICES_PER_CHANNEL + And(bk, SLICES_PER_CHANNEL - 1) + smNum);
  }
}
