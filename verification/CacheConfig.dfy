/** cache_config: line arithmetic, LOGB2 and the two set-index functions. */
module CacheConfig {
  import opened Words

  const SECTORS: nat := 4
  const SECTOR_SIZE: nat := 32
  const LINE_SIZE: nat := 128

  datatype SetHash = Linear | IPoly

  datatype Replacement = LRU | FIFO | OtherReplacement

  datatype CacheConfig = CacheConfig(nSets: nat, assoc: nat, hash: SetHash, replacement: Replacement,
                                     mshrEntries: nat, mshrMaxMerge: nat)

  /** Address of the line that contains addr; it doubles as the tag. */
  function LineOf(addr: nat): (line: nat)
    ensures line <= addr < line + LINE_SIZE && line % LINE_SIZE == 0
  {
    addr - addr % LINE_SIZE
  }

  function SectorAddress(line: nat, sector: nat): nat { line + sector * SECTOR_SIZE }

  /** floor(log2 v), and 0 for v == 0. */
  function FloorLog2(v: nat): (r: nat)
    ensures v > 0 ==> Pow2(r) <= v < Pow2(r + 1)
  {
    if v <= 1 then 0 else 1 + FloorLog2(v / 2)
  }

  lemma {:induction false} FloorLog2Unique(v: nat, r: nat)
    requires Pow2(r) <= v < Pow2(r + 1)
    ensures FloorLog2(v) == r
    decreases r
  {
    if r > 0 { FloorLog2Unique(v / 2, r - 1); }
  }

  lemma FieldIsSmall(v: nat, k: nat, width: nat)
    requires v < Pow2(k + width)
    ensures And(Shr(v, k), Pow2(width) - 1) == Shr(v, k)
  {
    ShrRange(v, k, width);
    AndLowMask(Shr(v, k), width);
    LowOfSmall(Shr(v, k), width);
  }

  /** One step of LOGB2: is anything set in the field of `width` bits that starts at bit k? */
  lemma FieldIsZero(v: nat, k: nat, width: nat)
    requires v < Pow2(k + width)
    ensures And(v, Shl(Pow2(width) - 1, k)) == 0 <==> v < Pow2(k)
  {
    var q := Shr(v, k);
    AndShifted(v, Pow2(width) - 1, k);
    FieldIsSmall(v, k, width);
    ShlRange(q, k);
    ShrRange(v, k, 0);
  }

  lemma {:induction false} LogShifted(v: nat, k: nat)
    requires v >= Pow2(k)
    ensures FloorLog2(v) == k + FloorLog2(Shr(v, k))
    decreases k
  {
    if k > 0 { LogShifted(v / 2, k - 1); }
  }

  /** The field of k bits above bit k, as LOGB2 masks it. */
  function UpperHalf(k: nat): nat { Shl(Pow2(k) - 1, k) }

  /** One masked halving, with k == 2^e bits left on each side. */
  lemma LogStep(v: nat, r: nat, k: nat, e: nat, shift: nat)
    requires k == Pow2(e) && v < Pow2(k + k) && Low(r, e + 1) == 0
    requires shift == if And(v, UpperHalf(k)) != 0 then k else 0
    ensures Or(r, shift) == r + shift && Low(r + shift, e) == 0
    ensures FloorLog2(v) == shift + FloorLog2(Shr(v, shift))
    ensures Shr(v, shift) < Pow2(k)
  {
    FieldIsZero(v, k, k);
    ShrRange(v, k, k);
    if shift == k { LogShifted(v, k); }
    OrDisjoint(r, shift, e + 1);
    LowAfterBit(r, e);
  }

  lemma {:induction false} LowAfterBit(r: nat, e: nat)
    requires Low(r, e + 1) == 0
    ensures Low(r, e) == 0 && Low(r + Pow2(e), e) == 0
    decreases e
  {
    if e > 0 {
      LowAfterBit(r / 2, e - 1);
      assert (r + Pow2(e)) / 2 == r / 2 + Pow2(e - 1);
    }
  }

  lemma MaskConstants()
    ensures Pow2(8) == 0x100 && Pow2(16) == 0x1_0000
    ensures UpperHalf(16) == 0xFFFF0000 && UpperHalf(8) == 0xFF00
  {
    assert Pow2(4) == 16;
    Pow2Add(4, 4);
    Pow2Add(8, 8);
    assert Shl(0xFF, 4) == 0xFF0 && Shl(0xFF, 8) == 0xFF00;
    assert Shl(0xFFFF, 4) == 0xFFFF0;
    assert Shl(0xFFFF, 8) == 0xFFFF00;
    assert Shl(0xFFFF, 12) == 0xFFFF000;
  }

  /** One masked halving of LOGB2: v >>= shift; r |= shift. */
  method Halve(v: nat, r: nat, mask: nat, k: nat, ghost e: nat) returns (v': nat, r': nat)
    requires mask == UpperHalf(k)
    requires k == Pow2(e) && v < Pow2(k + k) && Low(r, e + 1) == 0
    ensures v' < Pow2(k) && Low(r', e) == 0
    ensures r' + FloorLog2(v') == r + FloorLog2(v)
  {
    var shift := if And(v, mask) != 0 then k else 0;
    LogStep(v, r, k, e, shift);
    v' := Shr(v, shift);
    r' := Or(r, shift);
  }

  /** LOGB2: binary search for the highest set bit by five masked halvings. */
  method LogB2(w: nat) returns (r: nat)
    requires w < 0x1_0000_0000
    ensures r == FloorLog2(w)
    ensures w > 0 ==> Pow2(r) <= w < Pow2(r + 1)
  {
    MaskConstants();
    Pow2Add(16, 16);
    var v := w;
    r := 0;
    v, r := Halve(v, r, 0xFFFF0000, 16, 4);
    v, r := Halve(v, r, 0xFF00, 8, 3);
    v, r := Halve(v, r, 0xF0, 4, 2);
    v, r := Halve(v, r, 0xC, 2, 1);
    v, r := Halve(v, r, 0x2, 1, 0);
  }

  /** Width of the bit sets of the polynomial hash. */
  const INDEX_BITS: nat := 6

  /** Bits of the upper address that are folded into one bit of the polynomial-hash index. */
  function Taps(row: nat): seq<nat> {
    match row
    case 0 => [18, 17, 16, 15, 12, 10, 6, 5, 0]
    case 1 => [15, 13, 12, 11, 10, 7, 5, 1, 0]
    case 2 => [16, 14, 13, 12, 11, 8, 6, 2, 1]
    case 3 => [17, 15, 14, 13, 12, 9, 7, 3, 2]
    case 4 => [18, 16, 15, 14, 13, 10, 8, 4, 3]
    case _ => [17, 16, 15, 14, 11, 9, 5, 4]
  }

  /** Exclusive or of the listed bits of a. */
  function Parity(a: nat, taps: seq<nat>): bool {
    if taps == [] then false else Bit(a, taps[0]) != Parity(a, taps[1..])
  }

  /** The low n bits of the index, each one xor-ed with its fold of the upper bits. */
  function HashedBits(upper: nat, index: nat, n: nat): (r: nat)
    ensures r < Pow2(n)
  {
    if n == 0 then 0
    else HashedBits(upper, index, n - 1)
         + (if Bit(index, n - 1) != Parity(upper, Taps(n - 1)) then Pow2(n - 1) else 0)
  }

  /** addr >> LOGB2(line size). */
  function LineNumber(addr: nat): nat { addr / LINE_SIZE }

  /** addr >> (LOGB2(line size) + LOGB2(sets)). */
  function UpperBits(cfg: CacheConfig, addr: nat): nat {
    Shr(LineNumber(addr), FloorLog2(cfg.nSets))
  }

  function LinearIndex(cfg: CacheConfig, addr: nat): nat
    requires cfg.nSets >= 1
  {
    And(LineNumber(addr), cfg.nSets - 1)
  }

  /** cache_config::set_index. */
  function SetIndex(cfg: CacheConfig, addr: nat): nat
    requires cfg.nSets >= 1
  {
    match cfg.hash
    case Linear => LinearIndex(cfg, addr)
    case IPoly => HashedBits(UpperBits(cfg, addr), LinearIndex(cfg, addr), INDEX_BITS)
  }

  predicate PowerOfTwo(n: nat) { n > 0 && n == Pow2(FloorLog2(n)) }

  /** The configurations in which set indexing is sound. */
  predicate GoodSets(cfg: CacheConfig) {
    PowerOfTwo(cfg.nSets) && (cfg.hash.IPoly? ==> cfg.nSets >= 64)
  }

  lemma LineShift()
    ensures FloorLog2(LINE_SIZE) == 7 && Pow2(7) == LINE_SIZE
  {
    assert Pow2(6) == 64 && Pow2(8) == 2 * Pow2(7);
    FloorLog2Unique(128, 7);
  }

  lemma {:induction false} AndAtMost(a: nat, b: nat)
    ensures And(a, b) <= b
    decreases a
  {
    if a != 0 && b != 0 { AndAtMost(a / 2, b / 2); }
  }

  lemma {:induction false} ShrShr(x: nat, a: nat, b: nat)
    ensures Shr(x, a + b) == Shr(Shr(x, a), b)
    decreases a
  {
    if a > 0 { ShrShr(x / 2, a - 1, b); }
  }

  /** ~(size - 1) on a 64-bit address: the mask of tag, block_addr and mshr_addr. */
  function OffsetMask(size: nat): nat
    requires size <= Pow2(WORD_BITS)
  {
    Pow2(WORD_BITS) - size
  }

  lemma HighMask(n: nat, k: nat)
    requires k <= n
    ensures Pow2(k) <= Pow2(n) && Pow2(n) - Pow2(k) == Shl(Pow2(n - k) - 1, k)
  {
    Pow2Add(k, n - k);
    Pow2Monotone(k, n);
    ShlIsProduct(Pow2(n - k) - 1, k);
    Distribute(Pow2(k), Pow2(n - k), -1);
  }

  lemma HighMaskKeeps(addr: nat, n: nat, k: nat)
    requires k <= n && addr < Pow2(n)
    ensures And(addr, Shl(Pow2(n - k) - 1, k)) == Shl(Shr(addr, k), k)
  {
    AndShifted(addr, Pow2(n - k) - 1, k);
    ShrRange(addr, k, n - k);
    AndLowMask(Shr(addr, k), n - k);
    LowOfSmall(Shr(addr, k), n - k);
  }

  lemma ShiftedBack(addr: nat, k: nat)
    ensures Shl(Shr(addr, k), k) == addr - addr % Pow2(k)
  {
    ShlIsProduct(Shr(addr, k), k);
    LowAndShrDivide(addr, k);
  }

  /** Masking an n-bit word clears the offset: it takes the remainder off the address. */
  lemma MaskClearsOffset(addr: nat, n: nat, k: nat)
    requires k <= n && addr < Pow2(n)
    ensures Pow2(k) <= Pow2(n) && And(addr, Pow2(n) - Pow2(k)) == addr - addr % Pow2(k)
  {
    HighMask(n, k);
    HighMaskKeeps(addr, n, k);
    ShiftedBack(addr, k);
  }

  lemma MaskOfSize(addr: nat, size: nat, k: nat)
    requires k <= WORD_BITS && size == Pow2(k) && addr < Pow2(WORD_BITS)
    ensures size <= Pow2(WORD_BITS) && And(addr, OffsetMask(size)) == addr - addr % size
  {
    hide And, Pow2;
    MaskClearsOffset(addr, WORD_BITS, k);
  }

  /** The masks of the source: tag and block_addr clear the line offset, and mshr_addr clears the
      sector offset, which a sector address does not have. */
  lemma TagClearsOffset(addr: nat)
    requires addr < Pow2(WORD_BITS)
    ensures SECTOR_SIZE < LINE_SIZE <= Pow2(WORD_BITS)
    ensures And(addr, OffsetMask(LINE_SIZE)) == LineOf(addr)
    ensures And(addr, OffsetMask(SECTOR_SIZE)) == addr - addr % SECTOR_SIZE
    ensures addr % SECTOR_SIZE == 0 ==> And(addr, OffsetMask(SECTOR_SIZE)) == addr
  {
    LineShift();
    assert Pow2(5) == SECTOR_SIZE;
    MaskOfSize(addr, LINE_SIZE, 7);
    MaskOfSize(addr, SECTOR_SIZE, 5);
  }

  /** Set indices are in range. */
  lemma SetIndexInRange(cfg: CacheConfig, addr: nat)
    requires GoodSets(cfg)
    ensures SetIndex(cfg, addr) < cfg.nSets
  {
    AndAtMost(LineNumber(addr), cfg.nSets - 1);
    assert Pow2(6) == 64;
  }

  /** The shifts and the mask of the source are quotients and the remainder: the line number falls
      apart into the upper bits and the linear index. */
  lemma ShiftsAreDivisions(cfg: CacheConfig, addr: nat)
    requires PowerOfTwo(cfg.nSets)
    ensures Shr(addr, FloorLog2(LINE_SIZE)) == LineNumber(addr) == addr / LINE_SIZE
    ensures Shr(addr, FloorLog2(LINE_SIZE) + FloorLog2(cfg.nSets)) == UpperBits(cfg, addr)
            == LineNumber(addr) / cfg.nSets
    ensures LinearIndex(cfg, addr) == LineNumber(addr) % cfg.nSets
    ensures LineNumber(addr) == cfg.nSets * UpperBits(cfg, addr) + LinearIndex(cfg, addr)
  {
    var k := FloorLog2(cfg.nSets);
    LineShift();
    LowAndShrDivide(addr, 7);
    ShrShr(addr, 7, k);
    LowAndShrDivide(LineNumber(addr), k);
    AndLowMask(LineNumber(addr), k);
  }

  lemma SetIndexOfLine(cfg: CacheConfig, addr: nat)
    requires cfg.nSets >= 1
    ensures SetIndex(cfg, LineOf(addr)) == SetIndex(cfg, addr)
  {
    assert LineNumber(LineOf(addr)) == LineNumber(addr);
  }

  lemma {:induction false} HashedBitsInjective(upper: nat, i: nat, j: nat, n: nat)
    requires HashedBits(upper, i, n) == HashedBits(upper, j, n)
    ensures forall k: nat :: k < n ==> Bit(i, k) == Bit(j, k)
    decreases n
  {
    if n > 0 {
      HashedBitsInjective(upper, i, j, n - 1);
    }
  }

  lemma LinearIndexFits(cfg: CacheConfig, a: nat)
    requires PowerOfTwo(cfg.nSets) && cfg.nSets <= 64
    ensures LinearIndex(cfg, a) < Pow2(INDEX_BITS)
  {
    assert Pow2(6) == 64;
    hide PowerOfTwo, LineNumber;
    AndAtMost(LineNumber(a), cfg.nSets - 1);
  }

  lemma IndexFixesLowBits(cfg: CacheConfig, a: nat, b: nat)
    requires PowerOfTwo(cfg.nSets) && (cfg.hash.IPoly? ==> cfg.nSets <= 64)
    requires UpperBits(cfg, a) == UpperBits(cfg, b) && SetIndex(cfg, a) == SetIndex(cfg, b)
    ensures LinearIndex(cfg, a) == LinearIndex(cfg, b)
  {
    if cfg.hash.IPoly? {
      HashedBitsInjective(UpperBits(cfg, a), LinearIndex(cfg, a), LinearIndex(cfg, b), INDEX_BITS);
      LinearIndexFits(cfg, a);
      LinearIndexFits(cfg, b);
      SameBits(LinearIndex(cfg, a), LinearIndex(cfg, b), INDEX_BITS);
    }
  }

  /** For fixed upper bits different lines have different sets, so (upper bits, set) names the line. */
  lemma UpperBitsAndSetNameTheLine(cfg: CacheConfig, a: nat, b: nat)
    requires PowerOfTwo(cfg.nSets) && (cfg.hash.IPoly? ==> cfg.nSets <= 64)
    requires UpperBits(cfg, a) == UpperBits(cfg, b) && SetIndex(cfg, a) == SetIndex(cfg, b)
    ensures LineOf(a) == LineOf(b)
  {
    IndexFixesLowBits(cfg, a, b);
    var k := FloorLog2(cfg.nSets);
    var x, y := LineNumber(a), LineNumber(b);
    AndLowMask(x, k);
    AndLowMask(y, k);
    LowAndShr(x, y, k);
  }

  /** Some address has these upper bits and this set. */
  ghost predicate Reaches(cfg: CacheConfig, upper: nat, s: nat)
    requires cfg.nSets >= 1
  {
    exists a: nat :: UpperBits(cfg, a) == upper && SetIndex(cfg, a) == s
  }

  /** The first address of the line with the given upper bits and linear index. */
  function AddressOf(cfg: CacheConfig, upper: nat, i: nat): nat { (cfg.nSets * upper + i) * LINE_SIZE }

  lemma AddressOfParts(cfg: CacheConfig, upper: nat, i: nat)
    requires PowerOfTwo(cfg.nSets) && i < cfg.nSets
    ensures UpperBits(cfg, AddressOf(cfg, upper, i)) == upper && LinearIndex(cfg, AddressOf(cfg, upper, i)) == i
  {
    assert LineNumber(AddressOf(cfg, upper, i)) == cfg.nSets * upper + i;
    ShiftsAreDivisions(cfg, AddressOf(cfg, upper, i));
    QuotientUnique(cfg.nSets * upper + i, cfg.nSets, upper, i);
  }

  lemma {:induction false} BitsBelowTop(x: nat, m: nat, k: nat)
    requires x < Pow2(m) && k <= m
    ensures Bit(x + Pow2(m), k) <==> Bit(x, k) || k == m
    decreases m
  {
    if m > 0 && k > 0 {
      assert (x + Pow2(m)) / 2 == x / 2 + Pow2(m - 1);
      BitsBelowTop(x / 2, m - 1, k - 1);
    }
  }

  lemma {:induction false} NoBitAbove(x: nat, m: nat)
    requires x < Pow2(m)
    ensures !Bit(x, m)
    decreases m
  {
    if m > 0 { NoBitAbove(x / 2, m - 1); }
  }

  /** Each bit of the hash is the index bit xor the fold of the upper bits. */
  lemma {:induction false} BitOfHashed(upper: nat, index: nat, n: nat, k: nat)
    requires k < n
    ensures Bit(HashedBits(upper, index, n), k) <==> Bit(index, k) != Parity(upper, Taps(k))
    decreases n
  {
    var below := HashedBits(upper, index, n - 1);
    BitsBelowTop(below, n - 1, k);
    if k < n - 1 { BitOfHashed(upper, index, n - 1, k); } else { NoBitAbove(below, k); }
  }

  /** Hashing twice gives the index back. */
  lemma HashIsInvolution(upper: nat, i: nat)
    requires i < 64
    ensures HashedBits(upper, HashedBits(upper, i, INDEX_BITS), INDEX_BITS) == i
  {
    var j := HashedBits(upper, i, INDEX_BITS);
    forall k: nat | k < INDEX_BITS ensures Bit(HashedBits(upper, j, INDEX_BITS), k) == Bit(i, k) {
      BitOfHashed(upper, i, INDEX_BITS, k);
      BitOfHashed(upper, j, INDEX_BITS, k);
    }
    assert Pow2(6) == 64;
    SameBits(HashedBits(upper, j, INDEX_BITS), i, INDEX_BITS);
  }

  /** For fixed upper bits every set is reached, so together with the above the index permutes the sets. */
  lemma EverySetIsReached(cfg: CacheConfig, upper: nat, s: nat)
    requires PowerOfTwo(cfg.nSets) && (cfg.hash.IPoly? ==> cfg.nSets == 64) && s < cfg.nSets
    ensures Reaches(cfg, upper, s)
  {
    assert Pow2(6) == 64;
    if cfg.hash.IPoly? { HashIsInvolution(upper, s); }
    var i := if cfg.hash.IPoly? then HashedBits(upper, s, INDEX_BITS) else s;
    AddressOfParts(cfg, upper, i);
    assert SetIndex(cfg, AddressOf(cfg, upper, i)) == s;
  }

  lemma {:induction false} ShlLowBits(x: nat, k: nat)
    ensures And(Shl(x, k), Pow2(k) - 1) == 0
    decreases k
  {
    if k > 0 {
      ShlLowBits(x, k - 1);
      AndOddMask(Shl(x, k), Pow2(k - 1) - 1);
    }
  }

  lemma {:induction false} ShrOfZero(k: nat)
    ensures Shr(0, k) == 0
  {
    if k > 0 { ShrOfZero(k - 1); }
  }

  lemma {:induction false} ParityWithout(m: nat, taps: seq<nat>)
    requires m !in taps
    ensures !Parity(Pow2(m), taps)
  {
    if taps != [] {
      BitOfPow2(m, taps[0]);
      ParityWithout(m, taps[1..]);
    }
  }

  lemma {:induction false} ParityWithOne(m: nat, taps: seq<nat>, p: nat)
    requires p < |taps| && taps[p] == m && m !in taps[..p] && m !in taps[p + 1..]
    ensures Parity(Pow2(m), taps)
    decreases p
  {
    BitOfPow2(m, taps[0]);
    if p == 0 {
      ParityWithout(m, taps[1..]);
    } else {
      assert taps[1..][..p - 1] == taps[..p][1..];
      assert taps[1..][p..] == taps[p + 1..];
      ParityWithOne(m, taps[1..], p - 1);
    }
  }

  /** Upper bit 4 alone is folded into index bits 4 and 5, whatever the index bits 0 to 3 are. */
  lemma HashOfSixteen(u: nat, i: nat)
    requires u == Pow2(4) && i == 0
    ensures HashedBits(u, i, INDEX_BITS) >= 48
  {
    BitOfZero(4);
    BitOfZero(5);
    ParityWithOne(4, Taps(4), 7);
    ParityWithOne(4, Taps(5), 7);
    assert HashedBits(u, i, 5) >= Pow2(4);
  }

  lemma HashOfSixtyFour()
    ensures HashedBits(0, 64, INDEX_BITS) == HashedBits(0, 0, INDEX_BITS)
  {
    forall i: nat | i < 6 ensures Bit(64, i) == Bit(0, i) {
      assert Pow2(6) == 64;
      BitOfPow2(6, i);
      BitOfZero(i);
    }
    SameIndexBits(0, 64, 0, INDEX_BITS);
  }

  lemma {:induction false} SameIndexBits(upper: nat, i: nat, j: nat, n: nat)
    requires forall k: nat :: k < n ==> Bit(i, k) == Bit(j, k)
    ensures HashedBits(upper, i, n) == HashedBits(upper, j, n)
    decreases n
  {
    if n > 0 { SameIndexBits(upper, i, j, n - 1); }
  }

  lemma FewSets(n: nat)
    requires PowerOfTwo(n)
    ensures n < 64 ==> n <= 32
    ensures n > 64 ==> FloorLog2(n) > 6
  {
    var k := FloorLog2(n);
    assert Pow2(5) == 32 && Pow2(6) == 64;
    if k <= 5 { Pow2Monotone(k, 5); } else { Pow2Monotone(6, k); }
    if k <= 6 { Pow2Monotone(k, 6); }
  }

  lemma WitnessIndex(cfg: CacheConfig, w: nat)
    requires cfg.hash.IPoly? && PowerOfTwo(cfg.nSets)
    requires LineNumber(w) == Shl(16, FloorLog2(cfg.nSets))
    ensures SetIndex(cfg, w) >= 48
  {
    ShrOfShl(16, FloorLog2(cfg.nSets));
    ShlLowBits(16, FloorLog2(cfg.nSets));
    assert Pow2(4) == 16;
    HashOfSixteen(UpperBits(cfg, w), LinearIndex(cfg, w));
  }

  /** The 6-bit hash stays in range exactly when there are at least 64 sets. */
  lemma HashInRangeIff(cfg: CacheConfig)
    requires cfg.hash.IPoly? && PowerOfTwo(cfg.nSets)
    ensures (forall addr: nat :: SetIndex(cfg, addr) < cfg.nSets) <==> cfg.nSets >= 64
  {
    FewSets(cfg.nSets);
    var w := Shl(16, FloorLog2(cfg.nSets)) * LINE_SIZE;
    WitnessIndex(cfg, w);
    assert Pow2(6) == 64;
    forall addr: nat ensures SetIndex(cfg, addr) < 64 { }
  }

  /** With upper bits 16 and fewer than 64 sets, bit 5 of the hash is set whatever the line is. */
  lemma HashSkipsSetZero(cfg: CacheConfig, a: nat)
    requires cfg.hash.IPoly? && PowerOfTwo(cfg.nSets) && cfg.nSets < 64 && UpperBits(cfg, a) == 16
    ensures SetIndex(cfg, a) != 0
  {
    FewSets(cfg.nSets);
    AndAtMost(LineNumber(a), cfg.nSets - 1);
    assert Pow2(4) == 16 && Pow2(5) == 32;
    NoBitAbove(LinearIndex(cfg, a), 5);
    ParityWithOne(4, Taps(5), 7);
    BitOfHashed(16, LinearIndex(cfg, a), INDEX_BITS, 5);
    BitOfZero(5);
  }

  /** Under the hash every set is reached, for all upper bits, exactly when there are 64 sets. */
  lemma HashReachesEverySetIff(cfg: CacheConfig)
    requires cfg.hash.IPoly? && PowerOfTwo(cfg.nSets)
    ensures (forall upper: nat, s: nat :: s < cfg.nSets ==> Reaches(cfg, upper, s)) <==> cfg.nSets == 64
  {
    if cfg.nSets == 64 {
      forall upper: nat, s: nat | s < cfg.nSets ensures Reaches(cfg, upper, s) { EverySetIsReached(cfg, upper, s); }
    } else if cfg.nSets < 64 {
      forall a: nat | UpperBits(cfg, a) == 16 ensures SetIndex(cfg, a) != 0 { HashSkipsSetZero(cfg, a); }
      assert !Reaches(cfg, 16, 0);
    } else {
      assert Pow2(6) == 64;
      forall a: nat ensures SetIndex(cfg, a) != 64 { }
      assert !Reaches(cfg, 0, 64);
    }
  }

  lemma MaskOfSmall(x: nat, k: nat)
    requires x < Pow2(k)
    ensures And(x, Pow2(k) - 1) == x && Shr(x, k) == 0
  {
    AndLowMask(x, k);
    LowOfSmall(x, k);
    ShrRange(x, k, 0);
  }

  lemma LinearSmall(cfg: CacheConfig, addr: nat)
    requires PowerOfTwo(cfg.nSets) && LineNumber(addr) < cfg.nSets
    ensures LinearIndex(cfg, addr) == LineNumber(addr) && UpperBits(cfg, addr) == 0
  {
    MaskOfSmall(LineNumber(addr), FloorLog2(cfg.nSets));
  }

  lemma CollidingLines(cfg: CacheConfig)
    requires cfg.hash.IPoly? && PowerOfTwo(cfg.nSets) && cfg.nSets > 64
    ensures UpperBits(cfg, 0) == UpperBits(cfg, 8192) && SetIndex(cfg, 0) == SetIndex(cfg, 8192)
    ensures LineOf(0) != LineOf(8192)
  {
    LinearSmall(cfg, 0);
    LinearSmall(cfg, 8192);
    HashOfSixtyFour();
  }

  /** Under the hash (upper bits, set) names the line exactly when there are at most 64 sets. */
  lemma HashNamesTheLineIff(cfg: CacheConfig)
    requires cfg.hash.IPoly? && PowerOfTwo(cfg.nSets)
    ensures (forall a: nat, b: nat :: UpperBits(cfg, a) == UpperBits(cfg, b) && SetIndex(cfg, a) == SetIndex(cfg, b)
                                      ==> LineOf(a) == LineOf(b))
            <==> cfg.nSets <= 64
  {
    if cfg.nSets > 64 {
      CollidingLines(cfg);
    } else {
      forall a: nat, b: nat | UpperBits(cfg, a) == UpperBits(cfg, b) && SetIndex(cfg, a) == SetIndex(cfg, b)
        ensures LineOf(a) == LineOf(b)
      {
        UpperBitsAndSetNameTheLine(cfg, a, b);
      }
    }
  }
}
