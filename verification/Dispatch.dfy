/** Block dispatch over the whole GPU: occupancy limits, the initial spawn, and the guarantee that
    every block of a kernel goes to exactly one SM. */
module Dispatch {
  import opened Words
  import Sm
  import SmBlocks
  import SmRuns

  // ---------------------------------------------------------------- occupancy limits

  /** Resources of an SM and what a kernel asks of them; every capacity unit is positive. */
  datatype Capability = Capability(warpSize: nat, maxBlocks: nat, maxThreads: nat, registersPerSm: nat,
                                   registersPerBlock: nat, registerUnit: nat, sharedSize: nat, sharedUnit: nat,
                                   schedulers: nat)

  datatype KernelNeeds = KernelNeeds(blockSize: nat, registers: nat, sharedBytes: nat)

  predicate Sensible(c: Capability, k: KernelNeeds) {
    && c.warpSize > 0 && c.registersPerBlock > 0 && c.registerUnit > 0 && c.sharedUnit > 0 && c.schedulers > 0
    && k.blockSize > 0
  }

  /** ceil(x, s): the least multiple of s that is at least x. */
  function CeilTo(x: nat, s: nat): nat
    requires s > 0
  {
    (x + s - 1) / s * s
  }

  function WarpsPerBlock(c: Capability, k: KernelNeeds): nat
    requires Sensible(c, k)
  {
    CeilTo(k.blockSize, c.warpSize) / c.warpSize
  }

  function Quotient(x: nat, d: nat): nat { if d == 0 then 0 else x / d }

  /** max_block_limit_by_smem */
  function BySharedMemory(c: Capability, k: KernelNeeds): nat
    requires Sensible(c, k)
  {
    if k.sharedBytes == 0 then c.maxBlocks
    else
      Quotient(c.sharedSize, CeilTo(k.sharedBytes, c.sharedUnit))
  }

  function RegistersPerWarp(c: Capability, k: KernelNeeds): nat
    requires Sensible(c, k)
  {
    CeilTo(k.registers * c.warpSize, c.registerUnit)
  }

  /** floor(x / y, s) over exact quotients: the largest multiple of s not above x / y. */
  function FloorTo(x: nat, y: nat, s: nat): nat {
    Quotient(x, y * s) * s
  }

  /** max_block_limit_by_regs */
  function ByRegisters(c: Capability, k: KernelNeeds): nat
    requires Sensible(c, k)
  {
    if k.registers == 0 then c.maxBlocks
    else
      var warps: nat := FloorTo(c.registersPerBlock, RegistersPerWarp(c, k), c.schedulers);
      Quotient(warps, WarpsPerBlock(c, k)) * Quotient(c.registersPerSm, c.registersPerBlock)
  }

  function Min(a: nat, b: nat): nat { if b < a then b else a }

  /** max_block_limit_by_warps */
  function ByWarps(c: Capability, k: KernelNeeds): nat
    requires Sensible(c, k)
  {
    Min(c.maxBlocks, Quotient(c.maxThreads, c.warpSize * WarpsPerBlock(c, k)))
  }

  /** max_block_per_sm; max_block_limit_by_others is INT_MAX. */
  function MaxBlocksPerSm(c: Capability, k: KernelNeeds): nat
    requires Sensible(c, k)
  {
    Min(Min(BySharedMemory(c, k), ByRegisters(c, k)), Min(ByWarps(c, k), Sm.INT_MAX))
  }

  lemma DivideMeans(x: nat, d: nat, n: nat)
    requires d > 0
    ensures n <= x / d <==> n * d <= x
  {
    var q, r := x / d, x % d;
    assert x == d * q + r;
    if n <= q { Monotone(d, n, q); } else { Monotone(d, q + 1, n); }
  }

  lemma CeilMeans(x: nat, s: nat)
    requires s > 0
    ensures x <= CeilTo(x, s) < x + s && CeilTo(x, s) % s == 0
    ensures CeilTo(x, s) == CeilTo(x, s) / s * s
    ensures x > 0 ==> CeilTo(x, s) > 0
  {
    var q, r := (x + s - 1) / s, (x + s - 1) % s;
    assert x + s - 1 == s * q + r;
    QuotientUnique(CeilTo(x, s), s, q, 0);
  }

  lemma WarpsCoverBlock(c: Capability, k: KernelNeeds)
    requires Sensible(c, k)
    ensures WarpsPerBlock(c, k) > 0 && k.blockSize <= WarpsPerBlock(c, k) * c.warpSize
  {
    CeilMeans(k.blockSize, c.warpSize);
    if WarpsPerBlock(c, k) == 0 { Monotone(c.warpSize, 0, 0); }
  }

  /** n blocks fit the shared memory if and only if n is within the limit. */
  lemma SharedMemoryFitsIff(c: Capability, k: KernelNeeds, n: nat)
    requires Sensible(c, k) && k.sharedBytes > 0
    ensures n <= BySharedMemory(c, k) <==> n * CeilTo(k.sharedBytes, c.sharedUnit) <= c.sharedSize
  {
    CeilMeans(k.sharedBytes, c.sharedUnit);
    DivideMeans(c.sharedSize, CeilTo(k.sharedBytes, c.sharedUnit), n);
  }

  /** n blocks fit the thread and block limits if and only if n is within the limit. */
  lemma ThreadsFitIff(c: Capability, k: KernelNeeds, n: nat)
    requires Sensible(c, k)
    ensures n <= ByWarps(c, k) <==> n <= c.maxBlocks && n * (c.warpSize * WarpsPerBlock(c, k)) <= c.maxThreads
  {
    WarpsCoverBlock(c, k);
    assert c.warpSize * WarpsPerBlock(c, k) > 0 by { Monotone(c.warpSize, 1, WarpsPerBlock(c, k)); }
    DivideMeans(c.maxThreads, c.warpSize * WarpsPerBlock(c, k), n);
  }

  lemma WarpsFitRegisters(c: Capability, k: KernelNeeds)
    requires Sensible(c, k) && k.registers > 0
    ensures FloorTo(c.registersPerBlock, RegistersPerWarp(c, k), c.schedulers) * RegistersPerWarp(c, k)
            <= c.registersPerBlock
  {
    var y, s := RegistersPerWarp(c, k), c.schedulers;
    if y * s != 0 {
      var q := c.registersPerBlock / (y * s);
      DivideMeans(c.registersPerBlock, y * s, q);
      assert q * s * y == q * (y * s) by { Assoc(q, s, y); }
    }
  }

  lemma QuotientTimes(x: nat, d: nat)
    requires d > 0
    ensures x / d * d <= x
  {
    DivideMeans(x, d, x / d);
  }

  lemma ProductFits(n: nat, a: nat, b: nat, w: nat, y: nat, warps: nat, perBlock: nat, perSm: nat)
    requires n <= a * b && a * w <= warps && warps * y <= perBlock && b * perBlock <= perSm
    ensures n * (w * y) <= perSm
  {
    Monotone(w * y, n, a * b);
    assert a * b * (w * y) == b * (a * w * y) by { Assoc(a * b, w, y); Assoc(b, a, w * y); Assoc(a, w, y); }
    Monotone(y, a * w, warps);
    Monotone(b, a * w * y, perBlock);
  }

  /** As many blocks as the limit allows fit the registers of an SM. */
  lemma RegistersFit(c: Capability, k: KernelNeeds, n: nat)
    requires Sensible(c, k) && k.registers > 0 && n <= ByRegisters(c, k)
    ensures n * (WarpsPerBlock(c, k) * RegistersPerWarp(c, k)) <= c.registersPerSm
  {
    WarpsCoverBlock(c, k);
    WarpsFitRegisters(c, k);
    var y, w := RegistersPerWarp(c, k), WarpsPerBlock(c, k);
    var warps := FloorTo(c.registersPerBlock, y, c.schedulers);
    QuotientTimes(warps, w);
    QuotientTimes(c.registersPerSm, c.registersPerBlock);
    ProductFits(n, warps / w, c.registersPerSm / c.registersPerBlock, w, y, warps, c.registersPerBlock,
        c.registersPerSm);
  }

  /** A register file holds m blocks in so many rounds of its schedulers, each a warp on every one. */
  predicate FileHolds(c: Capability, k: KernelNeeds, m: nat, rounds: nat)
    requires Sensible(c, k)
  {
    && m * WarpsPerBlock(c, k) <= rounds * c.schedulers
    && rounds * (RegistersPerWarp(c, k) * c.schedulers) <= c.registersPerBlock
  }

  predicate FilesFit(c: Capability, files: nat) { files * c.registersPerBlock <= c.registersPerSm }

  /** Can n blocks be laid out in the register files of an SM? */
  ghost predicate RegistersHold(c: Capability, k: KernelNeeds, n: nat)
    requires Sensible(c, k)
  {
    exists m: nat, rounds: nat, files: nat :: FileHolds(c, k, m, rounds) && FilesFit(c, files) && n <= m * files
  }

  lemma SomeRegisters(c: Capability, k: KernelNeeds)
    requires Sensible(c, k) && k.registers > 0
    ensures RegistersPerWarp(c, k) * c.schedulers > 0
  {
    Monotone(c.warpSize, 1, k.registers);
    CeilMeans(k.registers * c.warpSize, c.registerUnit);
    Monotone(RegistersPerWarp(c, k), 1, c.schedulers);
  }

  /** A file holds m blocks if and only if m is within the quotient that the limit is made of. */
  lemma FileHoldsIff(c: Capability, k: KernelNeeds, m: nat)
    requires Sensible(c, k) && k.registers > 0 && WarpsPerBlock(c, k) > 0
    ensures var warps := FloorTo(c.registersPerBlock, RegistersPerWarp(c, k), c.schedulers);
            m <= warps / WarpsPerBlock(c, k) <==> exists rounds: nat :: FileHolds(c, k, m, rounds)
  {
    SomeRegisters(c, k);
    var unit := RegistersPerWarp(c, k) * c.schedulers;
    var q := c.registersPerBlock / unit;
    DivideMeans(q * c.schedulers, WarpsPerBlock(c, k), m);
    DivideMeans(c.registersPerBlock, unit, q);
    if m * WarpsPerBlock(c, k) <= q * c.schedulers { assert FileHolds(c, k, m, q); }
    forall rounds: nat | FileHolds(c, k, m, rounds) ensures m * WarpsPerBlock(c, k) <= q * c.schedulers {
      DivideMeans(c.registersPerBlock, unit, rounds);
      Monotone(c.schedulers, rounds, q);
    }
  }

  /** The most blocks that a register file holds, and the number of files. */
  function MostInFile(c: Capability, k: KernelNeeds): nat
    requires Sensible(c, k)
  {
    Quotient(FloorTo(c.registersPerBlock, RegistersPerWarp(c, k), c.schedulers), WarpsPerBlock(c, k))
  }

  function Files(c: Capability): nat { Quotient(c.registersPerSm, c.registersPerBlock) }

  lemma LimitIs(c: Capability, k: KernelNeeds)
    requires Sensible(c, k) && k.registers > 0
    ensures ByRegisters(c, k) == MostInFile(c, k) * Files(c)
  {
  }

  lemma MostIs(c: Capability, k: KernelNeeds, m: nat)
    requires Sensible(c, k) && k.registers > 0
    ensures m <= MostInFile(c, k) <==> exists rounds: nat :: FileHolds(c, k, m, rounds)
  {
    WarpsCoverBlock(c, k);
    FileHoldsIff(c, k, m);
  }

  lemma FilesFitIff(c: Capability, files: nat)
    requires c.registersPerBlock > 0
    ensures FilesFit(c, files) <==> files <= Files(c)
  {
    DivideMeans(c.registersPerSm, c.registersPerBlock, files);
  }

  lemma ProductMonotone(a: nat, b: nat, c: nat, d: nat)
    requires a <= c && b <= d
    ensures a * b <= c * d
  {
    Monotone(a, b, d);
    Monotone(d, a, c);
  }

  /** n blocks can be laid out in the register files if and only if n is within the limit. */
  lemma RegistersFitIff(c: Capability, k: KernelNeeds, n: nat)
    requires Sensible(c, k) && k.registers > 0
    ensures n <= ByRegisters(c, k) <==> RegistersHold(c, k, n)
  {
    hide FileHolds, FilesFit, ByRegisters, MostInFile, Files;
    LimitIs(c, k);
    var most, all := MostInFile(c, k), Files(c);
    MostIs(c, k, most);
    FilesFitIff(c, all);
    if n <= ByRegisters(c, k) {
      var rounds: nat :| FileHolds(c, k, most, rounds);
      assert FileHolds(c, k, most, rounds) && FilesFit(c, all) && n <= most * all;
    }
    forall m: nat, rounds: nat, files: nat | FileHolds(c, k, m, rounds) && FilesFit(c, files) && n <= m * files
      ensures n <= most * all
    {
      FilesFitIff(c, files);
      MostIs(c, k, m);
      ProductMonotone(m, files, most, all);
    }
  }

  lemma Scaled(n: nat, a: nat, b: nat, limit: nat)
    requires a <= b && n * b <= limit
    ensures n * a <= limit
  {
    Monotone(n, a, b);
  }

  /** The number of blocks an SM is given fits its shared memory, registers, threads and block slots. */
  lemma MaxBlocksFit(c: Capability, k: KernelNeeds)
    requires Sensible(c, k)
    ensures var n := MaxBlocksPerSm(c, k);
            && n <= c.maxBlocks
            && n * k.sharedBytes <= c.sharedSize
            && n * (WarpsPerBlock(c, k) * RegistersPerWarp(c, k)) <= c.registersPerSm
            && n * k.blockSize <= c.maxThreads
  {
    hide BySharedMemory, ByRegisters, ByWarps, MaxBlocksPerSm, WarpsPerBlock, RegistersPerWarp, CeilTo;
    var n := MaxBlocksPerSm(c, k);
    WithinEveryLimit(c, k);
    ThreadsFit(c, k, n);
    if k.sharedBytes > 0 {
      SharedMemoryFitsIff(c, k, n);
      CeilMeans(k.sharedBytes, c.sharedUnit);
      Scaled(n, k.sharedBytes, CeilTo(k.sharedBytes, c.sharedUnit), c.sharedSize);
    }
    if k.registers > 0 {
      RegistersFit(c, k, n);
    } else {
      NoRegisters(c, k, n);
    }
  }

  /** n is within the maximum if and only if n blocks fit every resource, each by its own measure. */
  lemma MaxBlocksIff(c: Capability, k: KernelNeeds, n: nat)
    requires Sensible(c, k)
    ensures n <= MaxBlocksPerSm(c, k)
            <==> && n <= c.maxBlocks && n <= Sm.INT_MAX
                 && n * (c.warpSize * WarpsPerBlock(c, k)) <= c.maxThreads
                 && (k.sharedBytes > 0 ==> n * CeilTo(k.sharedBytes, c.sharedUnit) <= c.sharedSize)
                 && (k.registers > 0 ==> RegistersHold(c, k, n))
  {
    hide WarpsPerBlock, RegistersHold, CeilTo;
    ThreadsFitIff(c, k, n);
    if k.sharedBytes > 0 { SharedMemoryFitsIff(c, k, n); }
    if k.registers > 0 { RegistersFitIff(c, k, n); }
    LeastOfLimits(c, k, n);
    hide MaxBlocksPerSm, ByWarps;
  }

  lemma LeastOfLimits(c: Capability, k: KernelNeeds, n: nat)
    requires Sensible(c, k)
    ensures n <= MaxBlocksPerSm(c, k)
            <==> n <= BySharedMemory(c, k) && n <= ByRegisters(c, k) && n <= ByWarps(c, k) && n <= Sm.INT_MAX
    ensures k.sharedBytes == 0 ==> BySharedMemory(c, k) == c.maxBlocks
    ensures k.registers == 0 ==> ByRegisters(c, k) == c.maxBlocks
  {
    hide ByWarps, FloorTo, CeilTo, WarpsPerBlock, RegistersPerWarp, Quotient;
  }

  lemma WithinEveryLimit(c: Capability, k: KernelNeeds)
    requires Sensible(c, k)
    ensures var n := MaxBlocksPerSm(c, k); n <= BySharedMemory(c, k) && n <= ByRegisters(c, k) && n <= ByWarps(c, k)
  {
    hide BySharedMemory, ByRegisters, ByWarps;
  }

  lemma ThreadsFit(c: Capability, k: KernelNeeds, n: nat)
    requires Sensible(c, k) && n <= ByWarps(c, k)
    ensures n <= c.maxBlocks && n * k.blockSize <= c.maxThreads
  {
    hide ByWarps, WarpsPerBlock;
    ThreadsFitIff(c, k, n);
    WarpsCoverBlock(c, k);
    Scaled(n, k.blockSize, c.warpSize * WarpsPerBlock(c, k), c.maxThreads);
  }

  lemma NoRegisters(c: Capability, k: KernelNeeds, n: nat)
    requires Sensible(c, k) && k.registers == 0
    ensures n * (WarpsPerBlock(c, k) * RegistersPerWarp(c, k)) == 0
  {
    QuotientUnique(c.registerUnit - 1, c.registerUnit, 0, c.registerUnit - 1);
    assert RegistersPerWarp(c, k) == 0;
  }

  // ---------------------------------------------------------------- the initial spawn

  /** owner[b] is the SM that block b was given to, for every block given out so far. */
  type Owners = seq<nat>

  function BlocksOf(owner: Owners, k: nat): set<nat> { set b: nat | b < |owner| && owner[b] == k }

  lemma GiveNext(owner: Owners, k: nat, i: nat)
    ensures BlocksOf(owner + [k], i) == if i == k then BlocksOf(owner, i) + {|owner|} else BlocksOf(owner, i)
    ensures |BlocksOf(owner + [k], i)| == |BlocksOf(owner, i)| + (if i == k then 1 else 0)
  {
    assert BlocksOf(owner + [k], i) == if i == k then BlocksOf(owner, i) + {|owner|} else BlocksOf(owner, i);
  }

  /** SMs before `index` hold one block more than those from `index` on. */
  ghost predicate RoundRobin(owner: Owners, n: nat, rounds: nat, index: nat) {
    && index <= n
    && (forall b :: 0 <= b < |owner| ==> owner[b] < n)
    && (forall k :: 0 <= k < n ==> |BlocksOf(owner, k)| == if k < index then rounds + 1 else rounds)
    && |owner| == rounds * n + index
  }

  /** first_spawn_block: blocks in order, one SM after the other, while the next SM has room.
      It gives out exactly the first min(grid, active SMs * max_blocks) blocks. */
  method FirstSpawnBlock(grid: nat, smNum: nat, maxBlocks: nat) returns (resident: seq<set<nat>>, owner: Owners)
    requires smNum > 0
    ensures |resident| == smNum
    ensures |owner| == Min(grid, Min(grid, smNum) * maxBlocks)
    ensures forall k :: 0 <= k < smNum ==> resident[k] == BlocksOf(owner, k) && |resident[k]| <= maxBlocks
  {
    var activeSms := Min(grid, smNum);
    resident := seq(smNum, _ => {});
    owner := [];
    var index, b := 0, 0;
    ghost var rounds := 0;
    assert forall k :: 0 <= k < smNum ==> BlocksOf(owner, k) == {};
    while b < grid
      invariant b <= grid && |resident| == smNum && (grid > 0 ==> index < activeSms) && (grid == 0 ==> index == 0)
      invariant RoundRobin(owner, activeSms, rounds, index)
      invariant rounds <= maxBlocks && (rounds == maxBlocks ==> index == 0)
      invariant |owner| == b || (rounds == maxBlocks && |owner| <= b)
      invariant forall k :: 0 <= k < smNum ==> resident[k] == BlocksOf(owner, k)
    {
      if |resident[index]| < maxBlocks {
        forall i | 0 <= i < smNum
          ensures BlocksOf(owner + [index], i) == if i == index then resident[i] + {b} else resident[i]
        {
          GiveNext(owner, index, i);
        }
        GiveRound(owner, activeSms, rounds, index);
        resident := resident[index := resident[index] + {b}];
        owner := owner + [index];
        index := index + 1;
        if index == activeSms {
          index := 0;
          rounds := rounds + 1;
        }
      }
      b := b + 1;
    }
    SpawnCount(owner, grid, activeSms, rounds, index, maxBlocks);
    forall k | 0 <= k < smNum ensures |resident[k]| <= maxBlocks {
      if k >= activeSms { assert BlocksOf(owner, k) == {}; }
    }
  }

  lemma GiveRound(owner: Owners, n: nat, rounds: nat, index: nat)
    requires RoundRobin(owner, n, rounds, index) && index < n
    ensures if index + 1 == n then RoundRobin(owner + [index], n, rounds + 1, 0)
            else RoundRobin(owner + [index], n, rounds, index + 1)
  {
    forall k | 0 <= k < n
      ensures |BlocksOf(owner + [index], k)| == |BlocksOf(owner, k)| + (if k == index then 1 else 0)
    {
      GiveNext(owner, index, k);
    }
    assert (rounds + 1) * n == rounds * n + n;
  }

  lemma SpawnCount(owner: Owners, grid: nat, n: nat, rounds: nat, index: nat, maxBlocks: nat)
    requires RoundRobin(owner, n, rounds, index) && n <= grid && (n > 0 ==> index < n) && (n == 0 ==> grid == 0)
    requires rounds <= maxBlocks && (rounds == maxBlocks ==> index == 0)
    requires |owner| == grid || (rounds == maxBlocks && |owner| <= grid)
    ensures |owner| == Min(grid, n * maxBlocks)
  {
    if rounds < maxBlocks && n > 0 { Monotone(n, rounds + 1, maxBlocks); }
  }

  // ---------------------------------------------------------------- dispatch during the simulation

  /** A run of the SMs of a GPU: in turn t the SM turns[t] runs one cycle, with the block pointer as
      the SM before it left it. */
  datatype GpuRun = GpuRun(states: seq<seq<Sm.SmState>>, ptrs: seq<nat>, turns: seq<nat>, inputs: seq<Sm.SmInput>)

  ghost predicate Turn(cfgs: seq<Sm.SmConfig>, run: GpuRun, t: nat)
    requires |run.states| == |run.ptrs| == |run.turns| + 1 == |run.inputs| + 1 && t < |run.turns|
  {
    var k := run.turns[t];
    && k < |cfgs| == |run.states[t]| == |run.states[t + 1]|
    && run.inputs[t].ptr == run.ptrs[t]
    && Sm.Shaped(cfgs[k], run.states[t][k])
    && Sm.Cycle(cfgs[k], run.states[t][k], run.inputs[t]) == Sm.Outcome.Ok(run.states[t + 1][k])
    && run.ptrs[t + 1] == run.states[t + 1][k].ptr
    && forall i :: 0 <= i < |cfgs| && i != k ==> run.states[t + 1][i] == run.states[t][i]
  }

  ghost predicate IsGpuRun(cfgs: seq<Sm.SmConfig>, run: GpuRun) {
    && |run.states| == |run.ptrs| == |run.turns| + 1 == |run.inputs| + 1
    && |run.states[0]| == |cfgs|
    && forall t :: 0 <= t < |run.turns| ==> Turn(cfgs, run, t)
  }

  /** Every SM holds only blocks given to it, and not too many. */
  ghost predicate Owned(cfgs: seq<Sm.SmConfig>, sms: seq<Sm.SmState>, owner: Owners) {
    |sms| == |cfgs| && forall k :: 0 <= k < |cfgs| ==>
      |sms[k].blocks| <= cfgs[k].maxBlocks && forall b :: b in sms[k].blocks ==> b < |owner| && owner[b] == k
  }

  function Repeat(k: nat, n: nat): (s: Owners)
    ensures |s| == n && forall i :: 0 <= i < n ==> s[i] == k
  {
    if n == 0 then [] else Repeat(k, n - 1) + [k]
  }

  /** SM k takes the blocks from the old pointer to the new one. */
  lemma TakenAreOwned(cfgs: seq<Sm.SmConfig>, sms: seq<Sm.SmState>, sms': seq<Sm.SmState>, k: nat, owner: Owners,
                      ptr: nat)
    requires Owned(cfgs, sms, owner) && |sms'| == |cfgs| && k < |cfgs| && |owner| <= ptr
    requires |sms[k].blocks| <= cfgs[k].maxBlocks ==> |sms'[k].blocks| <= cfgs[k].maxBlocks
    requires forall b :: b in sms'[k].blocks ==> b in sms[k].blocks || SmBlocks.Between(b, |owner|, ptr)
    requires forall i :: 0 <= i < |cfgs| && i != k ==> sms'[i] == sms[i]
    ensures Owned(cfgs, sms', owner + Repeat(k, ptr - |owner|))
  {
  }

  lemma TurnKeeps(cfgs: seq<Sm.SmConfig>, run: GpuRun, t: nat, owner: Owners)
    requires IsGpuRun(cfgs, run) && t < |run.turns| && Owned(cfgs, run.states[t], owner) && |owner| == run.ptrs[t]
    ensures run.ptrs[t] <= run.ptrs[t + 1]
    ensures Owned(cfgs, run.states[t + 1], owner + Repeat(run.turns[t], run.ptrs[t + 1] - run.ptrs[t]))
  {
    assert Turn(cfgs, run, t);
    var k := run.turns[t];
    SmBlocks.CycleTakes(cfgs[k], run.states[t][k], run.inputs[t]);
    TakenAreOwned(cfgs, run.states[t], run.states[t + 1], k, owner, run.ptrs[t + 1]);
  }

  /** Who owns each block after t turns: the initial owners, then each turn's SM for the blocks that
      it took. */
  ghost function OwnersAt(cfgs: seq<Sm.SmConfig>, run: GpuRun, first: Owners, t: nat): (owner: Owners)
    requires IsGpuRun(cfgs, run) && t <= |run.turns| && Owned(cfgs, run.states[0], first) && |first| == run.ptrs[0]
    ensures Owned(cfgs, run.states[t], owner) && |owner| == run.ptrs[t] && first <= owner
  {
    if t == 0 then first
    else
      var before := OwnersAt(cfgs, run, first, t - 1);
      TurnKeeps(cfgs, run, t - 1, before);
      before + Repeat(run.turns[t - 1], run.ptrs[t] - run.ptrs[t - 1])
  }

  /** A turn puts every block that its pointer passes into the SM whose turn it is. */
  lemma PassedIsTaken(cfgs: seq<Sm.SmConfig>, run: GpuRun, t: nat, b: nat)
    requires IsGpuRun(cfgs, run) && t < |run.turns| && SmBlocks.Between(b, run.ptrs[t], run.ptrs[t + 1])
    ensures run.turns[t] < |run.states[t + 1]| && b in run.states[t + 1][run.turns[t]].blocks
  {
    assert Turn(cfgs, run, t);
    SmBlocks.CycleTakes(cfgs[run.turns[t]], run.states[t][run.turns[t]], run.inputs[t]);
  }

  /** Ownership never changes. */
  lemma {:induction false} OwnersOnlyGrow(cfgs: seq<Sm.SmConfig>, run: GpuRun, first: Owners, t: nat, u: nat)
    requires IsGpuRun(cfgs, run) && t <= u <= |run.turns| && Owned(cfgs, run.states[0], first) && |first| == run.ptrs[0]
    ensures OwnersAt(cfgs, run, first, t) <= OwnersAt(cfgs, run, first, u)
    decreases u
  {
    if t < u {
      OwnersOnlyGrow(cfgs, run, first, t, u - 1);
      TurnKeeps(cfgs, run, u - 1, OwnersAt(cfgs, run, first, u - 1));
    }
  }

  /** Whenever two SMs hold the same block, at whatever times, they are the same SM; no SM holds a
      block at or above the pointer, and none holds more than its maximum. */
  lemma EveryBlockHasOneSm(cfgs: seq<Sm.SmConfig>, run: GpuRun, first: Owners, t: nat, u: nat, i: nat, k: nat, b: nat)
    requires IsGpuRun(cfgs, run) && t <= |run.turns| && u <= |run.turns|
    requires Owned(cfgs, run.states[0], first) && |first| == run.ptrs[0]
    requires i < |cfgs| && k < |cfgs|
    ensures |run.states[t]| == |run.states[u]| == |cfgs|
    ensures |run.states[t][i].blocks| <= cfgs[i].maxBlocks
    ensures b in run.states[t][i].blocks ==> b < run.ptrs[t]
    ensures b in run.states[t][i].blocks && b in run.states[u][k].blocks ==> i == k
  {
    var x, y := OwnersAt(cfgs, run, first, t), OwnersAt(cfgs, run, first, u);
    if t <= u { OwnersOnlyGrow(cfgs, run, first, t, u); } else { OwnersOnlyGrow(cfgs, run, first, u, t); }
  }

  /** The turn in which block b was given out: its SM then holds it, and owns it from then on. */
  ghost predicate GivenIn(cfgs: seq<Sm.SmConfig>, run: GpuRun, first: Owners, b: nat, u: nat, t: nat)
    requires IsGpuRun(cfgs, run) && u < t <= |run.turns| && Owned(cfgs, run.states[0], first) && |first| == run.ptrs[0]
  {
    && SmBlocks.Between(b, run.ptrs[u], run.ptrs[u + 1])
    && run.turns[u] < |run.states[u + 1]| && b in run.states[u + 1][run.turns[u]].blocks
    && b < |OwnersAt(cfgs, run, first, t)| && OwnersAt(cfgs, run, first, t)[b] == run.turns[u]
  }

  /** Every block that the pointer has passed since the start was given to an SM, in some turn, and
      to that one alone. */
  lemma {:induction false} EveryPassedBlockWasGiven(cfgs: seq<Sm.SmConfig>, run: GpuRun, first: Owners, t: nat, b: nat)
    requires IsGpuRun(cfgs, run) && t <= |run.turns| && Owned(cfgs, run.states[0], first) && |first| == run.ptrs[0]
    requires run.ptrs[0] <= b < run.ptrs[t]
    ensures exists u :: 0 <= u < t && GivenIn(cfgs, run, first, b, u, t)
  {
    if b >= run.ptrs[t - 1] {
      PassedIsTaken(cfgs, run, t - 1, b);
      assert GivenIn(cfgs, run, first, b, t - 1, t);
    } else {
      EveryPassedBlockWasGiven(cfgs, run, first, t - 1, b);
      var u :| 0 <= u < t - 1 && GivenIn(cfgs, run, first, b, u, t - 1);
      OwnersOnlyGrow(cfgs, run, first, t - 1, t);
      assert GivenIn(cfgs, run, first, b, u, t);
    }
  }

  // ---------------------------------------------------------------- from the spawn to the run

  /** The SMs right after first_spawn_block gave out the blocks as `owner` says. */
  ghost predicate SpawnedSms(cfgs: seq<Sm.SmConfig>, sms: seq<Sm.SmState>, owner: Owners) {
    && |sms| == |cfgs|
    && forall k :: 0 <= k < |cfgs| ==>
         && |owner| <= |cfgs[k].kernel|
         && (forall b :: b in BlocksOf(owner, k) ==> b < |owner|)
         && sms[k] == SmRuns.Spawned(cfgs[k], sms[k].units, sms[k].l1.lines, BlocksOf(owner, k), |owner|)
  }

  /** The initial spawn starts the ownership: each SM holds exactly the blocks it was given, within
      its maximum, and every block below the pointer is in the SM that owns it. */
  lemma SpawnIsOwned(cfgs: seq<Sm.SmConfig>, sms: seq<Sm.SmState>, owner: Owners)
    requires SpawnedSms(cfgs, sms, owner)
    requires forall k :: 0 <= k < |cfgs| ==> |BlocksOf(owner, k)| <= cfgs[k].maxBlocks
    ensures Owned(cfgs, sms, owner)
    ensures forall b :: 0 <= b < |owner| && owner[b] < |cfgs| ==> b in sms[owner[b]].blocks
    ensures forall k :: 0 <= k < |cfgs| ==> sms[k].ptr == |owner|
  {
    forall k | 0 <= k < |cfgs|
      ensures sms[k].blocks.Keys == BlocksOf(owner, k) && |sms[k].blocks| == |BlocksOf(owner, k)|
    {
      assert sms[k].blocks.Keys == BlocksOf(owner, k);
      assert |sms[k].blocks| == |sms[k].blocks.Keys|;
    }
  }
}
