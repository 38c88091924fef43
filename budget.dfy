/** Resource budgeting of the orchestrators: the process-count and memory
    checks run at start-up (`test_nprocs_memory`, `test_nprocs`), the number
    of parallel imports and the memory handed to each import worker. */
module Budget {
  import opened Wrappers

  datatype Warning =
    | CpuOversubscribed(nprocs: int, cpus: nat)
    | MemoryClamped(requested: int, free: int)
    | MemorySet(memory: int)
    | FreeRamOnly(memory: int)
    | FreeRamUnchecked

  datatype BudgetError =
    | ZeroDivision   // `round(float(memory) / 0)`
    | AbsOfNone      // `abs(None)` when the legacy free-RAM probe failed

  function Abs(x: int): nat { if x < 0 then -x else x }

  /** The smaller of a requested amount and a limit: what the scripts assign
      when the request exceeds the host (`options['nprocs'] = nprocs_real`,
      `options['memory'] = free_ram`, worker `memory = free_ram`). */
  function Clamp(requested: int, limit: int): (r: int)
    ensures r <= requested && r <= limit
    ensures r == requested || r == limit
  {
    if limit < requested then limit else requested
  }

  /** The entries of the script's global `options` dictionary that the
      start-up check rewrites, already converted with `int(...)`. */
  class Options {
    var nprocs: int
    var memory: int

    constructor (nprocs: int, memory: int)
      ensures this.nprocs == nprocs && this.memory == memory
    {
      this.nprocs := nprocs;
      this.memory := memory;
    }
  }

  /** `test_nprocs_memory` of the newer import script: both the process count
      and the memory are lowered to what the host has, with a warning each.
      `freeRam` is `abs(freeRAM('MB', 100))`. */
  method TestNprocsMemory(options: Options, cpuCount: nat, freeRam: nat) returns (warnings: seq<Warning>)
    modifies options
    ensures options.nprocs == Clamp(old(options.nprocs), cpuCount)
    ensures options.memory == Clamp(old(options.memory), freeRam)
    ensures warnings ==
      (if old(options.nprocs) > cpuCount then [CpuOversubscribed(old(options.nprocs), cpuCount)] else []) +
      (if freeRam < old(options.memory) then [MemoryClamped(old(options.memory), freeRam), MemorySet(freeRam)] else [])
  {
    warnings := [];
    var nprocs := options.nprocs;
    if nprocs > cpuCount {
      warnings := warnings + [CpuOversubscribed(nprocs, cpuCount)];
      options.nprocs := cpuCount;
    }
    var memory := options.memory;
    if freeRam < memory {
      warnings := warnings + [MemoryClamped(memory, freeRam)];
      options.memory := freeRam;
      warnings := warnings + [MemorySet(options.memory)];
    }
  }

  /** `test_nprocs_memory` of the legacy import script, with the free-RAM probe
      result as an Option: None is the probe's `except` branch. The process
      count is only warned about; the memory is lowered to free RAM. When the
      probe fails the check is skipped with a warning. This is the corrected
      rule `LegacyMemoryIntended`: as written, the script aborts there
      (`LegacyFreeRamAsWritten`). */
  method TestNprocsMemoryLegacy(options: Options, cpuCount: nat, freeRam: Option<nat>) returns (warnings: seq<Warning>)
    modifies options
    ensures options.nprocs == old(options.nprocs)
    ensures options.memory == LegacyMemoryIntended(old(options.memory), freeRam)
    ensures warnings ==
      (if old(options.nprocs) > cpuCount then [CpuOversubscribed(old(options.nprocs), cpuCount)] else []) +
      LegacyMemoryWarnings(old(options.memory), freeRam)
  {
    warnings := [];
    if options.nprocs > cpuCount {
      warnings := warnings + [CpuOversubscribed(options.nprocs, cpuCount)];
    }
    var memory := options.memory;
    match freeRam
    case None =>
      warnings := warnings + [FreeRamUnchecked];
    case Some(free) =>
      if free < memory {
        warnings := warnings + [MemoryClamped(memory, free)];
        options.memory := free;
        warnings := warnings + [MemorySet(options.memory)];
      }
  }

  function LegacyMemoryWarnings(memory: int, freeRam: Option<nat>): seq<Warning>
  {
    match freeRam
    case None => [FreeRamUnchecked]
    case Some(free) => if free < memory then [MemoryClamped(memory, free), MemorySet(free)] else []
  }

  /** The legacy memory check AS WRITTEN: `freeRAM` returns None from its
      `except` branch and `abs(None)` then raises, so a failed probe aborts
      the run instead of skipping the check. */
  function LegacyFreeRamAsWritten(memory: int, freeRam: Option<nat>): (r: Result<int, BudgetError>)
    ensures freeRam.None? <==> r == Err(AbsOfNone)
  {
    match freeRam
    case None => Err(AbsOfNone)
    case Some(free) => Ok(Clamp(memory, free))
  }

  /** The legacy memory check as intended: a failed probe leaves the memory
      request as it is. */
  function LegacyMemoryIntended(memory: int, freeRam: Option<nat>): (r: int)
    ensures freeRam.None? ==> r == memory
    ensures freeRam.Some? ==> r == Clamp(memory, freeRam.value)
  {
    match freeRam
    case None => memory
    case Some(free) => Clamp(memory, free)
  }

  /** The as-written legacy check aborts on a failed probe, and agrees with
      the intended one whenever the probe succeeds. */
  lemma LegacyFreeRamDiscrepancy(memory: int, free: nat)
    ensures LegacyFreeRamAsWritten(memory, None) == Err(AbsOfNone)
    ensures LegacyMemoryIntended(memory, None) == memory
    ensures LegacyFreeRamAsWritten(memory, Some(free)) == Ok(LegacyMemoryIntended(memory, Some(free)))
  {
  }

  /** `test_nprocs` of both mask scripts: a warning only, nothing changes. */
  function TestNprocs(nprocs: int, cpuCount: nat): (warnings: seq<Warning>)
    ensures warnings != [] <==> nprocs > cpuCount
    ensures forall i :: 0 <= i < |warnings| ==> warnings[i].CpuOversubscribed?
  {
    if nprocs > cpuCount then [CpuOversubscribed(nprocs, cpuCount)] else []
  }

  /** Number of parallel imports: `min(number_of_scenes, nprocs)` in the newer
      script, the equivalent if/else over the number of scene names in the
      legacy one. */
  function EffectiveProcs(units: nat, nprocs: int): (r: int)
    ensures r <= units && r <= nprocs
    ensures r == units || r == nprocs
  {
    Clamp(nprocs, units)
  }

  /** Python's `round(a / b)` for integers: the integer nearest to the
      quotient, a tie going to the even neighbour. */
  function RoundDiv(a: int, b: int): (q: int)
    requires b != 0
    ensures 2 * Abs(a - q * b) <= Abs(b)
    ensures 2 * Abs(a - q * b) == Abs(b) ==> q % 2 == 0
  {
    if b < 0 then
      var q := RoundPos(-a, -b);
      assert a - q * b == -((-a) - q * (-b));
      q
    else RoundPos(a, b)
  }

  function RoundPos(a: int, b: int): (q: int)
    requires b > 0
    ensures 2 * Abs(a - q * b) <= b
    ensures 2 * Abs(a - q * b) == b ==> q % 2 == 0
  {
    var f, r := a / b, a % b;
    assert a - f * b == r;
    assert a - (f + 1) * b == r - b;
    if 2 * r < b then f
    else if 2 * r > b then f + 1
    else if f % 2 == 0 then f
    else f + 1
  }

  /** The two properties of `RoundDiv` determine its result: it is the one
      integer that rounds the quotient to nearest, ties to even. */
  lemma RoundDivUnique(a: int, b: int, q: int)
    requires b != 0
    requires 2 * Abs(a - q * b) <= Abs(b)
    requires 2 * Abs(a - q * b) == Abs(b) ==> q % 2 == 0
    ensures q == RoundDiv(a, b)
  {
    var p := RoundDiv(a, b);
    var e, e' := a - q * b, a - p * b;
    DiffOfRemainders(a, b, p, q);
    var k := Abs(p - q);
    AbsMul(p - q, b);
    assert Abs(e - e') == k * Abs(b);
    MulAtLeast(k, Abs(b));
    Nearest(p, q, e, e', Abs(b));
  }

  lemma DiffOfRemainders(a: int, b: int, p: int, q: int)
    ensures (a - q * b) - (a - p * b) == (p - q) * b
  {
    assert (p - q) * b == p * b - q * b;
  }

  /** Two integers whose distances to the quotient are within half of `m`,
      where `m` is at least the distance between them times `m` and a tie is
      only allowed for an even candidate, coincide. */
  lemma Nearest(p: int, q: int, e: int, e': int, m: nat)
    requires m > 0
    requires 2 * Abs(e) <= m && 2 * Abs(e') <= m
    requires 2 * Abs(e) == m ==> q % 2 == 0
    requires 2 * Abs(e') == m ==> p % 2 == 0
    requires Abs(p - q) >= 1 ==> Abs(e - e') >= m
    requires Abs(p - q) >= 2 ==> Abs(e - e') >= 2 * m
    ensures p == q
  {
  }

  lemma AbsMul(x: int, y: int)
    ensures Abs(x * y) == Abs(x) * Abs(y)
  {
    if x < 0 && y < 0 { assert x * y == (-x) * (-y); }
    else if x < 0 { assert Abs(x * y) == (-x) * y; }
    else if y < 0 { assert Abs(x * y) == x * (-y); }
  }

  lemma MulAtLeast(x: int, y: nat)
    ensures x >= 1 ==> x * y >= y
    ensures x >= 2 ==> x * y >= 2 * y
  {
    if x >= 1 {
      assert x * y == y + (x - 1) * y;
    }
  }

  /** `round(float(memory) / procs)`, the memory each import worker gets;
      no process at all ends the run with a division by zero. */
  function PerProcMemory(memory: int, procs: int): (r: Result<int, BudgetError>)
    ensures procs == 0 <==> r == Err(ZeroDivision)
    ensures r.Ok? ==> 2 * Abs(memory - r.value * procs) <= Abs(procs)
    ensures r.Ok? ==> r.value == RoundDiv(memory, procs)
  {
    if procs == 0 then Err(ZeroDivision) else Ok(RoundDiv(memory, procs))
  }

  /** After the newer start-up check, the import never runs more processes
      than the host has CPUs, and its memory option is at most free RAM. */
  lemma NewerBudgetWithinHost(nprocs: int, memory: int, cpuCount: nat, freeRam: nat, units: nat)
    ensures EffectiveProcs(units, Clamp(nprocs, cpuCount)) <= cpuCount
    ensures Clamp(memory, freeRam) <= freeRam
    ensures EffectiveProcs(units, Clamp(nprocs, cpuCount)) <= units
  {
  }

  /** What the parallel imports request together: each of the `procs`
      workers gets the rounded share of the clamped memory, so the total
      exceeds free RAM by at most half a megabyte per process. */
  lemma NewerMemoryWithinHost(nprocs: int, memory: int, cpuCount: nat, freeRam: nat, units: nat)
    requires EffectiveProcs(units, Clamp(nprocs, cpuCount)) > 0
    ensures var procs := EffectiveProcs(units, Clamp(nprocs, cpuCount));
      var share := PerProcMemory(Clamp(memory, freeRam), procs);
      share.Ok? && 2 * (procs * share.value) <= 2 * freeRam + procs
  {
    var procs := EffectiveProcs(units, Clamp(nprocs, cpuCount));
    var m := Clamp(memory, freeRam);
    var q := RoundDiv(m, procs);
    assert 2 * Abs(m - q * procs) <= procs;
    assert procs * q == q * procs;
  }

  /** The rounding can take the total past free RAM: 7 MB free on two
      processes gives each round(3.5) = 4 MB, 8 MB in all. */
  lemma RoundingMayExceedFree()
    ensures PerProcMemory(Clamp(10, 7), EffectiveProcs(5, Clamp(2, 4))) == Ok(4)
    ensures 2 * 4 > 7
  {
    RoundDivUnique(7, 2, 4);
  }

  /** The legacy check leaves an oversubscribed process count in place:
      eight requested processes on four CPUs with ten scenes run eight
      imports at once. */
  lemma LegacyMayOversubscribe()
    ensures EffectiveProcs(10, 8) == 8 > 4
    ensures EffectiveProcs(10, Clamp(8, 4)) == 4
  {
  }

  /** With 10000 MB requested and 4000 MB free, the per-process share is
      taken from 4000 MB: three imports get 1333 MB each. */
  lemma MemoryClampExample()
    ensures Clamp(10000, 4000) == 4000
    ensures PerProcMemory(Clamp(10000, 4000), 3) == Ok(1333)
  {
    RoundDivUnique(4000, 3, 1333);
  }

  /** Ties go to the even neighbour, as Python's `round` does: 2.5 and 3.5
      round to 2 and 4. */
  lemma RoundHalfEvenExamples()
    ensures RoundDiv(5, 2) == 2 && RoundDiv(7, 2) == 4 && RoundDiv(-5, 2) == -2
  {
    RoundDivUnique(5, 2, 2);
    RoundDivUnique(7, 2, 4);
    RoundDivUnique(-5, 2, -2);
  }

  /** The legacy script counts the comma-separated scene names, of which there
      is always at least one, so it divides by zero only when nprocs is 0;
      the newer script counts directory entries, which may be none. */
  lemma ZeroDivisionCases(units: nat, nprocs: int, memory: int)
    ensures PerProcMemory(memory, EffectiveProcs(units, nprocs)).Err? <==> (units == 0 && nprocs >= 0) || nprocs == 0
  {
  }
}
