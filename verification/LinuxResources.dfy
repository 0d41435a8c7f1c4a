/**
 Resource limits on Linux (moby/daemon/daemon_unix.go): validation that discards what the kernel cannot
 enforce, the memory defaults applied after it, and the CPU bandwidth computed from NanoCPUs.
 Integers are 64-bit two's complement where the code multiplies.
 */
module LinuxResources {
  import opened Wrappers

  const MIN_MEMORY := 6291456
  const NANO := 1_000_000_000
  const CFS_PERIOD := 100_000

  predicate Int64(x: int) {
    -0x8000_0000_0000_0000 <= x <= 0x7fff_ffff_ffff_ffff
  }

  /** The value a 64-bit product or sum wraps to. */
  function Wrap(x: int): (r: int)
    ensures Int64(r)
    ensures Int64(x) ==> r == x
  {
    (x + 0x8000_0000_0000_0000) % 0x1_0000_0000_0000_0000 - 0x8000_0000_0000_0000
  }

  /** Go's division, which truncates toward zero. */
  function Quotient(x: int, d: int): int
    requires d > 0
  {
    if x >= 0 then x / d else -(-x / d)
  }

  datatype MemoryLimits = MemoryLimits(
    memory: int, swap: int, swappiness: Option<int>, reservation: int, oomKillDisable: Option<bool>,
    pidsLimit: Option<int>)

  datatype CpuLimits = CpuLimits(
    nano: int, period: int, quota: int, shares: int, percent: int, cpus: string, mems: string)

  datatype BlkioLimits = BlkioLimits(
    weight: nat, ioBandwidth: nat, ioOps: nat,
    weightDevice: seq<string>, readBps: seq<string>, writeBps: seq<string>,
    readIOps: seq<string>, writeIOps: seq<string>)

  datatype Resources = Resources(mem: MemoryLimits, cpu: CpuLimits, blkio: BlkioLimits)

  /** What the kernel supports. */
  datatype MemoryInfo = MemoryInfo(
    limit: bool, swapLimit: bool, swappiness: bool, reservation: bool, oomKillDisable: bool, pidsLimit: bool)

  /** The cpuset checks answer None if their argument does not parse. */
  datatype CpuInfo = CpuInfo(
    shares: bool, cfs: bool, cpuset: bool,
    cpusAvailable: string -> Option<bool>, memsAvailable: string -> Option<bool>)

  datatype BlkioInfo = BlkioInfo(
    weight: bool, weightDevice: bool, readBps: bool, writeBps: bool, readIOps: bool, writeIOps: bool)

  datatype SysInfo = SysInfo(mem: MemoryInfo, cpu: CpuInfo, blkio: BlkioInfo)

  // ---- what validation means ----

  function EnforceableMemory(m: MemoryLimits, sys: MemoryInfo): MemoryLimits {
    var unlimited := m.memory > 0 && !sys.limit;
    MemoryLimits(
      if unlimited then 0 else m.memory,
      if unlimited || (m.memory > 0 && !sys.swapLimit) then -1 else m.swap,
      if m.swappiness == Some(-1) || !sys.swappiness then None else m.swappiness,
      if m.reservation > 0 && !sys.reservation then 0 else m.reservation,
      if sys.oomKillDisable then m.oomKillDisable else None,
      if sys.pidsLimit then m.pidsLimit else None)
  }

  function EnforceableCpu(c: CpuLimits, sys: CpuInfo): CpuLimits {
    CpuLimits(
      c.nano,
      if sys.cfs then c.period else 0,
      if sys.cfs then c.quota else 0,
      if c.shares > 0 && !sys.shares then 0 else c.shares,
      if c.percent > 0 then 0 else c.percent,
      if sys.cpuset then c.cpus else "",
      if sys.cpuset then c.mems else "")
  }

  function EnforceableBlkio(b: BlkioLimits, sys: BlkioInfo): BlkioLimits {
    BlkioLimits(
      if sys.weight then b.weight else 0, b.ioBandwidth, b.ioOps,
      if sys.weightDevice then b.weightDevice else [],
      if sys.readBps then b.readBps else [],
      if sys.writeBps then b.writeBps else [],
      if sys.readIOps then b.readIOps else [],
      if sys.writeIOps then b.writeIOps else [])
  }

  /** A request with everything the kernel cannot enforce discarded. */
  function Enforceable(r: Resources, sys: SysInfo): Resources {
    Resources(EnforceableMemory(r.mem, sys.mem), EnforceableCpu(r.cpu, sys.cpu), EnforceableBlkio(r.blkio, sys.blkio))
  }

  predicate MemoryOk(m: MemoryLimits, update: bool) {
    && (m.memory == 0 || m.memory >= MIN_MEMORY)
    && (m.memory > 0 && m.swap > 0 ==> m.memory <= m.swap)
    && (m.memory == 0 && m.swap > 0 ==> update)
    && (m.swappiness.Some? ==> 0 <= m.swappiness.value <= 100)
    && (m.reservation > 0 ==> m.reservation >= MIN_MEMORY)
    && (m.memory > 0 && m.reservation > 0 ==> m.memory >= m.reservation)
  }

  predicate CpuOk(c: CpuLimits, sys: CpuInfo, numCPU: nat) {
    && (c.nano > 0 ==> c.period <= 0 && c.quota <= 0 && sys.cfs)
    && 0 <= c.nano <= numCPU * NANO
    && (c.period == 0 || 1000 <= c.period <= 1000000)
    && (c.quota > 0 ==> c.quota >= 1000)
    && sys.cpusAvailable(c.cpus) == Some(true)
    && sys.memsAvailable(c.mems) == Some(true)
  }

  predicate BlkioOk(b: BlkioLimits) {
    (b.weight > 0 ==> 10 <= b.weight <= 1000) && b.ioBandwidth == 0 && b.ioOps == 0
  }

  /** A request the daemon can carry out as it stands. */
  predicate Consistent(r: Resources, sys: SysInfo, update: bool, numCPU: nat) {
    MemoryOk(r.mem, update) && CpuOk(r.cpu, sys.cpu, numCPU) && BlkioOk(r.blkio)
  }

  /** The minimum applies to the memory asked for, even where it is then discarded. */
  predicate Accepted(r: Resources, sys: SysInfo, update: bool, numCPU: nat) {
    (r.mem.memory == 0 || r.mem.memory >= MIN_MEMORY) && Consistent(Enforceable(r, sys), sys, update, numCPU)
  }

  /** What the kernel supports is kept as asked for. */
  lemma SupportedIsKept(r: Resources, sys: SysInfo)
    ensures var e := Enforceable(r, sys);
            && (sys.mem.limit ==> e.mem.memory == r.mem.memory)
            && (sys.mem.limit && sys.mem.swapLimit ==> e.mem.swap == r.mem.swap)
            && (r.mem.memory <= 0 ==> e.mem.memory == r.mem.memory && e.mem.swap == r.mem.swap)
            && (sys.mem.swappiness && r.mem.swappiness != Some(-1) ==> e.mem.swappiness == r.mem.swappiness)
            && (sys.mem.reservation ==> e.mem.reservation == r.mem.reservation)
            && (sys.mem.oomKillDisable ==> e.mem.oomKillDisable == r.mem.oomKillDisable)
            && (sys.mem.pidsLimit ==> e.mem.pidsLimit == r.mem.pidsLimit)
            && e.cpu.nano == r.cpu.nano
            && (sys.cpu.cfs ==> e.cpu.period == r.cpu.period && e.cpu.quota == r.cpu.quota)
            && (sys.cpu.shares ==> e.cpu.shares == r.cpu.shares)
            && (sys.cpu.cpuset ==> e.cpu.cpus == r.cpu.cpus && e.cpu.mems == r.cpu.mems)
            && (sys.blkio.weight ==> e.blkio.weight == r.blkio.weight)
            && (sys.blkio.weightDevice ==> e.blkio.weightDevice == r.blkio.weightDevice)
            && (sys.blkio.readBps ==> e.blkio.readBps == r.blkio.readBps)
            && (sys.blkio.writeBps ==> e.blkio.writeBps == r.blkio.writeBps)
            && (sys.blkio.readIOps ==> e.blkio.readIOps == r.blkio.readIOps)
            && (sys.blkio.writeIOps ==> e.blkio.writeIOps == r.blkio.writeIOps)
  {
  }

  /** What the kernel does not support is as if it had not been asked for. */
  lemma UnsupportedIsDropped(r: Resources, sys: SysInfo)
    ensures var e := Enforceable(r, sys);
            && (!sys.mem.limit ==> e.mem.memory <= 0 && (r.mem.memory > 0 ==> e.mem.swap == -1))
            && (!sys.mem.swapLimit && r.mem.memory > 0 ==> e.mem.swap == -1)
            && (!sys.mem.swappiness || r.mem.swappiness == Some(-1) ==> e.mem.swappiness.None?)
            && (!sys.mem.reservation ==> e.mem.reservation <= 0)
            && (!sys.mem.oomKillDisable ==> e.mem.oomKillDisable.None?)
            && (!sys.mem.pidsLimit ==> e.mem.pidsLimit.None?)
            && (!sys.cpu.cfs ==> e.cpu.period == 0 && e.cpu.quota == 0)
            && (!sys.cpu.shares ==> e.cpu.shares <= 0) && e.cpu.percent <= 0
            && (!sys.cpu.cpuset ==> e.cpu.cpus == "" && e.cpu.mems == "")
            && (!sys.blkio.weight ==> e.blkio.weight == 0)
            && (!sys.blkio.weightDevice ==> e.blkio.weightDevice == [])
            && (!sys.blkio.readBps ==> e.blkio.readBps == []) && (!sys.blkio.writeBps ==> e.blkio.writeBps == [])
            && (!sys.blkio.readIOps ==> e.blkio.readIOps == []) && (!sys.blkio.writeIOps ==> e.blkio.writeIOps == [])
  {
  }

  /** Every limit the kernel knows is supported. */
  predicate Full(sys: SysInfo) {
    && sys.mem == MemoryInfo(true, true, true, true, true, true)
    && sys.blkio == BlkioInfo(true, true, true, true, true, true)
    && sys.cpu.shares && sys.cpu.cfs && sys.cpu.cpuset
  }

  /** On such a kernel, the requests that are accepted on creation, in numbers. */
  lemma AcceptedOnFullKernel(r: Resources, sys: SysInfo, numCPU: nat)
    requires Full(sys)
    ensures Accepted(r, sys, false, numCPU) <==>
              && (r.mem.memory == 0 || r.mem.memory >= 6 * 1024 * 1024)
              && (r.mem.swap > 0 ==> r.mem.memory > 0 && r.mem.memory <= r.mem.swap)
              && (r.mem.swappiness.Some? ==> -1 <= r.mem.swappiness.value <= 100)
              && (r.mem.reservation > 0 ==>
                    r.mem.reservation >= 6 * 1024 * 1024 && (r.mem.memory > 0 ==> r.mem.reservation <= r.mem.memory))
              && 0 <= r.cpu.nano <= numCPU * 1_000_000_000
              && (r.cpu.nano > 0 ==> r.cpu.period == 0 && r.cpu.quota <= 0)
              && (r.cpu.period != 0 ==> 1000 <= r.cpu.period <= 1000000)
              && (r.cpu.quota > 0 ==> r.cpu.quota >= 1000)
              && sys.cpu.cpusAvailable(r.cpu.cpus) == Some(true) && sys.cpu.memsAvailable(r.cpu.mems) == Some(true)
              && (r.blkio.weight == 0 || 10 <= r.blkio.weight <= 1000)
              && r.blkio.ioBandwidth == 0 && r.blkio.ioOps == 0
  {
  }

  // ---- the code ----

  class HostConfig {
    var mem: MemoryLimits
    var cpu: CpuLimits
    var blkio: BlkioLimits
    var shmSize: int

    function View(): Resources
      reads this
    {
      Resources(mem, cpu, blkio)
    }

    method VerifyMemoryAndSwap(sys: MemoryInfo, update: bool) returns (ok: bool)
      modifies this`mem
      ensures ok <==>
                && (old(mem).memory == 0 || old(mem).memory >= MIN_MEMORY)
                && var e := EnforceableMemory(old(mem), sys);
                   (e.memory > 0 && e.swap > 0 ==> e.memory <= e.swap) && (e.memory == 0 && e.swap > 0 ==> update)
      ensures ok ==>
                var e := EnforceableMemory(old(mem), sys);
                mem == old(mem).(memory := e.memory, swap := e.swap)
    {
      if mem.memory != 0 && mem.memory < MIN_MEMORY {
        return false;
      }
      if mem.memory > 0 && !sys.limit {
        mem := mem.(memory := 0, swap := -1);
      }
      if mem.memory > 0 && mem.swap != -1 && !sys.swapLimit {
        mem := mem.(swap := -1);
      }
      if mem.memory > 0 && mem.swap > 0 && mem.swap < mem.memory {
        return false;
      }
      if mem.memory == 0 && mem.swap > 0 && !update {
        return false;
      }
      return true;
    }

    method VerifySwappiness(sys: MemoryInfo) returns (ok: bool)
      modifies this`mem
      ensures var s := if old(mem).swappiness.Some? && !sys.swappiness then None else old(mem).swappiness;
              && (ok <==> (s.Some? ==> 0 <= s.value <= 100))
              && (ok ==> mem == old(mem).(swappiness := s))
    {
      if mem.swappiness.Some? && !sys.swappiness {
        mem := mem.(swappiness := None);
      }
      if mem.swappiness.Some? {
        var swappiness := mem.swappiness.value;
        if swappiness < 0 || swappiness > 100 {
          return false;
        }
      }
      return true;
    }

    method VerifyMemory(sys: MemoryInfo, update: bool) returns (ok: bool)
      modifies this`mem
      ensures ok <==>
                && (old(mem).memory == 0 || old(mem).memory >= MIN_MEMORY)
                && MemoryOk(EnforceableMemory(old(mem), sys), update)
      ensures ok ==> mem == EnforceableMemory(old(mem), sys)
    {
      if mem.swappiness == Some(-1) {
        mem := mem.(swappiness := None);
      }
      ok := VerifyMemoryAndSwap(sys, update);
      if !ok {
        return;
      }
      ok := VerifySwappiness(sys);
      if !ok {
        return;
      }
      if mem.reservation > 0 && !sys.reservation {
        mem := mem.(reservation := 0);
      }
      if mem.reservation > 0 && mem.reservation < MIN_MEMORY {
        return false;
      }
      if mem.memory > 0 && mem.reservation > 0 && mem.memory < mem.reservation {
        return false;
      }
      if mem.oomKillDisable.Some? && !sys.oomKillDisable {
        mem := mem.(oomKillDisable := None);
      }
      if mem.pidsLimit.Some? && !sys.pidsLimit {
        mem := mem.(pidsLimit := None);
      }
      return true;
    }

    method VerifyCpu(sys: CpuInfo, numCPU: nat) returns (ok: bool)
      requires Int64(numCPU * NANO)
      modifies this`cpu
      ensures ok <==> CpuOk(EnforceableCpu(old(cpu), sys), sys, numCPU)
      ensures ok ==> cpu == EnforceableCpu(old(cpu), sys)
    {
      if cpu.nano > 0 && cpu.period > 0 {
        return false;
      }
      if cpu.nano > 0 && cpu.quota > 0 {
        return false;
      }
      if cpu.nano > 0 && !sys.cfs {
        return false;
      }
      if cpu.nano != 0 {
        if cpu.nano < 0 || cpu.nano > numCPU * NANO {
          return false;
        }
      }
      if cpu.shares > 0 && !sys.shares {
        cpu := cpu.(shares := 0);
      }
      if (cpu.period != 0 || cpu.quota != 0) && !sys.cfs {
        cpu := cpu.(period := 0, quota := 0);
      }
      if cpu.period != 0 && (cpu.period < 1000 || cpu.period > 1000000) {
        return false;
      }
      if cpu.quota > 0 && cpu.quota < 1000 {
        return false;
      }
      if cpu.percent > 0 {
        cpu := cpu.(percent := 0);
      }
      if (cpu.cpus != "" || cpu.mems != "") && !sys.cpuset {
        cpu := cpu.(cpus := "", mems := "");
      }
      var cpusOk := sys.cpusAvailable(cpu.cpus);
      if cpusOk.None? || !cpusOk.value {
        return false;
      }
      var memsOk := sys.memsAvailable(cpu.mems);
      if memsOk.None? || !memsOk.value {
        return false;
      }
      return true;
    }

    method VerifyBlkio(sys: BlkioInfo) returns (ok: bool)
      modifies this`blkio
      ensures ok <==> BlkioOk(EnforceableBlkio(old(blkio), sys))
      ensures ok ==> blkio == EnforceableBlkio(old(blkio), sys)
    {
      if blkio.weight > 0 && !sys.weight {
        blkio := blkio.(weight := 0);
      }
      if blkio.weight > 0 && (blkio.weight < 10 || blkio.weight > 1000) {
        return false;
      }
      if blkio.ioBandwidth != 0 || blkio.ioOps != 0 {
        return false;
      }
      if |blkio.weightDevice| > 0 && !sys.weightDevice {
        blkio := blkio.(weightDevice := []);
      }
      if |blkio.readBps| > 0 && !sys.readBps {
        blkio := blkio.(readBps := []);
      }
      if |blkio.writeBps| > 0 && !sys.writeBps {
        blkio := blkio.(writeBps := []);
      }
      if |blkio.readIOps| > 0 && !sys.readIOps {
        blkio := blkio.(readIOps := []);
      }
      if |blkio.writeIOps| > 0 && !sys.writeIOps {
        blkio := blkio.(writeIOps := []);
      }
      return true;
    }

    /** Validation accepts exactly the consistent requests, and leaves what can be enforced. */
    method VerifyPlatformContainerResources(sys: SysInfo, update: bool, numCPU: nat) returns (ok: bool)
      requires Int64(numCPU * NANO)
      modifies this`mem, this`cpu, this`blkio
      ensures ok <==> Accepted(old(View()), sys, update, numCPU)
      ensures ok ==> View() == Enforceable(old(View()), sys)
    {
      ok := VerifyMemory(sys.mem, update);
      if !ok {
        return;
      }
      ok := VerifyCpu(sys.cpu, numCPU);
      if !ok {
        return;
      }
      ok := VerifyBlkio(sys.blkio);
    }

    /** The memory part of the settings adapted after validation. */
    method AdaptContainerSettings(defaultShmSize: int)
      modifies this`mem, this`shmSize
      ensures View() == Adapted(old(View()))
      ensures shmSize == if old(shmSize) == 0 then defaultShmSize else old(shmSize)
      ensures mem.oomKillDisable == if old(mem).oomKillDisable.Some? then old(mem).oomKillDisable else Some(false)
      ensures mem.swap == if old(mem).memory > 0 && old(mem).swap == 0 then Wrap(2 * old(mem).memory) else old(mem).swap
    {
      if mem.memory > 0 && mem.swap == 0 {
        mem := mem.(swap := Wrap(mem.memory * 2));
      }
      if shmSize == 0 {
        shmSize := defaultShmSize;
      }
      if mem.oomKillDisable.None? {
        mem := mem.(oomKillDisable := Some(false));
      }
    }

    /** Creating a container validates first and fills in defaults after: a memory limit leaves a usable swap limit. */
    method VerifyThenAdapt(sys: SysInfo, numCPU: nat, defaultShmSize: int) returns (ok: bool)
      requires Int64(numCPU * NANO) && Int64(mem.memory) && Int64(mem.swap)
      modifies this
      ensures ok <==> Accepted(old(View()), sys, false, numCPU)
      ensures ok && 0 < mem.memory < 0x4000_0000_0000_0000 ==> mem.swap < 0 || mem.swap >= mem.memory
      ensures ok && 0 < mem.memory < 0x4000_0000_0000_0000 && EnforceableMemory(old(mem), sys.mem).swap >= 0 ==>
                mem.swap >= mem.memory
      ensures ok ==> cpu == EnforceableCpu(old(cpu), sys.cpu) && blkio == EnforceableBlkio(old(blkio), sys.blkio)
      ensures ok ==> mem.memory == EnforceableMemory(old(mem), sys.mem).memory
    {
      ok := VerifyPlatformContainerResources(sys, false, numCPU);
      if ok {
        if mem.memory > 0 {
          SwapCoversMemory(old(View()), sys, numCPU);
        }
        AdaptContainerSettings(defaultShmSize);
      }
    }
  }

  function Adapted(r: Resources): Resources {
    r.(mem := r.mem.(
      swap := if r.mem.memory > 0 && r.mem.swap == 0 then Wrap(r.mem.memory * 2) else r.mem.swap,
      oomKillDisable := if r.mem.oomKillDisable.None? then Some(false) else r.mem.oomKillDisable))
  }

  /** Validation run again on its own output accepts it and changes nothing. */
  lemma ValidationIsIdempotent(r: Resources, sys: SysInfo, update: bool, numCPU: nat)
    requires Accepted(r, sys, update, numCPU)
    ensures Enforceable(Enforceable(r, sys), sys) == Enforceable(r, sys)
    ensures Accepted(Enforceable(r, sys), sys, update, numCPU)
  {
  }

  /** After validation and defaults, swap is unlimited or at least memory, unless doubling memory overflows. */
  lemma SwapCoversMemory(r: Resources, sys: SysInfo, numCPU: nat)
    requires Accepted(r, sys, false, numCPU) && Int64(r.mem.memory) && Int64(r.mem.swap)
    requires Enforceable(r, sys).mem.memory > 0
    ensures var e, a := Enforceable(r, sys).mem, Adapted(Enforceable(r, sys)).mem;
            && a.memory == e.memory
            && (a.swap >= a.memory <==> e.swap > 0 || (e.swap == 0 && e.memory < 0x4000_0000_0000_0000))
            && (a.swap < a.memory ==> a.swap < 0)
            && (e.swap == 0 && e.memory < 0x4000_0000_0000_0000 ==> a.swap == 2 * e.memory)
  {
  }

  // ---- CPU bandwidth ----

  datatype LinuxCpu = LinuxCpu(shares: Option<int>, period: Option<int>, quota: Option<int>)

  /** The quota computed from NanoCPUs in 64-bit arithmetic. */
  function NanoQuota(nano: int): int {
    Quotient(Wrap(nano * CFS_PERIOD), NANO)
  }

  function GetCpuResources(r: Resources): Result<LinuxCpu, ()> {
    if r.cpu.shares < 0 then Err(())
    else
      var fromNano := LinuxCpu(if r.cpu.shares != 0 then Some(r.cpu.shares) else None,
                               if r.cpu.nano > 0 then Some(CFS_PERIOD) else None,
                               if r.cpu.nano > 0 then Some(NanoQuota(r.cpu.nano)) else None);
      var withPeriod := if r.cpu.period != 0 then fromNano.(period := Some(r.cpu.period)) else fromNano;
      Ok(if r.cpu.quota != 0 then withPeriod.(quota := Some(r.cpu.quota)) else withPeriod)
  }

  /** Without NanoCPUs, shares, period and quota are handed on as they are, and unset where zero. */
  lemma CpuFieldsPassThrough(r: Resources)
    requires r.cpu.nano <= 0
    ensures var c := GetCpuResources(r);
            && (c.Ok? <==> r.cpu.shares >= 0)
            && (c.Ok? ==>
                  && (if r.cpu.shares == 0 then c.value.shares.None? else c.value.shares == Some(r.cpu.shares))
                  && (if r.cpu.period == 0 then c.value.period.None? else c.value.period == Some(r.cpu.period))
                  && (if r.cpu.quota == 0 then c.value.quota.None? else c.value.quota == Some(r.cpu.quota)))
  {
  }

  /** The product fits in 64 bits for every request within the CPU count exactly up to 92233 CPUs. */
  lemma QuotaOverflowBound(numCPU: nat)
    requires Int64(numCPU * NANO)
    ensures (forall nano: int :: 0 <= nano <= numCPU * NANO ==> Int64(nano * CFS_PERIOD)) <==> numCPU <= 92233
  {
    if numCPU > 92233 {
      var nano := 92234 * NANO;
      assert 0 <= nano <= numCPU * NANO && !Int64(nano * CFS_PERIOD);
    } else {
      assert numCPU * NANO <= 92233 * NANO;
    }
  }

  /** An accepted CPU request becomes a quota that rounds it down, at most the CPU count's worth of the period. */
  lemma QuotaIsWithinCpus(r: Resources, sys: SysInfo, update: bool, numCPU: nat)
    requires Accepted(r, sys, update, numCPU) && r.cpu.nano > 0 && r.cpu.quota >= 0 && r.cpu.shares >= 0
    requires numCPU <= 92233
    ensures var c := GetCpuResources(Enforceable(r, sys));
            && c.Ok? && c.value.period == Some(100_000) && c.value.quota.Some?
            && (r.cpu.shares == 0 || !sys.cpu.shares ==> c.value.shares.None?)
            && (r.cpu.shares > 0 && sys.cpu.shares ==> c.value.shares == Some(r.cpu.shares))
            && var q := c.value.quota.value;
            0 <= q <= numCPU * 100_000 && q * 10_000 <= r.cpu.nano < (q + 1) * 10_000
  {
  }

  /** With any more CPUs there is an accepted request whose quota comes out negative. */
  lemma QuotaCanWrap(sys: SysInfo, update: bool, numCPU: nat) returns (r: Resources)
    requires numCPU > 92233 && Int64(numCPU * NANO)
    requires sys.cpu.cfs && sys.cpu.cpusAvailable("") == sys.cpu.memsAvailable("") == Some(true)
    ensures Accepted(r, sys, update, numCPU)
    ensures var c := GetCpuResources(Enforceable(r, sys)); c.Ok? && c.value.quota.Some? && c.value.quota.value < 0
  {
    r := Resources(
      MemoryLimits(0, 0, None, 0, None, None), CpuLimits(92234 * NANO, 0, 0, 0, 0, "", ""),
      BlkioLimits(0, 0, 0, [], [], [], [], []));
    assert NanoQuota(92234 * NANO) < 0;
  }
}
