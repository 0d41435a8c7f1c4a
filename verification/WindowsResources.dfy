/**
 CPU limits on Windows: validation that resolves conflicts in place (moby/daemon/daemon_windows.go) and
 the conversion of a fractional CPU request into the narrow fields of the runtime spec
 (moby/daemon/oci_windows.go).
 */
module WindowsResources {
  import opened Wrappers
  import Prefixes

  const MAX_CPU_SHARES := 10000
  const MAX_CPU_PERCENT := 100
  const NANO := 1_000_000_000
  /** NanoCPUs per unit of the maximum, which counts ten-thousandths of a CPU. */
  const UNIT := 100_000

  datatype Error = BadShares | BadPercent | BadCount | PercentConflict | SharesConflict | BadNanoCPUs

  function Uint16(x: int): (r: int)
    ensures 0 <= r < 0x1_0000
    ensures 0 <= x < 0x1_0000 ==> r == x
  {
    x % 0x1_0000
  }

  function Uint64(x: int): (r: int)
    ensures 0 <= r < 0x1_0000_0000_0000_0000
    ensures 0 <= x < 0x1_0000_0000_0000_0000 ==> r == x
  {
    x % 0x1_0000_0000_0000_0000
  }

  predicate Int64(x: int) {
    -0x8000_0000_0000_0000 <= x <= 0x7fff_ffff_ffff_ffff
  }

  /** The CPU fields of a request. */
  datatype Cpu = Cpu(count: int, shares: int, percent: int, nano: int)

  predicate InRange(c: Cpu) {
    Int64(c.count) && Int64(c.shares) && Int64(c.percent) && Int64(c.nano)
  }

  /** What validation leaves of a request: under process isolation one control wins over the lesser ones. */
  function Resolved(c: Cpu, isHyperV: bool): Cpu {
    if isHyperV then c
    else if c.count > 0 then
      c.(shares := if c.shares > 0 then 0 else c.shares, percent := if c.percent > 0 then 0 else c.percent)
    else if c.shares > 0 then c.(percent := if c.percent > 0 then 0 else c.percent)
    else c
  }

  /** A request that can be carried out as it stands. */
  predicate Acceptable(c: Cpu, isHyperV: bool, numCPU: int) {
    && 0 <= c.shares <= MAX_CPU_SHARES && 0 <= c.percent <= MAX_CPU_PERCENT && 0 <= c.count
    && 0 <= c.nano <= numCPU * NANO
    && (c.nano > 0 ==> c.percent == 0 && c.shares == 0)
    && (!isHyperV ==>
          !(c.count > 0 && c.shares > 0) && !(c.count > 0 && c.percent > 0) && !(c.shares > 0 && c.percent > 0))
  }

  /** Under process isolation the strongest control set wins: count over shares over percent. */
  lemma StrongestControlWins(c: Cpu, isHyperV: bool)
    ensures var r := Resolved(c, isHyperV);
            && r.count == c.count && r.nano == c.nano
            && (isHyperV ==> r == c)
            && (c.count > 0 && !isHyperV ==> r.shares <= 0 && r.percent <= 0)
            && (c.count <= 0 ==> r.shares == c.shares)
            && (c.count <= 0 && c.shares > 0 && !isHyperV ==> r.percent <= 0)
            && (c.count <= 0 && c.shares <= 0 ==> r.percent == c.percent)
            && (c.shares <= 0 ==> r.shares == c.shares) && (c.percent <= 0 ==> r.percent == c.percent)
            && (r.shares == c.shares || r.shares == 0) && (r.percent == c.percent || r.percent == 0)
  {
  }

  /** The requests that are accepted, in numbers and before conflicts are resolved. */
  lemma AcceptedRequests(c: Cpu, isHyperV: bool, numCPU: int)
    ensures Acceptable(Resolved(c, isHyperV), isHyperV, numCPU) <==>
              && c.count >= 0 && 0 <= c.nano <= numCPU * 1_000_000_000
              && 0 <= c.shares && (c.count == 0 || isHyperV ==> c.shares <= 10000)
              && 0 <= c.percent && ((c.count == 0 && c.shares == 0) || isHyperV ==> c.percent <= 100)
              && (c.nano > 0 ==>
                    && (c.shares == 0 || (c.count > 0 && !isHyperV))
                    && (c.percent == 0 || (c.count > 0 && !isHyperV)))
  {
  }

  datatype SpecCpu = SpecCpu(maximum: int, shares: int, count: int)

  /** n CPUs at `maximum` ten-thousandths are the largest such limit within the request, or the smallest there is. */
  predicate Approximates(nano: int, n: int, maximum: int) {
    && 1 <= maximum <= 10000
    && (n * maximum * 100_000 <= nano || (maximum == 1 && nano < n * 100_000))
    && nano < n * (maximum + 1) * 100_000
  }

  class Resources {
    var cpuCount: int
    var cpuShares: int
    var cpuPercent: int
    var nanoCPUs: int

    function View(): Cpu
      reads this
    {
      Cpu(cpuCount, cpuShares, cpuPercent, nanoCPUs)
    }

    method VerifyPlatformContainerResources(isHyperV: bool, numCPU: int) returns (r: Result<(), Error>)
      requires 0 < numCPU && Int64(numCPU * NANO)
      modifies this
      ensures View() == Resolved(old(View()), isHyperV)
      ensures r.Ok? <==> Acceptable(View(), isHyperV, numCPU)
      ensures r.Err? ==>
                match r.error
                case BadShares => !(0 <= cpuShares <= 10000)
                case BadPercent => !(0 <= cpuPercent <= 100)
                case BadCount => cpuCount < 0
                case PercentConflict => nanoCPUs > 0 && cpuPercent > 0
                case SharesConflict => nanoCPUs > 0 && cpuShares > 0
                case BadNanoCPUs => nanoCPUs < 0 || nanoCPUs > numCPU * 1_000_000_000
    {
      if !isHyperV {
        if cpuCount > 0 {
          if cpuShares > 0 {
            cpuShares := 0;
          }
          if cpuPercent > 0 {
            cpuPercent := 0;
          }
        } else if cpuShares > 0 {
          if cpuPercent > 0 {
            cpuPercent := 0;
          }
        }
      }
      if cpuShares < 0 || cpuShares > MAX_CPU_SHARES {
        return Err(BadShares);
      }
      if cpuPercent < 0 || cpuPercent > MAX_CPU_PERCENT {
        return Err(BadPercent);
      }
      if cpuCount < 0 {
        return Err(BadCount);
      }
      if nanoCPUs > 0 && cpuPercent > 0 {
        return Err(PercentConflict);
      }
      if nanoCPUs > 0 && cpuShares > 0 {
        return Err(SharesConflict);
      }
      if nanoCPUs != 0 {
        if nanoCPUs < 0 || nanoCPUs > numCPU * NANO {
          return Err(BadNanoCPUs);
        }
      }
      return Ok(());
    }

    /**
     The CPU part of setResourcesInSpec. For a request that validation accepts nothing is cut off by the
     narrow types, and a fractional request is approximated from below to a ten-thousandth of a CPU.
     */
    method SetResourcesInSpec(isHyperV: bool, numCPU: int) returns (cpu: SpecCpu)
      requires 0 < numCPU && Int64(numCPU * NANO) && InRange(View())
      ensures 0 <= cpu.maximum < 0x1_0000 && 0 <= cpu.shares < 0x1_0000 && 0 <= cpu.count < 0x1_0000_0000_0000_0000
      ensures Acceptable(View(), isHyperV, numCPU) ==> cpu.shares == cpuShares
      ensures Acceptable(View(), isHyperV, numCPU) && nanoCPUs == 0 ==>
                cpu.maximum == cpuPercent * 100 && cpu.count == cpuCount
      ensures Acceptable(View(), isHyperV, numCPU) && nanoCPUs > 0 && !isHyperV ==>
                cpu.count == cpuCount && Approximates(nanoCPUs, numCPU, cpu.maximum)
      ensures Acceptable(View(), isHyperV, numCPU) && nanoCPUs > 0 && isHyperV ==>
                && (cpu.count - 1) * NANO < nanoCPUs <= cpu.count * NANO
                && (if nanoCPUs % NANO == 0 then cpu.maximum == 0 else Approximates(nanoCPUs, cpu.count, cpu.maximum))
    {
      var maximum := Uint16(Uint16(cpuPercent) * 100);
      var count := Uint64(cpuCount);
      if nanoCPUs > 0 {
        if isHyperV {
          count := Uint64(nanoCPUs / NANO);
          if nanoCPUs % NANO != 0 {
            count := Uint64(count + 1);
            NestedDivision(nanoCPUs, count);
            maximum := Uint16(nanoCPUs / count / UNIT);
            if maximum < 1 {
              maximum := 1;
            }
          }
        } else {
          NestedDivision(nanoCPUs, numCPU);
          maximum := Uint16(nanoCPUs / numCPU / UNIT);
          if maximum < 1 {
            maximum := 1;
          }
        }
      }
      cpu := SpecCpu(maximum, Uint16(cpuShares), count);
    }
  }

  /** Dividing by the CPU count and then by the unit is one division by their product. */
  lemma NestedDivision(nano: int, n: int)
    requires nano > 0 && n > 0
    ensures var q := nano / n / UNIT;
            q >= 0 && n * q * UNIT <= nano < n * (q + 1) * UNIT
    ensures nano <= n * NANO ==> nano / n / UNIT <= 10000
  {
    Prefixes.DivDiv(nano, n, UNIT);
    var d, q := n * UNIT, nano / n / UNIT;
    assert nano == d * q + nano % d;
    assert d * q == n * q * UNIT;
    assert d * (q + 1) == n * (q + 1) * UNIT == d * q + d;
    assert q >= 0;
    if nano <= n * NANO && q > 10000 {
      Prefixes.MulMonotone(d, 10001, q);
    }
  }
}
