/** The bounded output of a health probe (moby/daemon/health.go). */
module ProbeOutput {

  const MAX_OUTPUT_LEN := 4096

  function Kept(data: string): string {
    if |data| <= MAX_OUTPUT_LEN then data else data[..MAX_OUTPUT_LEN]
  }

  class LimitedBuffer {
    var buf: string
    var truncated: bool
    ghost var written: string

    /** The buffer holds what fits of everything written, and remembers whether anything was lost. */
    ghost predicate Valid()
      reads this
    {
      buf == Kept(written) && (truncated <==> |written| > MAX_OUTPUT_LEN)
    }

    constructor ()
      ensures Valid() && written == ""
    {
      buf, truncated, written := "", false, "";
    }

    /** Every write is reported as complete, whatever was kept of it. */
    method Write(data: string) returns (n: nat)
      requires Valid()
      modifies this
      ensures Valid() && written == old(written) + data && n == |data|
    {
      var room := MAX_OUTPUT_LEN - |buf|;
      var keep := if room < |data| then room else |data|;
      if keep > 0 {
        buf := buf + data[..keep];
      }
      if keep < |data| {
        truncated := true;
      }
      written := written + data;
      n := |data|;
    }

    method String() returns (out: string)
      requires Valid()
      ensures out == if |written| <= 4096 then written else written[..4096] + "..."
    {
      out := buf;
      if truncated {
        out := out + "...";
      }
    }
  }
}
