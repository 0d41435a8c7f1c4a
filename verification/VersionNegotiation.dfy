/**
 API version negotiation of the client (moby/client/client.go) and the version order it uses
 (moby/api/types/versions/compare.go). Negotiation runs under a lock with a flag checked before and
 inside it; callers are threads whose critical section is split around the ping.
 */
module VersionNegotiation {
  import opened Wrappers

  const MAX_API_VERSION := "1.52"
  const FALLBACK_API_VERSION := "1.24"

  // ---- the order of versions ----

  predicate AllDigits(s: string) {
    forall i :: 0 <= i < |s| ==> '0' <= s[i] <= '9'
  }

  function Digits(s: string): nat
    requires AllDigits(s)
  {
    if s == "" then 0 else 10 * Digits(s[..|s| - 1]) + (s[|s| - 1] as int - '0' as int)
  }

  function Clamp(n: int): int {
    if n > 0x7fff_ffff_ffff_ffff then 0x7fff_ffff_ffff_ffff
    else if n < -0x8000_0000_0000_0000 then -0x8000_0000_0000_0000
    else n
  }

  /** `strconv.Atoi` with its error ignored: 0 for anything that is not a number, clamped out of range. */
  function Atoi(s: string): int {
    var signed := s != "" && (s[0] == '-' || s[0] == '+');
    var body := if signed then s[1..] else s;
    if body == "" || !AllDigits(body) then 0
    else Clamp(Digits(body) * if signed && s[0] == '-' then -1 else 1)
  }

  /** The numbers between the dots. */
  function Components(v: string): (parts: seq<int>)
    ensures |parts| > 0
  {
    ComponentsFrom(v, 0)
  }

  function ComponentsFrom(v: string, n: nat): (parts: seq<int>)
    requires n <= |v|
    ensures |parts| > 0
    decreases |v|, |v| - n
  {
    if n == |v| then [Atoi(v)]
    else if v[n] == '.' then [Atoi(v[..n])] + ComponentsFrom(v[n + 1..], 0)
    else ComponentsFrom(v, n + 1)
  }

  /** Missing components count as zero. */
  function Part(a: seq<int>, i: nat): int {
    if i < |a| then a[i] else 0
  }

  function Longer(a: seq<int>, b: seq<int>): nat {
    if |a| >= |b| then |a| else |b|
  }

  /** -1, 0 or 1, from the i-th component on. */
  function CompareFrom(a: seq<int>, b: seq<int>, i: nat): (r: int)
    ensures -1 <= r <= 1
    decreases Longer(a, b) - i
  {
    if i >= Longer(a, b) then 0
    else if Part(a, i) > Part(b, i) then 1
    else if Part(b, i) > Part(a, i) then -1
    else CompareFrom(a, b, i + 1)
  }

  predicate AtMost(v: string, w: string) {
    CompareFrom(Components(v), Components(w), 0) <= 0
  }

  predicate LessThan(v: string, w: string) {
    CompareFrom(Components(v), Components(w), 0) == -1
  }

  method Compare(v1: string, v2: string) returns (r: int)
    ensures r == -1 <==> LessThan(v1, v2)
    ensures r == 1 <==> LessThan(v2, v1)
    ensures -1 <= r <= 1
  {
    ComparesOpposite(Components(v1), Components(v2), 0);
    if v1 == v2 {
      return 0;
    }
    var a, b := Components(v1), Components(v2);
    var i := 0;
    while i < Longer(a, b)
      invariant 0 <= i <= Longer(a, b)
      invariant CompareFrom(a, b, 0) == CompareFrom(a, b, i)
    {
      if Part(a, i) > Part(b, i) {
        return 1;
      }
      if Part(b, i) > Part(a, i) {
        return -1;
      }
      i := i + 1;
    }
    return 0;
  }

  lemma {:induction false} ComparesOpposite(a: seq<int>, b: seq<int>, i: nat)
    ensures CompareFrom(a, b, i) == -CompareFrom(b, a, i)
    decreases Longer(a, b) - i
  {
    if i < Longer(a, b) {
      ComparesOpposite(a, b, i + 1);
    }
  }

  lemma {:induction false} AtMostTransitive(a: seq<int>, b: seq<int>, c: seq<int>, i: nat)
    requires CompareFrom(a, b, i) <= 0 && CompareFrom(b, c, i) <= 0
    ensures CompareFrom(a, c, i) <= 0
    decreases Longer(a, b) + Longer(b, c) + Longer(a, c) - i
  {
    if i < Longer(a, b) || i < Longer(b, c) || i < Longer(a, c) {
      if Part(a, i) == Part(b, i) == Part(c, i) {
        AtMostTransitive(a, b, c, i + 1);
      }
    }
  }

  /** The order is a total preorder: any two versions compare, and comparison chains. */
  lemma VersionsAreOrdered(u: string, v: string, w: string)
    ensures AtMost(v, v)
    ensures AtMost(v, w) || AtMost(w, v)
    ensures LessThan(v, w) <==> !AtMost(w, v)
    ensures AtMost(u, v) && AtMost(v, w) ==> AtMost(u, w)
  {
    ComparesOpposite(Components(v), Components(v), 0);
    ComparesOpposite(Components(v), Components(w), 0);
    if AtMost(u, v) && AtMost(v, w) {
      AtMostTransitive(Components(u), Components(v), Components(w), 0);
    }
  }

  // ---- what the order means for versions as they are written ----

  function Digit(d: nat): (c: char)
    requires d < 10
    ensures '0' <= c <= '9' && c as int - '0' as int == d
  {
    ('0' as int + d) as char
  }

  function Decimal(n: nat): string {
    if n < 10 then [Digit(n)] else Decimal(n / 10) + [Digit(n % 10)]
  }

  /** Numbers in decimal, separated by dots. */
  function Dotted(parts: seq<nat>): string
    requires parts != []
  {
    if |parts| == 1 then Decimal(parts[0]) else Decimal(parts[0]) + "." + Dotted(parts[1..])
  }

  lemma DigitsStep(s: string, c: char)
    requires AllDigits(s) && '0' <= c <= '9'
    ensures AllDigits(s + [c]) && Digits(s + [c]) == 10 * Digits(s) + (c as int - '0' as int)
  {
    assert (s + [c])[..|s|] == s;
  }

  lemma {:induction false} DecimalReads(n: nat)
    ensures AllDigits(Decimal(n)) && Decimal(n) != "" && Digits(Decimal(n)) == n
  {
    if n < 10 {
      DigitsStep("", Digit(n));
      assert "" + [Digit(n)] == [Digit(n)];
    } else {
      DecimalReads(n / 10);
      DigitsStep(Decimal(n / 10), Digit(n % 10));
    }
  }

  lemma DigitsHaveNoDot(s: string)
    requires AllDigits(s)
    ensures '.' !in s
  {
  }

  /** Numbers are read with their sign, and clamped to 64 bits. */
  lemma DecimalIsAtoi(n: nat)
    ensures n <= 0x7fff_ffff_ffff_ffff ==>
              Atoi(Decimal(n)) == Atoi("+" + Decimal(n)) == n && Atoi("-" + Decimal(n)) == 0 - n
    ensures n > 0x7fff_ffff_ffff_ffff ==> Atoi(Decimal(n)) == 0x7fff_ffff_ffff_ffff
  {
    DecimalReads(n);
    assert '0' <= Decimal(n)[0] <= '9';
    assert ("+" + Decimal(n))[1..] == ("-" + Decimal(n))[1..] == Decimal(n);
  }

  /** Anything else counts as zero. */
  lemma NotANumber(s: string, i: nat)
    requires i < |s| && !('0' <= s[i] <= '9') && (i == 0 ==> s[0] != '+' && s[0] != '-')
    ensures Atoi(s) == Atoi("") == 0
  {
    if s[0] == '+' || s[0] == '-' {
      assert s[1..][i - 1] == s[i];
    }
  }

  lemma {:induction false} LastComponent(w: string, k: nat)
    requires '.' !in w && k <= |w|
    ensures ComponentsFrom(w, k) == [Atoi(w)]
    decreases |w| - k
  {
    if k == |w| {
    } else {
      LastComponent(w, k + 1);
    }
  }

  lemma {:induction false} FirstComponent(w: string, rest: string, k: nat)
    requires '.' !in w && k <= |w|
    ensures ComponentsFrom(w + "." + rest, k) == [Atoi(w)] + Components(rest)
    decreases |w| - k
  {
    var v := w + "." + rest;
    if k == |w| {
      assert v[..k] == w && v[k + 1..] == rest;
    } else {
      assert v[k] == w[k];
      FirstComponent(w, rest, k + 1);
    }
  }

  ghost predicate Small(parts: seq<nat>) {
    forall i :: 0 <= i < |parts| ==> parts[i] <= 0x7fff_ffff_ffff_ffff
  }

  lemma ReadsOne(n: nat, rest: string)
    requires n <= 0x7fff_ffff_ffff_ffff
    ensures Components(Decimal(n)) == [n]
    ensures Components(Decimal(n) + "." + rest) == [n] + Components(rest)
  {
    DecimalReads(n);
    DecimalIsAtoi(n);
    DigitsHaveNoDot(Decimal(n));
    LastComponent(Decimal(n), 0);
    FirstComponent(Decimal(n), rest, 0);
  }

  /** Reading a version gives back the numbers it was written from. */
  lemma {:induction false} DottedReads(parts: seq<nat>)
    requires parts != [] && Small(parts)
    ensures Components(Dotted(parts)) == parts
  {
    if |parts| == 1 {
      ReadsOne(parts[0], "");
    } else {
      DottedReads(parts[1..]);
      ReadsOne(parts[0], Dotted(parts[1..]));
      assert parts == [parts[0]] + parts[1..];
    }
  }

  lemma {:induction false} FirstDifferenceDecides(a: seq<int>, b: seq<int>, i: nat, k: nat)
    requires k <= i < |a| && i < |b| && a[i] < b[i] && forall j :: 0 <= j < i ==> a[j] == b[j]
    ensures CompareFrom(a, b, k) == -1
    decreases i - k
  {
    if k == i {
    } else {
      FirstDifferenceDecides(a, b, i, k + 1);
    }
  }

  /** Versions compare as numbers, component by component: 1.9 is older than 1.10. */
  lemma VersionsCompareAsNumbers(a: seq<nat>, b: seq<nat>, i: nat)
    requires Small(a) && Small(b) && i < |a| && i < |b| && a[i] < b[i] && forall j :: 0 <= j < i ==> a[j] == b[j]
    ensures LessThan(Dotted(a), Dotted(b)) && !AtMost(Dotted(b), Dotted(a))
  {
    DottedReads(a);
    DottedReads(b);
    FirstDifferenceDecides(Components(Dotted(a)), Components(Dotted(b)), i, 0);
    VersionsAreOrdered(Dotted(a), Dotted(a), Dotted(b));
  }

  lemma {:induction false} ZerosDoNotCount(a: seq<int>, b: seq<int>, k: nat)
    requires |a| <= |b| && (forall j :: 0 <= j < |a| ==> a[j] == b[j]) && forall j :: |a| <= j < |b| ==> b[j] == 0
    ensures CompareFrom(a, b, k) == 0
    decreases |b| - k
  {
    if k >= |b| {
    } else {
      ZerosDoNotCount(a, b, k + 1);
    }
  }

  /** Missing components count as zero: 1.24 and 1.24.0 are the same version. */
  lemma TrailingZero(a: seq<nat>)
    requires a != [] && Small(a)
    ensures AtMost(Dotted(a), Dotted(a + [0])) && AtMost(Dotted(a + [0]), Dotted(a))
  {
    DottedReads(a);
    DottedReads(a + [0]);
    ZerosDoNotCount(Components(Dotted(a)), Components(Dotted(a + [0])), 0);
    ComparesOpposite(Components(Dotted(a)), Components(Dotted(a + [0])), 0);
  }

  // ---- applying a ping ----

  /** A leading "v" is dropped, and a ping without a version counts as 1.24; negotiation starts at the latest. */
  lemma PingVersionMeans(w: string)
    ensures w != "" ==> PingVersion("v" + w) == w
    ensures w != "" && w[0] != 'v' ==> PingVersion(w) == w
    ensures PingVersion("") == PingVersion("v") == "1.24"
    ensures StartVersion(w) == if w == "" then "1.52" else w
  {
    assert ("v" + w)[1..] == w && "v"[1..] == "";
  }

  /** A ping's version without its leading "v"; no version at all means the last one before negotiation. */
  function PingVersion(ping: string): string {
    var v := if ping != "" && ping[0] == 'v' then ping[1..] else ping;
    if v == "" then FALLBACK_API_VERSION else v
  }

  /** The version negotiation starts from. */
  function StartVersion(v: string): string {
    if v == "" then MAX_API_VERSION else v
  }

  function Downgraded(version: string, ping: string): string {
    if LessThan(PingVersion(ping), StartVersion(version)) then PingVersion(ping) else StartVersion(version)
  }

  class Client {
    const manualOverride: bool
    const negotiateVersion: bool
    var version: string
    var negotiated: bool

    method NegotiateAPIVersionPing(ping: string)
      modifies this
      ensures version == Downgraded(old(version), ping)
      ensures AtMost(version, PingVersion(ping)) && AtMost(version, StartVersion(old(version)))
      ensures negotiated == (old(negotiated) || negotiateVersion)
    {
      VersionsAreOrdered(version, PingVersion(ping), StartVersion(version));
      VersionsAreOrdered(version, StartVersion(version), StartVersion(version));
      VersionsAreOrdered(version, PingVersion(ping), PingVersion(ping));
      var pingVersion := if ping != "" && ping[0] == 'v' then ping[1..] else ping;
      if pingVersion == "" {
        pingVersion := FALLBACK_API_VERSION;
      }
      if version == "" {
        version := MAX_API_VERSION;
      }
      var c := Compare(pingVersion, version);
      if c == -1 {
        version := pingVersion;
      }
      if negotiateVersion {
        negotiated := true;
      }
    }

    /** A check by itself: `ping` is the server's answer, None if it cannot be reached. */
    method CheckVersion(ping: Option<string>) returns (ok: bool)
      modifies this
      ensures var due := !manualOverride && negotiateVersion && !old(negotiated);
              && ok == !(due && ping.None?)
              && version == (if due && ping.Some? then Downgraded(old(version), ping.value) else old(version))
              && negotiated == (old(negotiated) || (due && ping.Some?))
    {
      ok := true;
      if !manualOverride && negotiateVersion && !negotiated {
        if ping.None? {
          return false;
        }
        NegotiateAPIVersionPing(ping.value);
      }
    }
  }

  // ---- callers ----

  /** checkVersion, NegotiateAPIVersion, or NegotiateAPIVersionPing with the caller's own answer. */
  datatype Kind = Check | Explicit | Given(ping: string)

  datatype Phase =
    | WantLock(kind: Kind)
    | Locked(kind: Kind)        // holds the lock
    | Pinging(kind: Kind)       // holds the lock
    | Applying(kind: Kind, ping: string)  // holds the lock
    | Returned

  datatype Config = Config(manualOverride: bool, negotiateVersion: bool)

  /** `applied` lists the answers applied so far, with the kind of call that did it. */
  datatype State = State(
    version: string, negotiated: bool, lock: Option<nat>, applied: seq<(Kind, string)>, threads: map<nat, Phase>)

  datatype Step =
    | Call(t: nat, kind: Kind)
    | Acquire(t: nat)
    | Enter(t: nat)
    | Ping(t: nat, answer: Option<string>)
    | ApplyPing(t: nat)

  predicate At(s: State, t: nat) {
    t in s.threads
  }

  predicate Enabled(s: State, step: Step) {
    match step
    case Call(t, _) => t !in s.threads
    case Acquire(t) => At(s, t) && s.threads[t].WantLock? && s.lock.None?
    case Enter(t) => At(s, t) && s.threads[t].Locked?
    case Ping(t, _) => At(s, t) && s.threads[t].Pinging?
    case ApplyPing(t) => At(s, t) && s.threads[t].Applying?
  }

  function To(s: State, t: nat, p: Phase): State {
    s.(threads := s.threads[t := p])
  }

  function Apply(cfg: Config, s: State, step: Step): State
    requires Enabled(s, step)
  {
    match step
    case Call(t, kind) =>
      if cfg.manualOverride || (kind.Check? && (!cfg.negotiateVersion || s.negotiated)) then To(s, t, Returned)
      else To(s, t, WantLock(kind))
    case Acquire(t) => To(s, t, Locked(s.threads[t].kind)).(lock := Some(t))
    case Enter(t) =>
      var kind := s.threads[t].kind;
      if kind.Check? && s.negotiated then To(s, t, Returned).(lock := None)
      else if kind.Given? then To(s, t, Applying(kind, kind.ping))
      else To(s, t, Pinging(kind))
    case Ping(t, answer) =>
      if answer.None? then To(s, t, Returned).(lock := None)
      else To(s, t, Applying(s.threads[t].kind, answer.value))
    case ApplyPing(t) =>
      To(s, t, Returned).(
        lock := None, version := Downgraded(s.version, s.threads[t].ping),
        applied := s.applied + [(s.threads[t].kind, s.threads[t].ping)],
        negotiated := s.negotiated || cfg.negotiateVersion)
  }

  /** A step that is not possible in the current state does nothing. */
  function Next(cfg: Config, s: State, step: Step): State {
    if Enabled(s, step) then Apply(cfg, s, step) else s
  }

  function Run(cfg: Config, s: State, steps: seq<Step>): State {
    if steps == [] then s else Next(cfg, Run(cfg, s, steps[..|steps| - 1]), steps[|steps| - 1])
  }

  predicate Initial(s: State) {
    !s.negotiated && s.lock.None? && s.applied == [] && s.threads == map[]
  }

  predicate HoldsLock(p: Phase) {
    p.Locked? || p.Pinging? || p.Applying?
  }

  /** The lock excludes; a check past its second test is still the first to negotiate. */
  ghost predicate LockOk(cfg: Config, s: State) {
    && (s.lock.Some? ==> s.lock.value in s.threads)
    && (forall t :: t in s.threads ==> (HoldsLock(s.threads[t]) <==> s.lock == Some(t)))
    && (forall t :: t in s.threads && !s.threads[t].Returned? ==>
          !cfg.manualOverride && (s.threads[t].kind.Check? ==> cfg.negotiateVersion))
    && (forall t :: t in s.threads && (s.threads[t].Pinging? || s.threads[t].Applying?) && s.threads[t].kind.Check? ==>
          !s.negotiated)
    && (s.negotiated <==> cfg.negotiateVersion && s.applied != [])
    && (cfg.manualOverride ==> s.applied == [])
  }

  /** Only the very first answer can come from a check. */
  predicate ChecksApplyFirst(applied: seq<(Kind, string)>) {
    forall i :: 0 < i < |applied| ==> !applied[i].0.Check?
  }

  lemma StepKeepsLock(cfg: Config, s: State, step: Step)
    requires LockOk(cfg, s) && Enabled(s, step) && ChecksApplyFirst(s.applied)
    ensures LockOk(cfg, Apply(cfg, s, step)) && ChecksApplyFirst(Apply(cfg, s, step).applied)
  {
  }

  /** A smallest version among the start and the applied answers. */
  ghost predicate IsMinimum(start: string, applied: seq<(Kind, string)>, v: string) {
    && (v == StartVersion(start) || exists i :: 0 <= i < |applied| && v == PingVersion(applied[i].1))
    && AtMost(v, StartVersion(start))
    && forall i :: 0 <= i < |applied| ==> AtMost(v, PingVersion(applied[i].1))
  }

  lemma MinimumStep(start: string, applied: seq<(Kind, string)>, v: string, kind: Kind, ping: string)
    requires if applied == [] then v == start else IsMinimum(start, applied, v) && v != ""
    ensures IsMinimum(start, applied + [(kind, ping)], Downgraded(v, ping))
    ensures Downgraded(v, ping) != ""
  {
    var all, w, p, s := applied + [(kind, ping)], Downgraded(v, ping), PingVersion(ping), StartVersion(v);
    VersionsAreOrdered(p, p, s);
    VersionsAreOrdered(s, s, p);
    assert all[|applied|].1 == ping;
    forall i | 0 <= i < |all| ensures AtMost(w, PingVersion(all[i].1)) {
      if i < |applied| {
        VersionsAreOrdered(w, v, PingVersion(applied[i].1));
      }
    }
    VersionsAreOrdered(w, v, StartVersion(start));
    if applied != [] && w == v && v != StartVersion(start) {
      var i :| 0 <= i < |applied| && v == PingVersion(applied[i].1);
      assert all[i] == applied[i];
    }
  }

  /** The version is the smallest seen, and the locking has done its part. */
  ghost predicate Negotiated(cfg: Config, start: string, u: State) {
    && LockOk(cfg, u) && ChecksApplyFirst(u.applied)
    && (u.applied == [] ==> u.version == start)
    && (u.applied != [] ==> IsMinimum(start, u.applied, u.version) && u.version != "")
    && (cfg.manualOverride ==> u.applied == [] && u.version == start)
  }

  lemma StepKeepsNegotiated(cfg: Config, start: string, u: State, step: Step)
    requires Negotiated(cfg, start, u) && Enabled(u, step)
    ensures Negotiated(cfg, start, Apply(cfg, u, step))
  {
    StepKeepsLock(cfg, u, step);
    if step.ApplyPing? {
      MinimumStep(start, u.applied, u.version, u.threads[step.t].kind, u.threads[step.t].ping);
    }
  }

  /**
   Under every mix of callers: a check applies an answer only if none was applied before it, so checks
   alone apply at most one; the version is the smallest of the starting one and all applied answers;
   and under a manual override nothing is applied and the version never changes.
   */
  lemma {:induction false} NegotiationIsMinimum(cfg: Config, s: State, steps: seq<Step>)
    requires Initial(s)
    ensures Negotiated(cfg, s.version, Run(cfg, s, steps))
  {
    if steps == [] {
    } else {
      var u, step := Run(cfg, s, steps[..|steps| - 1]), steps[|steps| - 1];
      NegotiationIsMinimum(cfg, s, steps[..|steps| - 1]);
      if Enabled(u, step) {
        StepKeepsNegotiated(cfg, s.version, u, step);
      }
    }
  }

  lemma MovedTwice(threads: map<nat, Phase>, t: nat, p: Phase, q: Phase)
    ensures threads[t := p][t := q] == threads[t := q]
  {
  }

  /** What a call that asks the server does if nothing disturbs it. */
  lemma AskingAlone(cfg: Config, s: State, t: nat, kind: Kind, answer: Option<string>)
    requires t !in s.threads && s.lock.None? && !kind.Given?
    ensures var due := !cfg.manualOverride && (kind.Check? ==> cfg.negotiateVersion && !s.negotiated);
            var called := Next(cfg, s, Call(t, kind));
            if !due then called == s.(threads := s.threads[t := Returned])
            else
              var asked := Next(cfg, Next(cfg, Next(cfg, called, Acquire(t)), Enter(t)), Ping(t, answer));
              if answer.None? then asked == s.(threads := s.threads[t := Returned])
              else Next(cfg, asked, ApplyPing(t)) == Applied(cfg, s, t, kind, answer.value)
  {
    MovedTwice(s.threads, t, WantLock(kind), Locked(kind));
    MovedTwice(s.threads, t, Locked(kind), Pinging(kind));
    MovedTwice(s.threads, t, Pinging(kind), if answer.None? then Returned else Applying(kind, answer.value));
    if answer.Some? {
      VersionsAreOrdered(s.version, PingVersion(answer.value), StartVersion(s.version));
      MovedTwice(s.threads, t, Applying(kind, answer.value), Returned);
    }
  }

  lemma GivenAlone(cfg: Config, s: State, t: nat, ping: string)
    requires t !in s.threads && s.lock.None?
    ensures var called := Next(cfg, s, Call(t, Given(ping)));
            if cfg.manualOverride then called == s.(threads := s.threads[t := Returned])
            else
              Next(cfg, Next(cfg, Next(cfg, called, Acquire(t)), Enter(t)), ApplyPing(t)) ==
              Applied(cfg, s, t, Given(ping), ping)
  {
    MovedTwice(s.threads, t, WantLock(Given(ping)), Locked(Given(ping)));
    MovedTwice(s.threads, t, Locked(Given(ping)), Applying(Given(ping), ping));
    MovedTwice(s.threads, t, Applying(Given(ping), ping), Returned);
    VersionsAreOrdered(s.version, PingVersion(ping), StartVersion(s.version));
  }

  /** The state after one call has applied an answer: the version is the smaller of its own and the answer's. */
  ghost function Applied(cfg: Config, s: State, t: nat, kind: Kind, ping: string): State {
    var own, other := StartVersion(s.version), PingVersion(ping);
    s.(version := if AtMost(own, other) then own else other, negotiated := s.negotiated || cfg.negotiateVersion,
       applied := s.applied + [(kind, ping)], threads := s.threads[t := Returned])
  }

  /** With checks as the only callers, at most one answer is applied. */
  lemma {:induction false} ChecksAloneApplyOnce(cfg: Config, s: State, steps: seq<Step>)
    requires Initial(s) && forall i :: 0 <= i < |steps| && steps[i].Call? ==> steps[i].kind.Check?
    ensures |Run(cfg, s, steps).applied| <= 1
    ensures var u := Run(cfg, s, steps);
            forall t :: t in u.threads && !u.threads[t].Returned? ==> u.threads[t].kind.Check?
  {
    if steps == [] {
    } else {
      var init, u, step := steps[..|steps| - 1], Run(cfg, s, steps[..|steps| - 1]), steps[|steps| - 1];
      assert forall i :: 0 <= i < |init| ==> init[i] == steps[i];
      ChecksAloneApplyOnce(cfg, s, init);
      NegotiationIsMinimum(cfg, s, init);
      assert step == steps[|steps| - 1];
    }
  }

  lemma StepNeverRaises(cfg: Config, s: State, step: Step)
    requires Enabled(s, step) && s.version != ""
    ensures AtMost(Apply(cfg, s, step).version, s.version) && Apply(cfg, s, step).version != ""
  {
    VersionsAreOrdered(s.version, s.version, s.version);
    if step.ApplyPing? {
      VersionsAreOrdered(s.version, PingVersion(s.threads[step.t].ping), s.version);
    }
  }

  /** From any state on, the version never rises. */
  lemma {:induction false} VersionNeverRises(cfg: Config, s: State, steps: seq<Step>)
    requires s.version != ""
    ensures AtMost(Run(cfg, s, steps).version, s.version) && Run(cfg, s, steps).version != ""
  {
    VersionsAreOrdered(s.version, s.version, s.version);
    if steps == [] {
    } else {
      var u, step := Run(cfg, s, steps[..|steps| - 1]), steps[|steps| - 1];
      VersionNeverRises(cfg, s, steps[..|steps| - 1]);
      if Enabled(u, step) {
        StepNeverRaises(cfg, u, step);
        VersionsAreOrdered(Apply(cfg, u, step).version, u.version, s.version);
      }
    }
  }

  /** The outcome does not depend on order: the same answers from the same start give equal versions. */
  lemma OrderDoesNotMatter(start: string, a: seq<(Kind, string)>, b: seq<(Kind, string)>, v: string, w: string)
    requires IsMinimum(start, a, v) && IsMinimum(start, b, w)
    requires forall i :: 0 <= i < |a| ==> exists j :: 0 <= j < |b| && b[j].1 == a[i].1
    requires forall i :: 0 <= i < |b| ==> exists j :: 0 <= j < |a| && a[j].1 == b[i].1
    ensures AtMost(v, w) && AtMost(w, v)
  {
  }
}
