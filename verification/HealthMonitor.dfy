/**
 Container health checks (moby/daemon/health.go, monitor.go, pause.go, unpause.go, start.go).

 A monitor is the goroutine that owns one stop channel. Everything that touches health happens under
 the container's lock, so an execution is a sequence of atomic steps: a monitor starts a probe, a probe
 ends, a monitor hands its result in, a monitor notices its closed channel, or the container changes state.
 */
module HealthMonitor {
  import opened Wrappers

  datatype Status = Unset | Starting | Healthy | Unhealthy

  datatype ProbeResult = ProbeResult(exitCode: int, start: int)

  /** The health-check configuration; `probe` says that the test names a probe that can run. */
  datatype Config = Config(probe: bool, retries: int, startPeriod: int)

  /** Health state; `stop` is the channel of the monitor in charge, if any. */
  datatype Health = Health(status: Status, failingStreak: nat, log: seq<ProbeResult>, stop: Option<nat>)

  const MAX_LOG_ENTRIES: nat := 5
  const DEFAULT_PROBE_RETRIES: nat := 3

  function Retries(cfg: Config): (n: nat)
    ensures n > 0
  {
    if cfg.retries <= 0 then DEFAULT_PROBE_RETRIES else cfg.retries
  }

  predicate Success(r: ProbeResult) {
    r.exitCode == 0
  }

  /** The probe started at or after the end of the start period. */
  predicate Late(cfg: Config, startedAt: int, r: ProbeResult) {
    r.start - startedAt >= cfg.startPeriod
  }

  // ---- one result ----

  function Pushed(log: seq<ProbeResult>, r: ProbeResult): seq<ProbeResult> {
    if |log| >= MAX_LOG_ENTRIES then log[|log| + 1 - MAX_LOG_ENTRIES..] + [r] else log + [r]
  }

  /** The health after an accepted result. */
  function Accept(cfg: Config, startedAt: int, h: Health, r: ProbeResult): Health {
    var log := Pushed(h.log, r);
    if Success(r) then h.(status := Healthy, failingStreak := 0, log := log)
    else if h.status == Starting && !Late(cfg, startedAt, r) then h.(log := log)
    else if h.failingStreak + 1 >= Retries(cfg) then
      h.(status := Unhealthy, failingStreak := h.failingStreak + 1, log := log)
    else h.(failingStreak := h.failingStreak + 1, log := log)
  }

  function AcceptAll(cfg: Config, startedAt: int, h: Health, rs: seq<ProbeResult>): Health {
    if rs == [] then h else Accept(cfg, startedAt, AcceptAll(cfg, startedAt, h, rs[..|rs| - 1]), rs[|rs| - 1])
  }

  // ---- what a sequence of results means ----

  predicate AnySuccess(rs: seq<ProbeResult>) {
    exists i :: 0 <= i < |rs| && Success(rs[i])
  }

  ghost predicate IsLastSuccess(rs: seq<ProbeResult>, i: int) {
    0 <= i < |rs| && Success(rs[i]) && forall j :: i < j < |rs| ==> !Success(rs[j])
  }

  /** How many results started no earlier than the end of the start period. */
  function CountLate(cfg: Config, startedAt: int, rs: seq<ProbeResult>): nat {
    if rs == [] then 0
    else CountLate(cfg, startedAt, rs[..|rs| - 1]) + if rs[|rs| - 1].start < startedAt + cfg.startPeriod then 0 else 1
  }

  /** The failures that count: those after the last success, or without one those past the start period. */
  ghost predicate IsStreak(cfg: Config, startedAt: int, rs: seq<ProbeResult>, n: nat) {
    if AnySuccess(rs) then exists i :: IsLastSuccess(rs, i) && n == |rs| - 1 - i
    else n == CountLate(cfg, startedAt, rs)
  }

  predicate SortedByStart(rs: seq<ProbeResult>) {
    forall i, j :: 0 <= i < j < |rs| ==> rs[i].start <= rs[j].start
  }

  function LastEntries(log: seq<ProbeResult>): seq<ProbeResult> {
    if |log| > 5 then log[|log| - 5..] else log
  }

  /** Unhealthy exactly when the streak reaches the retries, else Healthy exactly after a success. */
  function StatusFor(cfg: Config, streak: nat, anySuccess: bool): Status {
    if streak >= (if cfg.retries > 0 then cfg.retries else 3) then Unhealthy
    else if anySuccess then Healthy else Starting
  }

  /** Health as a function of all results since the monitor was initialised. */
  ghost predicate Describes(cfg: Config, startedAt: int, before: Health, rs: seq<ProbeResult>, h: Health) {
    && IsStreak(cfg, startedAt, rs, h.failingStreak)
    && h.status == StatusFor(cfg, h.failingStreak, AnySuccess(rs))
    && h.stop == before.stop
    && h.log == if rs == [] then before.log else LastEntries(before.log + rs)
  }

  lemma LateStaysLate(cfg: Config, startedAt: int, rs: seq<ProbeResult>)
    requires SortedByStart(rs) && rs != [] && CountLate(cfg, startedAt, rs[..|rs| - 1]) > 0
    ensures Late(cfg, startedAt, rs[|rs| - 1])
  {
    var i := SomeLate(cfg, startedAt, rs[..|rs| - 1]);
  }

  lemma {:induction false} SomeLate(cfg: Config, startedAt: int, rs: seq<ProbeResult>) returns (i: nat)
    requires CountLate(cfg, startedAt, rs) > 0
    ensures i < |rs| && Late(cfg, startedAt, rs[i])
  {
    i := |rs| - 1;
    if !Late(cfg, startedAt, rs[i]) {
      i := SomeLate(cfg, startedAt, rs[..i]);
    }
  }

  lemma PushedIsLast(log: seq<ProbeResult>, rs: seq<ProbeResult>, r: ProbeResult)
    ensures Pushed(if rs == [] then log else LastEntries(log + rs), r) == LastEntries(log + (rs + [r]))
  {
    assert log + (rs + [r]) == (log + rs) + [r];
    if rs == [] {
      assert log + rs == log;
    }
  }

  /** Streak, status and log over every sequence of results in order of start. */
  lemma {:induction false} ResultsDescribeHealth(cfg: Config, startedAt: int, before: Health, rs: seq<ProbeResult>)
    requires before.status == Starting && before.failingStreak == 0 && SortedByStart(rs)
    ensures Describes(cfg, startedAt, before, rs, AcceptAll(cfg, startedAt, before, rs))
  {
    if rs == [] {
    } else {
      var init, r := rs[..|rs| - 1], rs[|rs| - 1];
      var h := AcceptAll(cfg, startedAt, before, init);
      ResultsDescribeHealth(cfg, startedAt, before, init);
      assert rs == init + [r];
      DescribesStep(cfg, startedAt, before, init, r, h);
    }
  }

  lemma DescribesStep(cfg: Config, startedAt: int, before: Health, rs: seq<ProbeResult>, r: ProbeResult, h: Health)
    requires SortedByStart(rs + [r]) && Describes(cfg, startedAt, before, rs, h)
    ensures Describes(cfg, startedAt, before, rs + [r], Accept(cfg, startedAt, h, r))
  {
    PushedIsLast(before.log, rs, r);
    StreakStep(cfg, startedAt, rs, r, h);
  }

  lemma StreakStep(cfg: Config, startedAt: int, rs: seq<ProbeResult>, r: ProbeResult, h: Health)
    requires SortedByStart(rs + [r]) && IsStreak(cfg, startedAt, rs, h.failingStreak)
    requires h.status == StatusFor(cfg, h.failingStreak, AnySuccess(rs))
    ensures var k := Accept(cfg, startedAt, h, r);
            && IsStreak(cfg, startedAt, rs + [r], k.failingStreak)
            && k.status == StatusFor(cfg, k.failingStreak, AnySuccess(rs + [r]))
  {
    var all := rs + [r];
    assert all[..|all| - 1] == rs;
    assert forall i :: 0 <= i < |rs| ==> all[i] == rs[i];
    if AnySuccess(rs) {
      var i :| 0 <= i < |rs| && Success(rs[i]);
      assert Success(all[i]);
    }
    if Success(r) {
      assert Success(all[|rs|]) && IsLastSuccess(all, |rs|);
    } else if AnySuccess(rs) {
      var i :| IsLastSuccess(rs, i) && h.failingStreak == |rs| - 1 - i;
      assert IsLastSuccess(all, i);
    } else if CountLate(cfg, startedAt, rs) > 0 {
      LateStaysLate(cfg, startedAt, all);
    }
  }

  // ---- the monitors of one container ----

  /** Where a monitor is: waiting, probing since a time, about to hand in a result, or returned. */
  datatype Phase = Idle | Probing(start: int) | Ready(result: ProbeResult) | Returned

  /** `channels` counts the stop channels made so far; monitor m owns channel m. */
  datatype State = State(
    running: bool, paused: bool, restarting: bool, startedAt: int, health: Option<Health>,
    channels: nat, closed: set<nat>, monitors: map<nat, Phase>, clock: int)

  predicate Open(s: State, m: nat) {
    m < s.channels && m !in s.closed
  }

  predicate InCharge(s: State, m: nat) {
    s.health.Some? && s.health.value.stop == Some(m)
  }

  function CloseMonitor(s: State): State {
    if s.health.Some? && s.health.value.stop.Some? then
      s.(health := Some(s.health.value.(stop := None, status := Unhealthy)),
         closed := s.closed + {s.health.value.stop.value})
    else s
  }

  function OpenMonitor(s: State): State
    requires s.health.Some?
  {
    if s.health.value.stop.None? then
      s.(health := Some(s.health.value.(stop := Some(s.channels))), channels := s.channels + 1,
         monitors := s.monitors[s.channels := Idle])
    else s
  }

  predicate WantRunning(cfg: Config, s: State) {
    s.running && !s.paused && cfg.probe
  }

  function UpdateMonitor(cfg: Config, s: State): State {
    if s.health.None? then s
    else if WantRunning(cfg, s) then OpenMonitor(s)
    else CloseMonitor(s)
  }

  function InitMonitor(cfg: Config, s: State): State {
    if !cfg.probe then s
    else
      var c := CloseMonitor(s);
      var h := if c.health.Some? then c.health.value.(status := Starting, failingStreak := 0)
               else Health(Starting, 0, [], None);
      UpdateMonitor(cfg, c.(health := Some(h)))
  }

  /** A monitor hands in its result; the result of a closed monitor is dropped. */
  function HandIn(cfg: Config, s: State, m: nat): State
    requires m in s.monitors && s.monitors[m].Ready? && (m !in s.closed ==> s.health.Some?)
  {
    var t := s.(monitors := s.monitors[m := Idle]);
    if m in s.closed then t
    else t.(health := Some(Accept(cfg, s.startedAt, s.health.value, s.monitors[m].result)))
  }

  datatype Step =
    | StartProbe(m: nat, now: int)
    | EndProbe(m: nat, exitCode: int)
    | Report(m: nat)
    | NoticeStop(m: nat)
    | Pause | Unpause | EventPaused | EventResumed | EventOOM
    | EventStart(loaded: bool)
    | Started(at: int)
    | Exit(restart: bool)
    | RestartFailed
    | Restored

  predicate Enabled(s: State, step: Step) {
    match step
    case StartProbe(m, now) => m in s.monitors && s.monitors[m].Idle? && s.clock <= now
    case EndProbe(m, _) => m in s.monitors && s.monitors[m].Probing?
    case Report(m) => m in s.monitors && s.monitors[m].Ready? && (m !in s.closed ==> s.health.Some?)
    case NoticeStop(m) => m in s.monitors && m in s.closed && !s.monitors[m].Ready?
    case Pause => s.running && !s.paused && !s.restarting
    case Unpause => s.paused && s.running
    case Started(_) => !s.running || s.restarting
    case RestartFailed => s.restarting
    case Restored => s.running
    case _ => true
  }

  function Apply(cfg: Config, s: State, step: Step): State
    requires Enabled(s, step)
  {
    match step
    case StartProbe(m, now) => s.(monitors := s.monitors[m := Probing(now)], clock := now)
    case EndProbe(m, code) => s.(monitors := s.monitors[m := Ready(ProbeResult(code, s.monitors[m].start))])
    case Report(m) => HandIn(cfg, s, m)
    case NoticeStop(m) => s.(monitors := s.monitors[m := Returned])
    case Pause => UpdateMonitor(cfg, s.(paused := true))
    case Unpause => UpdateMonitor(cfg, s.(paused := false))
    case EventPaused => if s.paused then s else UpdateMonitor(cfg, s.(paused := true))
    case EventResumed => if s.paused then UpdateMonitor(cfg, s.(paused := false)) else s
    case EventOOM => UpdateMonitor(cfg, s)
    case EventStart(loaded) =>
      if s.running || !loaded then s
      else InitMonitor(cfg, s.(running := true, paused := false, restarting := false))
    case Started(at) => InitMonitor(cfg, s.(running := true, paused := false, restarting := false, startedAt := at))
    case Exit(restart) => CloseMonitor(s).(running := restart, restarting := restart, paused := false)
    case RestartFailed => s.(running := false, restarting := false, paused := false)
    case Restored => InitMonitor(cfg, s.(paused := false))
  }

  /** A step that is not possible in the current state does nothing. */
  function Next(cfg: Config, s: State, step: Step): State {
    if Enabled(s, step) then Apply(cfg, s, step) else s
  }

  function Run(cfg: Config, s: State, steps: seq<Step>): State {
    if steps == [] then s else Next(cfg, Run(cfg, s, steps[..|steps| - 1]), steps[|steps| - 1])
  }

  /** A container new to the daemon, created or restored from disk: it may run and have a health, but no channel. */
  predicate Initial(s: State) {
    && (s.health.Some? ==> s.health.value.stop.None?)
    && s.channels == 0 && s.closed == {} && s.monitors == map[]
  }

  /** One channel per monitor, and an open channel is the one in charge: so at most one is open. */
  ghost predicate OneMonitor(s: State) {
    && (forall m: nat :: m in s.monitors <==> m < s.channels)
    && (forall m: nat :: m in s.closed ==> m < s.channels)
    && (forall m: nat :: Open(s, m) <==> InCharge(s, m))
    && (forall m :: m in s.monitors && s.monitors[m].Returned? ==> m in s.closed)
  }

  /** An open channel is wanted: the container runs unpaused and has a probe. */
  ghost predicate OpenIsWanted(cfg: Config, s: State) {
    forall m: nat :: Open(s, m) ==> WantRunning(cfg, s)
  }

  lemma CloseKeepsOneMonitor(s: State)
    requires OneMonitor(s)
    ensures OneMonitor(CloseMonitor(s)) && forall m: nat :: !Open(CloseMonitor(s), m)
  {
    if s.health.Some? && s.health.value.stop.Some? {
      assert InCharge(s, s.health.value.stop.value);
    }
    forall m: nat ensures !Open(CloseMonitor(s), m) {
      assert Open(s, m) <==> InCharge(s, m);
    }
  }

  lemma OpenKeepsOneMonitor(s: State)
    requires OneMonitor(s) && s.health.Some?
    ensures OneMonitor(OpenMonitor(s))
  {
    forall m: nat ensures Open(OpenMonitor(s), m) <==> InCharge(OpenMonitor(s), m) {
      assert Open(s, m) <==> InCharge(s, m);
    }
  }

  lemma UpdateKeepsOneMonitor(cfg: Config, s: State)
    requires OneMonitor(s)
    ensures OneMonitor(UpdateMonitor(cfg, s)) && OpenIsWanted(cfg, UpdateMonitor(cfg, s))
  {
    CloseKeepsOneMonitor(s);
    if s.health.Some? {
      OpenKeepsOneMonitor(s);
    }
  }

  lemma InitKeepsOneMonitor(cfg: Config, s: State)
    requires OneMonitor(s)
    ensures OneMonitor(InitMonitor(cfg, s))
    ensures cfg.probe ==> OpenIsWanted(cfg, InitMonitor(cfg, s))
  {
    CloseKeepsOneMonitor(s);
    var c := CloseMonitor(s);
    var h := if c.health.Some? then c.health.value.(status := Starting, failingStreak := 0)
             else Health(Starting, 0, [], None);
    var d := c.(health := Some(h));
    forall m: nat ensures Open(d, m) <==> InCharge(d, m) {
      assert Open(c, m) <==> InCharge(c, m);
    }
    UpdateKeepsOneMonitor(cfg, d);
  }

  /** A change of the container's flags alone. */
  lemma FlagsKeepOneMonitor(s: State, t: State)
    requires OneMonitor(s)
    requires t.health == s.health && t.channels == s.channels && t.closed == s.closed && t.monitors == s.monitors
    ensures OneMonitor(t)
    ensures forall m: nat :: Open(t, m) <==> Open(s, m)
  {
    forall m: nat ensures Open(t, m) <==> InCharge(t, m) {
      assert Open(s, m) <==> InCharge(s, m);
    }
  }

  lemma FlagsKeepOpen(s: State, t: State)
    requires t.channels == s.channels && t.closed == s.closed
    ensures forall m: nat :: Open(t, m) <==> Open(s, m)
  {
  }

  /** A report changes the health of the monitor in charge, never who is in charge. */
  lemma ReportKeepsOneMonitor(cfg: Config, s: State, m: nat)
    requires OneMonitor(s) && Enabled(s, Report(m))
    ensures OneMonitor(HandIn(cfg, s, m))
    ensures forall n: nat :: Open(HandIn(cfg, s, m), n) <==> Open(s, n)
  {
    forall n: nat ensures Open(HandIn(cfg, s, m), n) <==> InCharge(HandIn(cfg, s, m), n) {
      assert Open(s, n) <==> InCharge(s, n);
    }
  }

  /** The flags a step sets before it looks at the monitor. */
  function Flagged(s: State, step: Step): State {
    match step
    case Pause => s.(paused := true)
    case Unpause => s.(paused := false)
    case EventPaused => s.(paused := true)
    case EventResumed => s.(paused := false)
    case EventStart(_) => s.(running := true, paused := false, restarting := false)
    case Started(at) => s.(running := true, paused := false, restarting := false, startedAt := at)
    case RestartFailed => s.(running := false, restarting := false, paused := false)
    case Restored => s.(paused := false)
    case _ => s
  }

  lemma StepKeepsOneMonitor(cfg: Config, s: State, step: Step)
    requires OneMonitor(s) && Enabled(s, step)
    ensures OneMonitor(Apply(cfg, s, step))
  {
    FlagsKeepOneMonitor(s, Flagged(s, step));
    match step {
      case Report(m) => ReportKeepsOneMonitor(cfg, s, m);
      case Exit(_) =>
        CloseKeepsOneMonitor(s);
        FlagsKeepOneMonitor(CloseMonitor(s), Apply(cfg, s, step));
      case StartProbe(m, now) => ProbingKeepsOneMonitor(s, Apply(cfg, s, step));
      case EndProbe(m, code) => ProbingKeepsOneMonitor(s, Apply(cfg, s, step));
      case NoticeStop(m) => ProbingKeepsOneMonitor(s, Apply(cfg, s, step));
      case EventStart(_) => InitKeepsOneMonitor(cfg, Flagged(s, step));
      case Started(_) => InitKeepsOneMonitor(cfg, Flagged(s, step));
      case Restored => InitKeepsOneMonitor(cfg, Flagged(s, step));
      case _ => UpdateKeepsOneMonitor(cfg, Flagged(s, step));
    }
  }

  /** A change of one monitor's phase alone. */
  lemma ProbingKeepsOneMonitor(s: State, t: State)
    requires OneMonitor(s) && t.health == s.health && t.channels == s.channels && t.closed == s.closed
    requires t.monitors.Keys == s.monitors.Keys
    requires forall m :: m in t.monitors && t.monitors[m].Returned? ==> m in s.closed
    ensures OneMonitor(t)
  {
    FlagsKeepOpen(s, t);
    forall m: nat ensures Open(t, m) <==> InCharge(t, m) {
      assert Open(s, m) <==> InCharge(s, m);
    }
  }

  /** Only a failed delayed restart can leave a monitor running that is not wanted, and only if one is open. */
  lemma StepKeepsOpenIsWanted(cfg: Config, s: State, step: Step)
    requires OneMonitor(s) && OpenIsWanted(cfg, s) && Enabled(s, step)
    ensures OpenIsWanted(cfg, Apply(cfg, s, step)) <==> (step.RestartFailed? ==> forall m: nat :: !Open(s, m))
  {
    FlagsKeepOneMonitor(s, Flagged(s, step));
    UpdateKeepsOneMonitor(cfg, Flagged(s, step));
    InitKeepsOneMonitor(cfg, Flagged(s, step));
    CloseKeepsOneMonitor(s);
    match step {
      case Report(m) => ReportKeepsOneMonitor(cfg, s, m);
      case Exit(_) => FlagsKeepOneMonitor(CloseMonitor(s), Apply(cfg, s, step));
      case StartProbe(m, now) => FlagsKeepOpen(s, Apply(cfg, s, step));
      case EndProbe(m, code) => FlagsKeepOpen(s, Apply(cfg, s, step));
      case NoticeStop(m) => FlagsKeepOpen(s, Apply(cfg, s, step));
      case EventStart(_) => FlagsKeepOpen(s, Flagged(s, step));
      case Started(_) => FlagsKeepOpen(s, Flagged(s, step));
      case RestartFailed => FlagsKeepOpen(s, Flagged(s, step));
      case Restored => FlagsKeepOpen(s, Flagged(s, step));
      case _ =>
    }
  }

  lemma {:induction false} RunKeepsOneMonitor(cfg: Config, s: State, steps: seq<Step>)
    requires OneMonitor(s)
    ensures OneMonitor(Run(cfg, s, steps)) && s.channels <= Run(cfg, s, steps).channels
  {
    if steps == [] {
    } else {
      RunKeepsOneMonitor(cfg, s, steps[..|steps| - 1]);
      var u, step := Run(cfg, s, steps[..|steps| - 1]), steps[|steps| - 1];
      if Enabled(u, step) {
        StepKeepsOneMonitor(cfg, u, step);
      }
    }
  }

  /** In every run, at most one monitor's channel is open. */
  lemma AtMostOneMonitor(cfg: Config, s: State, steps: seq<Step>)
    requires Initial(s)
    ensures OneMonitor(Run(cfg, s, steps))
    ensures forall m: nat, n: nat :: Open(Run(cfg, s, steps), m) && Open(Run(cfg, s, steps), n) ==> m == n
  {
    assert forall m: nat :: !Open(s, m) && !InCharge(s, m);
    RunKeepsOneMonitor(cfg, s, steps);
    var u := Run(cfg, s, steps);
    forall m: nat, n: nat | Open(u, m) && Open(u, n) ensures m == n {
      assert InCharge(u, m) && InCharge(u, n);
    }
  }

  /** Every open channel is wanted, before the run and after each of its steps. */
  ghost predicate AlwaysWanted(cfg: Config, s: State, steps: seq<Step>) {
    OpenIsWanted(cfg, Run(cfg, s, steps)) && (steps == [] || AlwaysWanted(cfg, s, steps[..|steps| - 1]))
  }

  /** Every delayed restart that fails finds no open channel. */
  ghost predicate RestartsFailUnmonitored(cfg: Config, s: State, steps: seq<Step>) {
    steps == [] ||
    var init, step := steps[..|steps| - 1], steps[|steps| - 1];
    var u := Run(cfg, s, init);
    && RestartsFailUnmonitored(cfg, s, init)
    && (step.RestartFailed? && Enabled(u, step) ==> forall m: nat :: !Open(u, m))
  }

  /**
   In every run: an open channel always implies Running, not Paused and a probe if and only if no delayed
   restart fails with a channel open.
   */
  lemma {:induction false} WantedThroughout(cfg: Config, s: State, steps: seq<Step>)
    requires Initial(s)
    ensures AlwaysWanted(cfg, s, steps) <==> RestartsFailUnmonitored(cfg, s, steps)
  {
    if steps == [] {
      assert OpenIsWanted(cfg, s);
    } else {
      var init, step := steps[..|steps| - 1], steps[|steps| - 1];
      var u := Run(cfg, s, init);
      WantedThroughout(cfg, s, init);
      AtMostOneMonitor(cfg, s, init);
      if OpenIsWanted(cfg, u) && Enabled(u, step) {
        StepKeepsOpenIsWanted(cfg, u, step);
      }
    }
  }

  /** Such a failure is possible: an OOM event during the restart delay reopens a monitor. */
  lemma FailedRestartLeavesMonitor(cfg: Config, s: State)
    requires Initial(s) && !s.running && cfg.probe
    ensures var steps := [Started(0), Exit(true), EventOOM, RestartFailed];
            && Open(Run(cfg, s, steps), 1) && !Run(cfg, s, steps).running
  {
    var steps := [Started(0), Exit(true), EventOOM, RestartFailed];
    var s1 := Apply(cfg, s, Started(0));
    var s2 := Apply(cfg, s1, Exit(true));
    var s3 := Apply(cfg, s2, EventOOM);
    assert steps[..3] == [Started(0), Exit(true), EventOOM];
    assert steps[..3][..2] == [Started(0), Exit(true)];
    assert [Started(0), Exit(true)][..1] == [Started(0)];
    assert Run(cfg, s, [Started(0)]) == s1;
    assert Run(cfg, s, [Started(0), Exit(true)]) == s2;
    assert Run(cfg, s, [Started(0), Exit(true), EventOOM]) == s3;
  }

  /** At most one channel is open, but not at most one monitor runs: a stopped one may still wait for its probe. */
  lemma StoppedMonitorMayStillProbe(cfg: Config, s: State)
    requires Initial(s) && !s.running && cfg.probe && s.clock <= 0
    ensures var u := Run(cfg, s, [Started(0), StartProbe(0, 0), Pause, Unpause]);
            && 0 in u.monitors && u.monitors[0].Probing? && 0 in u.closed
            && Open(u, 1) && 1 in u.monitors && u.monitors[1].Idle?
  {
    var steps := [Started(0), StartProbe(0, 0), Pause, Unpause];
    var s1 := Apply(cfg, s, Started(0));
    var s2 := Apply(cfg, s1, StartProbe(0, 0));
    var s3 := Apply(cfg, s2, Pause);
    assert steps[..3] == [Started(0), StartProbe(0, 0), Pause];
    assert steps[..3][..2] == [Started(0), StartProbe(0, 0)];
    assert [Started(0), StartProbe(0, 0)][..1] == [Started(0)];
    assert Run(cfg, s, [Started(0)]) == s1;
    assert Run(cfg, s, [Started(0), StartProbe(0, 0)]) == s2;
    assert Run(cfg, s, [Started(0), StartProbe(0, 0), Pause]) == s3;
  }

  ghost predicate Live(s: State, m: nat) {
    m in s.monitors && !s.monitors[m].Returned?
  }

  /** What the comment on `monitor` promises: never more than one monitor thread. */
  ghost predicate OneLive(s: State) {
    forall m: nat, n: nat :: Live(s, m) && Live(s, n) ==> m == n
  }

  /** The step takes the branch that opens a channel: a start, or an update of a container that lacks a monitor. */
  predicate Opens(cfg: Config, s: State, step: Step) {
    match step
    case Started(_) => cfg.probe
    case Restored => cfg.probe
    case EventStart(loaded) => cfg.probe && loaded && !s.running
    case Unpause => Lacks(cfg, s)
    case EventResumed => s.paused && Lacks(cfg, s)
    case EventOOM => !s.paused && Lacks(cfg, s)
    case _ => false
  }

  predicate Lacks(cfg: Config, s: State) {
    s.running && cfg.probe && s.health.Some? && s.health.value.stop.None?
  }

  lemma OpensMakesChannel(cfg: Config, s: State, step: Step)
    requires Enabled(s, step)
    ensures var t := Apply(cfg, s, step);
            if Opens(cfg, s, step) then t.channels == s.channels + 1 && t.monitors == s.monitors[s.channels := Idle]
            else
              && t.channels == s.channels && t.monitors.Keys == s.monitors.Keys
              && forall m :: m in s.monitors && s.monitors[m].Returned? ==> t.monitors[m].Returned?
  {
  }

  /** A step keeps the promise exactly unless it opens a channel while some monitor has not returned. */
  lemma StepKeepsOneLive(cfg: Config, s: State, step: Step)
    requires OneMonitor(s) && OneLive(s) && Enabled(s, step)
    ensures OneLive(Apply(cfg, s, step)) <==> (Opens(cfg, s, step) ==> forall m: nat :: !Live(s, m))
  {
    var t := Apply(cfg, s, step);
    OpensMakesChannel(cfg, s, step);
    if Opens(cfg, s, step) {
      assert Live(t, s.channels);
      assert forall m: nat :: Live(t, m) && m != s.channels ==> Live(s, m);
      if m: nat :| Live(s, m) {
        assert Live(t, m) && m != s.channels;
      }
    } else {
      assert forall m: nat :: Live(t, m) ==> Live(s, m);
    }
  }

  /** The promise holds before the run and after each of its steps. */
  ghost predicate AlwaysOneLive(cfg: Config, s: State, steps: seq<Step>) {
    OneLive(Run(cfg, s, steps)) && (steps == [] || AlwaysOneLive(cfg, s, steps[..|steps| - 1]))
  }

  /** Every step of the run that opens a channel finds all earlier monitors returned. */
  ghost predicate OpensAfterReturns(cfg: Config, s: State, steps: seq<Step>) {
    steps == [] ||
    var init, step := steps[..|steps| - 1], steps[|steps| - 1];
    var u := Run(cfg, s, init);
    && OpensAfterReturns(cfg, s, init)
    && (Enabled(u, step) && Opens(cfg, u, step) ==> forall m: nat :: !Live(u, m))
  }

  /** In every run: never more than one live monitor if and only if channels open only after all returns. */
  lemma {:induction false} OneLiveThroughout(cfg: Config, s: State, steps: seq<Step>)
    requires Initial(s)
    ensures AlwaysOneLive(cfg, s, steps) <==> OpensAfterReturns(cfg, s, steps)
  {
    if steps == [] {
      assert OneLive(s);
    } else {
      var init, step := steps[..|steps| - 1], steps[|steps| - 1];
      var u := Run(cfg, s, init);
      OneLiveThroughout(cfg, s, init);
      AtMostOneMonitor(cfg, s, init);
      if OneLive(u) && Enabled(u, step) {
        StepKeepsOneLive(cfg, u, step);
      }
    }
  }

  /** Only the monitor in charge can record a result; what a closed monitor hands in changes nothing but itself. */
  lemma OnlyTheOpenMonitorReports(cfg: Config, s: State, step: Step)
    requires OneMonitor(s) && Enabled(s, step)
    requires step.StartProbe? || step.EndProbe? || step.Report? || step.NoticeStop?
    ensures Apply(cfg, s, step).health != s.health ==>
              step.Report? && InCharge(s, step.m) &&
              Apply(cfg, s, step).health == Some(Accept(cfg, s.startedAt, s.health.value, s.monitors[step.m].result))
    ensures step.Report? && step.m in s.closed ==> Apply(cfg, s, step) == s.(monitors := s.monitors[step.m := Idle])
  {
  }

  // ---- a monitor's lifetime ----

  /** The results a monitor handed in during a run. */
  function Reports(cfg: Config, s: State, steps: seq<Step>, m: nat): seq<ProbeResult> {
    if steps == [] then []
    else
      var init, step := steps[..|steps| - 1], steps[|steps| - 1];
      var earlier := Reports(cfg, s, init, m);
      var t := Run(cfg, s, init);
      if step == Report(m) && Enabled(t, step) then earlier + [t.monitors[m].result] else earlier
  }

  /** The time up to which a monitor's results have started. */
  function Horizon(s: State, m: nat): int
    requires m in s.monitors
  {
    match s.monitors[m]
    case Probing(t) => t
    case Ready(r) => r.start
    case _ => s.clock
  }

  ghost predicate TimesOk(s: State, m: nat, rs: seq<ProbeResult>) {
    && m in s.monitors && Horizon(s, m) <= s.clock
    && SortedByStart(rs) && forall r :: r in rs ==> r.start <= Horizon(s, m)
  }

  /** A state in which monitor m has just been put in charge. */
  ghost predicate JustStarted(cfg: Config, s: State, m: nat) {
    && OneMonitor(s) && OpenIsWanted(cfg, s) && !s.restarting && InCharge(s, m) && s.monitors[m].Idle?
    && s.health.value.status == Starting && s.health.value.failingStreak == 0
  }

  /** A start, or the restoring of a running container, puts a fresh monitor in charge, with the health reset. */
  lemma StartPutsMonitorInCharge(cfg: Config, s: State, step: Step)
    requires OneMonitor(s) && Enabled(s, step) && cfg.probe
    requires step.Started? || (step == EventStart(true) && !s.running) || (step.Restored? && !s.restarting)
    ensures JustStarted(cfg, Apply(cfg, s, step), s.channels)
  {
    FlagsKeepOneMonitor(s, Flagged(s, step));
    InitKeepsOneMonitor(cfg, Flagged(s, step));
  }

  /** While a monitor stays open, every step either is its report or leaves health and start time alone. */
  lemma StepWhileOpen(cfg: Config, s: State, step: Step, m: nat)
    requires OneMonitor(s) && OpenIsWanted(cfg, s) && Enabled(s, step) && InCharge(s, m)
    requires Open(Apply(cfg, s, step), m)
    ensures Open(s, m)
    ensures var t := Apply(cfg, s, step);
            && InCharge(t, m) && t.startedAt == s.startedAt && (t.restarting ==> s.restarting)
            && t.health == if step == Report(m) then
                             Some(Accept(cfg, s.startedAt, s.health.value, s.monitors[m].result))
                           else s.health
  {
    assert Open(s, m);
    assert m in CloseMonitor(s).closed;
    assert m in InitMonitor(cfg, Flagged(s, step)).closed;
    StepKeepsOneMonitor(cfg, s, step);
    assert InCharge(Apply(cfg, s, step), m);
    if step.Report? && step != Report(m) {
      assert !InCharge(s, step.m) && !Open(s, step.m);
    }
  }

  lemma ClosedStaysClosed(cfg: Config, s: State, step: Step, m: nat)
    requires OneMonitor(s) && Enabled(s, step) && m in s.closed
    ensures m in Apply(cfg, s, step).closed
  {
  }

  lemma TimesStep(cfg: Config, s: State, step: Step, m: nat, rs: seq<ProbeResult>)
    requires OneMonitor(s) && Enabled(s, step) && m in s.monitors && TimesOk(s, m, rs)
    ensures TimesOk(Apply(cfg, s, step), m, if step == Report(m) then rs + [s.monitors[m].result] else rs)
  {
    if step.StartProbe? || step.EndProbe? || step.Report? || step.NoticeStop? {
      ProbingTimesStep(cfg, s, step, m, rs);
    } else {
      var t := Apply(cfg, s, step);
      assert m < s.channels && m in t.monitors && t.monitors[m] == s.monitors[m] && t.clock == s.clock;
    }
  }

  lemma ProbingTimesStep(cfg: Config, s: State, step: Step, m: nat, rs: seq<ProbeResult>)
    requires Enabled(s, step) && m in s.monitors && TimesOk(s, m, rs)
    requires step.StartProbe? || step.EndProbe? || step.Report? || step.NoticeStop?
    ensures TimesOk(Apply(cfg, s, step), m, if step == Report(m) then rs + [s.monitors[m].result] else rs)
  {
  }

  /**
   A monitor's whole lifetime. In every run from the moment a monitor is put in charge, as long as its
   channel is still open, health is exactly what its own results so far describe: in particular the
   streak, the status and the log do not depend on anything any other monitor or handler did.
   */
  lemma {:induction false} HealthIsItsMonitorsReports(cfg: Config, s: State, m: nat, steps: seq<Step>)
    requires JustStarted(cfg, s, m)
    requires Open(Run(cfg, s, steps), m)
    ensures var t, rs := Run(cfg, s, steps), Reports(cfg, s, steps, m);
            && OneMonitor(t) && OpenIsWanted(cfg, t) && !t.restarting && InCharge(t, m) && t.startedAt == s.startedAt
            && TimesOk(t, m, rs)
            && t.health == Some(AcceptAll(cfg, s.startedAt, s.health.value, rs))
  {
    if steps == [] {
    } else {
      var init, step := steps[..|steps| - 1], steps[|steps| - 1];
      var u := Run(cfg, s, init);
      RunKeepsOneMonitor(cfg, s, init);
      if m in u.closed && Enabled(u, step) {
        ClosedStaysClosed(cfg, u, step, m);
      }
      HealthIsItsMonitorsReports(cfg, s, m, init);
      if Enabled(u, step) {
        StepKeepsOneMonitor(cfg, u, step);
        StepKeepsOpenIsWanted(cfg, u, step);
        StepWhileOpen(cfg, u, step, m);
        var rs := Reports(cfg, s, init, m);
        TimesStep(cfg, u, step, m, rs);
        if step == Report(m) {
          assert (rs + [u.monitors[m].result])[..|rs|] == rs;
        }
      }
    }
  }

  /** Streak, status and log in every run of the daemon, between a start and the next close of its monitor. */
  lemma HealthThroughoutAMonitorsLife(cfg: Config, s: State, m: nat, steps: seq<Step>)
    requires JustStarted(cfg, s, m)
    requires Open(Run(cfg, s, steps), m)
    ensures Run(cfg, s, steps).health.Some?
    ensures Describes(cfg, s.startedAt, s.health.value, Reports(cfg, s, steps, m), Run(cfg, s, steps).health.value)
  {
    HealthIsItsMonitorsReports(cfg, s, m, steps);
    ResultsDescribeHealth(cfg, s.startedAt, s.health.value, Reports(cfg, s, steps, m));
  }

  /** From the start itself: while its monitor is open, the start period counts from that start. */
  lemma HealthSinceStart(cfg: Config, s: State, at: int, steps: seq<Step>)
    requires OneMonitor(s) && Enabled(s, Started(at)) && cfg.probe
    requires Open(Run(cfg, Apply(cfg, s, Started(at)), steps), s.channels)
    ensures var t := Apply(cfg, s, Started(at));
            var u, rs := Run(cfg, t, steps), Reports(cfg, t, steps, s.channels);
            && t.health.Some? && u.health.Some?
            && t.health.value.log == (if s.health.Some? then s.health.value.log else [])
            && Describes(cfg, at, t.health.value, rs, u.health.value)
  {
    StartPutsMonitorInCharge(cfg, s, Started(at));
    FlagsAfter(cfg, s, Started(at));
    HealthThroughoutAMonitorsLife(cfg, Apply(cfg, s, Started(at)), s.channels, steps);
  }

  // ---- what each step does ----

  /** An event that finds nothing to do changes nothing. */
  predicate Effective(s: State, step: Step) {
    match step
    case EventPaused => !s.paused
    case EventResumed => s.paused
    case EventStart(loaded) => loaded && !s.running
    case _ => true
  }

  /** The container's own flags after every step; only a start by the daemon moves the start time. */
  lemma FlagsAfter(cfg: Config, s: State, step: Step)
    requires Enabled(s, step)
    ensures var t := Apply(cfg, s, step);
            && (!Effective(s, step) ==> t == s)
            && t.startedAt == (if step.Started? then step.at else s.startedAt)
            && t.running == (if step.Exit? then step.restart
                             else if step.RestartFailed? then false
                             else s.running || step.Started? || (step.EventStart? && step.loaded))
            && (Effective(s, step) ==>
                  && t.restarting == (if step.Exit? then step.restart
                                      else s.restarting && !step.Started? && !step.EventStart? && !step.RestartFailed?)
                  && t.paused == (if step.Pause? || step.EventPaused? then true
                                  else s.paused && (step.StartProbe? || step.EndProbe? || step.Report? ||
                                                    step.NoticeStop? || step.EventOOM?)))
  {
  }

  /** The step looks at whether a monitor should run. */
  predicate Decides(cfg: Config, s: State, step: Step) {
    match step
    case Pause => true
    case Unpause => true
    case EventPaused => !s.paused
    case EventResumed => s.paused
    case EventOOM => true
    case EventStart(loaded) => loaded && !s.running && cfg.probe
    case Started(_) => cfg.probe
    case Restored => cfg.probe
    case _ => false
  }

  /** After such a step a monitor is in charge exactly if there is a health and one is wanted; after an exit none. */
  lemma HandlersDecide(cfg: Config, s: State, step: Step)
    requires OneMonitor(s) && Enabled(s, step)
    ensures var t := Apply(cfg, s, step);
            && (Decides(cfg, s, step) ==>
                  ((exists m: nat :: Open(t, m)) <==> t.health.Some? && t.running && !t.paused && cfg.probe))
            && (step.Exit? ==> forall m: nat :: !Open(t, m))
            && (t.health.Some? <==> s.health.Some? || (cfg.probe && Decides(cfg, s, step) &&
                                      (step.Started? || step.EventStart? || step.Restored?)))
  {
    var t := Apply(cfg, s, step);
    StepKeepsOneMonitor(cfg, s, step);
    if t.health.Some? && t.health.value.stop.Some? {
      assert InCharge(t, t.health.value.stop.value);
      assert Open(t, t.health.value.stop.value);
    }
    assert forall m: nat :: Open(t, m) ==> InCharge(t, m);
  }

  /** Closing a monitor marks the container unhealthy, unless it is for a start, and keeps streak and log. */
  lemma ClosingMarksUnhealthy(cfg: Config, s: State, step: Step, m: nat)
    requires OneMonitor(s) && Enabled(s, step) && Open(s, m) && m in Apply(cfg, s, step).closed
    ensures var t, starts := Apply(cfg, s, step), step.Started? || step.EventStart? || step.Restored?;
            && s.health.Some? && t.health.Some? && t.health.value.log == s.health.value.log
            && t.health.value.status == (if starts then Starting else Unhealthy)
            && t.health.value.failingStreak == (if starts then 0 else s.health.value.failingStreak)
  {
    assert InCharge(s, m);
  }

  lemma RunStep(cfg: Config, s: State, steps: seq<Step>, step: Step)
    ensures Run(cfg, s, steps + [step]) == Next(cfg, Run(cfg, s, steps), step)
  {
    assert (steps + [step])[..|steps|] == steps;
  }

  /** A probe of the monitor in charge that nothing interrupts records its exit code and its start. */
  lemma ProbeCycle(cfg: Config, s: State, m: nat, now: int, code: int)
    requires OneMonitor(s) && InCharge(s, m) && s.monitors[m].Idle? && s.clock <= now
    ensures var h := Accept(cfg, s.startedAt, s.health.value, ProbeResult(code, now));
            Run(cfg, s, [StartProbe(m, now), EndProbe(m, code), Report(m)]) == s.(clock := now, health := Some(h))
  {
    assert Open(s, m);
    var probing := s.(monitors := s.monitors[m := Probing(now)], clock := now);
    var ready := s.(monitors := s.monitors[m := Ready(ProbeResult(code, now))], clock := now);
    assert probing.monitors[m := Ready(ProbeResult(code, now))] == ready.monitors;
    assert ready.monitors[m := Idle] == s.monitors;
    assert [StartProbe(m, now), EndProbe(m, code), Report(m)] ==
           [] + [StartProbe(m, now)] + [EndProbe(m, code)] + [Report(m)];
    RunStep(cfg, s, [], StartProbe(m, now));
    RunStep(cfg, s, [] + [StartProbe(m, now)], EndProbe(m, code));
    RunStep(cfg, s, [] + [StartProbe(m, now)] + [EndProbe(m, code)], Report(m));
  }

  /** What a monitor holds stems from a probe of its own in the run. */
  ghost predicate Stems(steps: seq<Step>, m: nat, phase: Phase) {
    match phase
    case Probing(start) => StartProbe(m, start) in steps
    case Ready(r) => StartProbe(m, r.start) in steps && EndProbe(m, r.exitCode) in steps
    case _ => true
  }

  /** In every run, each result a monitor hands in is the exit code and the start of a probe it ran. */
  lemma {:induction false} ResultsStemFromProbes(cfg: Config, s: State, steps: seq<Step>, m: nat)
    requires OneMonitor(s) && m in s.monitors && s.monitors[m].Idle?
    ensures m in Run(cfg, s, steps).monitors && Stems(steps, m, Run(cfg, s, steps).monitors[m])
    ensures forall r :: r in Reports(cfg, s, steps, m) ==>
              StartProbe(m, r.start) in steps && EndProbe(m, r.exitCode) in steps
  {
    if steps == [] {
    } else {
      var init, step := steps[..|steps| - 1], steps[|steps| - 1];
      var u := Run(cfg, s, init);
      ResultsStemFromProbes(cfg, s, init, m);
      RunKeepsOneMonitor(cfg, s, init);
      assert forall x :: x in init ==> x in steps;
      if Enabled(u, step) {
        assert steps[|steps| - 1] in steps;
        PhaseStep(cfg, u, step, m);
      }
    }
  }

  /** Only a monitor's own steps move it on. */
  lemma PhaseStep(cfg: Config, s: State, step: Step, m: nat)
    requires OneMonitor(s) && Enabled(s, step) && m in s.monitors
    ensures var t := Apply(cfg, s, step);
            && m in t.monitors
            && t.monitors[m] == if step == Report(m) then Idle
                                else if step == NoticeStop(m) then Returned
                                else if step.StartProbe? && step.m == m then Probing(step.now)
                                else if step.EndProbe? && step.m == m then
                                  Ready(ProbeResult(step.exitCode, s.monitors[m].start))
                                else s.monitors[m]
  {
    if step.StartProbe? || step.EndProbe? || step.Report? || step.NoticeStop? {
    } else {
      HandlersKeepPhases(cfg, s, step, m);
    }
  }

  lemma HandlersKeepPhases(cfg: Config, s: State, step: Step, m: nat)
    requires OneMonitor(s) && Enabled(s, step) && m in s.monitors
    requires !(step.StartProbe? || step.EndProbe? || step.Report? || step.NoticeStop?)
    ensures m in Apply(cfg, s, step).monitors && Apply(cfg, s, step).monitors[m] == s.monitors[m]
  {
    assert m < s.channels;
  }

  // ---- the code, step by step ----

  /** The container fields the handlers update in place; `View` is their value as a state of the machine. */
  class MonitoredContainer {
    const cfg: Config
    var running: bool
    var paused: bool
    var restarting: bool
    var startedAt: int
    var health: Option<Health>
    var channels: nat
    var closed: set<nat>
    var monitors: map<nat, Phase>
    var clock: int

    ghost function View(): State
      reads this
    {
      State(running, paused, restarting, startedAt, health, channels, closed, monitors, clock)
    }

    method CloseMonitorChannel()
      modifies this
      ensures View() == CloseMonitor(old(View()))
    {
      if health.Some? && health.value.stop.Some? {
        closed := closed + {health.value.stop.value};
        health := Some(health.value.(stop := None));
        health := Some(health.value.(status := Unhealthy));
      }
    }

    method OpenMonitorChannel() returns (stop: Option<nat>)
      requires health.Some?
      modifies this
      ensures View() == OpenMonitor(old(View()))
      ensures stop.Some? <==> old(health).value.stop.None?
    {
      stop := None;
      if health.value.stop.None? {
        stop := Some(channels);
        health := Some(health.value.(stop := stop));
        monitors := monitors[channels := Idle];
        channels := channels + 1;
      }
    }

    method UpdateHealthMonitor()
      modifies this
      ensures View() == UpdateMonitor(cfg, old(View()))
    {
      if health.None? {
        return;
      }
      var wantRunning := running && !paused && cfg.probe;
      if wantRunning {
        var _ := OpenMonitorChannel();
      } else {
        CloseMonitorChannel();
      }
    }

    method InitHealthMonitor()
      modifies this
      ensures View() == InitMonitor(cfg, old(View()))
    {
      if !cfg.probe {
        return;
      }
      CloseMonitorChannel();
      if health.Some? {
        health := Some(health.value.(status := Starting));
        health := Some(health.value.(failingStreak := 0));
      } else {
        health := Some(Health(Starting, 0, [], None));
      }
      UpdateHealthMonitor();
    }

    method HandleProbeResult(m: nat)
      requires m in monitors && monitors[m].Ready? && (m !in closed ==> health.Some?)
      modifies this
      ensures View() == HandIn(cfg, old(View()), m)
    {
      var result := monitors[m].result;
      monitors := monitors[m := Idle];
      if m in closed {
        return;
      }
      var retries := cfg.retries;
      if retries <= 0 {
        retries := DEFAULT_PROBE_RETRIES;
      }
      var h := health.value;
      if |h.log| >= MAX_LOG_ENTRIES {
        h := h.(log := h.log[|h.log| + 1 - MAX_LOG_ENTRIES..] + [result]);
      } else {
        h := h.(log := h.log + [result]);
      }
      if result.exitCode == 0 {
        h := h.(failingStreak := 0, status := Healthy);
      } else {
        var shouldIncrementStreak := true;
        if h.status == Starting {
          var timeSinceStart := result.start - startedAt;
          if timeSinceStart < cfg.startPeriod {
            shouldIncrementStreak := false;
          }
        }
        if shouldIncrementStreak {
          h := h.(failingStreak := h.failingStreak + 1);
          if h.failingStreak >= retries {
            h := h.(status := Unhealthy);
          }
        }
      }
      health := Some(h);
    }
  }
}
