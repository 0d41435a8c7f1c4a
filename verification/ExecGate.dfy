/**
 Starting one exec (moby/daemon/exec.go) against the exit events for it (moby/daemon/monitor.go).
 The exec's lock is explicit, and what happens while it is held is split where another thread could
 look at the container's exec store, which has a lock of its own.
 */
module ExecGate {
  import opened Wrappers

  const EXIT_EACCES := 126

  /** Where a thread is. The first group are start calls, the second exit events. */
  datatype Phase =
    | Wanting               // has looked the exec up
    | AtGate                // holds the lock
    | Passed                // through the gate, preparing the process
    | Executing             // holds the lock
    | ExecFailed            // holds the lock, exit code set
    | Window                // lock released, exit code set, cleanup pending
    | Failing               // error return without an exit code, cleanup pending
    | CleaningUp            // holds the lock
    | Removed               // holds the lock, out of the store
    | Attached              // process runs
    | Refused
    | Returned
    | ExitFound             // has found the exec in the store
    | ExitLocked            // holds the lock
    | ExitRemoved           // holds the lock, out of the store
    | ExitDone

  datatype State = State(
    inStore: bool, running: bool, exitCode: Option<int>, lock: Option<nat>,
    passes: nat, closes: nat, threads: map<nat, Phase>)

  datatype Step =
    | StartCall(t: nat)
    | LockGate(t: nat)
    | Gate(t: nat)
    | PrepareFails(t: nat)
    | LockExec(t: nat)
    | Exec(t: nat, result: Option<int>)
    | UnlockFailed(t: nat)
    | EndAttach(t: nat, ok: bool)
    | LockCleanup(t: nat)
    | CleanupRemove(t: nat)
    | CleanupFinish(t: nat)
    | ExitEvent(t: nat)
    | LockExit(t: nat)
    | ExitRemove(t: nat)
    | ExitSet(t: nat, code: int)
    | Unregister(t: nat)

  predicate At(s: State, t: nat, p: Phase) {
    t in s.threads && s.threads[t] == p
  }

  predicate Enabled(s: State, step: Step) {
    var t := step.t;
    match step
    case StartCall(_) => t !in s.threads
    case LockGate(_) => At(s, t, Wanting) && s.lock.None?
    case Gate(_) => At(s, t, AtGate)
    case PrepareFails(_) => At(s, t, Passed)
    case LockExec(_) => At(s, t, Passed) && s.lock.None?
    case Exec(_, _) => At(s, t, Executing)
    case UnlockFailed(_) => At(s, t, ExecFailed)
    case EndAttach(_, _) => At(s, t, Attached)
    case LockCleanup(_) => (At(s, t, Window) || At(s, t, Failing)) && s.lock.None?
    case CleanupRemove(_) => At(s, t, CleaningUp)
    case CleanupFinish(_) => At(s, t, Removed)
    case ExitEvent(_) => t !in s.threads
    case LockExit(_) => At(s, t, ExitFound) && s.lock.None?
    case ExitRemove(_) => At(s, t, ExitLocked)
    case ExitSet(_, _) => At(s, t, ExitRemoved)
    case Unregister(_) => t !in s.threads
  }

  function To(s: State, t: nat, p: Phase): State {
    s.(threads := s.threads[t := p])
  }

  function Apply(s: State, step: Step): State
    requires Enabled(s, step)
  {
    var t := step.t;
    match step
    case StartCall(_) => To(s, t, Wanting)
    case LockGate(_) => To(s, t, AtGate).(lock := Some(t))
    case Gate(_) =>
      if s.exitCode.Some? || s.running then To(s, t, Refused).(lock := None)
      else To(s, t, Passed).(running := true, passes := s.passes + 1, lock := None)
    case PrepareFails(_) => To(s, t, Failing)
    case LockExec(_) => To(s, t, Executing).(lock := Some(t))
    case Exec(_, result) =>
      if result.None? then To(s, t, Attached).(closes := s.closes + 1, lock := None)
      else To(s, t, ExecFailed).(closes := s.closes + 1, exitCode := result)
    case UnlockFailed(_) => To(s, t, Window).(lock := None)
    case EndAttach(_, ok) => To(s, t, if ok then Returned else Failing)
    case LockCleanup(_) => To(s, t, CleaningUp).(lock := Some(t))
    case CleanupRemove(_) => To(s, t, Removed).(inStore := false)
    case CleanupFinish(_) =>
      To(s, t, Returned).(
        running := false, exitCode := if s.exitCode.None? then Some(EXIT_EACCES) else s.exitCode, lock := None)
    case ExitEvent(_) => To(s, t, if s.inStore then ExitFound else ExitDone)
    case LockExit(_) => To(s, t, ExitLocked).(lock := Some(t))
    case ExitRemove(_) => To(s, t, ExitRemoved).(inStore := false)
    case ExitSet(_, code) => To(s, t, ExitDone).(exitCode := Some(code), running := false, lock := None)
    case Unregister(_) => s.(inStore := false)
  }

  /** A step that is not possible in the current state does nothing. */
  function Next(s: State, step: Step): State {
    if Enabled(s, step) then Apply(s, step) else s
  }

  function Run(s: State, steps: seq<Step>): State {
    if steps == [] then s else Next(Run(s, steps[..|steps| - 1]), steps[|steps| - 1])
  }

  /** A registered exec that nobody has tried to start. */
  predicate Initial(s: State) {
    s.inStore && !s.running && s.exitCode.None? && s.lock.None? && s.passes == 0 && s.closes == 0 && s.threads == map[]
  }

  predicate HoldsLock(p: Phase) {
    p.AtGate? || p.Executing? || p.ExecFailed? || p.CleaningUp? || p.Removed? || p.ExitLocked? || p.ExitRemoved?
  }

  /** Through the gate and not yet returned. */
  predicate Inside(p: Phase) {
    p.Passed? || p.Executing? || p.ExecFailed? || p.Window? || p.Failing? || p.CleaningUp? || p.Removed? || p.Attached?
  }

  predicate IsInside(s: State, t: nat) {
    t in s.threads && Inside(s.threads[t])
  }

  /** Between setting an exit code and taking the exec out of the store. */
  predicate InWindow(p: Phase) {
    p.ExecFailed? || p.Window? || p.CleaningUp?
  }

  ghost predicate LockOk(s: State) {
    && (s.lock.Some? ==> s.lock.value in s.threads)
    && forall t :: t in s.threads ==> (HoldsLock(s.threads[t]) <==> s.lock == Some(t))
  }

  /** The gate is passed at most once; afterwards the exec runs or has an exit code. */
  ghost predicate GateOk(s: State) {
    && s.passes <= 1
    && (s.passes == 1 ==> s.running || s.exitCode.Some?)
    && (forall t: nat :: IsInside(s, t) ==> s.passes == 1)
    && (forall t: nat, u: nat :: IsInside(s, t) && IsInside(s, u) ==> t == u)
  }

  /** `Started` is closed at most once, by the call that passed the gate. */
  ghost predicate CloseOk(s: State) {
    && s.closes <= s.passes
    && (forall t :: t in s.threads && (s.threads[t].Passed? || s.threads[t].Executing?) ==> s.closes == 0)
  }

  /** Whoever is past the removal has removed it; an exit code in the store exists only inside the window. */
  ghost predicate StoreOk(s: State) {
    && (forall t :: t in s.threads && (s.threads[t].Removed? || s.threads[t].ExitRemoved?) ==> !s.inStore)
    && (s.inStore && s.exitCode.Some? ==> exists t :: t in s.threads && InWindow(s.threads[t]))
  }

  ghost predicate Inv(s: State) {
    LockOk(s) && GateOk(s) && CloseOk(s) && StoreOk(s)
  }

  lemma LockStep(s: State, step: Step)
    requires Inv(s) && Enabled(s, step)
    ensures LockOk(Apply(s, step))
  {
  }

  lemma GateStep(s: State, step: Step)
    requires Inv(s) && Enabled(s, step)
    ensures GateOk(Apply(s, step))
  {
    var s', t := Apply(s, step), step.t;
    forall u: nat | u != t ensures IsInside(s', u) <==> IsInside(s, u) {
    }
    if step.Gate? {
      assert s'.passes == s.passes + 1 ==> s.passes == 0;
    } else {
      assert s'.passes == s.passes;
      assert IsInside(s', t) ==> IsInside(s, t);
    }
  }

  lemma CloseStep(s: State, step: Step)
    requires Inv(s) && Enabled(s, step)
    ensures CloseOk(Apply(s, step))
  {
    var s', t := Apply(s, step), step.t;
    forall u: nat | u in s'.threads && (s'.threads[u].Passed? || s'.threads[u].Executing?)
      ensures s'.closes == 0
    {
      assert IsInside(s', u);
      if u != t {
        assert IsInside(s, u) && !(step.Exec? && IsInside(s, t));
      }
    }
    assert step.Exec? ==> IsInside(s, t);
  }

  lemma StoreStep(s: State, step: Step)
    requires Inv(s) && Enabled(s, step)
    ensures StoreOk(Apply(s, step))
  {
    var s', t := Apply(s, step), step.t;
    assert forall u :: u in s'.threads && u != t ==> u in s.threads && s'.threads[u] == s.threads[u];
    if s.inStore && s.exitCode.Some? {
      var w :| w in s.threads && InWindow(s.threads[w]);
      assert w in s'.threads;
      if w != t {
        assert s'.threads[w] == s.threads[w];
      }
    }
    if s'.inStore && s'.exitCode.Some? && s.exitCode.None? {
      assert step.Exec?;
      assert InWindow(s'.threads[t]);
    }
  }

  lemma {:induction false} RunKeepsInv(s: State, steps: seq<Step>)
    requires Initial(s)
    ensures Inv(Run(s, steps))
  {
    if steps == [] {
    } else {
      var u, step := Run(s, steps[..|steps| - 1]), steps[|steps| - 1];
      RunKeepsInv(s, steps[..|steps| - 1]);
      if Enabled(u, step) {
        LockStep(u, step);
        GateStep(u, step);
        CloseStep(u, step);
        StoreStep(u, step);
      }
    }
  }

  /**
   Over every interleaving of start calls, exit events and container cleanup: the gate is passed at most
   once, `Started` is closed at most once, and an exec with an exit code is still in the container's
   store only while a failed start is on its way from setting the code to its deferred cleanup. The exec's
   lock is held by at most one thread.
   */
  lemma GatePassedAtMostOnce(s: State, steps: seq<Step>)
    requires Initial(s)
    ensures var u := Run(s, steps);
            && u.passes <= 1 && u.closes <= 1
            && (forall t, v :: t in u.threads && v in u.threads ==>
                  (HoldsLock(u.threads[t]) && HoldsLock(u.threads[v]) ==> t == v))
            && (u.inStore && u.exitCode.Some? ==> exists t :: t in u.threads && InWindow(u.threads[t]))
  {
    RunKeepsInv(s, steps);
  }

  /** Once an exec has an exit code it keeps one, and no call passes the gate any more. */
  lemma {:induction false} ExitedExecNeverRestarts(s: State, steps: seq<Step>)
    requires s.exitCode.Some?
    ensures Run(s, steps).exitCode.Some? && Run(s, steps).passes == s.passes
  {
    if steps == [] {
    } else {
      ExitedExecNeverRestarts(s, steps[..|steps| - 1]);
    }
  }

  // ---- what a thread achieves ----

  lemma MovedTwice(threads: map<nat, Phase>, t: nat, p: Phase, q: Phase)
    ensures threads[t := p][t := q] == threads[t := q]
  {
  }

  /** A start that nothing disturbs passes the gate of an exec that has not run, and no other. */
  lemma GateAlone(s: State, t: nat)
    requires t !in s.threads && s.lock.None?
    ensures var gated := Next(Next(Next(s, StartCall(t)), LockGate(t)), Gate(t));
            gated == if s.exitCode.None? && !s.running then
                       s.(running := true, passes := s.passes + 1, threads := s.threads[t := Passed])
                     else s.(threads := s.threads[t := Refused])
  {
    MovedTwice(s.threads, t, Wanting, AtGate);
    MovedTwice(s.threads, t, AtGate, if s.exitCode.None? && !s.running then Passed else Refused);
  }

  /** Past the gate, the process is started, or the exec fails and is cleaned up with its exit code. */
  lemma ExecAlone(s: State, t: nat, result: Option<int>)
    requires At(s, t, Passed) && s.lock.None?
    ensures var executed := Next(Next(s, LockExec(t)), Exec(t, result));
            if result.None? then executed == s.(closes := s.closes + 1, threads := s.threads[t := Attached])
            else
              Next(executed, UnlockFailed(t)) ==
              s.(closes := s.closes + 1, exitCode := result, threads := s.threads[t := Window])
  {
    MovedTwice(s.threads, t, Executing, if result.None? then Attached else ExecFailed);
    MovedTwice(s.threads, t, ExecFailed, Window);
  }

  /** The deferred cleanup takes the exec out of the store, stopped, with an exit code. */
  lemma CleanupAlone(s: State, t: nat)
    requires (At(s, t, Window) || At(s, t, Failing)) && s.lock.None?
    ensures Next(Next(Next(s, LockCleanup(t)), CleanupRemove(t)), CleanupFinish(t)) ==
            s.(inStore := false, running := false, threads := s.threads[t := Returned],
               exitCode := if s.exitCode.Some? then s.exitCode else Some(126))
  {
    MovedTwice(s.threads, t, CleaningUp, Removed);
    MovedTwice(s.threads, t, Removed, Returned);
  }

  /** Removing the container drops the exec from the store, and changes nothing else. */
  lemma UnregisterAlone(s: State, t: nat)
    requires t !in s.threads
    ensures Next(s, Unregister(t)) == s.(inStore := false)
  {
  }

  /** Preparing the process or attaching to it can fail, which leads to the cleanup. */
  lemma FailuresAreCleanedUp(s: State, t: nat, ok: bool)
    ensures At(s, t, Passed) ==> Next(s, PrepareFails(t)) == s.(threads := s.threads[t := Failing])
    ensures At(s, t, Attached) ==>
              Next(s, EndAttach(t, ok)) == s.(threads := s.threads[t := if ok then Returned else Failing])
  {
  }

  /** An exit event that nothing disturbs takes the exec out of the store and sets its exit code. */
  lemma ExitAlone(s: State, t: nat, code: int)
    requires t !in s.threads && s.lock.None?
    ensures var found := Next(s, ExitEvent(t));
            if s.inStore then
              Next(Next(Next(found, LockExit(t)), ExitRemove(t)), ExitSet(t, code)) ==
              s.(inStore := false, running := false, exitCode := Some(code), threads := s.threads[t := ExitDone])
            else found == s.(threads := s.threads[t := ExitDone])
  {
    MovedTwice(s.threads, t, ExitFound, ExitLocked);
    MovedTwice(s.threads, t, ExitLocked, ExitRemoved);
    MovedTwice(s.threads, t, ExitRemoved, ExitDone);
  }

  /** An exit event under way, or done with the exec out of the store and its exit code set. */
  predicate Handling(s: State, t: nat) {
    && t in s.threads
    && (s.threads[t].ExitFound? || s.threads[t].ExitLocked? || s.threads[t].ExitRemoved? || s.threads[t].ExitDone?)
    && (s.threads[t].ExitRemoved? || s.threads[t].ExitDone? ==> !s.inStore)
    && (s.threads[t].ExitDone? ==> s.exitCode.Some?)
  }

  /** In every run, an exit event that finds the exec in the store is done only when it has been handled. */
  lemma ExitEventsAreHandled(s: State, t: nat, steps: seq<Step>)
    requires t !in s.threads && s.inStore
    ensures var u := Run(Next(s, ExitEvent(t)), steps);
            t in u.threads && (u.threads[t].ExitDone? ==> u.exitCode.Some? && !u.inStore)
  {
    RunsKeepHandling(s, t, steps);
  }

  lemma {:induction false} RunsKeepHandling(s: State, t: nat, steps: seq<Step>)
    requires t !in s.threads && s.inStore
    ensures Handling(Run(Next(s, ExitEvent(t)), steps), t)
  {
    if steps == [] {
    } else {
      RunsKeepHandling(s, t, steps[..|steps| - 1]);
      HandlingStep(Run(Next(s, ExitEvent(t)), steps[..|steps| - 1]), steps[|steps| - 1], t);
    }
  }

  lemma HandlingStep(s: State, step: Step, t: nat)
    requires Handling(s, t)
    ensures Handling(Next(s, step), t)
  {
  }

  // ---- the critical sections, as written ----

  /** The exec's fields and its place in the container's store; the ghost fields are the machine's account. */
  class ExecConfig {
    var running: bool
    var exitCode: Option<int>
    var inStore: bool
    ghost var lock: Option<nat>
    ghost var passes: nat
    ghost var closes: nat
    ghost var threads: map<nat, Phase>

    ghost function View(): State
      reads this
    {
      State(inStore, running, exitCode, lock, passes, closes, threads)
    }

    /** The gate of ContainerExecStart: an exec that has run or is running is refused. */
    method PassGate(ghost t: nat) returns (passed: bool)
      requires At(View(), t, AtGate)
      modifies this
      ensures View() == Apply(old(View()), Gate(t))
      ensures passed <==> old(exitCode).None? && !old(running)
    {
      passed := false;
      if exitCode.Some? {
        threads, lock := threads[t := Refused], None;
        return;
      }
      if running {
        threads, lock := threads[t := Refused], None;
        return;
      }
      running := true;
      passed := true;
      passes := passes + 1;
      threads, lock := threads[t := Passed], None;
    }

    /** The deferred cleanup of a failed start: out of the store first, then not running, then an exit code. */
    method CleanUpFailedStart(ghost t: nat)
      requires At(View(), t, CleaningUp)
      modifies this
      ensures View() == Apply(Apply(old(View()), CleanupRemove(t)), CleanupFinish(t))
      ensures !inStore && !running && exitCode == if old(exitCode).Some? then old(exitCode) else Some(EXIT_EACCES)
    {
      inStore := false;
      running := false;
      if exitCode.None? {
        exitCode := Some(EXIT_EACCES);
      }
      threads, lock := threads[t := Returned], None;
    }

    /** An exit event, once it has the lock: out of the store before the exit code is set. */
    method ProcessExit(ghost t: nat, code: int)
      requires At(View(), t, ExitLocked)
      modifies this
      ensures View() == Apply(Apply(old(View()), ExitRemove(t)), ExitSet(t, code))
      ensures !inStore && !running && exitCode == Some(code)
    {
      inStore := false;
      exitCode := Some(code);
      running := false;
      threads, lock := threads[t := ExitDone], None;
    }
  }
}
