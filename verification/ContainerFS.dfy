/**
 The container filesystem view (moby/daemon/containerfs_linux.go): one worker goroutine that runs
 functions handed over an unbuffered channel, and the mounts and locks around it, including the reader
 returned by containerArchivePath (moby/daemon/archive_unix.go).
 */
module ContainerFS {
  import opened Wrappers

  // ---- the channel protocol ----

  datatype Kind = Run | Go

  /** A caller of RunInFS or GoInFS: offering its function, waiting for its result, or back. */
  datatype Caller = Offering(kind: Kind) | Waiting | Got(result: int) | Started | Cancelled | Panicked

  datatype Worker = Idle | Running(call: nat) | Exited

  /** How far the one Close call is. */
  datatype Closing = NotClosed | TodoClosed | DoneSeen | VolumesUnmounted | Unmounted

  /** `asked` records each call, `starts` counts how often its function was begun, `results` what it returned. */
  datatype State = State(
    closing: Closing, worker: Worker, callers: map<nat, Caller>, asked: map<nat, Kind>,
    starts: map<nat, nat>, results: map<nat, int>)

  datatype Step =
    | Offer(c: nat, kind: Kind)
    | Cancel(c: nat)
    | HandOver(c: nat)
    | Return(result: int)
    | SendOnClosed(c: nat)
    | CloseTodo
    | WorkerExits
    | SeeDone
    | UnmountVolumes
    | Unmount

  predicate IsOffering(s: State, c: nat) {
    c in s.callers && s.callers[c].Offering?
  }

  predicate Enabled(s: State, step: Step) {
    match step
    case Offer(c, _) => c !in s.callers
    case Cancel(c) => IsOffering(s, c)
    case HandOver(c) => IsOffering(s, c) && s.closing.NotClosed? && s.worker.Idle?
    case Return(_) => s.worker.Running?
    case SendOnClosed(c) => IsOffering(s, c) && !s.closing.NotClosed?
    case CloseTodo => s.closing.NotClosed?
    case WorkerExits => s.worker.Idle? && !s.closing.NotClosed?
    case SeeDone => s.closing.TodoClosed? && s.worker.Exited?
    case UnmountVolumes => s.closing.DoneSeen?
    case Unmount => s.closing.VolumesUnmounted?
  }

  function StartsOf(s: State, c: nat): nat {
    if c in s.starts then s.starts[c] else 0
  }

  function Apply(s: State, step: Step): State
    requires Enabled(s, step)
  {
    match step
    case Offer(c, kind) => s.(callers := s.callers[c := Offering(kind)], asked := s.asked[c := kind])
    case Cancel(c) => s.(callers := s.callers[c := Cancelled])
    case HandOver(c) =>
      s.(worker := Running(c), starts := s.starts[c := StartsOf(s, c) + 1],
         callers := s.callers[c := if s.callers[c].kind.Run? then Waiting else Started])
    case Return(result) =>
      var c := s.worker.call;
      s.(worker := Idle, results := s.results[c := result],
         callers := if c in s.callers && s.callers[c].Waiting? then s.callers[c := Got(result)] else s.callers)
    case SendOnClosed(c) => s.(callers := s.callers[c := Panicked])
    case CloseTodo => s.(closing := TodoClosed)
    case WorkerExits => s.(worker := Exited)
    case SeeDone => s.(closing := DoneSeen)
    case UnmountVolumes => s.(closing := VolumesUnmounted)
    case Unmount => s.(closing := Unmounted)
  }

  /** A step that is not possible in the current state does nothing. */
  function Next(s: State, step: Step): State {
    if Enabled(s, step) then Apply(s, step) else s
  }

  function RunAll(s: State, steps: seq<Step>): State {
    if steps == [] then s else Next(RunAll(s, steps[..|steps| - 1]), steps[|steps| - 1])
  }

  predicate Initial(s: State) {
    && s.closing.NotClosed? && s.worker.Idle?
    && s.callers == map[] && s.asked == map[] && s.starts == map[] && s.results == map[]
  }

  predicate Taken(s: State, c: nat) {
    c in s.callers && (s.callers[c].Waiting? || s.callers[c].Got? || s.callers[c].Started?)
  }

  /** The account of each caller: its function was begun once if it was taken, and its result is its own. */
  ghost predicate CallerOk(s: State, c: nat) {
    && StartsOf(s, c) == (if Taken(s, c) then 1 else 0)
    && (Taken(s, c) ==> (c in s.results <==> s.worker != Running(c)))
    && (c in s.results ==> Taken(s, c))
    && (s.worker == Running(c) ==> Taken(s, c))
    && (c in s.callers && s.callers[c].Waiting? ==> s.worker == Running(c))
    && (c in s.callers && s.callers[c].Got? ==> c in s.results && s.results[c] == s.callers[c].result)
    && (c in s.callers <==> c in s.asked)
    && (c in s.callers && s.callers[c].Offering? ==> s.asked[c] == s.callers[c].kind)
    && (Taken(s, c) ==> (s.callers[c].Started? <==> s.asked[c].Go?))
  }

  ghost predicate Inv(s: State) {
    && (forall c: nat :: CallerOk(s, c))
    && (s.worker.Exited? ==> !s.closing.NotClosed?)
    && (s.closing.DoneSeen? || s.closing.VolumesUnmounted? || s.closing.Unmounted? ==> s.worker.Exited?)
  }

  lemma CallerStep(s: State, step: Step, c: nat)
    requires Inv(s) && Enabled(s, step)
    ensures CallerOk(Apply(s, step), c)
  {
    assert CallerOk(s, c);
    if step.Return? {
      assert CallerOk(s, s.worker.call);
    }
  }

  lemma {:induction false} RunKeepsInv(s: State, steps: seq<Step>)
    requires Initial(s)
    ensures Inv(RunAll(s, steps))
  {
    if steps == [] {
    } else {
      var u, step := RunAll(s, steps[..|steps| - 1]), steps[|steps| - 1];
      RunKeepsInv(s, steps[..|steps| - 1]);
      if Enabled(u, step) {
        forall c: nat ensures CallerOk(Apply(u, step), c) {
          CallerStep(u, step, c);
        }
      }
    }
  }

  /**
   In every run: each function that was accepted has been begun exactly once and no other at all, a
   RunInFS caller that is back has its own function's result, a caller that still waits is the one whose
   function runs, and once Close starts unmounting every accepted function has returned. A RunInFS caller
   is kept waiting until its function returns, and then gets the result; a GoInFS caller never waits.
   */
  lemma ViewRunsEachFunctionOnce(s: State, steps: seq<Step>)
    requires Initial(s)
    ensures var u := RunAll(s, steps);
            && (forall c: nat :: StartsOf(u, c) == if Taken(u, c) then 1 else 0)
            && (forall c: nat :: c in u.callers && u.callers[c].Got? ==>
                  c in u.results && u.results[c] == u.callers[c].result)
            && (forall c: nat :: c in u.callers && u.callers[c].Waiting? ==> u.worker == Running(c))
            && (forall c: nat :: Taken(u, c) ==>
                  && c in u.asked
                  && u.callers[c] == if u.asked[c].Go? then Started
                                     else if c in u.results then Got(u.results[c]) else Waiting)
            && (u.closing.VolumesUnmounted? || u.closing.Unmounted? ==>
                  !u.worker.Running? && forall c: nat :: Taken(u, c) ==> c in u.results)
  {
    RunKeepsInv(s, steps);
    var u := RunAll(s, steps);
    forall c: nat
      ensures StartsOf(u, c) == if Taken(u, c) then 1 else 0
      ensures c in u.callers && u.callers[c].Got? ==> c in u.results && u.results[c] == u.callers[c].result
      ensures c in u.callers && u.callers[c].Waiting? ==> u.worker == Running(c)
      ensures u.worker.Exited? && Taken(u, c) ==> c in u.results
      ensures Taken(u, c) ==>
                && c in u.asked
                && u.callers[c] == if u.asked[c].Go? then Started
                                   else if c in u.results then Got(u.results[c]) else Waiting
    {
      assert CallerOk(u, c);
    }
  }

  /** Nothing runs once Close has begun to unmount. */
  lemma {:induction false} NothingRunsAfterClose(s: State, steps: seq<Step>)
    requires Inv(s) && (s.closing.DoneSeen? || s.closing.VolumesUnmounted? || s.closing.Unmounted?)
    ensures RunAll(s, steps).starts == s.starts && RunAll(s, steps).results == s.results
    ensures var u := RunAll(s, steps);
            u.worker.Exited? && !u.closing.NotClosed? && !u.closing.TodoClosed?
  {
    if steps == [] {
    } else {
      NothingRunsAfterClose(s, steps[..|steps| - 1]);
    }
  }

  /** A call that nothing disturbs is taken at once, and its function's result comes back. */
  lemma CallAlone(s: State, c: nat, kind: Kind, result: int)
    requires Inv(s) && s.closing.NotClosed? && s.worker.Idle? && c !in s.callers
    ensures var taken := Next(Next(s, Offer(c, kind)), HandOver(c));
            var done := Next(taken, Return(result));
            && taken.worker == Running(c) && taken.callers[c] == (if kind.Run? then Waiting else Started)
            && done.worker == Idle && c in done.results && done.results[c] == result
            && done.callers[c] == (if kind.Run? then Got(result) else Started)
  {
    assert CallerOk(s, c);
  }

  /** A call can give up while it is offered, and panics if it is still offered after Close. */
  lemma OfferEnds(s: State, c: nat)
    requires IsOffering(s, c)
    ensures Next(s, Cancel(c)) == s.(callers := s.callers[c := Cancelled])
    ensures !s.closing.NotClosed? ==> Next(s, SendOnClosed(c)) == s.(callers := s.callers[c := Panicked])
  {
  }

  /** Close waits for the function that runs, lets the worker exit, and unmounts volumes and root. */
  lemma CloseAlone(s: State, result: int)
    requires Inv(s) && s.closing.NotClosed?
    ensures var closed := Next(s, CloseTodo);
            var idle := if s.worker.Running? then Next(closed, Return(result)) else closed;
            var done := Next(Next(idle, WorkerExits), SeeDone);
            && (s.worker.Running? ==> Next(Next(closed, WorkerExits), SeeDone) == closed)
            && done.worker == Exited && done.closing == DoneSeen
            && Next(Next(done, UnmountVolumes), Unmount).closing == Unmounted
  {
  }

  // ---- mounts and locks ----

  datatype Resource = ContainerLock | RootMount | VolumeMounts | TempMounts | ViewThread

  datatype Event = Acquire(r: Resource) | Release(r: Resource)

  /** What a resource is built on: it must be there to acquire it and must outlive it. */
  function Below(r: Resource): set<Resource> {
    match r
    case ContainerLock => {}
    case RootMount => {}
    case VolumeMounts => {RootMount}
    case TempMounts => {RootMount}
    case ViewThread => {RootMount, VolumeMounts}
  }

  /** The resources held after a history, or None if one was taken twice, given back twice, or out of order. */
  function Held(history: seq<Event>): Option<set<Resource>> {
    if history == [] then Some({})
    else
      var before := Held(history[..|history| - 1]);
      if before.None? then None
      else
        match history[|history| - 1]
        case Acquire(r) => if r in before.value || !(Below(r) <= before.value) then None else Some(before.value + {r})
        case Release(r) =>
          if r !in before.value || exists q :: q in before.value && r in Below(q) then None
          else Some(before.value - {r})
  }

  lemma HeldStep(history: seq<Event>, e: Event)
    ensures Held(history + [e]) ==
            if Held(history).None? then None
            else
              var before := Held(history).value;
              match e
              case Acquire(r) => if r in before || !(Below(r) <= before) then None else Some(before + {r})
              case Release(r) =>
                if r !in before || exists q :: q in before && r in Below(q) then None else Some(before - {r})
  {
  }

  /** The history is in good order and leaves exactly these resources held. */
  predicate Holding(history: seq<Event>, rs: set<Resource>) {
    Held(history).Some? && Held(history).value == rs
  }

  function Acquisitions(history: seq<Event>): seq<Resource> {
    if history == [] then []
    else
      var earlier := Acquisitions(history[..|history| - 1]);
      if history[|history| - 1].Acquire? then earlier + [history[|history| - 1].r] else earlier
  }

  lemma AcquisitionsStep(history: seq<Event>, e: Event)
    ensures Acquisitions(history + [e]) == Acquisitions(history) + if e.Acquire? then [e.r] else []
  {
  }

  function Count(history: seq<Event>, e: Event): nat {
    if history == [] then 0 else Count(history[..|history| - 1], e) + if history[|history| - 1] == e then 1 else 0
  }

  class ContainerResources {
    ghost var history: seq<Event>
    ghost var held: set<Resource>
    ghost var taken: seq<Resource>

    /** The history so far is in good order; `held` is what it leaves, `taken` lists its acquisitions. */
    ghost predicate Valid()
      reads this
    {
      Holding(history, held) && taken == Acquisitions(history)
    }

    constructor ()
      ensures Valid() && history == [] && held == {} && taken == []
    {
      history, held, taken := [], {}, [];
    }

    method Acquiring(r: Resource)
      requires Valid() && r !in held && Below(r) <= held
      modifies this
      ensures Valid() && held == old(held) + {r} && taken == old(taken) + [r] && old(history) < history
    {
      HeldStep(history, Acquire(r));
      AcquisitionsStep(history, Acquire(r));
      history := history + [Acquire(r)];
      held := held + {r};
      taken := taken + [r];
    }

    method Releasing(r: Resource)
      requires Valid() && r in held && forall q :: q in held ==> r !in Below(q)
      modifies this
      ensures Valid() && held == old(held) - {r} && taken == old(taken) && old(history) < history
    {
      HeldStep(history, Release(r));
      AcquisitionsStep(history, Release(r));
      history := history + [Release(r)];
      held := held - {r};
    }

    /** Opening a view; the parameters say which call out succeeds. */
    method OpenContainerFS(mounts: bool, setsUp: bool, unshares: bool) returns (ok: bool)
      requires Valid() && held <= {ContainerLock}
      modifies this
      ensures Valid() && old(history) <= history
      ensures ok <==> mounts && setsUp && unshares
      ensures held == old(held) + if ok then {RootMount, VolumeMounts, ViewThread} else {}
      ensures taken == old(taken) + (if mounts then [RootMount] else [])
                     + (if mounts && setsUp then [VolumeMounts, TempMounts] else [])
                     + (if ok then [ViewThread] else [])
    {
      if !mounts {
        return false;
      }
      Acquiring(RootMount);
      if !setsUp {
        Releasing(RootMount);
        return false;
      }
      Acquiring(VolumeMounts);
      Acquiring(TempMounts);
      ok := unshares;
      if ok {
        Acquiring(ViewThread);
      }
      // deferred: the temporary mounts always go, the rest only after a failure
      Releasing(TempMounts);
      if !ok {
        Releasing(VolumeMounts);
        Releasing(RootMount);
      }
    }

    method CloseView()
      requires Valid() && {RootMount, VolumeMounts, ViewThread} <= held && TempMounts !in held
      modifies this
      ensures Valid() && old(history) <= history
      ensures held == old(held) - {RootMount, VolumeMounts, ViewThread} && taken == old(taken)
    {
      Releasing(ViewThread);
      Releasing(VolumeMounts);
      Releasing(RootMount);
    }

    /** On success the returned reader owns the lock and the view; on every error path all is given back. */
    method ContainerArchivePath(mounts: bool, setsUp: bool, unshares: bool, stats: bool, archives: bool)
      returns (reader: Reader?)
      requires Valid() && held == {}
      modifies this
      ensures Valid() && old(history) <= history
      ensures reader != null <==> mounts && setsUp && unshares && stats && archives
      ensures reader != null ==> fresh(reader) && reader.resources == this && !reader.closed
      ensures held == if reader != null then {ContainerLock, RootMount, VolumeMounts, ViewThread} else {}
      ensures taken == old(taken) + [ContainerLock] + (if mounts then [RootMount] else [])
                     + (if mounts && setsUp then [VolumeMounts, TempMounts] else [])
                     + (if mounts && setsUp && unshares then [ViewThread] else [])
    {
      Acquiring(ContainerLock);
      var ok := OpenContainerFS(mounts, setsUp, unshares);
      if !ok {
        Releasing(ContainerLock);
        return null;
      }
      if !stats || !archives {
        CloseView();
        Releasing(ContainerLock);
        return null;
      }
      reader := new Reader(this);
    }
  }

  /** The archive's reader (moby/pkg/ioutils/readers.go): its callback runs on the first close only. */
  class Reader {
    const resources: ContainerResources
    var closed: bool

    constructor (resources: ContainerResources)
      ensures this.resources == resources && !closed
    {
      this.resources, closed := resources, false;
    }

    /** While the reader is open it owns the lock and the view; once closed, they may be anybody's. */
    ghost predicate Valid()
      reads this, resources
    {
      resources.Valid() && (!closed ==> resources.held == {ContainerLock, RootMount, VolumeMounts, ViewThread})
    }

    /** The first close gives everything back, each once; any later one touches nothing. */
    method Close()
      requires Valid()
      modifies this, resources
      ensures Valid() && closed
      ensures if old(closed) then unchanged(resources)
              else resources.held == {} && old(resources.history) < resources.history
      ensures resources.taken == old(resources.taken)
      ensures forall r ::
                Count(resources.history, Acquire(r)) ==
                Count(resources.history, Release(r)) + if old(closed) && r in old(resources.held) then 1 else 0
    {
      if !closed {
        closed := true;
        resources.CloseView();
        resources.Releasing(ContainerLock);
      }
      forall r
        ensures Count(resources.history, Acquire(r)) ==
                Count(resources.history, Release(r)) + if r in resources.held then 1 else 0
      {
        HeldBalances(resources.history, r);
      }
    }
  }

  /** A history in good order balances: as many releases as acquisitions of what is no longer held. */
  lemma {:induction false} HeldBalances(history: seq<Event>, r: Resource)
    requires Held(history).Some?
    ensures Count(history, Acquire(r)) == Count(history, Release(r)) + if r in Held(history).value then 1 else 0
  {
    if history == [] {
    } else {
      HeldBalances(history[..|history| - 1], r);
    }
  }
}
