/**
 Concurrent removal of one container (moby/daemon/delete.go, with the removal flag of
 moby/daemon/container/state.go). Any number of `containerRm` calls run against each other; each
 step below is one critical section or one call out, whose outcome is part of the step.
 */
module ContainerRemoval {

  /** Where a call is. From Holding to Leaving it has set the removal flag and not yet reset it. */
  datatype Phase =
    | Found
    | Holding
    | Cleaning
    | Marked(layer: bool)
    | Restoring
    | Released
    | RootRemoved
    | Deregistered
    | Leaving
    | Finished

  /** The container and the calls on it; `hadLayer` says whether it was created with a writable layer. */
  datatype State = State(
    hadLayer: bool, layer: bool, inProgress: bool, dead: bool, registered: bool,
    released: nat, destroyed: nat, calls: map<nat, Phase>)

  datatype Step =
    | Call(t: nat)
    | SetRemovalInProgress(t: nat)
    | CheckRegistered(t: nat, removeLink: bool)
    | StopFails(t: nat)
    | MarkDead(t: nat)
    | ReleaseLayer(t: nat, ok: bool)
    | RestoreLayer(t: nat)
    | RemoveRoot(t: nat, ok: bool)
    | Deregister(t: nat)
    | LogDestroy(t: nat)
    | ResetRemovalInProgress(t: nat)

  predicate At(s: State, t: nat, p: Phase) {
    t in s.calls && s.calls[t] == p
  }

  predicate Enabled(s: State, step: Step) {
    match step
    case Call(t) => t !in s.calls && s.registered
    case SetRemovalInProgress(t) => At(s, t, Found)
    case CheckRegistered(t, _) => At(s, t, Holding)
    case StopFails(t) => At(s, t, Cleaning)
    case MarkDead(t) => At(s, t, Cleaning)
    case ReleaseLayer(t, _) => t in s.calls && s.calls[t].Marked?
    case RestoreLayer(t) => At(s, t, Restoring)
    case RemoveRoot(t, _) => At(s, t, Released)
    case Deregister(t) => At(s, t, RootRemoved)
    case LogDestroy(t) => At(s, t, Deregistered)
    case ResetRemovalInProgress(t) => At(s, t, Leaving)
  }

  function Apply(s: State, step: Step): State
    requires Enabled(s, step)
  {
    match step
    case Call(t) => s.(calls := s.calls[t := Found])
    case SetRemovalInProgress(t) =>
      if s.inProgress then s.(calls := s.calls[t := Finished])
      else s.(inProgress := true, calls := s.calls[t := Holding])
    case CheckRegistered(t, removeLink) =>
      s.(calls := s.calls[t := if !s.registered || removeLink then Leaving else Cleaning])
    case StopFails(t) => s.(calls := s.calls[t := Leaving])
    case MarkDead(t) => s.(dead := true, layer := false, calls := s.calls[t := Marked(s.layer)])
    case ReleaseLayer(t, ok) =>
      if !s.calls[t].layer then s.(calls := s.calls[t := Released])
      else if ok then s.(released := s.released + 1, calls := s.calls[t := Released])
      else s.(calls := s.calls[t := Restoring])
    case RestoreLayer(t) => s.(layer := true, calls := s.calls[t := Leaving])
    case RemoveRoot(t, ok) => s.(calls := s.calls[t := if ok then RootRemoved else Leaving])
    case Deregister(t) => s.(registered := false, calls := s.calls[t := Deregistered])
    case LogDestroy(t) => s.(destroyed := s.destroyed + 1, calls := s.calls[t := Leaving])
    case ResetRemovalInProgress(t) => s.(inProgress := false, calls := s.calls[t := Finished])
  }

  /** A step that is not possible in the current state does nothing. */
  function Next(s: State, step: Step): State {
    if Enabled(s, step) then Apply(s, step) else s
  }

  function Run(s: State, steps: seq<Step>): State {
    if steps == [] then s else Next(Run(s, steps[..|steps| - 1]), steps[|steps| - 1])
  }

  predicate Initial(s: State) {
    s.layer == s.hadLayer && !s.inProgress && s.registered && s.released == 0 && s.destroyed == 0 && s.calls == map[]
  }

  predicate InSection(s: State, t: nat) {
    t in s.calls && !s.calls[t].Found? && !s.calls[t].Finished?
  }

  /** The call inside cleanup owns the layer reference it has taken from the container. */
  predicate OwnsLayer(s: State, t: nat) {
    t in s.calls && (s.calls[t] == Marked(true) || s.calls[t].Restoring?)
  }

  /** The removal flag is a lock: it is held by exactly one call. */
  ghost predicate FlagIsLock(s: State) {
    && (forall t: nat, u: nat :: InSection(s, t) && InSection(s, u) ==> t == u)
    && (s.inProgress <==> exists t: nat :: InSection(s, t))
  }

  /** The layer is with the container, with the call inside cleanup, or released: exactly one of them. */
  ghost predicate LayerConserved(s: State) {
    && (forall t: nat :: OwnsLayer(s, t) ==> s.hadLayer && !s.layer && s.released == 0)
    && (forall t: nat :: t in s.calls && s.calls[t].Marked? ==> !s.layer)
    && (s.layer ==> s.hadLayer && s.released == 0)
    && s.released <= (if s.hadLayer then 1 else 0)
    && (s.hadLayer ==> s.layer || s.released == 1 || exists t: nat :: OwnsLayer(s, t))
  }

  /** Past the release of the layer, nothing of it is left. */
  predicate PastRelease(s: State, t: nat) {
    t in s.calls && (s.calls[t].Released? || s.calls[t].RootRemoved? || s.calls[t].Deregistered?)
  }

  predicate LayerGone(s: State) {
    !s.layer && s.released == if s.hadLayer then 1 else 0
  }

  /** The container is registered until a call deregisters it, and then that call logs its destruction. */
  ghost predicate DestroyedOnce(s: State) {
    && (forall t: nat ::
          InSection(s, t) && !s.calls[t].Holding? && !s.calls[t].Leaving? && !s.calls[t].Deregistered? ==> s.registered)
    && (forall t: nat :: At(s, t, Deregistered) ==> !s.registered && s.destroyed == 0)
    && (s.registered ==> s.destroyed == 0)
    && (!s.registered ==> s.destroyed == 1 || exists t: nat :: At(s, t, Deregistered))
    && s.destroyed <= 1
    && (forall t: nat :: PastRelease(s, t) ==> LayerGone(s))
    && (!s.registered ==> LayerGone(s))
  }

  ghost predicate Inv(s: State) {
    FlagIsLock(s) && LayerConserved(s) && DestroyedOnce(s)
  }

  lemma FlagStep(s: State, step: Step)
    requires Inv(s) && Enabled(s, step)
    ensures FlagIsLock(Apply(s, step))
  {
    var s' := Apply(s, step);
    var t := step.t;
    assert forall u: nat :: u != t ==> (InSection(s', u) <==> InSection(s, u));
    assert InSection(s, t) ==> s.inProgress;
    if InSection(s', t) {
      assert s'.inProgress;
    }
  }

  /** Beside the call in the section, nobody owns the layer or is past a stage of cleanup. */
  lemma OthersOutside(s: State, t: nat)
    requires FlagIsLock(s) && InSection(s, t)
    ensures forall u: nat :: u != t ==>
              !InSection(s, u) && !OwnsLayer(s, u) && !PastRelease(s, u) && !At(s, u, Deregistered)
  {
    forall u: nat | u != t
      ensures !InSection(s, u) && !OwnsLayer(s, u) && !PastRelease(s, u) && !At(s, u, Deregistered)
    {
      assert !InSection(s, u);
    }
  }

  /** A call that has not set the flag, or has just failed to, leaves everything else as it was. */
  lemma OutsideStep(s: State, s': State, t: nat, p: Phase)
    requires Inv(s) && !InSection(s, t) && (p.Found? || p.Finished? || p.Holding?)
    requires s' == s.(calls := s.calls[t := p], inProgress := s'.inProgress)
    ensures LayerConserved(s') && DestroyedOnce(s')
  {
    assert forall u: nat :: OwnsLayer(s', u) <==> OwnsLayer(s, u);
    assert forall u: nat :: PastRelease(s', u) <==> PastRelease(s, u);
    assert forall u: nat :: At(s', u, Deregistered) <==> At(s, u, Deregistered);
    forall u: nat | InSection(s', u) && !s'.calls[u].Holding? && !s'.calls[u].Leaving? && !s'.calls[u].Deregistered?
      ensures s'.registered
    {
      assert u != t && InSection(s, u);
    }
  }

  /** A step of the call inside the section. */
  lemma InsideStep(s: State, step: Step)
    requires Inv(s) && Enabled(s, step) && InSection(s, step.t)
    ensures LayerConserved(Apply(s, step)) && DestroyedOnce(Apply(s, step))
  {
    var s', t := Apply(s, step), step.t;
    OthersOutside(s, t);
    forall u: nat | u != t
      ensures !InSection(s', u) && !OwnsLayer(s', u) && !PastRelease(s', u) && !At(s', u, Deregistered)
    {
      assert !InSection(s, u);
    }
    forall u: nat | u in s'.calls && s'.calls[u].Marked? ensures u == t {
      assert InSection(s', u);
    }
    assert OwnsLayer(s, t) <==> s.hadLayer && !s.layer && s.released == 0;
    assert OwnsLayer(s', t) <==> s'.hadLayer && !s'.layer && s'.released == 0;
    assert PastRelease(s, t) ==> LayerGone(s);
    assert At(s, t, Deregistered) ==> !s.registered && s.destroyed == 0;
    if step.Deregister? {
      assert At(s', t, Deregistered);
    }
  }

  lemma StepKeepsInv(s: State, step: Step)
    requires Inv(s) && Enabled(s, step)
    ensures Inv(Apply(s, step))
  {
    FlagStep(s, step);
    var s' := Apply(s, step);
    if InSection(s, step.t) {
      InsideStep(s, step);
    } else {
      OutsideStep(s, s', step.t, s'.calls[step.t]);
    }
  }

  lemma {:induction false} RunKeepsInv(s: State, steps: seq<Step>)
    requires Initial(s)
    ensures Inv(Run(s, steps)) && Run(s, steps).hadLayer == s.hadLayer
  {
    if steps == [] {
    } else {
      var u, step := Run(s, steps[..|steps| - 1]), steps[|steps| - 1];
      RunKeepsInv(s, steps[..|steps| - 1]);
      if Enabled(u, step) {
        StepKeepsInv(u, step);
      }
    }
  }

  /**
   Over every interleaving of calls, with any of them failing anywhere: at most one is between setting
   and resetting the flag, the layer is released at most once and never lost, the destroy event is
   logged at most once, and only after the layer is gone and the container is out of the store.
   */
  lemma RemovalIsExclusive(s: State, steps: seq<Step>)
    requires Initial(s)
    ensures var u := Run(s, steps);
            && (forall a: nat, b: nat :: InSection(u, a) && InSection(u, b) ==> a == b)
            && u.released <= 1 && u.destroyed <= 1
            && (s.hadLayer && u.released == 0 ==> u.layer || exists t: nat :: OwnsLayer(u, t))
            && (!u.inProgress && s.hadLayer ==> (u.layer <==> u.released == 0))
            && (u.destroyed == 1 ==> !u.registered && LayerGone(u))
            && (!u.inProgress ==> (u.destroyed == 1 <==> !u.registered))
  {
    RunKeepsInv(s, steps);
    var u := Run(s, steps);
    assert forall t: nat :: OwnsLayer(u, t) || At(u, t, Deregistered) ==> InSection(u, t);
  }

  // ---- one call, as written ----

  function ReleasedOrRestored(s: State, t: nat, releases: bool): State
    requires t in s.calls && s.calls[t].Marked?
  {
    var s' := Apply(s, ReleaseLayer(t, releases));
    if s.calls[t].layer && !releases then Apply(s', RestoreLayer(t)) else s'
  }

  function RemovedAndLogged(s: State, t: nat, removes: bool): State
    requires At(s, t, Released)
  {
    var s' := Apply(s, RemoveRoot(t, removes));
    if removes then Apply(Apply(s', Deregister(t)), LogDestroy(t)) else s'
  }

  /** The steps of one cleanup that nobody interrupts; the flags say which calls out succeed. */
  function Cleaned(s: State, t: nat, stops: bool, releases: bool, removes: bool): State
    requires At(s, t, Cleaning)
  {
    if !stops then Apply(s, StopFails(t))
    else
      var s' := ReleasedOrRestored(Apply(s, MarkDead(t)), t, releases);
      if s.layer && !releases then s' else RemovedAndLogged(s', t, removes)
  }

  lemma SetTwice(calls: map<nat, Phase>, t: nat, p: Phase, q: Phase)
    ensures calls[t := p][t := q] == calls[t := q]
  {
  }

  lemma ReleaseOutcome(s: State, t: nat, releases: bool)
    requires t in s.calls && s.calls[t].Marked? && !s.layer
    ensures var had := s.calls[t].layer;
            ReleasedOrRestored(s, t, releases) == s.(
              layer := had && !releases,
              released := s.released + if had && releases then 1 else 0,
              calls := s.calls[t := if had && !releases then Leaving else Released])
  {
    SetTwice(s.calls, t, Restoring, Leaving);
  }

  lemma RemovalOutcome(s: State, t: nat, removes: bool)
    requires At(s, t, Released)
    ensures RemovedAndLogged(s, t, removes) == s.(
              registered := s.registered && !removes,
              destroyed := s.destroyed + if removes then 1 else 0,
              calls := s.calls[t := Leaving])
  {
    SetTwice(s.calls, t, RootRemoved, Deregistered);
    SetTwice(s.calls, t, Deregistered, Leaving);
  }

  /** What one cleanup leaves behind on every path. */
  lemma CleanedOutcome(s: State, t: nat, stops: bool, releases: bool, removes: bool)
    requires At(s, t, Cleaning)
    ensures var ok := stops && (releases || !s.layer) && removes;
            Cleaned(s, t, stops, releases, removes) == s.(
              dead := s.dead || stops,
              layer := s.layer && !(stops && releases),
              registered := s.registered && !ok,
              released := s.released + if s.layer && stops && releases then 1 else 0,
              destroyed := s.destroyed + if ok then 1 else 0,
              calls := s.calls[t := Leaving])
  {
    if stops {
      var marked := Apply(s, MarkDead(t));
      ReleaseOutcome(marked, t, releases);
      SetTwice(s.calls, t, Marked(s.layer), Leaving);
      SetTwice(s.calls, t, Marked(s.layer), Released);
      if releases || !s.layer {
        RemovalOutcome(ReleasedOrRestored(marked, t, releases), t, removes);
        SetTwice(s.calls, t, Released, Leaving);
      }
    }
  }

  /**
   A whole call that nobody interrupts: it takes the flag, goes through cleanup and gives the flag back, and
   if its parts succeed the container is gone. A call that finds the flag taken changes nothing.
   */
  lemma CallAlone(s: State, t: nat, stops: bool, releases: bool, removes: bool)
    requires t !in s.calls && s.registered
    ensures var asked := Next(Next(s, Call(t)), SetRemovalInProgress(t));
            if s.inProgress then asked == s.(calls := s.calls[t := Finished])
            else
              var begun := Next(asked, CheckRegistered(t, false));
              && At(begun, t, Cleaning)
              && var left := Next(Cleaned(begun, t, stops, releases, removes), ResetRemovalInProgress(t));
              var ok := stops && (releases || !s.layer) && removes;
              left == s.(
                dead := s.dead || stops,
                layer := s.layer && !(stops && releases),
                registered := !ok,
                released := s.released + (if s.layer && stops && releases then 1 else 0),
                destroyed := s.destroyed + (if ok then 1 else 0),
                calls := s.calls[t := Finished])
  {
    SetTwice(s.calls, t, Found, Finished);
    if !s.inProgress {
      SetTwice(s.calls, t, Found, Holding);
      SetTwice(s.calls, t, Holding, Cleaning);
      var begun := s.(inProgress := true, calls := s.calls[t := Cleaning]);
      CleanedOutcome(begun, t, stops, releases, removes);
      SetTwice(s.calls, t, Cleaning, Leaving);
      SetTwice(s.calls, t, Leaving, Finished);
    }
  }

  /** A call that only removes a link, or whose container is gone by now, gives the flag back at once. */
  lemma CallReturnsEarly(s: State, t: nat, removeLink: bool)
    requires At(s, t, Holding) && s.inProgress && (removeLink || !s.registered)
    ensures Next(Next(s, CheckRegistered(t, removeLink)), ResetRemovalInProgress(t)) ==
            s.(inProgress := false, calls := s.calls[t := Finished])
  {
    SetTwice(s.calls, t, Leaving, Finished);
  }

  /** The container as one call finds and changes it; the ghost fields record what has happened to it. */
  class RemovableContainer {
    var layer: bool
    var inProgress: bool
    var dead: bool
    var registered: bool
    ghost const hadLayer: bool
    ghost var released: nat
    ghost var destroyed: nat
    ghost var calls: map<nat, Phase>

    ghost function View(): State
      reads this
    {
      State(hadLayer, layer, inProgress, dead, registered, released, destroyed, calls)
    }

    method MarkContainerDead(ghost t: nat) returns (rwLayer: bool)
      requires At(View(), t, Cleaning)
      modifies this
      ensures View() == Apply(old(View()), MarkDead(t)) && rwLayer == old(layer)
    {
      dead := true;
      rwLayer := layer;
      layer := false;
      calls := calls[t := Marked(rwLayer)];
    }

    /** Releases the layer, or puts the reference back if that fails. */
    method ReleaseRWLayer(ghost t: nat, rwLayer: bool, releases: bool) returns (ok: bool)
      requires At(View(), t, Marked(rwLayer))
      modifies this
      ensures ok <==> !rwLayer || releases
      ensures View() == ReleasedOrRestored(old(View()), t, releases)
    {
      ok := true;
      if rwLayer {
        if !releases {
          layer := true;
          calls := calls[t := Leaving];
          return false;
        }
        released := released + 1;
      }
      calls := calls[t := Released];
    }

    /** Removes the root directory and, if that works, deregisters the container and logs its destruction. */
    method RemoveAndDeregister(ghost t: nat, removes: bool)
      requires At(View(), t, Released)
      modifies this
      ensures View() == RemovedAndLogged(old(View()), t, removes)
    {
      calls := calls[t := Leaving];
      if removes {
        registered := false;
        destroyed := destroyed + 1;
      }
    }

    /**
     cleanupContainer as one call runs it, from the moment the flag is held; the parameters say which
     calls out succeed.
     */
    method CleanupContainer(ghost t: nat, stops: bool, releases: bool, removesRoot: bool) returns (ok: bool)
      requires At(View(), t, Cleaning)
      modifies this
      ensures View() == Cleaned(old(View()), t, stops, releases, removesRoot)
      ensures ok <==> stops && (releases || !old(layer)) && removesRoot
    {
      if !stops {
        calls := calls[t := Leaving];
        return false;
      }
      var rwLayer := MarkContainerDead(t);
      ok := ReleaseRWLayer(t, rwLayer, releases);
      if ok {
        RemoveAndDeregister(t, removesRoot);
        ok := removesRoot;
      }
    }
  }
}
