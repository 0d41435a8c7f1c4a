/**
 The collector of finished execs (moby/daemon/exec.go): an exec that no registered container lists is
 marked on one tick and dropped from the daemon's store on the next. A tick is one atomic step.
 */
module ExecCollector {

  type ExecID = string
  type ContainerID = string

  /**
   `containers` holds the registered containers with the execs they list, `store` the daemon's execs with
   their CanRemove mark. IDs are random and never reused, which `used` and `known` record; an exec in
   `pending` is listed by its container and not yet in the daemon's store.
   */
  datatype State = State(
    containers: map<ContainerID, set<ExecID>>, store: map<ExecID, bool>,
    used: set<ExecID>, known: set<ContainerID>, pending: set<ExecID>)

  datatype Step =
    | AddContainer(c: ContainerID)
    | RemoveContainer(c: ContainerID)
    | AddToContainer(c: ContainerID, id: ExecID)
    | AddToDaemon(id: ExecID)
    | Exits(c: ContainerID, id: ExecID)
    | Unregister(c: ContainerID, id: ExecID)
    | Tick

  /** Some registered container lists the exec. */
  predicate Listed(containers: map<ContainerID, set<ExecID>>, id: ExecID) {
    exists c :: c in containers && id in containers[c]
  }

  /** The store after a tick: marked execs go, unlisted ones are marked. */
  function Collected(containers: map<ContainerID, set<ExecID>>, store: map<ExecID, bool>): map<ExecID, bool> {
    map id | id in store && !store[id] :: !Listed(containers, id)
  }

  function Dropped(s: State, c: ContainerID, id: ExecID): map<ContainerID, set<ExecID>> {
    if c in s.containers then s.containers[c := s.containers[c] - {id}] else s.containers
  }

  /** A step whose ID is not fresh, or that has nothing to do, changes nothing. */
  function Next(s: State, step: Step): State {
    match step
    case AddContainer(c) =>
      if c in s.known then s else s.(containers := s.containers[c := {}], known := s.known + {c})
    case RemoveContainer(c) => s.(containers := s.containers - {c})
    case AddToContainer(c, id) =>
      if id in s.used then s
      else s.(containers := if c in s.containers then s.containers[c := s.containers[c] + {id}] else s.containers,
              used := s.used + {id}, pending := s.pending + {id})
    case AddToDaemon(id) =>
      if id in s.pending then s.(store := s.store[id := false], pending := s.pending - {id}) else s
    case Exits(c, id) => s.(containers := Dropped(s, c, id))
    case Unregister(c, id) => s.(containers := Dropped(s, c, id), store := s.store - {id})
    case Tick => s.(store := Collected(s.containers, s.store))
  }

  function Run(s: State, steps: seq<Step>): State {
    if steps == [] then s else Next(Run(s, steps[..|steps| - 1]), steps[|steps| - 1])
  }

  predicate Initial(s: State) {
    s.containers == map[] && s.store == map[] && s.used == {} && s.known == {} && s.pending == {}
  }

  /** Everything listed, stored or pending has a used ID; a marked exec is not listed, a pending one not stored. */
  ghost predicate Inv(s: State) {
    && (forall id :: Listed(s.containers, id) ==> id in s.used)
    && (forall id :: id in s.store ==> id in s.used && id !in s.pending)
    && (forall id :: id in s.pending ==> id in s.used)
    && (forall id :: id in s.store && s.store[id] ==> !Listed(s.containers, id))
  }

  /** A used exec that is not listed is never listed again. */
  lemma StepKeepsInv(s: State, step: Step)
    requires Inv(s)
    ensures Inv(Next(s, step))
  {
  }

  lemma {:induction false} RunKeepsInv(s: State, steps: seq<Step>)
    requires Initial(s)
    ensures Inv(Run(s, steps))
  {
    if steps == [] {
    } else {
      RunKeepsInv(s, steps[..|steps| - 1]);
      StepKeepsInv(Run(s, steps[..|steps| - 1]), steps[|steps| - 1]);
    }
  }

  /** In every run, a tick deletes only execs that no registered container lists. */
  lemma TickDeletesOnlyUnlisted(s: State, steps: seq<Step>, id: ExecID)
    requires Initial(s) && id in Run(s, steps).store && id !in Next(Run(s, steps), Tick).store
    ensures !Listed(Run(s, steps).containers, id)
  {
    RunKeepsInv(s, steps);
  }

  // ---- how long a dead exec stays ----

  function Ticks(steps: seq<Step>): nat {
    if steps == [] then 0 else Ticks(steps[..|steps| - 1]) + if steps[|steps| - 1].Tick? then 1 else 0
  }

  /** An exec that has run and that no registered container lists. */
  predicate Dead(s: State, id: ExecID) {
    id in s.used && id !in s.pending && !Listed(s.containers, id)
  }

  lemma DeadStays(s: State, step: Step, id: ExecID)
    requires Dead(s, id)
    ensures Dead(Next(s, step), id)
    ensures id in Next(s, step).store ==> id in s.store
  {
  }

  /** However long a run, a dead exec is gone once two ticks have passed, and stays gone. */
  lemma {:induction false} GoneBySecondTick(s: State, steps: seq<Step>, id: ExecID)
    requires Dead(s, id)
    ensures Dead(Run(s, steps), id)
    ensures Ticks(steps) >= 1 ==> id !in Run(s, steps).store || Run(s, steps).store[id]
    ensures Ticks(steps) >= 2 ==> id !in Run(s, steps).store
  {
    if steps == [] {
    } else {
      var u, step := Run(s, steps[..|steps| - 1]), steps[|steps| - 1];
      GoneBySecondTick(s, steps[..|steps| - 1], id);
      DeadStays(u, step, id);
    }
  }

  predicate Unregisters(step: Step, id: ExecID) {
    step.Unregister? && step.id == id
  }

  /** An exec that dies unmarked can be inspected through its first tick and until its second. */
  lemma {:induction false} KeptForOneInterval(s: State, steps: seq<Step>, id: ExecID)
    requires Dead(s, id) && id in s.store && !s.store[id] && Ticks(steps) <= 1
    requires forall i :: 0 <= i < |steps| ==> !Unregisters(steps[i], id)
    ensures Dead(Run(s, steps), id) && id in Run(s, steps).store
    ensures Run(s, steps).store[id] <==> Ticks(steps) == 1
  {
    if steps == [] {
    } else {
      var init, u, step := steps[..|steps| - 1], Run(s, steps[..|steps| - 1]), steps[|steps| - 1];
      assert forall i :: 0 <= i < |init| ==> init[i] == steps[i];
      KeptForOneInterval(s, init, id);
      DeadStays(u, step, id);
      assert !Unregisters(steps[|steps| - 1], id);
    }
  }

  // ---- an exec's life ----

  /** A new exec is listed by its container before the daemon has it, and then unmarked. */
  lemma Registration(s: State, c: ContainerID, id: ExecID)
    requires c in s.containers && id !in s.used
    ensures var listed := Next(s, AddToContainer(c, id));
            && Listed(listed.containers, id) && listed.store == s.store && listed.used == s.used + {id}
            && var known := Next(listed, AddToDaemon(id));
            Listed(known.containers, id) && known.store == s.store[id := false] && id !in known.pending
  {
    assert id in Next(s, AddToContainer(c, id)).containers[c];
  }

  /** A new container lists nothing, and its ID is not used again. */
  lemma NewContainer(s: State, c: ContainerID)
    ensures var t := Next(s, AddContainer(c));
            && (c !in s.known ==> c in t.containers && t.containers[c] == {} && c in t.known)
            && (c in s.known ==> t == s)
            && forall d :: d in s.containers && d != c ==> d in t.containers && t.containers[d] == s.containers[d]
  {
  }

  /** The step ends the exec's life in its container. */
  predicate Ends(step: Step, c: ContainerID, id: ExecID) {
    match step
    case Exits(d, x) => d == c && x == id
    case Unregister(d, x) => x == id
    case RemoveContainer(d) => d == c
    case _ => false
  }

  predicate Lives(s: State, c: ContainerID, id: ExecID) {
    && c in s.containers && c in s.known && id in s.containers[c]
    && id in s.store && !s.store[id] && id in s.used && id !in s.pending
  }

  /** Until its life ends, an exec is listed, stored and unmarked, however many ticks pass. */
  lemma {:induction false} LiveExecStays(s: State, steps: seq<Step>, c: ContainerID, id: ExecID)
    requires Lives(s, c, id) && forall i :: 0 <= i < |steps| ==> !Ends(steps[i], c, id)
    ensures Lives(Run(s, steps), c, id)
  {
    if steps == [] {
    } else {
      var init := steps[..|steps| - 1];
      assert forall i :: 0 <= i < |init| ==> init[i] == steps[i];
      LiveExecStays(s, init, c, id);
      assert !Ends(steps[|steps| - 1], c, id);
      assert Listed(Run(s, init).containers, id);
    }
  }

  /** An exit or the removal of its container leaves an exec dead but stored; unregistering drops it at once. */
  lemma LifeEnds(s: State, c: ContainerID, id: ExecID)
    requires id in s.used && id !in s.pending && id in s.store
    requires forall d :: d in s.containers && id in s.containers[d] ==> d == c
    ensures Dead(Next(s, Exits(c, id)), id) && Next(s, Exits(c, id)).store == s.store
    ensures Dead(Next(s, RemoveContainer(c)), id) && Next(s, RemoveContainer(c)).store == s.store
    ensures Dead(Next(s, Unregister(c, id)), id) && Next(s, Unregister(c, id)).store == s.store - {id}
  {
  }

  // ---- the code ----

  class Daemon {
    var containers: map<ContainerID, set<ExecID>>
    var store: map<ExecID, bool>

    /** All exec IDs that registered containers list. */
    method ContainerExecIds() returns (ids: set<ExecID>)
      ensures forall id :: id in ids <==> Listed(containers, id)
    {
      ids := {};
      var todo := containers.Keys;
      while todo != {}
        invariant todo <= containers.Keys
        invariant forall id :: id in ids <==> exists c :: c in containers && c !in todo && id in containers[c]
        decreases |todo|
      {
        var c :| c in todo;
        ids := ids + containers[c];
        todo := todo - {c};
      }
    }

    /** One tick of the collector. */
    method CollectOnce()
      modifies this`store
      ensures store == Collected(containers, old(store))
    {
      var live := ContainerExecIds();
      var commands := store;
      var todo := commands.Keys;
      while todo != {}
        invariant todo <= commands.Keys && commands == old(store)
        invariant forall id :: id in store <==> id in commands && (id in todo || !commands[id])
        invariant forall id :: id in store ==> store[id] == if id in todo then commands[id] else !Listed(containers, id)
        decreases |todo|
      {
        var id :| id in todo;
        if commands[id] {
          store := store - {id};
        } else if id !in live {
          store := store[id := true];
        }
        todo := todo - {id};
      }
    }
  }
}
