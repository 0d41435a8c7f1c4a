/**
 The name reservation in front of the link index: registering a link (moby/daemon/daemon.go), removing a
 link and removing a container (moby/daemon/delete.go). Each step below is one call on a table that has a
 lock of its own.
 */
module LinkNames {
  import opened Wrappers
  import opened LinkIndex

  /** What a thread has done so far of registerLink, rmLink or the removal of a container. */
  datatype Task =
    | Linking(child: Container, alias: string)              // name reserved
    | Found(child: Container, alias: string)                // container found by the link's name
    | Released(child: Container, alias: string)            // removal flag set, name released
    | Dropped(x: Container, aliases: iset<string>)          // removal flag set, container out of the index
    | Deregistered(x: Container, aliases: iset<string>)     // and out of the daemon's tables

  /**
   The daemon around the index: `names` is the table of reserved names, by container, and `registered`
   the container store. A container that is being created is neither registered nor gone.
   */
  datatype Daemon = Daemon(
    names: map<string, Container>, links: Links, registered: set<Container>, gone: set<Container>,
    tasks: map<nat, Task>)

  datatype Step =
    | Reserve(t: nat, child: Container, alias: string)
    | DoLink(t: nat)
    | Lookup(t: nat, alias: string)
    | Release(t: nat)
    | DoUnlink(t: nat)
    | DropLinks(t: nat, x: Container)
    | Deregister(t: nat)
    | ReleaseAliases(t: nat)
    | Register(x: Container)

  /** Some thread has set the container's removal flag. */
  ghost predicate Removing(d: Daemon, c: Container) {
    exists t :: t in d.tasks &&
      match d.tasks[t]
      case Released(child, _) => child == c
      case Dropped(x, _) => x == c
      case Deregistered(x, _) => x == c
      case _ => false
  }

  /**
   When a step can happen. An alias is the parent's name followed by the link's own name, so it determines
   its parent; a parent registers its links while it is created or restored.
   */
  ghost predicate Enabled(parentOf: string -> Container, d: Daemon, step: Step) {
    match step
    case Reserve(t, c, a) =>
      t !in d.tasks && c in d.registered && parentOf(a) !in d.gone && (a in d.names ==> d.names[a] == c)
    case DoLink(t) => t in d.tasks && d.tasks[t].Linking?
    case Lookup(t, a) => t !in d.tasks && a in d.names && d.names[a] in d.registered
    case Release(t) =>
      t in d.tasks && d.tasks[t].Found? && !Removing(d, d.tasks[t].child) && d.tasks[t].child in d.registered
    case DoUnlink(t) => t in d.tasks && d.tasks[t].Released?
    case DropLinks(t, x) => t !in d.tasks && x !in d.gone && !Removing(d, x)
    case Deregister(t) => t in d.tasks && d.tasks[t].Dropped?
    case ReleaseAliases(t) => t in d.tasks && d.tasks[t].Deregistered?
    case Register(x) => x !in d.gone
  }

  /** What a step does to the index. The link of a parent that is not in the store is left there. */
  ghost function IndexOp(parentOf: string -> Container, d: Daemon, step: Step): Option<Op>
    requires Enabled(parentOf, d, step)
  {
    match step
    case DoLink(t) => Some(OpLink(parentOf(d.tasks[t].alias), d.tasks[t].child, d.tasks[t].alias))
    case DoUnlink(t) =>
      var p := parentOf(d.tasks[t].alias);
      if p in d.registered then Some(OpUnlink(d.tasks[t].alias, d.tasks[t].child, p)) else None
    case DropLinks(_, x) => Some(OpDelete(x))
    case _ => None
  }

  /** What a step does to everything else. */
  ghost function Around(parentOf: string -> Container, d: Daemon, step: Step): Daemon
    requires Enabled(parentOf, d, step)
  {
    match step
    case Reserve(t, c, a) => d.(names := d.names[a := c], tasks := d.tasks[t := Linking(c, a)])
    case DoLink(t) => d.(tasks := d.tasks - {t})
    case Lookup(t, a) => d.(tasks := d.tasks[t := Found(d.names[a], a)])
    case Release(t) =>
      var c, a := d.tasks[t].child, d.tasks[t].alias;
      d.(names := d.names - {a}, tasks := d.tasks[t := Released(c, a)])
    case DoUnlink(t) => d.(tasks := d.tasks - {t})
    case DropLinks(t, x) =>
      d.(gone := d.gone + {x}, tasks := d.tasks[t := Dropped(x, iset a | (x, a) in d.links.forward)])
    case Deregister(t) =>
      var x, aliases := d.tasks[t].x, d.tasks[t].aliases;
      d.(names := map a | a in d.names && d.names[a] != x :: d.names[a],
         registered := d.registered - {x}, tasks := d.tasks[t := Deregistered(x, aliases)])
    case ReleaseAliases(t) =>
      d.(names := map a | a in d.names && a !in d.tasks[t].aliases :: d.names[a], tasks := d.tasks - {t})
    case Register(x) => d.(registered := d.registered + {x})
  }

  /** A step that is not possible in the current state does nothing. */
  ghost function Next(parentOf: string -> Container, d: Daemon, step: Step): Daemon {
    if !Enabled(parentOf, d, step) then d
    else
      var op := IndexOp(parentOf, d, step);
      Around(parentOf, d, step).(links := if op.Some? then Changed(d.links, op.value) else d.links)
  }

  ghost function Run(parentOf: string -> Container, d: Daemon, steps: seq<Step>): Daemon {
    if steps == [] then d else Next(parentOf, Run(parentOf, d, steps[..|steps| - 1]), steps[|steps| - 1])
  }

  /** All index operations of a run, in order. */
  ghost function Trace(parentOf: string -> Container, d: Daemon, steps: seq<Step>): seq<Op> {
    if steps == [] then []
    else
      var init, step := steps[..|steps| - 1], steps[|steps| - 1];
      var u, earlier := Run(parentOf, d, init), Trace(parentOf, d, init);
      if Enabled(parentOf, u, step) && IndexOp(parentOf, u, step).Some? then
        earlier + [IndexOp(parentOf, u, step).value]
      else earlier
  }

  lemma {:induction false} RunFollowsTrace(parentOf: string -> Container, d: Daemon, steps: seq<Step>)
    ensures Run(parentOf, d, steps).links == ChangedAll(d.links, Trace(parentOf, d, steps))
  {
    if steps == [] {
    } else {
      var init, step := steps[..|steps| - 1], steps[|steps| - 1];
      var u := Run(parentOf, d, init);
      RunFollowsTrace(parentOf, d, init);
      if Enabled(parentOf, u, step) && IndexOp(parentOf, u, step).Some? {
        ChangedStep(d.links, Trace(parentOf, d, init), IndexOp(parentOf, u, step).value);
      }
    }
  }

  lemma RunStep(parentOf: string -> Container, d: Daemon, steps: seq<Step>, step: Step)
    ensures Run(parentOf, d, steps + [step]) == Next(parentOf, Run(parentOf, d, steps), step)
  {
    assert (steps + [step])[..|steps|] == steps;
  }

  /** A daemon with empty link tables and nothing under way. */
  ghost predicate Initial(d: Daemon) {
    d.links == Links(imap[], iset{}) && d.tasks == map[]
  }

  /**
   In every interleaving of registrations, link removals and container removals: the indexes stay backed if
   and only if each link and unlink that executes finds no other child recorded for its alias.
   */
  lemma InterleavingsStayBacked(parentOf: string -> Container, d: Daemon, steps: seq<Step>)
    requires Initial(d)
    ensures var ops := Trace(parentOf, d, steps);
            && Run(parentOf, d, steps).links == ChangedAll(d.links, ops)
            && (AlwaysBacked(d.links, ops) <==> AllRespect(d.links, ops))
  {
    RunFollowsTrace(parentOf, d, steps);
    BackedThroughout(d.links, Trace(parentOf, d, steps));
  }

  /**
   An operation begins only when no other is under way, and a link is removed only once its parent is
   registered, or gone.
   */
  ghost predicate Serial(parentOf: string -> Container, d: Daemon, step: Step) {
    match step
    case Reserve(_, _, _) => d.tasks == map[]
    case Lookup(_, a) => d.tasks == map[] && (parentOf(a) in d.registered || parentOf(a) in d.gone)
    case DropLinks(_, _) => d.tasks == map[]
    case _ => true
  }

  ghost predicate SerialRun(parentOf: string -> Container, d: Daemon, steps: seq<Step>) {
    steps == [] ||
    var init := steps[..|steps| - 1];
    SerialRun(parentOf, d, init) && Serial(parentOf, Run(parentOf, d, init), steps[|steps| - 1])
  }

  /** The name is reserved for the child, or is just being unlinked from it. */
  ghost predicate Owned(d: Daemon, child: Container, alias: string) {
    (alias in d.names && d.names[alias] == child) ||
    exists t :: t in d.tasks && d.tasks[t] == Released(child, alias)
  }

  /** Every recorded alias is owned by its child and spelled from its parent, who is still there. */
  ghost predicate Reserved(parentOf: string -> Container, d: Daemon) {
    && (forall k :: k in d.links.forward ==> parentOf(k.1) == k.0)
    && forall e :: e in d.links.reverse ==>
         Owned(d, e.child, e.alias) && parentOf(e.alias) == e.parent && e.parent !in d.gone
  }

  /** What the one operation under way may rely on. */
  ghost predicate TaskOk(parentOf: string -> Container, d: Daemon, task: Task) {
    match task
    case Linking(c, a) => a in d.names && d.names[a] == c && parentOf(a) !in d.gone
    case Found(c, a) => a in d.names && d.names[a] == c && (parentOf(a) in d.registered || parentOf(a) in d.gone)
    case Released(c, a) =>
      && (parentOf(a) in d.registered || parentOf(a) in d.gone)
      && forall e :: e in d.links.reverse && e.alias == a ==> e.child == c
    case Dropped(x, aliases) => x in d.gone && DropOk(parentOf, d, x, aliases)
    case Deregistered(x, aliases) => x in d.gone && DropOk(parentOf, d, x, aliases)
  }

  ghost predicate DropOk(parentOf: string -> Container, d: Daemon, x: Container, aliases: iset<string>) {
    && (forall a :: a in aliases ==> parentOf(a) == x)
    && forall e :: e in d.links.reverse ==> e.child != x && e.parent != x
  }

  ghost predicate SerialInv(parentOf: string -> Container, d: Daemon) {
    && Backed(d.links) && Reserved(parentOf, d)
    && (forall t, u :: t in d.tasks && u in d.tasks ==> t == u)
    && forall t :: t in d.tasks ==> TaskOk(parentOf, d, d.tasks[t])
  }

  lemma ReserveStep(parentOf: string -> Container, d: Daemon, step: Step)
    requires SerialInv(parentOf, d) && Enabled(parentOf, d, step) && Serial(parentOf, d, step) && step.Reserve?
    ensures SerialInv(parentOf, Next(parentOf, d, step))
  {
  }

  lemma DoLinkStep(parentOf: string -> Container, d: Daemon, step: Step)
    requires SerialInv(parentOf, d) && Enabled(parentOf, d, step) && Serial(parentOf, d, step) && step.DoLink?
    ensures SerialInv(parentOf, Next(parentOf, d, step))
  {
  }

  lemma LookupStep(parentOf: string -> Container, d: Daemon, step: Step)
    requires SerialInv(parentOf, d) && Enabled(parentOf, d, step) && Serial(parentOf, d, step) && step.Lookup?
    ensures SerialInv(parentOf, Next(parentOf, d, step))
  {
  }

  lemma ReleaseStep(parentOf: string -> Container, d: Daemon, step: Step)
    requires SerialInv(parentOf, d) && Enabled(parentOf, d, step) && Serial(parentOf, d, step) && step.Release?
    ensures SerialInv(parentOf, Next(parentOf, d, step))
  {
    var after, c, a := Next(parentOf, d, step), d.tasks[step.t].child, d.tasks[step.t].alias;
    assert after.tasks[step.t] == Released(c, a);
    forall e | e in d.links.reverse ensures Owned(after, e.child, e.alias) && (e.alias == a ==> e.child == c) {
      assert Owned(d, e.child, e.alias);
    }
  }

  lemma DoUnlinkStep(parentOf: string -> Container, d: Daemon, step: Step)
    requires SerialInv(parentOf, d) && Enabled(parentOf, d, step) && Serial(parentOf, d, step) && step.DoUnlink?
    ensures SerialInv(parentOf, Next(parentOf, d, step))
  {
  }

  lemma DropLinksStep(parentOf: string -> Container, d: Daemon, step: Step)
    requires SerialInv(parentOf, d) && Enabled(parentOf, d, step) && Serial(parentOf, d, step) && step.DropLinks?
    ensures SerialInv(parentOf, Next(parentOf, d, step))
  {
  }

  lemma DeregisterStep(parentOf: string -> Container, d: Daemon, step: Step)
    requires SerialInv(parentOf, d) && Enabled(parentOf, d, step) && Serial(parentOf, d, step) && step.Deregister?
    ensures SerialInv(parentOf, Next(parentOf, d, step))
  {
  }

  lemma ReleaseAliasesStep(parentOf: string -> Container, d: Daemon, step: Step)
    requires SerialInv(parentOf, d) && Enabled(parentOf, d, step) && Serial(parentOf, d, step) && step.ReleaseAliases?
    ensures SerialInv(parentOf, Next(parentOf, d, step))
  {
  }

  lemma RegisterStep(parentOf: string -> Container, d: Daemon, step: Step)
    requires SerialInv(parentOf, d) && Enabled(parentOf, d, step) && Serial(parentOf, d, step) && step.Register?
    ensures SerialInv(parentOf, Next(parentOf, d, step))
  {
  }

  /** Name reservation discharges the condition: in every serial run the indexes stay backed. */
  lemma {:induction false} ReservationKeepsBacked(parentOf: string -> Container, d: Daemon, steps: seq<Step>)
    requires Initial(d) && SerialRun(parentOf, d, steps)
    ensures SerialInv(parentOf, Run(parentOf, d, steps))
  {
    if steps == [] {
    } else {
      var init, step := steps[..|steps| - 1], steps[|steps| - 1];
      var u := Run(parentOf, d, init);
      ReservationKeepsBacked(parentOf, d, init);
      if Enabled(parentOf, u, step) {
        match step {
          case Reserve(_, _, _) => ReserveStep(parentOf, u, step);
          case DoLink(_) => DoLinkStep(parentOf, u, step);
          case Lookup(_, _) => LookupStep(parentOf, u, step);
          case Release(_) => ReleaseStep(parentOf, u, step);
          case DoUnlink(_) => DoUnlinkStep(parentOf, u, step);
          case DropLinks(_, _) => DropLinksStep(parentOf, u, step);
          case Deregister(_) => DeregisterStep(parentOf, u, step);
          case ReleaseAliases(_) => ReleaseAliasesStep(parentOf, u, step);
          case Register(_) => RegisterStep(parentOf, u, step);
        }
      }
    }
  }

  // ---- what an operation achieves alone ----

  /** registerLink reserves the name and makes both entries; a name of another container is left alone. */
  lemma RegistersAlone(parentOf: string -> Container, d: Daemon, t: nat, c: Container, alias: string)
    requires t !in d.tasks && c in d.registered && parentOf(alias) !in d.gone
    ensures var p, u := parentOf(alias), Next(parentOf, Next(parentOf, d, Reserve(t, c, alias)), DoLink(t));
            if alias in d.names && d.names[alias] != c then u == d
            else
              && u.names == d.names[alias := c] && u.tasks == d.tasks
              && PointsAt(u.links, p, alias, c) && Entry(c, p, alias) in u.links.reverse
              && u.registered == d.registered && u.gone == d.gone
  {
    assert d.tasks[t := Linking(c, alias)] - {t} == d.tasks;
  }

  /** rmLink frees the name and removes both entries of a link whose parent is registered. */
  lemma RemovesLinkAlone(parentOf: string -> Container, d: Daemon, t: nat, alias: string)
    requires t !in d.tasks && alias in d.names && d.names[alias] in d.registered && !Removing(d, d.names[alias])
    ensures var p, c := parentOf(alias), d.names[alias];
            var u := Next(parentOf, Next(parentOf, Next(parentOf, d, Lookup(t, alias)), Release(t)), DoUnlink(t));
            && u.names == d.names - {alias} && u.tasks == d.tasks
            && (p in d.registered ==> (p, alias) !in u.links.forward && Entry(c, p, alias) !in u.links.reverse)
            && (p !in d.registered ==> u.links == d.links)
            && u.registered == d.registered && u.gone == d.gone
  {
    var c := d.names[alias];
    var found := Next(parentOf, d, Lookup(t, alias));
    assert found == d.(tasks := d.tasks[t := Found(c, alias)]);
    assert !Removing(found, c);
    var released := Next(parentOf, found, Release(t));
    assert released == d.(names := d.names - {alias}, tasks := d.tasks[t := Released(c, alias)]);
    assert d.tasks[t := Released(c, alias)] - {t} == d.tasks;
  }

  /** Removing a container leaves it in no index and no table, and frees the names it had given or had. */
  lemma RemovesContainerAlone(parentOf: string -> Container, d: Daemon, t: nat, x: Container)
    requires t !in d.tasks && x !in d.gone && !Removing(d, x)
    ensures var dropped := Next(parentOf, d, DropLinks(t, x));
            var u := Next(parentOf, Next(parentOf, dropped, Deregister(t)), ReleaseAliases(t));
            && (forall k :: k in u.links.forward ==> k.0 != x)
            && (forall e :: e in u.links.reverse ==> e.child != x)
            && x in u.gone && u.registered == d.registered - {x} && u.tasks == d.tasks
            && forall a :: a in u.names <==> a in d.names && d.names[a] != x && (x, a) !in d.links.forward
  {
    var aliases := iset a | (x, a) in d.links.forward;
    var dropped := Next(parentOf, d, DropLinks(t, x));
    assert dropped ==
           d.(links := Deleted(d.links, x), gone := d.gone + {x}, tasks := d.tasks[t := Dropped(x, aliases)]);
    var out := Next(parentOf, dropped, Deregister(t));
    assert out.tasks == d.tasks[t := Deregistered(x, aliases)] && out.links == dropped.links;
    assert out.tasks - {t} == d.tasks;
  }

  // ---- a race ----

  lemma RunOfFour(parentOf: string -> Container, d: Daemon, first: Step, second: Step, third: Step, fourth: Step)
    ensures Run(parentOf, d, [first, second, third, fourth])
         == Next(parentOf, Next(parentOf, Next(parentOf, Next(parentOf, d, first), second), third), fourth)
  {
    assert [first, second, third, fourth] == [] + [first] + [second] + [third] + [fourth];
    RunStep(parentOf, d, [], first);
    RunStep(parentOf, d, [] + [first], second);
    RunStep(parentOf, d, [] + [first] + [second], third);
    RunStep(parentOf, d, [] + [first] + [second] + [third], fourth);
  }

  lemma {:induction false} RunInTwo(parentOf: string -> Container, d: Daemon, steps: seq<Step>, more: seq<Step>)
    ensures Run(parentOf, d, steps + more) == Run(parentOf, Run(parentOf, d, steps), more)
  {
    if more == [] {
      assert steps + more == steps;
    } else {
      var n := |more| - 1;
      RunInTwo(parentOf, d, steps, more[..n]);
      assert Run(parentOf, d, steps + more) == Next(parentOf, Run(parentOf, d, steps + more[..n]), more[n]) by {
        assert steps + more == steps + more[..n] + [more[n]];
        RunStep(parentOf, d, steps + more[..n], more[n]);
      }
    }
  }

  /** A link is made, and removed up to the point where its name is free again. */
  lemma LinkedAndReleased(parentOf: string -> Container, d: Daemon, c: Container, alias: string)
    requires c in d.registered && parentOf(alias) !in d.gone && d.names == map[] && d.tasks == map[]
    ensures Run(parentOf, d, [Reserve(0, c, alias), DoLink(0), Lookup(1, alias), Release(1)])
         == d.(links := Linked(d.links, parentOf(alias), c, alias), tasks := map[1 := Released(c, alias)])
  {
    RunOfFour(parentOf, d, Reserve(0, c, alias), DoLink(0), Lookup(1, alias), Release(1));
    var d1 := Next(parentOf, d, Reserve(0, c, alias));
    var d2 := Next(parentOf, d1, DoLink(0));
    var d3 := Next(parentOf, d2, Lookup(1, alias));
    assert d1 == d.(names := map[alias := c], tasks := map[0 := Linking(c, alias)]);
    assert d2 == d1.(links := Linked(d.links, parentOf(alias), c, alias), tasks := map[]);
    assert d3 == d2.(tasks := map[1 := Found(c, alias)]);
    assert Enabled(parentOf, d3, Release(1)) && d3.names - {alias} == map[];
  }

  /** Another link takes the name, and then the first one is unlinked. */
  lemma RelinkedThenUnlinked(parentOf: string -> Container, d: Daemon, c1: Container, c2: Container, alias: string)
    requires c2 in d.registered && parentOf(alias) !in d.gone
    requires d.names == map[] && d.tasks == map[1 := Released(c1, alias)]
    ensures var p := parentOf(alias);
            Run(parentOf, d, [Reserve(0, c2, alias), DoLink(0), Register(p), DoUnlink(1)]).links ==
            Unlinked(Linked(d.links, p, c2, alias), alias, c1, p)
  {
    var p := parentOf(alias);
    RunOfFour(parentOf, d, Reserve(0, c2, alias), DoLink(0), Register(p), DoUnlink(1));
    var d1 := Next(parentOf, d, Reserve(0, c2, alias));
    var d2 := Next(parentOf, d1, DoLink(0));
    assert d1.tasks[0] == Linking(c2, alias) && d1.tasks[1] == Released(c1, alias);
    assert d2.links == Linked(d.links, p, c2, alias) && d2.tasks[1] == Released(c1, alias);
  }

  /**
   Interleaved runs need not be serial: while a container is created with the same alias for two children,
   the link to the first is removed; its name is free for the second before the first is unlinked.
   */
  lemma ReleaseThenUnlinkRaces(parentOf: string -> Container, p: Container, c1: Container, c2: Container, alias: string)
    requires parentOf(alias) == p && c1 != c2 && p != c1 && p != c2
    ensures var d := Daemon(map[], Links(imap[], iset{}), {c1, c2}, {}, map[]);
            var steps := [Reserve(0, c1, alias), DoLink(0), Lookup(1, alias), Release(1)]
                       + [Reserve(0, c2, alias), DoLink(0), Register(p), DoUnlink(1)];
            && Initial(d) && !Backed(Run(parentOf, d, steps).links)
  {
    var d := Daemon(map[], Links(imap[], iset{}), {c1, c2}, {}, map[]);
    var first := [Reserve(0, c1, alias), DoLink(0), Lookup(1, alias), Release(1)];
    var second := [Reserve(0, c2, alias), DoLink(0), Register(p), DoUnlink(1)];
    RunInTwo(parentOf, d, first, second);
    LinkedAndReleased(parentOf, d, c1, alias);
    RelinkedThenUnlinked(parentOf, Run(parentOf, d, first), c1, c2, alias);
    assert Entry(c2, p, alias) in Run(parentOf, d, first + second).links.reverse;
  }
}
