/**
 Listing containers (moby/daemon/list.go): one pass over the sorted snapshots with a filter that
 mutates and may stop early, and worker goroutines that fill reserved result slots in any order.
 Both together answer a plain query: what follows `before`, up to `since`, that matches, limited.
 */
module ContainerList {
  import opened Wrappers

  datatype Mount = Mount(name: string, source: string, destination: string)

  datatype Port = Port(publicPort: nat, privatePort: nat, proto: string)

  /** Network name to network ID; a nil endpoint has no ID. */
  type Networks = map<string, Option<string>>

  datatype Snapshot = Snapshot(
    id: string, name: string, image: string, imageID: string, running: bool, started: bool, managed: bool,
    labels: map<string, string>, isolation: string, exitCode: int, state: string, health: string,
    mounts: seq<Mount>, networks: Option<Networks>, ports: seq<Port>)

  datatype Summary = Summary(id: string, image: string, size: Option<nat>)

  // ---- filters.Args ----

  datatype Key = ByName | ByID | ByLabel | ByIsolation | ByStatus | ByHealth | ByVolume | ByNetwork

  /** Filter values by key, with regular-expression matching left open. */
  datatype Args = Args(fields: map<Key, set<string>>, regex: (string, string) -> bool)

  function Values(args: Args, key: Key): set<string> {
    if key in args.fields then args.fields[key] else {}
  }

  predicate ExactMatch(args: Args, key: Key, source: string) {
    Values(args, key) == {} || source in Values(args, key)
  }

  predicate Match(args: Args, key: Key, source: string) {
    ExactMatch(args, key, source) || exists v :: v in Values(args, key) && args.regex(v, source)
  }

  /** The first position of '=', or the length. */
  function Cut(s: string): (n: nat)
    ensures n <= |s| && '=' !in s[..n] && (n < |s| ==> s[n] == '=')
  {
    if s == "" || s[0] == '=' then 0 else 1 + Cut(s[1..])
  }

  predicate MatchKVList(args: Args, key: Key, sources: map<string, string>) {
    Values(args, key) == {} ||
    (sources != map[] &&
     forall v :: v in Values(args, key) ==>
       var n := Cut(v);
       v[..n] in sources && (n < |v| ==> v[n + 1..] == sources[v[..n]]))
  }

  function TrimSlash(s: string): string {
    if s != "" && s[0] == '/' then s[1..] else s
  }

  // ---- the query ----

  datatype Query = Query(
    since: Option<string>, args: Args, all: bool, limit: int, size: bool, exitAllowed: seq<int>,
    taskFilter: bool, isTask: bool, byIsolation: bool, ancestorFilter: bool, images: set<string>,
    publish: set<(nat, string)>, expose: set<(nat, string)>)

  /** The conditions that come before the limit. */
  predicate EarlyMatch(q: Query, c: Snapshot) {
    && (c.running || q.all || q.limit > 0)
    && (Match(q.args, ByName, c.name) || Match(q.args, ByName, TrimSlash(c.name)))
    && Match(q.args, ByID, c.id)
    && (q.taskFilter ==> q.isTask == c.managed)
    && MatchKVList(q.args, ByLabel, c.labels)
    && (q.byIsolation ==> Match(q.args, ByIsolation, if c.isolation == "" then "default" else c.isolation))
  }

  predicate ExitMatch(q: Query, c: Snapshot) {
    q.exitAllowed == [] || (c.exitCode in q.exitAllowed && !c.running && c.started)
  }

  /** Some filter value names a mount by destination, or by volume name or else source. */
  predicate VolumeMatch(q: Query, c: Snapshot) {
    exists m :: m in c.mounts &&
      ((m.destination != "" && m.destination in Values(q.args, ByVolume)) ||
       (if m.name != "" then m.name else m.source) in Values(q.args, ByVolume))
  }

  /** Some filter value is a network's name or a prefix of its ID. */
  predicate NetworkMatch(q: Query, c: Snapshot) {
    c.networks.Some? &&
    exists n, v :: n in c.networks.value && v in Values(q.args, ByNetwork) && Named(n, c.networks.value[n], v)
  }

  predicate Named(name: string, id: Option<string>, value: string) {
    name == value || (id.Some? && value <= id.value)
  }

  predicate PortMatch(q: Query, c: Snapshot) {
    (q.expose == {} && q.publish == {}) ||
    exists p :: p in c.ports && ((p.publicPort, p.proto) in q.publish || (p.privatePort, p.proto) in q.expose)
  }

  /** The conditions that come after the limit. */
  predicate LateMatch(q: Query, c: Snapshot) {
    && ExitMatch(q, c)
    && Match(q.args, ByStatus, c.state)
    && ExactMatch(q.args, ByHealth, c.health)
    && (ByVolume in q.args.fields ==> VolumeMatch(q, c))
    && (q.ancestorFilter ==> c.imageID in q.images)
    && (ByNetwork in q.args.fields ==> NetworkMatch(q, c))
    && PortMatch(q, c)
  }

  predicate Matches(q: Query, c: Snapshot) {
    EarlyMatch(q, c) && LateMatch(q, c)
  }

  /** What follows the first occurrence of `before`; nothing if it does not occur. */
  function AfterBefore(before: Option<string>, list: seq<Snapshot>): seq<Snapshot> {
    if before.None? then list
    else if list == [] then []
    else if list[0].id == before.value then list[1..]
    else AfterBefore(before, list[1..])
  }

  function UntilSince(since: Option<string>, list: seq<Snapshot>): seq<Snapshot> {
    if list == [] || since == Some(list[0].id) then [] else [list[0]] + UntilSince(since, list[1..])
  }

  function Matching(q: Query, list: seq<Snapshot>): seq<Snapshot> {
    if list == [] then []
    else if Matches(q, list[0]) then [list[0]] + Matching(q, list[1..])
    else Matching(q, list[1..])
  }

  /** At most the room left under the limit. */
  function Limited(limit: int, taken: nat, s: seq<Snapshot>): seq<Snapshot> {
    if limit > 0 && limit - taken < |s| then (if limit <= taken then [] else s[..limit - taken]) else s
  }

  function Rest(q: Query, before: Option<string>, list: seq<Snapshot>, taken: nat): seq<Snapshot> {
    Limited(q.limit, taken, Matching(q, UntilSince(q.since, AfterBefore(before, list))))
  }

  /** The answer to a query over a sorted list. */
  function Answer(q: Query, before: Option<string>, list: seq<Snapshot>): seq<Snapshot> {
    Rest(q, before, list, 0)
  }

  /**
   The window of an answer: strictly after the first `before` (at i, or -1 without one) and strictly
   before the first later `since` (at j, or the end without one).
   */
  lemma AnswerWindow(q: Query, before: Option<string>, list: seq<Snapshot>, i: int, j: int)
    requires -1 <= i < j <= |list|
    requires if before.None? then i == -1
             else 0 <= i && list[i].id == before.value && forall k :: 0 <= k < i ==> list[k].id != before.value
    requires j < |list| ==> q.since == Some(list[j].id)
    requires forall k :: i < k < j ==> q.since != Some(list[k].id)
    ensures var all, answer := Matching(q, list[i + 1..j]), Answer(q, before, list);
            answer <= all && |answer| == if 0 < q.limit < |all| then q.limit else |all|
  {
    SuffixAfter(before, list, i);
    PrefixUntil(q.since, list[i + 1..], j - i - 1);
    assert list[i + 1..][..j - i - 1] == list[i + 1..j];
  }

  /** Without its anchor in the list, a `before` filter leaves nothing. */
  lemma {:induction false} MissingAnchor(q: Query, before: string, list: seq<Snapshot>)
    requires forall c :: c in list ==> c.id != before
    ensures Answer(q, Some(before), list) == []
  {
    if list == [] {
    } else {
      MissingAnchor(q, before, list[1..]);
    }
  }

  /** Containers are selected one by one: what is selected keeps its order. */
  lemma {:induction false} MatchingInOrder(q: Query, xs: seq<Snapshot>, ys: seq<Snapshot>)
    ensures Matching(q, xs + ys) == Matching(q, xs) + Matching(q, ys)
  {
    if xs == [] {
      assert xs + ys == ys;
    } else {
      var head := if Matches(q, xs[0]) then [xs[0]] else [];
      assert Matching(q, xs + ys) == head + Matching(q, xs[1..] + ys) by {
        assert (xs + ys)[1..] == xs[1..] + ys;
      }
      MatchingInOrder(q, xs[1..], ys);
      Regroup(head, Matching(q, xs[1..]), Matching(q, ys));
    }
  }

  lemma {:induction false} MatchingMembers(q: Query, list: seq<Snapshot>, c: Snapshot)
    ensures c in Matching(q, list) <==> c in list && Matches(q, c)
  {
    if list == [] {
    } else {
      MatchingMembers(q, list[1..], c);
    }
  }

  lemma {:induction false} SuffixAfter(before: Option<string>, list: seq<Snapshot>, i: int)
    requires -1 <= i < |list| || i == -1
    requires if before.None? then i == -1
             else 0 <= i && list[i].id == before.value && forall k :: 0 <= k < i ==> list[k].id != before.value
    ensures AfterBefore(before, list) == list[i + 1..]
  {
    if i <= 0 {
    } else {
      SuffixAfter(before, list[1..], i - 1);
    }
  }

  lemma {:induction false} PrefixUntil(since: Option<string>, list: seq<Snapshot>, j: nat)
    requires j <= |list| && (j < |list| ==> since == Some(list[j].id))
    requires forall k :: 0 <= k < j ==> since != Some(list[k].id)
    ensures UntilSince(since, list) == list[..j]
  {
    if j == 0 {
    } else {
      PrefixUntil(since, list[1..], j - 1);
    }
  }

  datatype Action = Include | Exclude | Stop

  /** What a container at the head of the list does to the rest of the answer. */
  lemma RestStep(q: Query, before: Option<string>, list: seq<Snapshot>, taken: nat)
    requires list != [] && (q.limit > 0 ==> taken <= q.limit)
    ensures var c, tail := list[0], list[1..];
            if before.Some? then
              Rest(q, before, list, taken) == Rest(q, if c.id == before.value then None else before, tail, taken)
            else if q.since == Some(c.id) then Rest(q, before, list, taken) == []
            else if !EarlyMatch(q, c) then Rest(q, before, list, taken) == Rest(q, before, tail, taken)
            else if q.limit > 0 && taken == q.limit then Rest(q, before, list, taken) == []
            else if LateMatch(q, c) then Rest(q, before, list, taken) == [c] + Rest(q, before, tail, taken + 1)
            else Rest(q, before, list, taken) == Rest(q, before, tail, taken)
  {
  }

  // ---- the pass ----

  class ListContext {
    const query: Query
    var idx: nat
    var beforeFilter: Option<string>

    constructor (query: Query, before: Option<string>)
      ensures this.query == query && idx == 0 && beforeFilter == before
    {
      this.query, idx, beforeFilter := query, 0, before;
    }

    method ExitAllowed(c: Snapshot) returns (ok: bool)
      ensures ok == ExitMatch(query, c)
    {
      ok := true;
      if |query.exitAllowed| > 0 {
        ok := false;
        for i := 0 to |query.exitAllowed|
          invariant forall j :: 0 <= j < i ==> !(query.exitAllowed[j] == c.exitCode && !c.running && c.started)
        {
          if query.exitAllowed[i] == c.exitCode && !c.running && c.started {
            return true;
          }
        }
      }
    }

    method HasVolume(c: Snapshot) returns (ok: bool)
      ensures ok == VolumeMatch(query, c)
    {
      var byName: set<string>, byDestination: set<string> := {}, {};
      for i := 0 to |c.mounts|
        invariant forall v :: v in byName <==>
                    exists m :: m in c.mounts[..i] && v == if m.name != "" then m.name else m.source
      {
        var m := c.mounts[i];
        byName := byName + {if m.name != "" then m.name else m.source};
        assert c.mounts[..i + 1] == c.mounts[..i] + [m];
      }
      assert c.mounts[..|c.mounts|] == c.mounts;
      for i := 0 to |c.mounts|
        invariant forall v :: v in byDestination <==> exists m :: m in c.mounts[..i] && v == m.destination && v != ""
      {
        if c.mounts[i].destination != "" {
          byDestination := byDestination + {c.mounts[i].destination};
        }
        assert c.mounts[..i + 1] == c.mounts[..i] + [c.mounts[i]];
      }
      ok := exists v :: v in Values(query.args, ByVolume) && (v in byDestination || v in byName);
    }

    method HasNetwork(c: Snapshot) returns (ok: bool)
      ensures ok == NetworkMatch(query, c)
    {
      var todo := Values(query.args, ByNetwork);
      while todo != {}
        invariant todo <= Values(query.args, ByNetwork)
        invariant c.networks.Some? ==>
                    forall n, v :: n in c.networks.value && v in Values(query.args, ByNetwork) && v !in todo ==>
                      !Named(n, c.networks.value[n], v)
        decreases |todo|
      {
        var value :| value in todo;
        if c.networks.None? {
          return false;
        }
        var nets := c.networks.value;
        if value in nets {
          assert Named(value, nets[value], value);
          return true;
        }
        if exists n :: n in nets && nets[n].Some? && value <= nets[n].value {
          assert exists n :: n in nets && Named(n, nets[n], value);
          return true;
        }
        todo := todo - {value};
      }
      ok := false;
    }

    method HasPort(c: Snapshot) returns (ok: bool)
      ensures ok == PortMatch(query, c)
    {
      ok := true;
      if query.expose != {} || query.publish != {} {
        ok := false;
        for i := 0 to |c.ports|
          invariant forall j :: 0 <= j < i ==>
                      (c.ports[j].publicPort, c.ports[j].proto) !in query.publish &&
                      (c.ports[j].privatePort, c.ports[j].proto) !in query.expose
        {
          var p := c.ports[i];
          if (p.publicPort, p.proto) in query.publish || (p.privatePort, p.proto) in query.expose {
            return true;
          }
        }
      }
    }

    method PassesEarly(c: Snapshot) returns (ok: bool)
      ensures ok == EarlyMatch(query, c)
    {
      if !c.running && !query.all && query.limit <= 0 {
        return false;
      }
      if !Match(query.args, ByName, c.name) && !Match(query.args, ByName, TrimSlash(c.name)) {
        return false;
      }
      if !Match(query.args, ByID, c.id) {
        return false;
      }
      if query.taskFilter && query.isTask != c.managed {
        return false;
      }
      if !MatchKVList(query.args, ByLabel, c.labels) {
        return false;
      }
      if query.byIsolation && !Match(query.args, ByIsolation, if c.isolation == "" then "default" else c.isolation) {
        return false;
      }
      return true;
    }

    method PassesLate(c: Snapshot) returns (ok: bool)
      ensures ok == LateMatch(query, c)
    {
      ok := ExitAllowed(c);
      if !ok || !Match(query.args, ByStatus, c.state) || !ExactMatch(query.args, ByHealth, c.health) {
        return false;
      }
      if ByVolume in query.args.fields {
        ok := HasVolume(c);
        if !ok {
          return false;
        }
      }
      if query.ancestorFilter && (|query.images| == 0 || c.imageID !in query.images) {
        return false;
      }
      if ByNetwork in query.args.fields {
        ok := HasNetwork(c);
        if !ok {
          return false;
        }
      }
      ok := HasPort(c);
    }

    /** Whether a container is shown, and whether the pass goes on. */
    method IncludeContainerInList(c: Snapshot) returns (action: Action)
      modifies this`beforeFilter
      ensures old(beforeFilter).Some? ==>
                action == Exclude && beforeFilter == if c.id == old(beforeFilter).value then None else old(beforeFilter)
      ensures old(beforeFilter).None? ==> beforeFilter.None?
      ensures old(beforeFilter).None? ==>
                action == if query.since == Some(c.id) then Stop
                          else if !EarlyMatch(query, c) then Exclude
                          else if query.limit > 0 && idx == query.limit then Stop
                          else if LateMatch(query, c) then Include else Exclude
    {
      if beforeFilter.Some? {
        if c.id == beforeFilter.value {
          beforeFilter := None;
        }
        return Exclude;
      }
      if query.since.Some? && c.id == query.since.value {
        return Stop;
      }
      var ok := PassesEarly(c);
      if !ok {
        return Exclude;
      }
      if query.limit > 0 && idx == query.limit {
        return Stop;
      }
      ok := PassesLate(c);
      return if ok then Include else Exclude;
    }

    /** One turn of the pass: an included container takes the next slot; the rest of the answer is accounted for. */
    method Examine(list: seq<Snapshot>, pos: nat) returns (action: Action)
      requires pos < |list| && (query.limit > 0 ==> idx <= query.limit)
      modifies this
      ensures query.limit > 0 ==> idx <= query.limit
      ensures idx == if action.Include? then old(idx) + 1 else old(idx)
      ensures var was := Rest(query, old(beforeFilter), list[pos..], old(idx));
              match action
              case Stop => was == []
              case Exclude => was == Rest(query, beforeFilter, list[pos + 1..], idx)
              case Include => was == [list[pos]] + Rest(query, beforeFilter, list[pos + 1..], idx)
    {
      RestStep(query, beforeFilter, list[pos..], idx);
      assert list[pos..][1..] == list[pos + 1..];
      action := IncludeContainerInList(list[pos]);
      if action.Include? {
        idx := idx + 1;
      }
    }
  }

  // ---- the workers ----

  /**
   What the image service answers to the job of a container: the image its reference resolves to now, and
   the size of its layer, if that can be found out.
   */
  datatype ImageService = ImageService(resolve: Snapshot -> Option<string>, layerSize: Snapshot -> Option<nat>)

  predicate JobFails(q: Query, images: ImageService, c: Snapshot) {
    q.size && images.layerSize(c).None?
  }

  /** The container's summary; its image is named by reference only while that still leads to the same image. */
  ghost predicate IsSummaryOf(q: Query, images: ImageService, m: Summary, c: Snapshot) {
    && m.id == c.id
    && (m.image != c.imageID ==> m.image == c.image && images.resolve(c) == Some(c.imageID))
    && (m.image != c.image ==> m.image == c.imageID && images.resolve(c) != Some(c.imageID))
    && m.size == if q.size then images.layerSize(c) else None
  }

  /** A job: the image reference is replaced by the image ID unless it still resolves to it. */
  method RefreshImage(c: Snapshot, q: Query, images: ImageService) returns (m: Summary)
    requires !JobFails(q, images, c)
    ensures IsSummaryOf(q, images, m, c)
  {
    m := Summary(c.id, c.image, None);
    if c.image != c.imageID {
      var img := images.resolve(c);
      if img.None? || img.value != c.imageID {
        m := m.(image := c.imageID);
      }
    }
    if q.size {
      m := m.(size := images.layerSize(c));
    }
  }

  ghost predicate SomeJobFails(q: Query, images: ImageService, selected: seq<Snapshot>) {
    exists k :: 0 <= k < |selected| && JobFails(q, images, selected[k])
  }

  /** A finished job has filled its slot, or the listing has failed. */
  ghost predicate SlotDone(q: Query, images: ImageService, c: Snapshot, result: Option<Summary>, failed: bool) {
    if JobFails(q, images, c) then failed else result.Some? && IsSummaryOf(q, images, result.value, c)
  }

  /** Reserved slots: each holds its own container's summary, or its job is still to finish, or has failed. */
  ghost predicate SlotsOk(q: Query, images: ImageService, selected: seq<Snapshot>, pending: map<nat, Snapshot>,
                          results: seq<Option<Summary>>, failed: bool)
  {
    && |selected| <= |results|
    && (forall k :: k in pending ==> k < |selected| && pending[k] == selected[k])
    && (forall k :: 0 <= k < |selected| && k !in pending ==> SlotDone(q, images, selected[k], results[k], failed))
    && (failed ==> SomeJobFails(q, images, selected))
  }

  lemma SlotReserved(q: Query, images: ImageService, selected: seq<Snapshot>, pending: map<nat, Snapshot>,
                     results: seq<Option<Summary>>, failed: bool, c: Snapshot)
    requires SlotsOk(q, images, selected, pending, results, failed) && |selected| < |results|
    ensures SlotsOk(q, images, selected + [c], pending[|selected| := c], results, failed)
  {
    if failed {
      var k :| 0 <= k < |selected| && JobFails(q, images, selected[k]);
      assert (selected + [c])[k] == selected[k];
    }
  }

  lemma SlotFilled(q: Query, images: ImageService, selected: seq<Snapshot>, pending: map<nat, Snapshot>,
                   results: seq<Option<Summary>>, failed: bool, k: nat, m: Summary)
    requires SlotsOk(q, images, selected, pending, results, failed)
    requires k in pending && IsSummaryOf(q, images, m, pending[k]) && !JobFails(q, images, pending[k])
    ensures k < |results| && SlotsOk(q, images, selected, pending - {k}, results[k := Some(m)], failed)
  {
  }

  /** When all jobs have finished, the listing fails exactly if one of them has. */
  lemma AllSlotsDone(q: Query, images: ImageService, selected: seq<Snapshot>,
                     results: seq<Option<Summary>>, failed: bool)
    requires SlotsOk(q, images, selected, map[], results, failed)
    ensures failed <==> SomeJobFails(q, images, selected)
    ensures !failed ==> forall k :: 0 <= k < |selected| ==>
              results[k].Some? && IsSummaryOf(q, images, results[k].value, selected[k])
  {
    assert forall k :: 0 <= k < |selected| ==> SlotDone(q, images, selected[k], results[k], failed);
  }

  lemma JobFailed(q: Query, images: ImageService, selected: seq<Snapshot>, pending: map<nat, Snapshot>,
                  results: seq<Option<Summary>>, failed: bool, k: nat)
    requires SlotsOk(q, images, selected, pending, results, failed) && k in pending && JobFails(q, images, pending[k])
    ensures SlotsOk(q, images, selected, pending - {k}, results, true)
  {
    forall j | 0 <= j < |selected| && j !in pending - {k} ensures SlotDone(q, images, selected[j], results[j], true) {
      assert j == k || SlotDone(q, images, selected[j], results[j], failed);
    }
  }

  /** Some pending job finishes, and fails or fills its slot. */
  method FinishJob(q: Query, images: ImageService, ghost selected: seq<Snapshot>, pending: map<nat, Snapshot>,
                   results: seq<Option<Summary>>, ghost failed: bool)
    returns (left: map<nat, Snapshot>, filled: seq<Option<Summary>>, fails: bool)
    requires SlotsOk(q, images, selected, pending, results, failed) && pending != map[]
    ensures |left| < |pending| && |filled| == |results|
    ensures SlotsOk(q, images, selected, left, filled, failed || fails)
  {
    var k :| k in pending;
    left := pending - {k};
    assert pending.Keys == left.Keys + {k};
    fails := q.size && images.layerSize(pending[k]).None?;
    filled := results;
    if !fails {
      var m := RefreshImage(pending[k], q, images);
      SlotFilled(q, images, selected, pending, results, failed, k, m);
      filled := results[k := Some(m)];
    } else {
      JobFailed(q, images, selected, pending, results, failed, k);
    }
  }

  /** The answer is what has been selected so far and what the rest of the pass will add. */
  ghost predicate Accounted(q: Query, before: Option<string>, idx: nat, expected: seq<Snapshot>,
                            selected: seq<Snapshot>, list: seq<Snapshot>, pos: nat, stopped: bool)
  {
    && pos <= |list| && |selected| == idx <= pos && (q.limit > 0 ==> idx <= q.limit)
    && expected == if stopped then selected else selected + Rest(q, before, list[pos..], idx)
  }

  lemma PassBegins(q: Query, before: Option<string>, list: seq<Snapshot>)
    ensures Accounted(q, before, 0, Answer(q, before, list), [], list, 0, false)
  {
    assert list[0..] == list && [] + Answer(q, before, list) == Answer(q, before, list);
  }

  lemma PassIsOver(q: Query, before: Option<string>, idx: nat, expected: seq<Snapshot>,
                   selected: seq<Snapshot>, list: seq<Snapshot>, pos: nat, stopped: bool)
    requires Accounted(q, before, idx, expected, selected, list, pos, stopped) && (pos == |list| || stopped)
    ensures selected == expected
  {
    assert list[|list|..] == [];
  }

  /** The main loop examines the next container and dispatches a job for it if it is included. */
  method MainTurn(ctx: ListContext, images: ImageService, list: seq<Snapshot>, pos: nat,
                  ghost expected: seq<Snapshot>, ghost selected: seq<Snapshot>,
                  pending: map<nat, Snapshot>, results: seq<Option<Summary>>, ghost failed: bool)
    returns (stopped: bool, dispatched: map<nat, Snapshot>, ghost chosen: seq<Snapshot>)
    requires pos < |list| == |results|
    requires Accounted(ctx.query, ctx.beforeFilter, ctx.idx, expected, selected, list, pos, false)
    requires SlotsOk(ctx.query, images, selected, pending, results, failed)
    modifies ctx
    ensures Accounted(ctx.query, ctx.beforeFilter, ctx.idx, expected, chosen, list, pos + 1, stopped)
    ensures SlotsOk(ctx.query, images, chosen, dispatched, results, failed)
  {
    stopped, dispatched, chosen := false, pending, selected;
    var slot := ctx.idx;
    var action := ctx.Examine(list, pos);
    match action {
      case Exclude =>
      case Stop => stopped := true;
      case Include =>
        SlotReserved(ctx.query, images, selected, pending, results, failed, list[pos]);
        Regroup(selected, [list[pos]], Rest(ctx.query, ctx.beforeFilter, list[pos + 1..], ctx.idx));
        dispatched := pending[slot := list[pos]];
        chosen := selected + [list[pos]];
    }
  }

  /**
   The main loop and the jobs it has dispatched interleave arbitrarily: each turn either examines the next
   container or lets some job finish.
   */
  method RunJobs(list: seq<Snapshot>, ctx: ListContext, images: ImageService)
    returns (results: seq<Option<Summary>>, failed: bool)
    requires ctx.idx == 0
    modifies ctx
    ensures var expected := Answer(ctx.query, old(ctx.beforeFilter), list);
            SlotsOk(ctx.query, images, expected, map[], results, failed) && ctx.idx == |expected|
  {
    ghost var expected, selected := Answer(ctx.query, ctx.beforeFilter, list), [];
    results, failed := seq(|list|, _ => None), false;
    var pending: map<nat, Snapshot> := map[];
    var pos, stopped := 0, false;
    PassBegins(ctx.query, ctx.beforeFilter, list);
    while (pos < |list| && !stopped) || pending != map[]
      invariant 0 <= pos <= |list| == |results|
      invariant Accounted(ctx.query, ctx.beforeFilter, ctx.idx, expected, selected, list, pos, stopped)
      invariant SlotsOk(ctx.query, images, selected, pending, results, failed)
      decreases if stopped then 0 else |list| - pos + 1, |pending|
    {
      var main := *;
      if pos < |list| && !stopped && (main || pending == map[]) {
        stopped, pending, selected := MainTurn(ctx, images, list, pos, expected, selected, pending, results, failed);
        pos := pos + 1;
      } else {
        var fails;
        pending, results, fails := FinishJob(ctx.query, images, selected, pending, results, failed);
        failed := failed || fails;
      }
    }
    PassIsOver(ctx.query, ctx.beforeFilter, ctx.idx, expected, selected, list, pos, stopped);
  }

  /** The listing: the summaries of the answer in order, or an error exactly if the job of one of them fails. */
  method Containers(list: seq<Snapshot>, ctx: ListContext, images: ImageService)
    returns (r: Result<seq<Summary>, ()>)
    requires ctx.idx == 0
    modifies ctx
    ensures var expected := Answer(ctx.query, old(ctx.beforeFilter), list);
            && (r.Err? <==> SomeJobFails(ctx.query, images, expected))
            && (r.Ok? ==>
                  && |r.value| == |expected|
                  && forall k :: 0 <= k < |expected| ==> IsSummaryOf(ctx.query, images, r.value[k], expected[k]))
  {
    ghost var expected := Answer(ctx.query, ctx.beforeFilter, list);
    var results, failed := RunJobs(list, ctx, images);
    AllSlotsDone(ctx.query, images, expected, results, failed);
    if failed {
      return Err(());
    }
    var n := ctx.idx;
    return Ok(seq(n, k requires 0 <= k < n <= |results| && results[k].Some? => results[k].value));
  }
}
