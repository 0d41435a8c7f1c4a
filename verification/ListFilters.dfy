/**
 What the filters of a container listing mean (moby/daemon/list.go): each by itself, and that a query is
 the conjunction of its filters.
 */
module ListFilters {
  import opened Wrappers
  import opened ContainerList

  /** The query for all containers with no filter set. */
  function Everything(regex: (string, string) -> bool): Query {
    Query(None, Args(map[], regex), true, 0, false, [], false, false, false, false, {}, {}, {})
  }

  /** The query for all containers with one filter set. */
  function Only(regex: (string, string) -> bool, key: Key, values: set<string>): Query {
    var q := Everything(regex);
    q.(args := q.args.(fields := map[key := values]), byIsolation := key == ByIsolation)
  }

  /** A value names a text outright or as an expression. */
  predicate Names(regex: (string, string) -> bool, value: string, text: string) {
    value == text || regex(value, text)
  }

  function Isolation(c: Snapshot): string {
    if c.isolation == "" then "default" else c.isolation
  }

  /** One filter's condition, as the pass evaluates it. */
  predicate Passes(q: Query, key: Key, c: Snapshot) {
    match key
    case ByName => Match(q.args, ByName, c.name) || Match(q.args, ByName, TrimSlash(c.name))
    case ByID => Match(q.args, ByID, c.id)
    case ByLabel => MatchKVList(q.args, ByLabel, c.labels)
    case ByIsolation => q.byIsolation ==> Match(q.args, ByIsolation, Isolation(c))
    case ByStatus => Match(q.args, ByStatus, c.state)
    case ByHealth => ExactMatch(q.args, ByHealth, c.health)
    case ByVolume => ByVolume in q.args.fields ==> VolumeMatch(q, c)
    case ByNetwork => ByNetwork in q.args.fields ==> NetworkMatch(q, c)
  }

  lemma UnsetPasses(q: Query, key: Key, c: Snapshot)
    requires key !in q.args.fields
    ensures Passes(q, key, c)
  {
    assert Values(q.args, key) == {};
  }

  lemma OnlyPasses(regex: (string, string) -> bool, key: Key, values: set<string>, c: Snapshot)
    ensures Matches(Only(regex, key, values), c) <==> Passes(Only(regex, key, values), key, c)
  {
    var q := Only(regex, key, values);
    forall k: Key | k != key ensures Passes(q, k, c) {
      UnsetPasses(q, k, c);
    }
    assert EarlyMatch(q, c) <==>
             Passes(q, ByName, c) && Passes(q, ByID, c) && Passes(q, ByLabel, c) && Passes(q, ByIsolation, c);
    assert LateMatch(q, c) <==>
             Passes(q, ByStatus, c) && Passes(q, ByHealth, c) && Passes(q, ByVolume, c) && Passes(q, ByNetwork, c);
  }

  lemma FlagsMean(regex: (string, string) -> bool, c: Snapshot, limit: int, isTask: bool, codes: seq<int>)
    ensures var q := Everything(regex);
            && Matches(q, c)
            && (Matches(q.(all := false, limit := limit), c) <==> c.running || limit > 0)
            && (Matches(q.(taskFilter := true, isTask := isTask), c) <==> isTask == c.managed)
            && (codes != [] ==>
                  (Matches(q.(exitAllowed := codes), c) <==> !c.running && c.started && c.exitCode in codes))
  {
  }

  lemma TextFilterMeans(regex: (string, string) -> bool, key: Key, values: set<string>, text: string)
    requires values != {}
    ensures Match(Only(regex, key, values).args, key, text) <==> exists v :: v in values && Names(regex, v, text)
  {
    var args := Only(regex, key, values).args;
    assert Values(args, key) == values;
    if text in values {
      assert Names(regex, text, text);
    }
    if v :| v in values && Names(regex, v, text) {
      assert v == text || args.regex(v, text);
    }
  }

  lemma TextFiltersMean(regex: (string, string) -> bool, values: set<string>, c: Snapshot)
    requires values != {}
    ensures Matches(Only(regex, ByID, values), c) <==> exists v :: v in values && Names(regex, v, c.id)
    ensures Matches(Only(regex, ByStatus, values), c) <==> exists v :: v in values && Names(regex, v, c.state)
    ensures Matches(Only(regex, ByHealth, values), c) <==> c.health in values
    ensures Matches(Only(regex, ByIsolation, values), c) <==>
              exists v :: v in values && Names(regex, v, if c.isolation == "" then "default" else c.isolation)
  {
    OnlyPasses(regex, ByID, values, c);
    OnlyPasses(regex, ByStatus, values, c);
    OnlyPasses(regex, ByHealth, values, c);
    OnlyPasses(regex, ByIsolation, values, c);
    TextFilterMeans(regex, ByID, values, c.id);
    TextFilterMeans(regex, ByStatus, values, c.state);
    TextFilterMeans(regex, ByIsolation, values, Isolation(c));
    assert Values(Only(regex, ByHealth, values).args, ByHealth) == values;
  }

  /** A container's name starts with a slash, and matches with or without it. */
  lemma NameFilterMeans(regex: (string, string) -> bool, values: set<string>, c: Snapshot, name: string)
    requires values != {} && c.name == "/" + name
    ensures Matches(Only(regex, ByName, values), c) <==>
              exists v :: v in values && (Names(regex, v, "/" + name) || Names(regex, v, name))
  {
    OnlyPasses(regex, ByName, values, c);
    TextFilterMeans(regex, ByName, values, c.name);
    TextFilterMeans(regex, ByName, values, TrimSlash(c.name));
    assert TrimSlash(c.name) == name;
  }

  lemma LabelFilterMeans(regex: (string, string) -> bool, c: Snapshot, name: string, value: string)
    requires '=' !in name
    ensures Matches(Only(regex, ByLabel, {name}), c) <==> name in c.labels
    ensures Matches(Only(regex, ByLabel, {name + "=" + value}), c) <==> name in c.labels && c.labels[name] == value
  {
    var pair := name + "=" + value;
    OnlyPasses(regex, ByLabel, {name}, c);
    OnlyPasses(regex, ByLabel, {pair}, c);
    CutFinds(name, "");
    CutFinds(name, "=" + value);
    assert name + "" == name && pair == name + ("=" + value);
    assert pair[..|name|] == name && pair[|name| + 1..] == value;
  }

  lemma {:induction false} CutFinds(name: string, rest: string)
    requires '=' !in name && (rest != "" ==> rest[0] == '=')
    ensures Cut(name + rest) == |name|
  {
    if name == "" {
      assert name + rest == rest;
    } else {
      CutFinds(name[1..], rest);
      assert (name + rest)[1..] == name[1..] + rest;
    }
  }

  lemma VolumeFilterMeans(regex: (string, string) -> bool, c: Snapshot, values: set<string>)
    ensures Matches(Only(regex, ByVolume, values), c) <==>
              exists m :: m in c.mounts &&
                ((m.destination != "" && m.destination in values) ||
                 (m.name != "" && m.name in values) || (m.name == "" && m.source in values))
  {
    OnlyPasses(regex, ByVolume, values, c);
    assert Values(Only(regex, ByVolume, values).args, ByVolume) == values;
  }

  lemma NetworkFilterMeans(regex: (string, string) -> bool, c: Snapshot, values: set<string>, nets: Networks)
    requires c.networks == Some(nets)
    ensures Matches(Only(regex, ByNetwork, values), c) <==>
              exists n :: n in nets && (n in values || (nets[n].Some? && exists v :: v in values && v <= nets[n].value))
  {
    OnlyPasses(regex, ByNetwork, values, c);
    assert Values(Only(regex, ByNetwork, values).args, ByNetwork) == values;
    forall n | n in nets
      ensures (exists v :: v in values && Named(n, nets[n], v)) <==>
                n in values || (nets[n].Some? && exists v :: v in values && v <= nets[n].value)
    {
      if n in values {
        assert Named(n, nets[n], n);
      }
    }
  }

  lemma OriginFiltersMean(regex: (string, string) -> bool, c: Snapshot, images: set<string>, ports: set<(nat, string)>)
    ensures var q := Everything(regex);
            && (Matches(q.(ancestorFilter := true, images := images), c) <==> c.imageID in images)
            && (ports != {} ==>
                  && (Matches(q.(publish := ports), c) <==>
                        exists p :: p in c.ports && (p.publicPort, p.proto) in ports)
                  && (Matches(q.(expose := ports), c) <==>
                        exists p :: p in c.ports && (p.privatePort, p.proto) in ports))
  {
  }

  /** A filter passes in a query exactly if it does alone. */
  lemma PassesAlone(q: Query, key: Key, c: Snapshot)
    requires key in q.args.fields && (key == ByIsolation ==> q.byIsolation)
    ensures Passes(q, key, c) <==> Matches(Only(q.args.regex, key, q.args.fields[key]), c)
  {
    var only := Only(q.args.regex, key, q.args.fields[key]);
    OnlyPasses(q.args.regex, key, q.args.fields[key], c);
    assert Values(only.args, key) == Values(q.args, key);
  }

  /** The conditions of a query that are not lists of texts. */
  ghost predicate OthersMatch(q: Query, c: Snapshot) {
    var all := Everything(q.args.regex);
    && Matches(all.(all := q.all, limit := q.limit), c)
    && Matches(all.(exitAllowed := q.exitAllowed), c)
    && Matches(all.(taskFilter := q.taskFilter, isTask := q.isTask), c)
    && Matches(all.(ancestorFilter := q.ancestorFilter, images := q.images), c)
    && Matches(all.(publish := q.publish, expose := q.expose), c)
  }

  /** The same conditions, spelled out. */
  predicate Flags(q: Query, c: Snapshot) {
    && (c.running || q.all || q.limit > 0)
    && ExitMatch(q, c)
    && (q.taskFilter ==> q.isTask == c.managed)
    && (q.ancestorFilter ==> c.imageID in q.images)
    && PortMatch(q, c)
  }

  lemma OthersAreFlags(q: Query, c: Snapshot)
    ensures OthersMatch(q, c) <==> Flags(q, c)
  {
  }

  lemma MatchesInParts(q: Query, c: Snapshot)
    ensures Matches(q, c) <==> Flags(q, c) && forall key: Key :: Passes(q, key, c)
  {
    if Matches(q, c) {
      forall key: Key ensures Passes(q, key, c) {
      }
    }
    if forall key: Key :: Passes(q, key, c) {
      assert Passes(q, ByName, c) && Passes(q, ByID, c) && Passes(q, ByLabel, c) && Passes(q, ByIsolation, c);
      assert Passes(q, ByStatus, c) && Passes(q, ByHealth, c) && Passes(q, ByVolume, c) && Passes(q, ByNetwork, c);
    }
  }

  /** A container matches a query exactly if it matches each of its filters alone. */
  lemma FiltersCombine(q: Query, c: Snapshot)
    requires ByIsolation in q.args.fields ==> q.byIsolation
    ensures Matches(q, c) <==>
              && OthersMatch(q, c)
              && forall key :: key in q.args.fields ==> Matches(Only(q.args.regex, key, q.args.fields[key]), c)
  {
    forall key: Key
      ensures key in q.args.fields ==>
                (Passes(q, key, c) <==> Matches(Only(q.args.regex, key, q.args.fields[key]), c))
      ensures key !in q.args.fields ==> Passes(q, key, c)
    {
      if key in q.args.fields {
        PassesAlone(q, key, c);
      } else {
        UnsetPasses(q, key, c);
      }
    }
    OthersAreFlags(q, c);
    MatchesInParts(q, c);
  }
}
