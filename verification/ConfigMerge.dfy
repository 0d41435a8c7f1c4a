/**
 Merging an image's configuration into a user's (moby/daemon/commit.go), the check that follows it
 (create.go) and the command line taken from the result (container.go).
 */
module ConfigMerge {
  import opened Wrappers

  datatype Healthcheck = Healthcheck(
    test: seq<string>, interval: int, timeout: int, startPeriod: int, startInterval: int, retries: int)

  /** A nil entrypoint is told apart from an empty one; nil maps and lists otherwise count as empty. */
  datatype Config = Config(
    user: string, workingDir: string, stopSignal: string,
    exposedPorts: set<string>, volumes: set<string>, env: seq<string>, labels: map<string, string>,
    entrypoint: Option<seq<string>>, cmd: seq<string>, healthcheck: Option<Healthcheck>)

  /** Normalisation of environment names: the identity, or case folding on Windows. */
  type Fold = string -> string

  // ---- environment ----

  /** The part before the first '='. */
  function Name(e: string): (n: string)
    ensures n <= e && '=' !in n && (n != e ==> e[|n|] == '=')
  {
    if e == "" || e[0] == '=' then "" else [e[0]] + Name(e[1..])
  }

  function Key(fold: Fold, e: string): string {
    fold(Name(e))
  }

  predicate HasKey(fold: Fold, env: seq<string>, key: string) {
    exists i :: 0 <= i < |env| && Key(fold, env[i]) == key
  }

  /** The entries of an image whose name is not taken yet are added one by one. */
  function Appended(fold: Fold, env: seq<string>, image: seq<string>): seq<string>
    decreases |image|
  {
    if image == [] then env
    else Appended(fold, With(fold, env, image[0]), image[1..])
  }

  /** The list with an entry added if its name is not taken. */
  function With(fold: Fold, env: seq<string>, e: string): seq<string> {
    if HasKey(fold, env, Key(fold, e)) then env else env + [e]
  }

  function MergedEnv(fold: Fold, env: seq<string>, image: seq<string>): seq<string> {
    if env == [] then image else Appended(fold, env, image)
  }

  predicate UniqueKeys(fold: Fold, env: seq<string>) {
    forall i, j :: 0 <= i < j < |env| ==> Key(fold, env[i]) != Key(fold, env[j])
  }

  /** The entry an image gives for a key: its first one. */
  ghost predicate IsFirstFor(fold: Fold, image: seq<string>, e: string) {
    exists i :: 0 <= i < |image| && image[i] == e && forall j :: 0 <= j < i ==> Key(fold, image[j]) != Key(fold, e)
  }

  lemma HasKeyAppend(fold: Fold, env: seq<string>, e: string, key: string)
    ensures HasKey(fold, env + [e], key) <==> HasKey(fold, env, key) || Key(fold, e) == key
  {
    var all := env + [e];
    if HasKey(fold, env, key) {
      var i :| 0 <= i < |env| && Key(fold, env[i]) == key;
      assert Key(fold, all[i]) == key;
    }
    assert all[|env|] == e;
  }

  lemma HasKeyPrepend(fold: Fold, e: string, env: seq<string>, key: string)
    ensures HasKey(fold, [e] + env, key) <==> Key(fold, e) == key || HasKey(fold, env, key)
  {
    var all := [e] + env;
    assert all[0] == e;
    if HasKey(fold, env, key) {
      var i :| 0 <= i < |env| && Key(fold, env[i]) == key;
      assert Key(fold, all[i + 1]) == key;
    }
  }

  lemma {:induction false} AppendedKeepsNames(fold: Fold, env: seq<string>, image: seq<string>, key: string)
    ensures HasKey(fold, Appended(fold, env, image), key) <==> HasKey(fold, env, key) || HasKey(fold, image, key)
    decreases |image|
  {
    if image == [] {
    } else {
      var e := image[0];
      AppendedKeepsNames(fold, if HasKey(fold, env, Key(fold, e)) then env else env + [e], image[1..], key);
      HasKeyAppend(fold, env, e, key);
      HasKeyPrepend(fold, e, image[1..], key);
      assert image == [e] + image[1..];
    }
  }

  lemma {:induction false} AppendedStaysUnique(fold: Fold, env: seq<string>, image: seq<string>)
    ensures env <= Appended(fold, env, image)
    ensures UniqueKeys(fold, env) ==> UniqueKeys(fold, Appended(fold, env, image))
    decreases |image|
  {
    if image == [] {
    } else {
      AppendedStaysUnique(fold, if HasKey(fold, env, Key(fold, image[0])) then env else env + [image[0]], image[1..]);
    }
  }

  /** User entries come first and unchanged; the names are those of both; names stay unique. */
  lemma AppendedKeepsUser(fold: Fold, env: seq<string>, image: seq<string>)
    ensures env <= Appended(fold, env, image)
    ensures forall key ::
              HasKey(fold, Appended(fold, env, image), key) <==> HasKey(fold, env, key) || HasKey(fold, image, key)
    ensures UniqueKeys(fold, env) ==> UniqueKeys(fold, Appended(fold, env, image))
  {
    AppendedStaysUnique(fold, env, image);
    forall key
      ensures HasKey(fold, Appended(fold, env, image), key) <==> HasKey(fold, env, key) || HasKey(fold, image, key)
    {
      AppendedKeepsNames(fold, env, image, key);
    }
  }

  /** The image's entries are added in their order. */
  lemma {:induction false} AppendedInOrder(fold: Fold, env: seq<string>, image: seq<string>, more: seq<string>)
    ensures Appended(fold, env, image + more) == Appended(fold, Appended(fold, env, image), more)
    decreases |image|
  {
    if image == [] {
      assert image + more == more;
    } else {
      var next := With(fold, env, image[0]);
      assert Appended(fold, env, image + more) == Appended(fold, next, image[1..] + more) by {
        assert (image + more)[1..] == image[1..] + more && (image + more)[0] == image[0];
      }
      assert Appended(fold, env, image) == Appended(fold, next, image[1..]);
      AppendedInOrder(fold, next, image[1..], more);
    }
  }

  /** What is added is the image's first entry for a name the user does not have. */
  lemma {:induction false} AppendedAddsImageEntries(fold: Fold, env: seq<string>, image: seq<string>, k: nat)
    requires |env| <= k < |Appended(fold, env, image)|
    ensures var e := Appended(fold, env, image)[k];
            !HasKey(fold, env, Key(fold, e)) && IsFirstFor(fold, image, e)
    decreases |image|
  {
    var e0 := image[0];
    var next := if HasKey(fold, env, Key(fold, e0)) then env else env + [e0];
    AppendedKeepsUser(fold, next, image[1..]);
    var e := Appended(fold, env, image)[k];
    if k < |next| {
      assert e == e0 && image[0] == e0;
    } else {
      AppendedAddsImageEntries(fold, next, image[1..], k);
      HasKeyAppend(fold, env, e0, Key(fold, e));
      var i :| && 0 <= i < |image[1..]| && image[1..][i] == e
               && forall j :: 0 <= j < i ==> Key(fold, image[1..][j]) != Key(fold, e);
      assert image[i + 1] == e;
      forall j | 0 <= j < i + 1 ensures Key(fold, image[j]) != Key(fold, e) {
        if j > 0 {
          assert image[1..][j - 1] == image[j];
        }
      }
    }
  }

  lemma {:induction false} NothingToAppend(fold: Fold, env: seq<string>, image: seq<string>)
    requires forall i :: 0 <= i < |image| ==> HasKey(fold, env, Key(fold, image[i]))
    ensures Appended(fold, env, image) == env
    decreases |image|
  {
    if image == [] {
    } else {
      assert HasKey(fold, env, Key(fold, image[0]));
      forall i | 0 <= i < |image[1..]| ensures HasKey(fold, env, Key(fold, image[1..][i])) {
        assert image[1..][i] == image[i + 1];
      }
      NothingToAppend(fold, env, image[1..]);
    }
  }

  lemma MergedEnvIsIdempotent(fold: Fold, env: seq<string>, image: seq<string>)
    ensures MergedEnv(fold, MergedEnv(fold, env, image), image) == MergedEnv(fold, env, image)
  {
    var once := MergedEnv(fold, env, image);
    AppendedKeepsUser(fold, env, image);
    if once != [] {
      forall i | 0 <= i < |image| ensures HasKey(fold, once, Key(fold, image[i])) {
        assert HasKey(fold, image, Key(fold, image[i]));
      }
      NothingToAppend(fold, once, image);
    }
  }

  // ---- the whole configuration ----

  function Or(a: string, b: string): string {
    if a == "" then b else a
  }

  function OrInt(a: int, b: int): int {
    if a == 0 then b else a
  }

  function MergedHealthcheck(u: Option<Healthcheck>, i: Option<Healthcheck>): Option<Healthcheck> {
    if i.None? then u
    else if u.None? then i
    else Some(Healthcheck(
      if u.value.test == [] then i.value.test else u.value.test, OrInt(u.value.interval, i.value.interval),
      OrInt(u.value.timeout, i.value.timeout), OrInt(u.value.startPeriod, i.value.startPeriod),
      OrInt(u.value.startInterval, i.value.startInterval), OrInt(u.value.retries, i.value.retries)))
  }

  function Length(l: Option<seq<string>>): nat {
    if l.None? then 0 else |l.value|
  }

  function Merged(fold: Fold, u: Config, i: Config): Config {
    Config(
      Or(u.user, i.user), Or(u.workingDir, i.workingDir), Or(u.stopSignal, i.stopSignal),
      u.exposedPorts + i.exposedPorts, u.volumes + i.volumes,
      MergedEnv(fold, u.env, i.env), i.labels + u.labels,
      if u.entrypoint.None? then i.entrypoint else u.entrypoint,
      if Length(u.entrypoint) == 0 && u.cmd == [] then i.cmd else u.cmd,
      MergedHealthcheck(u.healthcheck, i.healthcheck))
  }

  /** Merging the same image again changes nothing. */
  lemma MergeIsIdempotent(fold: Fold, u: Config, i: Config)
    ensures Merged(fold, Merged(fold, u, i), i) == Merged(fold, u, i)
  {
    var m := Merged(fold, u, i);
    MergedEnvIsIdempotent(fold, u.env, i.env);
    assert i.labels + m.labels == m.labels;
    assert m.exposedPorts + i.exposedPorts == m.exposedPorts;
    assert m.volumes + i.volumes == m.volumes;
  }

  /** The fields set in the first health check are the same in the second. */
  predicate Overrides(h: Healthcheck, m: Healthcheck) {
    && (h.test != [] ==> m.test == h.test)
    && (h.interval != 0 ==> m.interval == h.interval)
    && (h.timeout != 0 ==> m.timeout == h.timeout)
    && (h.startPeriod != 0 ==> m.startPeriod == h.startPeriod)
    && (h.startInterval != 0 ==> m.startInterval == h.startInterval)
    && (h.retries != 0 ==> m.retries == h.retries)
  }

  /** What the user set stays as set. */
  lemma UserSettingsWin(fold: Fold, u: Config, i: Config)
    ensures var m := Merged(fold, u, i);
            && (u.user != "" ==> m.user == u.user) && (u.workingDir != "" ==> m.workingDir == u.workingDir)
            && (u.stopSignal != "" ==> m.stopSignal == u.stopSignal)
            && (forall l :: l in u.labels ==> l in m.labels && m.labels[l] == u.labels[l])
            && (u.env != [] ==> u.env <= m.env)
            && (forall key :: HasKey(fold, m.env, key) <==> HasKey(fold, u.env, key) || HasKey(fold, i.env, key))
            && (u.env != [] && UniqueKeys(fold, u.env) ==> UniqueKeys(fold, m.env))
            && (u.entrypoint.Some? ==> m.entrypoint == u.entrypoint)
            && (u.cmd != [] ==> m.cmd == u.cmd)
            && (Length(u.entrypoint) > 0 ==> m.cmd == u.cmd)
            && u.exposedPorts <= m.exposedPorts && u.volumes <= m.volumes
            && (u.healthcheck.Some? ==> m.healthcheck.Some? && Overrides(u.healthcheck.value, m.healthcheck.value))
  {
    AppendedKeepsUser(fold, u.env, i.env);
  }

  /** Each field the first health check leaves unset is filled from the image's. */
  predicate FillsIn(h: Healthcheck, image: Healthcheck, m: Healthcheck) {
    && (h.test == [] ==> m.test == image.test)
    && (h.interval == 0 ==> m.interval == image.interval)
    && (h.timeout == 0 ==> m.timeout == image.timeout)
    && (h.startPeriod == 0 ==> m.startPeriod == image.startPeriod)
    && (h.startInterval == 0 ==> m.startInterval == image.startInterval)
    && (h.retries == 0 ==> m.retries == image.retries)
  }

  /** What the user did not set comes from the image, and nothing comes from elsewhere. */
  lemma ImageFillsIn(fold: Fold, u: Config, i: Config)
    ensures var m := Merged(fold, u, i);
            && (u.user == "" ==> m.user == i.user) && (u.workingDir == "" ==> m.workingDir == i.workingDir)
            && (u.stopSignal == "" ==> m.stopSignal == i.stopSignal)
            && (forall l :: l in i.labels && l !in u.labels ==> l in m.labels && m.labels[l] == i.labels[l])
            && (forall l :: l in m.labels ==> l in u.labels || l in i.labels)
            && (forall p :: p in m.exposedPorts <==> p in u.exposedPorts || p in i.exposedPorts)
            && (forall v :: v in m.volumes <==> v in u.volumes || v in i.volumes)
            && (u.env == [] ==> m.env == i.env)
            && (u.entrypoint.None? ==> m.entrypoint == i.entrypoint)
            && (u.cmd == [] && (u.entrypoint.None? || u.entrypoint == Some([])) ==> m.cmd == i.cmd)
            && (u.healthcheck.None? ==> m.healthcheck == i.healthcheck)
            && (i.healthcheck.None? ==> m.healthcheck == u.healthcheck)
            && (u.healthcheck.Some? && i.healthcheck.Some? ==>
                  m.healthcheck.Some? && FillsIn(u.healthcheck.value, i.healthcheck.value, m.healthcheck.value))
  {
  }

  /** An entry of the image is added exactly if the user has no entry of that name: one name, one example. */
  lemma MergedVariables(fold: Fold, a: string, b: string, x: string, y: string, z: string)
    requires '=' !in a && '=' !in b && fold(a) != fold(b)
    ensures MergedEnv(fold, [a + "=" + x], [a + "=" + y, b + "=" + z]) == [a + "=" + x, b + "=" + z]
  {
    NameOfVariable(a, x);
    NameOfVariable(a, y);
    NameOfVariable(b, z);
    var user, image := [a + "=" + x], [a + "=" + y, b + "=" + z];
    assert image[1..] == [b + "=" + z] && image[1..][1..] == [];
    assert Key(fold, user[0]) == Key(fold, image[0]);
    assert Appended(fold, user, image) == Appended(fold, user, image[1..]);
    assert !HasKey(fold, user, Key(fold, image[1]));
    assert Appended(fold, user, image[1..]) == Appended(fold, user + [image[1]], []);
  }

  lemma {:induction false} NameOfVariable(name: string, value: string)
    requires '=' !in name
    ensures Name(name + "=" + value) == name
  {
    if name == "" {
    } else {
      NameOfVariable(name[1..], value);
      assert (name + "=" + value)[1..] == name[1..] + "=" + value;
    }
  }

  // ---- the code ----

  class UserConfig {
    var user: string
    var workingDir: string
    var stopSignal: string
    var exposedPorts: set<string>
    var volumes: set<string>
    var env: seq<string>
    var labels: map<string, string>
    var entrypoint: Option<seq<string>>
    var cmd: seq<string>
    var healthcheck: Option<Healthcheck>

    function View(): Config
      reads this
    {
      Config(user, workingDir, stopSignal, exposedPorts, volumes, env, labels, entrypoint, cmd, healthcheck)
    }

    method MergeEnv(fold: Fold, image: seq<string>)
      modifies this`env
      ensures env == MergedEnv(fold, old(env), image)
    {
      if |env| == 0 {
        env := image;
      } else {
        var n := 0;
        while n < |image|
          invariant 0 <= n <= |image|
          invariant Appended(fold, old(env), image) == Appended(fold, env, image[n..])
        {
          var found := false;
          var k := 0;
          while k < |env| && !found
            invariant 0 <= k <= |env|
            invariant found ==> HasKey(fold, env, Key(fold, image[n]))
            invariant !found ==> forall j :: 0 <= j < k ==> Key(fold, env[j]) != Key(fold, image[n])
          {
            found := Key(fold, image[n]) == Key(fold, env[k]);
            k := k + 1;
          }
          assert image[n..][0] == image[n] && image[n..][1..] == image[n + 1..];
          if !found {
            env := env + [image[n]];
          }
          n := n + 1;
        }
      }
    }

    method MergeLabels(image: map<string, string>)
      modifies this`labels
      ensures labels == image + old(labels)
    {
      var todo := image.Keys;
      while todo != {}
        invariant todo <= image.Keys
        invariant forall l :: l in labels <==> l in old(labels) || (l in image && l !in todo)
        invariant forall l :: l in labels ==> labels[l] == if l in old(labels) then old(labels)[l] else image[l]
        decreases |todo|
      {
        var l :| l in todo;
        if l !in labels {
          labels := labels[l := image[l]];
        }
        todo := todo - {l};
      }
    }

    method MergePorts(image: set<string>)
      modifies this`exposedPorts
      ensures exposedPorts == old(exposedPorts) + image
    {
      if |exposedPorts| == 0 {
        exposedPorts := image;
      } else {
        var todo := image;
        while todo != {}
          invariant todo <= image && exposedPorts == old(exposedPorts) + (image - todo)
          decreases |todo|
        {
          var p :| p in todo;
          if p !in exposedPorts {
            exposedPorts := exposedPorts + {p};
          }
          todo := todo - {p};
        }
      }
    }

    method MergeVolumes(image: set<string>)
      modifies this`volumes
      ensures volumes == old(volumes) + image
    {
      if |volumes| == 0 {
        volumes := image;
      } else {
        var todo := image;
        while todo != {}
          invariant todo <= image && volumes == old(volumes) + (image - todo)
          decreases |todo|
        {
          var v :| v in todo;
          volumes := volumes + {v};
          todo := todo - {v};
        }
      }
    }

    method MergeHealthcheck(image: Option<Healthcheck>)
      modifies this`healthcheck
      ensures healthcheck == MergedHealthcheck(old(healthcheck), image)
    {
      if image.Some? {
        if healthcheck.None? {
          healthcheck := image;
        } else {
          var h, i := healthcheck.value, image.value;
          if |h.test| == 0 {
            h := h.(test := i.test);
          }
          if h.interval == 0 {
            h := h.(interval := i.interval);
          }
          if h.timeout == 0 {
            h := h.(timeout := i.timeout);
          }
          if h.startPeriod == 0 {
            h := h.(startPeriod := i.startPeriod);
          }
          if h.startInterval == 0 {
            h := h.(startInterval := i.startInterval);
          }
          if h.retries == 0 {
            h := h.(retries := i.retries);
          }
          healthcheck := Some(h);
        }
      }
    }

    method MergeScalars(image: Config)
      modifies this`user, this`workingDir, this`stopSignal
      ensures user == Or(old(user), image.user)
      ensures workingDir == Or(old(workingDir), image.workingDir)
      ensures stopSignal == Or(old(stopSignal), image.stopSignal)
    {
      if user == "" {
        user := image.user;
      }
      if workingDir == "" {
        workingDir := image.workingDir;
      }
      if stopSignal == "" {
        stopSignal := image.stopSignal;
      }
    }

    method MergeCommand(image: Config)
      modifies this`entrypoint, this`cmd
      ensures entrypoint == if old(entrypoint).None? then image.entrypoint else old(entrypoint)
      ensures cmd == if Length(old(entrypoint)) == 0 && old(cmd) == [] then image.cmd else old(cmd)
    {
      if Length(entrypoint) == 0 {
        if |cmd| == 0 {
          cmd := image.cmd;
        }
        if entrypoint.None? {
          entrypoint := image.entrypoint;
        }
      }
    }

    method Merge(fold: Fold, image: Config)
      modifies this
      ensures View() == Merged(fold, old(View()), image)
    {
      MergeScalars(image);
      MergePorts(image.exposedPorts);
      MergeEnv(fold, image.env);
      MergeLabels(image.labels);
      MergeCommand(image);
      MergeHealthcheck(image.healthcheck);
      MergeVolumes(image.volumes);
    }

    method MergeAndVerifyConfig(fold: Fold, image: Option<Config>) returns (ok: bool)
      modifies this
      ensures ok <==> Verified(fold, old(View()), image).Some?
      ensures ok ==> View() == Verified(fold, old(View()), image).value
      ensures ok ==> (Length(entrypoint) > 0 || cmd != []) && !Blank(entrypoint)
      ensures var given := if image.Some? then Merged(fold, old(View()), image.value) else old(View());
              && (ok <==> given.cmd != [] || (Length(given.entrypoint) > 0 && given.entrypoint != Some([""])))
              && View() == given.(entrypoint := if given.entrypoint == Some([""]) then None else given.entrypoint)
    {
      if image.Some? {
        Merge(fold, image.value);
      }
      assert Blank(entrypoint) ==> entrypoint.value == [""];
      if Length(entrypoint) == 1 && entrypoint.value[0] == "" {
        entrypoint := None;
      }
      ok := !(Length(entrypoint) == 0 && |cmd| == 0);
    }
  }

  // ---- the command to run ----

  /** The entrypoint [""]. */
  predicate Blank(l: Option<seq<string>>) {
    Length(l) == 1 && l.value[0] == ""
  }

  function Reset(c: Config): Config {
    if Blank(c.entrypoint) then c.(entrypoint := None) else c
  }

  /** The configuration a container is created with, or None without a command. */
  function Verified(fold: Fold, u: Config, image: Option<Config>): Option<Config> {
    var r := Reset(if image.Some? then Merged(fold, u, image.value) else u);
    if Length(r.entrypoint) == 0 && r.cmd == [] then None else Some(r)
  }

  method GetEntrypointAndArgs(entrypoint: seq<string>, cmd: seq<string>) returns (path: string, args: seq<string>)
    requires entrypoint != [] || cmd != []
    ensures [path] + args == entrypoint + cmd
  {
    if |entrypoint| == 0 {
      return cmd[0], cmd[1..];
    }
    return entrypoint[0], entrypoint[1..] + cmd;
  }

  /**
   Verifying an accepted configuration again keeps it unless its entrypoint was reset from [""]: a second
   pass then takes the image's entrypoint, so it is harmless only where the image has none or [""] too.
   */
  lemma VerifyingTwice(fold: Fold, u: Config, image: Option<Config>)
    requires Verified(fold, u, image).Some?
    ensures var c := Verified(fold, u, image).value;
            Verified(fold, c, image) == Some(c) <==>
              (image.Some? && Blank(u.entrypoint) ==> image.value.entrypoint.None? || Blank(image.value.entrypoint))
  {
    var c := Verified(fold, u, image).value;
    if image.Some? {
      var i := image.value;
      var m := Merged(fold, u, i);
      MergeIsIdempotent(fold, u, i);
      if Reset(m) != m {
        assert c == m.(entrypoint := None) && c.cmd != [];
        assert Merged(fold, c, i) == m.(entrypoint := i.entrypoint);
      }
    }
  }

  /** A user who resets the entrypoint and gives a command gets the image's entrypoint back on a second pass. */
  lemma ResetIsUndone(fold: Fold, u: Config, i: Config)
    requires u.entrypoint == Some([""]) && u.cmd == ["sh"] && i.entrypoint == Some(["/entry"])
    ensures var c := Verified(fold, u, Some(i));
            && c.Some? && c.value.entrypoint.None?
            && var again := Verified(fold, c.value, Some(i));
            again.Some? && again.value.entrypoint == Some(["/entry"])
  {
  }
}
