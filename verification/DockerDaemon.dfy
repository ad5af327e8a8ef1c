/** internal/docker: `configureDaemonAt`, which merges log rotation into an existing daemon.json.
    JSON text is a parameter; numbers are opaque, since the code sends them through float64. */
module DockerDaemon {
  import opened Wrappers
  import opened Text
  import opened Files

  datatype Json =
    | Null | Bool(b: bool) | Number(text: string) | Str(s: string)
    | Array(items: seq<Json>) | Object(members: map<string, Json>)

  type Members = map<string, Json>

  const DRIVER := "log-driver"

  const OPTIONS := "log-opts"

  const DEFAULTS: map<string, Json> := map["max-size" := Str("10m"), "max-file" := Str("3")]

  /** A Go type assertion to string gives the empty string for anything else. */
  function StringAt(m: Members, key: string): string {
    if key in m && m[key].Str? then m[key].s else ""
  }

  function DriverOf(m: Members): string {
    if StringAt(m, DRIVER) == "" then "json-file" else StringAt(m, DRIVER)
  }

  function OptionsOf(m: Members): Members {
    if OPTIONS in m && m[OPTIONS].Object? then m[OPTIONS].members else map[]
  }

  predicate OpensTCP(m: Members) {
    "hosts" in m && m["hosts"].Array? &&
    exists i | 0 <= i < |m["hosts"].items| :: m["hosts"].items[i].Str? && HasPrefix(m["hosts"].items[i].s, "tcp://")
  }

  /** The merged configuration: what was there wins over the defaults. */
  function Merge(m: Members): Members {
    var driver := DriverOf(m);
    var withDriver := if StringAt(m, DRIVER) == "" then m[DRIVER := Str(driver)] else m;
    if driver != "json-file" then withDriver
    else withDriver[OPTIONS := Object(DEFAULTS + OptionsOf(m))]
  }

  /** A second merge finds nothing to do. */
  lemma MergeIsIdempotent(m: Members)
    ensures Merge(Merge(m)) == Merge(m)
    ensures OpensTCP(Merge(m)) <==> OpensTCP(m)
  {
    var once := Merge(m);
    assert DRIVER != OPTIONS && "hosts" != DRIVER && "hosts" != OPTIONS by {
      assert DRIVER[4] == 'd' && OPTIONS[4] == 'o';
    }
    assert DriverOf(once) == DriverOf(m);
    if DriverOf(m) == "json-file" {
      assert OptionsOf(once) == DEFAULTS + OptionsOf(m);
      assert DEFAULTS + OptionsOf(once) == OptionsOf(once);
    }
  }

  /** Every other key and every option that was there keeps its value. */
  lemma MergeKeeps(m: Members, key: string)
    requires key in m
    ensures key in Merge(m)
    ensures key != DRIVER && key != OPTIONS ==> Merge(m)[key] == m[key]
    ensures key == DRIVER && StringAt(m, DRIVER) != "" ==> Merge(m)[key] == m[key]
    ensures key == OPTIONS && m[key].Object? ==>
      Merge(m)[key].Object? &&
      forall o | o in m[key].members :: o in Merge(m)[key].members && Merge(m)[key].members[o] == m[key].members[o]
  {
  }

  /** Only the driver and the options are ever added. */
  lemma MergeAddsOnlyRotation(m: Members, key: string)
    requires key in Merge(m) && key !in m
    ensures key == DRIVER || (key == OPTIONS && DriverOf(m) == "json-file")
  {
  }

  /** A missing or empty driver becomes json-file, and json-file ends up with both rotation options: three
      files of ten megabytes, unless they were set. Any other driver is left alone. */
  lemma MergeRotatesJsonFile(m: Members)
    ensures "log-driver" in Merge(m) && Merge(m)["log-driver"].Str?
    ensures
      if "log-driver" in m && m["log-driver"].Str? && m["log-driver"].s != "" then
        Merge(m)["log-driver"] == m["log-driver"]
      else
        Merge(m)["log-driver"] == Str("json-file")
    ensures Merge(m)["log-driver"] == Str("json-file") ==>
      && "log-opts" in Merge(m) && Merge(m)["log-opts"].Object?
      && HasOption(Merge(m)["log-opts"].members, OptionsOf(m), "max-size", "10m")
      && HasOption(Merge(m)["log-opts"].members, OptionsOf(m), "max-file", "3")
    ensures Merge(m)["log-driver"] != Str("json-file") ==> Merge(m) == m
  {
    assert "log-driver"[4] == 'd' && "log-opts"[4] == 'o';
    assert "max-size"[4] == 's' && "max-file"[4] == 'f';
  }

  /** The option is what it was, or else the default. */
  predicate HasOption(options: Members, before: Members, key: string, default: string) {
    key in options && options[key] == if key in before then before[key] else Str(default)
  }

  /** One host with this scheme is enough to refuse the file, and no other value of "hosts" is. */
  lemma TcpHostsAreRefused(m: Members, hosts: seq<Json>)
    requires "hosts" in m && m["hosts"] == Array(hosts)
    ensures OpensTCP(m) <==>
      exists i | 0 <= i < |hosts| :: hosts[i].Str? && |hosts[i].s| >= 6 && hosts[i].s[..6] == "tcp://"
  {
  }

  datatype Outcome = Unchanged | Rewritten | Failed | Panics

  datatype Codec = Codec(decode: string -> Option<Json>, encode: Json -> string)

  ghost predicate Faithful(codec: Codec) {
    forall j :: codec.decode(codec.encode(j) + "\n") == Some(j)
  }

  /** What `json.Unmarshal` makes of the file: an object, a nil map for `null`, or an error. */
  datatype Decoded = Document(members: Members) | NilMap | Undecodable

  function Decode(codec: Codec, data: string): Decoded {
    match codec.decode(data)
    case Some(Object(m)) => Document(m)
    case Some(Null) => NilMap
    case _ => Undecodable
  }

  const LIMIT := 0x10_0000

  /** What a file, or a missing one, stands for. */
  function Held(codec: Codec, data: Option<string>): Decoded {
    if data.None? then Document(map[]) else Decode(codec, data.value)
  }

  /** The file is one that can be merged into: not too long, an object, and opening no TCP port. */
  predicate Mergeable(codec: Codec, data: Option<string>) {
    && (data.Some? ==> |data.value| <= LIMIT)
    && Held(codec, data).Document? && !OpensTCP(Held(codec, data).members)
  }

  function MergedText(codec: Codec, m: Members): string {
    codec.encode(Object(Merge(m))) + "\n"
  }

  /** The file after a merge; a file that already holds the merge is left as it is. */
  function Merged(codec: Codec, data: Option<string>): Option<string>
    requires Held(codec, data).Document?
  {
    var m := Held(codec, data).members;
    if Merge(m) == m then data else Some(MergedText(codec, m))
  }

  /** What a call that ended anywhere may leave. */
  predicate MayHold(codec: Codec, before: Option<string>, after: Option<string>) {
    after == before || (Mergeable(codec, before) && after == Merged(codec, before))
  }

  lemma MissingFileChanges()
    ensures Merge(map[]) != map[]
  {
    assert DRIVER in Merge(map[]);
  }

  /** After a merge the file can be merged into again, and is then left alone - if and only if the
      merge did not make it longer than what the installer reads. */
  lemma MergeIsRepeatableExactly(codec: Codec, data: Option<string>)
    requires Faithful(codec) && Mergeable(codec, data)
    ensures Mergeable(codec, Merged(codec, data)) <==>
      Merged(codec, data) == data || |MergedText(codec, Held(codec, data).members)| <= 1024 * 1024
    ensures Held(codec, Merged(codec, data)).Document? && Merged(codec, Merged(codec, data)) == Merged(codec, data)
  {
    var m := Held(codec, data).members;
    MergeIsIdempotent(m);
    assert codec.decode(codec.encode(Object(Merge(m))) + "\n") == Some(Object(Merge(m)));
  }

  /** The file is rewritten exactly when merging changes something, and then holds the merge; a file
      that opens a TCP port, or cannot be decoded, is left alone with an error. A document `null` is
      decoded to a nil map, and writing the first default to it panics. */
  method ConfigureDaemonAt(disk: Disk, codec: Codec, path: Path) returns (outcome: Outcome)
    requires disk.Valid() && path.Named? && Faithful(codec)
    modifies disk
    ensures disk.Valid() && old(|disk.trail|) <= |disk.trail| && disk.trail[..old(|disk.trail|)] == old(disk.trail)
    ensures old(disk.asked) <= disk.asked
    ensures outcome.Rewritten? || outcome.Unchanged? ==>
      && Mergeable(codec, DataAt(old(disk.files), path))
      && DataAt(disk.files, path) == Merged(codec, DataAt(old(disk.files), path))
    ensures outcome.Unchanged? ==> path in disk.files && SameAt(old(disk.files), disk.files, path)
    ensures outcome.Rewritten? ==>
      && path in disk.files && DataAt(disk.files, path) != DataAt(old(disk.files), path)
      && disk.files[path].mode == if path in old(disk.files) then old(disk.files)[path].mode else 0x1A4
    ensures outcome.Failed? || outcome.Panics? ==> SameAt(old(disk.files), disk.files, path)
    ensures outcome.Panics? ==> Held(codec, DataAt(old(disk.files), path)).NilMap?
    ensures disk.Healthy() ==>
      && (outcome.Failed? || outcome.Panics? <==> !Mergeable(codec, DataAt(old(disk.files), path)))
      && (outcome.Panics? <==>
            && path in old(disk.files) && |old(disk.files)[path].data| <= LIMIT
            && Held(codec, DataAt(old(disk.files), path)).NilMap?)
    // Wherever the call is interrupted, the file is the old or the merged one.
    ensures forall k | old(|disk.trail|) <= k < |disk.trail| ::
      MayHold(codec, DataAt(old(disk.files), path), DataAt(disk.trail[k], path))
  {
    var configuration: Members := map[];
    var mode := 0x1A4;
    if path in disk.files {
      mode := disk.files[path].mode;
      var ok := disk.Other();
      if !ok || |disk.files[path].data| > LIMIT {
        return Failed;
      }
      match Decode(codec, disk.files[path].data)
      case Undecodable =>
        return Failed;
      case NilMap =>
        return Panics;
      case Document(m) =>
        configuration := m;
    }
    if OpensTCP(configuration) {
      return Failed;
    }
    var merged, changed := MergeInPlace(configuration);
    if !changed {
      return Unchanged;
    }
    outcome := Replace(disk, path, codec.encode(Object(merged)) + "\n", mode);
    MissingFileChanges();
    MergedIsNew(codec, DataAt(old(disk.files), path));
  }

  /** A merge that changes the members changes the text. */
  lemma MergedIsNew(codec: Codec, data: Option<string>)
    requires Faithful(codec) && Held(codec, data).Document?
    ensures var m := Held(codec, data).members; Merge(m) != m ==> Some(MergedText(codec, m)) != data
  {
    var m := Held(codec, data).members;
    assert codec.decode(codec.encode(Object(Merge(m))) + "\n") == Some(Object(Merge(m)));
  }

  method Replace(disk: Disk, path: Path, text: string, mode: nat) returns (outcome: Outcome)
    requires disk.Valid() && path.Named?
    modifies disk
    ensures disk.Valid() && old(|disk.trail|) <= |disk.trail| && disk.trail[..old(|disk.trail|)] == old(disk.trail)
    ensures old(disk.asked) <= disk.asked && (outcome.Rewritten? || outcome.Failed?)
    ensures outcome.Rewritten? ==> path in disk.files && disk.files[path].data == text && disk.files[path].mode == mode
    ensures outcome.Failed? ==> SameAt(old(disk.files), disk.files, path)
    ensures disk.Healthy() ==> outcome.Rewritten?
    ensures forall k | old(|disk.trail|) <= k < |disk.trail| ::
      DataAt(disk.trail[k], path) == DataAt(old(disk.files), path) || DataAt(disk.trail[k], path) == Some(text)
  {
    ghost var base, n, serial := disk.files, |disk.trail|, disk.serial;
    var ok := disk.Other();
    if !ok {
      return Failed;
    }
    ok := disk.AtomicWrite(path, text, mode);
    forall k | n <= k < |disk.trail|
      ensures DataAt(disk.trail[k], path) == DataAt(base, path) || DataAt(disk.trail[k], path) == Some(text)
    {
      OldOrNewData(base, disk.trail[k], serial, path, File(text, mode, true));
    }
    if !ok {
      assert SameAt(disk.files - {Temp(serial)}, disk.files, path);
      return Failed;
    }
    return Rewritten;
  }

  lemma OldOrNewData(base: Tree, tree: Tree, serial: nat, path: Path, file: File)
    requires path.Named? && OldOrNew(base, tree, serial, path, file)
    ensures DataAt(tree, path) == DataAt(base, path) || DataAt(tree, path) == Some(file.data)
  {
    if OnlyTemp(base, tree, serial) {
      assert SameAt(tree - {Temp(serial)}, tree, path);
    }
  }

  /** The updates of the two maps under the `changed` flag. The loop visits the defaults in whatever
      order the run time picks, and the result does not depend on it. */
  method MergeInPlace(start: Members) returns (configuration: Members, changed: bool)
    ensures configuration == Merge(start)
    ensures changed <==> Merge(start) != start
  {
    configuration, changed := start, false;
    var driver := StringAt(configuration, DRIVER);
    if driver == "" {
      driver := "json-file";
      configuration := configuration[DRIVER := Str(driver)];
      changed := true;
    }
    assert DRIVER[4] == 'd' && OPTIONS[4] == 'o';
    if driver == "json-file" {
      var options: Members := map[];
      if OPTIONS in configuration && configuration[OPTIONS].Object? {
        options := configuration[OPTIONS].members;
      } else {
        changed := true;
      }
      var added;
      options, added := AddDefaults(DEFAULTS, options);
      DefaultsMissing(DEFAULTS, OptionsOf(start));
      changed := changed || added;
      configuration := configuration[OPTIONS := Object(options)];
    }
  }

  method AddDefaults<V>(defaults: map<string, V>, start: map<string, V>) returns (options: map<string, V>, added: bool)
    ensures options == defaults + start
    ensures added <==> !(defaults.Keys <= start.Keys)
  {
    options, added := start, false;
    var left := defaults.Keys;
    while left != {}
      invariant left <= defaults.Keys
      invariant forall k :: k in options <==> k in start || (k in defaults && k !in left)
      invariant forall k | k in options :: options[k] == if k in start then start[k] else defaults[k]
      invariant added <==> exists k :: k in defaults && k !in left && k !in start
      decreases left
    {
      var key :| key in left;
      left := left - {key};
      if key !in options {
        options := options[key := defaults[key]];
        added := true;
      }
    }
  }

  /** Adding the defaults changes the options exactly when one of them is missing. */
  lemma DefaultsMissing(defaults: Members, start: Members)
    ensures defaults + start == start <==> defaults.Keys <= start.Keys
  {
    assert (defaults + start).Keys == defaults.Keys + start.Keys;
  }

  // ---- the running daemon ----------------------------------------------

  /** The Docker daemon, with the text of daemon.json that it was started with. */
  datatype Service = Stopped | Running(config: Option<string>)

  /** `docker.Install` from the configuration on: the daemon is started if it does not run, and restarted
      if the file was changed. So it runs with the file as it is now if it was not running, or this call
      changed the file, or it was running with that file already - and not otherwise. */
  method InstallService(disk: Disk, codec: Codec, path: Path, before: Service) returns (ok: bool, after: Service)
    requires disk.Valid() && path.Named? && Faithful(codec)
    modifies disk
    ensures disk.Valid()
    ensures ok ==> DataAt(disk.files, path).Some? && Mergeable(codec, DataAt(old(disk.files), path))
    ensures ok ==> DataAt(disk.files, path) == Merged(codec, DataAt(old(disk.files), path))
    ensures ok ==> after.Running?
    ensures ok ==>
      (after.config == DataAt(disk.files, path) <==>
         before.Stopped? || DataAt(disk.files, path) != DataAt(old(disk.files), path)
         || before.config == DataAt(old(disk.files), path))
    ensures ok && before.Running? && DataAt(disk.files, path) == DataAt(old(disk.files), path) ==> after == before
    ensures disk.Healthy() ==> (ok <==> Mergeable(codec, DataAt(old(disk.files), path)))
    // The service was enabled, restarted if the file changed, and answered.
    ensures ok ==>
      var commands := if DataAt(disk.files, path) != DataAt(old(disk.files), path) then 3 else 2;
      && disk.asked >= old(disk.asked) + commands
      && forall i | disk.asked - commands <= i < disk.asked :: disk.oracle(i).Done?
  {
    after := before;
    var outcome := ConfigureDaemonAt(disk, codec, path);
    if outcome.Failed? || outcome.Panics? {
      return false, after;
    }
    ok := disk.Other();
    if !ok {
      return;
    }
    if after.Stopped? {
      after := Running(DataAt(disk.files, path));
    }
    if outcome.Rewritten? {
      ok := disk.Other();
      if !ok {
        return;
      }
      after := Running(DataAt(disk.files, path));
    }
    ok := disk.Other();
  }

  /** A process that dies between the replacement of the file and the restart. The next call finds the file
      merged, does not restart the daemon, and succeeds: the stage is recorded, and the daemon goes on with
      the configuration from before. */
  method DeathBeforeRestart(disk: Disk, codec: Codec, path: Path, before: Service) returns (ok: bool, after: Service)
    requires disk.Valid() && path.Named? && Faithful(codec) && disk.Healthy()
    requires Mergeable(codec, DataAt(disk.files, path)) && before == Running(DataAt(disk.files, path))
    requires Merged(codec, DataAt(disk.files, path)) != DataAt(disk.files, path)
    requires Mergeable(codec, Merged(codec, DataAt(disk.files, path)))
    modifies disk
    ensures ok && after == before && after.config != DataAt(disk.files, path)
    ensures DataAt(disk.files, path) == Merged(codec, DataAt(old(disk.files), path))
  {
    var _ := ConfigureDaemonAt(disk, codec, path);
    MergeIsRepeatableExactly(codec, DataAt(old(disk.files), path));
    ok, after := InstallService(disk, codec, path, before);
  }
}
