/** What interrupted stages leave on the host, and when a later run can still finish. The behaviours of
    Protocol are extended by the files and containers that the four table stages find and leave. What a
    stage may leave, and when it can succeed, is what is proved about the stages' own code; what apt and
    PostgreSQL make of the files they are given is a parameter. */
module HostRecovery {
  import opened Wrappers
  import opened Protocol
  import opened ProtocolSafety
  import opened ProtocolResume
  import opened ProtocolRecovery
  import Files
  import Text
  import Daemon = DockerDaemon
  import Postgres = PostgresAccess
  import Password = PostgresPassword
  import Proxy = Traefik
  import Register = StateStore

  /** What does not change: the package source that the installer adds and the texts of its file that
      `apt-get update` accepts, the JSON codec, strings.ToLower, the proxy's pinned image, whether its
      paths are a real directory and a regular file, and the texts of pg_hba.conf that let PostgreSQL
      start and its own superuser in. */
  datatype World = World(
    source: string, updates: string -> bool, codec: Daemon.Codec, lower: string -> string, image: string,
    proxyPaths: bool, serves: string -> bool)

  /** pgdg.list, daemon.json, pg_hba.conf with its backup, the provisioner's password file, and Docker's
      state. */
  datatype Residue = Residue(
    sources: Option<string>, daemon: Option<string>, access: Postgres.Access, password: Option<string>,
    docker: Proxy.Docker)

  // ---- the stages on a host --------------------------------------------

  /** PostgreSQL starts, a password can be read, and psql takes the commands it is put into. */
  predicate PostgresAble(w: World, r: Residue) {
    && w.serves(Postgres.Managed(r.access.hba))
    && (r.password.Some? ==>
          Password.LongEnough(r.password.value) && !Password.ClosesEarly(Text.TrimSpace(r.password.value)))
  }

  predicate ProxyAble(w: World, r: Residue, name: string) {
    && Proxy.Pinned(w.image) && (name == "" || Proxy.IsHostname(w.lower(name))) && w.proxyPaths
    && Proxy.Convergable(r.docker, w.image, name)
  }

  predicate UpdateWorks(w: World, sources: Option<string>) {
    sources.Some? ==> w.updates(sources.value)
  }

  /** The packages stage runs `apt-get update` twice: first on whatever file an earlier run left, then on
      the one it has written. */
  predicate PackagesAble(w: World, r: Residue) {
    UpdateWorks(w, r.sources) && w.updates(w.source)
  }

  /** The stage succeeds on this host if no command and no file operation fails. */
  predicate Able(w: World, r: Residue, stage: Step, input: string) {
    match stage
    case Packages => PackagesAble(w, r)
    case Docker => Daemon.Mergeable(w.codec, r.daemon)
    case PostgreSQL => PostgresAble(w, r)
    case Traefik => ProxyAble(w, r, input)
    case _ => true
  }

  /** A stage's part of the host is the same. */
  predicate SamePart(stage: Step, before: Residue, after: Residue) {
    match stage
    case Packages => after.sources == before.sources
    case Docker => after.daemon == before.daemon
    case PostgreSQL => after.access == before.access && after.password == before.password
    case Traefik => after.docker == before.docker
    case _ => true
  }

  predicate OnlyItsPart(stage: Step, before: Residue, after: Residue) {
    forall other | other in STAGES && other != stage :: SamePart(other, before, after)
  }

  ghost predicate NewPassword(password: Option<string>) {
    password.Some? && exists value :: Password.IsRandomText(value) && password.value == value + "\n"
  }

  /** What a stage that succeeds makes of its part. */
  ghost predicate Executed(w: World, stage: Step, before: Residue, after: Residue, input: string) {
    && OnlyItsPart(stage, before, after)
    && match stage
       case Packages => after.sources == Some(w.source)
       case Docker => Daemon.Mergeable(w.codec, before.daemon) && after.daemon == Daemon.Merged(w.codec, before.daemon)
       case PostgreSQL =>
         && after.access == Postgres.Configured(before.access)
         && (if before.password.Some? then after.password == before.password else NewPassword(after.password))
       case Traefik =>
         && Proxy.OnlyOurs(before.docker, after.docker)
         && (Proxy.Clean(w.image) ==> Proxy.Settled(after.docker, w.image, input))
       case _ => true
  }

  /** What a stage whose process died, anywhere, may make of its part. */
  ghost predicate Interrupted(w: World, stage: Step, before: Residue, after: Residue, input: string) {
    && OnlyItsPart(stage, before, after)
    && match stage
       case Packages =>
         || after.sources == before.sources
         || (UpdateWorks(w, before.sources) && after.sources.Some? && after.sources.value <= w.source)
       case Docker => Daemon.MayHold(w.codec, before.daemon, after.daemon)
       case PostgreSQL =>
         && Postgres.MayLeave(before.access, after.access)
         && Password.CreationLeaves(before.password, after.password)
         && (after.password != before.password ==> after.access == Postgres.Configured(before.access))
       case Traefik =>
         && Proxy.OnlyOurs(before.docker, after.docker)
         && (Proxy.Clean(w.image) ==>
               (Proxy.Convergable(after.docker, w.image, input) <==> Proxy.Convergable(before.docker, w.image, input)))
       case _ => true
  }

  lemma AbleDependsOnItsPart(w: World, before: Residue, after: Residue, stage: Step, input: string)
    requires SamePart(stage, before, after)
    ensures Able(w, before, stage, input) <==> Able(w, after, stage, input)
  {
  }

  // ---- the stages' own code --------------------------------------------

  method AptUpdate(disk: Files.Disk, w: World, sources: Option<string>) returns (ok: bool)
    requires disk.Valid()
    modifies disk`asked
    ensures disk.Valid() && disk.asked == old(disk.asked) + 1
    ensures ok ==> UpdateWorks(w, sources) && disk.oracle(old(disk.asked)).Done?
    ensures disk.Healthy() ==> (ok <==> UpdateWorks(w, sources))
  {
    ok := disk.Other();
    ok := ok && (sources.None? || w.updates(sources.value));
  }

  /** Exactly `n` operations have been asked for since the `from`-th, and all of them worked. */
  predicate AllWorked(disk: Files.Disk, from: nat, n: nat)
    reads disk
  {
    disk.asked == from + n && forall i | from <= i < disk.asked :: disk.oracle(i).Done?
  }

  /** `n` commands that have no part in what is modelled here. */
  method Commands(disk: Files.Disk, n: nat) returns (ok: bool)
    requires disk.Valid()
    modifies disk`asked
    ensures disk.Valid()
    ensures disk.Healthy() ==> ok
    ensures ok ==> AllWorked(disk, old(disk.asked), n)
  {
    ok := true;
    for i := 0 to n
      invariant disk.Valid() && ok && AllWorked(disk, old(disk.asked), i)
    {
      var done := disk.Other();
      ok := ok && done;
      if !ok {
        return;
      }
    }
  }

  function SourcesPart(files: Files.Tree, path: Files.Path, rest: Residue): Residue {
    rest.(sources := Files.DataAt(files, path))
  }

  /** One of the points from the `from`-th on is this one. */
  ghost predicate SourcesReached(trail: seq<Files.Tree>, from: int, path: Files.Path, rest: Residue, r: Residue) {
    exists k | from <= k < |trail| && 0 <= k :: SourcesPart(trail[k], path, rest) == r
  }

  /** `packages.Install`, around pgdg.list. What an interrupted stage may leave is exactly what one that
      succeeds goes through. */
  method InstallPackages(disk: Files.Disk, w: World, path: Files.Path, ghost rest: Residue) returns (ok: bool)
    requires disk.Valid() && path.Named?
    modifies disk
    ensures forall k | old(|disk.trail|) <= k < |disk.trail| ::
      Interrupted(w, Packages, SourcesPart(old(disk.files), path, rest), SourcesPart(disk.trail[k], path, rest), "")
    ensures ok ==>
      forall r | Interrupted(w, Packages, SourcesPart(old(disk.files), path, rest), r, "") ::
        SourcesReached(disk.trail, old(|disk.trail|) - 1, path, rest, r)
    ensures ok ==>
      Executed(w, Packages, SourcesPart(old(disk.files), path, rest), SourcesPart(disk.files, path, rest), "")
    ensures disk.Healthy() ==> (ok <==> Able(w, SourcesPart(old(disk.files), path, rest), Packages, ""))
    ensures ok ==> AllWorked(disk, old(disk.asked), 10)
  {
    ghost var base, n := disk.files, |disk.trail|;
    ok := AptUpdate(disk, w, Files.DataAt(disk.files, path));
    if !ok {
      return;
    }
    ok := Commands(disk, 5);
    if !ok {
      return;
    }
    ok := disk.WriteFile(path, w.source, 0x1A4);
    if !ok {
      return;
    }
    ok := AptUpdate(disk, w, Some(w.source));
    if !ok {
      return;
    }
    ok := disk.Other();
    forall r | Interrupted(w, Packages, SourcesPart(base, path, rest), r, "")
      ensures SourcesReached(disk.trail, n - 1, path, rest, r)
    {
      assert disk.trail[n - 1] == base;
      OnlySources(SourcesPart(base, path, rest), r);
      if r.sources != Files.DataAt(base, path) {
        assert Files.Passes(disk.trail, n, path, r.sources.value);
        var k :| n <= k < |disk.trail| && Files.DataAt(disk.trail[k], path) == r.sources;
        assert SourcesPart(disk.trail[k], path, rest) == r;
      }
    }
  }

  lemma OnlySources(before: Residue, after: Residue)
    requires OnlyItsPart(Packages, before, after)
    ensures after == before.(sources := after.sources)
  {
    FourStages();
    assert SamePart(Docker, before, after) && SamePart(PostgreSQL, before, after) && SamePart(Traefik, before, after);
  }

  function DaemonPart(files: Files.Tree, path: Files.Path, rest: Residue): Residue {
    rest.(daemon := Files.DataAt(files, path))
  }

  /** daemon.json in `docker.Install`. */
  method ConfigureDocker(disk: Files.Disk, w: World, path: Files.Path, ghost rest: Residue) returns (ok: bool)
    requires disk.Valid() && path.Named? && Daemon.Faithful(w.codec)
    modifies disk
    ensures forall k | old(|disk.trail|) <= k < |disk.trail| ::
      Interrupted(w, Docker, DaemonPart(old(disk.files), path, rest), DaemonPart(disk.trail[k], path, rest), "")
    ensures ok ==>
      Executed(w, Docker, DaemonPart(old(disk.files), path, rest), DaemonPart(disk.files, path, rest), "")
    ensures ok ==>
      forall r | Interrupted(w, Docker, DaemonPart(old(disk.files), path, rest), r, "") ::
        DaemonReached(disk.trail, old(|disk.trail|) - 1, path, rest, r)
    ensures disk.Healthy() ==> (ok <==> Able(w, DaemonPart(old(disk.files), path, rest), Docker, ""))
  {
    ghost var base, n := disk.files, |disk.trail|;
    var outcome := Daemon.ConfigureDaemonAt(disk, w.codec, path);
    ok := outcome.Rewritten? || outcome.Unchanged?;
    forall r | ok && Interrupted(w, Docker, DaemonPart(base, path, rest), r, "")
      ensures DaemonReached(disk.trail, n - 1, path, rest, r)
    {
      OnlyDaemon(DaemonPart(base, path, rest), r);
      assert DaemonPart(disk.trail[n - 1], path, rest) == DaemonPart(base, path, rest);
      assert DaemonPart(disk.trail[|disk.trail| - 1], path, rest) == DaemonPart(disk.files, path, rest);
    }
  }

  /** One of the points from the `from`-th on is this one. */
  ghost predicate DaemonReached(trail: seq<Files.Tree>, from: int, path: Files.Path, rest: Residue, r: Residue) {
    exists k | from <= k < |trail| && 0 <= k :: DaemonPart(trail[k], path, rest) == r
  }

  lemma OnlyDaemon(before: Residue, after: Residue)
    requires OnlyItsPart(Docker, before, after)
    ensures after == before.(daemon := after.daemon)
  {
    FourStages();
    assert SamePart(Packages, before, after) && SamePart(PostgreSQL, before, after) && SamePart(Traefik, before, after);
  }

  function ProxyPart(docker: Proxy.Docker, rest: Residue): Residue {
    rest.(docker := docker)
  }

  /** `traefik.ConfigureAgent`; its process may die in any command. */
  method ConfigureProxy(
      disk: Files.Disk, engine: Proxy.Engine, w: World, data: string, dataKind: Proxy.Kind, acmeKind: Proxy.Kind,
      name: string, ghost rest: Residue)
    returns (ok: bool)
    requires disk.Valid() && Proxy.KindAt(disk.files, Proxy.AcmePath(data), acmeKind)
    requires w.proxyPaths <==> (dataKind.Missing? || dataKind.Directory?) && (acmeKind.Missing? || acmeKind.Regular?)
    modifies disk, engine
    ensures Interrupted(w, Traefik, ProxyPart(old(engine.docker), rest), ProxyPart(engine.docker, rest), name)
    ensures ok ==> Executed(w, Traefik, ProxyPart(old(engine.docker), rest), ProxyPart(engine.docker, rest), name)
    ensures disk.Healthy() && engine.Healthy() ==>
      (ok <==> Able(w, ProxyPart(old(engine.docker), rest), Traefik, name))
  {
    ok := Proxy.ConfigureAgentAt(disk, engine, w.lower, w.image, data, dataKind, acmeKind, name);
  }

  function PostgresPart(
      files: Files.Tree, hba: Files.Path, backup: Files.Path, path: Files.Path, rest: Residue): Residue
    requires hba in files
  {
    Residue(rest.sources, rest.daemon, Postgres.AccessOf(files, hba, backup), Files.DataAt(files, path), rest.docker)
  }

  lemma AccessPoint(
      w: World, base: Files.Tree, tree: Files.Tree, hba: Files.Path, backup: Files.Path, path: Files.Path,
      rest: Residue)
    requires hba in base && hba in tree && Files.SameAt(base, tree, path)
    requires Postgres.MayLeave(Postgres.AccessOf(base, hba, backup), Postgres.AccessOf(tree, hba, backup))
    ensures Interrupted(w, PostgreSQL, PostgresPart(base, hba, backup, path, rest),
      PostgresPart(tree, hba, backup, path, rest), "")
  {
  }

  lemma PasswordPoint(
      w: World, base: Files.Tree, mid: Files.Tree, tree: Files.Tree, hba: Files.Path, backup: Files.Path,
      path: Files.Path, rest: Residue)
    requires hba in base && hba in mid && Files.SameAt(base, mid, path)
    requires Postgres.AccessOf(mid, hba, backup) == Postgres.Configured(Postgres.AccessOf(base, hba, backup))
    requires Files.SameAt(mid, tree, hba) && Files.SameAt(mid, tree, backup)
    requires Password.CreationLeaves(Files.DataAt(mid, path), Files.DataAt(tree, path))
    ensures Interrupted(w, PostgreSQL, PostgresPart(base, hba, backup, path, rest),
      PostgresPart(tree, hba, backup, path, rest), "")
  {
  }

  /** One of the points from the `from`-th on is this one. */
  ghost predicate PostgresReached(
      trail: seq<Files.Tree>, from: int, hba: Files.Path, backup: Files.Path, path: Files.Path, rest: Residue,
      r: Residue)
  {
    exists k | from <= k < |trail| && 0 <= k :: hba in trail[k] && PostgresPart(trail[k], hba, backup, path, rest) == r
  }

  lemma OnlyPostgres(before: Residue, after: Residue)
    requires OnlyItsPart(PostgreSQL, before, after)
    ensures after == Residue(before.sources, before.daemon, after.access, after.password, before.docker)
  {
    FourStages();
    assert SamePart(Packages, before, after) && SamePart(Docker, before, after) && SamePart(Traefik, before, after);
  }

  /** The new password, if there is one, is this one. */
  predicate UsesText(before: Residue, after: Residue, random: string) {
    after.password != before.password ==> after.password.Some? && after.password.value <= random + "\n"
  }

  /** `configureAccess`, as the first part of the stage. */
  method AccessFiles(
      disk: Files.Disk, w: World, conf: Files.Path, hba: Files.Path, backup: Files.Path, path: Files.Path,
      ghost rest: Residue)
    returns (ok: bool)
    requires disk.Valid() && conf.Named? && hba.Named? && backup.Named? && hba in disk.files
    requires conf != hba && hba != backup && conf != backup && path != conf && path != hba && path != backup
    modifies disk
    ensures disk.Valid() && old(|disk.trail|) <= |disk.trail| && disk.trail[..old(|disk.trail|)] == old(disk.trail)
    ensures disk.Healthy() ==> ok
    ensures Files.SameAt(old(disk.files), disk.files, path)
    ensures forall k | old(|disk.trail|) <= k < |disk.trail| ::
      && hba in disk.trail[k] && Files.SameAt(old(disk.files), disk.trail[k], path)
      && Interrupted(w, PostgreSQL, PostgresPart(old(disk.files), hba, backup, path, rest),
           PostgresPart(disk.trail[k], hba, backup, path, rest), "")
    ensures ok ==>
      && hba in disk.files
      && Postgres.AccessOf(disk.files, hba, backup)
           == Postgres.Configured(Postgres.AccessOf(old(disk.files), hba, backup))
      && forall a | Postgres.MayLeave(Postgres.AccessOf(old(disk.files), hba, backup), a) ::
           Postgres.Reached(disk.trail, old(|disk.trail|) - 1, hba, backup, a)
  {
    ghost var base, n := disk.files, |disk.trail|;
    ok := Postgres.ConfigureAccess(disk, conf, hba, backup);
    assert Files.SameAt(base, disk.files, path);
    forall k | n <= k < |disk.trail|
      ensures hba in disk.trail[k] && Files.SameAt(base, disk.trail[k], path)
      ensures Interrupted(w, PostgreSQL, PostgresPart(base, hba, backup, path, rest),
        PostgresPart(disk.trail[k], hba, backup, path, rest), "")
    {
      assert Files.SameAt(base, disk.trail[k], path);
      AccessPoint(w, base, disk.trail[k], hba, backup, path, rest);
    }
  }

  /** `ensurePassword`, as the second part of the stage; `base` is what the stage found. */
  method PasswordFile(
      disk: Files.Disk, w: World, ghost base: Files.Tree, hba: Files.Path, backup: Files.Path, path: Files.Path,
      random: string, ghost rest: Residue)
    returns (password: Option<string>)
    requires disk.Valid() && path.Named? && path != hba && path != backup && Password.IsRandomText(random)
    requires hba in base && hba in disk.files && Files.SameAt(base, disk.files, path)
    requires Postgres.AccessOf(disk.files, hba, backup) == Postgres.Configured(Postgres.AccessOf(base, hba, backup))
    modifies disk
    ensures disk.Valid() && old(|disk.trail|) <= |disk.trail| && disk.trail[..old(|disk.trail|)] == old(disk.trail)
    ensures forall k | old(|disk.trail|) <= k < |disk.trail| ::
      && hba in disk.trail[k]
      && Interrupted(w, PostgreSQL, PostgresPart(base, hba, backup, path, rest),
           PostgresPart(disk.trail[k], hba, backup, path, rest), "")
    ensures forall k, p | old(|disk.trail|) <= k < |disk.trail| && p != path ::
      Files.SameAt(old(disk.files), disk.trail[k], p)
    ensures password.Some? && path !in base ==>
      forall part | part <= random + "\n" :: Files.Passes(disk.trail, old(|disk.trail|), path, part)
    ensures password.Some? ==>
      && hba in disk.files && path in disk.files && password.value == Text.TrimSpace(disk.files[path].data)
      && Executed(w, PostgreSQL, PostgresPart(base, hba, backup, path, rest),
           PostgresPart(disk.files, hba, backup, path, rest), "")
    ensures path !in base && password.Some? ==> password.value == random
    ensures password.Some? && path in base ==> Password.LongEnough(base[path].data)
    ensures disk.Healthy() ==> (password.Some? <==> path !in base || Password.LongEnough(base[path].data))
  {
    ghost var mid, m := disk.files, |disk.trail|;
    password := Password.EnsurePassword(disk, path, Some(random));
    assert Files.SameAt(mid, disk.files, hba) && Files.SameAt(mid, disk.files, backup);
    forall k | m <= k < |disk.trail|
      ensures hba in disk.trail[k]
      ensures Interrupted(w, PostgreSQL, PostgresPart(base, hba, backup, path, rest),
        PostgresPart(disk.trail[k], hba, backup, path, rest), "")
    {
      assert Files.SameAt(mid, disk.trail[k], hba) && Files.SameAt(mid, disk.trail[k], backup);
      PasswordPoint(w, base, mid, disk.trail[k], hba, backup, path, rest);
    }
  }

  /** The files of `postgresql.Configure`. What an interrupted stage may leave of them is exactly what one
      that gets past them goes through; so the empty password file, each shorter one, each torn backup
      and each torn pg_hba.conf is a point at which the process can die. */
  method PostgresFiles(
      disk: Files.Disk, w: World, conf: Files.Path, hba: Files.Path, backup: Files.Path, path: Files.Path,
      random: string, ghost rest: Residue)
    returns (password: Option<string>)
    requires disk.Valid() && conf.Named? && hba.Named? && backup.Named? && path.Named? && hba in disk.files
    requires conf != hba && hba != backup && conf != backup && path != conf && path != hba && path != backup
    requires Password.IsRandomText(random)
    modifies disk
    ensures disk.Valid()
    ensures forall k | old(|disk.trail|) <= k < |disk.trail| ::
      && hba in disk.trail[k]
      && Interrupted(w, PostgreSQL, PostgresPart(old(disk.files), hba, backup, path, rest),
           PostgresPart(disk.trail[k], hba, backup, path, rest), "")
    ensures password.Some? ==>
      forall r | Interrupted(w, PostgreSQL, PostgresPart(old(disk.files), hba, backup, path, rest), r, "")
                 && UsesText(PostgresPart(old(disk.files), hba, backup, path, rest), r, random) ::
        PostgresReached(disk.trail, old(|disk.trail|) - 1, hba, backup, path, rest, r)
    ensures password.Some? ==>
      && hba in disk.files && path in disk.files && password.value == Text.TrimSpace(disk.files[path].data)
      && Executed(w, PostgreSQL, PostgresPart(old(disk.files), hba, backup, path, rest),
           PostgresPart(disk.files, hba, backup, path, rest), "")
    ensures path !in old(disk.files) && password.Some? ==> password.value == random
    ensures password.Some? && path in old(disk.files) ==> Password.LongEnough(old(disk.files)[path].data)
    ensures disk.Healthy() ==>
      (password.Some? <==> path !in old(disk.files) || Password.LongEnough(old(disk.files)[path].data))
  {
    ghost var base, n := disk.files, |disk.trail|;
    var ok := AccessFiles(disk, w, conf, hba, backup, path, rest);
    if !ok {
      return None;
    }
    ghost var m := |disk.trail|;
    ok := disk.Other();
    if !ok {
      return None;
    }
    ghost var mid, made := disk.files, disk.trail;
    password := PasswordFile(disk, w, base, hba, backup, path, random, rest);
    if password.Some? {
      assert made[n - 1] == base;
      AllReached(w, base, mid, made, disk.trail, n, hba, backup, path, random, rest);
    }
  }

  lemma AllReached(
      w: World, base: Files.Tree, mid: Files.Tree, made: seq<Files.Tree>, trail: seq<Files.Tree>, n: nat,
      hba: Files.Path, backup: Files.Path, path: Files.Path, random: string, rest: Residue)
    requires 0 < n <= |made| && made <= trail && made[n - 1] == base && hba in base && hba in mid
    requires path != hba && path != backup && Files.SameAt(base, mid, path)
    requires forall k | n <= k < |made| :: Files.SameAt(base, made[k], path)
    requires Postgres.AccessOf(mid, hba, backup) == Postgres.Configured(Postgres.AccessOf(base, hba, backup))
    requires forall a | Postgres.MayLeave(Postgres.AccessOf(base, hba, backup), a) ::
      Postgres.Reached(made, n - 1, hba, backup, a)
    requires forall k, p | |made| <= k < |trail| && p != path :: Files.SameAt(mid, trail[k], p)
    requires path !in base ==> forall part | part <= random + "\n" :: Files.Passes(trail, |made|, path, part)
    ensures
      forall r | Interrupted(w, PostgreSQL, PostgresPart(base, hba, backup, path, rest), r, "")
                 && UsesText(PostgresPart(base, hba, backup, path, rest), r, random) ::
        PostgresReached(trail, n - 1, hba, backup, path, rest, r)
  {
    forall r | Interrupted(w, PostgreSQL, PostgresPart(base, hba, backup, path, rest), r, "")
               && UsesText(PostgresPart(base, hba, backup, path, rest), r, random)
      ensures PostgresReached(trail, n - 1, hba, backup, path, rest, r)
    {
      OnlyPostgres(PostgresPart(base, hba, backup, path, rest), r);
      if r.password == Files.DataAt(base, path) {
        AccessReached(base, made, trail, n, hba, backup, path, rest, r);
      } else {
        PasswordReached(mid, trail, |made|, n - 1, hba, backup, path, rest, r);
      }
    }
  }

  lemma AccessReached(
      base: Files.Tree, made: seq<Files.Tree>, trail: seq<Files.Tree>, n: nat, hba: Files.Path, backup: Files.Path,
      path: Files.Path, rest: Residue, r: Residue)
    requires 0 < n <= |made| && made <= trail && made[n - 1] == base && hba in base
    requires forall k | n <= k < |made| :: Files.SameAt(base, made[k], path)
    requires Postgres.Reached(made, n - 1, hba, backup, r.access) && r.password == Files.DataAt(base, path)
    requires r == Residue(rest.sources, rest.daemon, r.access, r.password, rest.docker)
    ensures PostgresReached(trail, n - 1, hba, backup, path, rest, r)
  {
    var k :| n - 1 <= k < |made| && hba in made[k] && Postgres.AccessOf(made[k], hba, backup) == r.access;
    assert Files.SameAt(base, made[k], path) && trail[k] == made[k];
    assert PostgresPart(trail[k], hba, backup, path, rest) == r;
  }

  lemma PasswordReached(
      mid: Files.Tree, trail: seq<Files.Tree>, m: nat, from: nat, hba: Files.Path, backup: Files.Path,
      path: Files.Path, rest: Residue, r: Residue)
    requires hba in mid && r.access == Postgres.AccessOf(mid, hba, backup) && from <= m
    requires forall k, p | m <= k < |trail| && p != path :: Files.SameAt(mid, trail[k], p)
    requires r.password.Some? && Files.Passes(trail, m, path, r.password.value) && path != hba && path != backup
    requires r == Residue(rest.sources, rest.daemon, r.access, r.password, rest.docker)
    ensures PostgresReached(trail, from, hba, backup, path, rest, r)
  {
    var k :| m <= k < |trail| && Files.DataAt(trail[k], path) == Some(r.password.value);
    assert Files.SameAt(mid, trail[k], hba) && Files.SameAt(mid, trail[k], backup);
    assert PostgresPart(trail[k], hba, backup, path, rest) == r;
  }

  /** `postgresql.Configure`: the files, then PostgreSQL is started with pg_hba.conf, and psql given the
      commands that the password is put into. */
  method ConfigurePostgres(
      disk: Files.Disk, w: World, conf: Files.Path, hba: Files.Path, backup: Files.Path, path: Files.Path,
      random: string, ghost rest: Residue)
    returns (ok: bool)
    requires disk.Valid() && conf.Named? && hba.Named? && backup.Named? && path.Named? && hba in disk.files
    requires conf != hba && hba != backup && conf != backup && path != conf && path != hba && path != backup
    requires Password.IsRandomText(random)
    modifies disk
    ensures forall k | old(|disk.trail|) <= k < |disk.trail| ::
      && hba in disk.trail[k]
      && Interrupted(w, PostgreSQL, PostgresPart(old(disk.files), hba, backup, path, rest),
           PostgresPart(disk.trail[k], hba, backup, path, rest), "")
    ensures ok ==>
      forall r | Interrupted(w, PostgreSQL, PostgresPart(old(disk.files), hba, backup, path, rest), r, "")
                 && UsesText(PostgresPart(old(disk.files), hba, backup, path, rest), r, random) ::
        PostgresReached(disk.trail, old(|disk.trail|) - 1, hba, backup, path, rest, r)
    ensures ok ==>
      && hba in disk.files
      && Executed(w, PostgreSQL, PostgresPart(old(disk.files), hba, backup, path, rest),
           PostgresPart(disk.files, hba, backup, path, rest), "")
    ensures disk.Healthy() ==>
      (ok <==> Able(w, PostgresPart(old(disk.files), hba, backup, path, rest), PostgreSQL, ""))
  {
    RandomTextIsHarmless(random);
    var password := PostgresFiles(disk, w, conf, hba, backup, path, random, rest);
    if password.None? {
      return false;
    }
    ghost var made, trail := disk.files, disk.trail;
    ok := StartAndProvision(disk, w, disk.files[hba].data, password.value);
    assert disk.files == made && disk.trail == trail;
  }

  /** Start PostgreSQL on this text of pg_hba.conf, and set the password. */
  method StartAndProvision(disk: Files.Disk, w: World, text: string, password: string) returns (ok: bool)
    requires disk.Valid()
    modifies disk`asked
    ensures disk.Valid() && (ok ==> w.serves(text) && !Password.ClosesEarly(password))
    ensures ok ==> disk.asked == old(disk.asked) + 12
    ensures disk.Healthy() ==> (ok <==> w.serves(text) && !Password.ClosesEarly(password))
  {
    ok := Commands(disk, 6);
    if !ok || !w.serves(text) {
      return false;
    }
    ok := Commands(disk, 2);
    if !ok || Password.ClosesEarly(password) {
      return false;
    }
    ok := Commands(disk, 4);
  }

  lemma RandomTextIsHarmless(random: string)
    requires Password.IsRandomText(random)
    ensures !Password.ClosesEarly(random)
  {
    Password.OnlyTheTagClosesEarly(random);
  }

  // ---- behaviours on a host --------------------------------------------

  /** The process is at a stage, or about to begin one. */
  predicate AtStage(c: Control) {
    && c.process.Up? && (c.process.phase.Provisioning? || c.process.phase.Announced?)
    && NextStage(c.process.memory).Some?
  }

  function StageOf(c: Control): Step
    requires AtStage(c)
  {
    NextStage(c.process.memory).value
  }

  ghost predicate HostStep(w: World, c: Control, e: Event, before: Residue, after: Residue) {
    if e.StageRun? then Able(w, before, e.stage, e.input) && Executed(w, e.stage, before, after, e.input)
    else if e.Stopped? && AtStage(c) then
      Interrupted(w, StageOf(c), before, after, StageInput(c.process.memory, StageOf(c)))
    else after == before
  }

  /** A behaviour together with the host before, between and after its events. */
  datatype Hosted = Hosted(b: Behaviour, hosts: seq<Residue>)
  {
    predicate Shaped() {
      b.Shaped() && |hosts| == |b.states|
    }

    ghost predicate StepAt(w: World, i: nat)
      requires Shaped() && i < |b.log|
    {
      HostStep(w, b.states[i], b.log[i], hosts[i], hosts[i + 1])
    }

    ghost predicate Legal(w: World) {
      Shaped() && b.Legal() && forall i: nat | i < |b.log| :: StepAt(w, i)
    }

    function Host(): Residue
      requires Shaped()
    {
      hosts[|b.log|]
    }

    function Extend(e: Event, after: Residue): Hosted
      requires Shaped() && Next(b.Now(), e).Some?
    {
      Hosted(b.Extend(e), hosts + [after])
    }

    /** The first `n` events. */
    function Cut(n: nat): Hosted
      requires Shaped() && n <= |b.log|
    {
      Hosted(Behaviour(b.log[..n], b.states[..n + 1]), hosts[..n + 1])
    }
  }

  lemma HostedExtendIsLegal(w: World, h: Hosted, e: Event, after: Residue)
    requires h.Legal(w) && Next(h.b.Now(), e).Some? && HostStep(w, h.b.Now(), e, h.Host(), after)
    ensures h.Extend(e, after).Legal(w)
  {
    ExtendIsLegal(h.b, e);
    var longer := h.Extend(e, after);
    forall i: nat | i < |longer.b.log|
      ensures longer.StepAt(w, i)
    {
      assert i < |h.b.log| ==> h.StepAt(w, i);
    }
  }

  lemma CutIsLegal(w: World, h: Hosted, n: nat)
    requires h.Legal(w) && n <= |h.b.log|
    ensures h.Cut(n).Legal(w) && h.Cut(n).b.Now() == h.b.states[n] && h.Cut(n).Host() == h.hosts[n]
  {
    var cut := h.Cut(n);
    forall i: nat | i < n
      ensures cut.b.StepAt(i) && cut.StepAt(w, i)
    {
      assert h.b.StepAt(i) && h.StepAt(w, i);
    }
  }

  predicate Extends(h: Hosted, longer: Hosted) {
    h.b.log <= longer.b.log && h.b.states <= longer.b.states && h.hosts <= longer.hosts
  }

  /** `log` goes on from `n` within one run, which is given `g` if it asks for an approval. */
  predicate SameRunFrom(log: seq<Event>, n: nat, g: Grant) {
    forall j | n <= j < |log| :: !log[j].Started? && !log[j].Stopped? && (log[j].Approved? ==> log[j].grant == g)
  }

  /** `run` continues `h` by one whole run, which finishes. */
  ghost predicate Finishes(w: World, h: Hosted, run: Hosted, start: Event, g: Grant) {
    && run.Legal(w) && Extends(h, run) && |h.b.log| < |run.b.log|
    && run.b.log[|h.b.log|] == start && SameRunFrom(run.b.log, |h.b.log| + 1, g)
    && run.b.Now().process.Up? && run.b.Now().process.phase.Finished?
  }

  ghost predicate CanFinish(w: World, h: Hosted, start: Event, g: Grant) {
    exists run :: Finishes(w, h, run, start, g)
  }

  predicate Recorded(c: Control, stage: Step) {
    c.disk.Some? && stage in c.disk.value.completedSteps
  }

  function InputOf(stage: Step, name: string): string {
    if stage == Traefik then name else ""
  }

  /** Every stage that is not recorded can succeed on this host. */
  predicate StagesAble(w: World, c: Control, r: Residue, name: string) {
    forall stage | stage in STAGES && !Recorded(c, stage) :: Able(w, r, stage, InputOf(stage, name))
  }

  // ---- a run that finishes found its stages able -----------------------

  /** The name that the run is going to route. */
  predicate AimsAt(c: Control, g: Grant, name: string)
    requires c.process.Up?
  {
    var m := c.process.memory;
    match c.process.phase
    case Booted => name == if m.Resumable() then m.node.fqdn else g.node.fqdn
    case Enrolling => name == g.node.fqdn
    case Claimed(h) => name == h.node.fqdn
    case _ => m.node.fqdn == name
  }

  lemma AimsStep(c: Control, e: Event, g: Grant, name: string)
    requires c.process.Up? && Next(c, e).Some? && !e.Stopped? && (e.Approved? ==> e.grant == g) && AimsAt(c, g, name)
    ensures Next(c, e).value.process.Up? && AimsAt(Next(c, e).value, g, name)
  {
    if e.Saved? {
      AimsSave(c, e, g, name);
    }
  }

  lemma AimsSave(c: Control, e: Event, g: Grant, name: string)
    requires c.process.Up? && Next(c, e).Some? && e.Saved? && AimsAt(c, g, name)
    ensures Next(c, e).value.process.Up? && AimsAt(Next(c, e).value, g, name)
  {
  }

  lemma {:induction false} AimsStays(b: Behaviour, n: nat, j: nat, g: Grant, name: string)
    requires b.Legal() && n <= j <= |b.log| && SameRunFrom(b.log, n, g)
    requires b.states[n].process.Up? && AimsAt(b.states[n], g, name)
    ensures b.states[j].process.Up? && AimsAt(b.states[j], g, name)
    decreases j
  {
    if n < j {
      AimsStays(b, n, j - 1, g, name);
      assert b.StepAt(j - 1);
      AimsStep(b.states[j - 1], b.log[j - 1], g, name);
    }
  }

  lemma StageRunInput(c: Control, e: Event, g: Grant, name: string)
    requires c.process.Up? && Next(c, e).Some? && e.StageRun? && AimsAt(c, g, name)
    ensures e.input == InputOf(e.stage, name)
  {
  }

  lemma {:induction false} PartStays(w: World, h: Hosted, n: nat, k: nat, stage: Step, g: Grant)
    requires h.Legal(w) && n <= k <= |h.b.log| && SameRunFrom(h.b.log, n, g) && stage in STAGES
    requires forall m | n <= m < k :: !RunsAt(h.b.log, m, stage)
    ensures SamePart(stage, h.hosts[n], h.hosts[k])
    decreases k
  {
    if n < k {
      PartStays(w, h, n, k - 1, stage, g);
      assert h.StepAt(w, k - 1) && !RunsAt(h.b.log, k - 1, stage);
    }
  }

  lemma FinishedHas(c: Control, stage: Step)
    requires Sound(c) && c.process.Up? && c.process.phase.Finished? && stage in STAGES
    ensures Has(c, stage)
  {
    StagesAreInOrder(stage);
    assert c.process.memory.completedSteps == ORDER;
  }

  lemma StartedStep(c: Control, e: Event)
    requires Next(c, e).Some? && e.Started?
    ensures c.process.Down? && Next(c, e).value.process.Up? && Next(c, e).value.process.phase.Booted?
    ensures Next(c, e).value.disk == c.disk
    ensures Next(c, e).value.process.memory == Boot(c.disk, e.version, e.host)
    ensures forall stage :: Has(Next(c, e).value, stage) <==> Recorded(c, stage)
  {
  }

  /** The enrollment that a run started now works for. */
  function Aim(c: Control, g: Grant): string {
    if c.disk.Some? && c.disk.value.Resumable() then c.disk.value.node.fqdn else g.node.fqdn
  }

  lemma FinishedRunHadAbleStages(w: World, h: Hosted, run: Hosted, start: Event, g: Grant)
    requires h.Legal(w) && start.Started? && Finishes(w, h, run, start, g)
    ensures StagesAble(w, h.b.Now(), h.Host(), Aim(h.b.Now(), g))
  {
    var n, last := |h.b.log|, |run.b.log|;
    var name := Aim(h.b.Now(), g);
    assert run.b.states[n] == h.b.Now() && run.hosts[n] == h.Host();
    assert run.b.StepAt(n) && run.StepAt(w, n);
    StartedStep(run.b.states[n], start);
    ReachableIsSound(run.b, last);
    forall stage | stage in STAGES && !Recorded(h.b.Now(), stage)
      ensures Able(w, h.Host(), stage, InputOf(stage, name))
    {
      FinishedHas(run.b.Now(), stage);
      var k := HasComesFromARun(run.b, n + 1, last, stage);
      PartStays(w, run, n + 1, k, stage, g);
      AimsStays(run.b, n + 1, k, g, name);
      assert run.b.StepAt(k) && run.StepAt(w, k);
      StageRunInput(run.b.states[k], run.b.log[k], g, name);
      AbleDependsOnItsPart(w, run.hosts[n + 1], run.hosts[k], stage, InputOf(stage, name));
    }
  }

  // ---- a run with able stages can finish -------------------------------

  function Letters(n: nat): (text: string)
    ensures |text| == n && Password.UrlSafe(text)
  {
    if n == 0 then "" else ['a'] + Letters(n - 1)
  }

  /** One way for a stage to succeed. */
  function Execute(w: World, stage: Step, r: Residue, input: string): Residue
    requires Able(w, r, stage, input)
  {
    match stage
    case Packages => r.(sources := Some(w.source))
    case Docker => r.(daemon := Daemon.Merged(w.codec, r.daemon))
    case PostgreSQL =>
      Residue(r.sources, r.daemon, Postgres.Configured(r.access),
        if r.password.Some? then r.password else Some(Letters(64) + "\n"), r.docker)
    case Traefik => r.(docker := SettledDocker(w, r.docker, input))
    case _ => r
  }

  function SettledDocker(w: World, d: Proxy.Docker, name: string): Proxy.Docker {
    var container :=
      if Proxy.NAME in d.containers then d.containers[Proxy.NAME].(running := true)
      else Proxy.Container(Proxy.Wanted(w.image, "", name), true);
    Proxy.Docker(d.networks + {Proxy.NAME}, d.containers[Proxy.NAME := container])
  }

  lemma ExecuteExecutes(w: World, stage: Step, r: Residue, input: string)
    requires Able(w, r, stage, input)
    ensures Executed(w, stage, r, Execute(w, stage, r, input), input)
  {
    match stage {
      case PostgreSQL =>
        assert Password.IsRandomText(Letters(64));
      case Traefik =>
        Proxy.WantedFits(w.image, "", input, true);
        RunningFits(w, r.docker, input);
      case _ =>
    }
  }

  lemma RunningFits(w: World, d: Proxy.Docker, name: string)
    requires Proxy.Convergable(d, w.image, name)
    ensures Proxy.NAME in d.containers ==> Proxy.Fits(d.containers[Proxy.NAME].(running := true), w.image, name)
  {
  }

  /** Every stage that the run has still to execute can succeed. */
  predicate RestAble(w: World, c: Control, r: Residue, name: string) {
    forall stage | stage in STAGES && !Has(c, stage) :: Able(w, r, stage, InputOf(stage, name))
  }

  lemma HasStays(c: Control, e: Event, stage: Step)
    requires Sound(c) && c.process.Up? && Next(c, e).Some? && !e.Stopped? && stage in STAGES && Has(c, stage)
    ensures Has(Next(c, e).value, stage)
  {
    SoundStep(c, e);
    if e.Saved? {
      if Recorded(c, stage) {
        RecordedStays(c, Next(c, e).value, stage);
      }
      SavedKeepsHas(c, e, stage);
    }
  }

  lemma RecordedStays(c: Control, after: Control, stage: Step)
    requires Grows(c.disk, after.disk) && Recorded(c, stage)
    ensures Recorded(after, stage)
  {
  }

  lemma SavedKeepsHas(c: Control, e: Event, stage: Step)
    requires c.process.Up? && Next(c, e).Some? && e.Saved? && Has(c, stage)
    requires Recorded(c, stage) ==> Recorded(Next(c, e).value, stage)
    ensures Has(Next(c, e).value, stage)
  {
  }

  lemma ExecutedHas(c: Control, e: Event)
    requires Next(c, e).Some? && e.StageRun?
    ensures e.stage in STAGES && Has(Next(c, e).value, e.stage)
  {
  }

  lemma RestAbleStep(w: World, c: Control, e: Event, before: Residue, after: Residue, name: string)
    requires Sound(c) && c.process.Up? && Next(c, e).Some? && !e.Stopped? && !e.Started?
    requires HostStep(w, c, e, before, after) && RestAble(w, c, before, name)
    ensures RestAble(w, Next(c, e).value, after, name)
  {
    var d := Next(c, e).value;
    forall stage | stage in STAGES && !Has(d, stage)
      ensures Able(w, after, stage, InputOf(stage, name))
    {
      if Has(c, stage) {
        HasStays(c, e, stage);
      }
      if e.StageRun? {
        ExecutedHas(c, e);
      }
      AbleDependsOnItsPart(w, before, after, stage, InputOf(stage, name));
    }
  }

  lemma ContinueRuns(c: Control, g: Grant, key: string, t: Grant)
    requires Ready(c, g, key, t) && !c.process.phase.Finished?
    ensures
      var e := Continue(c.process, g, key);
      !e.Stopped? && !e.Started? && (e.Approved? ==> e.grant == g)
  {
    StagesDone(c.process.memory);
  }

  lemma ContinueStage(c: Control, g: Grant, key: string, t: Grant)
    requires Ready(c, g, key, t) && Continue(c.process, g, key).StageRun?
    ensures
      var e := Continue(c.process, g, key);
      e.stage in STAGES && !Has(c, e.stage) && e.input == InputOf(e.stage, t.node.fqdn)
  {
    StagesDone(c.process.memory);
  }

  /** One more event of the run in which nothing fails, on the host. */
  lemma StepOn(w: World, h: Hosted, g: Grant, key: string, t: Grant) returns (longer: Hosted)
    requires h.Legal(w) && Ready(h.b.Now(), g, key, t) && RestAble(w, h.b.Now(), h.Host(), t.node.fqdn)
    requires !h.b.Now().process.phase.Finished?
    ensures longer.Legal(w) && Ready(longer.b.Now(), g, key, t)
    ensures RestAble(w, longer.b.Now(), longer.Host(), t.node.fqdn)
    ensures Extends(h, longer) && |longer.b.log| == |h.b.log| + 1 && SameRunFrom(longer.b.log, |h.b.log|, g)
    ensures SameRun(h.b.Now().process.memory, longer.b.Now().process.memory)
    ensures Remaining(longer.b.Now().process) < Remaining(h.b.Now().process)
  {
    var c := h.b.Now();
    var e := Continue(c.process, g, key);
    Advance(c, g, key, t);
    ContinueRuns(c, g, key, t);
    var after := h.Host();
    if e.StageRun? {
      ContinueStage(c, g, key, t);
      after := Execute(w, e.stage, h.Host(), e.input);
      ExecuteExecutes(w, e.stage, h.Host(), e.input);
    }
    HostedExtendIsLegal(w, h, e, after);
    RestAbleStep(w, c, e, h.Host(), after, t.node.fqdn);
    longer := h.Extend(e, after);
  }

  /** The run in which nothing fails, to its end. */
  lemma {:induction false} RunToTheEnd(w: World, h: Hosted, g: Grant, key: string, t: Grant) returns (run: Hosted)
    requires h.Legal(w) && Ready(h.b.Now(), g, key, t) && RestAble(w, h.b.Now(), h.Host(), t.node.fqdn)
    ensures run.Legal(w) && Extends(h, run) && SameRunFrom(run.b.log, |h.b.log|, g)
    ensures run.b.Now().process.Up? && run.b.Now().process.phase.Finished?
    ensures
      var m := h.b.Now().process.memory;
      run.b.Now().disk == Some(FinalState(m.installerVersion, t, m.memoryBytes, m.diskBytes))
    decreases Remaining(h.b.Now().process)
  {
    if h.b.Now().process.phase.Finished? {
      run := h;
    } else {
      var longer := StepOn(w, h, g, key, t);
      run := RunToTheEnd(w, longer, g, key, t);
      assert run.b.log[|h.b.log|] == longer.b.log[|h.b.log|];
    }
  }

  lemma AimIsTheTarget(b: Behaviour, g: Grant)
    requires b.Legal() && FreshDashboard(b.log)
    ensures Aim(b.Now(), g) == Target(b, g).node.fqdn
  {
    ReachableIsIdentified(b, |b.log|);
  }

  lemma AbleStagesFinish(
      w: World, h: Hosted, version: string, host: Host, skipFirewall: bool, g: Grant, key: string)
    returns (run: Hosted)
    requires h.Legal(w) && FreshDashboard(h.b.log) && h.b.Now().process.Down? && Supplied(g, key)
    requires StagesAble(w, h.b.Now(), h.Host(), Aim(h.b.Now(), g))
    ensures Finishes(w, h, run, Started(version, host, skipFirewall), g)
    ensures
      var first := if h.b.Now().disk.None? then version else h.b.Now().disk.value.installerVersion;
      run.b.Now().disk == Some(FinalState(first, Target(h.b, g), host.memoryBytes, host.diskBytes))
  {
    var start := Started(version, host, skipFirewall);
    RestartIsReady(h.b, version, host, skipFirewall, g, key);
    HostedExtendIsLegal(w, h, start, h.Host());
    StartedStep(h.b.Now(), start);
    AimIsTheTarget(h.b, g);
    var begun := h.Extend(start, h.Host());
    run := RunToTheEnd(w, begun, g, key, Target(h.b, g));
    assert run.b.log[|h.b.log|] == begun.b.log[|h.b.log|] == start;
  }

  /** From every state that failures and crashes can leave behind, on the host they leave, a further run
      can finish the installation if and only if every stage not yet recorded can succeed there. If it
      can, the run ends with the finished state file, for the open enrollment if there is one. */
  lemma RecoverableExactlyWhenStagesAre(
      w: World, h: Hosted, version: string, host: Host, skipFirewall: bool, g: Grant, key: string)
    requires h.Legal(w) && FreshDashboard(h.b.log) && h.b.Now().process.Down? && Supplied(g, key)
    ensures CanFinish(w, h, Started(version, host, skipFirewall), g)
      <==> StagesAble(w, h.b.Now(), h.Host(), Target(h.b, g).node.fqdn)
  {
    var start := Started(version, host, skipFirewall);
    AimIsTheTarget(h.b, g);
    if StagesAble(w, h.b.Now(), h.Host(), Aim(h.b.Now(), g)) {
      var run := AbleStagesFinish(w, h, version, host, skipFirewall, g, key);
      assert Finishes(w, h, run, start, g);
    }
    if CanFinish(w, h, start, g) {
      var run :| Finishes(w, h, run, start, g);
      FinishedRunHadAbleStages(w, h, run, start, g);
    }
  }

  // ---- which crashes strand a node -------------------------------------

  /** The stages can succeed on the host as it was found, the merge does not outgrow what the installer
      reads, and the dashboard approves proper names only. */
  predicate GoodStart(w: World, r: Residue, name: string) {
    && Able(w, r, Docker, "") && ProxyAble(w, r, name) && Proxy.Clean(w.image)
    && Daemon.Mergeable(w.codec, Daemon.Merged(w.codec, r.daemon))
  }

  predicate NameIsProper(w: World, name: string) {
    name != "" && Proxy.IsHostname(w.lower(name))
  }

  /** daemon.json is as it was found, or merged. */
  predicate DaemonAsFound(w: World, found: Option<string>, now: Option<string>)
    requires Daemon.Mergeable(w.codec, found)
  {
    now == found || now == Daemon.Merged(w.codec, found)
  }

  /** What the Docker and the Traefik stage need is there. */
  predicate StillAble(w: World, found: Residue, r: Residue, name: string)
    requires Daemon.Mergeable(w.codec, found.daemon)
  {
    DaemonAsFound(w, found.daemon, r.daemon) && ProxyAble(w, r, name)
  }

  /** Which proper name is routed does not matter to the container. */
  lemma AnyProperName(w: World, r: Residue, name: string, other: string)
    requires NameIsProper(w, name) && NameIsProper(w, other)
    ensures ProxyAble(w, r, name) <==> ProxyAble(w, r, other)
  {
  }

  lemma DaemonStaysAsFound(w: World, found: Option<string>, before: Option<string>, after: Option<string>)
    requires Daemon.Faithful(w.codec) && Daemon.Mergeable(w.codec, found) && DaemonAsFound(w, found, before)
    requires Daemon.MayHold(w.codec, before, after)
    ensures DaemonAsFound(w, found, after)
  {
    Daemon.MergeIsRepeatableExactly(w.codec, found);
  }

  lemma StillAbleStep(w: World, c: Control, e: Event, found: Residue, before: Residue, after: Residue, name: string)
    requires Daemon.Faithful(w.codec) && Daemon.Mergeable(w.codec, found.daemon) && Proxy.Clean(w.image)
    requires Next(c, e).Some? && HostStep(w, c, e, before, after) && NameIsProper(w, name)
    requires e.StageRun? && e.stage == Traefik ==> NameIsProper(w, e.input)
    requires AtStage(c) && StageOf(c) == Traefik ==> NameIsProper(w, c.process.memory.node.fqdn)
    requires StillAble(w, found, before, name)
    ensures StillAble(w, found, after, name)
  {
    if e.StageRun? {
      ExecutedStillAble(w, e.stage, found, before, after, e.input, name);
    } else if e.Stopped? && AtStage(c) {
      InterruptedStillAble(w, StageOf(c), found, before, after, StageInput(c.process.memory, StageOf(c)), name);
    }
  }

  lemma ExecutedStillAble(
      w: World, stage: Step, found: Residue, before: Residue, after: Residue, input: string, name: string)
    requires Daemon.Faithful(w.codec) && Daemon.Mergeable(w.codec, found.daemon) && Proxy.Clean(w.image)
    requires stage in STAGES && Executed(w, stage, before, after, input) && NameIsProper(w, name)
    requires stage == Traefik ==> NameIsProper(w, input)
    requires StillAble(w, found, before, name)
    ensures StillAble(w, found, after, name)
  {
    if stage == Docker {
      DaemonStaysAsFound(w, found.daemon, before.daemon, after.daemon);
    }
    assert stage != Docker ==> SamePart(Docker, before, after);
    assert stage != Traefik ==> SamePart(Traefik, before, after);
  }

  lemma InterruptedStillAble(
      w: World, stage: Step, found: Residue, before: Residue, after: Residue, input: string, name: string)
    requires Daemon.Faithful(w.codec) && Daemon.Mergeable(w.codec, found.daemon) && Proxy.Clean(w.image)
    requires stage in STAGES && Interrupted(w, stage, before, after, input) && NameIsProper(w, name)
    requires stage == Traefik ==> NameIsProper(w, input)
    requires StillAble(w, found, before, name)
    ensures StillAble(w, found, after, name)
  {
    if stage == Docker {
      DaemonStaysAsFound(w, found.daemon, before.daemon, after.daemon);
    }
    assert stage != Docker ==> SamePart(Docker, before, after);
    assert stage != Traefik ==> SamePart(Traefik, before, after);
  }

  predicate ProperNames(w: World, log: seq<Event>) {
    forall k | 0 <= k < |log| && log[k].Approved? :: NameIsProper(w, log[k].grant.node.fqdn)
  }

  lemma ApprovedNameIsProper(w: World, log: seq<Event>, j: nat)
    requires ProperNames(w, log) && j <= |log| && LastGrant(log, j).Some?
    ensures NameIsProper(w, LastGrant(log, j).value.node.fqdn)
  {
    LastGrantIsInLog(log, j);
  }

  lemma {:induction false} StillAbleAlways(w: World, h: Hosted, j: nat, name: string)
    requires h.Legal(w) && FreshDashboard(h.b.log) && ProperNames(w, h.b.log) && j <= |h.b.log|
    requires Daemon.Faithful(w.codec) && GoodStart(w, h.hosts[0], name) && NameIsProper(w, name)
    ensures StillAble(w, h.hosts[0], h.hosts[j], name)
  {
    if j > 0 {
      StillAbleAlways(w, h, j - 1, name);
      assert h.StepAt(w, j - 1) && h.b.StepAt(j - 1);
      NamesAreProper(w, h.b, j - 1);
      StillAbleStep(w, h.b.states[j - 1], h.b.log[j - 1], h.hosts[0], h.hosts[j - 1], h.hosts[j], name);
    }
  }

  /** The names that a run routes, or may be routing when it dies, are approved ones. */
  lemma NamesAreProper(w: World, b: Behaviour, j: nat)
    requires b.Legal() && FreshDashboard(b.log) && ProperNames(w, b.log) && j < |b.log|
    ensures RunsAt(b.log, j, Traefik) ==> NameIsProper(w, b.log[j].input)
    ensures AtStage(b.states[j]) ==> NameIsProper(w, b.states[j].process.memory.node.fqdn)
  {
    ReachableIsIdentified(b, j);
    if LastGrant(b.log, j).Some? {
      ApprovedNameIsProper(w, b.log, j);
    }
    if b.log[j].StageRun? {
      EffectsFollowTheApproval(b, j);
    }
  }

  lemma PasswordStep(w: World, c: Control, e: Event, found: Option<string>, before: Residue, after: Residue)
    requires Next(c, e).Some? && HostStep(w, c, e, before, after) && Password.CreationLeaves(found, before.password)
    ensures Password.CreationLeaves(found, after.password)
  {
    if e.StageRun? {
      assert e.stage != PostgreSQL ==> SamePart(PostgreSQL, before, after);
    } else if e.Stopped? && AtStage(c) {
      assert StageOf(c) != PostgreSQL ==> SamePart(PostgreSQL, before, after);
    }
  }

  /** The password file is the one that was found, or the start of a new one. */
  lemma {:induction false} PasswordAlways(w: World, h: Hosted, j: nat)
    requires h.Legal(w) && j <= |h.b.log|
    ensures Password.CreationLeaves(h.hosts[0].password, h.hosts[j].password)
  {
    if j > 0 {
      PasswordAlways(w, h, j - 1);
      assert h.StepAt(w, j - 1) && h.b.StepAt(j - 1);
      PasswordStep(w, h.b.states[j - 1], h.b.log[j - 1], h.hosts[0].password, h.hosts[j - 1], h.hosts[j]);
    }
  }

  /** The start of a new password never closes the SQL body early. */
  lemma NewPasswordIsHarmless(before: Option<string>, after: Option<string>)
    requires Password.CreationLeaves(before, after) && before.None? && after.Some?
    ensures !Password.ClosesEarly(Text.TrimSpace(after.value))
  {
    var value :| Password.IsRandomText(value) && after.value <= value + "\n";
    forall c | c in after.value
      ensures c != '$'
    {
      assert c in value + "\n";
    }
    Text.TrimKeepsOut(after.value, '$');
    Password.OnlyTheTagClosesEarly(Text.TrimSpace(after.value));
  }

  /** Docker and Traefik can be retried after every crash. From a host on which they can succeed and no
      password is set, a node can be finished exactly if the packages are recorded, or pgdg.list is not
      left so that `apt-get update` refuses it; and PostgreSQL is recorded, or PostgreSQL serves with what
      is left of pg_hba.conf and the password file is missing or holds at least 32 characters. */
  lemma StrandedExactly(
      w: World, h: Hosted, version: string, host: Host, skipFirewall: bool, g: Grant, key: string)
    requires h.Legal(w) && FreshDashboard(h.b.log) && h.b.Now().process.Down? && Supplied(g, key)
    requires Daemon.Faithful(w.codec) && ProperNames(w, h.b.log) && NameIsProper(w, g.node.fqdn)
    requires GoodStart(w, h.hosts[0], g.node.fqdn) && h.hosts[0].password.None?
    ensures CanFinish(w, h, Started(version, host, skipFirewall), g) <==>
      && (Recorded(h.b.Now(), Packages) || PackagesAble(w, h.Host()))
      && (|| Recorded(h.b.Now(), PostgreSQL)
          || (w.serves(Postgres.Managed(h.Host().access.hba))
              && (h.Host().password.Some? ==> Password.LongEnough(h.Host().password.value))))
  {
    RecoverableExactlyWhenStagesAre(w, h, version, host, skipFirewall, g, key);
    OtherStagesStayAble(w, h, g);
    StagesAbleIfTwoAre(w, h.b.Now(), h.Host(), Target(h.b, g).node.fqdn);
    PasswordAlways(w, h, |h.b.log|);
    if h.Host().password.Some? {
      NewPasswordIsHarmless(h.hosts[0].password, h.Host().password);
    }
  }

  lemma OtherStagesStayAble(w: World, h: Hosted, g: Grant)
    requires h.Legal(w) && FreshDashboard(h.b.log)
    requires Daemon.Faithful(w.codec) && ProperNames(w, h.b.log) && NameIsProper(w, g.node.fqdn)
    requires GoodStart(w, h.hosts[0], g.node.fqdn)
    ensures Daemon.Mergeable(w.codec, h.Host().daemon) && ProxyAble(w, h.Host(), Target(h.b, g).node.fqdn)
  {
    StillAbleAlways(w, h, |h.b.log|, g.node.fqdn);
    if LastGrant(h.b.log, |h.b.log|).Some? {
      ApprovedNameIsProper(w, h.b.log, |h.b.log|);
    }
    AnyProperName(w, h.Host(), g.node.fqdn, Target(h.b, g).node.fqdn);
  }

  lemma StagesAbleIfTwoAre(w: World, c: Control, r: Residue, name: string)
    requires Daemon.Mergeable(w.codec, r.daemon) && ProxyAble(w, r, name)
    ensures StagesAble(w, c, r, name) <==>
      (Recorded(c, Packages) || PackagesAble(w, r)) && (Recorded(c, PostgreSQL) || PostgresAble(w, r))
  {
    FourStages();
    if StagesAble(w, c, r, name) {
      assert !Recorded(c, PostgreSQL) ==> Able(w, r, PostgreSQL, InputOf(PostgreSQL, name));
      assert !Recorded(c, Packages) ==> Able(w, r, Packages, InputOf(Packages, name));
    }
  }

  lemma FourStages()
    ensures forall stage ::
      stage in STAGES <==> stage == Packages || stage == Docker || stage == PostgreSQL || stage == Traefik
  {
    assert STAGES[0] == Packages && STAGES[1] == Docker && STAGES[2] == PostgreSQL && STAGES[3] == Traefik;
  }

  // ---- a crash that strands a node -------------------------------------

  predicate ShortPassword(r: Residue) {
    r.password.Some? && !Password.LongEnough(r.password.value)
  }

  predicate RefusedSource(w: World, r: Residue) {
    r.sources.Some? && !w.updates(r.sources.value)
  }

  /** pg_hba.conf is taken for a managed one, and PostgreSQL does not serve with it. */
  predicate UnservedAccess(w: World, r: Residue) {
    Text.Contains(r.access.hba, Postgres.MARKER) && !w.serves(r.access.hba)
  }

  /** A file that its stage can neither get past nor put right, and the stage is not recorded. */
  predicate Stranded(w: World, c: Control, r: Residue) {
    || (RefusedSource(w, r) && !Has(c, Packages))
    || ((ShortPassword(r) || UnservedAccess(w, r)) && !Has(c, PostgreSQL))
  }

  lemma RefusedSourceStep(w: World, c: Control, e: Event, before: Residue, after: Residue)
    requires Next(c, e).Some? && HostStep(w, c, e, before, after)
    requires RefusedSource(w, before) && !Has(c, Packages)
    ensures RefusedSource(w, after) && !Has(Next(c, e).value, Packages)
  {
    FourStages();
    if e.StageRun? {
      assert e.stage != Packages ==> SamePart(Packages, before, after);
    } else if e.Stopped? && AtStage(c) {
      assert StageOf(c) != Packages ==> SamePart(Packages, before, after);
    }
    if Has(Next(c, e).value, Packages) {
      HasStep(c, e, Packages);
    }
  }

  lemma PostgresStep(w: World, c: Control, e: Event, before: Residue, after: Residue)
    requires Next(c, e).Some? && HostStep(w, c, e, before, after) && !Has(c, PostgreSQL)
    requires ShortPassword(before) || UnservedAccess(w, before)
    ensures ShortPassword(before) ==> ShortPassword(after)
    ensures UnservedAccess(w, before) ==> UnservedAccess(w, after)
    ensures !Has(Next(c, e).value, PostgreSQL)
  {
    FourStages();
    if e.StageRun? {
      assert e.stage != PostgreSQL ==> SamePart(PostgreSQL, before, after);
    } else if e.Stopped? && AtStage(c) {
      assert StageOf(c) != PostgreSQL ==> SamePart(PostgreSQL, before, after);
    }
    if Has(Next(c, e).value, PostgreSQL) {
      HasStep(c, e, PostgreSQL);
    }
  }

  lemma StrandedStep(w: World, c: Control, e: Event, before: Residue, after: Residue)
    requires Next(c, e).Some? && HostStep(w, c, e, before, after) && Stranded(w, c, before)
    ensures Stranded(w, Next(c, e).value, after)
  {
    if RefusedSource(w, before) && !Has(c, Packages) {
      RefusedSourceStep(w, c, e, before, after);
    } else {
      PostgresStep(w, c, e, before, after);
    }
  }

  /** Once a stage is not recorded and its pgdg.list is refused, its password file short, or its managed
      pg_hba.conf not served with, no run ever finishes - however many runs follow, and whatever fails or
      works in them. */
  lemma {:induction false} StrandedIsForever(w: World, h: Hosted, n: nat, j: nat)
    requires h.Legal(w) && n <= j <= |h.b.log| && Stranded(w, h.b.states[n], h.hosts[n])
    ensures Stranded(w, h.b.states[j], h.hosts[j])
    ensures !(h.b.states[j].process.Up? && h.b.states[j].process.phase.Finished?)
    decreases j
  {
    if n < j {
      StrandedIsForever(w, h, n, j - 1);
      assert h.StepAt(w, j - 1) && h.b.StepAt(j - 1);
      StrandedStep(w, h.b.states[j - 1], h.b.log[j - 1], h.hosts[j - 1], h.hosts[j]);
    }
    ReachableIsSound(h.b, j);
    FourStages();
    if h.b.states[j].process.Up? && h.b.states[j].process.phase.Finished? {
      FinishedHas(h.b.states[j], PostgreSQL);
      FinishedHas(h.b.states[j], Packages);
    }
  }

  ghost predicate NeverFinishes(w: World, h: Hosted) {
    forall later: Hosted | later.Legal(w) && Extends(h, later) ::
      !(later.b.Now().process.Up? && later.b.Now().process.phase.Finished?)
  }

  lemma StrandedNeverFinishes(w: World, h: Hosted)
    requires h.Legal(w) && Stranded(w, h.b.Now(), h.Host())
    ensures NeverFinishes(w, h)
  {
    forall later: Hosted | later.Legal(w) && Extends(h, later)
      ensures !(later.b.Now().process.Up? && later.b.Now().process.phase.Finished?)
    {
      var n := |h.b.log|;
      assert later.hosts[n] == h.hosts[n] && later.b.states[n] == h.b.states[n];
      StrandedIsForever(w, later, n, |later.b.log|);
    }
  }

  lemma StageRunIsAtStage(c: Control, e: Event)
    requires Sound(c) && Next(c, e).Some? && e.StageRun?
    ensures AtStage(c) && StageOf(c) == e.stage && !Has(c, e.stage)
    ensures StageInput(c.process.memory, e.stage) == e.input
  {
  }

  lemma StoppedHas(c: Control, stage: Step)
    requires c.process.Up? && !Has(c, stage)
    ensures Next(c, Stopped) == Some(Control(c.disk, Down)) && !Has(Control(c.disk, Down), stage)
  {
  }

  /** Instead of executing a stage to its end, the process dies in it. */
  lemma DieInStage(w: World, h: Hosted, j: nat, after: Residue) returns (stuck: Hosted)
    requires h.Legal(w) && j < |h.b.log| && h.b.log[j].StageRun?
    requires Interrupted(w, h.b.log[j].stage, h.hosts[j], after, h.b.log[j].input)
    ensures stuck.Legal(w) && stuck.b.log == h.b.log[..j] + [Stopped] && stuck.hosts == h.hosts[..j + 1] + [after]
    ensures stuck.b.Now().process.Down? && !Has(stuck.b.Now(), h.b.log[j].stage)
  {
    CutIsLegal(w, h, j);
    assert h.b.StepAt(j);
    ReachableIsSound(h.b, j);
    StageRunIsAtStage(h.b.states[j], h.b.log[j]);
    StoppedHas(h.b.states[j], h.b.log[j].stage);
    HostedExtendIsLegal(w, h.Cut(j), Stopped, after);
    stuck := h.Cut(j).Extend(Stopped, after);
  }

  function Emptied(r: Residue): Residue {
    Residue(r.sources, r.daemon, Postgres.Configured(r.access), Some(""), r.docker)
  }

  /** Every run that executes the PostgreSQL stage on a host without a password could have died in it so
      that the password file is left empty, and no later run ever finishes. */
  lemma EveryFirstPasswordCanStrand(w: World, h: Hosted, j: nat) returns (stuck: Hosted)
    requires h.Legal(w) && j < |h.b.log| && RunsAt(h.b.log, j, PostgreSQL) && h.hosts[j].password.None?
    ensures stuck.Legal(w) && stuck.b.log == h.b.log[..j] + [Stopped] && stuck.b.Now().process.Down?
    ensures stuck.hosts == h.hosts[..j + 1] + [Emptied(h.hosts[j])]
    ensures NeverFinishes(w, stuck)
  {
    assert Password.IsRandomText(Letters(64)) && "" <= Letters(64) + "\n";
    stuck := DieInStage(w, h, j, Emptied(h.hosts[j]));
    StrandedNeverFinishes(w, stuck);
  }

  /** A run that executes the packages stage could have died in it with any beginning of the package
      source written; if `apt-get update` refuses that, no later run ever finishes. */
  lemma TornSourceStrands(w: World, h: Hosted, j: nat, n: nat) returns (stuck: Hosted)
    requires h.Legal(w) && j < |h.b.log| && RunsAt(h.b.log, j, Packages)
    requires n <= |w.source| && !w.updates(w.source[..n])
    ensures stuck.Legal(w) && stuck.b.log == h.b.log[..j] + [Stopped] && stuck.b.Now().process.Down?
    ensures stuck.hosts == h.hosts[..j + 1] + [h.hosts[j].(sources := Some(w.source[..n]))]
    ensures NeverFinishes(w, stuck)
  {
    assert h.StepAt(w, j);
    stuck := DieInStage(w, h, j, h.hosts[j].(sources := Some(w.source[..n])));
    StrandedNeverFinishes(w, stuck);
  }

  function Torn(r: Residue, n: nat): Residue
    requires n <= |Postgres.BLOCK + r.access.hba|
  {
    Residue(r.sources, r.daemon,
      Postgres.Access((Postgres.BLOCK + r.access.hba)[..n], Postgres.Configured(r.access).backup), r.password, r.docker)
  }

  /** A run that executes the PostgreSQL stage on a file without the block could have died in it with any
      beginning of the new text written; if that is taken for a managed file and PostgreSQL does not serve
      with it, no later run ever finishes. */
  lemma TornAccessStrands(w: World, h: Hosted, j: nat, n: nat) returns (stuck: Hosted)
    requires h.Legal(w) && j < |h.b.log| && RunsAt(h.b.log, j, PostgreSQL)
    requires !Text.Contains(h.hosts[j].access.hba, Postgres.MARKER)
    requires |Postgres.MARKER| <= n <= |Postgres.BLOCK + h.hosts[j].access.hba|
    requires !w.serves((Postgres.BLOCK + h.hosts[j].access.hba)[..n])
    ensures stuck.Legal(w) && stuck.b.log == h.b.log[..j] + [Stopped] && stuck.b.Now().process.Down?
    ensures stuck.hosts == h.hosts[..j + 1] + [Torn(h.hosts[j], n)]
    ensures NeverFinishes(w, stuck)
  {
    Postgres.TornBlockHasMarker(h.hosts[j].access.hba, n);
    stuck := DieInStage(w, h, j, Torn(h.hosts[j], n));
    StrandedNeverFinishes(w, stuck);
  }

  predicate AllAble(w: World, r: Residue, name: string) {
    forall stage | stage in STAGES :: Able(w, r, stage, InputOf(stage, name))
  }

  lemma FirstRunSetsAPassword(
      w: World, r: Residue, version: string, host: Host, skipFirewall: bool, g: Grant, key: string)
    returns (run: Hosted, k: nat)
    requires Supplied(g, key) && r.password.None? && AllAble(w, r, g.node.fqdn)
    ensures run.Legal(w) && 0 < k < |run.b.log| && run.hosts[0] == r
    ensures run.b.log[0] == Started(version, host, skipFirewall)
    ensures RunsAt(run.b.log, k, PostgreSQL) && run.hosts[k].password.None?
  {
    var empty := Hosted(NOTHING_YET, [r]);
    run := AbleStagesFinish(w, empty, version, host, skipFirewall, g, key);
    assert run.b.StepAt(0) && run.StepAt(w, 0);
    StartedStep(run.b.states[0], run.b.log[0]);
    ReachableIsSound(run.b, |run.b.log|);
    FourStages();
    FinishedHas(run.b.Now(), PostgreSQL);
    k := HasComesFromARun(run.b, 1, |run.b.log|, PostgreSQL);
    PartStays(w, run, 1, k, PostgreSQL, g);
  }

  /** So the very first run on a host can strand it, however sound the host was. */
  lemma FirstRunCanStrand(
      w: World, r: Residue, version: string, host: Host, skipFirewall: bool, g: Grant, key: string)
    returns (stuck: Hosted)
    requires Supplied(g, key) && r.password.None? && AllAble(w, r, g.node.fqdn)
    ensures stuck.Legal(w) && stuck.hosts[0] == r && stuck.b.Now().process.Down?
    ensures stuck.b.log != [] && stuck.b.log[0] == Started(version, host, skipFirewall)
    ensures stuck.Host().password == Some("") && NeverFinishes(w, stuck)
  {
    var run, k := FirstRunSetsAPassword(w, r, version, host, skipFirewall, g, key);
    stuck := EveryFirstPasswordCanStrand(w, run, k);
  }

  // ---- the machine goes down -------------------------------------------

  /** The stage creates the password, and its record is saved. Nothing fails - and then the machine goes
      down, and may come up with the record in the state file and nothing in the password file. */
  method RecordedPasswordMayBeLost(
      store: Register.Store, path: Files.Path, random: string, record: Register.Record, now: int)
    returns (ok: bool, ghost after: Files.Tree)
    requires store.Valid() && path.Named? && path != store.path && path !in store.disk.files
    requires Password.IsRandomText(random)
    modifies store.disk
    ensures store.disk.Healthy() ==> ok
    ensures ok ==>
      && Files.DataAt(store.disk.files, path) == Some(random + "\n")
      && Files.MayRemain(store.disk.files, after) && Files.DataAt(after, path) == Some("")
      && Register.LoadFrom(store.codec, after, store.path)
           == Register.Value(Register.Normal(Register.Stamp(record, now)))
  {
    after := map[];
    var password := Password.EnsurePassword(store.disk, path, Some(random));
    assert Files.SameAt(old(store.disk.files), store.disk.files, store.path);
    if password.None? {
      return false, after;
    }
    ghost var created := store.disk.files;
    ok := store.Save(record, now);
    if ok {
      assert Files.SameAt(created, store.disk.files, path);
      after := store.disk.files[path := store.disk.files[path].(data := "")];
    }
  }
}
