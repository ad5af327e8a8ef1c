/** internal/traefik: `configureAgentAt`, which brings the proxy's files, network and container into
    place and leaves alone what is already there. `strings.ToLower` is a parameter. */
module Traefik {
  import opened Wrappers
  import opened Text
  import opened Files
  import opened TraefikRoute
  import FirewallScript

  // ---- the container ---------------------------------------------------

  const NAME := "centralcloud-traefik"

  /** An option of `docker run`. */
  datatype Setting =
    | Detach | Name(name: string) | Restart(policy: string) | Network(network: string) | Publish(ports: string)
    | Volume(mount: string) | ReadOnly | SecurityOpt(option: string) | LogOpt(option: string)
    | Label(key: string, value: string) | AddHost(host: string)

  datatype Spec = Spec(settings: seq<Setting>, image: string, arguments: seq<string>)

  datatype Container = Container(spec: Spec, running: bool)

  const PROFILE_KEY := "centralcloud.installer.profile"
  const PROFILE := "bearer-v1"
  const SOCKET := "/var/run/docker.sock"
  const ROUTES := ":" + "/etc/traefik/dynamic" + ":" + "ro"
  const PROVIDER := "--providers.file.directory=" + "/etc/traefik/dynamic"
  const STORAGE := "--certificatesresolvers.letsencrypt" + ".acme.storage=" + "/data/acme.json"

  function CommonSettings(data: string): seq<Setting> {
    [Detach, Name(NAME), Restart("unless-stopped"), Network(NAME), Publish("80:80"), Publish("443:443"),
     Volume(SOCKET + ":" + SOCKET + ":ro"), Volume(data + ":/data"),
     ReadOnly, SecurityOpt("no-new-privileges:true"), LogOpt("max-size=10m"), LogOpt("max-file=3")]
  }

  function RouteSettings(data: string): seq<Setting> {
    [Label(PROFILE_KEY, PROFILE), AddHost("host.docker.internal:host-gateway"), Volume(data + "/dynamic" + ROUTES)]
  }

  const COMMON_ARGUMENTS: seq<string> := [
    "--providers.docker=true", "--providers.docker.exposedbydefault=false",
    "--entrypoints.web.address=:80", "--entrypoints.websecure.address=:443",
    STORAGE,
    "--certificatesresolvers.letsencrypt.acme.tlschallenge=true"]

  const ROUTE_ARGUMENTS: seq<string> := [PROVIDER, "--providers.file.watch=true"]

  /** What the installer asks `docker run` for. */
  function Wanted(image: string, data: string, fqdn: string): Spec {
    Spec(CommonSettings(data) + (if fqdn != "" then RouteSettings(data) else []), image,
         COMMON_ARGUMENTS + (if fqdn != "" then ROUTE_ARGUMENTS else []))
  }

  /** The value of a label: the last setting of it wins. */
  function LabelOf(settings: seq<Setting>, key: string): string {
    if settings == [] then ""
    else
      var last := settings[|settings| - 1];
      if last.Label? && last.key == key then last.value else LabelOf(settings[..|settings| - 1], key)
  }

  /** What `docker inspect` prints: a line. */
  function ImageLine(c: Container): string {
    c.spec.image + "\n"
  }

  function ProfileLine(c: Container): string {
    LabelOf(c.spec.settings, PROFILE_KEY) + "\n"
  }

  /** The container is one that this call accepts. */
  predicate Fits(c: Container, image: string, fqdn: string) {
    TrimSpace(ImageLine(c)) == image && (fqdn != "" ==> TrimSpace(ProfileLine(c)) == PROFILE)
  }

  /** The container reads routes from the mounted directory. */
  predicate ServesRoutes(c: Container) {
    && PROVIDER in c.spec.arguments
    && exists s | s in c.spec.settings :: s.Volume? && HasSuffix(s.mount, ROUTES)
  }

  /** The profile label promises what it is taken for. */
  predicate Honest(c: Container) {
    TrimSpace(ProfileLine(c)) == PROFILE ==> ServesRoutes(c)
  }

  /** An image reference without white space around it. */
  predicate Clean(image: string) {
    image != "" && !IsSpace(image[0]) && !IsSpace(image[|image| - 1])
  }

  lemma LineOf(text: string)
    requires text == "" || Clean(text)
    ensures TrimSpace(text + "\n") == text
  {
    assert "\n"[..0] == "" && TrimRight("\n") == TrimRight("") == "";
    if text == "" {
      assert text + "\n" == "\n" && "\n"[1..] == "";
    } else {
      TrimKeepsCore(text, "\n");
      assert text + "" == text;
    }
  }

  lemma {:induction false} UnlabelledPart(settings: seq<Setting>, key: string)
    requires forall s | s in settings :: !s.Label?
    ensures LabelOf(settings, key) == ""
  {
    if settings != [] {
      UnlabelledPart(settings[..|settings| - 1], key);
    }
  }

  lemma LabelBefore(settings: seq<Setting>, last: Setting, key: string)
    ensures LabelOf(settings + [last], key) ==
      if last.Label? && last.key == key then last.value else LabelOf(settings, key)
  {
    assert (settings + [last])[..|settings|] == settings;
  }

  lemma WantedLabel(image: string, data: string, fqdn: string)
    ensures LabelOf(Wanted(image, data, fqdn).settings, PROFILE_KEY) == if fqdn != "" then PROFILE else ""
  {
    var common, route := CommonSettings(data), RouteSettings(data);
    UnlabelledPart(common, PROFILE_KEY);
    if fqdn != "" {
      LabelBefore(common + [route[0]] + [route[1]], route[2], PROFILE_KEY);
      LabelBefore(common + [route[0]], route[1], PROFILE_KEY);
      LabelBefore(common, route[0], PROFILE_KEY);
      assert common + route == common + [route[0]] + [route[1]] + [route[2]];
    } else {
      assert common + [] == common;
    }
  }

  /** The container that this call creates is one that it accepts next time, and its label tells
      whether it serves routes. */
  lemma WantedFits(image: string, data: string, fqdn: string, running: bool)
    ensures
      var c := Container(Wanted(image, data, fqdn), running);
      (Clean(image) ==> Fits(c, image, fqdn)) && Honest(c) && (fqdn != "" <==> TrimSpace(ProfileLine(c)) == PROFILE)
  {
    WantedLabel(image, data, fqdn);
    if Clean(image) {
      LineOf(image);
    }
    LineOf("");
    assert Clean(PROFILE);
    LineOf(PROFILE);
    if fqdn != "" {
      WantedServesRoutes(image, data, fqdn, running);
    }
  }

  lemma WantedServesRoutes(image: string, data: string, fqdn: string, running: bool)
    requires fqdn != ""
    ensures ServesRoutes(Container(Wanted(image, data, fqdn), running))
  {
    var spec := Wanted(image, data, fqdn);
    assert spec.arguments[|COMMON_ARGUMENTS|] == ROUTE_ARGUMENTS[0] == PROVIDER;
    var mount := data + "/dynamic" + ROUTES;
    assert mount[|mount| - |ROUTES|..] == ROUTES;
    assert spec.settings[|CommonSettings(data)| + 2] == Volume(mount);
  }

  // ---- the files -------------------------------------------------------

  predicate IsLower(c: char) {
    'a' <= c <= 'z'
  }

  predicate IsAlnum(c: char) {
    IsLower(c) || IsDigit(c)
  }

  predicate IsLabel(s: string) {
    && 1 <= |s| <= 63 && IsAlnum(s[0]) && IsAlnum(s[|s| - 1])
    && forall i | 0 <= i < |s| :: IsAlnum(s[i]) || s[i] == '-'
  }

  predicate IsTopLevel(s: string) {
    2 <= |s| <= 63 && forall i | 0 <= i < |s| :: IsLower(s[i])
  }

  /** The pattern that a lower-cased FQDN has to match: labels, each followed by a dot, and a top level. */
  predicate IsHostname(s: string) {
    var parts := Split(s, ".");
    && |parts| >= 2 && IsTopLevel(parts[|parts| - 1])
    && forall i | 0 <= i < |parts| - 1 :: IsLabel(parts[i])
  }

  lemma EmptyIsNoHostname()
    ensures !IsHostname("")
  {
    SplitLast("", ".", []);
    assert |Split("", ".")| == 1;
  }

  predicate HostCharacters(s: string) {
    forall c | c in s :: IsAlnum(c) || c == '-' || c == '.'
  }

  lemma {:induction false} FieldsCover(s: string, field: string)
    requires forall p | p in SplitFrom(s, ".", field) :: HostCharacters(p)
    ensures HostCharacters(s)
    decreases |s|
  {
    if s != "" {
      assert s == [s[0]] + s[1..];
      if "." <= s {
        assert s[0] == "."[0];
        assert s[|"."|..] == s[1..];
        FieldsCover(s[1..], []);
      } else {
        FieldsCover(s[1..], field + [s[0]]);
        FieldIsKept(s[1..], field + [s[0]]);
        var first := SplitFrom(s, ".", field)[0];
        assert first in SplitFrom(s, ".", field);
        assert s[0] == (field + [s[0]])[|field|] == first[|field|];
        assert s[0] in first;
      }
    }
  }

  lemma {:induction false} FieldIsKept(s: string, field: string)
    ensures field <= SplitFrom(s, ".", field)[0]
    decreases |s|
  {
    if s != "" && !("." <= s) {
      FieldIsKept(s[1..], field + [s[0]]);
    }
  }

  lemma HostnameIsTame(s: string)
    requires IsHostname(s)
    ensures HostCharacters(s)
  {
    forall p | p in Split(s, ".")
      ensures HostCharacters(p)
    {
    }
    FieldsCover(s, []);
  }

  /** The route file names exactly the host, which no quote or line break ends early, and forwards to the
      agent. */
  lemma RouteReadsBack(host: string)
    requires IsHostname(host)
    ensures
      var rule := ValueAt(Route(host), ["http:", "routers:", "centralcloud-agent:", "rule:"]);
      rule.Some? && HostOf(rule.value) == Some(host)
    ensures Backend(Route(host)) == Some("\"http://host.docker.internal:9443\"")
    ensures '"' !in host && '\n' !in host
  {
    HostnameIsTame(host);
    EmptyIsNoHostname();
    assert IsWord(host);
    RouteMeaning(host);
  }

  /** The container sees a directory of the host under a path of its own. */
  predicate Mounts(spec: Spec, host: string, inside: string) {
    exists s | s in spec.settings :: s.Volume? && MountParts(s.mount) == Some((host, inside))
  }

  /** Source and target of a volume, behind which an option may stand. */
  function MountParts(mount: string): Option<(string, string)> {
    var parts := Split(mount, ":");
    if |parts| == 2 || |parts| == 3 then Some((parts[0], parts[1])) else None
  }

  /** The container finds the certificates and the route where `PrepareFiles` leaves them. */
  lemma ContainerFindsFiles(image: string, data: string, fqdn: string)
    requires ':' !in data && fqdn != ""
    ensures
      var spec := Wanted(image, data, fqdn);
      && Mounts(spec, data, "/data")
      && "--certificatesresolvers.letsencrypt" + ".acme.storage=" + ("/data" + "/acme.json") in spec.arguments
      && AcmePath(data) == Named(data + "/acme.json")
      && Mounts(spec, data + "/dynamic", "/etc/traefik/dynamic")
      && "--providers.file.directory=" + "/etc/traefik/dynamic" in spec.arguments
      && RoutePath(data) == Named(data + "/dynamic" + "/agent.yml")
  {
    DataIsMounted(image, data, fqdn);
    RoutesAreMounted(image, data, fqdn);
    StorageIsAsked(image, data, fqdn);
    ProviderIsAsked(image, data, fqdn);
    RoutePathIs(data);
  }

  lemma StorageIsAsked(image: string, data: string, fqdn: string)
    requires fqdn != ""
    ensures "--certificatesresolvers.letsencrypt" + ".acme.storage=" + ("/data" + "/acme.json")
      in Wanted(image, data, fqdn).arguments
  {
    StorageIsCommon();
    ArgumentsAre(image, data, fqdn, STORAGE);
    assert "/data" + "/acme.json" == "/data/acme.json";
  }

  lemma ProviderIsAsked(image: string, data: string, fqdn: string)
    requires fqdn != ""
    ensures "--providers.file.directory=" + "/etc/traefik/dynamic" in Wanted(image, data, fqdn).arguments
  {
    assert PROVIDER == ROUTE_ARGUMENTS[0];
    ArgumentsAre(image, data, fqdn, PROVIDER);
  }

  lemma RoutePathIs(data: string)
    ensures RoutePath(data) == Named(data + "/dynamic" + "/agent.yml")
  {
    assert data + "/dynamic" + "/agent.yml" == data + "/dynamic/agent.yml";
  }

  /** The container knows the host that the route forwards to, and the port is the one that the firewall
      opens for the proxy's network. */
  lemma BackendIsTheAgent(image: string, data: string, fqdn: string, host: string)
    requires fqdn != "" && IsHostname(host)
    ensures
      var name := "host.docker.internal";
      && AddHost(name + ":host-gateway") in Wanted(image, data, fqdn).settings
      && Backend(Route(host)) == Some("\"http://" + name + ":" + Itoa(FirewallScript.AGENT_PORT) + "\"")
  {
    HostIsAdded(image, data, fqdn);
    RouteReadsBack(host);
    BackendText();
  }

  lemma BackendText()
    ensures "\"http://host.docker.internal:9443\"" ==
      "\"http://" + "host.docker.internal" + ":" + Itoa(FirewallScript.AGENT_PORT) + "\""
  {
    AgentPortText();
  }

  lemma AgentPortText()
    ensures Itoa(FirewallScript.AGENT_PORT) == "9443"
  {
    assert Itoa(9) == "9" && Itoa(94) == "94" && Itoa(944) == "944";
  }

  lemma MountReads(host: string, inside: string, rest: string)
    requires ':' !in host && ':' !in inside && ':' !in rest
    ensures MountParts(host + (":" + inside)) == Some((host, inside))
    ensures MountParts(host + (":" + inside + ":" + rest)) == Some((host, inside))
  {
    var two, three := [host, inside], [host, inside, rest];
    SplitJoin(two, ":");
    SplitJoin(three, ":");
    assert two[1..] == [inside] && three[1..] == [inside, rest] && three[1..][1..] == [rest];
    assert [inside, rest][1..] == [rest] && Join([inside, rest], ":") == inside + ":" + rest;
    assert host + ":" + inside == host + (":" + inside);
    assert host + ":" + (inside + ":" + rest) == host + (":" + inside + ":" + rest);
  }

  lemma DataIsMounted(image: string, data: string, fqdn: string)
    requires ':' !in data
    ensures Mounts(Wanted(image, data, fqdn), data, "/data")
  {
    MountReads(data, "/data", "");
    assert ":" + "/data" == ":/data";
    DataVolume(image, data, fqdn);
  }

  lemma DataVolume(image: string, data: string, fqdn: string)
    ensures Volume(data + ":/data") in Wanted(image, data, fqdn).settings
  {
    assert Wanted(image, data, fqdn).settings[7] == CommonSettings(data)[7];
  }

  lemma RoutesAreMounted(image: string, data: string, fqdn: string)
    requires ':' !in data && fqdn != ""
    ensures Mounts(Wanted(image, data, fqdn), data + "/dynamic", "/etc/traefik/dynamic")
  {
    MountReads(data + "/dynamic", "/etc/traefik/dynamic", "ro");
    RouteVolume(image, data, fqdn);
  }

  lemma RouteVolume(image: string, data: string, fqdn: string)
    requires fqdn != ""
    ensures Volume(data + "/dynamic" + ROUTES) in Wanted(image, data, fqdn).settings
  {
    assert Wanted(image, data, fqdn).settings[|CommonSettings(data)| + 2] == RouteSettings(data)[2];
  }

  lemma HostIsAdded(image: string, data: string, fqdn: string)
    requires fqdn != ""
    ensures AddHost("host.docker.internal" + ":host-gateway") in Wanted(image, data, fqdn).settings
  {
    assert Wanted(image, data, fqdn).settings[|CommonSettings(data)| + 1] == RouteSettings(data)[1];
    assert "host.docker.internal" + ":host-gateway" == "host.docker.internal:host-gateway";
  }

  lemma StorageIsCommon()
    ensures STORAGE in COMMON_ARGUMENTS
  {
    assert COMMON_ARGUMENTS[4] == STORAGE;
  }

  lemma ArgumentsAre(image: string, data: string, fqdn: string, argument: string)
    requires fqdn != "" && (argument in COMMON_ARGUMENTS || argument in ROUTE_ARGUMENTS)
    ensures argument in Wanted(image, data, fqdn).arguments
  {
  }

  /** What os.Lstat says about a path. */
  datatype Kind = Missing | Directory | Regular | Irregular | Unknown

  predicate KindAt(files: Tree, path: Path, kind: Kind) {
    (kind.Missing? ==> path !in files) && (kind.Regular? ==> path in files)
  }

  function AcmePath(data: string): Path {
    Named(data + "/acme.json")
  }

  function RoutePath(data: string): Path {
    Named(data + "/dynamic/agent.yml")
  }

  /** Whatever happens, certificates that are there stay; success leaves them private, and the route
      to the host in place. */
  method PrepareFiles(disk: Disk, data: string, dataKind: Kind, acmeKind: Kind, host: string) returns (ok: bool)
    requires disk.Valid() && KindAt(disk.files, AcmePath(data), acmeKind)
    modifies disk
    ensures disk.Valid()
    ensures AcmePath(data) in old(disk.files) ==>
      AcmePath(data) in disk.files && disk.files[AcmePath(data)].data == old(disk.files)[AcmePath(data)].data
    ensures ok ==> AcmePath(data) in disk.files && disk.files[AcmePath(data)].mode == 0x180
    ensures ok && host != "" ==> RoutePath(data) in disk.files && disk.files[RoutePath(data)].data == Route(host)
    ensures forall p | p != AcmePath(data) && p != RoutePath(data) :: SameAt(old(disk.files), disk.files, p)
    ensures host == "" ==> SameAt(old(disk.files), disk.files, RoutePath(data))
    ensures !(dataKind.Missing? || dataKind.Directory?) || !(acmeKind.Missing? || acmeKind.Regular?) ==>
      !ok && disk.files == old(disk.files)
    ensures disk.Healthy() ==>
      (ok <==> (dataKind.Missing? || dataKind.Directory?) && (acmeKind.Missing? || acmeKind.Regular?))
  {
    assert |"/acme.json"| != |"/dynamic/agent.yml"|;
    if !dataKind.Missing? && !dataKind.Directory? {
      return false;
    }
    ok := disk.Other();
    if !ok {
      return;
    }
    ok := disk.Other();
    if !ok || (!acmeKind.Missing? && !acmeKind.Regular?) {
      return false;
    }
    ok := OpenOrCreate(disk, AcmePath(data), 0x180);
    if !ok {
      return;
    }
    ok := disk.Chmod(AcmePath(data), 0x180);
    if !ok || host == "" {
      return;
    }
    ok := disk.Other();
    if !ok {
      return;
    }
    ok := disk.WriteFile(RoutePath(data), Route(host), 0x180);
  }

  /** os.OpenFile with os.O_CREATE, and closing the file again. */
  method OpenOrCreate(disk: Disk, path: Path, mode: nat) returns (ok: bool)
    requires disk.Valid() && path.Named?
    modifies disk
    ensures disk.Valid()
    ensures
      || disk.files == old(disk.files)
      || (path !in old(disk.files) && disk.files == old(disk.files)[path := File("", mode, false)])
    ensures ok ==> path in disk.files
    ensures disk.Healthy() ==> ok
  {
    ok := disk.Other();
    if !ok {
      return;
    }
    if path !in disk.files {
      disk.Become(disk.files[path := File("", mode, false)]);
    }
    ok := disk.Other();
  }

  // ---- the Docker daemon -----------------------------------------------

  /** What becomes of one command: it works, or fails, possibly after having taken effect; a fatal
      failure ends the installer's process. */
  datatype Answer = Done | Fails(applied: bool, running: bool, fatal: bool)

  datatype Docker = Docker(networks: set<string>, containers: map<string, Container>)

  /** The state from which the container can be brought up: it is missing, or one that fits. */
  predicate Convergable(d: Docker, image: string, fqdn: string) {
    NAME in d.containers ==> Fits(d.containers[NAME], image, fqdn)
  }

  /** Network and container are there, and the container fits and runs. */
  predicate Settled(d: Docker, image: string, fqdn: string) {
    NAME in d.networks && NAME in d.containers && Fits(d.containers[NAME], image, fqdn) && d.containers[NAME].running
  }

  /** What no call may do: touch another network or container, or replace the container. */
  predicate OnlyOurs(before: Docker, after: Docker) {
    && before.networks <= after.networks <= before.networks + {NAME}
    && after.containers - {NAME} == before.containers - {NAME}
    && (NAME in before.containers ==>
          NAME in after.containers && after.containers[NAME].spec == before.containers[NAME].spec)
  }

  function WithContainer(d: Docker, c: Container): Docker {
    d.(containers := d.containers[NAME := c])
  }

  predicate AllHonest(d: Docker) {
    NAME in d.containers ==> Honest(d.containers[NAME])
  }

  class Engine {
    var docker: Docker
    var asked: nat
    const oracle: nat -> Answer

    constructor (docker: Docker, oracle: nat -> Answer)
      ensures this.docker == docker && this.oracle == oracle && asked == 0
    {
      this.docker, this.oracle, asked := docker, oracle, 0;
    }

    ghost predicate Healthy()
      reads this
    {
      forall n: nat :: oracle(n).Done?
    }

    method Ask() returns (a: Answer)
      modifies this`asked
      ensures a == oracle(old(asked)) && asked == old(asked) + 1
    {
      a := oracle(asked);
      asked := asked + 1;
    }

    method InspectNetwork() returns (ok: bool, alive: bool)
      modifies this`asked
      ensures ok ==> NAME in docker.networks && alive
      ensures Healthy() ==> alive && (ok <==> NAME in docker.networks)
      ensures asked == old(asked) + 1
    {
      var a := Ask();
      ok, alive := a.Done? && NAME in docker.networks, a.Done? || !a.fatal;
    }

    /** A network of that name is an error. */
    method CreateNetwork() returns (ok: bool)
      modifies this`asked, this`docker
      ensures docker.containers == old(docker.containers)
      ensures docker.networks == old(docker.networks) || docker.networks == old(docker.networks) + {NAME}
      ensures ok ==> NAME in docker.networks
      ensures Healthy() && NAME !in old(docker.networks) ==> ok
      ensures asked == old(asked) + 1 && (ok ==> oracle(old(asked)).Done?)
    {
      var a := Ask();
      ok := a.Done? && NAME !in docker.networks;
      if a.Done? || a.applied {
        docker := docker.(networks := docker.networks + {NAME});
      }
    }

    method Pull() returns (ok: bool)
      modifies this`asked
      ensures (ok <==> oracle(old(asked)).Done?) && asked == old(asked) + 1
    {
      var a := Ask();
      ok := a.Done?;
    }

    /** A missing container is an error. */
    method Inspect() returns (found: Option<Container>, alive: bool)
      modifies this`asked
      ensures found.Some? ==> alive && NAME in docker.containers && found.value == docker.containers[NAME]
      ensures Healthy() ==> alive && (found.Some? <==> NAME in docker.containers)
    {
      var a := Ask();
      alive := a.Done? || !a.fatal;
      found := if a.Done? && NAME in docker.containers then Some(docker.containers[NAME]) else None;
    }

    method Start() returns (ok: bool)
      requires NAME in docker.containers
      modifies this`asked, this`docker
      ensures
        || docker == old(docker)
        || docker == WithContainer(old(docker), old(docker.containers)[NAME].(running := true))
      ensures ok ==> docker.containers[NAME].running
      ensures Healthy() ==> ok
    {
      var a := Ask();
      ok := a.Done?;
      if a.Done? || a.applied {
        docker := docker.(containers := docker.containers[NAME := docker.containers[NAME].(running := true)]);
      }
    }

    /** A container of that name is an error; a failure may leave one that does not run. */
    method Run(spec: Spec) returns (ok: bool)
      modifies this`asked, this`docker
      ensures NAME in old(docker.containers) ==> !ok && docker == old(docker)
      ensures docker == old(docker) || exists running :: docker == WithContainer(old(docker), Container(spec, running))
      ensures ok ==> docker == WithContainer(old(docker), Container(spec, true))
      ensures Healthy() && NAME !in old(docker.containers) ==> ok
    {
      var a := Ask();
      ok := a.Done? && NAME !in docker.containers;
      if NAME !in docker.containers && (a.Done? || a.applied) {
        docker := docker.(containers := docker.containers[NAME := Container(spec, a.Done? || a.running)]);
      }
    }

    // ---- the reconciler ------------------------------------------------

    /** `configureAgentAt` from the network on. An image or profile that does not fit is refused, a
        container that is there is kept, and whatever fails, the next call can go on. */
    method Reconcile(image: string, data: string, fqdn: string) returns (ok: bool)
      modifies this
      ensures OnlyOurs(old(docker), docker)
      ensures ok ==> old(Convergable(docker, image, fqdn))
      ensures ok && Clean(image) ==> Settled(docker, image, fqdn)
      ensures Clean(image) ==> (Convergable(docker, image, fqdn) <==> old(Convergable(docker, image, fqdn)))
      ensures !old(Convergable(docker, image, fqdn)) ==> docker.containers == old(docker.containers)
      ensures old(AllHonest(docker)) ==> AllHonest(docker)
      ensures old(Settled(docker, image, fqdn)) ==> docker == old(docker)
      ensures Healthy() ==> (ok <==> old(Convergable(docker, image, fqdn)))
      // Behind the inspection of the network, and its creation if there was none, the image was pulled.
      ensures ok ==> oracle(old(asked) + 1).Done?
      ensures ok && NAME !in old(docker.networks) ==> oracle(old(asked) + 2).Done?
    {
      ok := EnsureNetwork();
      if !ok {
        return;
      }
      ok := Pull();
      if !ok {
        return;
      }
      ok := EnsureContainer(image, data, fqdn);
    }

    method EnsureNetwork() returns (ok: bool)
      modifies this
      ensures docker.containers == old(docker.containers)
      ensures docker.networks == old(docker.networks) || docker.networks == old(docker.networks) + {NAME}
      ensures ok ==> NAME in docker.networks
      ensures Healthy() ==> ok
      ensures ok ==> asked == old(asked) + 1 || (asked == old(asked) + 2 && oracle(old(asked) + 1).Done?)
      ensures ok && NAME !in old(docker.networks) ==> asked == old(asked) + 2
    {
      var alive;
      ok, alive := InspectNetwork();
      if !ok && alive {
        ok := CreateNetwork();
      }
    }

    method EnsureContainer(image: string, data: string, fqdn: string) returns (ok: bool)
      modifies this
      ensures docker.networks == old(docker.networks) && OnlyOurs(old(docker), docker)
      ensures ok ==> NAME in docker.containers && docker.containers[NAME].running
      ensures ok ==> old(Convergable(docker, image, fqdn))
      ensures Clean(image) ==> (Convergable(docker, image, fqdn) <==> old(Convergable(docker, image, fqdn)))
      ensures !old(Convergable(docker, image, fqdn)) ==> docker.containers == old(docker.containers)
      ensures old(AllHonest(docker)) ==> AllHonest(docker)
      ensures old(NAME in docker.containers && docker.containers[NAME].running) ==> docker == old(docker)
      ensures Healthy() ==> (ok <==> old(Convergable(docker, image, fqdn)))
    {
      var found, alive := Inspect();
      if !alive {
        return false;
      }
      if found.Some? {
        if TrimSpace(ImageLine(found.value)) != image {
          return false;
        }
        if fqdn != "" {
          var labelled;
          labelled, alive := Inspect();
          if labelled.None? || TrimSpace(ProfileLine(labelled.value)) != PROFILE {
            return false;
          }
        }
        ok := Start();
        return;
      }
      WantedFits(image, data, fqdn, true);
      WantedFits(image, data, fqdn, false);
      ok := Run(Wanted(image, data, fqdn));
    }
  }

  /** Any number of calls that fail or die anywhere leave Docker so that one call without a fault
      still settles it, unless it could not have done so in the beginning either. */
  method ReconcileAfterFaults(faulty: Engine, healthy: Engine, times: nat, image: string, data: string, fqdn: string)
    returns (ok: bool)
    requires faulty != healthy && healthy.Healthy() && Clean(image)
    modifies faulty, healthy
    ensures ok <==> old(Convergable(faulty.docker, image, fqdn))
    ensures ok ==> Settled(healthy.docker, image, fqdn)
    ensures OnlyOurs(old(faulty.docker), healthy.docker)
  {
    for i := 0 to times
      invariant OnlyOurs(old(faulty.docker), faulty.docker)
      invariant Convergable(faulty.docker, image, fqdn) <==> old(Convergable(faulty.docker, image, fqdn))
    {
      ok := faulty.Reconcile(image, data, fqdn);
    }
    healthy.docker := faulty.docker;
    ok := healthy.Reconcile(image, data, fqdn);
  }

  predicate Pinned(image: string) {
    Contains(image, "@sha256:")
  }

  /** `lower` is strings.ToLower. */
  method ConfigureAgentAt(
      disk: Disk, engine: Engine, lower: string -> string, image: string, data: string, dataKind: Kind,
      acmeKind: Kind, fqdn: string)
    returns (ok: bool)
    requires disk.Valid() && KindAt(disk.files, AcmePath(data), acmeKind)
    modifies disk, engine
    ensures disk.Valid()
    ensures !Contains(image, "@sha256:") || (fqdn != "" && !IsHostname(lower(fqdn))) ==>
      !ok && disk.files == old(disk.files) && engine.docker == old(engine.docker)
    ensures AcmePath(data) in old(disk.files) ==>
      AcmePath(data) in disk.files && disk.files[AcmePath(data)].data == old(disk.files)[AcmePath(data)].data
    ensures ok ==> old(Convergable(engine.docker, image, fqdn))
    ensures ok && Clean(image) ==> Settled(engine.docker, image, fqdn)
    ensures ok && fqdn != "" ==> RoutePath(data) in disk.files && disk.files[RoutePath(data)].data == Route(lower(fqdn))
    ensures ok && Clean(image) && fqdn != "" && old(AllHonest(engine.docker)) ==>
      ServesRoutes(engine.docker.containers[NAME])
    ensures old(Settled(engine.docker, image, fqdn)) ==> engine.docker == old(engine.docker)
    ensures OnlyOurs(old(engine.docker), engine.docker)
    ensures Clean(image) ==> (Convergable(engine.docker, image, fqdn) <==> old(Convergable(engine.docker, image, fqdn)))
    ensures disk.Healthy() && engine.Healthy() ==>
      (ok <==>
         && Contains(image, "@sha256:") && (fqdn == "" || IsHostname(lower(fqdn)))
         && (dataKind.Missing? || dataKind.Directory?) && (acmeKind.Missing? || acmeKind.Regular?)
         && old(Convergable(engine.docker, image, fqdn)))
  {
    if !Pinned(image) {
      return false;
    }
    if fqdn != "" && !IsHostname(lower(fqdn)) {
      return false;
    }
    EmptyIsNoHostname();
    ok := PrepareFiles(disk, data, dataKind, acmeKind, if fqdn != "" then lower(fqdn) else "");
    if ok {
      ok := engine.Reconcile(image, data, fqdn);
    }
  }
}
