/** internal/cli and internal/state: the durable installation state, and the
    protocol that install and repair follow over it.

    A node is described by its log: everything that took effect, in order, over
    all the runs of the installer ever started on it. The file on disk, the
    process and the requests the dashboard has seen are all functions of the
    log. `Next` says which event may come after which; `Stopped` may come after
    any event of a running process, so every prefix of a log that ends a run
    early - by a failed command, a failed request or a crash - is a log too. */
module Protocol {
  import opened Wrappers
  import V = Validation

  // ---- the state file --------------------------------------------------

  datatype Step =
    | Preflight | WaitingForClaim | Packages | Docker | PostgreSQL | Traefik
    | Firewall | Agent | Validation | Complete

  const ORDER: seq<Step> :=
    [Preflight, WaitingForClaim, Packages, Docker, PostgreSQL, Traefik, Firewall, Agent, Validation, Complete]

  /** The stages that the loop in `provision` skips once they are recorded. */
  const STAGES: seq<Step> := [Packages, Docker, PostgreSQL, Traefik]

  /** SHA-256 as a free constructor: the digest of a token, or no digest. */
  datatype Digest = NoDigest | Sha256(token: string)

  datatype Node = Node(id: string, name: string, fqdn: string, endpoint: string, panelDomainSuffix: string)

  datatype Release = Release(version: string, protocolVersion: string, manifestURL: string)

  datatype State = State(
    schemaVersion: nat,
    installerVersion: string,
    enrollmentID: string,
    node: Node,
    agent: Release,
    agentTokenSHA256: Digest,
    memoryBytes: nat,
    diskBytes: nat,
    step: Step,
    completedSteps: seq<Step>,
    bootstrapToken: string,
    completionRequestKey: string)
  {
    /** The value that `Complete(s)` leaves behind. */
    function Completed(s: Step): State {
      if s in completedSteps then this.(step := s)
      else this.(completedSteps := completedSteps + [s], step := s)
    }

    /** `Store.Save` stamps the schema version on the copy it writes. */
    function Stamped(): State {
      this.(schemaVersion := 1)
    }

    /** The condition under which a run continues the enrollment on disk. */
    predicate Resumable() {
      enrollmentID != "" && bootstrapToken != ""
    }
  }

  const NO_NODE := Node("", "", "", "", "")

  const NO_RELEASE := Release("", "", "")

  function Fresh(version: string): State {
    State(0, version, "", NO_NODE, NO_RELEASE, NoDigest, 0, 0, Preflight, [], "", "")
  }

  method HasCompleted(state: State, step: Step) returns (found: bool)
    ensures found <==> step in state.completedSteps
  {
    for i := 0 to |state.completedSteps|
      invariant step !in state.completedSteps[..i]
    {
      if state.completedSteps[i] == step {
        return true;
      }
    }
    return false;
  }

  /** Records a step once, and always as the latest one. */
  method CompleteStep(state: State, step: Step) returns (after: State)
    ensures after == state.Completed(step)
    ensures after.step == step && step in after.completedSteps
    ensures state.completedSteps <= after.completedSteps
    ensures multiset(after.completedSteps)[step] ==
      if step in state.completedSteps then multiset(state.completedSteps)[step] else 1
  {
    for i := 0 to |state.completedSteps|
      invariant step !in state.completedSteps[..i]
    {
      if state.completedSteps[i] == step {
        return state.(step := step);
      }
    }
    return state.(completedSteps := state.completedSteps + [step], step := step);
  }

  // ---- what the outside world supplies ---------------------------------

  datatype Host = Host(memoryBytes: nat, diskBytes: nat, architecture: string)

  /** The dashboard's answer to a claimed enrollment. */
  datatype Grant = Grant(
    enrollmentID: string, bootstrapToken: string, node: Node, agent: Release, mode: string, token: string)
  {
    /** Bearer authentication with a token of at least 32 characters. */
    predicate Usable() {
      mode == "bearer" && |token| >= 32
    }
  }

  datatype AgentConfig = AgentConfig(
    nodeID: string, nodeName: string, fqdn: string, panelDomainSuffix: string, tokenSHA256: Digest)

  datatype Report = Report(
    agentIdentity: string, agentVersion: string, protocolVersion: string,
    memoryBytes: nat, diskBytes: nat, validations: seq<V.Check>)

  // ---- events ----------------------------------------------------------

  datatype Event =
    | Started(version: string, host: Host, skipFirewall: bool)
    | Approved(grant: Grant)
    | Saved(state: State)
    | Progress(enrollmentID: string, stage: Step, percent: nat)
    | StageRun(stage: Step, input: string)
    | Fetched(url: string)
    | Installed(agentVersion: string, protocolVersion: string)
    | AgentConfigured(config: AgentConfig)
    | FirewallApplied
    | AgentEnabled
    | Validated(checks: seq<V.Check>)
    | CompletionSent(enrollmentID: string, token: string, key: string, report: Report)
    | Acknowledged
    | Stopped

  /** How far the running process has come. */
  datatype Phase =
    | Booted | Enrolling | Claimed(grant: Grant)
    | Provisioning | Announced | Ran
    | Downloaded | Replaced | Configured | Protected | Enabled | Checked | Keyed | Sent | Answered | Finished

  datatype Process = Down | Up(memory: State, phase: Phase, skipFirewall: bool)

  datatype Control = Control(disk: Option<State>, process: Process)

  const INITIAL := Control(None, Down)

  // ---- the states a run computes ---------------------------------------

  /** `current` after loading the state file and probing the host. */
  function Boot(disk: Option<State>, version: string, host: Host): State {
    var loaded := if disk.None? then Fresh(version) else disk.value;
    loaded.(memoryBytes := host.memoryBytes, diskBytes := host.diskBytes)
  }

  /** `current` after an approval has been copied into it. */
  function Claim(s: State, g: Grant): State {
    s.(enrollmentID := g.enrollmentID, node := g.node, agent := g.agent,
       agentTokenSHA256 := Sha256(g.token), bootstrapToken := g.bootstrapToken).Completed(WaitingForClaim)
  }

  /** The first stage that the loop has not skipped. */
  function NextStage(s: State): Option<Step> {
    StageFrom(s, 0)
  }

  function StageFrom(s: State, i: nat): (r: Option<Step>)
    requires i <= |STAGES|
    ensures r.Some? ==> r.value in STAGES && r.value !in s.completedSteps
    ensures r.None? ==> forall j | i <= j < |STAGES| :: STAGES[j] in s.completedSteps
    decreases |STAGES| - i
  {
    if i == |STAGES| then None
    else if STAGES[i] in s.completedSteps then StageFrom(s, i + 1)
    else Some(STAGES[i])
  }

  function Percent(stage: Step): nat {
    match stage
    case Packages => 12
    case Docker => 24
    case PostgreSQL => 36
    case Traefik => 48
    case _ => 0
  }

  /** What a stage's action reads from the approval. */
  function StageInput(s: State, stage: Step): string {
    if stage == Traefik then s.node.fqdn else ""
  }

  function ConfigOf(s: State): AgentConfig {
    AgentConfig(s.node.id, s.node.name, s.node.fqdn, s.node.panelDomainSuffix, s.agentTokenSHA256)
  }

  /** `current` after firewall, agent service and validation. */
  function Verified(s: State): State {
    s.Completed(Firewall).Completed(Agent).Completed(Validation)
  }

  function ReportOf(s: State): Report {
    Report(s.node.id, s.agent.version, s.agent.protocolVersion, s.memoryBytes, s.diskBytes, V.ALL_OK)
  }

  /** `current` after the secrets are cleared. */
  function Finish(s: State): State {
    s.(bootstrapToken := "", agentTokenSHA256 := NoDigest, completionRequestKey := "").Completed(Complete)
  }

  // ---- the acceptor ----------------------------------------------------

  function Next(c: Control, e: Event): Option<Control> {
    if e.Started? then
      if c.process.Down? then Some(Control(c.disk, Up(Boot(c.disk, e.version, e.host), Booted, e.skipFirewall)))
      else None
    else if c.process.Down? then None
    else if e.Stopped? then Some(Control(c.disk, Down))
    else if e.Saved? then
      match Save(c.process, e.state)
      case Some(p) => Some(Control(Some(e.state), p))
      case None => None
    else
      match Act(c.process, e)
      case Some(p) => Some(Control(c.disk, p))
      case None => None
  }

  /** The save points. */
  function Save(p: Process, s: State): Option<Process>
    requires p.Up?
  {
    match p.phase
    case Booted =>
      var m := p.memory.Completed(Preflight);
      if s != m.Stamped() then None
      else Some(Up(m, if m.Resumable() then Provisioning else Enrolling, p.skipFirewall))
    case Claimed(g) =>
      var m := Claim(p.memory, g);
      if s != m.Stamped() || !g.Usable() then None else Some(Up(m, Provisioning, p.skipFirewall))
    case Ran =>
      if NextStage(p.memory).None? then None
      else
        var m := p.memory.Completed(NextStage(p.memory).value);
        if s != m.Stamped() then None else Some(Up(m, Provisioning, p.skipFirewall))
    case Checked =>
      var m := p.memory.(completionRequestKey := s.completionRequestKey);
      if p.memory.completionRequestKey != "" || m.completionRequestKey == "" || s != m.Stamped() then None
      else Some(Up(m, Keyed, p.skipFirewall))
    case Answered =>
      var m := Finish(p.memory);
      if s != m.Stamped() then None else Some(Up(m, Finished, p.skipFirewall))
    case _ => None
  }

  /** The effects between save points. */
  function Act(p: Process, e: Event): Option<Process>
    requires p.Up?
  {
    var m := p.memory;
    match e
    case Approved(g) =>
      if p.phase == Enrolling then Some(p.(phase := Claimed(g))) else None
    case Progress(id, stage, percent) =>
      if p.phase == Provisioning && NextStage(m) == Some(stage) && id == m.enrollmentID && percent == Percent(stage)
      then Some(p.(phase := Announced)) else None
    case StageRun(stage, input) =>
      if (p.phase == Provisioning || p.phase == Announced)
         && NextStage(m) == Some(stage) && input == StageInput(m, stage)
      then Some(p.(phase := Ran)) else None
    case Fetched(url) =>
      if p.phase == Provisioning && NextStage(m).None? && url == m.agent.manifestURL
      then Some(p.(phase := Downloaded)) else None
    case Installed(version, protocol) =>
      if p.phase == Downloaded && version == m.agent.version && protocol == m.agent.protocolVersion
      then Some(p.(phase := Replaced)) else None
    case AgentConfigured(config) =>
      if p.phase == Replaced && config == ConfigOf(m) then Some(p.(phase := Configured)) else None
    case FirewallApplied =>
      if p.phase == Configured && !p.skipFirewall then Some(p.(phase := Protected)) else None
    case AgentEnabled =>
      if p.phase == Protected || (p.phase == Configured && p.skipFirewall) then Some(p.(phase := Enabled)) else None
    case Validated(checks) =>
      if p.phase == Enabled && checks == V.ALL_OK then Some(Up(Verified(m), Checked, p.skipFirewall)) else None
    case CompletionSent(id, token, key, report) =>
      if (p.phase == Keyed || (p.phase == Checked && m.completionRequestKey != ""))
         && id == m.enrollmentID && token == m.bootstrapToken && key == m.completionRequestKey && report == ReportOf(m)
      then Some(p.(phase := Sent)) else None
    case Acknowledged =>
      if p.phase == Sent then Some(p.(phase := Answered)) else None
    case _ => None
  }

  // ---- behaviours ------------------------------------------------------

  /** A log together with where the node stands before, between and after its events. */
  datatype Behaviour = Behaviour(log: seq<Event>, states: seq<Control>)
  {
    predicate Shaped() {
      |states| == |log| + 1
    }

    predicate StepAt(i: nat)
      requires Shaped() && i < |log|
    {
      Next(states[i], log[i]) == Some(states[i + 1])
    }

    /** Only allowed events, starting from a host on which the installer never ran. */
    predicate Legal() {
      Shaped() && states[0] == INITIAL && forall i: nat | i < |log| :: StepAt(i)
    }

    /** Where the node stands now. */
    function Now(): Control
      requires Shaped()
    {
      states[|log|]
    }

    function Extend(e: Event): Behaviour
      requires Shaped() && Next(Now(), e).Some?
    {
      Behaviour(log + [e], states + [Next(Now(), e).value])
    }
  }

  const NOTHING_YET := Behaviour([], [INITIAL])

  lemma ExtendIsLegal(b: Behaviour, e: Event)
    requires b.Legal() && Next(b.Now(), e).Some?
    ensures b.Extend(e).Legal()
  {
    var after := b.Extend(e);
    forall i: nat | i < |after.log|
      ensures after.StepAt(i)
    {
      assert i < |b.log| ==> b.StepAt(i);
    }
  }

  /** A log has one behaviour: disk, process and dashboard are functions of what took effect. */
  lemma {:induction false} LogDeterminesStates(a: Behaviour, b: Behaviour, j: nat)
    requires a.Legal() && b.Legal() && a.log == b.log && j <= |a.log|
    ensures a.states[j] == b.states[j]
  {
    if j > 0 {
      LogDeterminesStates(a, b, j - 1);
      assert a.StepAt(j - 1) && b.StepAt(j - 1);
    }
  }
}
