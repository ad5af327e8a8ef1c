/** internal/cli: `install` and `provision`, statement by statement, against a host on which every
    effect may succeed, fail, or be the point where the process dies. Each effect that succeeds, or
    fails after having taken effect, appends its event to the history; the methods are proved to
    produce legal behaviours of the protocol only. */
module Installer {
  import opened Wrappers
  import opened Protocol
  import opened ProtocolSafety
  import opened ProtocolResume
  import Versions
  import Validation

  /** What becomes of one effect. An error is reported to the installer, a crash ends the process;
      either may come after the effect itself took place. */
  datatype Answer = Done | Error(applied: bool) | Crash(applied: bool)

  datatype Manifest = Manifest(
    version: string, protocolVersion: string, minimumInstallerVersion: string, architectures: set<string>)

  datatype TokenSource = Unreadable | TokenGiven | NoToken

  /** One invocation: its configuration, what the outside world would hand out when asked, and
      what becomes of the n-th effect ever attempted on the host. */
  datatype Input = Input(
    version: string, host: Option<Host>, dryRun: bool, skipFirewall: bool, nonInteractive: bool,
    tokenSource: TokenSource, grant: Grant, manifest: Manifest, randomKey: string, answer: nat -> Answer)

  ghost predicate AllDone(input: Input) {
    forall n :: input.answer(n).Done?
  }

  /** A token, or an operator who can confirm the device code. */
  predicate CanEnroll(input: Input) {
    input.tokenSource.TokenGiven? || (input.tokenSource.NoToken? && !input.nonInteractive)
  }

  /** Nothing fails, and the configuration and the manifest fit what this run has to do. */
  ghost predicate Fits(input: Input, current: State) {
    && AllDone(input)
    && if current.Resumable() then
         FitsManifest(input, current.agent) && current.agentTokenSHA256.Sha256?
       else
         CanEnroll(input) && input.grant.Usable() && FitsManifest(input, input.grant.agent)
  }

  ghost predicate Healthy(input: Input, disk: Option<State>) {
    && input.host.Some? && !input.dryRun
    && Fits(input, if disk.Some? then disk.value else Fresh(input.version))
  }

  predicate FitsManifest(input: Input, release: Release) {
    && Versions.Accepts(input.manifest.minimumInstallerVersion, input.version)
    && NamesRelease(input, release)
    && input.host.Some? && input.host.value.architecture in input.manifest.architectures
  }

  /** What a run keeps from the approval and the host probe on. */
  predicate SameSubject(a: State, b: State) {
    && a.node == b.node && a.agent == b.agent && a.agentTokenSHA256 == b.agentTokenSHA256
    && a.memoryBytes == b.memoryBytes && a.diskBytes == b.diskBytes
  }

  predicate OnHost(input: Input, current: State) {
    && input.host.Some?
    && current.memoryBytes == input.host.value.memoryBytes && current.diskBytes == input.host.value.diskBytes
  }

  /** The manifest is about the release that the approval names. */
  predicate NamesRelease(input: Input, release: Release) {
    input.manifest.version == release.version && input.manifest.protocolVersion == release.protocolVersion
  }

  method CheckManifest(input: Input, release: Release) returns (ok: bool)
    requires input.host.Some?
    ensures ok <==> FitsManifest(input, release)
  {
    var manifest := input.manifest;
    var verdict := Versions.CheckInstallerCompatibility(manifest.minimumInstallerVersion, input.version);
    if !verdict.Accepted? {
      return false;
    }
    if manifest.version != release.version || manifest.protocolVersion != release.protocolVersion {
      return false;
    }
    return input.host.value.architecture in manifest.architectures;
  }

  lemma NextStageAt(s: State, i: nat)
    requires i <= |STAGES| && forall j | 0 <= j < i :: STAGES[j] in s.completedSteps
    ensures NextStage(s) == StageFrom(s, i)
    decreases i
  {
    if i > 0 {
      NextStageAt(s, i - 1);
    }
  }

  class Machine {
    var disk: Option<State>
    var networks: set<string>
    var asked: nat
    ghost var history: Behaviour

    ghost predicate Valid()
      reads this
    {
      history.Legal() && history.Now().disk == disk
    }

    ghost function Process(): Process
      requires Valid()
      reads this
    {
      history.Now().process
    }

    /** The process runs, with `current` as its recorded state, in this phase. */
    ghost predicate At(current: State, phase: Phase, skipFirewall: bool)
      reads this
    {
      Valid() && Process() == Up(current, phase, skipFirewall)
    }

    constructor ()
      ensures Valid() && history == NOTHING_YET
    {
      disk, networks, asked, history := None, {}, 0, NOTHING_YET;
    }

    ghost method Emit(e: Event)
      requires Valid() && Next(history.Now(), e).Some? && !e.Saved?
      modifies this`history
      ensures Valid() && history == old(history).Extend(e)
      ensures Next(old(history.Now()), e) == Some(history.Now())
    {
      ExtendIsLegal(history, e);
      history := history.Extend(e);
    }

    method Ask(input: Input) returns (a: Answer)
      modifies this`asked
      ensures a == input.answer(old(asked)) && asked == old(asked) + 1
    {
      a := input.answer(asked);
      asked := asked + 1;
    }

    /** An effect that the protocol does not record. */
    method Command(input: Input) returns (ok: bool)
      modifies this`asked
      ensures (ok <==> input.answer(old(asked)).Done?) && asked == old(asked) + 1
    {
      var a := Ask(input);
      ok := a.Done?;
    }

    /** An effect that does leave a trace, on the host or on the dashboard. */
    method Effect(input: Input, ghost e: Event) returns (ok: bool)
      requires Valid() && Next(history.Now(), e).Some? && !e.Saved?
      modifies this`asked, this`history
      ensures Valid() && (history == old(history) || history == old(history).Extend(e))
      ensures ok ==> Next(old(history.Now()), e) == Some(history.Now())
      ensures (ok <==> input.answer(old(asked)).Done?) && asked == old(asked) + 1
    {
      var a := Ask(input);
      if a.Done? || a.applied {
        Emit(e);
      }
      ok := a.Done?;
    }

    /** `Store.Save`, as the atomic register that the state store is. */
    method Save(input: Input, current: State) returns (ok: bool)
      requires Valid() && Next(history.Now(), Saved(current.Stamped())).Some?
      modifies this
      ensures Valid() && networks == old(networks)
      ensures history == old(history) || history == old(history).Extend(Saved(current.Stamped()))
      ensures ok ==> disk == Some(current.Stamped())
      ensures ok ==> Next(old(history.Now()), Saved(current.Stamped())) == Some(history.Now())
      ensures (ok <==> input.answer(old(asked)).Done?) && asked == old(asked) + 1
    {
      var a := Ask(input);
      if a.Done? || a.applied {
        ghost var e := Saved(current.Stamped());
        ExtendIsLegal(history, e);
        SaveStep(history.Now(), e);
        history := history.Extend(e);
        disk := Some(current.Stamped());
      }
      ok := a.Done?;
    }

    /** A series of `n` commands, each of which has to succeed. */
    method Commands(input: Input, n: nat) returns (ok: bool)
      modifies this`asked
      ensures ok <==> forall i | old(asked) <= i < old(asked) + n :: input.answer(i).Done?
      ensures ok ==> asked == old(asked) + n
    {
      for i := 0 to n
        invariant asked == old(asked) + i
        invariant forall j | old(asked) <= j < old(asked) + i :: input.answer(j).Done?
      {
        ok := Command(input);
        if !ok {
          return;
        }
      }
      ok := true;
    }

    method Install(input: Input) returns (ok: bool)
      requires Valid() && Process().Down? && input.randomKey != ""
      modifies this
      ensures Valid() && old(history.log) <= history.log
      ensures ok && !input.dryRun ==> Process().Up? && Process().phase.Finished?
      ensures input.dryRun ==> disk == old(disk)
      ensures Healthy(input, old(disk)) ==> ok
    {
      ok := Command(input);
      if !ok {
        return;
      }
      var current := if disk.Some? then disk.value else Fresh(input.version);
      ok := Command(input);
      if !ok || input.host.None? {
        return false;
      }
      var host := input.host.value;
      current := current.(memoryBytes := host.memoryBytes, diskBytes := host.diskBytes);
      Emit(Started(input.version, host, input.skipFirewall));
      if input.dryRun {
        return true;
      }
      ok := Reconcile(input, current);
    }

    /** `install` from `installSelf` on. */
    method Reconcile(input: Input, start: State) returns (ok: bool)
      requires At(start, Booted, input.skipFirewall)
      requires input.randomKey != "" && OnHost(input, start)
      modifies this
      ensures Valid() && old(history.log) <= history.log
      ensures ok ==> Process().Up? && Process().phase.Finished?
      ensures Fits(input, start) ==> ok
    {
      var current := start;
      ok, current := RecordPreflight(input, current);
      if !ok {
        return;
      }
      var approved;
      if current.enrollmentID == "" || current.bootstrapToken == "" {
        ok, approved := ObtainApproval(input, current);
        if !ok {
          return;
        }
        ok, current := Claim(input, current, approved);
        if !ok {
          return;
        }
        ok := Provision(input, current, approved);
        return;
      }
      approved := Grant(current.enrollmentID, current.bootstrapToken, current.node, current.agent, "bearer", "");
      ok := Provision(input, current, approved);
    }

    method RecordPreflight(input: Input, start: State) returns (ok: bool, current: State)
      requires At(start, Booted, input.skipFirewall)
      modifies this
      ensures Valid() && old(history.log) <= history.log
      ensures ok ==> current == start.Completed(Preflight)
      ensures ok ==> At(current, if current.Resumable() then Provisioning else Enrolling, input.skipFirewall)
      ensures AllDone(input) ==> ok
    {
      current := start;
      ok := Command(input);
      if !ok {
        return;
      }
      current := CompleteStep(current, Preflight);
      ok := Save(input, current);
    }

    /** Automatic enrollment with a token, or the device flow. */
    method ObtainApproval(input: Input, current: State) returns (ok: bool, approved: Grant)
      requires At(current, Enrolling, input.skipFirewall)
      modifies this
      ensures Valid() && old(history.log) <= history.log
      ensures approved == input.grant
      ensures ok ==> At(current, Claimed(approved), input.skipFirewall)
      ensures ok ==> !input.tokenSource.Unreadable? && (input.nonInteractive ==> input.tokenSource.TokenGiven?)
      ensures AllDone(input) && CanEnroll(input) ==> ok
    {
      approved := input.grant;
      if input.tokenSource.Unreadable? {
        return false, approved;
      }
      if input.tokenSource.NoToken? {
        if input.nonInteractive {
          return false, approved;
        }
        ok := Command(input);
        if !ok {
          return;
        }
      }
      ok := Effect(input, Approved(approved));
    }

    method Claim(input: Input, start: State, approved: Grant) returns (ok: bool, current: State)
      requires At(start, Claimed(approved), input.skipFirewall)
      modifies this
      ensures Valid() && old(history.log) <= history.log
      ensures ok ==> At(current, Provisioning, input.skipFirewall)
      ensures ok ==>
        current.node == approved.node && current.agent == approved.agent && current.agentTokenSHA256.Sha256?
      ensures current.memoryBytes == start.memoryBytes && current.diskBytes == start.diskBytes
      ensures AllDone(input) && approved.Usable() ==> ok
    {
      current := start.(enrollmentID := approved.enrollmentID, node := approved.node, agent := approved.agent);
      if approved.mode != "bearer" || |approved.token| < 32 {
        return false, current;
      }
      current := current.(agentTokenSHA256 := Sha256(approved.token), bootstrapToken := approved.bootstrapToken);
      current := CompleteStep(current, WaitingForClaim);
      ok := Save(input, current);
    }

    /** `approved` is read for the node and the release only; it holds the same ones as `start`. */
    method Provision(input: Input, start: State, approved: Grant) returns (ok: bool)
      requires At(start, Provisioning, input.skipFirewall)
      requires input.randomKey != "" && OnHost(input, start)
      requires approved.node == start.node && approved.agent == start.agent
      modifies this
      ensures Valid() && old(history.log) <= history.log
      ensures ok ==> Process().Up? && Process().phase.Finished?
      ensures AllDone(input) && FitsManifest(input, start.agent) && start.agentTokenSHA256.Sha256? ==> ok
    {
      var current := start;
      ok, current := RunStages(input, start, approved);
      if !ok {
        return;
      }
      ok := ReplaceBinary(input, current, approved);
      if !ok {
        return;
      }
      ok := ConfigureAgent(input, current, approved);
      if !ok {
        return;
      }
      ok := BringUp(input, current);
    }

    /** From the firewall to the end. */
    method BringUp(input: Input, start: State) returns (ok: bool)
      requires At(start, Configured, input.skipFirewall) && input.randomKey != ""
      requires OnHost(input, start) && NamesRelease(input, start.agent)
      modifies this
      ensures Valid() && old(history.log) <= history.log
      ensures ok ==> Process().Up? && Process().phase.Finished?
      ensures AllDone(input) ==> ok
    {
      var current := start;
      ok := Protect(input, current);
      if !ok {
        return;
      }
      current := CompleteStep(current, Firewall);
      ok := Enable(input, start);
      if !ok {
        return;
      }
      current := CompleteStep(current, Agent);
      ok := ValidateAndSend(input, current, start);
    }

    method ValidateAndSend(input: Input, start: State, ghost recorded: State) returns (ok: bool)
      requires At(recorded, Enabled, input.skipFirewall) && start == recorded.Completed(Firewall).Completed(Agent)
      requires input.randomKey != "" && OnHost(input, start) && NamesRelease(input, start.agent)
      modifies this
      ensures Valid() && old(history.log) <= history.log
      ensures ok ==> Process().Up? && Process().phase.Finished?
      ensures AllDone(input) ==> ok
    {
      var current, checks;
      ok, current, checks := Validate(input, start, recorded);
      if ok {
        ok := SendCompletion(input, current, checks);
      }
    }

    /** The loop over the four stages. */
    method RunStages(input: Input, start: State, approved: Grant) returns (ok: bool, current: State)
      requires At(start, Provisioning, input.skipFirewall) && approved.node == start.node
      modifies this
      ensures Valid() && old(history.log) <= history.log
      ensures ok ==> At(current, Provisioning, input.skipFirewall) && NextStage(current).None?
      ensures SameSubject(start, current)
      ensures AllDone(input) ==> ok
    {
      current := start;
      for index := 0 to |STAGES|
        invariant At(current, Provisioning, input.skipFirewall) && old(history.log) <= history.log
        invariant forall j | 0 <= j < index :: STAGES[j] in current.completedSteps
        invariant SameSubject(start, current)
      {
        var done := HasCompleted(current, STAGES[index]);
        if !done {
          NextStageAt(current, index);
          ok, current := RunStage(input, current, approved, STAGES[index], Percent(STAGES[index]));
          if !ok {
            return;
          }
        }
      }
      NextStageAt(current, |STAGES|);
      ok := true;
    }

    method RunStage(input: Input, start: State, approved: Grant, stage: Step, percent: nat)
      returns (ok: bool, current: State)
      requires At(start, Provisioning, input.skipFirewall) && approved.node == start.node
      requires NextStage(start) == Some(stage) && percent == Percent(stage)
      modifies this
      ensures Valid() && old(history.log) <= history.log
      ensures SameSubject(start, current)
      ensures ok ==> current == start.Completed(stage) && At(current, Provisioning, input.skipFirewall)
      ensures AllDone(input) ==> ok
    {
      current := start;
      ok := Announce(input, current, stage, percent);
      if !ok {
        return;
      }
      ok := Execute(input, current, approved, stage);
      if !ok {
        return;
      }
      current := CompleteStep(current, stage);
      ok := Save(input, current);
    }

    method Execute(input: Input, current: State, approved: Grant, stage: Step) returns (ok: bool)
      requires At(current, Provisioning, input.skipFirewall) || At(current, Announced, input.skipFirewall)
      requires NextStage(current) == Some(stage) && approved.node == current.node
      modifies this
      ensures Valid() && old(history.log) <= history.log
      ensures ok ==> At(current, Ran, input.skipFirewall)
      ensures AllDone(input) ==> ok
    {
      ok := Effect(input, StageRun(stage, if stage == Traefik then approved.node.fqdn else ""));
    }

    /** A progress report: its failure is ignored, but the process may die in it. */
    method Announce(input: Input, current: State, stage: Step, percent: nat) returns (alive: bool)
      requires At(current, Provisioning, input.skipFirewall)
      requires NextStage(current) == Some(stage) && percent == Percent(stage)
      modifies this`asked, this`history
      ensures Valid() && old(history.log) <= history.log
      ensures At(current, Provisioning, input.skipFirewall) || At(current, Announced, input.skipFirewall)
      // Only a crash ends the run; a report that fails does not.
      ensures (alive <==> !input.answer(old(asked)).Crash?) && asked == old(asked) + 1
    {
      var a := Ask(input);
      if a.Done? || a.applied {
        Emit(Progress(current.enrollmentID, stage, percent));
      }
      alive := !a.Crash?;
    }

    /** From the release public key to the replaced binary. */
    method ReplaceBinary(input: Input, current: State, approved: Grant) returns (ok: bool)
      requires At(current, Provisioning, input.skipFirewall) && NextStage(current).None?
      requires input.host.Some? && approved.agent == current.agent
      modifies this
      ensures Valid() && old(history.log) <= history.log
      ensures ok ==> At(current, Replaced, input.skipFirewall) && FitsManifest(input, current.agent)
      ensures AllDone(input) && FitsManifest(input, current.agent) ==> ok
    {
      ok := FetchManifest(input, current, approved);
      if !ok {
        return;
      }
      ok := CheckManifest(input, approved.agent);
      if !ok {
        return;
      }
      ok := InstallAsset(input, current);
    }

    method FetchManifest(input: Input, current: State, approved: Grant) returns (ok: bool)
      requires At(current, Provisioning, input.skipFirewall) && NextStage(current).None?
      requires approved.agent == current.agent
      modifies this`asked, this`history
      ensures Valid() && old(history.log) <= history.log
      ensures ok ==> At(current, Downloaded, input.skipFirewall)
      ensures AllDone(input) ==> ok
    {
      ok := Command(input);
      if ok {
        ok := Effect(input, Fetched(approved.agent.manifestURL));
      }
    }

    method InstallAsset(input: Input, current: State) returns (ok: bool)
      requires At(current, Downloaded, input.skipFirewall) && NamesRelease(input, current.agent)
      modifies this`asked, this`history
      ensures Valid() && old(history.log) <= history.log
      ensures ok ==> At(current, Replaced, input.skipFirewall)
      ensures AllDone(input) ==> ok
    {
      ok := Effect(input, Installed(input.manifest.version, input.manifest.protocolVersion));
    }

    /** `id` or, when it fails, `useradd`. */
    method EnsureUser(input: Input) returns (ok: bool)
      modifies this`asked
      ensures ok <==>
        || input.answer(old(asked)).Done?
        || (input.answer(old(asked)).Error? && input.answer(old(asked) + 1).Done?)
      ensures asked == old(asked) + if input.answer(old(asked)).Error? then 2 else 1
    {
      var a := Ask(input);
      if a.Error? {
        ok := Command(input);
      } else {
        ok := a.Done?;
      }
    }

    /** From the agent's system user to `systemctl daemon-reload`. */
    method ConfigureAgent(input: Input, current: State, approved: Grant) returns (ok: bool)
      requires At(current, Replaced, input.skipFirewall) && approved.node == current.node
      modifies this
      ensures Valid() && old(history.log) <= history.log
      ensures ok ==> At(current, Configured, input.skipFirewall) && current.agentTokenSHA256.Sha256?
      // User, gateway, configuration, and six commands: each of them has to succeed.
      ensures ok ==> asked >= old(asked) + 9 && forall i | asked - 8 <= i < asked :: input.answer(i).Done?
      ensures AllDone(input) && current.agentTokenSHA256.Sha256? ==> ok
    {
      ok := EnsureUser(input);
      if !ok {
        return;
      }
      ok := Command(input);
      if !ok || current.agentTokenSHA256.NoDigest? {
        return false;
      }
      ok := Effect(input, AgentConfigured(AgentConfig(
        current.node.id, approved.node.name, approved.node.fqdn, approved.node.panelDomainSuffix,
        current.agentTokenSHA256)));
      if !ok {
        return;
      }
      ok := Commands(input, 6);
    }

    /** The firewall, unless it is skipped. */
    method Protect(input: Input, current: State) returns (ok: bool)
      requires At(current, Configured, input.skipFirewall)
      modifies this
      ensures Valid() && old(history.log) <= history.log
      ensures ok ==> At(current, if input.skipFirewall then Configured else Protected, input.skipFirewall)
      // Port, backend, network, plan and apply: each of them has to succeed.
      ensures ok ==> asked == old(asked) + if input.skipFirewall then 0 else 5
      ensures ok ==> forall i | old(asked) <= i < asked :: input.answer(i).Done?
      ensures AllDone(input) ==> ok
    {
      ok := true;
      if !input.skipFirewall {
        ok := Commands(input, 4);
        if !ok {
          return;
        }
        ok := Effect(input, FirewallApplied);
      }
    }

    method Enable(input: Input, ghost recorded: State) returns (ok: bool)
      requires At(recorded, if input.skipFirewall then Configured else Protected, input.skipFirewall)
      modifies this
      ensures Valid() && old(history.log) <= history.log
      ensures ok ==> At(recorded, Enabled, input.skipFirewall)
      ensures AllDone(input) ==> ok
    {
      ok := Effect(input, AgentEnabled);
    }

    /** `recorded` is what the history holds: firewall and agent are complete in memory only. */
    method Validate(input: Input, start: State, ghost recorded: State)
      returns (ok: bool, current: State, checks: seq<Validation.Check>)
      requires At(recorded, Enabled, input.skipFirewall) && start == recorded.Completed(Firewall).Completed(Agent)
      modifies this
      ensures Valid() && old(history.log) <= history.log
      ensures ok ==> At(current, Checked, input.skipFirewall)
      ensures ok ==> checks == Validation.ALL_OK && Validation.NETWORK !in networks
      ensures SameSubject(start, current)
      ensures AllDone(input) ==> ok
    {
      current := start;
      var first := asked;
      checks, ok, networks := Validation.RunFinal(networks, (i: nat) => input.answer(first + i).Done?);
      asked := asked + 9;
      if !ok {
        return;
      }
      Emit(Validated(checks));
      current := CompleteStep(current, Step.Validation);
    }

    /** From the idempotency key to the final save. */
    method SendCompletion(input: Input, start: State, checks: seq<Validation.Check>) returns (ok: bool)
      requires At(start, Checked, input.skipFirewall) && input.randomKey != ""
      requires OnHost(input, start) && NamesRelease(input, start.agent) && checks == Validation.ALL_OK
      modifies this
      ensures Valid() && old(history.log) <= history.log
      ensures ok ==> Process().Up? && Process().phase.Finished?
      ensures AllDone(input) ==> ok
    {
      var current := start;
      if current.completionRequestKey == "" {
        ok, current := PersistKey(input, current);
        if !ok {
          return;
        }
      }
      ok := RequestCompletion(input, current, checks);
      if !ok {
        return;
      }
      ok := Finalize(input, current);
    }

    method PersistKey(input: Input, start: State) returns (ok: bool, current: State)
      requires At(start, Checked, input.skipFirewall) && input.randomKey != "" && start.completionRequestKey == ""
      modifies this
      ensures Valid() && old(history.log) <= history.log
      ensures ok ==> At(current, Keyed, input.skipFirewall)
      ensures SameSubject(start, current)
      ensures AllDone(input) ==> ok
    {
      current := start.(completionRequestKey := input.randomKey);
      ok := Command(input);
      if ok {
        ok := Save(input, current);
      }
    }

    method Finalize(input: Input, start: State) returns (ok: bool)
      requires At(start, Answered, input.skipFirewall)
      modifies this
      ensures Valid() && old(history.log) <= history.log
      ensures ok ==> Process().Up? && Process().phase.Finished?
      ensures AllDone(input) ==> ok
    {
      var current := start.(bootstrapToken := "", agentTokenSHA256 := NoDigest, completionRequestKey := "");
      current := CompleteStep(current, Complete);
      ok := Save(input, current);
    }

    /** The request reaches the dashboard, and then its answer reaches the installer. */
    method RequestCompletion(input: Input, current: State, checks: seq<Validation.Check>) returns (ok: bool)
      requires At(current, Keyed, input.skipFirewall)
        || (At(current, Checked, input.skipFirewall) && current.completionRequestKey != "")
      requires OnHost(input, current) && NamesRelease(input, current.agent) && checks == Validation.ALL_OK
      modifies this`asked, this`history
      ensures Valid() && old(history.log) <= history.log
      ensures ok ==> At(current, Answered, input.skipFirewall)
      ensures AllDone(input) ==> ok
    {
      ok := Effect(input, CompletionSent(current.enrollmentID, current.bootstrapToken, current.completionRequestKey,
        Report(current.node.id, input.manifest.version, input.manifest.protocolVersion,
          input.host.value.memoryBytes, input.host.value.diskBytes, checks)));
      if !ok {
        return;
      }
      ok := Effect(input, Acknowledged);
    }

    /** One invocation, to the end of its process. */
    method Invoke(input: Input) returns (ok: bool)
      requires Valid() && Process().Down? && input.randomKey != ""
      modifies this
      ensures Valid() && Process().Down? && old(history.log) <= history.log
      ensures ok && !input.dryRun ==> disk.Some? && disk.value.completedSteps == ORDER && WithoutSecrets(disk.value)
      ensures Healthy(input, old(disk)) ==> ok
    {
      ok := Install(input);
      ReachableIsSound(history, |history.log|);
      if !history.Now().process.Down? {
        Emit(Stopped);
      }
    }

    /** Any number of invocations, each of which ends as it may: the node's history is a legal one,
        what they wrote to disk is ordered, and the dashboard completes no enrollment twice. */
    method InvokeAll(inputs: seq<Input>)
      requires Valid() && Process().Down? && forall i | 0 <= i < |inputs| :: inputs[i].randomKey != ""
      modifies this
      ensures Valid() && Process().Down? && old(history.log) <= history.log
      ensures disk.Some? ==> WellFormed(disk.value)
      ensures FreshDashboard(history.log) ==>
        forall enrollmentID :: Completions(history.log, |history.log|, enrollmentID) <= 1
    {
      for i := 0 to |inputs|
        invariant Valid() && Process().Down? && old(history.log) <= history.log
      {
        var _ := Invoke(inputs[i]);
      }
      ReachableIsSound(history, |history.log|);
      if FreshDashboard(history.log) {
        forall enrollmentID
          ensures Completions(history.log, |history.log|, enrollmentID) <= 1
        {
          CompletedAtMostOnce(history, |history.log|, enrollmentID);
        }
      }
    }
  }
}
