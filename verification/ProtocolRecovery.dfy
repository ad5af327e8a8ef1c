/** The run in which every effect succeeds, from every state a crash can leave, and the proof that an
    installation finished over many runs ends where that run ends. Whether a stage can succeed on the
    host that earlier runs left is the subject of HostRecovery. */
module ProtocolRecovery {
  import opened Wrappers
  import opened Protocol
  import opened ProtocolSafety
  import opened ProtocolResume
  import V = Validation

  /** What the state file says of a finished installation. */
  function FinalState(version: string, g: Grant, memoryBytes: nat, diskBytes: nat): State {
    State(1, version, g.enrollmentID, g.node, g.agent, NoDigest, memoryBytes, diskBytes, Complete, ORDER, "", "")
  }

  /** The event that follows when nothing fails; `g` and `key` are what the dashboard and
      the random source supply if they are asked. */
  function Continue(p: Process, g: Grant, key: string): Event
    requires p.Up?
  {
    var m := p.memory;
    match p.phase
    case Booted => Saved(m.Completed(Preflight).Stamped())
    case Enrolling => Approved(g)
    case Claimed(h) => Saved(Claim(m, h).Stamped())
    case Provisioning =>
      if NextStage(m).Some? then Progress(m.enrollmentID, NextStage(m).value, Percent(NextStage(m).value))
      else Fetched(m.agent.manifestURL)
    case Announced =>
      if NextStage(m).Some? then StageRun(NextStage(m).value, StageInput(m, NextStage(m).value)) else Stopped
    case Ran => if NextStage(m).Some? then Saved(m.Completed(NextStage(m).value).Stamped()) else Stopped
    case Downloaded => Installed(m.agent.version, m.agent.protocolVersion)
    case Replaced => AgentConfigured(ConfigOf(m))
    case Configured => if p.skipFirewall then AgentEnabled else FirewallApplied
    case Protected => AgentEnabled
    case Enabled => Validated(V.ALL_OK)
    case Checked => if m.completionRequestKey == "" then Saved(m.(completionRequestKey := key).Stamped()) else Send(m)
    case Keyed => Send(m)
    case Sent => Acknowledged
    case Answered => Saved(Finish(m).Stamped())
    case Finished => Stopped
  }

  function Send(m: State): Event {
    CompletionSent(m.enrollmentID, m.bootstrapToken, m.completionRequestKey, ReportOf(m))
  }

  /** The enrollment that the run in progress is going to complete. */
  predicate HeadsFor(c: Control, g: Grant, t: Grant)
    requires c.process.Up?
  {
    var m := c.process.memory;
    match c.process.phase
    case Booted => if m.Resumable() then BelongsTo(m, t) else t == g
    case Enrolling => t == g
    case Claimed(h) => t == h
    case Finished => c.disk == Some(FinalState(m.installerVersion, t, m.memoryBytes, m.diskBytes))
    case _ => BelongsTo(m, t)
  }

  predicate Supplied(g: Grant, key: string) {
    g.Usable() && g.enrollmentID != "" && g.bootstrapToken != "" && key != ""
  }

  /** A run that can go on to the end. */
  predicate Ready(c: Control, g: Grant, key: string, t: Grant) {
    && c.process.Up? && Sound(c) && HeadsFor(c, g, t)
    && Supplied(g, key) && Supplied(t, key)
  }

  function StagesLeft(m: State): nat {
    if |m.completedSteps| >= 6 then 0 else 6 - |m.completedSteps|
  }

  /** How many events are left, at most. */
  function Remaining(p: Process): nat
    requires p.Up?
  {
    match p.phase
    case Booted => 50
    case Enrolling => 49
    case Claimed(_) => 48
    case Provisioning => 20 + 3 * StagesLeft(p.memory)
    case Announced => 19 + 3 * StagesLeft(p.memory)
    case Ran => 18 + 3 * StagesLeft(p.memory)
    case Downloaded => 16
    case Replaced => 15
    case Configured => 14
    case Protected => 13
    case Enabled => 12
    case Checked => 11
    case Keyed => 10
    case Sent => 9
    case Answered => 8
    case Finished => 1
  }

  /** What a run keeps from its start: the version and the probed host. */
  predicate SameRun(m: State, after: State) {
    m.installerVersion == after.installerVersion && m.memoryBytes == after.memoryBytes && m.diskBytes == after.diskBytes
  }

  /** The next event is allowed, and leads on towards the end for the same enrollment. */
  predicate Advances(c: Control, e: Event, g: Grant, t: Grant)
    requires c.process.Up?
  {
    && Next(c, e).Some? && Next(c, e).value.process.Up?
    && HeadsFor(Next(c, e).value, g, t)
    && SameRun(c.process.memory, Next(c, e).value.process.memory)
    && Remaining(Next(c, e).value.process) < Remaining(c.process)
  }

  lemma AdvanceEnrollment(c: Control, g: Grant, key: string, t: Grant)
    requires Ready(c, g, key, t)
    requires c.process.phase.Booted? || c.process.phase.Enrolling? || c.process.phase.Claimed?
    ensures Advances(c, Continue(c.process, g, key), g, t)
  {
  }

  lemma AdvanceStage(c: Control, g: Grant, key: string, t: Grant)
    requires Ready(c, g, key, t)
    requires c.process.phase.Provisioning? || c.process.phase.Announced?
    ensures Advances(c, Continue(c.process, g, key), g, t)
  {
    StagesDone(c.process.memory);
  }

  lemma AdvanceStageSave(c: Control, g: Grant, key: string, t: Grant)
    requires Ready(c, g, key, t) && c.process.phase.Ran?
    ensures Advances(c, Continue(c.process, g, key), g, t)
  {
    StagesDone(c.process.memory);
  }

  lemma AdvanceAgent(c: Control, g: Grant, key: string, t: Grant)
    requires Ready(c, g, key, t)
    requires c.process.phase.Downloaded? || c.process.phase.Replaced? || c.process.phase.Configured?
    ensures Advances(c, Continue(c.process, g, key), g, t)
  {
  }

  lemma AdvanceService(c: Control, g: Grant, key: string, t: Grant)
    requires Ready(c, g, key, t) && (c.process.phase.Protected? || c.process.phase.Enabled?)
    ensures Advances(c, Continue(c.process, g, key), g, t)
  {
  }

  lemma AdvanceKey(c: Control, g: Grant, key: string, t: Grant)
    requires Ready(c, g, key, t) && c.process.phase.Checked?
    ensures Advances(c, Continue(c.process, g, key), g, t)
  {
  }

  lemma AdvanceRequest(c: Control, g: Grant, key: string, t: Grant)
    requires Ready(c, g, key, t) && (c.process.phase.Keyed? || c.process.phase.Sent?)
    ensures Advances(c, Continue(c.process, g, key), g, t)
  {
  }

  lemma AdvanceFinish(c: Control, g: Grant, key: string, t: Grant)
    requires Ready(c, g, key, t) && c.process.phase.Answered?
    ensures Advances(c, Continue(c.process, g, key), g, t)
  {
    VerifiedInOrder(c.disk.value);
    FinishIsFinal(c.process.memory, t);
  }

  lemma FinishIsFinal(m: State, t: Grant)
    requires InOrder(m) && |m.completedSteps| >= 9 && BelongsTo(m, t)
    ensures Finish(m).Stamped() == FinalState(m.installerVersion, t, m.memoryBytes, m.diskBytes)
  {
    CompletedInOrder(m, 9);
    assert Finish(m).completedSteps == ORDER;
  }

  lemma Advance(c: Control, g: Grant, key: string, t: Grant)
    requires Ready(c, g, key, t) && !c.process.phase.Finished?
    ensures Advances(c, Continue(c.process, g, key), g, t)
    ensures Ready(Next(c, Continue(c.process, g, key)).value, g, key, t)
  {
    match c.process.phase {
      case Booted => AdvanceEnrollment(c, g, key, t);
      case Enrolling => AdvanceEnrollment(c, g, key, t);
      case Claimed(_) => AdvanceEnrollment(c, g, key, t);
      case Provisioning => AdvanceStage(c, g, key, t);
      case Announced => AdvanceStage(c, g, key, t);
      case Ran => AdvanceStageSave(c, g, key, t);
      case Protected => AdvanceService(c, g, key, t);
      case Enabled => AdvanceService(c, g, key, t);
      case Checked => AdvanceKey(c, g, key, t);
      case Keyed => AdvanceRequest(c, g, key, t);
      case Sent => AdvanceRequest(c, g, key, t);
      case Answered => AdvanceFinish(c, g, key, t);
      case _ => AdvanceAgent(c, g, key, t);
    }
    AdvanceIsReady(c, Continue(c.process, g, key), g, key, t);
  }

  lemma AdvanceIsReady(c: Control, e: Event, g: Grant, key: string, t: Grant)
    requires Ready(c, g, key, t) && Advances(c, e, g, t)
    ensures Ready(Next(c, e).value, g, key, t)
  {
    SoundStep(c, e);
  }

  lemma Stop(c: Control)
    requires c.process.Up?
    ensures Next(c, Stopped) == Some(Control(c.disk, Down))
  {
  }

  // ---- whole runs ------------------------------------------------------

  /** `b` continued by all the events that a run still produces if every effect, stages included, succeeds. */
  ghost function Finishing(b: Behaviour, g: Grant, key: string, t: Grant): Behaviour
    requires b.Legal() && Ready(b.Now(), g, key, t)
    decreases Remaining(b.Now().process)
  {
    var c := b.Now();
    var e := Continue(c.process, g, key);
    if c.process.phase.Finished? then
      Stop(c);
      b.Extend(Stopped)
    else
      Advance(c, g, key, t);
      ExtendIsLegal(b, e);
      Finishing(b.Extend(e), g, key, t)
  }

  /** Whatever point a run has come to, if every effect from there on succeeds it records the
      installation as finished. */
  lemma {:induction false} FinishingFinishes(b: Behaviour, g: Grant, key: string, t: Grant)
    requires b.Legal() && Ready(b.Now(), g, key, t)
    ensures
      var m := b.Now().process.memory;
      var whole := Finishing(b, g, key, t);
      && whole.Legal() && b.log <= whole.log && b.states <= whole.states
      && whole.Now() == Control(Some(FinalState(m.installerVersion, t, m.memoryBytes, m.diskBytes)), Down)
    decreases Remaining(b.Now().process)
  {
    var c := b.Now();
    var e := Continue(c.process, g, key);
    if c.process.phase.Finished? {
      Stop(c);
      ExtendIsLegal(b, Stopped);
    } else {
      Advance(c, g, key, t);
      ExtendIsLegal(b, e);
      FinishingFinishes(b.Extend(e), g, key, t);
    }
  }

  // ---- crash and resume ------------------------------------------------

  /** A new run, started on what the runs of `b` left behind. */
  function Restart(b: Behaviour, version: string, host: Host, skipFirewall: bool): Behaviour
    requires b.Shaped() && b.Now().process.Down?
  {
    b.Extend(Started(version, host, skipFirewall))
  }

  /** The enrollment that a new run completes: the open one on disk, or a newly approved one. */
  function Target(b: Behaviour, g: Grant): Grant
    requires b.Shaped()
  {
    if b.Now().disk.Some? && b.Now().disk.value.Resumable() && LastGrant(b.log, |b.log|).Some?
    then LastGrant(b.log, |b.log|).value else g
  }

  lemma RestartIsReady(b: Behaviour, version: string, host: Host, skipFirewall: bool, g: Grant, key: string)
    requires b.Legal() && FreshDashboard(b.log) && b.Now().process.Down? && Supplied(g, key)
    ensures Restart(b, version, host, skipFirewall).Legal()
    ensures Ready(Restart(b, version, host, skipFirewall).Now(), g, key, Target(b, g))
  {
    ReachableIsIdentified(b, |b.log|);
    ExtendIsLegal(b, Started(version, host, skipFirewall));
    SoundStep(b.Now(), Started(version, host, skipFirewall));
  }

  /** From every state that failures and crashes can leave behind, one run in which every effect
      succeeds finishes the installation, for the enrollment that is open on disk if there is one. */
  lemma UninterruptedRunFinishes(b: Behaviour, version: string, host: Host, skipFirewall: bool, g: Grant, key: string)
    requires b.Legal() && FreshDashboard(b.log) && b.Now().process.Down? && Supplied(g, key)
    ensures Restart(b, version, host, skipFirewall).Legal()
    ensures Ready(Restart(b, version, host, skipFirewall).Now(), g, key, Target(b, g))
    ensures
      var whole := Finishing(Restart(b, version, host, skipFirewall), g, key, Target(b, g));
      var first := if b.Now().disk.None? then version else b.Now().disk.value.installerVersion;
      && whole.Legal() && b.log <= whole.log && b.states <= whole.states
      && whole.Now() == Control(Some(FinalState(first, Target(b, g), host.memoryBytes, host.diskBytes)), Down)
  {
    RestartIsReady(b, version, host, skipFirewall, g, key);
    FinishingFinishes(Restart(b, version, host, skipFirewall), g, key, Target(b, g));
  }

  lemma CompleteIsSavedLast(c: Control, e: Event, grant: Option<Grant>, run: seq<Event>)
    requires Sound(c) && Identified(c, grant) && Witnessed(c.process, run)
    requires Next(c, e).Some? && e.Saved? && e.state.step == Complete
    ensures grant.Some? && run != [] && run[0].Started?
    ensures e.state == FinalState(e.state.installerVersion, grant.value, run[0].host.memoryBytes, run[0].host.diskBytes)
  {
    SavedCompleteIsAnswered(c, e);
    VerifiedInOrder(c.disk.value);
    FinishIsFinal(c.process.memory, grant.value);
  }

  lemma SavedCompleteIsAnswered(c: Control, e: Event)
    requires Sound(c) && Next(c, e).Some? && e.Saved? && e.state.step == Complete
    ensures c.process.Up? && c.process.phase.Answered?
    ensures e.state == Finish(c.process.memory).Stamped()
  {
    if c.process.Up? && c.process.phase.Ran? {
      StagesDone(c.process.memory);
    } else if c.process.Up? && c.process.phase.Checked? {
      VerifiedInOrder(c.disk.value);
    }
  }

  lemma BootedStep(c: Control, e: Event)
    requires Sound(c) && Next(c, e).Some? && Next(c, e).value.disk.None? && Next(c, e).value.process.Up?
    ensures e.Started? && Next(c, e).value.process.memory.installerVersion == e.version
    ensures Next(c, e).value.process.phase.Booted?
  {
    SoundStep(c, e);
  }

  lemma {:induction false} NoDiskBeforeFirstSave(b: Behaviour, j: nat)
    requires b.Legal() && j <= |b.log| && forall k | 0 <= k < j :: !b.log[k].Saved?
    ensures b.states[j].disk.None?
  {
    if j > 0 {
      NoDiskBeforeFirstSave(b, j - 1);
      assert b.StepAt(j - 1);
      UnsavedStep(b.states[j - 1], b.log[j - 1]);
    }
  }

  lemma FirstSaveStep(c: Control, e: Event)
    requires Next(c, e).Some? && e.Saved?
    ensures c.process.Up? && e.state.installerVersion == c.process.memory.installerVersion
  {
  }

  /** The first file written bears the version of the run that wrote it. */
  lemma FirstSaveFollowsItsStart(b: Behaviour, i: nat)
    requires b.Legal() && i < |b.log| && b.log[i].Saved? && forall k | 0 <= k < i :: !b.log[k].Saved?
    ensures i > 0 && b.log[i - 1].Started? && b.log[i].state.installerVersion == b.log[i - 1].version
  {
    NoDiskBeforeFirstSave(b, i);
    assert b.StepAt(i);
    FirstSaveStep(b.states[i], b.log[i]);
    if i > 0 {
      assert b.StepAt(i - 1);
      ReachableIsSound(b, i - 1);
      BootedStep(b.states[i - 1], b.log[i - 1]);
    }
  }

  /** Crash-resume refinement. Let any sequence of runs, interrupted anywhere, record the
      installation as finished at `j`. Then the file is the one that a single run without a fault
      leaves behind when it starts from an empty host with the first installer's version, is given
      the same approval, and probes the same memory and disk as the finishing run. */
  lemma InterruptedRunsEndLikeOneRun(b: Behaviour, i: nat, j: nat, skipFirewall: bool, key: string)
    requires b.Legal() && FreshDashboard(b.log) && key != ""
    requires i <= j < |b.log| && b.log[i].Saved? && forall k | 0 <= k < i :: !b.log[k].Saved?
    requires b.log[j].Saved? && b.log[j].state.step == Complete
    ensures i > 0 && b.log[i - 1].Started?
    ensures LastGrant(b.log, j).Some? && CurrentRun(b.log, j) != [] && CurrentRun(b.log, j)[0].Started?
    ensures
      var g := LastGrant(b.log, j).value;
      var one := Restart(NOTHING_YET, b.log[i - 1].version, CurrentRun(b.log, j)[0].host, skipFirewall);
      && Ready(one.Now(), g, key, g) && one.Legal() && Finishing(one, g, key, g).Legal()
      && Finishing(one, g, key, g).Now() == Control(Some(b.log[j].state), Down)
  {
    FirstSaveFollowsItsStart(b, i);
    SavedStepsAreOrdered(b, i, j);
    ReachableIsIdentified(b, j);
    PhasesAreWitnessed(b, j);
    assert b.StepAt(j);
    CompleteIsSavedLast(b.states[j], b.log[j], LastGrant(b.log, j), CurrentRun(b.log, j));
    GrantIsSupplied(b, j, key);
    var g := LastGrant(b.log, j).value;
    UninterruptedRunFinishes(NOTHING_YET, b.log[i - 1].version, CurrentRun(b.log, j)[0].host, skipFirewall, g, key);
  }

  lemma GrantIsSupplied(b: Behaviour, j: nat, key: string)
    requires b.Legal() && FreshDashboard(b.log) && key != ""
    requires j < |b.log| && b.log[j].Saved? && b.log[j].state.step == Complete
    ensures LastGrant(b.log, j).Some? && Supplied(LastGrant(b.log, j).value, key)
  {
    ReachableIsIdentified(b, j);
    assert b.StepAt(j);
    SavedCompleteIsAnswered(b.states[j], b.log[j]);
  }

  // ---- the name that is routed -----------------------------------------

  lemma {:induction false} SameApproval(log: seq<Event>, i: nat, j: nat)
    requires i <= j <= |log| && forall k | i <= k < j :: !log[k].Approved?
    ensures LastGrant(log, i) == LastGrant(log, j)
    decreases j
  {
    if i < j {
      SameApproval(log, i, j - 1);
    }
  }

  /** Within one enrollment the proxy routes the name that the agent is configured with, whichever runs
      did the one and the other. */
  lemma RouteNamesTheAgent(b: Behaviour, i: nat, j: nat)
    requires b.Legal() && FreshDashboard(b.log) && i <= j < |b.log|
    requires RunsAt(b.log, i, Traefik) && b.log[j].AgentConfigured? && forall k | i <= k < j :: !b.log[k].Approved?
    ensures b.log[i].input == b.log[j].config.fqdn
  {
    EffectsFollowTheApproval(b, i);
    EffectsFollowTheApproval(b, j);
    SameApproval(b.log, i, j);
  }

  /** The proxy was set up for `name` at `i`, and never again. */
  predicate RoutedLastAt(log: seq<Event>, i: nat, name: string) {
    && i < |log| && log[i] == StageRun(Traefik, name)
    && forall k | i < k < |log| :: !RunsAt(log, k, Traefik)
  }

  predicate ConfiguredAt(log: seq<Event>, j: nat, name: string) {
    j < |log| && log[j].AgentConfigured? && log[j].config.fqdn == name
  }

  lemma {:induction false} LastRun(b: Behaviour, n: nat) returns (i: nat)
    requires n <= |b.log| && exists k: nat :: k < n && RunsAt(b.log, k, Traefik)
    ensures i < n && RunsAt(b.log, i, Traefik) && forall k | i < k < n :: !RunsAt(b.log, k, Traefik)
  {
    if RunsAt(b.log, n - 1, Traefik) {
      i := n - 1;
    } else {
      i := LastRun(b, n - 1);
    }
  }

  predicate BeforeAgent(p: Phase) {
    p.Booted? || p.Enrolling? || p.Claimed? || p.Provisioning? || p.Announced? || p.Ran? || p.Downloaded? || p.Replaced?
  }

  lemma ConfiguresStep(c: Control, g: Grant, key: string, t: Grant)
    requires Ready(c, g, key, t) && BeforeAgent(c.process.phase)
    ensures
      var e := Continue(c.process, g, key);
      if c.process.phase.Replaced? then e.AgentConfigured? && e.config.fqdn == t.node.fqdn
      else Next(c, e).Some? && Next(c, e).value.process.Up? ==> BeforeAgent(Next(c, e).value.process.phase)
  {
    StagesDone(c.process.memory);
  }

  /** A run that goes on to the end configures the agent with the name that its enrollment approved. */
  lemma {:induction false} FinishingConfigures(b: Behaviour, g: Grant, key: string, t: Grant) returns (j: nat)
    requires b.Legal() && Ready(b.Now(), g, key, t) && BeforeAgent(b.Now().process.phase)
    ensures |b.log| <= j && ConfiguredAt(Finishing(b, g, key, t).log, j, t.node.fqdn)
    decreases Remaining(b.Now().process)
  {
    var c := b.Now();
    var e := Continue(c.process, g, key);
    Advance(c, g, key, t);
    ExtendIsLegal(b, e);
    ConfiguresStep(c, g, key, t);
    FinishingFinishes(b.Extend(e), g, key, t);
    if c.process.phase.Replaced? {
      j := |b.log|;
      assert b.Extend(e).log[j] == e;
    } else {
      j := FinishingConfigures(b.Extend(e), g, key, t);
    }
  }

  lemma FinishedDiskRunsNoStage(b: Behaviour, i: nat, j: nat)
    requires b.Legal() && i <= j < |b.log|
    requires b.states[i].disk.Some? && b.states[i].disk.value.completedSteps == ORDER
    ensures !b.log[j].StageRun?
  {
    DiskGrows(b, i, j);
    ReachableIsSound(b, j);
    assert b.StepAt(j);
    if b.log[j].StageRun? {
      StageRunStep(b.states[j], b.log[j]);
      StageIsOneOfFour(b.states[j], b.log[j]);
      StagesAreInOrder(b.log[j].stage);
    }
  }

  lemma StageIsOneOfFour(c: Control, e: Event)
    requires Next(c, e).Some? && e.StageRun?
    ensures e.stage in STAGES
  {
  }

  predicate FinishedNode(c: Control) {
    c.process.Down? && c.disk.Some? && c.disk.value.completedSteps == ORDER && c.disk.value.bootstrapToken == ""
  }

  /** On a finished node `repair` does not continue the enrollment: it ends with a new one, under its
      own name, and executes none of the four stages. */
  lemma RepairOfFinishedNode(b: Behaviour, version: string, host: Host, skipFirewall: bool, g: Grant, key: string)
    returns (whole: Behaviour)
    requires b.Legal() && FinishedNode(b.Now()) && Supplied(g, key)
    ensures whole.Legal() && b.log <= whole.log
    ensures whole.Now() ==
      Control(Some(FinalState(b.Now().disk.value.installerVersion, g, host.memoryBytes, host.diskBytes)), Down)
    ensures forall j | |b.log| <= j < |whole.log| :: !whole.log[j].StageRun?
    ensures exists j :: |b.log| <= j && ConfiguredAt(whole.log, j, g.node.fqdn)
  {
    var start := Restart(b, version, host, skipFirewall);
    ReachableIsSound(b, |b.log|);
    ExtendIsLegal(b, Started(version, host, skipFirewall));
    SoundStep(b.Now(), Started(version, host, skipFirewall));
    FinishingFinishes(start, g, key, g);
    var j := FinishingConfigures(start, g, key, g);
    whole := Finishing(start, g, key, g);
    assert ConfiguredAt(whole.log, j, g.node.fqdn);
    assert whole.states[|b.log|] == b.Now();
    forall k | |b.log| <= k < |whole.log|
      ensures !whole.log[k].StageRun?
    {
      FinishedDiskRunsNoStage(whole, |b.log|, k);
    }
  }

  lemma DownHas(c: Control, stage: Step)
    requires c.process.Down? && c.disk.Some? && c.disk.value.completedSteps == ORDER && stage in STAGES
    ensures Has(c, stage)
  {
    StagesAreInOrder(stage);
  }

  /** After such a repair the proxy still routes the name of the enrollment under which Traefik was set
      up, while the agent has the new name: the two agree exactly when the name did not change. */
  lemma RepairKeepsTheOldRoute(b: Behaviour, version: string, host: Host, skipFirewall: bool, g: Grant, key: string)
    returns (whole: Behaviour, i: nat, j: nat)
    requires b.Legal() && FreshDashboard(b.log) && FinishedNode(b.Now()) && Supplied(g, key)
    ensures whole.Legal() && b.log <= whole.log && i < |b.log| <= j
    ensures LastGrant(b.log, i).Some? && RoutedLastAt(whole.log, i, LastGrant(b.log, i).value.node.fqdn)
    ensures ConfiguredAt(whole.log, j, g.node.fqdn)
    ensures whole.log[i].input == whole.log[j].config.fqdn <==> LastGrant(b.log, i).value.node.fqdn == g.node.fqdn
  {
    whole := RepairOfFinishedNode(b, version, host, skipFirewall, g, key);
    j :| |b.log| <= j && ConfiguredAt(whole.log, j, g.node.fqdn);
    DownHas(b.Now(), Traefik);
    assert b.states[0] == INITIAL && !Has(INITIAL, Traefik);
    var k := HasComesFromARun(b, 0, |b.log|, Traefik);
    i := LastRun(b, |b.log|);
    EffectsFollowTheApproval(b, i);
    assert whole.log[i] == b.log[i];
    forall m | i < m < |whole.log|
      ensures !RunsAt(whole.log, m, Traefik)
    {
      if m < |b.log| {
        assert whole.log[m] == b.log[m] && !RunsAt(b.log, m, Traefik);
      }
    }
  }

  // ---- a node that is renamed ------------------------------------------

  lemma ApprovesWhenEnrolling(p: Process, g: Grant, key: string)
    requires p.Up?
    ensures Continue(p, g, key).Approved? <==> p.phase.Enrolling?
    ensures p.phase.Enrolling? ==> Continue(p, g, key) == Approved(g)
  {
  }

  /** The phases before an approval are entered from the boot only. */
  lemma EnrollingComesFromBooted(c: Control, e: Event)
    requires c.process.Up? && Next(c, e).Some? && Next(c, e).value.process.Up?
    ensures !Next(c, e).value.process.phase.Booted?
    ensures Next(c, e).value.process.phase.Enrolling? ==> c.process.phase.Booted?
  {
  }

  /** A run asks for at most one approval. */
  lemma {:induction false} FinishingApprovesOnce(b: Behaviour, g: Grant, key: string, t: Grant)
    requires b.Legal() && Ready(b.Now(), g, key, t)
    ensures
      var log := Finishing(b, g, key, t).log;
      && (forall k | |b.log| <= k < |log| && log[k].Approved? :: log[k].grant == g)
      && (forall k, m | |b.log| <= k < m < |log| :: !(log[k].Approved? && log[m].Approved?))
      && (!b.Now().process.phase.Booted? && !b.Now().process.phase.Enrolling? ==>
            forall k | |b.log| <= k < |log| :: !log[k].Approved?)
    decreases Remaining(b.Now().process)
  {
    var c := b.Now();
    var e := Continue(c.process, g, key);
    if c.process.phase.Finished? {
      Stop(c);
    } else {
      Advance(c, g, key, t);
      ExtendIsLegal(b, e);
      ApprovesWhenEnrolling(c.process, g, key);
      EnrollingComesFromBooted(c, e);
      FinishingFinishes(b.Extend(e), g, key, t);
      FinishingApprovesOnce(b.Extend(e), g, key, t);
      assert b.Extend(e).log[|b.log|] == e;
    }
  }

  /** A first installation, in which nothing fails. */
  lemma FirstInstallation(version: string, host: Host, skipFirewall: bool, g: Grant, key: string) returns (b: Behaviour)
    requires Supplied(g, key)
    ensures b.Legal() && FreshDashboard(b.log) && FinishedNode(b.Now())
    ensures b.Now().disk.value.installerVersion == version
    ensures forall k | 0 <= k < |b.log| && b.log[k].Approved? :: b.log[k].grant == g
  {
    var start := Restart(NOTHING_YET, version, host, skipFirewall);
    UninterruptedRunFinishes(NOTHING_YET, version, host, skipFirewall, g, key);
    FinishingFinishes(start, g, key, g);
    FinishingApprovesOnce(start, g, key, g);
    b := Finishing(start, g, key, g);
    assert b.log[0] == start.log[0];
  }

  /** Install a node under one name, rename it in the dashboard, and repair it: nothing fails, the state
      file is that of a finished node under the new name, and so is the agent's configuration - but the
      proxy routes the old name. */
  lemma RenamedNodeKeepsItsRoute(
      version: string, host: Host, skipFirewall: bool, first: Grant, second: Grant, key: string)
    returns (whole: Behaviour, i: nat, j: nat)
    requires Supplied(first, key) && Supplied(second, key) && first.node.fqdn != second.node.fqdn
    ensures whole.Legal() && RoutedLastAt(whole.log, i, first.node.fqdn) && ConfiguredAt(whole.log, j, second.node.fqdn)
    ensures whole.log[i].input != whole.log[j].config.fqdn
  {
    var b := FirstInstallation(version, host, skipFirewall, first, key);
    whole, i, j := RepairKeepsTheOldRoute(b, version, host, skipFirewall, second, key);
    LastGrantIsInLog(b.log, i);
  }
}
