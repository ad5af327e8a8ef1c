/** What holds of every log the installation protocol allows: any number of
    runs, each ended anywhere. */
module ProtocolSafety {
  import opened Wrappers
  import opened Protocol
  import V = Validation

  // ---- the steps recorded ----------------------------------------------

  /** The steps recorded are the first ones of the fixed order; how many there are says which. */
  predicate InOrder(s: State) {
    s.completedSteps <= ORDER
  }

  /** What every file the installer writes looks like. */
  predicate WellFormed(s: State) {
    && s.schemaVersion == 1
    && InOrder(s) && s.step in s.completedSteps
    && (s.enrollmentID != "" ==> |s.completedSteps| >= 2)
    && (s.completionRequestKey != "" ==> |s.completedSteps| >= 9)
  }

  /** `m` is what a booted process has in memory, up to what the host probe refreshed. */
  predicate BootedFrom(disk: Option<State>, m: State) {
    m == Boot(disk, m.installerVersion, Host(m.memoryBytes, m.diskBytes, ""))
  }

  predicate OnDisk(c: Control, m: State) {
    c.disk == Some(m.Stamped())
  }

  /** `m` adds firewall, agent and validation to a disk on which all four stages are recorded. */
  predicate AheadOfDisk(c: Control, m: State) {
    c.disk.Some? && |c.disk.value.completedSteps| >= 6 && m.Stamped() == Verified(c.disk.value)
  }

  predicate WithoutSecrets(s: State) {
    s.bootstrapToken == "" && s.agentTokenSHA256.NoDigest? && s.completionRequestKey == ""
  }

  /** The memory of a running process is what the disk holds, plus what this phase adds. */
  predicate Coherent(c: Control)
    requires c.process.Up?
  {
    var m := c.process.memory;
    match c.process.phase
    case Booted => BootedFrom(c.disk, m)
    case Enrolling => OnDisk(c, m) && !m.Resumable()
    case Claimed(_) => OnDisk(c, m) && !m.Resumable()
    case Provisioning => OnDisk(c, m) && |m.completedSteps| >= 2
    case Announced => OnDisk(c, m) && 2 <= |m.completedSteps| < 6
    case Ran => OnDisk(c, m) && 2 <= |m.completedSteps| < 6
    case Checked => AheadOfDisk(c, m)
    case Sent => AheadOfDisk(c, m) && m.completionRequestKey != ""
    case Answered => AheadOfDisk(c, m) && m.completionRequestKey != ""
    case Keyed => OnDisk(c, m) && |m.completedSteps| >= 9 && m.step == Validation && m.completionRequestKey != ""
    case Finished => OnDisk(c, m) && |m.completedSteps| == 10 && WithoutSecrets(m)
    case _ => OnDisk(c, m) && |m.completedSteps| >= 6
  }

  predicate Sound(c: Control) {
    && (c.disk.Some? ==> WellFormed(c.disk.value))
    && (c.process.Up? ==> InOrder(c.process.memory) && Coherent(c))
  }

  lemma MemberPosition(s: State, n: nat)
    requires InOrder(s) && n < |ORDER|
    ensures ORDER[n] in s.completedSteps <==> |s.completedSteps| > n
  {
    if |s.completedSteps| > n {
      assert s.completedSteps[n] == ORDER[n];
    } else {
      assert s.completedSteps == ORDER[..|s.completedSteps|];
    }
  }

  /** Completing the step that comes next in the order, or one already there, keeps the order. */
  lemma CompletedInOrder(s: State, n: nat)
    requires n < |ORDER| && InOrder(s) && n <= |s.completedSteps|
    ensures InOrder(s.Completed(ORDER[n]))
    ensures |s.Completed(ORDER[n]).completedSteps| == if n == |s.completedSteps| then n + 1 else |s.completedSteps|
    ensures s.completedSteps <= s.Completed(ORDER[n]).completedSteps
    ensures s.Completed(ORDER[n]).step == ORDER[n] && ORDER[n] in s.Completed(ORDER[n]).completedSteps
  {
    MemberPosition(s, n);
    if |s.completedSteps| == n {
      assert s.completedSteps == ORDER[..n];
      assert ORDER[..n] + [ORDER[n]] == ORDER[..n + 1];
    }
  }

  /** The loop over the stages picks the step that comes next in the order. */
  lemma StagesDone(s: State)
    requires InOrder(s)
    ensures NextStage(s).None? <==> |s.completedSteps| >= 6
    ensures 2 <= |s.completedSteps| < 6 ==> NextStage(s) == Some(ORDER[|s.completedSteps|])
  {
    MemberPosition(s, 2);
    MemberPosition(s, 3);
    MemberPosition(s, 4);
    MemberPosition(s, 5);
    var n := |s.completedSteps|;
    assert StageFrom(s, 3) == if n > 5 then None else Some(Traefik);
    assert StageFrom(s, 2) == if n > 5 then None else if n > 4 then Some(Traefik) else Some(PostgreSQL);
    assert StageFrom(s, 1) == if n > 3 then StageFrom(s, 2) else Some(Docker);
  }

  lemma VerifiedInOrder(s: State)
    requires InOrder(s) && |s.completedSteps| >= 6
    ensures InOrder(Verified(s)) && |Verified(s).completedSteps| >= 9
    ensures s.completedSteps <= Verified(s).completedSteps
    ensures Verified(s).step == Validation && Validation in Verified(s).completedSteps
    ensures |s.completedSteps| >= 9 ==> Verified(s) == s.(step := Validation)
  {
    CompletedInOrder(s, 6);
    CompletedInOrder(s.Completed(Firewall), 7);
    CompletedInOrder(s.Completed(Firewall).Completed(Agent), 8);
    MemberPosition(s, 6);
    MemberPosition(s, 7);
    MemberPosition(s, 8);
  }

  /** Steps recorded on disk are never forgotten, and the first run's version stays. */
  predicate Grows(before: Option<State>, after: Option<State>) {
    before.Some? ==>
      && after.Some?
      && before.value.completedSteps <= after.value.completedSteps
      && before.value.installerVersion == after.value.installerVersion
  }

  /** What one step of the protocol keeps. */
  predicate Kept(c: Control, after: Control) {
    Sound(after) && Grows(c.disk, after.disk)
  }

  lemma SoundStep(c: Control, e: Event)
    requires Sound(c) && Next(c, e).Some?
    ensures Kept(c, Next(c, e).value)
  {
    if e.Saved? {
      match c.process.phase
      case Booted => SoundPreflight(c, e);
      case Claimed(g) => SoundClaim(c, e);
      case Ran => SoundStage(c, e);
      case Checked => SoundKey(c, e);
      case Answered => SoundFinish(c, e);
      case _ =>
    } else if e.Validated? {
      SoundValidated(c, e);
    } else if e.CompletionSent? {
      SoundSent(c, e);
    } else if e.Progress? || e.StageRun? || e.Fetched? {
      SoundLoop(c, e);
    } else if !e.Started? && !e.Stopped? {
      SoundAct(c, e);
    }
  }

  lemma SoundPreflight(c: Control, e: Event)
    requires Sound(c) && e.Saved? && c.process.Up? && c.process.phase == Booted && Next(c, e).Some?
    ensures Kept(c, Next(c, e).value)
  {
    CompletedInOrder(c.process.memory, 0);
  }

  lemma SoundClaim(c: Control, e: Event)
    requires Sound(c) && e.Saved? && c.process.Up? && c.process.phase.Claimed? && Next(c, e).Some?
    ensures Kept(c, Next(c, e).value)
  {
    CompletedInOrder(c.process.memory, 1);
  }

  lemma SoundStage(c: Control, e: Event)
    requires Sound(c) && e.Saved? && c.process.Up? && c.process.phase == Ran && Next(c, e).Some?
    ensures Kept(c, Next(c, e).value)
  {
    var m := c.process.memory;
    StagesDone(m);
    CompletedInOrder(m, |m.completedSteps|);
  }

  lemma SoundKey(c: Control, e: Event)
    requires Sound(c) && e.Saved? && c.process.Up? && c.process.phase == Checked && Next(c, e).Some?
    ensures Kept(c, Next(c, e).value)
  {
    VerifiedInOrder(c.disk.value);
  }

  lemma SoundFinish(c: Control, e: Event)
    requires Sound(c) && e.Saved? && c.process.Up? && c.process.phase == Answered && Next(c, e).Some?
    ensures Kept(c, Next(c, e).value)
  {
    VerifiedInOrder(c.disk.value);
    CompletedInOrder(c.process.memory, 9);
  }

  lemma SoundValidated(c: Control, e: Event)
    requires Sound(c) && e.Validated? && Next(c, e).Some?
    ensures Kept(c, Next(c, e).value)
  {
    StagesDone(c.process.memory);
    VerifiedInOrder(c.process.memory);
  }

  lemma SoundSent(c: Control, e: Event)
    requires Sound(c) && e.CompletionSent? && Next(c, e).Some?
    ensures Kept(c, Next(c, e).value)
  {
    if c.process.phase == Keyed {
      VerifiedInOrder(c.disk.value);
    }
  }

  lemma SoundLoop(c: Control, e: Event)
    requires Sound(c) && Next(c, e).Some? && (e.Progress? || e.StageRun? || e.Fetched?)
    ensures Kept(c, Next(c, e).value)
  {
    StagesDone(c.process.memory);
  }

  lemma SoundAct(c: Control, e: Event)
    requires Sound(c) && Next(c, e).Some?
    requires
      e.Approved? || e.Installed? || e.AgentConfigured? || e.FirewallApplied? || e.AgentEnabled? || e.Acknowledged?
    ensures Kept(c, Next(c, e).value)
  {
  }

  lemma {:induction false} ReachableIsSound(b: Behaviour, j: nat)
    requires b.Legal() && j <= |b.log|
    ensures Sound(b.states[j])
  {
    if j > 0 {
      ReachableIsSound(b, j - 1);
      assert b.StepAt(j - 1);
      SoundStep(b.states[j - 1], b.log[j - 1]);
    }
  }

  // ---- theorems about the steps ----------------------------------------

  lemma SaveStep(c: Control, e: Event)
    requires Next(c, e).Some? && e.Saved?
    ensures Next(c, e).value.disk == Some(e.state)
  {
  }

  lemma SavedIsOnDisk(b: Behaviour, i: nat)
    requires b.Legal() && i < |b.log| && b.log[i].Saved?
    ensures b.states[i + 1].disk == Some(b.log[i].state)
  {
    assert b.StepAt(i);
    SaveStep(b.states[i], b.log[i]);
  }

  lemma {:induction false} DiskGrows(b: Behaviour, i: nat, j: nat)
    requires b.Legal() && i <= j <= |b.log|
    ensures Grows(b.states[i].disk, b.states[j].disk)
    decreases j - i
  {
    if i < j {
      DiskGrows(b, i, j - 1);
      ReachableIsSound(b, j - 1);
      assert b.StepAt(j - 1);
      SoundStep(b.states[j - 1], b.log[j - 1]);
    }
  }

  /** Every file ever written records a prefix of the fixed order, holds its own latest step,
      extends every file written before it, and keeps the version of the first installer. */
  lemma SavedStepsAreOrdered(b: Behaviour, i: nat, j: nat)
    requires b.Legal() && i <= j < |b.log| && b.log[i].Saved? && b.log[j].Saved?
    ensures b.log[j].state.completedSteps <= ORDER
    ensures b.log[j].state.step in b.log[j].state.completedSteps
    ensures b.log[i].state.completedSteps <= b.log[j].state.completedSteps
    ensures b.log[i].state.installerVersion == b.log[j].state.installerVersion
  {
    SavedIsOnDisk(b, i);
    SavedIsOnDisk(b, j);
    ReachableIsSound(b, j + 1);
    DiskGrows(b, i + 1, j + 1);
  }

  lemma StageRunStep(c: Control, e: Event)
    requires Sound(c) && Next(c, e).Some? && e.StageRun?
    ensures c.disk.Some? && e.stage !in c.disk.value.completedSteps
  {
  }

  /** What the file records while a stage of the table is executed. */
  function RecordedBefore(stage: Step): seq<Step> {
    match stage
    case Packages => [Preflight, WaitingForClaim]
    case Docker => [Preflight, WaitingForClaim, Packages]
    case PostgreSQL => [Preflight, WaitingForClaim, Packages, Docker]
    case Traefik => [Preflight, WaitingForClaim, Packages, Docker, PostgreSQL]
    case _ => []
  }

  lemma StageFollowsStep(c: Control, e: Event)
    requires Sound(c) && Next(c, e).Some? && e.StageRun?
    ensures c.disk.Some? && c.disk.value.completedSteps == RecordedBefore(e.stage) != []
  {
    StagesDone(c.process.memory);
  }

  /** A stage is executed exactly when the file records the approval and all stages before it, and nothing
      else: packages, Docker, PostgreSQL, Traefik. */
  lemma StageFollowsThoseBefore(b: Behaviour, j: nat)
    requires b.Legal() && j < |b.log| && b.log[j].StageRun?
    ensures b.states[j].disk.Some?
    ensures b.states[j].disk.value.completedSteps == RecordedBefore(b.log[j].stage) != []
  {
    ReachableIsSound(b, j);
    assert b.StepAt(j);
    StageFollowsStep(b.states[j], b.log[j]);
  }

  /** A stage that some file records as complete is never executed after that file was written. */
  lemma RecordedStageNeverRunsAgain(b: Behaviour, i: nat, j: nat, stage: Step)
    requires b.Legal() && i < j < |b.log|
    requires b.log[i].Saved? && stage in b.log[i].state.completedSteps
    ensures !(b.log[j].StageRun? && b.log[j].stage == stage)
  {
    SavedIsOnDisk(b, i);
    DiskGrows(b, i + 1, j);
    ReachableIsSound(b, j);
    assert b.StepAt(j);
    if b.log[j].StageRun? {
      StageRunStep(b.states[j], b.log[j]);
    }
  }

  /** Between two executions of one stage nothing on disk records it. */
  lemma RepeatedStageWasNotRecorded(b: Behaviour, i: nat, k: nat, j: nat)
    requires b.Legal() && i < k < j < |b.log|
    requires b.log[i].StageRun? && b.log[j].StageRun? && b.log[i].stage == b.log[j].stage
    requires b.log[k].Saved?
    ensures b.log[i].stage !in b.log[k].state.completedSteps
  {
    if b.log[i].stage in b.log[k].state.completedSteps {
      RecordedStageNeverRunsAgain(b, k, j, b.log[i].stage);
    }
  }

  /** The stage is recorded, on disk or in memory, or was just executed. */
  predicate Has(c: Control, stage: Step) {
    || (c.disk.Some? && stage in c.disk.value.completedSteps)
    || (c.process.Up?
        && (stage in c.process.memory.completedSteps
            || (c.process.phase.Ran? && NextStage(c.process.memory) == Some(stage))))
  }

  lemma StagesAreInOrder(stage: Step)
    requires stage in STAGES
    ensures stage != Preflight && stage != WaitingForClaim && stage != Firewall && stage != Agent
    ensures stage != Validation && stage != Complete && stage in ORDER
  {
    assert ORDER[2] == Packages && ORDER[3] == Docker && ORDER[4] == PostgreSQL && ORDER[5] == Traefik;
  }

  /** Only an execution brings a stage about. */
  lemma HasStep(c: Control, e: Event, stage: Step)
    requires Next(c, e).Some? && stage in STAGES && Has(Next(c, e).value, stage)
    ensures Has(c, stage) || (e.StageRun? && e.stage == stage)
  {
    StagesAreInOrder(stage);
    if e.Saved? {
      HasSave(c, e, stage);
    }
  }

  lemma HasSave(c: Control, e: Event, stage: Step)
    requires Next(c, e).Some? && e.Saved? && Has(Next(c, e).value, stage)
    requires stage != Preflight && stage != WaitingForClaim && stage != Complete
    ensures Has(c, stage)
  {
  }

  predicate RunsAt(log: seq<Event>, k: nat, stage: Step)
    requires k < |log|
  {
    log[k].StageRun? && log[k].stage == stage
  }

  /** What is there at `j` and was not at `i` has been executed in between, for a first time. */
  lemma {:induction false} HasComesFromARun(b: Behaviour, i: nat, j: nat, stage: Step) returns (k: nat)
    requires b.Legal() && i <= j <= |b.log| && stage in STAGES
    requires Has(b.states[j], stage) && !Has(b.states[i], stage)
    ensures i <= k < j && RunsAt(b.log, k, stage)
    ensures forall m | i <= m < k :: !RunsAt(b.log, m, stage)
    decreases j - i
  {
    assert b.StepAt(i);
    if RunsAt(b.log, i, stage) {
      k := i;
    } else {
      if Has(b.states[i + 1], stage) {
        HasStep(b.states[i], b.log[i], stage);
      }
      k := HasComesFromARun(b, i + 1, j, stage);
    }
  }

  /** The percentage reported is the one that the file on disk calls for. */
  lemma ProgressFollowsDisk(c: Control, e: Event)
    requires Sound(c) && Next(c, e).Some? && e.Progress?
    ensures c.disk.Some? && 2 <= |c.disk.value.completedSteps| < 6
    ensures e.percent == 12 * (|c.disk.value.completedSteps| - 1)
  {
    StagesDone(c.process.memory);
  }

  /** The percentages shown to the dashboard never go back, over all runs. */
  lemma ProgressNeverGoesBack(b: Behaviour, i: nat, j: nat)
    requires b.Legal() && i <= j < |b.log| && b.log[i].Progress? && b.log[j].Progress?
    ensures b.log[i].percent <= b.log[j].percent
  {
    ReachableIsSound(b, i);
    ReachableIsSound(b, j);
    assert b.StepAt(i) && b.StepAt(j);
    ProgressFollowsDisk(b.states[i], b.log[i]);
    ProgressFollowsDisk(b.states[j], b.log[j]);
    DiskGrows(b, i, j);
  }

  // ---- one run ---------------------------------------------------------

  /** The events of the run in progress after `j` events, from its start. */
  function CurrentRun(log: seq<Event>, j: nat): seq<Event>
    requires j <= |log|
  {
    if j == 0 then []
    else if log[j - 1].Started? then [log[j - 1]]
    else CurrentRun(log, j - 1) + [log[j - 1]]
  }

  predicate AfterFirewall(p: Phase) {
    p.Protected? || AfterEnable(p)
  }

  predicate AfterEnable(p: Phase) {
    p.Enabled? || AfterChecks(p)
  }

  predicate AfterChecks(p: Phase) {
    p.Checked? || p.Keyed? || p.Sent? || p.Answered? || p.Finished?
  }

  /** What a phase says about the events of its own run. */
  predicate Witnessed(p: Process, run: seq<Event>) {
    p.Up? ==>
      && run != [] && run[0].Started? && run[0].skipFirewall == p.skipFirewall
      && p.memory.memoryBytes == run[0].host.memoryBytes && p.memory.diskBytes == run[0].host.diskBytes
      && (AfterFirewall(p.phase) && !p.skipFirewall ==> FirewallApplied in run)
      && (AfterEnable(p.phase) ==> AgentEnabled in run)
      && (AfterChecks(p.phase) ==> Validated(V.ALL_OK) in run)
  }

  lemma WitnessedSave(c: Control, e: Event, run: seq<Event>)
    requires Witnessed(c.process, run) && Next(c, e).Some? && e.Saved?
    ensures Witnessed(Next(c, e).value.process, run + [e])
  {
    assert forall x | x in run :: x in run + [e];
  }

  lemma WitnessedAct(c: Control, e: Event, run: seq<Event>)
    requires Witnessed(c.process, run) && Next(c, e).Some? && !e.Saved? && !e.Started?
    ensures Witnessed(Next(c, e).value.process, run + [e])
  {
    assert e in run + [e];
    assert forall x | x in run :: x in run + [e];
  }

  lemma {:induction false} PhasesAreWitnessed(b: Behaviour, j: nat)
    requires b.Legal() && j <= |b.log|
    ensures Witnessed(b.states[j].process, CurrentRun(b.log, j))
  {
    if j > 0 {
      PhasesAreWitnessed(b, j - 1);
      assert b.StepAt(j - 1);
      var c, e, run := b.states[j - 1], b.log[j - 1], CurrentRun(b.log, j - 1);
      if e.Saved? {
        WitnessedSave(c, e, run);
      } else if !e.Started? {
        WitnessedAct(c, e, run);
      }
    }
  }

  /** The gates that one event has to pass, inside its own run. */
  predicate Gated(e: Event, run: seq<Event>) {
    && run != [] && run[0].Started?
    && (e.AgentEnabled? ==> run[0].skipFirewall || FirewallApplied in run)
    && (e.Validated? ==> AgentEnabled in run && e.checks == V.ALL_OK)
    && (e.CompletionSent? ==>
          && Validated(V.ALL_OK) in run && AgentEnabled in run
          && (run[0].skipFirewall || FirewallApplied in run)
          && e.report.validations == V.ALL_OK)
  }

  lemma GatedStep(c: Control, e: Event, run: seq<Event>)
    requires Witnessed(c.process, run) && Next(c, e).Some? && !e.Started?
    ensures Gated(e, run)
  {
  }

  /** The agent service is enabled only once the same run applied the firewall, unless told to skip
      it; and a completion request is sent only once the same run saw all seven checks pass. */
  lemma GatesHold(b: Behaviour, j: nat)
    requires b.Legal() && j < |b.log| && !b.log[j].Started?
    ensures Gated(b.log[j], CurrentRun(b.log, j)) && |V.ALL_OK| == 7
  {
    PhasesAreWitnessed(b, j);
    assert b.StepAt(j);
    GatedStep(b.states[j], b.log[j], CurrentRun(b.log, j));
  }

  lemma ReportStep(c: Control, e: Event, run: seq<Event>)
    requires Witnessed(c.process, run) && Next(c, e).Some? && e.CompletionSent?
    ensures run != [] && run[0].Started?
    ensures e.report.memoryBytes == run[0].host.memoryBytes && e.report.diskBytes == run[0].host.diskBytes
  {
  }

  /** A completion request reports the memory and the disk that its own run found on the host. */
  lemma ReportTellsTheHost(b: Behaviour, j: nat)
    requires b.Legal() && j < |b.log| && b.log[j].CompletionSent?
    ensures CurrentRun(b.log, j) != [] && CurrentRun(b.log, j)[0].Started?
    ensures b.log[j].report.memoryBytes == CurrentRun(b.log, j)[0].host.memoryBytes
    ensures b.log[j].report.diskBytes == CurrentRun(b.log, j)[0].host.diskBytes
  {
    PhasesAreWitnessed(b, j);
    assert b.StepAt(j);
    ReportStep(b.states[j], b.log[j], CurrentRun(b.log, j));
  }

  predicate SentFor(run: seq<Event>, enrollmentID: string) {
    exists x | x in run :: x.CompletionSent? && x.enrollmentID == enrollmentID
  }

  /** Behind the request and its acknowledgement, the run holds them; before, validation is the latest step. */
  predicate Answerable(p: Process, run: seq<Event>) {
    p.Up? ==>
      && (p.phase.Checked? ==> p.memory.step == Validation)
      && (p.phase.Sent? || p.phase.Answered? ==> SentFor(run, p.memory.enrollmentID))
      && (p.phase.Answered? ==> Acknowledged in run)
  }

  lemma AnswerableStep(c: Control, e: Event, run: seq<Event>)
    requires Answerable(c.process, run) && Next(c, e).Some? && !e.Started?
    ensures Answerable(Next(c, e).value.process, run + [e])
  {
    assert e in run + [e];
    assert forall x | x in run :: x in run + [e];
  }

  lemma {:induction false} RunsAreAnswerable(b: Behaviour, j: nat)
    requires b.Legal() && j <= |b.log|
    ensures Answerable(b.states[j].process, CurrentRun(b.log, j))
  {
    if j > 0 {
      RunsAreAnswerable(b, j - 1);
      assert b.StepAt(j - 1);
      if !b.log[j - 1].Started? {
        AnswerableStep(b.states[j - 1], b.log[j - 1], CurrentRun(b.log, j - 1));
      }
    }
  }

  lemma CompletionStep(c: Control, e: Event, run: seq<Event>)
    requires Answerable(c.process, run) && Next(c, e).Some? && e.Saved? && e.state.step == Complete
    ensures Acknowledged in run && SentFor(run, e.state.enrollmentID)
    ensures e.state.bootstrapToken == "" && e.state.completionRequestKey == "" && e.state.agentTokenSHA256.NoDigest?
  {
  }

  /** Completion is recorded only once the same run has sent the request for that enrollment and the
      dashboard has acknowledged it, and the file that records it holds no secret. */
  lemma CompletionIsAcknowledged(b: Behaviour, j: nat)
    requires b.Legal() && j < |b.log| && b.log[j].Saved? && b.log[j].state.step == Complete
    ensures Acknowledged in CurrentRun(b.log, j) && SentFor(CurrentRun(b.log, j), b.log[j].state.enrollmentID)
    ensures b.log[j].state.bootstrapToken == "" && b.log[j].state.completionRequestKey == ""
    ensures b.log[j].state.agentTokenSHA256.NoDigest?
  {
    RunsAreAnswerable(b, j);
    assert b.StepAt(j);
    CompletionStep(b.states[j], b.log[j], CurrentRun(b.log, j));
  }

  predicate WasInstalled(run: seq<Event>) {
    exists x | x in run :: x.Installed?
  }

  predicate WasConfigured(run: seq<Event>) {
    exists x | x in run :: x.AgentConfigured?
  }

  predicate AfterConfiguration(p: Phase) {
    p.Configured? || AfterFirewall(p)
  }

  /** Behind the binary and the configuration, the run holds their replacement. */
  predicate Placed(p: Process, run: seq<Event>) {
    p.Up? ==>
      && (p.phase.Replaced? || AfterConfiguration(p.phase) ==> WasInstalled(run))
      && (AfterConfiguration(p.phase) ==> WasConfigured(run))
  }

  lemma PlacedStep(c: Control, e: Event, run: seq<Event>)
    requires Placed(c.process, run) && Next(c, e).Some? && !e.Started?
    ensures Placed(Next(c, e).value.process, run + [e])
  {
    assert e in run + [e];
    assert forall x | x in run :: x in run + [e];
  }

  lemma {:induction false} RunsArePlaced(b: Behaviour, j: nat)
    requires b.Legal() && j <= |b.log|
    ensures Placed(b.states[j].process, CurrentRun(b.log, j))
  {
    if j > 0 {
      RunsArePlaced(b, j - 1);
      assert b.StepAt(j - 1);
      if !b.log[j - 1].Started? {
        PlacedStep(b.states[j - 1], b.log[j - 1], CurrentRun(b.log, j - 1));
      }
    }
  }

  /** The agent service is enabled only once the same run has replaced the binary and the configuration,
      on a node whose file records all four stages. */
  lemma EnabledAgentIsInPlace(b: Behaviour, j: nat)
    requires b.Legal() && j < |b.log| && b.log[j].AgentEnabled?
    ensures WasInstalled(CurrentRun(b.log, j)) && WasConfigured(CurrentRun(b.log, j))
    ensures b.states[j].disk.Some?
    ensures forall stage | stage in [Packages, Docker, PostgreSQL, Traefik] ::
      stage in b.states[j].disk.value.completedSteps
  {
    RunsArePlaced(b, j);
    ReachableIsSound(b, j);
    assert b.StepAt(j);
    var onDisk := b.states[j].disk.value;
    MemberPosition(onDisk, 2);
    MemberPosition(onDisk, 3);
    MemberPosition(onDisk, 4);
    MemberPosition(onDisk, 5);
  }
}
