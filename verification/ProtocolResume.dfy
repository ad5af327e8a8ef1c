/** Identity and completion keys: what the runs of one enrollment have in common. The dashboard
    is assumed to hand out fresh, non-empty enrollment identifiers and bootstrap tokens. */
module ProtocolResume {
  import opened Wrappers
  import opened Protocol
  import opened ProtocolSafety

  /** The assumption on the dashboard; the installer does not check it. */
  predicate FreshDashboard(log: seq<Event>) {
    && (forall i | 0 <= i < |log| && log[i].Approved? ::
          log[i].grant.enrollmentID != "" && log[i].grant.bootstrapToken != "")
    && (forall i, j | 0 <= i < j < |log| && log[i].Approved? && log[j].Approved? ::
          log[i].grant.enrollmentID != log[j].grant.enrollmentID)
  }

  /** The latest of the approvals among the first `j` events. */
  function LastGrant(log: seq<Event>, j: nat): Option<Grant>
    requires j <= |log|
  {
    if j == 0 then None
    else if log[j - 1].Approved? then Some(log[j - 1].grant)
    else LastGrant(log, j - 1)
  }

  lemma {:induction false} LastGrantIsInLog(log: seq<Event>, j: nat)
    requires j <= |log| && LastGrant(log, j).Some?
    ensures exists k :: 0 <= k < j && log[k] == Approved(LastGrant(log, j).value)
  {
    if log[j - 1].Approved? {
      assert log[j - 1] == Approved(LastGrant(log, j).value);
    } else {
      LastGrantIsInLog(log, j - 1);
    }
  }

  /** `s` is about the enrollment that `g` approved, with its secrets still there. */
  predicate BelongsTo(s: State, g: Grant) {
    && s.enrollmentID == g.enrollmentID && s.bootstrapToken == g.bootstrapToken
    && s.node == g.node && s.agent == g.agent
    && s.agentTokenSHA256 == Sha256(g.token)
    && g.Usable() && s.Resumable()
  }

  predicate BelongsToLast(s: State, grant: Option<Grant>) {
    grant.Some? && BelongsTo(s, grant.value)
  }

  predicate InProvision(p: Phase) {
    !p.Booted? && !p.Enrolling? && !p.Claimed? && !p.Finished?
  }

  predicate DiskIdentified(disk: Option<State>, grant: Option<Grant>) {
    disk.Some? ==>
      && (disk.value.bootstrapToken != "" ==> BelongsToLast(disk.value, grant))
      && (disk.value.completionRequestKey != "" ==> disk.value.bootstrapToken != "")
  }

  predicate ProcessIdentified(p: Process, disk: Option<State>, grant: Option<Grant>) {
    p.Up? ==>
      && (p.phase.Claimed? ==>
            && grant == Some(p.phase.grant)
            && p.phase.grant.enrollmentID != "" && p.phase.grant.bootstrapToken != "")
      && (InProvision(p.phase) ==>
            && BelongsToLast(p.memory, grant)
            && disk.Some? && BelongsToLast(disk.value, grant))
  }

  /** Disk and process are about the latest approval, from the approval to the end of the installation. */
  predicate Identified(c: Control, grant: Option<Grant>) {
    DiskIdentified(c.disk, grant) && ProcessIdentified(c.process, c.disk, grant)
  }

  lemma IdentifiedSave(c: Control, e: Event, grant: Option<Grant>)
    requires Sound(c) && Identified(c, grant) && Next(c, e).Some? && e.Saved?
    ensures Identified(Next(c, e).value, grant)
  {
    if c.process.phase.Booted? || c.process.phase.Claimed? {
      IdentifiedFirstSaves(c, e, grant);
    } else {
      IdentifiedLaterSaves(c, e, grant);
    }
  }

  lemma IdentifiedFirstSaves(c: Control, e: Event, grant: Option<Grant>)
    requires Sound(c) && Identified(c, grant) && Next(c, e).Some? && e.Saved?
    requires c.process.Up? && (c.process.phase.Booted? || c.process.phase.Claimed?)
    ensures Identified(Next(c, e).value, grant)
  {
  }

  lemma IdentifiedLaterSaves(c: Control, e: Event, grant: Option<Grant>)
    requires Identified(c, grant) && Next(c, e).Some? && e.Saved?
    requires c.process.Up? && !c.process.phase.Booted? && !c.process.phase.Claimed?
    ensures Identified(Next(c, e).value, grant)
  {
  }

  lemma IdentifiedAct(c: Control, e: Event, grant: Option<Grant>)
    requires Identified(c, grant) && Next(c, e).Some? && !e.Saved?
    requires e.Approved? ==> e.grant.enrollmentID != "" && e.grant.bootstrapToken != ""
    requires e.Approved? ==> c.disk.Some? && c.disk.value.bootstrapToken == ""
    ensures Identified(Next(c, e).value, if e.Approved? then Some(e.grant) else grant)
  {
  }

  /** An approval is only asked for when the disk holds no open enrollment. */
  lemma ApprovalStep(c: Control, e: Event, grant: Option<Grant>)
    requires Sound(c) && Identified(c, grant) && Next(c, e).Some? && e.Approved?
    ensures c.disk.Some? && c.disk.value.bootstrapToken == ""
  {
  }

  lemma {:induction false} ReachableIsIdentified(b: Behaviour, j: nat)
    requires b.Legal() && FreshDashboard(b.log) && j <= |b.log|
    ensures Sound(b.states[j]) && Identified(b.states[j], LastGrant(b.log, j))
  {
    ReachableIsSound(b, j);
    if j > 0 {
      ReachableIsIdentified(b, j - 1);
      assert b.StepAt(j - 1);
      var c, e, grant := b.states[j - 1], b.log[j - 1], LastGrant(b.log, j - 1);
      if e.Saved? {
        IdentifiedSave(c, e, grant);
      } else {
        if e.Approved? {
          ApprovalStep(c, e, grant);
        }
        IdentifiedAct(c, e, grant);
      }
    }
  }

  /** A key on disk is proof that everything up to validation is recorded, and comes with the
      secrets that resending the request needs. */
  lemma PersistedKeyMeansReadyToComplete(b: Behaviour, i: nat)
    requires b.Legal() && FreshDashboard(b.log) && i < |b.log|
    requires b.log[i].Saved? && b.log[i].state.completionRequestKey != ""
    ensures ORDER[..9] <= b.log[i].state.completedSteps
    ensures b.log[i].state.Resumable()
    ensures LastGrant(b.log, i).Some?
    ensures b.log[i].state.agentTokenSHA256 == Sha256(LastGrant(b.log, i).value.token)
  {
    SavedIsOnDisk(b, i);
    ReachableIsIdentified(b, i + 1);
    assert b.log[i].state.completedSteps[..9] == ORDER[..9];
  }

  /** An approval gets into the file only with bearer authentication and a token of at least 32
      characters. */
  lemma OnlyBearerIsSaved(b: Behaviour, i: nat)
    requires b.Legal() && FreshDashboard(b.log) && i < |b.log| && b.log[i].Saved?
    requires b.log[i].state.bootstrapToken != ""
    ensures LastGrant(b.log, i).Some? && LastGrant(b.log, i).value.mode == "bearer"
    ensures |LastGrant(b.log, i).value.token| >= 32
    ensures b.log[i].state.agentTokenSHA256 == Sha256(LastGrant(b.log, i).value.token)
  {
    SavedIsOnDisk(b, i);
    ReachableIsIdentified(b, i + 1);
  }

  /** What an effect reads from the approval, if `g` is what was approved. */
  predicate Follows(e: Event, g: Grant) {
    match e
    case Progress(id, _, _) => id == g.enrollmentID
    case StageRun(stage, input) => stage == Traefik ==> input == g.node.fqdn
    case Fetched(url) => url == g.agent.manifestURL
    case Installed(version, protocol) => version == g.agent.version && protocol == g.agent.protocolVersion
    case AgentConfigured(config) =>
      config == AgentConfig(g.node.id, g.node.name, g.node.fqdn, g.node.panelDomainSuffix, Sha256(g.token))
    case CompletionSent(id, token, _, report) =>
      && id == g.enrollmentID && token == g.bootstrapToken && report.agentIdentity == g.node.id
      && report.agentVersion == g.agent.version && report.protocolVersion == g.agent.protocolVersion
    case _ => true
  }

  predicate UsesApproval(e: Event) {
    e.Progress? || e.StageRun? || e.Fetched? || e.Installed? || e.AgentConfigured? || e.CompletionSent?
  }

  lemma FollowsStep(c: Control, e: Event, grant: Option<Grant>)
    requires Identified(c, grant) && Next(c, e).Some? && UsesApproval(e)
    ensures grant.Some? && Follows(e, grant.value)
  {
  }

  /** What provisioning does with the approval is the same in every run of one enrollment: it is
      read from the approval itself, or from the copy of it on disk, with one result. */
  lemma EffectsFollowTheApproval(b: Behaviour, j: nat)
    requires b.Legal() && FreshDashboard(b.log) && j < |b.log| && UsesApproval(b.log[j])
    ensures LastGrant(b.log, j).Some? && Follows(b.log[j], LastGrant(b.log, j).value)
  {
    ReachableIsIdentified(b, j);
    assert b.StepAt(j);
    FollowsStep(b.states[j], b.log[j], LastGrant(b.log, j));
  }

  /** A run continues the enrollment on disk if and only if the file holds an identifier and a
      token; otherwise the next effect of the run, if there is one, is a new approval. */
  lemma ResumesExactlyWhenTokenIsThere(c: Control, e: Event, f: Event)
    requires Sound(c) && c.process.Up? && c.process.phase.Booted? && e.Saved? && Next(c, e).Some?
    requires Next(Next(c, e).value, f).Some? && !f.Stopped?
    ensures f.Approved? <==> c.disk.None? || c.disk.value.enrollmentID == "" || c.disk.value.bootstrapToken == ""
    ensures UsesApproval(f) <==> c.disk.Some? && c.disk.value.enrollmentID != "" && c.disk.value.bootstrapToken != ""
  {
    var after := Next(c, e).value;
    assert after.process.phase == if c.process.memory.Resumable() then Provisioning else Enrolling;
  }

  // ---- the completion key ----------------------------------------------

  predicate Open(disk: Option<State>, enrollmentID: string) {
    disk.Some? && disk.value.enrollmentID == enrollmentID && disk.value.bootstrapToken != ""
  }

  /** As long as the enrollment is open, the file holds this key for it. */
  predicate HoldsKey(c: Control, enrollmentID: string, key: string) {
    Open(c.disk, enrollmentID) ==> c.disk.value.completionRequestKey == key
  }

  predicate Reclaims(c: Control, enrollmentID: string) {
    c.process.Up? && c.process.phase.Claimed? && c.process.phase.grant.enrollmentID == enrollmentID
  }

  lemma SendStep(c: Control, e: Event, grant: Option<Grant>)
    requires Sound(c) && Identified(c, grant) && Next(c, e).Some? && e.CompletionSent?
    ensures Open(c.disk, e.enrollmentID) && c.disk.value.completionRequestKey == e.key != ""
    ensures !Reclaims(c, e.enrollmentID)
  {
  }

  lemma SentKeyIsOnDisk(b: Behaviour, i: nat)
    requires b.Legal() && FreshDashboard(b.log) && i < |b.log| && b.log[i].CompletionSent?
    ensures Open(b.states[i].disk, b.log[i].enrollmentID)
    ensures b.states[i].disk.value.completionRequestKey == b.log[i].key != ""
    ensures !Reclaims(b.states[i], b.log[i].enrollmentID)
  {
    ReachableIsIdentified(b, i);
    assert b.StepAt(i);
    SendStep(b.states[i], b.log[i], LastGrant(b.log, i));
  }

  lemma UnsavedStep(c: Control, e: Event)
    requires Next(c, e).Some? && !e.Saved?
    ensures Next(c, e).value.disk == c.disk
  {
  }

  lemma {:induction false} DiskComesFromASave(b: Behaviour, j: nat)
    requires b.Legal() && j <= |b.log| && b.states[j].disk.Some?
    ensures exists k :: 0 <= k < j && b.log[k] == Saved(b.states[j].disk.value)
  {
    assert j > 0 && b.StepAt(j - 1);
    if b.log[j - 1].Saved? {
      SaveStep(b.states[j - 1], b.log[j - 1]);
      assert b.log[j - 1] == Saved(b.states[j].disk.value);
    } else {
      UnsavedStep(b.states[j - 1], b.log[j - 1]);
      DiskComesFromASave(b, j - 1);
    }
  }

  /** The key a completion request carries was durable before the request was sent. */
  lemma KeyIsDurableBeforeItIsSent(b: Behaviour, i: nat)
    requires b.Legal() && FreshDashboard(b.log) && i < |b.log| && b.log[i].CompletionSent?
    ensures exists k | 0 <= k < i && b.log[k].Saved? ::
      b.log[k].state.completionRequestKey == b.log[i].key && b.log[k].state.enrollmentID == b.log[i].enrollmentID
  {
    SentKeyIsOnDisk(b, i);
    DiskComesFromASave(b, i);
  }

  /** A claim that is not yet saved was approved by the very last event. */
  lemma ClaimedStep(c: Control, e: Event)
    requires Next(c, e).Some? && Next(c, e).value.process.Up? && Next(c, e).value.process.phase.Claimed?
    ensures e == Approved(Next(c, e).value.process.phase.grant)
  {
  }

  /** The enrollment that a request was sent for is not approved again. */
  lemma SentEnrollmentIsNotReclaimed(b: Behaviour, i: nat, j: nat)
    requires b.Legal() && FreshDashboard(b.log) && i < j <= |b.log| && b.log[i].CompletionSent?
    ensures !Reclaims(b.states[j], b.log[i].enrollmentID)
  {
    if Reclaims(b.states[j], b.log[i].enrollmentID) {
      EffectsFollowTheApproval(b, i);
      LastGrantIsInLog(b.log, i);
      var a :| 0 <= a < i && b.log[a] == Approved(LastGrant(b.log, i).value);
      assert b.StepAt(j - 1);
      ClaimedStep(b.states[j - 1], b.log[j - 1]);
      assert false;
    }
  }

  /** A step keeps the key of an open enrollment, unless it claims the enrollment anew. */
  lemma KeyStep(c: Control, e: Event, grant: Option<Grant>, enrollmentID: string, key: string)
    requires Sound(c) && Identified(c, grant) && Next(c, e).Some? && key != ""
    requires HoldsKey(c, enrollmentID, key) && !Reclaims(c, enrollmentID)
    ensures HoldsKey(Next(c, e).value, enrollmentID, key)
  {
  }

  /** Once a key has been sent, the file keeps it for as long as the enrollment is open. */
  lemma {:induction false} SentKeyStays(b: Behaviour, i: nat, j: nat)
    requires b.Legal() && FreshDashboard(b.log) && i < |b.log| && b.log[i].CompletionSent?
    requires i <= j <= |b.log|
    ensures HoldsKey(b.states[j], b.log[i].enrollmentID, b.log[i].key)
    decreases j
  {
    SentKeyIsOnDisk(b, i);
    if i < j {
      SentKeyStays(b, i, j - 1);
      if i < j - 1 {
        SentEnrollmentIsNotReclaimed(b, i, j - 1);
      }
      ReachableIsIdentified(b, j - 1);
      assert b.StepAt(j - 1);
      KeyStep(b.states[j - 1], b.log[j - 1], LastGrant(b.log, j - 1), b.log[i].enrollmentID, b.log[i].key);
    }
  }

  /** All completion requests ever sent for one enrollment carry one key. */
  lemma OneKeyPerEnrollment(b: Behaviour, i: nat, j: nat)
    requires b.Legal() && FreshDashboard(b.log) && i <= j < |b.log|
    requires b.log[i].CompletionSent? && b.log[j].CompletionSent?
    requires b.log[i].enrollmentID == b.log[j].enrollmentID
    ensures b.log[i].key == b.log[j].key
  {
    SentKeyIsOnDisk(b, j);
    SentKeyStays(b, i, j);
  }

  predicate KeySeen(log: seq<Event>, j: nat, enrollmentID: string, key: string)
    requires j <= |log|
  {
    exists i | 0 <= i < j :: log[i].CompletionSent? && log[i].enrollmentID == enrollmentID && log[i].key == key
  }

  /** How often the dashboard completes the node among the first `j` events, when it answers a
      repeated key from its records. */
  function Completions(log: seq<Event>, j: nat, enrollmentID: string): nat
    requires j <= |log|
  {
    if j == 0 then 0
    else
      var e := log[j - 1];
      Completions(log, j - 1, enrollmentID) +
      if e.CompletionSent? && e.enrollmentID == enrollmentID && !KeySeen(log, j - 1, enrollmentID, e.key) then 1 else 0
  }

  /** However often the process dies between request and answer, the node is completed at most
      once - and exactly once as soon as one request was sent. */
  lemma {:induction false} CompletedAtMostOnce(b: Behaviour, j: nat, enrollmentID: string)
    requires b.Legal() && FreshDashboard(b.log) && j <= |b.log|
    ensures Completions(b.log, j, enrollmentID) <= 1
    ensures Completions(b.log, j, enrollmentID) == 1 <==>
      exists i | 0 <= i < j :: b.log[i].CompletionSent? && b.log[i].enrollmentID == enrollmentID
  {
    if j > 0 {
      CompletedAtMostOnce(b, j - 1, enrollmentID);
      var e := b.log[j - 1];
      if e.CompletionSent? && e.enrollmentID == enrollmentID && Completions(b.log, j - 1, enrollmentID) == 1 {
        var i :| 0 <= i < j - 1 && b.log[i].CompletionSent? && b.log[i].enrollmentID == enrollmentID;
        OneKeyPerEnrollment(b, i, j - 1);
      }
    }
  }
}
