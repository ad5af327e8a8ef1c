/** Which configuration the running agent has. The unit is enabled and started, never restarted: an agent that
    runs already goes on as it is. */
module RunningAgent {
  import opened Wrappers
  import opened Protocol
  import opened ProtocolSafety
  import opened ProtocolResume
  import opened ProtocolRecovery

  /** The latest configuration written among the first `j` events. */
  function LastConfig(log: seq<Event>, j: nat): Option<AgentConfig>
    requires j <= |log|
  {
    if j == 0 then None
    else if log[j - 1].AgentConfigured? then Some(log[j - 1].config)
    else LastConfig(log, j - 1)
  }

  /** The configuration that the agent runs with after `j` events; the host is not rebooted. */
  function Running(log: seq<Event>, j: nat): Option<AgentConfig>
    requires j <= |log|
  {
    if j == 0 then None
    else if log[j - 1].AgentEnabled? && Running(log, j - 1).None? then LastConfig(log, j - 1)
    else Running(log, j - 1)
  }

  lemma {:induction false} RunningStays(log: seq<Event>, i: nat, j: nat)
    requires i <= j <= |log| && Running(log, i).Some?
    ensures Running(log, j) == Running(log, i)
    decreases j
  {
    if i < j {
      RunningStays(log, i, j - 1);
    }
  }

  lemma {:induction false} SamePrefix(log: seq<Event>, longer: seq<Event>, j: nat)
    requires log <= longer && j <= |log|
    ensures LastConfig(log, j) == LastConfig(longer, j) && Running(log, j) == Running(longer, j)
  {
    if j > 0 {
      SamePrefix(log, longer, j - 1);
      assert log[j - 1] == longer[j - 1];
    }
  }

  predicate AfterConfigured(p: Phase) {
    p.Configured? || AfterFirewall(p)
  }

  /** The agent step is recorded, or this run has come past it. */
  predicate AgentIsUp(c: Control) {
    || (c.disk.Some? && Agent in c.disk.value.completedSteps)
    || (c.process.Up? && (Agent in c.process.memory.completedSteps || AfterEnable(c.process.phase)))
  }

  lemma ConfiguredStep(c: Control, e: Event)
    requires Next(c, e).Some? && Next(c, e).value.process.Up? && AfterConfigured(Next(c, e).value.process.phase)
    ensures e.AgentConfigured? || (c.process.Up? && AfterConfigured(c.process.phase))
  {
  }

  lemma AgentStep(c: Control, e: Event)
    requires Next(c, e).Some? && AgentIsUp(Next(c, e).value)
    ensures AgentIsUp(c) || (e.AgentEnabled? && c.process.Up? && AfterConfigured(c.process.phase))
  {
    if e.Saved? {
      AgentSave(c, e);
    }
  }

  lemma AgentSave(c: Control, e: Event)
    requires Next(c, e).Some? && e.Saved? && AgentIsUp(Next(c, e).value)
    ensures AgentIsUp(c)
  {
    if c.process.phase.Ran? && NextStage(c.process.memory).Some? {
      StagesAreInOrder(NextStage(c.process.memory).value);
    }
  }

  /** An agent that is up has a configuration, and so has one that is about to be enabled. */
  lemma {:induction false} AgentHasConfig(b: Behaviour, j: nat)
    requires b.Legal() && j <= |b.log|
    ensures b.states[j].process.Up? && AfterConfigured(b.states[j].process.phase) ==> LastConfig(b.log, j).Some?
    ensures AgentIsUp(b.states[j]) ==> Running(b.log, j).Some?
  {
    if j > 0 {
      AgentHasConfig(b, j - 1);
      assert b.StepAt(j - 1);
      var c, e := b.states[j - 1], b.log[j - 1];
      if b.states[j].process.Up? && AfterConfigured(b.states[j].process.phase) {
        ConfiguredStep(c, e);
      }
      if AgentIsUp(b.states[j]) {
        AgentStep(c, e);
        if AgentIsUp(c) {
          RunningStays(b.log, j - 1, j);
        }
      }
    }
  }

  lemma {:induction false} ConfigWasWritten(log: seq<Event>, j: nat) returns (i: nat)
    requires j <= |log| && LastConfig(log, j).Some?
    ensures i < j && log[i] == AgentConfigured(LastConfig(log, j).value)
  {
    if log[j - 1].AgentConfigured? {
      i := j - 1;
    } else {
      i := ConfigWasWritten(log, j - 1);
    }
  }

  lemma {:induction false} RunningWasWritten(log: seq<Event>, j: nat) returns (i: nat)
    requires j <= |log| && Running(log, j).Some?
    ensures i < j && log[i] == AgentConfigured(Running(log, j).value)
  {
    if log[j - 1].AgentEnabled? && Running(log, j - 1).None? {
      i := ConfigWasWritten(log, j - 1);
    } else {
      i := RunningWasWritten(log, j - 1);
    }
  }

  /** What the agent is to be configured with for an approval. */
  function ConfigFor(g: Grant): AgentConfig {
    AgentConfig(g.node.id, g.node.name, g.node.fqdn, g.node.panelDomainSuffix, Sha256(g.token))
  }

  /** The running agent has the configuration of some approval; and the latest one's, as long as there
      was no approval since it was configured. */
  lemma RunningFollowsAnApproval(b: Behaviour, j: nat) returns (i: nat)
    requires b.Legal() && FreshDashboard(b.log) && j <= |b.log| && Running(b.log, j).Some?
    ensures i < j && LastGrant(b.log, i).Some? && Running(b.log, j) == Some(ConfigFor(LastGrant(b.log, i).value))
    ensures (forall k | i <= k < j :: !b.log[k].Approved?) ==>
      LastGrant(b.log, j).Some? && Running(b.log, j) == Some(ConfigFor(LastGrant(b.log, j).value))
  {
    i := RunningWasWritten(b.log, j);
    EffectsFollowTheApproval(b, i);
    if forall k | i <= k < j :: !b.log[k].Approved? {
      SameApproval(b.log, i, j);
    }
  }

  /** Repairing a finished node, with nothing failing, leaves the old agent running: with the digest and the
      name of an approval before the repair. It has those of the new approval exactly if they are the same. */
  lemma RepairKeepsTheOldAgent(
      b: Behaviour, version: string, host: Host, skipFirewall: bool, g: Grant, key: string)
    returns (whole: Behaviour, i: nat)
    requires b.Legal() && FreshDashboard(b.log) && FinishedNode(b.Now()) && Supplied(g, key)
    ensures whole.Legal() && b.log <= whole.log && i < |b.log|
    ensures whole.Now().disk ==
      Some(FinalState(b.Now().disk.value.installerVersion, g, host.memoryBytes, host.diskBytes))
    ensures LastGrant(b.log, i).Some?
    ensures Running(whole.log, |whole.log|) == Some(ConfigFor(LastGrant(b.log, i).value))
    ensures Running(whole.log, |whole.log|) == Some(ConfigFor(g)) <==>
      ConfigFor(LastGrant(b.log, i).value) == ConfigFor(g)
  {
    whole := RepairOfFinishedNode(b, version, host, skipFirewall, g, key);
    assert ORDER[7] == Agent;
    AgentHasConfig(b, |b.log|);
    i := RunningFollowsAnApproval(b, |b.log|);
    SamePrefix(b.log, whole.log, |b.log|);
    RunningStays(whole.log, |b.log|, |whole.log|);
  }

  /** Install a node, approve it anew with another token, and repair it: the state file and the agent's
      configuration are the new ones, and the agent still runs with the digest of the first token. */
  lemma ReapprovedNodeKeepsItsAgent(
      version: string, host: Host, skipFirewall: bool, first: Grant, second: Grant, key: string)
    returns (whole: Behaviour)
    requires Supplied(first, key) && Supplied(second, key) && first.token != second.token
    ensures whole.Legal()
    ensures whole.Now().disk == Some(FinalState(version, second, host.memoryBytes, host.diskBytes))
    ensures Running(whole.log, |whole.log|).Some?
    ensures Running(whole.log, |whole.log|).value.tokenSHA256 == Sha256(first.token) != Sha256(second.token)
  {
    var b := FirstInstallation(version, host, skipFirewall, first, key);
    var i;
    whole, i := RepairKeepsTheOldAgent(b, version, host, skipFirewall, second, key);
    LastGrantIsInLog(b.log, i);
  }
}
