# CentralCloud node installer: a verified model

The installer turns a bare host into a CentralCloud node: it enrolls the host with the dashboard, installs
packages, Docker, PostgreSQL and Traefik, replaces the agent binary, closes the firewall, validates the
result and reports completion. It is meant to be stopped anywhere - by a failed command, a failed request or
a crash - and started again. This project models the parts where that is hard and proves what they keep.

The outside world is an oracle everywhere: each command, request or file operation may succeed, fail before
or after it took effect, or be the point where the process dies.

## How the model is laid out

| file | models |
|---|---|
| `Protocol.dfy` | the state file, and the installation protocol as an acceptor over a log of everything that ever took effect on one node, over any number of runs |
| `ProtocolSafety.dfy` | what holds of every such log: order of the recorded steps, stages, progress, gates |
| `ProtocolResume.dfy` | what the runs of one enrollment have in common: identity, and one completion key |
| `ProtocolRecovery.dfy` | the run in which every effect succeeds, and the proof that interrupted runs end where it ends; what a repair does to a finished node |
| `HostRecovery.dfy` | the files and containers that interrupted stages leave on the host, and exactly when a later run can still finish |
| `RunningAgent.dfy` | which configuration the running agent has, after an installation and after a repair |
| `Installer.dfy` | `install` and `provision` as methods of a class, proved to produce legal logs only |
| `Validation.dfy` | `Run` and `RunFinal` |
| `Files.dfy` | the file system, and the temp-write-sync-rename replacement that four packages share |
| `StateStore.dfy` | `Store.Load` and `Store.Save` as an atomic register on that file system |
| `ReleaseInstall.dfy`, `Versions.dfy` | replacement of the agent binary; version parser and compatibility gate |
| `Firewall.dfy`, `FirewallScript.dfy` | one policy compiled to UFW commands and to an nftables script, both read back from their text, and what they mean |
| `Cidr.dfy` | network blocks read from their text |
| `FirewallApply.dfy` | the firewall transaction with snapshots and rollback |
| `Polling.dfy` | the device-flow polling loop |
| `DockerDaemon.dfy` | the merge into daemon.json |
| `PostgresAccess.dfy` | the managed block of pg_hba.conf, read back from its text, and what it means |
| `PostgresPassword.dfy`, `PostgresRole.dfy` | the provisioner's password, its file and its quoting; the rendered SQL read back, and what it does to the roles |
| `Traefik.dfy`, `TraefikRoute.dfy` | the reconciler of the proxy's files, network and container; the route file read back from its text |
| `Text.dfy`, `Wrappers.dfy` | string operations and their inverse laws; `Option` |

Code that changes things step by step is a class or a method with loops, proved against functions of its input
or its old state; what those functions promise is proved in lemmas. Text that the installer hands to another program
- UFW commands, the nftables script, pg_hba.conf, SQL, the proxy's route - is read back by a reader with words of its
own, and the theorems about it are about what was read.

## Premises

- The dashboard hands out non-empty, fresh enrollment identifiers and non-empty bootstrap tokens
  (`FreshDashboard`). The code does not check it.
- SHA-256 is a free constructor in the protocol, and a parameter in the binary replacement. JSON codecs,
  `netip.ParsePrefix` and `strings.ToLower` are parameters. JSON decoding inverts encoding; text that the prefix
  parser takes has no comma, blank or line break in it.
- Runs of the installer on one host do not overlap; the code takes no lock. They all use one pinned Traefik image and
  one package source, and between them nothing else edits the files and containers that the stages look at.
- Bootstrap tokens do not expire: the code never looks at the expiry it is told, and would resume an expired one for
  ever.
- `os.WriteFile` empties the file first and takes several system calls; a process may die with any beginning of the
  data written.
- The host is not rebooted, as far as the running agent and the running Docker daemon are concerned.
- Outside the four table stages nothing that an interrupted run leaves makes a later one fail: these steps are
  commands and atomic replacements. In `HostRecovery.dfy` a run is ended by its process dying; pg_hba.conf is there
  when the PostgreSQL stage begins, and which texts of it let PostgreSQL start and its superuser in is a parameter, as
  is which texts of pgdg.list `apt-get update` accepts. What apt, dpkg and curl themselves leave when they are
  interrupted is not part of it.
- The meaning of pg_hba.conf is one line at a time: records continued over lines by a trailing backslash do not
  occur in it.
- UFW's default policy and whether it is active are parameters, and no rule that was there before matches the five
  managed ports. An inactive UFW admits everything. An nftables `accept` ends evaluation in this chain only.
- `nft` loads a script as a whole or not at all. Flushing a table removes the rules of its chains and keeps its sets with
  their elements; defining a set or a chain that is there adds to it, and its type, hook and priority must be the same.
- A UFW command with `--dry-run` behind its program, `ufw reload` and `nft -c` write none of the files in question; any
  other command may write any of them.
- The names that `os.CreateTemp` picks are unused, and no command touches the installer's temporary files.
- Going down keeps names and synced content; the content of a file that was not synced may be anything.

## What turned out different from what one might expect

- `repair` is documented to replay only incomplete stages and to resume the same enrollment (README.md:38,
  docs/operations.md:5). Only the four table stages are ever skipped; firewall, agent service and validation run
  again in every run that gets there (`ProtocolSafety.GatesHold`). On a finished node the token is gone, so
  `repair` enrolls anew and skips the stages (`ProtocolRecovery.RepairOfFinishedNode`), including the one that
  routes the host name: after a rename the proxy keeps the old name (`ProtocolRecovery.RenamedNodeKeepsItsRoute`).
  Exactly when a run resumes is `ProtocolResume.ResumesExactlyWhenTokenIsThere`. The model follows the code.
- Not every crash can be recovered from. A process that dies while it creates the password file leaves a file of
  fewer than 32 characters, which every later run refuses (`PostgresPassword.RetryShortFile`), so that no later run
  ever finishes (`HostRecovery.StrandedIsForever`); every first run goes through such a point
  (`HostRecovery.FirstRunCanStrand`). A pgdg.list cut short that `apt-get update` refuses
  (`HostRecovery.TornSourceStrands`), and a pg_hba.conf cut short behind the marker with which PostgreSQL does not
  serve (`HostRecovery.TornAccessStrands`), strand the node for good in the same way. Exactly when a run can finish is
  `HostRecovery.RecoverableExactlyWhenStagesAre`, and that Docker and Traefik add no further way is
  `HostRecovery.StrandedExactly`.
- A merge that makes daemon.json longer than 1 MiB is refused by the next run
  (`DockerDaemon.MergeIsRepeatableExactly`).
- The backup of pg_hba.conf need not hold the original: a call that dies while writing it leaves it cut short, and
  the next one takes it for a backup (`PostgresAccess.TornBackupLosesTheOriginal`; the exact condition is
  `PostgresAccess.OriginalIsKeptExactly`).
- What `os.WriteFile` wrote is not synced, while the state file that records the stage is, so a machine going down
  may lose the one and keep the other (`HostRecovery.RecordedPasswordMayBeLost`).
- A process that dies between the replacement of daemon.json and the restart of Docker leaves the daemon on its old
  configuration for good: the next run finds nothing to change (`DockerDaemon.DeathBeforeRestart`; exactly when the
  daemon has the merge is in `DockerDaemon.InstallService`).
- `systemctl enable --now` does not restart an agent that runs: after a repair the agent has the new configuration on
  disk and runs with the old one, token digest included (`RunningAgent.ReapprovedNodeKeepsItsAgent`; exactly when the
  two agree is `RunningAgent.RepairKeepsTheOldAgent`).
- The version in the state file stays that of the installer that ran first
  (`ProtocolSafety.SavedStepsAreOrdered`).
- UFW and nftables plans agree unless ports clash, and `Build` does not check for clashes:
  `FirewallScript.BackendsAgreeExactly` gives the exact condition, `FirewallScript.InstallerPlansAgreeExactly` that
  for the installer's own port 9443, and `FirewallScript.SshOnAgentPortDisagrees` the failing case.
- Applying another nftables plan does not take back what an earlier one admitted: the flush removes the rules, and the
  sets keep their elements. `FirewallScript.ReloadMeaning` gives the decision after every load, and
  `FirewallScript.SecondPlanMeansItselfExactly` exactly when a second plan means what it says.
- An include that occurs only inside a comment is taken for the real one: `FirewallApply.IncludeHasItsOwnLine`
  gives the exact condition, `FirewallApply.CommentedIncludeIsMistaken` an input.
- A `slow_down` lowers an interval above thirty seconds (`Polling.SlowDownLowersExactlyAboveCeiling`), and an
  interval that is missing from the answer counts as zero and bounds nothing
  (`Polling.MissingIntervalIsUnbounded`), where section 3.2 of RFC 8628 says five seconds.
- Replacing the binary keeps a complete one at the target or its backup exactly when the target is complete, or
  missing with a complete backup: a complete backup next to a broken target is deleted first
  (`ReleaseInstall.InstallAsset`, with the failing case in `ReleaseInstall.InstallOverBroken`).
- pg_hba.conf is rewritten in place. A rewrite cut short behind the first line is taken for a finished one
  (`PostgresAccess.TornBlockIsTakenForManaged`), and a marker that occurs anywhere keeps the block out
  (`PostgresAccess.BlockIsInFront`).
- A daemon.json that holds `null` makes the merge write to a nil map (`DockerDaemon.ConfigureDaemonAt`).
- A password that contains the whole dollar-quote tag closes the SQL body early; nothing else does
  (`PostgresPassword.OnlyTheTagClosesEarly`), and the statement does what it is for exactly without it
  (`PostgresRole.SqlMeaning`).

## Model

| member | source | states |
|---|---|---|
| Protocol.HasCompleted | internal/state/state.go:111-118 | the loop finds a step exactly when it is recorded |
| Protocol.CompleteStep | internal/state/state.go:100-109 | a step is recorded once, at the end, is the latest one, and nothing recorded before is lost |
| Protocol.ExtendIsLegal | internal/cli/installer.go:67-306 | an event that the acceptor allows after a legal behaviour makes a legal behaviour |
| Protocol.LogDeterminesStates | internal/cli/installer.go:67-306 | disk, process and phase at every point are determined by what took effect before it |
| ProtocolSafety.SoundStep | internal/cli/installer.go:67-306 | every step of the protocol keeps the invariant tying disk, memory and phase together, and never shortens the recorded steps |
| ProtocolSafety.ReachableIsSound | internal/cli/installer.go:67-306 | the invariant holds at every point of every sequence of runs, each ended anywhere |
| ProtocolSafety.SavedStepsAreOrdered | internal/cli/installer.go:93-98 | every state file ever written records a prefix of the ten steps in their order, contains its own latest step, extends every file written earlier, and keeps the first installer's version |
| ProtocolSafety.DiskGrows | internal/state/state.go:100-109 | between any two points of any sequence of runs the recorded steps on disk only grow |
| ProtocolSafety.StageFollowsThoseBefore | internal/cli/installer.go:175-195 | a table stage is executed only while the file records the approval and exactly the stages before it: packages, Docker, PostgreSQL, Traefik |
| ProtocolSafety.RecordedStageNeverRunsAgain | internal/cli/installer.go:181-195 | a table stage that some file records as complete is never executed after that file was written |
| ProtocolSafety.RepeatedStageWasNotRecorded | internal/cli/installer.go:181-195 | no file written between two executions of one stage records it |
| ProtocolSafety.ProgressFollowsDisk | internal/cli/installer.go:175-187 | the percentage reported is twelve times the number of the stage that the disk calls for |
| ProtocolSafety.ProgressNeverGoesBack | internal/cli/installer.go:175-187 | percentages shown to the dashboard never decrease, over all runs on the node |
| ProtocolSafety.PhasesAreWitnessed | internal/cli/installer.go:248-288 | what a phase presupposes took effect in the same run |
| ProtocolSafety.GatesHold | internal/cli/installer.go:248-298 | the agent service is enabled only after the same run applied the firewall unless told to skip it; a completion request follows enabling and seven passing checks of the same run, and reports exactly those |
| ProtocolSafety.EnabledAgentIsInPlace | internal/cli/installer.go:196-272 | the agent service is enabled only once the same run has replaced the binary and the configuration, on a node whose file records all four stages |
| ProtocolSafety.ReportTellsTheHost | internal/cli/installer.go:288-300 | every completion request of every run reports the memory and the disk that the same run found on the host |
| ProtocolSafety.CompletionIsAcknowledged | internal/cli/installer.go:288-305 | completion is recorded only once the same run has sent the request for that enrollment and the dashboard has acknowledged it, in a file without secrets |
| ProtocolResume.ReachableIsIdentified | internal/cli/installer.go:128-166 | from approval to completion, disk and memory hold the identity, release and digest of the latest approval |
| ProtocolResume.PersistedKeyMeansReadyToComplete | internal/cli/installer.go:278-287 | a file with a completion key records everything up to validation and still holds bootstrap token and token digest |
| ProtocolResume.OnlyBearerIsSaved | internal/cli/installer.go:137-149 | an approval gets into a state file only with bearer authentication and a token of at least 32 characters, as that token's digest |
| ProtocolResume.EffectsFollowTheApproval | internal/cli/installer.go:155-166 | what provisioning does with the approval is the same whether the run enrolled itself or rebuilt the approval from disk |
| ProtocolResume.ResumesExactlyWhenTokenIsThere | internal/cli/installer.go:100 | a run continues the enrollment on disk exactly when the file holds both an identifier and a token, and otherwise asks for a new approval |
| ProtocolResume.KeyIsDurableBeforeItIsSent | internal/cli/installer.go:279-288 | before every completion request a file with its key and enrollment was written |
| ProtocolResume.SentKeyStays | internal/cli/installer.go:279-305 | once a key was sent, the disk keeps that key for as long as the enrollment is open |
| ProtocolResume.OneKeyPerEnrollment | internal/cli/installer.go:279-288 | all completion requests ever sent for one enrollment, by any run, carry one idempotency key |
| ProtocolResume.CompletedAtMostOnce | internal/enrollment/client.go:158-162 | a dashboard that answers a repeated key from its records completes a node at most once, and exactly once as soon as one request was sent |
| ProtocolRecovery.Advance | internal/cli/installer.go:67-306 | in every phase the next event of an undisturbed run is allowed and brings the run closer to its end for the same enrollment |
| ProtocolRecovery.FinishingFinishes | internal/cli/installer.go:169-306 | whatever point a run has come to, if every effect from there on succeeds, stages included, it ends with the finished state file, cleared of secrets |
| ProtocolRecovery.UninterruptedRunFinishes | internal/cli/installer.go:67-167 | from every state file and process that crashes can leave, one run in which every effect succeeds, stages included, finishes, for the open enrollment if there is one; whether the stages can succeed is stated in HostRecovery |
| ProtocolRecovery.FirstSaveFollowsItsStart | internal/cli/installer.go:73-98 | the first file written carries the version of the run that wrote it |
| ProtocolRecovery.InterruptedRunsEndLikeOneRun | internal/cli/installer.go:67-306 | if any sequence of interrupted runs records completion, the file equals what one run without a fault leaves behind from an empty host, with the same approval and host probe |
| ProtocolRecovery.RepairOfFinishedNode | internal/cli/installer.go:100-147 | a repair of a finished node ends under a newly approved enrollment, configures the agent with its name, and executes none of the four stages |
| ProtocolRecovery.RouteNamesTheAgent | internal/cli/installer.go:179 | within one enrollment the proxy routes the name that the agent is configured with, whichever runs did the one and the other |
| ProtocolRecovery.RepairKeepsTheOldRoute | internal/cli/installer.go:179-184 | after a repair of a finished node the last name routed is the one approved when Traefik was set up, the agent has the newly approved one, and they agree exactly if the name did not change |
| ProtocolRecovery.RenamedNodeKeepsItsRoute | internal/cli/installer.go:100-184 | a behaviour in which nothing fails and they differ: install under one name, repair under another |
| RunningAgent.RunningFollowsAnApproval | internal/cli/installer.go:230-272 | the running agent has the configuration of some approval, and the latest one's as long as there was none since it was configured |
| RunningAgent.RepairKeepsTheOldAgent | internal/cli/installer.go:270 | after a repair of a finished node in which nothing fails the agent runs with the configuration of an approval before it, and with the new one's exactly if the two are the same |
| RunningAgent.ReapprovedNodeKeepsItsAgent | internal/cli/installer.go:270 | install, approve anew with another token, repair: the running agent has the digest of the first token |
| HostRecovery.RecoverableExactlyWhenStagesAre | internal/cli/installer.go:181-195 | from every state and host that failures and crashes can leave, a further run can finish if and only if every stage not yet recorded can succeed on that host, the two package updates and the start of PostgreSQL included |
| HostRecovery.AbleStagesFinish | internal/cli/installer.go:67-306 | if they can, the run ends with the finished state file, for the open enrollment if there is one |
| HostRecovery.StrandedExactly | internal/postgresql/postgresql.go:17-90 | Docker and Traefik can be retried after every crash; a node without a password at the start can be finished exactly if packages are recorded, or apt accepts what is left of pgdg.list and the installer's own text; and PostgreSQL is recorded, or serves with what is left of pg_hba.conf and the password file is missing or has at least 32 characters |
| HostRecovery.TornSourceStrands | internal/packages/packages.go:14-41 | every run that executes the packages stage could have died in it with a beginning of pgdg.list written that apt refuses, after which no run ever finishes |
| HostRecovery.TornAccessStrands | internal/postgresql/postgresql.go:105-123 | a run that rewrites pg_hba.conf could have died with a beginning of it written; if that has the marker and PostgreSQL does not serve with it, no run ever finishes |
| HostRecovery.InstallPackages | internal/packages/packages.go:14-41 | the stage with its two updates: what an interrupted one may leave of pgdg.list is exactly what a successful one goes through; without a fault it succeeds exactly if apt accepts the file it finds and the one it writes |
| HostRecovery.StrandedIsForever | internal/cli/installer.go:181-195 | with a stage unrecorded and its pgdg.list refused, its password file short, or its managed pg_hba.conf not served with, no run ever finishes, however many follow |
| HostRecovery.EveryFirstPasswordCanStrand | internal/postgresql/postgresql.go:135-145 | every run that executes the PostgreSQL stage without a password file could have died in it with the file just emptied, after which no run ever finishes |
| HostRecovery.FirstRunCanStrand | internal/postgresql/postgresql.go:135-145 | the first run on a host on which all stages can succeed has such a point |
| HostRecovery.RecordedPasswordMayBeLost | internal/postgresql/postgresql.go:142 | creating the password and then saving the state, with no fault, leaves files of which the machine going down may keep the record and lose the password |
| HostRecovery.PostgresFiles | internal/postgresql/postgresql.go:17-28 | the files of the stage: what an interrupted stage may leave is exactly what one that gets past them goes through, each torn password, backup and pg_hba.conf included |
| HostRecovery.ConfigurePostgres | internal/postgresql/postgresql.go:17-83 | the whole stage: likewise, and without a fault it succeeds exactly if PostgreSQL serves with the managed text, and the password is missing, or long enough and does not close the SQL body |
| HostRecovery.ConfigureDocker | internal/docker/docker.go:44-47 | daemon.json in the stage: an interrupted one may leave exactly what a successful one goes through, and without a fault it succeeds exactly if the file can be merged into |
| HostRecovery.ConfigureProxy | internal/traefik/traefik.go:24-142 | the Traefik stage: every ending is one that an interrupted stage may have, and without a fault it succeeds exactly if image, name, paths and container fit |
| Installer.CheckManifest | internal/cli/installer.go:205-214 | the manifest passes exactly when the installer is new enough, it names the approved release, and has an asset for the architecture |
| Installer.Machine.Install | internal/cli/installer.go:67-167 | only legal events are added, success means the finished phase, a dry run writes nothing, and a healthy world leads to success |
| Installer.Machine.Reconcile | internal/cli/installer.go:90-167 | from the preflight save to the end, by enrolling or from the enrollment on disk |
| Installer.Machine.ObtainApproval | internal/cli/installer.go:101-127 | with a token, or by device flow unless the run is non-interactive, the approval is the dashboard's |
| Installer.Machine.Claim | internal/cli/installer.go:128-149 | identity, release and digest of a usable approval are in memory and durable before provisioning starts |
| Installer.Machine.Provision | internal/cli/installer.go:169-306 | ends in the finished phase or stops in a legal log; reads nothing from the approval that is not also in the state |
| Installer.Machine.RunStages | internal/cli/installer.go:175-195 | the loop leaves no table stage unrecorded and skips exactly the recorded ones |
| Installer.Machine.RunStage | internal/cli/installer.go:185-194 | a stage is recorded in memory and on disk after it was executed, and its progress report may fail |
| Installer.Machine.Announce | internal/cli/installer.go:187 | a progress report that fails does not end the run, only the death of the process does |
| Installer.Machine.ReplaceBinary | internal/cli/installer.go:196-217 | the binary is replaced only by the release that the approval names |
| Installer.Machine.EnsureUser | internal/cli/installer.go:218-222 | the run goes on exactly if the user is there or could be added |
| Installer.Machine.ConfigureAgent | internal/cli/installer.go:218-247 | the agent is configured with the approved identity and the digest in the state |
| Installer.Machine.BringUp | internal/cli/installer.go:248-306 | firewall, service, validation and completion in this order |
| Installer.Machine.Validate | internal/cli/installer.go:266-278 | the final gate passed with seven checks and left no validation network |
| Installer.Machine.PersistKey | internal/cli/installer.go:279-287 | a key is made and durable before the request |
| Installer.Machine.RequestCompletion | internal/cli/installer.go:288-300 | the request carries identity, token, key, release, host resources and checks of this node |
| Installer.Machine.Finalize | internal/cli/installer.go:301-305 | secrets are cleared and completion is recorded in one save |
| Installer.Machine.Invoke | internal/cli/installer.go:46-60 | success leaves all ten steps and no secret on disk; the history stays legal however the process ends |
| Installer.Machine.InvokeAll | internal/cli/installer.go:46-306 | after any number of invocations the file is well-formed and no enrollment was completed twice |
| Validation.Run | internal/validation/validation.go:15-36 | succeeds exactly when all six probes do, and otherwise reports the passed ones and the first that failed |
| Validation.RunFinal | internal/validation/validation.go:38-52 | succeeds exactly when all probes pass and the ephemeral network was created and removed; touches no other network |
| Files.Disk.WriteTemp | internal/state/state.go:76-97 | a temporary file that is complete, has its mode and is synced, or an error; nothing else changes at any point |
| Files.Disk.AtomicWrite | internal/firewall/firewall.go:258-284 | at every point the path has its old content or all of the new; success is the new content and failure the old |
| Files.Disk.WriteFile | internal/postgresql/postgresql.go:97-99 | a success goes through every beginning of the data, the empty one first, and any failure leaves one of them or the old file; nothing is synced |
| StateStore.StampIsStable | internal/state/state.go:61-66 | saving what was loaded changes nothing but the time |
| StateStore.LoadCases | internal/state/state.go:43-59 | a missing file is a state of schema 0 with nothing recorded; a file is taken exactly if it decodes and has schema 1 |
| StateStore.RegisterSurvives | internal/state/state.go:61-98 | going down at any point of a save leaves a register that loads as the old or the new value |
| StateStore.Store.Save | internal/state/state.go:61-98 | an atomic register: success stores the stamped value readable by root only, failure stores nothing, every crash point loads as one of the two |
| StateStore.Store.Load | internal/state/state.go:43-59 | a missing file is the zero value; a file of another schema or an undecodable one is an error; reading changes nothing |
| ReleaseInstall.SafeSurvives | internal/release/release.go:119-168 | a safe directory stays safe when the machine goes down |
| ReleaseInstall.InstallAsset | internal/release/release.go:119-168 | success installs the checksummed data and turns a target that was there into the backup; if a single operation fails, the target is what it was; a safe directory is safe at every crash point, and no weaker condition keeps a complete binary in either place |
| ReleaseInstall.FoldedDigestsAreEqual | internal/release/release.go:127-130 | on digests in lower-case hexadecimal the case-folded comparison holds exactly of the same digest |
| ReleaseInstall.MoveAside | internal/release/release.go:151-157 | the target becomes the backup or stays; from a broken target there is a point without a complete binary |
| ReleaseInstall.PutInPlace | internal/release/release.go:162-166 | the new binary takes the target's place; if that rename fails and the next one works, the backup is the target again |
| ReleaseInstall.InstallRepeatedly | internal/release/release.go:119-168 | every crash point of any number of replacements leaves a complete binary at the target or its backup |
| ReleaseInstall.BrokenTargetIsNotSafe | internal/release/release.go:151-157 | a broken target beside a complete backup holds a complete binary and is not safe |
| ReleaseInstall.InstallOverBroken | internal/release/release.go:151-161 | replacing a broken target in which nothing fails goes through a point without a complete binary in either place |
| Versions.SemanticVersion | internal/release/release.go:67-83 | gives the three numbers exactly when the text has three numeric fields before the first dash |
| Versions.CheckInstallerCompatibility | internal/release/release.go:43-65 | accepts exactly when the installer's triple is lexicographically at least the minimum's, with each error exactly in its case |
| Versions.IsOlder | internal/release/release.go:56-64 | the component-wise loop is the lexicographic order |
| Versions.AcceptsIsATotalPreorder | internal/release/release.go:43-65 | the gate is a total preorder on parseable versions, with equality of the triples as its equivalence |
| Versions.OlderIsRefused | internal/release/release.go:43-65 | of two printed versions, the installer is accepted exactly if it is not the older one by major, minor and patch number |
| Versions.NegativeComponentIsUnreachable | internal/release/release.go:67-79 | after the cut at the first dash no component is negative, whatever the text |
| Versions.ParsePrint | internal/release/release.go:67-83 | parsing inverts printing x.y.z, with or without v, and ignores everything from the first dash |
| Versions.PreReleaseCountsAsRelease | internal/release/release.go:67-83 | a pre-release and its release accept each other |
| Firewall.Build | internal/firewall/firewall.go:26-57 | succeeds exactly for two ports, only valid blocks, at least one, and a known backend; builds the commands in order, and names the first invalid block |
| Firewall.UfwPlanReadsBack | internal/firewall/firewall.go:38-50 | reading the argument vectors back gives the ports and exactly the blocks, in order |
| Firewall.PlanActivates | internal/firewall/firewall.go:50 | behind the commands of a plan UFW is active |
| Firewall.UfwMeaning | internal/firewall/firewall.go:38-50 | first-match evaluation of the whole UFW plan for every port, source and default policy, whether UFW was active before or not |
| FirewallScript.NFT | internal/firewall/firewall.go:69-99 | the loops and appends render the script |
| FirewallScript.ScriptReadsBack | internal/firewall/firewall.go:69-99 | reading the text word by word gives back the flushed table, each set with its type and the blocks of its family in order, hook and policy of the chain, and its rules in order |
| FirewallScript.ScriptLoads | internal/firewall/firewall.go:69-99 | onto a ruleset without the table, or with an earlier version of it, the script loads: chain and rules are replaced, blocks are added to the sets, and no other table changes |
| FirewallScript.SplitKeepsBlocks | internal/firewall/firewall.go:70-79 | the split by family loses, invents and repeats no block |
| FirewallScript.FamilySplitKeepsCoverage | internal/firewall/firewall.go:70-79 | some block covers a source exactly when some block of its own family does |
| FirewallScript.NftMeaning | internal/firewall/firewall.go:69-99 | first-match evaluation of the text loaded where the table is not there yet, with rules, sets and policy as read, for every port and source of either family |
| FirewallScript.ReloadMeaning | internal/firewall/firewall.go:69-99 | the decision after loading over an earlier version, for every port and source: elements that a set already had stay admitted if the plan has any block of their family |
| FirewallScript.SecondPlanMeansItselfExactly | internal/firewall/firewall.go:69-99 | a second plan loaded over a first one decides as if it were alone, if and only if each source of the first is listed by the second or the second lists no block of its family |
| FirewallScript.PlansMeanThePolicy | internal/firewall/firewall.go:38-99 | for clear ports both plans, read back, admit SSH, 80 and 443, admit the agent port exactly from the listed blocks, and refuse 5432 |
| FirewallScript.BackendsAgreeExactly | internal/firewall/firewall.go:26-99 | the two plans agree on the managed ports if and only if the ports are clear, or the blocks admit everyone and SSH is not on a refused port |
| FirewallScript.InstallerPlansAgreeExactly | internal/cli/installer.go:257-262 | for the installer's agent port 9443 the plans agree if and only if SSH is not on 5432, and not on 9443 unless every source is listed |
| FirewallScript.SshOnAgentPortDisagrees | internal/firewall/firewall.go:38-99 | with SSH on 9443 UFW admits a source that is not listed and nftables refuses it |
| FirewallApply.IncludeIsKeptAndStable | internal/firewall/firewall.go:200-214 | the original bytes stay a prefix, the include occurs, and doing it again changes nothing |
| FirewallApply.IncludeHasItsOwnLine | internal/firewall/firewall.go:200-214 | the include ends up on its own line exactly when it already was on one or did not occur at all |
| FirewallApply.CommentedIncludeIsMistaken | internal/firewall/firewall.go:206-208 | a commented include is an input for which it does not |
| FirewallApply.SnapshotFiles | internal/firewall/firewall.go:223-241 | existence, bytes and mode of every path |
| FirewallApply.RestoreFiles | internal/firewall/firewall.go:243-256 | success brings existence, bytes and mode back, whatever was there in between; no other file changes |
| FirewallApply.RunUntilFailure | internal/firewall/firewall.go:115-118 | the commands run in order up to the first that fails |
| FirewallApply.DryRunsOnlyLook | internal/firewall/firewall.go:108-110 | the rehearsal of each command is the command itself with --dry-run behind its program |
| FirewallApply.Rehearse | internal/firewall/firewall.go:108-117 | only commands that look, those of the plan with --dry-run, up to the first failure, before the snapshots are taken; the files are as they were |
| FirewallApply.ApplyUfw | internal/firewall/firewall.go:107-133 | nothing that does more than look is run before every command was rehearsed with success; after a failure the rule files are as they were when UFW is told to read them again |
| FirewallApply.RollBack | internal/firewall/firewall.go:119-129 | the snapshots are restored before the one reload, which finds them in place |
| FirewallApply.EnsureInclude | internal/firewall/firewall.go:200-214 | success adds the include to whatever text was there, failure changes nothing |
| FirewallApply.LoadComesLast | internal/firewall/firewall.go:148-162 | of the four commands only the last one loads, behind the syntax checks of both files |
| FirewallApply.ApplyNft | internal/firewall/firewall.go:134-166 | the first check finds the new text and the include in place, and the live load comes last; whatever the commands wrote, a rolled-back call leaves both files as they were; success leaves plan and include |
| FirewallApply.ApplyNftTwice | internal/firewall/firewall.go:134-166 | two successful applies of one plan leave the same files as one |
| Polling.Poll | internal/enrollment/client.go:100-136 | the loop sends the requests, sleeps the intervals and ends as the recursive specification does |
| Polling.BackOff | internal/enrollment/client.go:122-126 | the sleep before each request is the starting interval plus five seconds per slow_down so far, capped at thirty |
| Polling.RequestsFollowSleeps | internal/enrollment/client.go:106-112 | every request, the first included, is sent a whole sleep after the poll began or the reply before it, which was before the deadline |
| Polling.SleepsNeverDecrease | internal/enrollment/client.go:106-126 | from a starting interval up to thirty seconds, no sleep of a whole poll is shorter than an earlier one, and none exceeds thirty seconds |
| Polling.SlowDownLowersExactlyAboveCeiling | internal/enrollment/client.go:122-126 | a slow_down lowers the interval exactly above thirty seconds and adds five exactly up to twenty-five |
| Polling.RequestsAreBounded | internal/enrollment/client.go:104-110 | for an interval of at least one second, at most ceil(ExpiresIn / min(Interval, 30)) requests are sent, however late the sleeps |
| Polling.RequestsAreNotLate | internal/enrollment/client.go:104-112 | with exact sleeps and instantaneous requests each request leaves less than thirty seconds after the deadline |
| Polling.MissingIntervalIsUnbounded | internal/enrollment/client.go:105 | with the zero interval of a missing field any number of requests fits before the deadline |
| Polling.ResultFollowsLastReply | internal/enrollment/client.go:113-135 | every reply but the last was pending or slow_down, and the last one decides between approval and failure; an interrupted poll was cancelled or ran out of turns |
| Polling.PollEndsByItself | internal/enrollment/client.go:100-136 | a poll that is not cancelled ends by itself within the bound on its requests |
| DockerDaemon.ConfigureDaemonAt | internal/docker/docker.go:62-151 | success means the merge, rewritten exactly if it changed something and with its mode kept; every error leaves the file; without a fault it fails exactly on what cannot be merged into; at every crash point the file is the old or the merged one |
| DockerDaemon.MergeIsRepeatableExactly | internal/docker/docker.go:77-84 | a merged file can be merged into again, and is then left alone, exactly if the merge did not make it longer than 1 MiB |
| DockerDaemon.InstallService | internal/docker/docker.go:44-58 | after success the service was enabled, restarted if the file changed, and answered; the daemon runs with the file as it is now if and only if it did not run before, this call changed the file, or it ran with that file already |
| DockerDaemon.DeathBeforeRestart | internal/docker/docker.go:44-55 | dying between replacement and restart, and calling again with no fault: success, and the daemon goes on with the configuration from before |
| DockerDaemon.MergeInPlace | internal/docker/docker.go:94-117 | the updates under the flag compute the merge in any iteration order, and the flag tells exactly whether it changed |
| DockerDaemon.AddDefaults | internal/docker/docker.go:107-112 | the loop adds exactly the missing defaults, in any iteration order |
| DockerDaemon.MergeIsIdempotent | internal/docker/docker.go:94-117 | merging again changes nothing, and merging opens no port |
| DockerDaemon.MergeKeeps | internal/docker/docker.go:94-117 | every other key and every option that was there keeps its value |
| DockerDaemon.MergeAddsOnlyRotation | internal/docker/docker.go:94-117 | no key but the driver and, for json-file, the options is added |
| DockerDaemon.MergeRotatesJsonFile | internal/docker/docker.go:100-112 | the json-file driver ends up with max-size 10m and max-file 3, unless they were set otherwise |
| DockerDaemon.TcpHostsAreRefused | internal/docker/docker.go:86-92 | of a list of hosts, the merge refuses exactly one with a text that begins with tcp:// |
| PostgresAccess.ManagedIsIdempotent | internal/postgresql/postgresql.go:105-108 | running again changes nothing |
| PostgresAccess.BlockIsInFront | internal/postgresql/postgresql.go:105-123 | the block is in front afterwards exactly when it was, or its first line occurred nowhere |
| PostgresAccess.NetworkReads | internal/postgresql/postgresql.go:109-113 | the networks written, read from their texts, are 127.0.0.1, ::1, 172.16.0.0/12 and everything of either family |
| PostgresAccess.RecordReads | internal/postgresql/postgresql.go:109-113 | a managed line reads as a host record for all databases and users with its network and method |
| PostgresAccess.SettingsRead | internal/postgresql/postgresql.go:96-99 | the settings file reads as two parameters: listening on all addresses, and password hashes of the method that the records ask for |
| PostgresAccess.BlockDecides | internal/postgresql/postgresql.go:109-116 | first-match evaluation of the block in front of any text |
| PostgresAccess.ManagedTextDecides | internal/postgresql/postgresql.go:109-123 | with line meanings read from the text itself, TCP connections that are not for replication get scram exactly from 127.0.0.1, ::1 and 172.16.0.0/12 and reject otherwise; all others are decided as by the original text |
| PostgresAccess.ConfigureAccess | internal/postgresql/postgresql.go:91-123 | success leaves the settings, the managed text and a backup, made only if there was none; the points of a successful call are exactly what a call ended anywhere may leave, and no other file changes |
| PostgresAccess.OriginalIsKeptExactly | internal/postgresql/postgresql.go:116-122 | from the call on that rewrites the file, over any number of calls each ended anywhere, the original can be recovered at every point if and only if that call found no backup or one that held the original |
| PostgresAccess.TornBackupLosesTheOriginal | internal/postgresql/postgresql.go:116-122 | two calls, of which the first dies in the backup, after which the original is gone |
| PostgresAccess.RerunAfterTornWrite | internal/postgresql/postgresql.go:105-123 | after a rewrite cut short, running again completes the file exactly when it was complete or still the original text |
| PostgresAccess.TornBlockIsTakenForManaged | internal/postgresql/postgresql.go:105-108 | cut short behind the first line, it is taken for a finished one |
| PostgresPassword.ScanQuote | internal/postgresql/postgresql.go:148-150 | scanning a quoted value gives it back and stops at the template's closing quote |
| PostgresPassword.BothLiteralsArePassword | internal/postgresql/postgresql.go:29-38 | both literals of the rendered body stand for the password |
| PostgresPassword.OnlyTheTagClosesEarly | internal/postgresql/postgresql.go:29-38 | the dollar-quoted body is closed early exactly when the password contains the whole tag; without a dollar sign it cannot be |
| PostgresPassword.QuoteKeepsOccurrences | internal/postgresql/postgresql.go:148-150 | a text without quotes occurs in the quoted value exactly when it occurs in the value |
| PostgresRole.SqlMeaning | internal/postgresql/postgresql.go:29-38 | the rendered statement, read token by token, gives the role its password and the rights LOGIN, CREATEDB and CREATEROLE, whether it was there or not, and touches no other role, if and only if the password does not contain the tag |
| PostgresPassword.EnsurePassword | internal/postgresql/postgresql.go:125-146 | the password returned is the one the file holds; an existing file is kept, a short one refused; a new one needs no quoting and is not synced; its creation goes through every beginning of it, the empty file first, and no ending leaves anything else |
| PostgresPassword.RetryShortFile | internal/postgresql/postgresql.go:125-130 | a file left too short is never repaired: no later call succeeds |
| PostgresPassword.CutShortIsRetryable | internal/postgresql/postgresql.go:127-142 | a creation cut short can be retried exactly if at least 32 characters were written |
| PostgresPassword.EnsureTwice | internal/postgresql/postgresql.go:125-146 | after a first call ended anywhere, a call without a fault succeeds exactly if the file is missing or has at least 32 characters, and returns a password that was returned before |
| Traefik.WantedFits | internal/traefik/traefik.go:95-138 | the container a call creates is one that later calls accept, and its profile label is there exactly when it serves routes |
| Traefik.RouteReadsBack | internal/traefik/traefik.go:66-84 | the rendered file, read back, routes exactly the host, whose characters cannot end the rule early, to the agent's address |
| TraefikRoute.RouteMeaning | internal/traefik/traefik.go:69-82 | read by its indentation, the file gives the host, the entry point, the certificate resolver and, through the service that the router names, the address of the agent |
| Traefik.ContainerFindsFiles | internal/traefik/traefik.go:48-137 | the container created finds certificates and route under the paths at which the call leaves them on the host |
| Traefik.BackendIsTheAgent | internal/traefik/traefik.go:81-124 | the route forwards to a host name that the container is given, at the port that the firewall plan opens for the proxy |
| Traefik.HostnameIsTame | internal/traefik/traefik.go:171 | a name that matches the pattern has only letters, digits, dashes and dots in it |
| Traefik.PrepareFiles | internal/traefik/traefik.go:35-85 | certificates that are there stay in all cases; success makes them private and writes the route |
| Traefik.Engine.EnsureContainer | internal/traefik/traefik.go:95-140 | a container that is there is kept as created, one that does not fit is refused and left alone, a missing one is created |
| Traefik.Engine.Reconcile | internal/traefik/traefik.go:87-140 | success means that the image was pulled, and network and fitting running container are there; every failure leaves a state from which a call can still succeed exactly if it could before; a settled state is a fixed point |
| Traefik.ReconcileAfterFaults | internal/traefik/traefik.go:87-140 | after any number of calls that fail or die anywhere, one undisturbed call settles exactly if the first could have |
| Traefik.ConfigureAgentAt | internal/traefik/traefik.go:28-142 | an unpinned image or a bad name changes nothing; success serves the route to the name; no other network or container is touched |

## Left out

- Installer.Machine.Install: effects that the log does not record (copying the installer itself, users, ownership, reading the gateway) only decide whether the run goes on; its contract does not say that they took place.
- Installer.Machine.Install: the removal of the token file precedes the save of the claim, so a crash between the two loses the token; the protocol starts from the approval and claims nothing about it.
- Installer.Machine.ConfigureAgent: the listen address, read from the Docker network, is not part of the configuration modelled.
- FirewallApply.ApplyUfw: that the rule files come back presupposes that commands with `--dry-run` and the reload write neither of them; live commands may write anything.
- FirewallApply.ApplyNft: `systemctl enable` and created directories are not rolled back by the code and not covered.
- Files.Disk.AtomicWrite: a rename is taken as durable at once, since the code syncs no directory; ownership and symbolic links are not modelled.
- ReleaseInstall.InstallAsset: `os.Stat` answers truly; in the code an error of it other than a missing file skips the backup.
- PostgresAccess.ConfigureAccess: likewise, an error of `os.Stat` other than a missing file skips the backup.
- HostRecovery.RecoverableExactlyWhenStagesAre: commands are taken to succeed when nothing fails; the check of the agent that protected files are closed to others, and a machine going down in the middle of a stage are not part of it.
- Polling.Poll: durations are unbounded integers, not 64-bit nanoseconds, so overflow of a huge interval or expiry is not modelled.
- Versions.SemanticVersion: white space is that of ASCII.
- FirewallScript.ScriptLoads: whether nft accepts overlapping intervals in one set is nft's affair and not modelled; where it refuses, nothing is loaded and the apply rolls back.
- DockerDaemon.ConfigureDaemonAt: the check that daemon.json is a regular file is not modelled.
- PostgresPassword.BothLiteralsArePassword: passwords are sequences of characters, with no encoding.
- Traefik.Engine.Reconcile: convergence is stated for image references without white space around them (the code compares a trimmed one), and published ports that are already taken show up only as a failed command.
- The state file's backups, source list and update time are modelled in `StateStore` only, and its created files not at all, as the protocol does not read them.
- A state passed by value and returned stands for the Go variable `current`, which `Complete` updates through a pointer.
- `DetectSSHPort` and `DetectBackend`: reading of command output, which would add only easy members; their results are inputs of `Build`.
- `NetworkCIDR` and `NetworkGateway`: two commands whose output is trimmed.
- HTTP transport, JSON and YAML codecs, Ed25519, SHA-256, X.509 and random generation are library code.
- `internal/config`, `internal/detection`, `internal/packages`, `internal/runner`, `internal/logging`, `internal/tls`, `internal/agent` and `cmd`: field-by-field code, a text template and lists of commands.
- `status`, `doctor`, `update`, `uninstall`, user messages, and the bootstrap script.
