/** internal/firewall: `applyAt` as a transaction over the managed rule files, on a file system that
    the commands it runs may write to as they please. */
module FirewallApply {
  import opened Wrappers
  import opened Text
  import opened Files

  // ---- the include line ------------------------------------------------

  /** The text of the main configuration after `ensureNFTInclude`. */
  function WithInclude(data: string, directive: string): string {
    if Contains(data, directive) then data
    else (if data != [] && data[|data| - 1] != '\n' then data + "\n" else data) + directive + "\n"
  }

  /** `line` is one of the lines of `data`. */
  predicate HasLine(data: string, line: string) {
    exists i | 0 <= i <= |data| :: LineAt(data, line, i)
  }

  predicate LineAt(data: string, line: string, i: nat) {
    && OccursAt(data, line, i)
    && (i == 0 || (i <= |data| && data[i - 1] == '\n'))
    && (i + |line| == |data| || (i + |line| < |data| && data[i + |line|] == '\n'))
  }

  /** The original bytes stay, the include is there, and doing it again changes nothing. */
  lemma IncludeIsKeptAndStable(data: string, directive: string)
    ensures data <= WithInclude(data, directive)
    ensures Contains(WithInclude(data, directive), directive)
    ensures WithInclude(WithInclude(data, directive), directive) == WithInclude(data, directive)
  {
    if !Contains(data, directive) {
      var start := if data != [] && data[|data| - 1] != '\n' then data + "\n" else data;
      ContainsHere(start, directive, "\n");
    }
  }

  /** The include ends up on a line of its own exactly when it already was, or did not occur at all:
      an occurrence inside another line, such as a comment, is taken for the real one. */
  lemma IncludeHasItsOwnLine(data: string, directive: string)
    requires directive != []
    ensures HasLine(WithInclude(data, directive), directive) <==> HasLine(data, directive) || !Contains(data, directive)
  {
    if !Contains(data, directive) {
      var start := if data != [] && data[|data| - 1] != '\n' then data + "\n" else data;
      var after := WithInclude(data, directive);
      assert after == start + directive + "\n";
      assert OccursAt(after, directive, |start|);
      assert LineAt(after, directive, |start|);
    }
  }

  lemma CommentedIncludeIsMistaken(directive: string)
    requires directive != [] && '\n' !in directive && directive[0] != '#' && directive[0] != ' '
    ensures !HasLine(WithInclude("# " + directive, directive), directive)
  {
    var data := "# " + directive + "";
    ContainsHere("# ", directive, "");
    assert data == "# " + directive;
  }

  // ---- snapshots -------------------------------------------------------

  datatype Snapshot = Snapshot(path: Path, existed: bool, data: string, mode: nat)

  /** Existence, bytes and mode are those of the snapshot. */
  predicate Agrees(files: Tree, s: Snapshot) {
    if s.existed then s.path in files && files[s.path].data == s.data && files[s.path].mode == s.mode
    else s.path !in files
  }

  predicate AllAgree(files: Tree, snapshots: seq<Snapshot>) {
    forall i | 0 <= i < |snapshots| :: Agrees(files, snapshots[i])
  }

  predicate Distinct(snapshots: seq<Snapshot>) {
    && (forall i | 0 <= i < |snapshots| :: snapshots[i].path.Named?)
    && (forall i, j | 0 <= i < j < |snapshots| :: snapshots[i].path != snapshots[j].path)
  }

  /** Same existence, bytes and mode in two file systems. */
  ghost predicate Unchanged(before: Tree, after: Tree, p: Path) {
    && (p in before <==> p in after)
    && (p in before ==> before[p].data == after[p].data && before[p].mode == after[p].mode)
  }

  method SnapshotFiles(disk: Disk, paths: seq<Path>) returns (snapshots: Option<seq<Snapshot>>)
    requires disk.Valid()
    modifies disk`asked
    ensures disk.Valid()
    ensures snapshots.Some? ==>
      && |snapshots.value| == |paths| && AllAgree(disk.files, snapshots.value)
      && forall i | 0 <= i < |paths| :: snapshots.value[i].path == paths[i]
    ensures disk.Healthy() ==> snapshots.Some?
  {
    var taken: seq<Snapshot> := [];
    for i := 0 to |paths|
      invariant disk.Valid() && |taken| == i && AllAgree(disk.files, taken)
      invariant forall j | 0 <= j < i :: taken[j].path == paths[j]
    {
      var ok := disk.Other();
      if !ok {
        return None;
      }
      if paths[i] in disk.files {
        ok := disk.Other();
        if !ok {
          return None;
        }
        var file := disk.files[paths[i]];
        taken := taken + [Snapshot(paths[i], true, file.data, file.mode)];
      } else {
        taken := taken + [Snapshot(paths[i], false, "", 0)];
      }
    }
    return Some(taken);
  }

  method RestoreFiles(disk: Disk, snapshots: seq<Snapshot>) returns (ok: bool)
    requires disk.Valid() && Distinct(snapshots)
    modifies disk
    ensures disk.Valid()
    ensures ok ==> AllAgree(disk.files, snapshots)
    ensures disk.Healthy() ==> ok
    ensures forall p: Path | p.Named? && (forall i | 0 <= i < |snapshots| :: snapshots[i].path != p) ::
      SameAt(old(disk.files), disk.files, p)
  {
    for i := 0 to |snapshots|
      invariant disk.Valid() && AllAgree(disk.files, snapshots[..i])
      invariant forall p: Path | p.Named? && (forall j | 0 <= j < |snapshots| :: snapshots[j].path != p) ::
        SameAt(old(disk.files), disk.files, p)
    {
      ghost var before := disk.files;
      ok := RestoreOne(disk, snapshots[i]);
      assert forall j | 0 <= j < i :: Agrees(before, snapshots[j]) && SameAt(before, disk.files, snapshots[j].path);
      if !ok {
        return;
      }
      assert snapshots[..i + 1] == snapshots[..i] + [snapshots[i]];
    }
    assert snapshots[..|snapshots|] == snapshots;
    ok := true;
  }

  method RestoreOne(disk: Disk, s: Snapshot) returns (ok: bool)
    requires disk.Valid() && s.path.Named?
    modifies disk
    ensures disk.Valid()
    ensures ok ==> Agrees(disk.files, s)
    ensures disk.Healthy() ==> ok
    ensures forall p: Path | p.Named? && p != s.path :: SameAt(old(disk.files), disk.files, p)
  {
    if !s.existed {
      ok := disk.Remove(s.path);
      ok := ok || s.path !in disk.files;
    } else {
      ghost var base, serial := disk.files, disk.serial;
      ok := disk.AtomicWrite(s.path, s.data, s.mode);
      if !ok {
        TempOnly(base, disk.files, serial);
      }
    }
  }

  lemma TempOnly(base: Tree, tree: Tree, serial: nat)
    requires OnlyTemp(base, tree, serial)
    ensures forall p: Path | p.Named? :: SameAt(base, tree, p)
  {
    forall p: Path | p.Named?
      ensures SameAt(base, tree, p)
    {
      assert SameAt(tree - {Temp(serial)}, tree, p);
    }
  }

  // ---- commands --------------------------------------------------------

  /** A command that only looks: a rehearsal, a reload, or a syntax check. */
  predicate OnlyLooks(command: seq<string>) {
    || (|command| >= 2 && command[0] == "ufw" && command[1] == "--dry-run")
    || command == ["ufw", "reload"]
    || (|command| >= 2 && command[0] == "nft" && command[1] == "-c")
  }

  /** The command runner: it logs what it is asked to run; the n-th command succeeds or fails, and
      may leave any file system behind. */
  class Shell {
    var calls: seq<seq<string>>
    const succeeds: nat -> bool
    const effect: (nat, seq<string>, Tree) -> Tree
    /** The file system that each command has found. */
    ghost var seen: seq<Tree>

    ghost predicate Valid()
      reads this
    {
      |seen| == |calls|
    }

    constructor (succeeds: nat -> bool, effect: (nat, seq<string>, Tree) -> Tree)
      ensures Valid() && calls == []
    {
      calls, seen := [], [];
      this.succeeds, this.effect := succeeds, effect;
    }

    /** What the n-th command makes of `files`; it does not touch the installer's temporary files. */
    function After(n: nat, command: seq<string>, files: Tree): Tree {
      var tree := effect(n, command, files);
      (map p | p in tree && p.Named? :: tree[p]) + (map p | p in files && p.Temp? :: files[p])
    }

    /** The n-th command, if it is this one, leaves the named files alone. */
    ghost predicate Quiet(n: nat, command: seq<string>) {
      forall files: Tree, p: Path | p.Named? :: SameAt(files, effect(n, command, files), p)
    }

    /** Commands that only look leave the named files alone. */
    ghost predicate Faithful() {
      forall n: nat, command | OnlyLooks(command) :: Quiet(n, command)
    }

    method Run(disk: Disk, command: seq<string>) returns (ok: bool)
      requires disk.Valid() && Valid()
      modifies this`calls, this`seen, disk`files, disk`trail
      ensures disk.Valid() && Valid() && calls == old(calls) + [command] && seen == old(seen) + [old(disk.files)]
      ensures ok <==> succeeds(|old(calls)|)
      ensures disk.files == After(|old(calls)|, command, old(disk.files))
    {
      seen := seen + [disk.files];
      disk.Become(After(|calls|, command, disk.files));
      ok := succeeds(|calls|);
      calls := calls + [command];
    }
  }

  lemma QuietKeeps(shell: Shell, n: nat, command: seq<string>, files: Tree)
    requires shell.Quiet(n, command)
    ensures forall p: Path | p.Named? :: SameAt(files, shell.After(n, command, files), p)
  {
    forall p: Path | p.Named?
      ensures SameAt(files, shell.After(n, command, files), p)
    {
      assert SameAt(files, shell.effect(n, command, files), p);
    }
  }

  /** The commands in order, up to the first failure. */
  method RunUntilFailure(disk: Disk, shell: Shell, commands: seq<seq<string>>) returns (ok: bool)
    requires disk.Valid() && shell.Valid()
    modifies disk`files, disk`trail, shell`calls, shell`seen
    ensures disk.Valid() && shell.Valid()
    ensures |old(shell.calls)| <= |shell.calls| <= |old(shell.calls)| + |commands|
    ensures !ok ==> |old(shell.calls)| < |shell.calls| && !shell.succeeds(|shell.calls| - 1)
    ensures shell.calls == old(shell.calls) + commands[..|shell.calls| - |old(shell.calls)|]
    ensures old(shell.seen) <= shell.seen
    ensures commands != [] ==>
      |old(shell.calls)| < |shell.calls| && shell.seen[|old(shell.calls)|] == old(disk.files)
    ensures ok <==>
      && |shell.calls| == |old(shell.calls)| + |commands|
      && forall n | |old(shell.calls)| <= n < |shell.calls| :: shell.succeeds(n)
    ensures forall n | |old(shell.calls)| <= n < |shell.calls| - 1 :: shell.succeeds(n)
    ensures (forall i | 0 <= i < |commands| :: shell.Quiet(|old(shell.calls)| + i, commands[i])) ==>
      forall p: Path | p.Named? :: SameAt(old(disk.files), disk.files, p)
  {
    ghost var first, base := |shell.calls|, disk.files;
    for i := 0 to |commands|
      invariant disk.Valid() && shell.Valid() && shell.calls == old(shell.calls) + commands[..i]
      invariant old(shell.seen) <= shell.seen && (if i == 0 then disk.files == base else shell.seen[first] == base)
      invariant forall n | first <= n < first + i :: shell.succeeds(n)
      invariant (forall j | 0 <= j < i :: shell.Quiet(first + j, commands[j])) ==>
        forall p: Path | p.Named? :: SameAt(base, disk.files, p)
    {
      ghost var before := disk.files;
      ok := shell.Run(disk, commands[i]);
      assert commands[..i + 1] == commands[..i] + [commands[i]];
      if shell.Quiet(first + i, commands[i]) {
        QuietKeeps(shell, first + i, commands[i], before);
      }
      if !ok {
        assert !shell.succeeds(first + i);
        return;
      }
    }
    ok := true;
  }

  /** How an apply ends. The code reports a failed rollback of the live command only; the model
      tells all of them. */
  datatype Outcome = Applied | Untouched | RolledBack | RollbackFailed

  function DryRun(command: seq<string>): seq<string>
    requires command != []
  {
    ["ufw", "--dry-run"] + command[1..]
  }

  function DryRuns(commands: seq<seq<string>>): (r: seq<seq<string>>)
    requires forall i | 0 <= i < |commands| :: commands[i] != []
    ensures |r| == |commands|
  {
    seq(|commands|, i requires 0 <= i < |commands| => DryRun(commands[i]))
  }

  /** The rehearsal of a command is that command with `--dry-run` behind its program. */
  lemma DryRunsOnlyLook(commands: seq<seq<string>>, i: nat)
    requires (forall j | 0 <= j < |commands| :: commands[j] != []) && i < |commands|
    ensures OnlyLooks(DryRuns(commands)[i])
    ensures DryRuns(commands)[i][..2] == ["ufw", "--dry-run"] && DryRuns(commands)[i][2..] == commands[i][1..]
  {
  }

  const RELOAD: seq<string> := ["ufw", "reload"]

  /** The calls of one UFW transaction: dry runs up to the first failure; then, only after all of
      them, live commands up to the first failure and the reload that follows it. */
  predicate UfwCalls(made: seq<seq<string>>, commands: seq<seq<string>>, outcome: Outcome)
    requires forall i | 0 <= i < |commands| :: commands[i] != []
  {
    match outcome
    case Applied => made == DryRuns(commands) + commands
    case Untouched => |made| <= |commands| && made == DryRuns(commands)[..|made|]
    case _ => exists i | 0 <= i < |commands| :: StoppedAt(made, commands, i)
  }

  /** All dry runs, the live commands up to the one that failed, and the reload. */
  predicate StoppedAt(made: seq<seq<string>>, commands: seq<seq<string>>, i: nat)
    requires i < |commands| && forall j | 0 <= j < |commands| :: commands[j] != []
  {
    made == DryRuns(commands) + commands[..i + 1] + [RELOAD]
  }

  method ApplyUfw(disk: Disk, shell: Shell, commands: seq<seq<string>>, rules: Path, rules6: Path)
    returns (outcome: Outcome)
    requires disk.Valid() && shell.Valid() && rules.Named? && rules6.Named? && rules != rules6
    requires forall i | 0 <= i < |commands| :: commands[i] != []
    modifies disk, shell
    ensures disk.Valid() && shell.Valid()
    ensures old(shell.calls) <= shell.calls
    ensures UfwCalls(shell.calls[|old(shell.calls)|..], commands, outcome)
    // Whatever is run before as many calls as there are commands only looks; and anything that does more
    // is run after all of these have succeeded.
    ensures forall n | |old(shell.calls)| <= n < |shell.calls| && n < |old(shell.calls)| + |commands| ::
      OnlyLooks(shell.calls[n])
    ensures forall n, m | |old(shell.calls)| <= n < |old(shell.calls)| + |commands| && n < m < |shell.calls|
      && !OnlyLooks(shell.calls[m]) :: shell.succeeds(n)
    ensures outcome.Applied? ==>
      forall n | |old(shell.calls)| <= n < |old(shell.calls)| + 2 * |commands| :: shell.succeeds(n)
    ensures disk.Healthy() ==> !outcome.RollbackFailed?
    ensures
      disk.Healthy()
      && (forall n | |old(shell.calls)| <= n < |old(shell.calls)| + 2 * |commands| :: shell.succeeds(n)) ==>
      outcome.Applied?
    // Whatever the live commands wrote, the rule files are back as they were, and were so when UFW was told
    // to read them again.
    ensures (outcome.RolledBack? || outcome.Untouched?) && shell.Faithful() ==>
      Unchanged(old(disk.files), disk.files, rules) && Unchanged(old(disk.files), disk.files, rules6)
    ensures outcome.RolledBack? || outcome.RollbackFailed? ==>
      |shell.calls| > 0 && shell.calls[|shell.calls| - 1] == ["ufw", "reload"]
    ensures outcome.RolledBack? && shell.Faithful() ==>
      && |shell.seen| > 0
      && Unchanged(old(disk.files), shell.seen[|shell.seen| - 1], rules)
      && Unchanged(old(disk.files), shell.seen[|shell.seen| - 1], rules6)
  {
    ghost var first, base := |shell.calls|, disk.files;
    var snapshots := Rehearse(disk, shell, commands, rules, rules6);
    if snapshots.None? {
      return Untouched;
    }
    assert Agrees(disk.files, snapshots.value[0]) && Agrees(disk.files, snapshots.value[1]);
    ghost var rehearsed := shell.calls;
    ghost var ran;
    outcome, ran := RunOrRollBack(disk, shell, commands, snapshots.value);
    assert forall n | first <= n < first + |commands| :: shell.calls[n] == rehearsed[n];
    assert !outcome.Applied? ==> StoppedAt(shell.calls[first..], commands, ran);
  }

  /** All commands, or those up to the one that fails, the snapshots, and the reload. */
  method RunOrRollBack(disk: Disk, shell: Shell, commands: seq<seq<string>>, snapshots: seq<Snapshot>)
    returns (outcome: Outcome, ghost ran: nat)
    requires disk.Valid() && shell.Valid() && Distinct(snapshots)
    requires forall i | 0 <= i < |commands| :: commands[i] != []
    modifies disk, shell
    ensures disk.Valid() && shell.Valid() && !outcome.Untouched?
    ensures outcome.Applied? ==>
      && shell.calls == old(shell.calls) + commands
      && forall n | |old(shell.calls)| <= n < |shell.calls| :: shell.succeeds(n)
    ensures !outcome.Applied? ==>
      ran < |commands| && shell.calls == old(shell.calls) + commands[..ran + 1] + [["ufw", "reload"]]
    ensures disk.Healthy() ==> !outcome.RollbackFailed?
    ensures (forall n | |old(shell.calls)| <= n < |old(shell.calls)| + |commands| :: shell.succeeds(n)) ==>
      outcome.Applied?
    ensures outcome.RolledBack? && shell.Faithful() ==> AllAgree(disk.files, snapshots)
    ensures outcome.RolledBack? ==> |shell.seen| > 0 && AllAgree(shell.seen[|shell.seen| - 1], snapshots)
  {
    ghost var first := |shell.calls|;
    ran := 0;
    var ok := RunUntilFailure(disk, shell, commands);
    if ok {
      assert commands[..|commands|] == commands;
      return Applied, 0;
    }
    ran := |shell.calls| - first - 1;
    outcome := RollBack(disk, shell, snapshots);
  }

  /** All commands as dry runs, and snapshots of the rule files. */
  method Rehearse(disk: Disk, shell: Shell, commands: seq<seq<string>>, rules: Path, rules6: Path)
    returns (snapshots: Option<seq<Snapshot>>)
    requires disk.Valid() && shell.Valid() && rules.Named? && rules6.Named? && rules != rules6
    requires forall i | 0 <= i < |commands| :: commands[i] != []
    modifies disk, shell
    ensures disk.Valid() && shell.Valid()
    ensures |old(shell.calls)| <= |shell.calls| <= |old(shell.calls)| + |commands|
    ensures shell.calls == old(shell.calls) + DryRuns(commands)[..|shell.calls| - |old(shell.calls)|]
    ensures forall n | |old(shell.calls)| <= n < |shell.calls| :: OnlyLooks(shell.calls[n])
    ensures snapshots.Some? ==>
      && shell.calls == old(shell.calls) + DryRuns(commands)
      && forall n | |old(shell.calls)| <= n < |shell.calls| :: shell.succeeds(n)
    ensures disk.Healthy()
      && (forall n | |old(shell.calls)| <= n < |old(shell.calls)| + |commands| :: shell.succeeds(n))
      ==> snapshots.Some?
    ensures snapshots.Some? ==>
      && |snapshots.value| == 2 && snapshots.value[0].path == rules && snapshots.value[1].path == rules6
      && AllAgree(disk.files, snapshots.value)
    ensures shell.Faithful() ==> forall p: Path | p.Named? :: SameAt(old(disk.files), disk.files, p)
  {
    forall i | 0 <= i < |commands|
      ensures OnlyLooks(DryRuns(commands)[i])
    {
      DryRunsOnlyLook(commands, i);
    }
    var ok := RunUntilFailure(disk, shell, DryRuns(commands));
    if !ok {
      return None;
    }
    assert DryRuns(commands)[..|commands|] == DryRuns(commands);
    snapshots := SnapshotFiles(disk, [rules, rules6]);
  }

  /** Restore the rule files, and only then make UFW read them again. */
  method RollBack(disk: Disk, shell: Shell, snapshots: seq<Snapshot>) returns (outcome: Outcome)
    requires disk.Valid() && shell.Valid() && Distinct(snapshots)
    modifies disk, shell
    ensures disk.Valid() && shell.Valid() && shell.calls == old(shell.calls) + [["ufw", "reload"]]
    ensures outcome.RolledBack? || outcome.RollbackFailed?
    ensures disk.Healthy() ==> outcome.RolledBack?
    ensures |shell.seen| > 0
    ensures outcome.RolledBack? ==> AllAgree(shell.seen[|shell.seen| - 1], snapshots)
    ensures outcome.RolledBack? && shell.Faithful() ==> AllAgree(disk.files, snapshots)
  {
    var ok := RestoreFiles(disk, snapshots);
    ghost var restored := disk.files;
    var _ := shell.Run(disk, RELOAD);
    if shell.Faithful() {
      QuietKeeps(shell, |old(shell.calls)|, RELOAD, restored);
      assert forall i | 0 <= i < |snapshots| :: SameAt(restored, disk.files, snapshots[i].path);
    }
    return if ok then RolledBack else RollbackFailed;
  }

  // ---- the nftables transaction ----------------------------------------

  /** The file's text, or nothing when there is no file. */
  function TextOf(files: Tree, p: Path): string {
    if p in files then files[p].data else ""
  }

  method EnsureInclude(disk: Disk, main: Path, directive: string) returns (ok: bool)
    requires disk.Valid() && main.Named?
    modifies disk
    ensures disk.Valid()
    ensures ok ==> TextOf(disk.files, main) == WithInclude(old(TextOf(disk.files, main)), directive)
    ensures ok && Contains(old(TextOf(disk.files, main)), directive) ==> SameAt(old(disk.files), disk.files, main)
    ensures ok && !Contains(old(TextOf(disk.files, main)), directive) ==>
      main in disk.files && disk.files[main].mode == 0x1A4
    ensures !ok ==> SameAt(old(disk.files), disk.files, main)
    ensures disk.Healthy() ==> ok
    ensures forall p: Path | p.Named? && p != main :: SameAt(old(disk.files), disk.files, p)
  {
    if main in disk.files {
      ok := disk.Other();
      if !ok {
        return;
      }
    }
    var data := TextOf(disk.files, main);
    if Contains(data, directive) {
      return true;
    }
    ghost var base, serial := disk.files, disk.serial;
    ok := disk.AtomicWrite(main, WithInclude(data, directive), 0x1A4);
    if !ok {
      TempOnly(base, disk.files, serial);
    }
  }

  const NFT_CHECK: seq<string> := ["nft", "-c", "-f"]

  /** Both syntax checks, the persistence of the service, and only then the live load. */
  function NftCalls(path: string, main: string): seq<seq<string>> {
    [NFT_CHECK + [path], NFT_CHECK + [main], ["systemctl", "enable", "nftables"], ["nft", "-f", path]]
  }

  /** A command that loads rules from this file. */
  predicate Loads(command: seq<string>, path: string) {
    command == ["nft", "-f", path]
  }

  /** A command that checks the syntax of this file. */
  predicate Checks(command: seq<string>, path: string) {
    |command| == 4 && command[0] == "nft" && command[1] == "-c" && command[2] == "-f" && command[3] == path
  }

  /** Nothing is loaded before both files have been checked, and the service is enabled. */
  lemma LoadComesLast(path: string, main: string)
    ensures |NftCalls(path, main)| == 4
    ensures Checks(NftCalls(path, main)[0], path) && OnlyLooks(NftCalls(path, main)[0])
    ensures Checks(NftCalls(path, main)[1], main) && OnlyLooks(NftCalls(path, main)[1])
    ensures NftCalls(path, main)[2] == ["systemctl", "enable", "nftables"]
    ensures forall i, file | 0 <= i < 4 :: Loads(NftCalls(path, main)[i], file) <==> i == 3 && file == path
  {
  }

  /** `path` and `main` name the rule file and the main configuration; `text` is the rendered plan. */
  method ApplyNft(disk: Disk, shell: Shell, text: string, path: string, main: string, directive: string)
    returns (outcome: Outcome)
    requires disk.Valid() && shell.Valid() && path != main
    modifies disk, shell
    ensures disk.Valid() && shell.Valid()
    // The calls are a prefix of the fixed four; all four succeeded exactly when the plan is applied.
    ensures old(shell.calls) <= shell.calls && shell.calls[|old(shell.calls)|..] <= NftCalls(path, main)
    ensures outcome.Applied? <==>
      && |shell.calls| == |old(shell.calls)| + 4
      && forall n | |old(shell.calls)| <= n < |shell.calls| :: shell.succeeds(n)
    ensures forall n | |old(shell.calls)| <= n < |shell.calls| - 1 :: shell.succeeds(n)
    // The first check finds the new text and the include in place.
    ensures |old(shell.calls)| < |shell.calls| ==>
      && Named(path) in shell.seen[|old(shell.calls)|] && shell.seen[|old(shell.calls)|][Named(path)].data == text
      && TextOf(shell.seen[|old(shell.calls)|], Named(main))
           == WithInclude(old(TextOf(disk.files, Named(main))), directive)
    ensures disk.Healthy() ==> outcome.Applied? || outcome.RolledBack?
    ensures disk.Healthy() && (forall n | |old(shell.calls)| <= n < |old(shell.calls)| + 4 :: shell.succeeds(n)) ==>
      outcome.Applied?
    // Whatever the commands wrote, both files are as they were before the call.
    ensures outcome.Untouched? || outcome.RolledBack? ==>
      && Unchanged(old(disk.files), disk.files, Named(path))
      && Unchanged(old(disk.files), disk.files, Named(main))
    // With commands that write to neither file, success leaves the plan and the include.
    ensures outcome.Applied? && SparesFiles(shell, |old(shell.calls)|, NftCalls(path, main)) ==>
      && Named(path) in disk.files && disk.files[Named(path)] == File(text, 0x180, true)
      && TextOf(disk.files, Named(main)) == WithInclude(old(TextOf(disk.files, Named(main))), directive)
      && (Contains(old(TextOf(disk.files, Named(main))), directive) ==>
            SameAt(old(disk.files), disk.files, Named(main)))
  {
    var snapshots := SnapshotFiles(disk, [Named(path), Named(main)]);
    if snapshots.None? {
      return Untouched;
    }
    assert Agrees(disk.files, snapshots.value[0]) && Agrees(disk.files, snapshots.value[1]);
    ghost var base, serial := disk.files, disk.serial;
    var ok := disk.AtomicWrite(Named(path), text, 0x180);
    if !ok {
      TempOnly(base, disk.files, serial);
      return Untouched;
    }
    ok := IncludeAndLoad(disk, shell, path, main, directive);
    if ok {
      return Applied;
    }
    ok := RestoreFiles(disk, snapshots.value);
    if ok {
      assert Agrees(disk.files, snapshots.value[0]) && Agrees(disk.files, snapshots.value[1]);
      return RolledBack;
    }
    return RollbackFailed;
  }

  /** None of these commands, from the n-th call on, touches a named file. */
  ghost predicate SparesFiles(shell: Shell, n: nat, commands: seq<seq<string>>) {
    forall i | 0 <= i < |commands| :: shell.Quiet(n + i, commands[i])
  }

  /** From the include to the live load. */
  method IncludeAndLoad(disk: Disk, shell: Shell, path: string, main: string, directive: string) returns (ok: bool)
    requires disk.Valid() && shell.Valid() && path != main
    modifies disk, shell
    ensures disk.Valid() && shell.Valid()
    ensures old(shell.calls) <= shell.calls && shell.calls[|old(shell.calls)|..] <= NftCalls(path, main)
    ensures ok <==>
      && |shell.calls| == |old(shell.calls)| + 4
      && forall n | |old(shell.calls)| <= n < |shell.calls| :: shell.succeeds(n)
    ensures forall n | |old(shell.calls)| <= n < |shell.calls| - 1 :: shell.succeeds(n)
    ensures |old(shell.calls)| < |shell.calls| ==>
      && SameAt(old(disk.files), shell.seen[|old(shell.calls)|], Named(path))
      && TextOf(shell.seen[|old(shell.calls)|], Named(main))
           == WithInclude(old(TextOf(disk.files, Named(main))), directive)
    ensures disk.Healthy() && (forall n | |old(shell.calls)| <= n < |old(shell.calls)| + 4 :: shell.succeeds(n)) ==> ok
    ensures ok && SparesFiles(shell, |old(shell.calls)|, NftCalls(path, main)) ==>
      && SameAt(old(disk.files), disk.files, Named(path))
      && TextOf(disk.files, Named(main)) == WithInclude(old(TextOf(disk.files, Named(main))), directive)
      && (Contains(old(TextOf(disk.files, Named(main))), directive) ==>
            SameAt(old(disk.files), disk.files, Named(main)))
  {
    ok := EnsureInclude(disk, Named(main), directive);
    if ok {
      ghost var written := disk.files;
      ok := RunUntilFailure(disk, shell, NftCalls(path, main));
      if ok && SparesFiles(shell, |old(shell.calls)|, NftCalls(path, main)) {
        assert SameAt(written, disk.files, Named(path)) && SameAt(written, disk.files, Named(main));
      }
    }
  }

  /** Applying one plan twice leaves the same text as applying it once, and the second time writes
      nothing to the main configuration. */
  method ApplyNftTwice(disk: Disk, shell: Shell, text: string, path: string, main: string, directive: string)
    returns (first: Outcome, second: Outcome, once: Tree)
    requires disk.Valid() && shell.Valid() && path != main
    requires forall n: nat, command :: shell.Quiet(n, command)
    modifies disk, shell
    ensures first.Applied? && second.Applied? ==>
      SameAt(once, disk.files, Named(path)) && SameAt(once, disk.files, Named(main))
  {
    first := ApplyNft(disk, shell, text, path, main, directive);
    once := disk.files;
    IncludeIsKeptAndStable(TextOf(disk.files, Named(main)), directive);
    if first.Applied? {
      IncludeIsKeptAndStable(old(TextOf(disk.files, Named(main))), directive);
    }
    second := ApplyNft(disk, shell, text, path, main, directive);
  }
}
