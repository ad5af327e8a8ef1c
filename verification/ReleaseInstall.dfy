/** internal/release: `InstallAsset`, which replaces the agent binary through two renames and keeps
    the previous one as a backup. */
module ReleaseInstall {
  import opened Wrappers
  import opened Text
  import opened Files

  datatype Asset = Asset(url: string, sha256: string)

  function Lower(c: char): char {
    if 'A' <= c <= 'Z' then c - 'A' + 'a' else c
  }

  predicate EqualFold(a: string, b: string) {
    |a| == |b| && forall i | 0 <= i < |a| :: Lower(a[i]) == Lower(b[i])
  }

  /** The manifest's description of the asset is secure and complete, and the data is what it describes. */
  predicate Matches(asset: Asset, data: string, digest: string -> string) {
    HasPrefix(asset.url, "https://") && |asset.sha256| == 64 && EqualFold(digest(data), asset.sha256)
  }

  /** A complete binary at `p`, whose content survives the machine going down; `good` tells binaries
      from broken ones. */
  ghost predicate Whole(tree: Tree, p: Path, good: string -> bool) {
    p in tree && tree[p].synced && good(tree[p].data)
  }

  /** There is a complete binary at the target or its backup. */
  ghost predicate HasBinary(tree: Tree, target: Path, backup: Path, good: string -> bool) {
    Whole(tree, target, good) || Whole(tree, backup, good)
  }

  /** The target is complete; or it is missing, and the backup is complete. */
  ghost predicate Safe(tree: Tree, target: Path, backup: Path, good: string -> bool) {
    Whole(tree, target, good) || (target !in tree && Whole(tree, backup, good))
  }

  lemma SafeSurvives(tree: Tree, remains: Tree, target: Path, backup: Path, good: string -> bool)
    requires Safe(tree, target, backup, good) && MayRemain(tree, remains)
    ensures Safe(remains, target, backup, good) && HasBinary(remains, target, backup, good)
  {
    assert Whole(tree, target, good) ==> remains[target] == tree[target];
    assert Whole(tree, backup, good) ==> remains[backup] == tree[backup];
  }

  /** A broken target beside a complete backup: there is a complete binary, but the directory is not safe. */
  lemma BrokenTargetIsNotSafe(target: Path, backup: Path, whole: File, broken: File, good: string -> bool)
    requires target != backup && whole.synced && good(whole.data) && !good(broken.data)
    ensures
      var tree := map[target := broken, backup := whole];
      HasBinary(tree, target, backup, good) && !Safe(tree, target, backup, good)
  {
    var tree := map[target := broken, backup := whole];
    assert tree[backup] == whole && tree[target] == broken;
  }

  /** Every point since the `n`-th is safe. */
  ghost predicate SafeSince(disk: Disk, n: nat, target: Path, backup: Path, good: string -> bool)
    reads disk
  {
    forall k | n <= k < |disk.trail| :: Safe(disk.trail[k], target, backup, good)
  }

  ghost predicate BinarySince(disk: Disk, n: nat, target: Path, backup: Path, good: string -> bool)
    reads disk
  {
    forall k | n <= k < |disk.trail| :: HasBinary(disk.trail[k], target, backup, good)
  }

  /** Of the operations from the `from`-th on, all but at most one succeed. */
  ghost predicate AtMostOneFails(disk: Disk, from: nat)
    reads disk
  {
    forall i, j | from <= i < j < disk.asked :: disk.oracle(i).Done? || disk.oracle(j).Done?
  }

  predicate IsLowerHex(s: string) {
    forall i | 0 <= i < |s| :: '0' <= s[i] <= '9' || 'a' <= s[i] <= 'f'
  }

  /** For digests as they are printed, folding the case changes nothing: only the same digest matches. */
  lemma FoldedDigestsAreEqual(a: string, b: string)
    requires IsLowerHex(a) && IsLowerHex(b)
    ensures EqualFold(a, b) <==> a == b
  {
    assert forall i | 0 <= i < |a| :: Lower(a[i]) == a[i];
    assert forall i | 0 <= i < |b| :: Lower(b[i]) == b[i];
  }

  /** `fetched` is the download, or None when it failed. */
  method InstallAsset(
      disk: Disk, asset: Asset, fetched: Option<string>, digest: string -> string, name: string,
      ghost good: string -> bool)
    returns (ok: bool)
    requires disk.Valid()
    requires fetched.Some? && Matches(asset, fetched.value, digest) ==> good(fetched.value)
    modifies disk
    ensures disk.Valid() && old(|disk.trail|) <= |disk.trail| && disk.trail[..old(|disk.trail|)] == old(disk.trail)
    ensures ok ==> fetched.Some? && Matches(asset, fetched.value, digest)
    ensures ok ==> asset.url[..8] == "https://" && |asset.sha256| == 64
    ensures disk.Healthy() && fetched.Some? && Matches(asset, fetched.value, digest) ==> ok
    // A single operation that fails leaves the target as it was.
    ensures !ok && Named(name) in old(disk.files) && AtMostOneFails(disk, old(disk.asked)) ==>
      Named(name) in disk.files && disk.files[Named(name)] == old(disk.files)[Named(name)]
    ensures ok ==> Named(name) in disk.files && disk.files[Named(name)] == File(fetched.value, 0x1ED, true)
    // A target that was there has become the backup; without one the backup is what it was.
    ensures ok && Named(name) in old(disk.files) ==>
      Named(name + ".previous") in disk.files && disk.files[Named(name + ".previous")] == old(disk.files)[Named(name)]
    ensures ok && Named(name) !in old(disk.files) ==> SameAt(old(disk.files), disk.files, Named(name + ".previous"))
    // Wherever the call is interrupted, a safe directory stays safe.
    ensures old(Safe(disk.files, Named(name), Named(name + ".previous"), good)) ==>
      SafeSince(disk, old(|disk.trail|), Named(name), Named(name + ".previous"), good)
      && Safe(disk.files, Named(name), Named(name + ".previous"), good)
    // And no weaker condition is enough: a successful call from any other directory goes through a
    // point with no complete binary in either place.
    ensures ok ==>
      (BinarySince(disk, old(|disk.trail|), Named(name), Named(name + ".previous"), good)
       <==> old(Safe(disk.files, Named(name), Named(name + ".previous"), good)))
  {
    if !HasPrefix(asset.url, "https://") || |asset.sha256| != 64 || fetched.None? {
      return false;
    }
    var data := fetched.value;
    if !EqualFold(digest(data), asset.sha256) {
      return false;
    }
    ok := disk.Other();
    if !ok {
      return;
    }
    var temp;
    ghost var base, serial, from := disk.files, disk.serial, disk.asked;
    ok, temp := disk.WriteTemp(data, 0x1ED);
    TempApart(base, disk.files, serial, Named(name));
    if ok {
      ghost var mid := disk.asked;
      ok := Swap(disk, temp, Named(name), Named(name + ".previous"), good);
      assert AtMostOneFails(disk, from) ==> AtMostOneFails(disk, mid);
    }
  }

  lemma TempApart(base: Tree, tree: Tree, serial: nat, p: Path)
    requires OnlyTemp(base, tree, serial) && p.Named?
    ensures SameAt(base, tree, p)
  {
    assert SameAt(tree - {Temp(serial)}, tree, p);
  }

  /** From the finished temporary file to the end. */
  method Swap(disk: Disk, temp: Path, target: Path, backup: Path, ghost good: string -> bool) returns (ok: bool)
    requires disk.Valid() && temp.Temp? && target.Named? && backup.Named? && target != backup
    requires Whole(disk.files, temp, good)
    modifies disk
    ensures disk.Valid() && old(|disk.trail|) <= |disk.trail| && disk.trail[..old(|disk.trail|)] == old(disk.trail)
    ensures disk.Healthy() ==> ok
    ensures old(disk.asked) <= disk.asked
    ensures !ok && target in old(disk.files) && AtMostOneFails(disk, old(disk.asked)) ==>
      target in disk.files && disk.files[target] == old(disk.files)[target]
    ensures ok ==> target in disk.files && disk.files[target] == old(disk.files)[temp]
    ensures ok && target in old(disk.files) ==> backup in disk.files && disk.files[backup] == old(disk.files)[target]
    ensures ok && target !in old(disk.files) ==> SameAt(old(disk.files), disk.files, backup)
    ensures old(Safe(disk.files, target, backup, good)) ==>
      SafeSince(disk, old(|disk.trail|), target, backup, good) && Safe(disk.files, target, backup, good)
    ensures ok && target in old(disk.files) && !old(Whole(disk.files, target, good)) ==>
      !BinarySince(disk, old(|disk.trail|), target, backup, good)
  {
    if target in disk.files {
      ok := MoveAside(disk, target, backup, good);
      if !ok {
        var _ := disk.Remove(temp);
        return;
      }
    }
    ok := PutInPlace(disk, temp, target, backup, good);
  }

  /** The old backup goes away, and the target becomes the backup. */
  method MoveAside(disk: Disk, target: Path, backup: Path, ghost good: string -> bool) returns (ok: bool)
    requires disk.Valid() && target.Named? && backup.Named? && target != backup && target in disk.files
    modifies disk
    ensures disk.Valid() && old(|disk.trail|) <= |disk.trail| && disk.trail[..old(|disk.trail|)] == old(disk.trail)
    ensures disk.Healthy() ==> ok
    ensures disk.asked == old(disk.asked) + 2
    ensures ok ==> disk.files == old(disk.files)[backup := old(disk.files)[target]] - {target}
    ensures !ok ==> disk.files - {backup} == old(disk.files) - {backup}
    ensures !ok ==> SameAt(old(disk.files), disk.files, target)
    ensures old(Whole(disk.files, target, good)) ==> SafeSince(disk, old(|disk.trail|), target, backup, good)
    ensures ok && !old(Whole(disk.files, target, good)) ==>
      !BinarySince(disk, old(|disk.trail|), target, backup, good)
  {
    ghost var n := |disk.trail|;
    var _ := disk.Remove(backup);
    ok := disk.Rename(target, backup);
    if ok {
      ghost var k := |disk.trail| - 1;
      assert n <= k && disk.trail[k] == disk.files;
    }
  }

  /** The new binary takes the target's place, or the backup is moved back. */
  method PutInPlace(disk: Disk, temp: Path, target: Path, backup: Path, ghost good: string -> bool) returns (ok: bool)
    requires disk.Valid() && temp.Temp? && target.Named? && backup.Named? && target != backup
    requires Whole(disk.files, temp, good) && target !in disk.files
    modifies disk
    ensures disk.Valid() && old(|disk.trail|) <= |disk.trail| && disk.trail[..old(|disk.trail|)] == old(disk.trail)
    ensures disk.Healthy() ==> ok
    ensures ok <==> disk.oracle(old(disk.asked)).Done?
    ensures disk.asked == old(disk.asked) + if ok then 1 else 3
    ensures ok ==> disk.files == old(disk.files)[target := old(disk.files)[temp]] - {temp}
    // After a failure the backup is back in the target's place, and the temporary file gone.
    ensures !ok && backup in old(disk.files) && disk.oracle(old(disk.asked) + 1).Done? ==>
      target in disk.files && disk.files[target] == old(disk.files)[backup]
    ensures !ok && disk.oracle(old(disk.asked) + 2).Done? ==> temp !in disk.files
    ensures old(Safe(disk.files, target, backup, good)) ==>
      SafeSince(disk, old(|disk.trail|), target, backup, good) && Safe(disk.files, target, backup, good)
  {
    ok := disk.Rename(temp, target);
    if !ok {
      var _ := disk.Rename(backup, target);
      var _ := disk.Remove(temp);
    }
  }

  /** Any number of replacements, each failing or succeeding as it may. */
  method InstallRepeatedly(
      disk: Disk, assets: seq<(Asset, Option<string>)>, digest: string -> string, name: string,
      ghost good: string -> bool)
    requires disk.Valid() && Safe(disk.files, Named(name), Named(name + ".previous"), good)
    requires forall i | 0 <= i < |assets| ::
      assets[i].1.Some? && Matches(assets[i].0, assets[i].1.value, digest) ==> good(assets[i].1.value)
    modifies disk
    ensures disk.Valid() && Safe(disk.files, Named(name), Named(name + ".previous"), good)
    ensures SafeSince(disk, old(|disk.trail|), Named(name), Named(name + ".previous"), good)
  {
    for i := 0 to |assets|
      invariant disk.Valid() && Safe(disk.files, Named(name), Named(name + ".previous"), good)
      invariant old(|disk.trail|) <= |disk.trail|
      invariant SafeSince(disk, old(|disk.trail|), Named(name), Named(name + ".previous"), good)
    {
      var _ := InstallAsset(disk, assets[i].0, assets[i].1, digest, name, good);
    }
  }

  /** Repairing a broken agent in which nothing fails: the new binary ends up in place, and on the way
      there is a point at which the complete backup is gone and the new binary not yet there. */
  method InstallOverBroken(
      disk: Disk, asset: Asset, data: string, digest: string -> string, name: string, ghost good: string -> bool)
    requires disk.Valid() && disk.Healthy() && Matches(asset, data, digest) && good(data)
    requires Named(name) in disk.files && !good(disk.files[Named(name)].data)
    requires HasBinary(disk.files, Named(name), Named(name + ".previous"), good)
    modifies disk
    ensures Whole(disk.files, Named(name), good)
    ensures !BinarySince(disk, old(|disk.trail|), Named(name), Named(name + ".previous"), good)
  {
    var _ := InstallAsset(disk, asset, Some(data), digest, name, good);
  }
}
