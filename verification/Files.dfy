/** The file-system operations that the installer replaces files with, each of which may fail, and
    the temp-write-sync-rename sequence that state, firewall, release and docker share. Temporary
    files live in a name space of their own: the names that os.CreateTemp picks are unused. */
module Files {
  import opened Wrappers

  datatype Path = Named(name: string) | Temp(serial: nat)

  /** `synced` tells whether the content would survive the machine going down now. */
  datatype File = File(data: string, mode: nat, synced: bool)

  type Tree = map<Path, File>

  /** A failing write may have written part of the data. */
  datatype Answer = Done | Fails(written: nat)

  /** What the machine may find after going down in `before`: names and synced files are kept,
      the content of any other file may be anything. */
  ghost predicate MayRemain(before: Tree, after: Tree) {
    && after.Keys == before.Keys
    && forall p | p in before.Keys && before[p].synced :: after[p] == before[p]
  }

  /** Going down spares the content of a file exactly when it was synced. */
  lemma SurvivesExactlyWhenSynced(tree: Tree, p: Path)
    requires p in tree
    ensures (forall after: Tree | MayRemain(tree, after) :: after[p].data == tree[p].data) <==> tree[p].synced
  {
    if !tree[p].synced {
      var other := tree[p := tree[p].(data := tree[p].data + "?")];
      assert MayRemain(tree, other) && other[p].data != tree[p].data;
    }
  }

  /** The content of the file, when there is one. */
  function DataAt(files: Tree, p: Path): Option<string> {
    if p in files then Some(files[p].data) else None
  }

  ghost predicate SameAt(a: Tree, b: Tree, p: Path) {
    (p in a <==> p in b) && (p in a ==> a[p] == b[p])
  }

  /** Apart from one temporary file, `tree` is `base`. */
  ghost predicate OnlyTemp(base: Tree, tree: Tree, serial: nat) {
    tree - {Temp(serial)} == base
  }

  /** Apart from one temporary file, `tree` is `base`, or `base` with `file` in place at `path`. */
  ghost predicate OldOrNew(base: Tree, tree: Tree, serial: nat, path: Path, file: File) {
    OnlyTemp(base, tree, serial) || tree == base[path := file]
  }

  /** `tree` is `base` with a beginning of `data` in the file, and not synced. */
  ghost predicate WritePoint(base: Tree, tree: Tree, path: Path, data: string, mode: nat) {
    path in tree && tree[path].data <= data && tree == base[path := File(tree[path].data, mode, false)]
  }

  /** One of the trees from the `from`-th on holds this content. */
  ghost predicate Passes(trail: seq<Tree>, from: nat, path: Path, data: string) {
    exists k | from <= k < |trail| :: DataAt(trail[k], path) == Some(data)
  }

  lemma PrefixOfNext(data: string, i: nat, part: string)
    requires i < |data| && part <= data[..i + 1]
    ensures part <= data[..i] || part == data[..i + 1]
  {
    assert |part| <= i ==> part == data[..|part|] <= data[..i];
  }

  lemma PassesMore(trail: seq<Tree>, tree: Tree, from: nat, path: Path, data: string)
    requires Passes(trail, from, path, data)
    ensures Passes(trail + [tree], from, path, data)
  {
    var k :| from <= k < |trail| && DataAt(trail[k], path) == Some(data);
    assert (trail + [tree])[k] == trail[k];
  }

  class Disk {
    var files: Tree
    var serial: nat
    var asked: nat
    const oracle: nat -> Answer
    /** Every tree there has been, oldest first: the points at which the machine may go down. */
    ghost var trail: seq<Tree>

    /** Nothing fails. */
    ghost predicate Healthy() {
      forall n: nat :: oracle(n).Done?
    }

    ghost predicate Valid()
      reads this
    {
      && (forall p | p in files.Keys && p.Temp? :: p.serial < serial)
      && trail != [] && trail[|trail| - 1] == files
    }

    /** The points that this call has gone through since there were `n` of them. */
    ghost predicate Since(n: nat, base: Tree, firstTemp: nat)
      reads this
    {
      n <= |trail| && forall k | n <= k < |trail| :: OnlyTemp(base, trail[k], firstTemp)
    }

    constructor (oracle: nat -> Answer)
      ensures Valid() && files == map[]
    {
      files, serial, asked, trail := map[], 0, 0, [map[]];
      this.oracle := oracle;
    }

    /** A later process on the files that an earlier one left. */
    constructor After(earlier: Disk, oracle: nat -> Answer)
      requires earlier.Valid()
      ensures Valid() && files == earlier.files && trail == [files] && this.oracle == oracle
    {
      files, serial, asked, trail := earlier.files, earlier.serial, 0, [earlier.files];
      this.oracle := oracle;
    }

    method Ask() returns (a: Answer)
      modifies this`asked
      ensures a == oracle(old(asked)) && asked == old(asked) + 1
    {
      a := oracle(asked);
      asked := asked + 1;
    }

    /** An effect on something this model leaves out, such as os.MkdirAll. */
    method Other() returns (ok: bool)
      modifies this`asked
      ensures (ok <==> oracle(old(asked)).Done?) && asked == old(asked) + 1
    {
      var a := Ask();
      ok := a.Done?;
    }

    method Become(tree: Tree)
      requires Valid() && forall p | p in tree.Keys && p.Temp? :: p.serial < serial
      modifies this`files, this`trail
      ensures Valid() && files == tree && trail == old(trail) + [tree]
    {
      files := tree;
      trail := trail + [tree];
    }

    method CreateTemp() returns (ok: bool, path: Path)
      requires Valid()
      modifies this
      ensures Valid()
      ensures !ok ==> files == old(files) && trail == old(trail) && serial == old(serial)
      ensures path == Temp(old(serial)) && (ok ==> serial == old(serial) + 1)
      ensures ok ==> files == old(files)[path := File("", 0x180, false)] && trail == old(trail) + [files]
      ensures (ok <==> oracle(old(asked)).Done?) && asked == old(asked) + 1
    {
      var a := Ask();
      ok, path := a.Done?, Temp(serial);
      if ok {
        serial := serial + 1;
        Become(files[path := File("", 0x180, false)]);
      }
    }

    method Chmod(path: Path, mode: nat) returns (ok: bool)
      requires Valid() && path in files
      modifies this`files, this`asked, this`trail
      ensures Valid()
      ensures files == if ok then old(files)[path := old(files[path]).(mode := mode)] else old(files)
      ensures trail == if ok then old(trail) + [files] else old(trail)
      ensures (ok <==> oracle(old(asked)).Done?) && asked == old(asked) + 1
    {
      var a := Ask();
      ok := a.Done?;
      if ok {
        Become(files[path := files[path].(mode := mode)]);
      }
    }

    method Write(path: Path, data: string) returns (ok: bool)
      requires Valid() && path in files
      modifies this`files, this`asked, this`trail
      ensures Valid() && trail == old(trail) + [files]
      ensures exists part: string ::
        files == old(files)[path := File(part, old(files[path]).mode, false)] && (ok ==> part == data)
      ensures (ok <==> oracle(old(asked)).Done?) && asked == old(asked) + 1
    {
      var a := Ask();
      ok := a.Done?;
      var part := if ok || a.written >= |data| then data else data[..a.written];
      Become(files[path := File(part, files[path].mode, false)]);
    }

    method Sync(path: Path) returns (ok: bool)
      requires Valid() && path in files
      modifies this`files, this`asked, this`trail
      ensures Valid()
      ensures files == if ok then old(files)[path := old(files[path]).(synced := true)] else old(files)
      ensures trail == if ok then old(trail) + [files] else old(trail)
      ensures (ok <==> oracle(old(asked)).Done?) && asked == old(asked) + 1
    {
      var a := Ask();
      ok := a.Done?;
      if ok {
        Become(files[path := files[path].(synced := true)]);
      }
    }

    /** os.Rename: atomic, and replaces what was at `target`. */
    method Rename(source: Path, target: Path) returns (ok: bool)
      requires Valid() && target.Named? && source != target
      modifies this`files, this`asked, this`trail
      ensures Valid()
      ensures ok ==> source in old(files) && files == old(files)[target := old(files[source])] - {source}
      ensures !ok ==> files == old(files)
      ensures (ok <==> oracle(old(asked)).Done? && source in old(files)) && asked == old(asked) + 1
      ensures trail == if ok then old(trail) + [files] else old(trail)
    {
      var a := Ask();
      ok := a.Done? && source in files;
      if ok {
        Become(files[target := files[source]] - {source});
      }
    }

    /** os.Remove; a missing file is an error too. */
    method Remove(path: Path) returns (ok: bool)
      requires Valid()
      modifies this`files, this`asked, this`trail
      ensures Valid()
      ensures ok ==> path in old(files) && files == old(files) - {path}
      ensures !ok ==> files == old(files)
      ensures (ok <==> oracle(old(asked)).Done? && path in old(files)) && asked == old(asked) + 1
      ensures trail == if ok then old(trail) + [files] else old(trail)
    {
      var a := Ask();
      ok := a.Done? && path in files;
      if ok {
        Become(files - {path});
      }
    }

    /** os.WriteFile: truncates what is there, then writes; an existing file keeps its mode. It takes
        several system calls, so the process may die with any beginning of the data written - and a
        call that succeeds goes through all of them. */
    method WriteFile(path: Path, data: string, mode: nat) returns (ok: bool)
      requires Valid() && path.Named?
      modifies this`files, this`asked, this`trail
      ensures Valid() && old(|trail|) <= |trail| && trail[..old(|trail|)] == old(trail)
      ensures Healthy() ==> ok
      ensures old(asked) < asked
      ensures ok ==> asked == old(asked) + 2 && oracle(old(asked)).Done? && oracle(old(asked) + 1).Done?
      ensures
        var m := if path in old(files) then old(files)[path].mode else mode;
        && (WritePoint(old(files), files, path, data, m) || (!ok && files == old(files)))
        && forall k | old(|trail|) <= k < |trail| :: WritePoint(old(files), trail[k], path, data, m)
      ensures ok ==> files[path].data == data
      ensures ok ==> forall part | part <= data :: Passes(trail, old(|trail|), path, part)
    {
      var a := Ask();
      if !a.Done? {
        return false;
      }
      var m := if path in files then files[path].mode else mode;
      ghost var from, base := |trail|, files;
      Become(files[path := File("", m, false)]);
      assert DataAt(trail[from], path) == Some("");
      a := Ask();
      ok := a.Done?;
      Append(base, from, path, if ok || a.written >= |data| then data else data[..a.written], data, m);
    }

    /** Character by character, behind the truncation. */
    method Append(ghost base: Tree, ghost from: nat, path: Path, written: string, data: string, m: nat)
      requires Valid() && path.Named? && written <= data && from < |trail| && DataAt(trail[from], path) == Some("")
      requires files == base[path := File("", m, false)]
      requires forall k | from <= k < |trail| :: WritePoint(base, trail[k], path, data, m)
      modifies this`files, this`trail
      ensures Valid() && from <= |trail| && trail[..from] == old(trail[..from])
      ensures files == base[path := File(written, m, false)]
      ensures forall k | from <= k < |trail| :: WritePoint(base, trail[k], path, data, m)
      ensures forall part | part <= written :: Passes(trail, from, path, part)
    {
      for i := 0 to |written|
        invariant Valid() && from < |trail| && trail[..from] == old(trail[..from])
        invariant files == base[path := File(written[..i], m, false)]
        invariant forall k | from <= k < |trail| :: WritePoint(base, trail[k], path, data, m)
        invariant forall part | part <= written[..i] :: Passes(trail, from, path, part)
      {
        ghost var so := trail;
        assert files[path := File(written[..i + 1], m, false)] == base[path := File(written[..i + 1], m, false)];
        Become(files[path := File(written[..i + 1], m, false)]);
        assert DataAt(trail[|so|], path) == Some(written[..i + 1]);
        forall part | part <= written[..i + 1]
          ensures Passes(trail, from, path, part)
        {
          PrefixOfNext(written, i, part);
          if part <= written[..i] {
            PassesMore(so, files, from, path, part);
          }
        }
      }
      assert written[..|written|] == written;
    }

    /** Chmod, write, sync and close a file just created. */
    method Fill(ghost base: Tree, temp: Path, data: string, mode: nat) returns (ok: bool)
      requires Valid() && temp.Temp? && temp in files && OnlyTemp(base, files, temp.serial)
      modifies this`files, this`asked, this`trail
      ensures Valid() && Since(old(|trail|), base, temp.serial) && trail[..old(|trail|)] == old(trail)
      ensures OnlyTemp(base, files, temp.serial)
      ensures ok ==> temp in files && files[temp] == File(data, mode, true)
      ensures Healthy() ==> ok
      ensures old(asked) < asked && temp in files
    {
      ok := Chmod(temp, mode);
      if !ok {
        return;
      }
      ok := Write(temp, data);
      if !ok {
        return;
      }
      ok := Sync(temp);
      if !ok {
        return;
      }
      ok := Other();
    }

    /** Create, chmod, write, sync and close a temporary file; it is removed again on failure. */
    method WriteTemp(data: string, mode: nat) returns (ok: bool, temp: Path)
      requires Valid()
      modifies this
      ensures Valid() && Since(old(|trail|), old(files), old(serial)) && old(serial) <= serial
      ensures trail[..old(|trail|)] == old(trail)
      ensures temp == Temp(old(serial)) && OnlyTemp(old(files), files, old(serial))
      ensures ok ==> temp in files && files[temp] == File(data, mode, true) && old(|trail|) < |trail|
      ensures Healthy() ==> ok
      // The last thing a failed call does is to remove the temporary file.
      ensures old(asked) < asked && (!ok && oracle(asked - 1).Done? ==> files == old(files))
    {
      ghost var base := files;
      assert base - {Temp(serial)} == base;
      ok, temp := CreateTemp();
      if !ok {
        return;
      }
      ok := Fill(base, temp, data, mode);
      if !ok {
        var _ := Remove(temp);
      }
    }

    /** The atomic replacement. Wherever it stops, `path` has its old content or all of the new one,
        and no other file has changed; success means the new content, and failure the old. */
    method AtomicWrite(path: Path, data: string, mode: nat) returns (ok: bool)
      requires Valid() && path.Named?
      modifies this
      ensures Valid() && old(|trail|) <= |trail| && old(serial) <= serial
      ensures trail[..old(|trail|)] == old(trail)
      ensures ok ==> files == old(files)[path := File(data, mode, true)]
      ensures !ok ==> OnlyTemp(old(files), files, old(serial))
      ensures old(asked) < asked && (!ok && oracle(asked - 1).Done? ==> files == old(files))
      ensures forall k | old(|trail|) <= k < |trail| ::
        OldOrNew(old(files), trail[k], old(serial), path, File(data, mode, true))
      ensures Healthy() ==> ok
    {
      ghost var base := files;
      var temp;
      ok, temp := WriteTemp(data, mode);
      if !ok {
        return;
      }
      ok := Rename(temp, path);
      if ok {
        assert files == base[path := File(data, mode, true)];
      } else {
        var _ := Remove(temp);
      }
    }
  }
}
