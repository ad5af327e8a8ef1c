/** internal/state: `Store.Load` and `Store.Save` as an atomic register on a file system that may
    fail, or go down, between any two operations. The JSON codec is a parameter. */
module StateStore {
  import opened Wrappers
  import opened Files
  import P = Protocol

  /** What the file holds: the state of the protocol, and the parts that saving touches or that the codec
      does not give back literally - nil and empty lists differ in Go. */
  datatype Record = Record(
    state: P.State, updatedAt: int, backups: Option<map<string, string>>, allowedSourceCIDRs: Option<seq<string>>)

  /** The zero value. Its step is the empty string in Go, and never looked at. */
  const ZERO := Record(P.Fresh(""), 0, None, None)

  const SCHEMA := 1

  datatype Codec = Codec(encode: Record -> string, decode: string -> Option<Record>)

  /** An empty list with `omitempty` is left out by the encoder, and comes back as nil. */
  function Normal(r: Record): Record {
    if r.allowedSourceCIDRs == Some([]) then r.(allowedSourceCIDRs := None) else r
  }

  ghost predicate Faithful(codec: Codec) {
    forall r :: codec.decode(codec.encode(r) + "\n") == Some(Normal(r))
  }

  datatype Loaded = Value(record: Record) | Undecodable | UnsupportedSchema(version: nat)

  /** What `Load` makes of a file system. */
  function LoadFrom(codec: Codec, files: Tree, path: Path): Loaded {
    if path !in files then Value(ZERO)
    else
      match codec.decode(files[path].data)
      case None => Undecodable
      case Some(r) => if r.state.schemaVersion != SCHEMA then UnsupportedSchema(r.state.schemaVersion) else Value(r)
  }

  /** A missing file is a state of schema 0, on which nothing is recorded; a file is taken exactly if it
      can be decoded and is of schema 1. */
  lemma LoadCases(codec: Codec, files: Tree, path: Path)
    ensures path !in files ==>
      var loaded := LoadFrom(codec, files, path);
      && loaded.Value? && loaded.record.state.schemaVersion == 0 && loaded.record.state.completedSteps == []
      && loaded.record.state.enrollmentID == "" && loaded.record.state.bootstrapToken == ""
    ensures path in files ==>
      var loaded, decoded := LoadFrom(codec, files, path), codec.decode(files[path].data);
      && (loaded.Value? <==> decoded.Some? && decoded.value.state.schemaVersion == 1)
      && (loaded.Value? ==> decoded == Some(loaded.record))
      && (loaded.Undecodable? <==> decoded.None?)
  {
  }

  function Stamp(r: Record, now: int): Record {
    r.(state := r.state.Stamped(), updatedAt := now, backups := if r.backups.None? then Some(map[]) else r.backups)
  }

  /** Saving and loading give back the value itself, up to stamp and nil/empty normalisation. */
  lemma LoadAfterSave(codec: Codec, files: Tree, path: Path, r: Record, now: int, mode: nat)
    requires Faithful(codec)
    ensures LoadFrom(codec, files[path := File(codec.encode(Stamp(r, now)) + "\n", mode, true)], path)
         == Value(Normal(Stamp(r, now)))
    ensures Normal(Stamp(r, now)).state == r.state.Stamped()
    ensures r.backups.Some? ==> Normal(Stamp(r, now)).backups == r.backups
  {
    assert codec.decode(codec.encode(Stamp(r, now)) + "\n") == Some(Normal(Stamp(r, now)));
  }

  /** A second save of what was loaded changes nothing but the time. */
  lemma StampIsStable(r: Record, now: int, later: int)
    ensures Normal(Stamp(Normal(Stamp(r, now)), later)) == Normal(Stamp(r, now)).(updatedAt := later)
  {
  }

  /** Whatever point a replacement is interrupted at, and whatever the machine then makes of
      unsynced content, the register holds the old value or the new one. */
  lemma RegisterSurvives(codec: Codec, base: Tree, point: Tree, remains: Tree, serial: nat, path: Path, file: File)
    requires path.Named? && (path in base ==> base[path].synced) && file.synced
    requires OldOrNew(base, point, serial, path, file) && MayRemain(point, remains)
    ensures
      || LoadFrom(codec, remains, path) == LoadFrom(codec, base, path)
      || LoadFrom(codec, remains, path) == LoadFrom(codec, base[path := file], path)
  {
    if OnlyTemp(base, point, serial) {
      assert SameAt(point - {Temp(serial)}, point, path);
      if path in base {
        assert point[path] == base[path];
        assert remains[path] == point[path];
      }
    } else {
      assert remains[path] == point[path];
    }
  }

  class Store {
    const disk: Disk
    const path: Path
    const codec: Codec

    ghost predicate Valid()
      reads this, disk
    {
      && disk.Valid() && path.Named? && Faithful(codec)
      && (path in disk.files ==> disk.files[path].synced)
    }

    /** The register's value. */
    function Value(): Loaded
      reads this, disk
    {
      LoadFrom(codec, disk.files, path)
    }

    constructor (disk: Disk, name: string, codec: Codec)
      requires disk.Valid() && Faithful(codec) && (Named(name) in disk.files ==> disk.files[Named(name)].synced)
      ensures Valid() && this.disk == disk && path == Named(name) && this.codec == codec
    {
      this.disk, this.codec := disk, codec;
      path := Named(name);
    }

    /** Success stores the stamped value in a file that only root can read; failure stores nothing;
        and at every point in between, going down leaves one of the two. */
    method Save(value: Record, now: int) returns (ok: bool)
      requires Valid()
      modifies disk
      ensures Valid()
      ensures ok ==> Value() == Loaded.Value(Normal(Stamp(value, now))) && disk.files[path].mode == 0x180
      ensures ok ==> forall p | p != path :: SameAt(old(disk.files), disk.files, p)
      ensures !ok ==> Value() == old(Value())
      ensures disk.Healthy() ==> ok
      ensures old(|disk.trail|) <= |disk.trail|
      ensures forall k, remains | old(|disk.trail|) <= k < |disk.trail| && MayRemain(disk.trail[k], remains) ::
        || LoadFrom(codec, remains, path) == old(Value())
        || LoadFrom(codec, remains, path) == Loaded.Value(Normal(Stamp(value, now)))
    {
      var record := Stamp(value, now);
      var data := codec.encode(record) + "\n";
      ghost var base, n, serial := disk.files, |disk.trail|, disk.serial;
      ok := disk.Other();
      if !ok {
        return;
      }
      ok := disk.AtomicWrite(path, data, 0x180);
      LoadAfterSave(codec, base, path, value, now, 0x180);
      if !ok {
        assert SameAt(disk.files - {Temp(serial)}, disk.files, path);
      }
      forall k, remains | n <= k < |disk.trail| && MayRemain(disk.trail[k], remains)
        ensures LoadFrom(codec, remains, path) == LoadFrom(codec, base, path)
             || LoadFrom(codec, remains, path) == Loaded.Value(Normal(record))
      {
        RegisterSurvives(codec, base, disk.trail[k], remains, serial, path, File(data, 0x180, true));
      }
    }

    method Load() returns (loaded: Option<Loaded>)
      requires Valid()
      modifies disk`asked
      ensures Valid()
      ensures loaded.Some? ==> loaded.value == old(Value())
      ensures disk.Healthy() ==> loaded.Some?
    {
      var ok := disk.Other();
      return if ok then Some(Value()) else None;
    }
  }
}
