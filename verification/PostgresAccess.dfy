/** internal/postgresql: `configureAccess`, which puts a managed block in front of pg_hba.conf, and
    what the block does to connections under the first-match rule of the PostgreSQL 17 documentation,
    section 20.1. */
module PostgresAccess {
  import opened Wrappers
  import opened Text
  import opened Files
  import opened Firewall
  import Cidr

  // ---- the managed block -----------------------------------------------

  datatype ManagedRule = ManagedRule(network: string, method_: string)

  const LOOPBACK_V4 := Cidr.Quad("127", "0", "0", "1", "32")

  const LOOPBACK_V6 := Cidr.Short("1", "128")

  const BRIDGES := Cidr.Quad("172", "16", "0", "0", "12")

  const EVERY_V4 := Cidr.Quad("0", "0", "0", "0", "0")

  const EVERY_V6 := Cidr.Short("", "0")

  const MANAGED: seq<ManagedRule> := [
    ManagedRule(LOOPBACK_V4, "scram-sha-256"),
    ManagedRule(LOOPBACK_V6, "scram-sha-256"),
    ManagedRule(BRIDGES, "scram-sha-256"),
    ManagedRule(EVERY_V4, "reject"),
    ManagedRule(EVERY_V6, "reject")]

  function RuleText(r: ManagedRule): string {
    Join(["host", "all", "all", r.network, r.method_], " ")
  }

  const BEGIN := "# BEGIN CENTRALCLOUD MANAGED"

  const END := "# END CENTRALCLOUD MANAGED"

  /** What the code looks for to tell whether the block is there. */
  const MARKER := BEGIN + "\n"

  function RuleLines(rules: seq<ManagedRule>): (lines: seq<string>)
    ensures |lines| == |rules|
  {
    seq(|rules|, i requires 0 <= i < |rules| => RuleText(rules[i]))
  }

  const BLOCK_LINES: seq<string> := [BEGIN] + RuleLines(MANAGED) + [END, ""]

  function Unlines(lines: seq<string>): string {
    if lines == [] then "" else lines[0] + "\n" + Unlines(lines[1..])
  }

  const BLOCK := Unlines(BLOCK_LINES)

  /** The text of pg_hba.conf after `configureAccess`. */
  function Managed(data: string): string {
    if Contains(data, MARKER) then data else BLOCK + data
  }

  lemma BlockHasMarker()
    ensures MARKER <= BLOCK && |MARKER| < |BLOCK|
  {
    assert BLOCK == MARKER + Unlines(BLOCK_LINES[1..]);
    assert Unlines(BLOCK_LINES[1..]) == BLOCK_LINES[1..][0] + "\n" + Unlines(BLOCK_LINES[1..][1..]);
  }

  /** Running again changes nothing. */
  lemma ManagedIsIdempotent(data: string)
    ensures Managed(Managed(data)) == Managed(data)
  {
    BlockHasMarker();
    if !Contains(data, MARKER) {
      ContainsHere("", MARKER, (BLOCK + data)[|MARKER|..]);
      assert "" + MARKER + (BLOCK + data)[|MARKER|..] == BLOCK + data;
    }
  }

  /** The block ends up in front exactly when it already was, or its first line did not occur. */
  lemma BlockIsInFront(data: string)
    ensures BLOCK <= Managed(data) <==> BLOCK <= data || !Contains(data, MARKER)
  {
  }

  // ---- what connections get --------------------------------------------

  datatype Connection = Local(user: string, database: string) | Tcp(source: Address, replication: bool)

  predicate IsAddress(a: Address) {
    a.bits < Pow2(Width(a))
  }

  /** The meaning of one line for one connection: the authentication method, if the line is a record
      that matches. */
  type Meaning = (string, Connection) -> Option<string>

  /** A record of the type "host" with its five fields. */
  datatype Record = Record(database: string, user: string, network: string, auth: string)

  function ReadRecord(line: string): Option<Record> {
    var words := Split(line, " ");
    if |words| == 5 && words[0] == "host" then Some(Record(words[1], words[2], words[3], words[4])) else None
  }

  /** A record for all databases and all users takes the TCP connections from its network that are not
      for replication. */
  function AllMeaning(r: Record, c: Connection): Option<string> {
    if c.Tcp? && !c.replication && Covered(r.network, c.source) then Some(r.auth) else None
  }

  predicate Covered(network: string, a: Address) {
    Cidr.ReadPrefix(network).Some? && Covers(Cidr.ReadPrefix(network).value, a)
  }

  predicate ForAll(line: string) {
    ReadRecord(line).Some? && ReadRecord(line).value.database == "all" && ReadRecord(line).value.user == "all"
    && Cidr.ReadPrefix(ReadRecord(line).value.network).Some?
  }

  /** What the documentation says of comments and empty lines, and of records of the type "host" for all
      databases, all users and a network: this holds of every such line, whoever wrote it. */
  ghost predicate Documented(meaning: Meaning) {
    && (forall line: string, c | line == "" || line[0] == '#' :: meaning(line, c).None?)
    && (forall line: string, c | ForAll(line) :: meaning(line, c) == AllMeaning(ReadRecord(line).value, c))
  }

  /** The networks of the managed rules, read from their texts. */
  function BlockOf(i: nat): Prefix
    requires i < 5
  {
    match i
    case 0 => Prefix(V4(0x7F00_0001), 32)
    case 1 => Prefix(V6(1), 128)
    case 2 => Prefix(V4(0xAC10_0000), 12)
    case 3 => Prefix(V4(0), 0)
    case _ => Prefix(V6(0), 0)
  }

  lemma SmallNumbers()
    ensures ParseDigits("0") == Some(0) && ParseDigits("1") == Some(1)
    ensures ParseDigits("12") == Some(12) && ParseDigits("16") == Some(16) && ParseDigits("32") == Some(32)
  {
    assert "0"[..0] == "" && DigitsValue("") == 0;
    assert "1"[..0] == "" && DigitsValue("1") == 1;
    assert "12"[..1] == "1" && "16"[..1] == "1" && "32"[..1] == "3" && "3"[..0] == "";
    assert DigitsValue("3") == 3;
  }

  lemma LargeNumbers()
    ensures ParseDigits("127") == Some(127) && ParseDigits("128") == Some(128) && ParseDigits("172") == Some(172)
  {
    SmallNumbers();
    assert "127"[..2] == "12" && "128"[..2] == "12" && "172"[..2] == "17" && "17"[..1] == "1";
    assert DigitsValue("12") == 12 && DigitsValue("17") == 17;
  }

  lemma Loopback4Reads(text: string)
    requires text == LOOPBACK_V4
    ensures Cidr.ReadPrefix(text) == Some(Prefix(V4(0x7F00_0001), 32))
  {
    SmallNumbers();
    LargeNumbers();
    Cidr.QuadReads("127", "0", "0", "1", "32", 127, 0, 0, 1, 32);
  }

  lemma Loopback6Reads(text: string)
    requires text == LOOPBACK_V6
    ensures Cidr.ReadPrefix(text) == Some(Prefix(V6(1), 128))
  {
    LargeNumbers();
    assert "1"[..0] == "" && Cidr.HexValue("") == Some(0) && Cidr.Group("1") == Some(1);
    Cidr.ShortReads("1", "128", 1, 128);
  }

  lemma BridgesRead(text: string)
    requires text == BRIDGES
    ensures Cidr.ReadPrefix(text) == Some(Prefix(V4(0xAC10_0000), 12))
  {
    SmallNumbers();
    LargeNumbers();
    Cidr.QuadReads("172", "16", "0", "0", "12", 172, 16, 0, 0, 12);
  }

  lemma EveryV4Reads(text: string)
    requires text == EVERY_V4
    ensures Cidr.ReadPrefix(text) == Some(Prefix(V4(0), 0))
  {
    SmallNumbers();
    Cidr.QuadReads("0", "0", "0", "0", "0", 0, 0, 0, 0, 0);
  }

  lemma EveryV6Reads(text: string)
    requires text == EVERY_V6
    ensures Cidr.ReadPrefix(text) == Some(Prefix(V6(0), 0))
  {
    SmallNumbers();
    Cidr.ShortReads("", "0", 0, 0);
  }

  /** The networks written, read back from their texts. */
  lemma NetworkReads(i: nat)
    requires i < 5
    ensures Cidr.ReadPrefix(MANAGED[i].network) == Some(BlockOf(i))
  {
    var text := MANAGED[i].network;
    match i {
      case 0 => Loopback4Reads(text);
      case 1 => Loopback6Reads(text);
      case 2 => BridgesRead(text);
      case 3 => EveryV4Reads(text);
      case _ => EveryV6Reads(text);
    }
  }

  /** Reading a managed line gives back its fields. */
  lemma RecordReads(network: string, auth: string)
    requires ' ' !in network && ' ' !in auth
    ensures ReadRecord(RuleText(ManagedRule(network, auth))) == Some(Record("all", "all", network, auth))
  {
    var words := ["host", "all", "all", network, auth];
    SplitJoin(words, " ");
    assert ReadRecord(Join(words, " ")) == Some(Record(words[1], words[2], words[3], words[4]));
  }

  lemma FieldsAreWords(i: nat)
    requires i < |MANAGED|
    ensures ' ' !in MANAGED[i].network && ' ' !in MANAGED[i].method_
  {
  }

  ghost predicate Follows(meaning: Meaning, rules: seq<ManagedRule>, c: Connection) {
    forall i | 0 <= i < |rules| ::
      meaning(RuleText(rules[i]), c)
        == AllMeaning(Record("all", "all", rules[i].network, rules[i].method_), c)
  }

  lemma ManagedFollows(meaning: Meaning, c: Connection)
    requires Documented(meaning)
    ensures Follows(meaning, MANAGED, c)
  {
    forall i | 0 <= i < |MANAGED|
      ensures meaning(RuleText(MANAGED[i]), c)
        == AllMeaning(Record("all", "all", MANAGED[i].network, MANAGED[i].method_), c)
    {
      FieldsAreWords(i);
      NetworkReads(i);
      RecordReads(MANAGED[i].network, MANAGED[i].method_);
      assert MANAGED[i] == ManagedRule(MANAGED[i].network, MANAGED[i].method_);
      assert ForAll(RuleText(MANAGED[i]));
    }
  }

  /** The first line that matches decides. */
  function Decide(lines: seq<string>, meaning: Meaning, c: Connection): Option<string> {
    if lines == [] then None
    else if meaning(lines[0], c).Some? then meaning(lines[0], c)
    else Decide(lines[1..], meaning, c)
  }

  function DecideText(text: string, meaning: Meaning, c: Connection): Option<string> {
    Decide(Split(text, "\n"), meaning, c)
  }

  lemma {:induction false} SplitUnlines(lines: seq<string>, data: string)
    requires forall i | 0 <= i < |lines| :: '\n' !in lines[i]
    ensures Split(Unlines(lines) + data, "\n") == lines + Split(data, "\n")
  {
    if lines == [] {
      assert Unlines(lines) + data == data;
      assert lines + Split(data, "\n") == Split(data, "\n");
    } else {
      var rest := Unlines(lines[1..]) + data;
      SplitUnlines(lines[1..], data);
      assert Unlines(lines) + data == lines[0] + "\n" + rest;
      SplitField(lines[0], "\n", rest, []);
      assert [] + lines[0] == lines[0];
      assert [lines[0]] + (lines[1..] + Split(data, "\n")) == lines + Split(data, "\n");
    }
  }

  lemma RulesAreLines(r: ManagedRule)
    requires '\n' !in r.network && '\n' !in r.method_
    ensures '\n' !in RuleText(r)
  {
    var words := ["host", "all", "all", r.network, r.method_];
    JoinKeepsOut(words, " ", '\n');
  }

  lemma NetworksAreLines(i: nat)
    requires i < |MANAGED|
    ensures '\n' !in RuleText(MANAGED[i])
  {
    RulesAreLines(MANAGED[i]);
  }

  lemma MarksAreLines()
    ensures '\n' !in BEGIN && '\n' !in END
  {
  }

  lemma BlockLinesAreLines()
    ensures forall i | 0 <= i < |BLOCK_LINES| :: '\n' !in BLOCK_LINES[i]
  {
    MarksAreLines();
    forall i | 0 <= i < |BLOCK_LINES|
      ensures '\n' !in BLOCK_LINES[i]
    {
      if 1 <= i <= |MANAGED| {
        NetworksAreLines(i - 1);
        assert BLOCK_LINES[i] == RuleText(MANAGED[i - 1]);
      }
    }
  }

  lemma DecideUncons(line: string, rest: seq<string>, meaning: Meaning, c: Connection)
    ensures Decide([line] + rest, meaning, c) ==
      if meaning(line, c).Some? then meaning(line, c) else Decide(rest, meaning, c)
  {
    assert ([line] + rest)[1..] == rest;
  }

  /** The method of the first of the rules that covers the source. */
  function FirstCover(rules: seq<ManagedRule>, a: Address): Option<string> {
    if rules == [] then None
    else if Covered(rules[0].network, a) then Some(rules[0].method_)
    else FirstCover(rules[1..], a)
  }

  lemma {:induction false} DecideRules(rules: seq<ManagedRule>, rest: seq<string>, meaning: Meaning, c: Connection)
    requires Follows(meaning, rules, c)
    ensures Decide(RuleLines(rules) + rest, meaning, c) ==
      if c.Tcp? && !c.replication && FirstCover(rules, c.source).Some? then FirstCover(rules, c.source)
      else Decide(rest, meaning, c)
  {
    if rules == [] {
      assert RuleLines(rules) + rest == rest;
    } else {
      var first, later := RuleText(rules[0]), RuleLines(rules[1..]) + rest;
      DecideRules(rules[1..], rest, meaning, c);
      DecideUncons(first, later, meaning, c);
      assert RuleLines(rules) + rest == [first] + later;
    }
  }

  lemma DecideSkips(line: string, rest: seq<string>, meaning: Meaning, c: Connection)
    requires Documented(meaning) && (line == "" || line[0] == '#')
    ensures Decide([line] + rest, meaning, c) == Decide(rest, meaning, c)
  {
    DecideUncons(line, rest, meaning, c);
  }

  lemma MarksAreComments()
    ensures BEGIN[0] == '#' && END[0] == '#'
  {
  }

  /** First-match evaluation of the block in front of any text. */
  lemma BlockDecides(data: string, meaning: Meaning, c: Connection)
    requires Documented(meaning)
    ensures DecideText(BLOCK + data, meaning, c) ==
      if c.Tcp? && !c.replication && FirstCover(MANAGED, c.source).Some? then FirstCover(MANAGED, c.source)
      else DecideText(data, meaning, c)
  {
    var lines := Split(data, "\n");
    BlockLinesAreLines();
    SplitUnlines(BLOCK_LINES, data);
    MarksAreComments();
    DecideLines(RuleLines(MANAGED), lines, meaning, c);
    ManagedFollows(meaning, c);
    DecideRules(MANAGED, [END] + ([""] + lines), meaning, c);
    DecideSkips(END, [""] + lines, meaning, c);
    DecideSkips("", lines, meaning, c);
  }

  lemma DecideLines(rules: seq<string>, lines: seq<string>, meaning: Meaning, c: Connection)
    requires Documented(meaning)
    ensures Decide([BEGIN] + rules + [END, ""] + lines, meaning, c) ==
      Decide(rules + ([END] + ([""] + lines)), meaning, c)
  {
    MarksAreComments();
    var later := rules + ([END] + ([""] + lines));
    assert [BEGIN] + rules + [END, ""] + lines == [BEGIN] + later;
    DecideSkips(BEGIN, later, meaning, c);
  }

  /** The sources that may authenticate: the two loopback addresses, and 172.16.0.0 to 172.31.255.255. */
  predicate MayAuthenticate(a: Address) {
    match a
    case V4(bits) => bits == 0x7F00_0001 || 0xAC10_0000 <= bits <= 0xAC1F_FFFF
    case V6(bits) => bits == 1
  }

  lemma Powers()
    ensures Pow2(0) == 1 && Pow2(20) == 0x10_0000 && Pow2(32) == 0x1_0000_0000
  {
    assert Pow2(4) == 16;
    assert Pow2(8) == 0x100;
    assert Pow2(12) == 0x1000;
    assert Pow2(16) == 0x1_0000;
    assert Pow2(20) == 0x10_0000;
    assert Pow2(24) == 0x100_0000;
    assert Pow2(28) == 0x1000_0000;
  }

  lemma CoversMeansRange(a: Address)
    requires IsAddress(a)
    ensures Covers(BlockOf(0), a) <==> a == V4(0x7F00_0001)
    ensures Covers(BlockOf(1), a) <==> a == V6(1)
    ensures Covers(BlockOf(2), a) <==> a.V4? && 0xAC10_0000 <= a.bits <= 0xAC1F_FFFF
    ensures Covers(BlockOf(3), a) <==> a.V4?
    ensures Covers(BlockOf(4), a) <==> a.V6?
  {
    Powers();
    if a.V6? {
      SmallQuotient(a.bits, Pow2(128));
      SmallQuotient(0, Pow2(128));
    }
  }

  lemma SmallQuotient(a: nat, b: nat)
    requires a < b
    ensures a / b == 0
  {
  }

  /** With the block in front, TCP connections that are not for replication authenticate by password
      hash from the listed sources and are rejected from all others; every other connection is decided
      exactly as by the original text. */
  lemma ManagedTextDecides(data: string, meaning: Meaning, c: Connection)
    requires Documented(meaning) && !Contains(data, MARKER)
    requires c.Tcp? ==> IsAddress(c.source)
    ensures c.Tcp? && !c.replication ==>
      DecideText(Managed(data), meaning, c) == Some(if MayAuthenticate(c.source) then "scram-sha-256" else "reject")
    ensures c.Local? || c.replication ==> DecideText(Managed(data), meaning, c) == DecideText(data, meaning, c)
  {
    BlockDecides(data, meaning, c);
    if c.Tcp? {
      FirstCoverIs(c.source);
    }
  }

  lemma FirstCoverIs(a: Address)
    requires IsAddress(a)
    ensures FirstCover(MANAGED, a) == Some(if MayAuthenticate(a) then "scram-sha-256" else "reject")
  {
    CoversMeansRange(a);
    NetworkReads(0);
    NetworkReads(1);
    NetworkReads(2);
    NetworkReads(3);
    NetworkReads(4);
    FirstCoverFrom(MANAGED, a, 4);
    FirstCoverFrom(MANAGED, a, 3);
    FirstCoverFrom(MANAGED, a, 2);
    FirstCoverFrom(MANAGED, a, 1);
    FirstCoverFrom(MANAGED, a, 0);
    assert MANAGED[0..] == MANAGED;
  }

  lemma FirstCoverFrom(rules: seq<ManagedRule>, a: Address, i: nat)
    requires i < |rules|
    ensures FirstCover(rules[i..], a) ==
      if Covered(rules[i].network, a) then Some(rules[i].method_) else FirstCover(rules[i + 1..], a)
  {
    assert rules[i..][1..] == rules[i + 1..];
  }

  // ---- rewriting the file ----------------------------------------------

  const LISTEN := "listen_addresses = '*'"

  const ENCRYPT := "password_encryption = 'scram-sha-256'"

  const SETTINGS := LISTEN + "\n" + (ENCRYPT + "\n")

  /** A line of the configuration file that sets a parameter. */
  function ReadSetting(line: string): Option<(string, string)> {
    var words := Split(line, " ");
    if |words| == 3 && words[1] == "=" then Some((words[0], words[2])) else None
  }

  lemma SettingReads(key: string, value: string)
    requires ' ' !in key && ' ' !in value
    ensures ReadSetting(key + " = " + value) == Some((key, value))
  {
    SplitJoin([key, "=", value], " ");
    assert [key, "=", value][1..] == ["=", value] && ["=", value][1..] == [value];
    assert Join(["=", value], " ") == "=" + " " + value;
    assert Join([key, "=", value], " ") == key + " " + ("=" + " " + value);
    assert key + " = " + value == key + " " + ("=" + " " + value);
  }

  /** The settings make PostgreSQL listen on all addresses, and hash passwords for the managed rules. */
  lemma SettingsRead()
    ensures Split(SETTINGS, "\n") == [LISTEN, ENCRYPT, ""]
    ensures ReadSetting(LISTEN) == Some(("listen_addresses", "'*'"))
    ensures ReadSetting(ENCRYPT) == Some(("password_encryption", "'scram-sha-256'"))
  {
    SettingsAreLines();
    TwoLines(LISTEN, ENCRYPT);
    SettingReads("listen_addresses", "'*'");
    SettingReads("password_encryption", "'scram-sha-256'");
    ListenText();
    EncryptText();
  }

  lemma SettingsAreLines()
    ensures '\n' !in LISTEN && '\n' !in ENCRYPT
  {
  }

  lemma ListenText()
    ensures LISTEN == "listen_addresses" + " = " + "'*'"
  {
  }

  lemma EncryptText()
    ensures ENCRYPT == "password_encryption" + " = " + "'scram-sha-256'"
  {
  }

  lemma TwoLines(first: string, second: string)
    requires '\n' !in first && '\n' !in second
    ensures Split(first + "\n" + (second + "\n"), "\n") == [first, second, ""]
  {
    SplitField(first, "\n", second + "\n", []);
    SplitField(second, "\n", "", []);
    assert second + "\n" + "" == second + "\n" && [] + first == first && [] + second == second;
    assert SplitFrom("", "\n", []) == [""];
  }

  /** pg_hba.conf and its backup. */
  datatype Access = Access(hba: string, backup: Option<string>)

  function AccessOf(files: Tree, hba: Path, backup: Path): Access
    requires hba in files
  {
    Access(files[hba].data, DataAt(files, backup))
  }

  /** What a call that meets no fault makes of them. */
  function Configured(a: Access): Access {
    if Contains(a.hba, MARKER) then a
    else Access(BLOCK + a.hba, if a.backup.None? then Some(a.hba) else a.backup)
  }

  /** What a call that ended anywhere may leave: what was there; the start of a backup that was
      missing; or the backup, and the start of the new text. */
  predicate MayLeave(before: Access, after: Access) {
    || after == before
    || (!Contains(before.hba, MARKER) && before.backup.None?
        && after.hba == before.hba && after.backup.Some? && after.backup.value <= before.hba)
    || (!Contains(before.hba, MARKER)
        && after.hba <= BLOCK + before.hba && after.backup == Configured(before).backup)
  }

  /** Every point since the `n`-th is one that a call may leave, and touches none but three files. */
  ghost predicate LeavesSince(disk: Disk, n: nat, base: Tree, conf: Path, hba: Path, backup: Path)
    requires hba in base
    reads disk
  {
    forall k | n <= k < |disk.trail| ::
      && hba in disk.trail[k] && MayLeave(AccessOf(base, hba, backup), AccessOf(disk.trail[k], hba, backup))
      && ElsewhereSame(base, disk.trail[k], conf, hba, backup)
  }

  ghost predicate ElsewhereSame(base: Tree, tree: Tree, conf: Path, hba: Path, backup: Path) {
    forall p | p != conf && p != hba && p != backup :: SameAt(base, tree, p)
  }

  /** One of the points from the `from`-th on is this one. */
  ghost predicate Reached(trail: seq<Tree>, from: nat, hba: Path, backup: Path, a: Access) {
    exists k | from <= k < |trail| :: hba in trail[k] && AccessOf(trail[k], hba, backup) == a
  }

  lemma ReachedMore(trail: seq<Tree>, longer: seq<Tree>, from: nat, start: nat, hba: Path, backup: Path, a: Access)
    requires Reached(trail, from, hba, backup, a) && trail <= longer && start <= from
    ensures Reached(longer, start, hba, backup, a)
  {
    var k :| from <= k < |trail| && hba in trail[k] && AccessOf(trail[k], hba, backup) == a;
    assert longer[k] == trail[k];
  }

  method ConfigureAccess(disk: Disk, conf: Path, hba: Path, backup: Path) returns (ok: bool)
    requires disk.Valid() && conf.Named? && hba.Named? && backup.Named?
    requires conf != hba && hba != backup && conf != backup
    modifies disk
    ensures disk.Valid() && old(|disk.trail|) <= |disk.trail| && disk.trail[..old(|disk.trail|)] == old(disk.trail)
    ensures disk.Healthy() ==> (ok <==> hba in old(disk.files))
    ensures ok ==> conf in disk.files && disk.files[conf].data == SETTINGS
    ensures ok ==> hba in old(disk.files) && hba in disk.files
    ensures ok ==> AccessOf(disk.files, hba, backup) == Configured(AccessOf(old(disk.files), hba, backup))
    ensures ok && !Contains(old(disk.files)[hba].data, MARKER) ==> !disk.files[hba].synced
    ensures backup in old(disk.files) ==> SameAt(old(disk.files), disk.files, backup)
    ensures ElsewhereSame(old(disk.files), disk.files, conf, hba, backup)
    // A call that succeeds goes through all that a call may leave, from what it found on.
    ensures ok ==> forall a | MayLeave(AccessOf(old(disk.files), hba, backup), a) ::
      Reached(disk.trail, old(|disk.trail|) - 1, hba, backup, a)
    // Wherever a call ends, this is what it may have left.
    ensures hba in old(disk.files) ==> LeavesSince(disk, old(|disk.trail|), old(disk.files), conf, hba, backup)
  {
    ghost var base, n := disk.files, |disk.trail|;
    assert hba in base ==> Reached(disk.trail, n - 1, hba, backup, AccessOf(base, hba, backup)) by {
      assert disk.trail[n - 1] == base;
    }
    ok := WriteSettings(disk, conf, hba, backup);
    if !ok || hba !in disk.files {
      return false;
    }
    ok := disk.Other();
    if !ok {
      return;
    }
    if Contains(disk.files[hba].data, MARKER) {
      forall a | MayLeave(AccessOf(base, hba, backup), a)
        ensures Reached(disk.trail, n - 1, hba, backup, a)
      {
        ReachedMore(old(disk.trail), disk.trail, n - 1, n - 1, hba, backup, a);
      }
      return true;
    }
    ghost var mid, m := disk.files, |disk.trail|;
    ok := Rewrite(disk, conf, hba, backup);
    Elsewhere(base, mid, disk.files, conf, hba, backup);
    forall k | m <= k < |disk.trail|
      ensures ElsewhereSame(base, disk.trail[k], conf, hba, backup)
    {
      Elsewhere(base, mid, disk.trail[k], conf, hba, backup);
    }
    if ok {
      forall a | MayLeave(AccessOf(base, hba, backup), a)
        ensures Reached(disk.trail, n - 1, hba, backup, a)
      {
        if a == AccessOf(base, hba, backup) {
          ReachedMore(old(disk.trail), disk.trail, n - 1, n - 1, hba, backup, a);
        } else {
          ReachedMore(disk.trail, disk.trail, m, n - 1, hba, backup, a);
        }
      }
    }
  }

  /** The backup, unless there is one, and then the new text. */
  method Rewrite(disk: Disk, ghost conf: Path, hba: Path, backup: Path) returns (ok: bool)
    requires disk.Valid() && hba.Named? && backup.Named? && hba != backup && conf != hba && conf != backup
    requires hba in disk.files && !Contains(disk.files[hba].data, MARKER)
    modifies disk
    ensures disk.Valid() && old(|disk.trail|) <= |disk.trail| && disk.trail[..old(|disk.trail|)] == old(disk.trail)
    ensures disk.Healthy() ==> ok
    ensures hba in disk.files
    ensures ok ==> AccessOf(disk.files, hba, backup) == Configured(AccessOf(old(disk.files), hba, backup))
    ensures ok ==> !disk.files[hba].synced
    ensures backup in old(disk.files) ==> SameAt(old(disk.files), disk.files, backup)
    ensures SameAt(old(disk.files), disk.files, conf) && ElsewhereSame(old(disk.files), disk.files, conf, hba, backup)
    ensures ok ==>
      forall a | MayLeave(AccessOf(old(disk.files), hba, backup), a) && a != AccessOf(old(disk.files), hba, backup) ::
      Reached(disk.trail, old(|disk.trail|), hba, backup, a)
    ensures LeavesSince(disk, old(|disk.trail|), old(disk.files), conf, hba, backup)
  {
    ghost var base, n := disk.files, |disk.trail|;
    if backup !in disk.files {
      ok := MakeBackup(disk, conf, hba, backup);
      if !ok {
        return;
      }
    }
    ghost var mid, m, made := disk.files, |disk.trail|, disk.trail;
    ok := Overwrite(disk, conf, hba, backup);
    Elsewhere(base, mid, disk.files, conf, hba, backup);
    forall k | m <= k < |disk.trail|
      ensures ElsewhereSame(base, disk.trail[k], conf, hba, backup)
    {
      Elsewhere(base, mid, disk.trail[k], conf, hba, backup);
    }
    if ok {
      var before := AccessOf(base, hba, backup);
      forall a | MayLeave(before, a) && a != before
        ensures Reached(disk.trail, n, hba, backup, a)
      {
        if before.backup.None? && a.hba == before.hba && a.backup.Some? && a.backup.value <= before.hba {
          ReachedMore(made, disk.trail, n, n, hba, backup, a);
        } else {
          ReachedMore(disk.trail, disk.trail, m, n, hba, backup, a);
        }
      }
    }
  }

  method MakeBackup(disk: Disk, ghost conf: Path, hba: Path, backup: Path) returns (ok: bool)
    requires disk.Valid() && hba.Named? && backup.Named? && hba != backup && conf != hba && conf != backup
    requires hba in disk.files && !Contains(disk.files[hba].data, MARKER) && backup !in disk.files
    modifies disk
    ensures disk.Valid() && old(|disk.trail|) <= |disk.trail| && disk.trail[..old(|disk.trail|)] == old(disk.trail)
    ensures disk.Healthy() ==> ok
    ensures hba in disk.files && disk.files[hba] == old(disk.files)[hba]
    ensures ok ==> DataAt(disk.files, backup) == Some(old(disk.files)[hba].data)
    ensures SameAt(old(disk.files), disk.files, conf) && ElsewhereSame(old(disk.files), disk.files, conf, hba, backup)
    ensures ok ==> forall part | part <= old(disk.files)[hba].data ::
      Reached(disk.trail, old(|disk.trail|), hba, backup, Access(old(disk.files)[hba].data, Some(part)))
    ensures LeavesSince(disk, old(|disk.trail|), old(disk.files), conf, hba, backup)
  {
    ghost var n, data := |disk.trail|, disk.files[hba].data;
    ok := disk.WriteFile(backup, disk.files[hba].data, 0x180);
    if ok {
      forall part | part <= data
        ensures Reached(disk.trail, n, hba, backup, Access(data, Some(part)))
      {
        assert Passes(disk.trail, n, backup, part);
        var k :| n <= k < |disk.trail| && DataAt(disk.trail[k], backup) == Some(part);
        assert AccessOf(disk.trail[k], hba, backup) == Access(data, Some(part));
      }
    }
  }

  method Overwrite(disk: Disk, ghost conf: Path, hba: Path, backup: Path) returns (ok: bool)
    requires disk.Valid() && hba.Named? && backup.Named? && hba != backup && conf != hba && conf != backup
    requires hba in disk.files && !Contains(disk.files[hba].data, MARKER) && backup in disk.files
    modifies disk
    ensures disk.Valid() && old(|disk.trail|) <= |disk.trail| && disk.trail[..old(|disk.trail|)] == old(disk.trail)
    ensures disk.Healthy() ==> ok
    ensures hba in disk.files
    ensures ok ==> disk.files[hba].data == BLOCK + old(disk.files)[hba].data && !disk.files[hba].synced
    ensures SameAt(old(disk.files), disk.files, backup) && SameAt(old(disk.files), disk.files, conf)
    ensures ElsewhereSame(old(disk.files), disk.files, conf, hba, backup)
    ensures ok ==> forall part | part <= BLOCK + old(disk.files)[hba].data ::
      Reached(disk.trail, old(|disk.trail|), hba, backup, Access(part, DataAt(old(disk.files), backup)))
    ensures LeavesSince(disk, old(|disk.trail|), old(disk.files), conf, hba, backup)
  {
    ghost var n, text, kept := |disk.trail|, BLOCK + disk.files[hba].data, DataAt(disk.files, backup);
    ok := disk.WriteFile(hba, BLOCK + disk.files[hba].data, 0x1A0);
    if ok {
      forall part | part <= text
        ensures Reached(disk.trail, n, hba, backup, Access(part, kept))
      {
        assert Passes(disk.trail, n, hba, part);
        var k :| n <= k < |disk.trail| && DataAt(disk.trail[k], hba) == Some(part);
        assert AccessOf(disk.trail[k], hba, backup) == Access(part, kept);
      }
    }
  }

  method WriteSettings(disk: Disk, conf: Path, ghost hba: Path, ghost backup: Path) returns (ok: bool)
    requires disk.Valid() && conf.Named? && conf != hba && conf != backup
    modifies disk
    ensures disk.Valid() && old(|disk.trail|) <= |disk.trail| && disk.trail[..old(|disk.trail|)] == old(disk.trail)
    ensures disk.Healthy() ==> ok
    ensures ok ==> conf in disk.files && disk.files[conf].data == SETTINGS
    ensures SameAt(old(disk.files), disk.files, hba) && SameAt(old(disk.files), disk.files, backup)
    ensures ElsewhereSame(old(disk.files), disk.files, conf, hba, backup)
    ensures hba in old(disk.files) ==> LeavesSince(disk, old(|disk.trail|), old(disk.files), conf, hba, backup)
  {
    ok := disk.Other();
    if ok {
      ok := disk.WriteFile(conf, SETTINGS, 0x1A4);
    }
  }

  lemma Elsewhere(base: Tree, mid: Tree, tree: Tree, conf: Path, hba: Path, backup: Path)
    requires ElsewhereSame(base, mid, conf, hba, backup) && ElsewhereSame(mid, tree, conf, hba, backup)
    ensures ElsewhereSame(base, tree, conf, hba, backup)
  {
    forall p | p != conf && p != hba && p != backup
      ensures SameAt(base, tree, p)
    {
      assert SameAt(base, mid, p) && SameAt(mid, tree, p);
    }
  }

  // ---- any number of calls ---------------------------------------------

  /** The original text is in the file, in front of the file behind the block, or in the backup. */
  predicate Recoverable(a: Access, original: string) {
    a.hba == original || a.hba == BLOCK + original || a.backup == Some(original)
  }

  /** Successive calls, each ended anywhere: what each of them found, and what the last one left. */
  predicate Calls(found: seq<Access>) {
    found != [] && forall i | 0 <= i < |found| - 1 :: MayLeave(found[i], found[i + 1])
  }

  /** Calls the first of which finds `a` and rewrites the file, or at least begins to. */
  predicate RewritesFrom(found: seq<Access>, a: Access) {
    Calls(found) && |found| >= 2 && found[0] == a && found[1].hba != a.hba
  }

  lemma {:induction false} BackupIsNeverTouched(found: seq<Access>, i: nat)
    requires Calls(found) && i < |found| && found[i].backup.Some?
    ensures found[|found| - 1].backup == found[i].backup
    decreases |found| - i
  {
    if i < |found| - 1 {
      assert MayLeave(found[i], found[i + 1]);
      BackupIsNeverTouched(found, i + 1);
    }
  }

  /** From the call on that rewrites the file, over any number of calls each ended anywhere, the
      original can be recovered at every point if and only if that call found no backup, or one that
      held the original already. */
  lemma OriginalIsKeptExactly(a: Access)
    requires !Contains(a.hba, MARKER)
    ensures (forall found | RewritesFrom(found, a) :: Recoverable(found[|found| - 1], a.hba))
      <==> a.backup.None? || a.backup == Some(a.hba)
  {
    if a.backup.None? || a.backup == Some(a.hba) {
      forall found | RewritesFrom(found, a)
        ensures Recoverable(found[|found| - 1], a.hba)
      {
        assert MayLeave(found[0], found[1]);
        BackupIsNeverTouched(found, 1);
      }
    } else {
      BlockHasMarker();
      var torn := if a.hba == "" then BLOCK[..1] else "";
      var found := [a, Access(torn, a.backup)];
      assert RewritesFrom(found, a) && !Recoverable(found[1], a.hba);
    }
  }

  /** A call that dies in the backup leaves it cut short; the next one takes it for a backup, and a
      point comes where the original is gone. */
  lemma TornBackupLosesTheOriginal(original: string)
    requires original != "" && !Contains(original, MARKER)
    ensures
      var found := [Access(original, None), Access(original, Some("")), Access("", Some(""))];
      Calls(found) && !Recoverable(found[2], original)
  {
    BlockHasMarker();
  }

  /** The rewrite is not atomic. After a process died in it and left the first part `torn` of the new
      text, running again completes the file exactly when the whole text was there already, or `torn`
      is the original text itself. */
  lemma RerunAfterTornWrite(data: string, torn: string)
    requires torn <= BLOCK + data && !Contains(data, MARKER)
    ensures Managed(torn) == BLOCK + data <==> torn == BLOCK + data || torn == data
  {
    if Managed(torn) == BLOCK + data && !Contains(torn, MARKER) {
      assert (BLOCK + torn)[|BLOCK|..] == (BLOCK + data)[|BLOCK|..];
    }
    if torn == BLOCK + data {
      ManagedIsIdempotent(data);
    }
  }

  lemma TornBlockHasMarker(data: string, n: nat)
    requires |MARKER| <= n <= |BLOCK + data|
    ensures Contains((BLOCK + data)[..n], MARKER)
  {
    BlockHasMarker();
    var torn := (BLOCK + data)[..n];
    assert torn[..|MARKER|] == MARKER;
    ContainsHere("", MARKER, torn[|MARKER|..]);
    assert "" + MARKER + torn[|MARKER|..] == torn;
  }

  /** In particular, once the first line is out the torn file is taken for a finished one. */
  lemma TornBlockIsTakenForManaged(data: string, torn: string)
    requires torn <= BLOCK + data && |MARKER| <= |torn| < |BLOCK + data|
    ensures Managed(torn) == torn != BLOCK + data
  {
    BlockHasMarker();
    assert torn[..|MARKER|] == MARKER;
    ContainsHere("", MARKER, torn[|MARKER|..]);
    assert "" + MARKER + torn[|MARKER|..] == torn;
  }
}
