/** internal/release: the version parser and the installer compatibility gate. */
module Versions {
  import opened Wrappers
  import opened Text

  datatype Version = Version(major: nat, minor: nat, patch: nat)

  datatype Verdict = Accepted | MissingMinimum | BadInstaller | BadMinimum | TooOld

  const MAX_INT: int := 0x7FFF_FFFF_FFFF_FFFF

  /** `strconv.Atoi` on a 64-bit platform: an optional sign, then digits, in range. */
  function Atoi(s: string): Option<int> {
    var negative := HasPrefix(s, "-");
    var digits := if negative || HasPrefix(s, "+") then s[1..] else s;
    match ParseDigits(digits)
    case None => None
    case Some(n) =>
      var value := if negative then -(n as int) else n as int;
      if -MAX_INT - 1 <= value <= MAX_INT then Some(value) else None
  }

  /** The dot-separated fields of the text before the first dash, after trimming. */
  function Fields(value: string): seq<string> {
    var trimmed := TrimSpace(value);
    var bare := if HasPrefix(trimmed, "v") then trimmed[1..] else trimmed;
    Split(Cut(bare, '-').0, ".")
  }

  /** The number in one field, when it is one the parser takes. */
  function Component(part: string): Option<nat> {
    match Atoi(part)
    case Some(n) => if n < 0 then None else Some(n)
    case None => None
  }

  function Parse(value: string): Option<Version> {
    var parts := Fields(value);
    if |parts| == 3 && Component(parts[0]).Some? && Component(parts[1]).Some? && Component(parts[2]).Some? then
      Some(Version(Component(parts[0]).value, Component(parts[1]).value, Component(parts[2]).value))
    else None
  }

  /** Lexicographic order of the three numbers. */
  predicate AtLeast(a: Version, b: Version) {
    || a.major > b.major
    || (a.major == b.major && a.minor > b.minor)
    || (a.major == b.major && a.minor == b.minor && a.patch >= b.patch)
  }

  predicate Accepts(minimum: string, installer: string) {
    && minimum != ""
    && Parse(installer).Some? && Parse(minimum).Some?
    && AtLeast(Parse(installer).value, Parse(minimum).value)
  }

  method SemanticVersion(value: string) returns (r: Option<seq<nat>>)
    ensures r.Some? <==> Parse(value).Some?
    ensures r.Some? ==>
      r.value == [Parse(value).value.major, Parse(value).value.minor, Parse(value).value.patch]
  {
    var parts := Fields(value);
    if |parts| != 3 {
      return None;
    }
    var result: seq<nat> := [];
    for index := 0 to 3
      invariant |result| == index
      invariant forall i | 0 <= i < index :: Component(parts[i]) == Some(result[i])
    {
      var number := Atoi(parts[index]);
      if number.None? || number.value < 0 {
        return None;
      }
      result := result + [number.value];
    }
    return Some(result);
  }

  method CheckInstallerCompatibility(minimum: string, installer: string) returns (verdict: Verdict)
    ensures verdict.Accepted? <==> Accepts(minimum, installer)
    ensures verdict.MissingMinimum? <==> minimum == ""
    ensures verdict.BadInstaller? <==> minimum != "" && Parse(installer).None?
    ensures verdict.BadMinimum? <==> minimum != "" && Parse(installer).Some? && Parse(minimum).None?
  {
    if minimum == "" {
      return MissingMinimum;
    }
    var current := SemanticVersion(installer);
    if current.None? {
      return BadInstaller;
    }
    var least := SemanticVersion(minimum);
    if least.None? {
      return BadMinimum;
    }
    var older := IsOlder(current.value, least.value);
    return if older then TooOld else Accepted;
  }

  /** The component-wise comparison, most significant first. */
  method IsOlder(current: seq<nat>, least: seq<nat>) returns (older: bool)
    requires |current| == |least| == 3
    ensures older <==> !AtLeast(Version(current[0], current[1], current[2]), Version(least[0], least[1], least[2]))
  {
    for index := 0 to 3
      invariant forall i | 0 <= i < index :: current[i] == least[i]
    {
      if current[index] > least[index] {
        return false;
      }
      if current[index] < least[index] {
        return true;
      }
    }
    return false;
  }

  /** The gate orders the parseable versions totally. */
  lemma AcceptsIsATotalPreorder(a: string, b: string, c: string)
    ensures Parse(a).Some? <==> Accepts(a, a)
    ensures Parse(a).Some? && Parse(b).Some? ==> Accepts(a, b) || Accepts(b, a)
    ensures Accepts(a, b) && Accepts(b, c) ==> Accepts(a, c)
    ensures Accepts(a, b) && Accepts(b, a) <==> Parse(a).Some? && Parse(a) == Parse(b)
  {
    EmptyIsNotAVersion();
  }

  lemma EmptyIsNotAVersion()
    ensures Parse("").None?
  {
    SplitLast("", ".", []);
    assert |Fields("")| == 1;
  }

  /** After the cut at the first dash no field has a minus sign, so a negative number never occurs. */
  lemma NegativeComponentIsUnreachable(value: string, i: nat)
    requires i < |Fields(value)|
    ensures '-' !in Fields(value)[i]
    ensures Atoi(Fields(value)[i]).Some? ==> Atoi(Fields(value)[i]).value >= 0
  {
    var trimmed := TrimSpace(value);
    var bare := if HasPrefix(trimmed, "v") then trimmed[1..] else trimmed;
    SplitKeepsOut(Cut(bare, '-').0, ".", [], '-');
    NoSignNoNegative(Fields(value)[i]);
  }

  lemma NoSignNoNegative(part: string)
    requires '-' !in part
    ensures Atoi(part).Some? ==> Atoi(part).value >= 0
  {
    if part != "" {
      assert part[0] in part;
    }
  }

  lemma {:induction false} SplitKeepsOut(s: string, sep: string, field: string, c: char)
    requires sep != [] && c !in s && c !in field
    ensures forall i | 0 <= i < |SplitFrom(s, sep, field)| :: c !in SplitFrom(s, sep, field)[i]
    decreases |s|
  {
    if s == [] {
    } else if sep <= s {
      SplitKeepsOut(s[|sep|..], sep, [], c);
    } else {
      SplitKeepsOut(s[1..], sep, field + [s[0]], c);
    }
  }

  function Print(v: Version): string {
    Join([Itoa(v.major), Itoa(v.minor), Itoa(v.patch)], ".")
  }

  predicate Representable(v: Version) {
    v.major <= MAX_INT && v.minor <= MAX_INT && v.patch <= MAX_INT
  }

  /** Parsing inverts printing, with or without "v", and ignores everything from the first dash. */
  lemma ParsePrint(v: Version, prefix: string, suffix: string)
    requires Representable(v)
    requires prefix == "" || prefix == "v"
    requires suffix == "" || HasPrefix(suffix, "-")
    ensures Parse(prefix + Print(v) + suffix) == Some(v)
  {
    FieldsPrint(v, prefix, suffix);
    ComponentItoa(v.major);
    ComponentItoa(v.minor);
    ComponentItoa(v.patch);
  }

  lemma NoDot(n: nat)
    ensures '.' !in Itoa(n)
  {
  }

  lemma FieldsPrint(v: Version, prefix: string, suffix: string)
    requires prefix == "" || prefix == "v"
    requires suffix == "" || HasPrefix(suffix, "-")
    ensures Fields(prefix + Print(v) + suffix) == [Itoa(v.major), Itoa(v.minor), Itoa(v.patch)]
  {
    PrintCharacters(v);
    BarePrint(prefix, Print(v), suffix);
    NoDot(v.major);
    NoDot(v.minor);
    NoDot(v.patch);
    SplitJoin([Itoa(v.major), Itoa(v.minor), Itoa(v.patch)], ".");
  }

  lemma BarePrint(prefix: string, core: string, suffix: string)
    requires prefix == "" || prefix == "v"
    requires suffix == "" || HasPrefix(suffix, "-")
    requires core != [] && IsDigit(core[0]) && IsDigit(core[|core| - 1]) && '-' !in core
    ensures Fields(prefix + core + suffix) == Split(core, ".")
  {
    TrimKeepsCore(prefix + core, suffix);
    TrimRightOfDashed(suffix);
    CutCore(core, TrimRight(suffix));
    BareOf(prefix, core, TrimRight(suffix));
  }

  lemma BareOf(prefix: string, core: string, tail: string)
    requires prefix == "" || prefix == "v"
    requires core != [] && IsDigit(core[0])
    ensures HasPrefix(prefix + core + tail, "v") <==> prefix == "v"
    ensures (prefix + core + tail)[|prefix|..] == core + tail
  {
    assert (prefix + core + tail)[0] == if prefix == "" then core[0] else 'v';
  }

  lemma {:induction false} TrimRightOfDashed(suffix: string)
    requires suffix == "" || HasPrefix(suffix, "-")
    ensures TrimRight(suffix) == "" || HasPrefix(TrimRight(suffix), "-")
  {
    if suffix != "" && IsSpace(suffix[|suffix| - 1]) {
      assert suffix[0] == '-';
      TrimRightOfDashed(suffix[..|suffix| - 1]);
    }
  }

  lemma PrintCharacters(v: Version)
    ensures Print(v) != [] && IsDigit(Print(v)[0]) && IsDigit(Print(v)[|Print(v)| - 1])
    ensures '-' !in Print(v)
  {
    var a, b, c := Itoa(v.major), Itoa(v.minor), Itoa(v.patch);
    assert [a, b, c][1..] == [b, c] && [b, c][1..] == [c];
    assert Join([c], ".") == c;
    assert Join([b, c], ".") == b + "." + c;
    assert Join([a, b, c], ".") == a + "." + Join([b, c], ".");
  }

  lemma ComponentItoa(n: nat)
    requires n <= MAX_INT
    ensures Component(Itoa(n)) == Some(n)
  {
    ParseItoa(n);
    assert IsDigit(Itoa(n)[0]);
  }

  lemma CutCore(core: string, tail: string)
    requires '-' !in core
    requires tail == "" || HasPrefix(tail, "-")
    ensures Cut(core + tail, '-').0 == core
  {
    if tail == "" {
      assert core + tail == core;
      CutAbsent(core, '-');
    } else {
      assert core + tail == core + ['-'] + tail[1..];
      CutHere(core, '-', tail[1..]);
    }
  }

  function Dotted(major: nat, minor: nat, patch: nat): string {
    Itoa(major) + "." + Itoa(minor) + "." + Itoa(patch)
  }

  lemma PrintIsText(v: Version)
    ensures Print(v) == Dotted(v.major, v.minor, v.patch)
  {
    var a, b, c := Itoa(v.major), Itoa(v.minor), Itoa(v.patch);
    assert [a, b, c][1..] == [b, c] && [b, c][1..] == [c];
    assert Join([c], ".") == c;
    assert Join([b, c], ".") == b + "." + c;
    assert Join([a, b, c], ".") == a + "." + Join([b, c], ".");
  }

  /** On the texts themselves: an installer is refused exactly if its first number is smaller than the
      minimum's; or that is equal and the second is smaller; or both are equal and the third is. */
  lemma OlderIsRefused(a: nat, b: nat, c: nat, x: nat, y: nat, z: nat)
    requires a <= MAX_INT && b <= MAX_INT && c <= MAX_INT && x <= MAX_INT && y <= MAX_INT && z <= MAX_INT
    ensures !Accepts(Dotted(a, b, c), Dotted(x, y, z)) <==> x < a || (x == a && y < b) || (x == a && y == b && z < c)
  {
    var least, installer := Version(a, b, c), Version(x, y, z);
    PrintIsText(least);
    PrintIsText(installer);
    assert Parse(Dotted(a, b, c)) == Some(least) by {
      ParsePrint(least, "", "");
      assert "" + Print(least) + "" == Dotted(a, b, c);
    }
    assert Parse(Dotted(x, y, z)) == Some(installer) by {
      ParsePrint(installer, "", "");
      assert "" + Print(installer) + "" == Dotted(x, y, z);
    }
    EmptyIsNotAVersion();
  }

  /** Unlike Semantic Versioning 2.0.0 section 11, a pre-release counts as its release. */
  lemma PreReleaseCountsAsRelease(v: Version, tag: string)
    requires Representable(v)
    ensures Accepts(Print(v), Print(v) + "-" + tag)
    ensures Accepts(Print(v) + "-" + tag, Print(v))
  {
    var release, preRelease := Print(v), Print(v) + "-" + tag;
    assert Parse(release) == Some(v) by {
      ParsePrint(v, "", "");
      assert "" + Print(v) + "" == release;
    }
    assert Parse(preRelease) == Some(v) by {
      ParsePrint(v, "", "-" + tag);
      assert "" + Print(v) + ("-" + tag) == preRelease;
    }
    PrintCharacters(v);
  }
}
