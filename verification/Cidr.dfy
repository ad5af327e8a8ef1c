/** Network blocks read from their text: dotted quads (RFC 4632, section 3.1) and IPv6 addresses (RFC 4291,
    section 2.2), followed by a slash and the length of the prefix. */
module Cidr {
  import opened Wrappers
  import opened Text
  import opened Firewall

  // ---- numbers ---------------------------------------------------------

  function Octet(s: string): Option<nat> {
    match ParseDigits(s)
    case Some(n) => if n < 256 then Some(n) else None
    case None => None
  }

  function HexDigit(c: char): Option<nat> {
    if '0' <= c <= '9' then Some((c - '0') as nat)
    else if 'a' <= c <= 'f' then Some((c - 'a') as nat + 10)
    else if 'A' <= c <= 'F' then Some((c - 'A') as nat + 10)
    else None
  }

  function HexValue(s: string): Option<nat> {
    if s == "" then Some(0)
    else
      match (HexValue(s[..|s| - 1]), HexDigit(s[|s| - 1]))
      case (Some(high), Some(low)) => Some(16 * high + low)
      case _ => None
  }

  /** One to four hexadecimal digits. */
  function Group(s: string): Option<nat> {
    if 1 <= |s| <= 4 then HexValue(s) else None
  }

  // ---- addresses -------------------------------------------------------

  /** A number of either notation: an octet between dots, a group between colons. */
  function Number(s: string, separator: char): Option<nat> {
    if separator == '.' then Octet(s) else Group(s)
  }

  /** The numbers of all parts, most significant first. */
  function Numbers(parts: seq<string>, separator: char): Option<seq<nat>> {
    if parts == [] then Some([])
    else
      match (Number(parts[0], separator), Numbers(parts[1..], separator))
      case (Some(n), Some(rest)) => Some([n] + rest)
      case _ => None
  }

  function Compose(numbers: seq<nat>, base: nat): nat {
    if numbers == [] then 0
    else Compose(numbers[..|numbers| - 1], base) * base + numbers[|numbers| - 1]
  }

  function Dotted(s: string): Option<nat> {
    match Numbers(Split(s, "."), '.')
    case Some(numbers) => if |numbers| == 4 then Some(Compose(numbers, 256)) else None
    case None => None
  }

  /** The groups on one side of a double colon. */
  function Side(s: string): Option<seq<nat>> {
    if s == "" then Some([]) else Numbers(Split(s, ":"), ':')
  }

  function Zeros(n: nat): seq<nat> {
    seq(n, _ => 0)
  }

  /** Eight groups, of which a double colon leaves out one or more zeros. */
  function Colons(s: string): Option<nat> {
    var sides := Split(s, "::");
    if |sides| == 1 then
      match Side(s)
      case Some(numbers) => if |numbers| == 8 then Some(Compose(numbers, 0x1_0000)) else None
      case None => None
    else if |sides| == 2 then
      match (Side(sides[0]), Side(sides[1]))
      case (Some(left), Some(right)) =>
        if |left| + |right| < 8 then Some(Compose(left + Zeros(8 - |left| - |right|) + right, 0x1_0000)) else None
      case _ => None
    else None
  }

  function ReadAddress(s: string): Option<Address> {
    if ':' in s then
      match Colons(s)
      case Some(bits) => Some(V6(bits))
      case None => None
    else
      match Dotted(s)
      case Some(bits) => Some(V4(bits))
      case None => None
  }

  function ReadPrefix(s: string): Option<Prefix> {
    var (address, length) := Cut(s, '/');
    if length.None? then None
    else
      match (ReadAddress(address), ParseDigits(length.value))
      case (Some(a), Some(n)) => if n <= Width(a) then Some(Prefix(a, n)) else None
      case _ => None
  }

  /** A dotted quad with a length, from its numbers. */
  function Quad(a: string, b: string, c: string, d: string, n: string): string {
    a + "." + b + "." + c + "." + d + "/" + n
  }

  /** Zeros, at most one group, and a length. */
  function Short(group: string, n: string): string {
    "::" + group + "/" + n
  }

  // ---- reading texts ---------------------------------------------------

  lemma Parts(a: string, b: string, c: string, d: string)
    requires '.' !in a && '.' !in b && '.' !in c && '.' !in d
    ensures Split(a + "." + b + "." + c + "." + d, ".") == [a, b, c, d]
  {
    SplitJoin([a, b, c, d], ".");
    assert [a, b, c, d][1..] == [b, c, d] && [b, c, d][1..] == [c, d] && [c, d][1..] == [d];
    assert Join([c, d], ".") == c + "." + d;
    assert Join([b, c, d], ".") == b + "." + (c + "." + d);
    assert Join([a, b, c, d], ".") == a + "." + (b + "." + (c + "." + d));
    assert a + "." + b + "." + c + "." + d == a + "." + (b + "." + (c + "." + d));
  }

  lemma NumbersUncons(part: string, rest: seq<string>, n: nat, numbers: seq<nat>, separator: char)
    requires Number(part, separator) == Some(n) && Numbers(rest, separator) == Some(numbers)
    ensures Numbers([part] + rest, separator) == Some([n] + numbers)
  {
    assert ([part] + rest)[1..] == rest;
  }

  lemma FourNumbers(a: string, b: string, c: string, d: string, w: nat, x: nat, y: nat, z: nat)
    requires Octet(a) == Some(w) && Octet(b) == Some(x) && Octet(c) == Some(y) && Octet(d) == Some(z)
    ensures Numbers([a, b, c, d], '.') == Some([w, x, y, z])
    ensures Compose([w, x, y, z], 256) == ((w * 256 + x) * 256 + y) * 256 + z
  {
    assert [a] + [b, c, d] == [a, b, c, d] && [b] + [c, d] == [b, c, d] && [c] + [d] == [c, d] && [d] + [] == [d];
    assert [w] + [x, y, z] == [w, x, y, z] && [x] + [y, z] == [x, y, z] && [y] + [z] == [y, z] && [z] + [] == [z];
    NumbersUncons(d, [], z, [], '.');
    NumbersUncons(c, [d], y, [z], '.');
    NumbersUncons(b, [c, d], x, [y, z], '.');
    NumbersUncons(a, [b, c, d], w, [x, y, z], '.');
    assert [w, x, y, z][..3] == [w, x, y] && [w, x, y][..2] == [w, x] && [w, x][..1] == [w] && [w][..0] == [];
    assert Compose([w], 256) == w;
    assert Compose([w, x], 256) == w * 256 + x;
    assert Compose([w, x, y], 256) == (w * 256 + x) * 256 + y;
  }

  lemma NoDotInDigits(s: string)
    requires AllDigits(s)
    ensures '.' !in s && ':' !in s && '/' !in s
  {
  }

  /** A dotted quad and a length, from their numbers. */
  lemma QuadReads(a: string, b: string, c: string, d: string, n: string, w: nat, x: nat, y: nat, z: nat, length: nat)
    requires Octet(a) == Some(w) && Octet(b) == Some(x) && Octet(c) == Some(y) && Octet(d) == Some(z)
    requires ParseDigits(n) == Some(length) && length <= 32
    ensures ReadPrefix(Quad(a, b, c, d, n))
         == Some(Prefix(V4(((w * 256 + x) * 256 + y) * 256 + z), length))
  {
    NoDotInDigits(a);
    NoDotInDigits(b);
    NoDotInDigits(c);
    NoDotInDigits(d);
    var address := a + "." + b + "." + c + "." + d;
    Parts(a, b, c, d);
    FourNumbers(a, b, c, d, w, x, y, z);
    assert address + "/" + n == address + ['/'] + n;
    CutHere(address, '/', n);
  }

  lemma ComposeSnoc(numbers: seq<nat>, last: nat, base: nat)
    ensures Compose(numbers + [last], base) == Compose(numbers, base) * base + last
  {
    assert (numbers + [last])[..|numbers|] == numbers;
  }

  lemma {:induction false} ZerosAreZero(n: nat, base: nat)
    ensures Compose(Zeros(n), base) == 0
  {
    if n > 0 {
      assert Zeros(n) == Zeros(n - 1) + [0];
      ComposeSnoc(Zeros(n - 1), 0, base);
      ZerosAreZero(n - 1, base);
    }
  }

  lemma LeadingZeros(n: nat, last: seq<nat>, base: nat)
    requires |last| <= 1
    ensures Compose(Zeros(n) + last, base) == if last == [] then 0 else last[0]
  {
    ZerosAreZero(n, base);
    if last == [] {
      assert Zeros(n) + last == Zeros(n);
    } else {
      ComposeSnoc(Zeros(n), last[0], base);
      assert last == [last[0]];
    }
  }

  lemma SidesOf(group: string)
    requires ':' !in group
    ensures Split("::" + group, "::") == ["", group]
  {
    SplitField("", "::", group, []);
    assert "" + "::" + group == "::" + group;
    SplitLast(group, "::", []);
    assert [] + group == group && [] + "" == "";
  }

  lemma GroupSide(group: string, value: nat)
    requires ':' !in group && Group(group) == Some(value)
    ensures Side(group) == Some([value])
  {
    SplitLast(group, ":", []);
    assert [] + group == group;
    assert [group][1..] == [];
    assert Numbers([], ':') == Some([]);
    assert Number(group, ':') == Some(value);
    assert [value] + [] == [value];
  }

  /** "::" followed by at most one group. */
  lemma ShortAddress(group: string, value: nat)
    requires if group == "" then value == 0 else Group(group) == Some(value)
    requires ':' !in group
    ensures ReadAddress("::" + group) == Some(V6(value))
  {
    SidesOf(group);
    var right: seq<nat> := if group == "" then [] else [value];
    if group != "" {
      GroupSide(group, value);
    }
    LeadingZeros(8 - |right|, right, 0x1_0000);
    assert [] + Zeros(8 - |right|) + right == Zeros(8 - |right|) + right;
    assert ("::" + group)[0] == ':';
  }

  lemma ShortReads(group: string, n: string, value: nat, length: nat)
    requires if group == "" then value == 0 else Group(group) == Some(value)
    requires ':' !in group && '/' !in group && ParseDigits(n) == Some(length) && length <= 128
    ensures ReadPrefix(Short(group, n)) == Some(Prefix(V6(value), length))
  {
    var address := "::" + group;
    assert address + "/" + n == address + ['/'] + n;
    CutHere(address, '/', n);
    ShortAddress(group, value);
  }
}
