/** internal/firewall: the text that `NFT` renders, reading that text back, what loading it does to a
    ruleset, and when it means the same as the UFW commands for the same policy. */
module FirewallScript {
  import opened Wrappers
  import opened Text
  import opened Firewall

  // ---- rendering -------------------------------------------------------

  const TABLE: seq<string> := ["table", "inet", "centralcloud_installer"]
  const SET_V4: seq<string> := ["set", "reverse_proxy_v4", "{", "type", "ipv4_addr;"]
  const SET_V6: seq<string> := ["set", "reverse_proxy_v6", "{", "type", "ipv6_addr;"]
  const INTERVALS: seq<string> := ["flags", "interval;", "elements", "=", "{"]
  const SET_CLOSE: seq<string> := ["}", "}"]
  const CHAIN: seq<string> := [
    "chain", "input", "{", "type", "filter", "hook", "input", "priority", "-5;", "policy", "accept;"]
  const V4_ACCEPT: seq<string> := ["ip", "saddr", "@" + "reverse_proxy_v4", "accept"]
  const V6_ACCEPT: seq<string> := ["ip6", "saddr", "@" + "reverse_proxy_v6", "accept"]
  const REJECT: seq<string> := ["reject"]

  function SetLine(open: seq<string>, cidrs: seq<string>): string {
    Line("  ", open + INTERVALS + [Join(cidrs, ", ")] + SET_CLOSE)
  }

  function RuleLine(port: nat, action: seq<string>): string {
    Line("    ", ["tcp", "dport", Itoa(port)] + action)
  }

  /** The blocks of one address family, in their order. */
  function OfFamily(parse: Parser, cidrs: seq<string>, v4: bool): seq<string> {
    if cidrs == [] then []
    else
      var earlier := OfFamily(parse, cidrs[..|cidrs| - 1], v4);
      var last := cidrs[|cidrs| - 1];
      if IsV4(parse, last) == v4 then earlier + [last] else earlier
  }

  /** No lines render as an empty line. */
  function Block(lines: seq<string>): seq<string> {
    if lines == [] then [""] else lines
  }

  function SetLines(ipv4: seq<string>, ipv6: seq<string>): seq<string> {
    (if ipv4 == [] then [] else [SetLine(SET_V4, ipv4)]) + (if ipv6 == [] then [] else [SetLine(SET_V6, ipv6)])
  }

  function RuleLines(ipv4: seq<string>, ipv6: seq<string>, port: nat): seq<string> {
    (if ipv4 == [] then [] else [RuleLine(port, V4_ACCEPT)]) + (if ipv6 == [] then [] else [RuleLine(port, V6_ACCEPT)])
  }

  const HEADER: seq<string> := [Line("", TABLE), Line("", ["flush"] + TABLE), Line("", TABLE + ["{"])]

  const CHAIN_OPEN := Line("  ", CHAIN)

  function Footer(port: nat): seq<string> {
    [RuleLine(port, REJECT), RuleLine(5432, REJECT), "  }", "}", ""]
  }

  function Lines(ipv4: seq<string>, ipv6: seq<string>, port: nat): seq<string> {
    HEADER + Block(SetLines(ipv4, ipv6)) + [CHAIN_OPEN] + Block(RuleLines(ipv4, ipv6, port)) + Footer(port)
  }

  function Script(parse: Parser, cidrs: seq<string>, port: nat): string {
    Join(Lines(OfFamily(parse, cidrs, true), OfFamily(parse, cidrs, false), port), "\n")
  }

  method NFT(parse: Parser, plan: Plan) returns (text: string)
    ensures text == Script(parse, plan.sourceCIDRs, plan.agentPort)
  {
    var ipv4, ipv6: seq<string> := [], [];
    for i := 0 to |plan.sourceCIDRs|
      invariant ipv4 == OfFamily(parse, plan.sourceCIDRs[..i], true)
      invariant ipv6 == OfFamily(parse, plan.sourceCIDRs[..i], false)
    {
      var raw := plan.sourceCIDRs[i];
      assert plan.sourceCIDRs[..i + 1][..i] == plan.sourceCIDRs[..i];
      if IsV4(parse, raw) {
        ipv4 := ipv4 + [raw];
      } else {
        ipv6 := ipv6 + [raw];
      }
    }
    assert plan.sourceCIDRs[..|plan.sourceCIDRs|] == plan.sourceCIDRs;
    var sets, rules: seq<string> := [], [];
    if |ipv4| > 0 {
      sets := sets + [SetLine(SET_V4, ipv4)];
      rules := rules + [RuleLine(plan.agentPort, V4_ACCEPT)];
    }
    if |ipv6| > 0 {
      sets := sets + [SetLine(SET_V6, ipv6)];
      rules := rules + [RuleLine(plan.agentPort, V6_ACCEPT)];
    }
    assert sets == SetLines(ipv4, ipv6);
    assert rules == RuleLines(ipv4, ipv6, plan.agentPort);
    text := Join(HEADER + Block(sets) + [CHAIN_OPEN] + Block(rules) + Footer(plan.agentPort), "\n");
  }

  // ---- reading lines ---------------------------------------------------

  /** A table's family and name. */
  type TableName = (string, string)

  /** A rule for a TCP port: from everywhere, or from the elements of a set of one family. */
  datatype NftRule = NftRule(port: nat, source: Option<SetRef>, verdict: Verdict)

  datatype SetRef = SetRef(v4: bool, name: string)

  datatype Item =
    | Declare(table: TableName) | Flush(table: TableName) | Open(table: TableName)
    | DefineSet(name: string, v4: bool, elements: seq<string>)
    | OpenChain(name: string, hook: string, priority: string, policy: Verdict)
    | AddRule(rule: NftRule)
    | Close | Blank | Unknown

  function ReadVerdict(word: string): Option<Verdict> {
    if word == "accept" then Some(Admit)
    else if word == "drop" || word == "reject" then Some(Refuse)
    else None
  }

  /** The policy of a chain; a chain cannot reject by default. */
  function ReadPolicy(word: string): Option<Verdict> {
    if word == "accept;" then Some(Admit) else if word == "drop;" then Some(Refuse) else None
  }

  /** Whether the type of a set's elements is IPv4. */
  function ReadType(word: string): Option<bool> {
    if word == "ipv4_addr;" then Some(true) else if word == "ipv6_addr;" then Some(false) else None
  }

  function ReadFamily(word: string): Option<bool> {
    if word == "ip" then Some(true) else if word == "ip6" then Some(false) else None
  }

  /** Elements with a comma behind each but the last. */
  function ReadElements(words: seq<string>): Option<seq<string>> {
    if words == [] then None
    else if |words| == 1 then Some(words)
    else if words[0] == "" || words[0][|words[0]| - 1] != ',' then None
    else
      match ReadElements(words[1..])
      case Some(rest) => Some([words[0][..|words[0]| - 1]] + rest)
      case None => None
  }

  function ReadTable(words: seq<string>): Item {
    if |words| == 3 then Declare((words[1], words[2]))
    else if |words| == 4 && words[3] == "{" then Open((words[1], words[2]))
    else Unknown
  }

  function ReadFlush(words: seq<string>): Item {
    if |words| == 4 && words[1] == "table" then Flush((words[2], words[3])) else Unknown
  }

  function ReadSet(words: seq<string>): Item {
    if |words| > 12 && words[2..4] == ["{", "type"] && words[5..10] == ["flags", "interval;", "elements", "=", "{"]
       && words[|words| - 2..] == ["}", "}"] then
      match (ReadType(words[4]), ReadElements(words[10..|words| - 2]))
      case (Some(v4), Some(elements)) => DefineSet(words[1], v4, elements)
      case _ => Unknown
    else Unknown
  }

  function ReadChain(words: seq<string>): Item {
    if |words| == 11 && words[2..6] == ["{", "type", "filter", "hook"]
       && words[7] == "priority" && words[9] == "policy" && ReadPolicy(words[10]).Some? then
      OpenChain(words[1], words[6], words[8], ReadPolicy(words[10]).value)
    else Unknown
  }

  function ReadSource(words: seq<string>): Option<SetRef> {
    if |words| == 3 && ReadFamily(words[0]).Some? && words[1] == "saddr" && words[2] != "" && words[2][0] == '@' then
      Some(SetRef(ReadFamily(words[0]).value, words[2][1..]))
    else None
  }

  function ReadRule(words: seq<string>): Item {
    if |words| == 4 || |words| == 7 then
      var source := ReadSource(words[3..|words| - 1]);
      match (ParseDigits(words[2]), ReadVerdict(words[|words| - 1]))
      case (Some(port), Some(verdict)) =>
        if words[1] == "dport" && (|words| == 7 ==> source.Some?) then AddRule(NftRule(port, source, verdict))
        else Unknown
      case _ => Unknown
    else Unknown
  }

  function ReadWords(words: seq<string>): Item {
    if words == [] then Blank
    else if words == ["}"] then Close
    else if words[0] == "table" then ReadTable(words)
    else if words[0] == "flush" then ReadFlush(words)
    else if words[0] == "set" then ReadSet(words)
    else if words[0] == "chain" then ReadChain(words)
    else if words[0] == "tcp" then ReadRule(words)
    else Unknown
  }

  function ReadLine(line: string): Item {
    ReadWords(Words(line))
  }

  function ReadLines(lines: seq<string>): seq<Item> {
    seq(|lines|, i requires 0 <= i < |lines| => ReadLine(lines[i]))
  }

  function Read(text: string): seq<Item> {
    ReadLines(Split(text, "\n"))
  }

  // ---- reading the rendered lines --------------------------------------

  /** What `Join` with ", " puts between blanks. */
  function Commas(cidrs: seq<string>): seq<string> {
    if |cidrs| <= 1 then cidrs else [cidrs[0] + ","] + Commas(cidrs[1..])
  }

  predicate AreElements(cidrs: seq<string>) {
    forall x | x in cidrs :: IsWord(x) && ',' !in x
  }

  lemma {:induction false} WordsOfElements(cidrs: seq<string>)
    requires cidrs != [] && AreElements(cidrs)
    ensures Words(Join(cidrs, ", ")) == Commas(cidrs)
    ensures ReadElements(Commas(cidrs)) == Some(cidrs)
    ensures |Commas(cidrs)| == |cidrs|
  {
    assert cidrs[0] in cidrs;
    if |cidrs| == 1 {
      OneWord(cidrs[0]);
    } else {
      var rest := cidrs[1..];
      assert Join(cidrs, ", ") == (cidrs[0] + ",") + " " + Join(rest, ", ");
      WordsConcat(cidrs[0] + ",", Join(rest, ", "));
      OneWord(cidrs[0] + ",");
      WordsOfElements(rest);
      assert Commas(cidrs)[1..] == Commas(rest);
      assert (cidrs[0] + ",")[..|cidrs[0] + ","| - 1] == cidrs[0];
      assert [cidrs[0]] + rest == cidrs;
    }
  }

  lemma SetWords(open: seq<string>, cidrs: seq<string>)
    requires AreWords(open) && cidrs != [] && AreElements(cidrs)
    ensures Words(SetLine(open, cidrs)) == open + INTERVALS + Commas(cidrs) + SET_CLOSE
    ensures '\n' !in SetLine(open, cidrs)
  {
    var before, middle := open + INTERVALS, Join(cidrs, ", ");
    FrameWords();
    IndentIsNoWord("  ", Join(before + [middle] + SET_CLOSE, " "));
    WordsAround(before, middle, SET_CLOSE);
    WordsOfElements(cidrs);
    assert forall i | 0 <= i < |cidrs| :: cidrs[i] in cidrs;
    JoinKeepsOut(cidrs, ", ", '\n');
    JoinKeepsOut(before + [middle] + SET_CLOSE, " ", '\n');
  }

  lemma FrameWords()
    ensures AreWords(INTERVALS) && AreWords(SET_CLOSE)
  {
  }

  lemma ReadSetWords(open: seq<string>, elements: seq<string>, name: string, type_: string)
    requires open == ["set", name, "{", "type", type_] && elements != []
    ensures ReadWords(open + INTERVALS + elements + SET_CLOSE) ==
      match (ReadType(type_), ReadElements(elements))
      case (Some(v4), Some(read)) => DefineSet(name, v4, read)
      case _ => Unknown
  {
    var words := open + INTERVALS + elements + SET_CLOSE;
    assert words[0] == "set" && words[1] == name && words[4] == type_;
    assert words[2..4] == ["{", "type"];
    assert words[5..10] == ["flags", "interval;", "elements", "=", "{"];
    assert words[|words| - 2..] == ["}", "}"];
    assert words[10..|words| - 2] == elements;
  }

  lemma ReadSetV4(cidrs: seq<string>)
    requires cidrs != [] && AreElements(cidrs)
    ensures ReadLine(SetLine(SET_V4, cidrs)) == DefineSet("reverse_proxy_v4", true, cidrs)
    ensures '\n' !in SetLine(SET_V4, cidrs)
  {
    SetWords(SET_V4, cidrs);
    WordsOfElements(cidrs);
    ReadSetWords(SET_V4, Commas(cidrs), "reverse_proxy_v4", "ipv4_addr;");
  }

  lemma ReadSetV6(cidrs: seq<string>)
    requires cidrs != [] && AreElements(cidrs)
    ensures ReadLine(SetLine(SET_V6, cidrs)) == DefineSet("reverse_proxy_v6", false, cidrs)
    ensures '\n' !in SetLine(SET_V6, cidrs)
  {
    SetWords(SET_V6, cidrs);
    WordsOfElements(cidrs);
    ReadSetWords(SET_V6, Commas(cidrs), "reverse_proxy_v6", "ipv6_addr;");
  }

  lemma RuleWords(port: nat, action: seq<string>)
    requires AreWords(action)
    ensures Words(RuleLine(port, action)) == ["tcp", "dport", Itoa(port)] + action
    ensures '\n' !in RuleLine(port, action)
  {
    assert AllDigits(Itoa(port)) && IsWord("tcp") && IsWord("dport");
    WordsOfLine("    ", ["tcp", "dport", Itoa(port)] + action);
  }

  lemma ReadAccept(port: nat, family: string, name: string)
    requires IsWord(family) && IsWord(name) && ReadFamily(family).Some?
    ensures ReadLine(RuleLine(port, [family, "saddr", "@" + name, "accept"])) ==
      AddRule(NftRule(port, Some(SetRef(ReadFamily(family).value, name)), Admit))
    ensures '\n' !in RuleLine(port, [family, "saddr", "@" + name, "accept"])
  {
    var action := [family, "saddr", "@" + name, "accept"];
    RuleWords(port, action);
    ParseItoa(port);
    var words := ["tcp", "dport", Itoa(port)] + action;
    assert words[3..6] == [family, "saddr", "@" + name];
    assert ("@" + name)[1..] == name;
  }

  lemma ReadReject(port: nat)
    ensures ReadLine(RuleLine(port, REJECT)) == AddRule(NftRule(port, None, Refuse))
    ensures '\n' !in RuleLine(port, REJECT)
  {
    RuleWords(port, REJECT);
    ParseItoa(port);
  }

  lemma ReadAcceptV4(port: nat)
    ensures ReadLine(RuleLine(port, V4_ACCEPT)) == AddRule(NftRule(port, Some(SetRef(true, "reverse_proxy_v4")), Admit))
    ensures '\n' !in RuleLine(port, V4_ACCEPT)
  {
    ReadAccept(port, "ip", "reverse_proxy_v4");
  }

  lemma ReadAcceptV6(port: nat)
    ensures ReadLine(RuleLine(port, V6_ACCEPT)) ==
      AddRule(NftRule(port, Some(SetRef(false, "reverse_proxy_v6")), Admit))
    ensures '\n' !in RuleLine(port, V6_ACCEPT)
  {
    ReadAccept(port, "ip6", "reverse_proxy_v6");
  }

  const OURS: TableName := ("inet", "centralcloud_installer")

  lemma TableWords()
    ensures AreWords(TABLE) && TABLE == ["table", OURS.0, OURS.1]
  {
  }

  lemma ReadHeader()
    ensures ReadLines(HEADER) == [Declare(OURS), Flush(OURS), Open(OURS)]
    ensures OneLineEach(HEADER)
  {
    TableWords();
    ReadTableLines(TABLE, OURS);
  }

  lemma ReadTableLines(words: seq<string>, name: TableName)
    requires AreWords(words) && words == ["table", name.0, name.1]
    ensures ReadLine(Line("", words)) == Declare(name) && '\n' !in Line("", words)
    ensures ReadLine(Line("", ["flush"] + words)) == Flush(name) && '\n' !in Line("", ["flush"] + words)
    ensures ReadLine(Line("", words + ["{"])) == Open(name) && '\n' !in Line("", words + ["{"])
  {
    assert IsWord("flush") && IsWord("{");
    WordsOfLine("", words);
    WordsOfLine("", ["flush"] + words);
    WordsOfLine("", words + ["{"]);
  }

  lemma ReadChainLine()
    ensures ReadLine(CHAIN_OPEN) == OpenChain("input", "input", "-5;", Admit)
    ensures '\n' !in CHAIN_OPEN
  {
    ChainWords();
    ReadChainWords();
    WordsOfLine("  ", CHAIN);
  }

  lemma ReadChainWords()
    ensures ReadWords(CHAIN) == OpenChain("input", "input", "-5;", Admit)
  {
    assert CHAIN[2..6] == ["{", "type", "filter", "hook"];
  }

  lemma ChainWords()
    ensures AreWords(CHAIN)
  {
  }

  lemma ReadClose()
    ensures ReadLine("  }") == Close && ReadLine("}") == Close && ReadLine("") == Blank
  {
    OneWord("}");
    NoWords();
    IndentIsNoWord("  ", "}");
    assert "  " + "}" == "  }";
  }

  predicate OneLineEach(lines: seq<string>) {
    forall line | line in lines :: '\n' !in line
  }

  // ---- the script read back --------------------------------------------

  function ItemBlock(items: seq<Item>): seq<Item> {
    if items == [] then [Blank] else items
  }

  function SetItems(ipv4: seq<string>, ipv6: seq<string>): seq<Item> {
    (if ipv4 == [] then [] else [DefineSet("reverse_proxy_v4", true, ipv4)])
    + (if ipv6 == [] then [] else [DefineSet("reverse_proxy_v6", false, ipv6)])
  }

  function Accepts(ipv4: seq<string>, ipv6: seq<string>, port: nat): seq<NftRule> {
    (if ipv4 == [] then [] else [NftRule(port, Some(SetRef(true, "reverse_proxy_v4")), Admit)])
    + (if ipv6 == [] then [] else [NftRule(port, Some(SetRef(false, "reverse_proxy_v6")), Admit)])
  }

  function Rejects(port: nat): seq<NftRule> {
    [NftRule(port, None, Refuse), NftRule(5432, None, Refuse)]
  }

  function RuleItems(rules: seq<NftRule>): seq<Item> {
    seq(|rules|, i requires 0 <= i < |rules| => AddRule(rules[i]))
  }

  const OPENING: seq<Item> := [Declare(OURS), Flush(OURS), Open(OURS)]

  const INPUT_CHAIN := OpenChain("input", "input", "-5;", Admit)

  function Items(ipv4: seq<string>, ipv6: seq<string>, port: nat): seq<Item> {
    OPENING + ItemBlock(SetItems(ipv4, ipv6)) + [INPUT_CHAIN] + ItemBlock(RuleItems(Accepts(ipv4, ipv6, port)))
    + (RuleItems(Rejects(port)) + [Close, Close, Blank])
  }

  lemma ReadConcat(a: seq<string>, b: seq<string>)
    ensures ReadLines(a + b) == ReadLines(a) + ReadLines(b)
  {
  }

  lemma ReadSets(ipv4: seq<string>, ipv6: seq<string>)
    requires AreElements(ipv4) && AreElements(ipv6)
    ensures ReadLines(Block(SetLines(ipv4, ipv6))) == ItemBlock(SetItems(ipv4, ipv6))
    ensures OneLineEach(Block(SetLines(ipv4, ipv6)))
  {
    if ipv4 != [] {
      ReadSetV4(ipv4);
    }
    if ipv6 != [] {
      ReadSetV6(ipv6);
    }
    ReadClose();
  }

  lemma ReadRules(ipv4: seq<string>, ipv6: seq<string>, port: nat)
    ensures ReadLines(Block(RuleLines(ipv4, ipv6, port))) == ItemBlock(RuleItems(Accepts(ipv4, ipv6, port)))
    ensures OneLineEach(Block(RuleLines(ipv4, ipv6, port)))
  {
    ReadAcceptV4(port);
    ReadAcceptV6(port);
    ReadClose();
  }

  lemma ReadFooter(port: nat)
    ensures ReadLines(Footer(port)) == RuleItems(Rejects(port)) + [Close, Close, Blank]
    ensures OneLineEach(Footer(port))
  {
    ReadReject(port);
    ReadReject(5432);
    ReadClose();
  }

  lemma {:induction false} OfFamilyIsPart(parse: Parser, cidrs: seq<string>, v4: bool)
    ensures forall x | x in OfFamily(parse, cidrs, v4) :: x in cidrs && IsV4(parse, x) == v4
    ensures forall x | x in cidrs && IsV4(parse, x) == v4 :: x in OfFamily(parse, cidrs, v4)
  {
    if cidrs != [] {
      OfFamilyIsPart(parse, cidrs[..|cidrs| - 1], v4);
      assert cidrs == cidrs[..|cidrs| - 1] + [cidrs[|cidrs| - 1]];
    }
  }

  /** Splitting and reading a text joined from five groups of lines. */
  lemma ReadJoined(a: seq<string>, b: seq<string>, c: seq<string>, d: seq<string>, e: seq<string>)
    requires OneLineEach(a) && OneLineEach(b) && OneLineEach(c) && OneLineEach(d) && OneLineEach(e) && e != []
    ensures Read(Join(a + b + c + d + e, "\n")) ==
      ReadLines(a) + ReadLines(b) + ReadLines(c) + ReadLines(d) + ReadLines(e)
  {
    SplitJoin(a + b + c + d + e, "\n");
    ReadConcat(a, b);
    ReadConcat(a + b, c);
    ReadConcat(a + b + c, d);
    ReadConcat(a + b + c + d, e);
  }

  /** Reading the rendered text gives back the table, its sets with the blocks split by family in their
      order, the hook and policy of the chain, and its rules. */
  lemma ScriptReadsBack(parse: Parser, cidrs: seq<string>, port: nat)
    requires Tidy(parse) && forall x | x in cidrs :: parse(x).Some?
    ensures Read(Script(parse, cidrs, port)) == Items(OfFamily(parse, cidrs, true), OfFamily(parse, cidrs, false), port)
  {
    var ipv4, ipv6 := OfFamily(parse, cidrs, true), OfFamily(parse, cidrs, false);
    OfFamilyIsPart(parse, cidrs, true);
    OfFamilyIsPart(parse, cidrs, false);
    LinesRead(ipv4, ipv6, port);
  }

  lemma LinesRead(ipv4: seq<string>, ipv6: seq<string>, port: nat)
    requires AreElements(ipv4) && AreElements(ipv6)
    ensures Read(Join(Lines(ipv4, ipv6, port), "\n")) == Items(ipv4, ipv6, port)
  {
    ReadSets(ipv4, ipv6);
    ReadRules(ipv4, ipv6, port);
    ReadFooter(port);
    ReadHeader();
    ReadChainLine();
    assert ReadLines([CHAIN_OPEN]) == [INPUT_CHAIN];
    ReadJoined(HEADER, Block(SetLines(ipv4, ipv6)), [CHAIN_OPEN], Block(RuleLines(ipv4, ipv6, port)), Footer(port));
  }

  /** No block is lost, invented or repeated by the split. */
  lemma {:induction false} SplitKeepsBlocks(parse: Parser, cidrs: seq<string>)
    ensures multiset(OfFamily(parse, cidrs, true)) + multiset(OfFamily(parse, cidrs, false)) == multiset(cidrs)
  {
    if cidrs != [] {
      SplitKeepsBlocks(parse, cidrs[..|cidrs| - 1]);
      assert cidrs == cidrs[..|cidrs| - 1] + [cidrs[|cidrs| - 1]];
    }
  }

  // ---- loading a script ------------------------------------------------

  datatype NamedSet = NamedSet(v4: bool, elements: seq<string>)

  datatype Chain = Chain(hook: string, priority: string, policy: Verdict, rules: seq<NftRule>)

  datatype Table = Table(sets: map<string, NamedSet>, chains: map<string, Chain>)

  type Ruleset = map<TableName, Table>

  const EMPTY := Table(map[], map[])

  /** Where in a script the next item stands. */
  datatype Place = Top | InTable(table: TableName) | InChain(table: TableName, chain: string)

  datatype Loading = Loading(ruleset: Ruleset, place: Place)

  function TableAt(r: Ruleset, name: TableName): Table {
    if name in r then r[name] else EMPTY
  }

  /** Flushing a table removes the rules of its chains; chains and sets stay, with their elements. */
  function Flushed(t: Table): Table {
    t.(chains := map name | name in t.chains :: t.chains[name].(rules := []))
  }

  /** Defining a set that is there adds to its elements; its type must be the same. */
  function WithSet(t: Table, name: string, v4: bool, elements: seq<string>): Option<Table> {
    if name !in t.sets then Some(t.(sets := t.sets[name := NamedSet(v4, elements)]))
    else if t.sets[name].v4 == v4 then
      Some(t.(sets := t.sets[name := NamedSet(v4, t.sets[name].elements + elements)]))
    else None
  }

  /** Opening a chain that is there keeps its rules; hook and priority must be the same. */
  function WithChain(t: Table, name: string, hook: string, priority: string, policy: Verdict): Option<Table> {
    if name !in t.chains then Some(t.(chains := t.chains[name := Chain(hook, priority, policy, [])]))
    else if t.chains[name].hook == hook && t.chains[name].priority == priority then
      Some(t.(chains := t.chains[name := t.chains[name].(policy := policy)]))
    else None
  }

  /** A rule goes to the end of its chain; the set that it names must be there. */
  function WithRule(t: Table, chain: string, rule: NftRule): Option<Table> {
    if chain !in t.chains then None
    else if rule.source.Some? && !(rule.source.value.name in t.sets
                                   && t.sets[rule.source.value.name].v4 == rule.source.value.v4) then None
    else Some(t.(chains := t.chains[chain := t.chains[chain].(rules := t.chains[chain].rules + [rule])]))
  }

  function Put(r: Ruleset, name: TableName, t: Option<Table>, place: Place): Option<Loading> {
    if t.Some? then Some(Loading(r[name := t.value], place)) else None
  }

  /** One item, where it may stand. */
  function Step(s: Loading, item: Item): Option<Loading> {
    var r := s.ruleset;
    match (item, s.place)
    case (Blank, _) => Some(s)
    case (Declare(t), Top) => Put(r, t, Some(TableAt(r, t)), Top)
    case (Flush(t), Top) => if t in r then Put(r, t, Some(Flushed(r[t])), Top) else None
    case (Open(t), Top) => Put(r, t, Some(TableAt(r, t)), InTable(t))
    case (DefineSet(name, v4, elements), InTable(t)) => Put(r, t, WithSet(TableAt(r, t), name, v4, elements), s.place)
    case (OpenChain(name, hook, priority, policy), InTable(t)) =>
      Put(r, t, WithChain(TableAt(r, t), name, hook, priority, policy), InChain(t, name))
    case (AddRule(rule), InChain(t, chain)) => Put(r, t, WithRule(TableAt(r, t), chain, rule), s.place)
    case (Close, InChain(t, _)) => Some(Loading(r, InTable(t)))
    case (Close, InTable(_)) => Some(Loading(r, Top))
    case _ => None
  }

  function Run(items: seq<Item>, s: Loading): Option<Loading> {
    if items == [] then Some(s)
    else
      match Step(s, items[0])
      case Some(next) => Run(items[1..], next)
      case None => None
  }

  /** What `nft -f` makes of a ruleset: all of the script, or an error. */
  function Load(text: string, before: Ruleset): Option<Ruleset> {
    match Run(Read(text), Loading(before, Top))
    case Some(s) => if s.place.Top? then Some(s.ruleset) else None
    case None => None
  }

  lemma {:induction false} RunConcat(a: seq<Item>, b: seq<Item>, s: Loading)
    ensures Run(a + b, s) == match Run(a, s) case Some(next) => Run(b, next) case None => None
  {
    if a == [] {
      assert a + b == b;
    } else {
      assert (a + b)[1..] == a[1..] + b;
      if Step(s, a[0]).Some? {
        RunConcat(a[1..], b, Step(s, a[0]).value);
      }
    }
  }

  lemma RunOne(item: Item, s: Loading)
    ensures Run([item], s) == Step(s, item)
  {
    assert [item][1..] == [];
  }

  lemma RunBlock(items: seq<Item>, s: Loading)
    ensures Run(ItemBlock(items), s) == Run(items, s)
  {
    RunOne(Blank, s);
  }

  // ---- what loading the script does ------------------------------------

  /** A table as this installer makes it, with any elements and any rules. */
  predicate IsOurs(t: Table) {
    && (forall name | name in t.chains :: name == "input" && t.chains[name].hook == "input"
          && t.chains[name].priority == "-5;")
    && ("reverse_proxy_v4" in t.sets ==> t.sets["reverse_proxy_v4"].v4)
    && ("reverse_proxy_v6" in t.sets ==> !t.sets["reverse_proxy_v6"].v4)
  }

  /** The table is missing, or it is the installer's. */
  predicate IsReady(r: Ruleset) {
    OURS in r ==> IsOurs(r[OURS])
  }

  function Grown(sets: map<string, NamedSet>, name: string, v4: bool, elements: seq<string>): map<string, NamedSet> {
    if elements == [] then sets
    else sets[name := NamedSet(v4, (if name in sets then sets[name].elements else []) + elements)]
  }

  function GrownSets(t: Table, ipv4: seq<string>, ipv6: seq<string>): map<string, NamedSet> {
    Grown(Grown(t.sets, "reverse_proxy_v4", true, ipv4), "reverse_proxy_v6", false, ipv6)
  }

  function Loaded(t: Table, ipv4: seq<string>, ipv6: seq<string>, port: nat): Table {
    Table(
      GrownSets(t, ipv4, ipv6),
      map["input" := Chain("input", "-5;", Admit, Accepts(ipv4, ipv6, port) + Rejects(port))])
  }

  lemma RunOpening(before: Ruleset)
    ensures Run(OPENING, Loading(before, Top)) ==
      Some(Loading(before[OURS := Flushed(TableAt(before, OURS))], InTable(OURS)))
  {
    var declared := before[OURS := TableAt(before, OURS)];
    var flushed := before[OURS := Flushed(TableAt(before, OURS))];
    RunConcat([Declare(OURS)], [Flush(OURS), Open(OURS)], Loading(before, Top));
    RunConcat([Flush(OURS)], [Open(OURS)], Loading(declared, Top));
    RunOne(Declare(OURS), Loading(before, Top));
    RunOne(Flush(OURS), Loading(declared, Top));
    RunOne(Open(OURS), Loading(flushed, Top));
    assert OPENING == [Declare(OURS)] + [Flush(OURS), Open(OURS)];
    assert [Flush(OURS), Open(OURS)] == [Flush(OURS)] + [Open(OURS)];
    assert declared[OURS := Flushed(declared[OURS])] == flushed;
    assert flushed[OURS := flushed[OURS]] == flushed;
  }

  lemma RunSet(r: Ruleset, name: string, v4: bool, elements: seq<string>)
    requires OURS in r && (name in r[OURS].sets ==> r[OURS].sets[name].v4 == v4)
    ensures Run(if elements == [] then [] else [DefineSet(name, v4, elements)], Loading(r, InTable(OURS))) ==
      Some(Loading(r[OURS := r[OURS].(sets := Grown(r[OURS].sets, name, v4, elements))], InTable(OURS)))
  {
    if elements == [] {
      assert r[OURS := r[OURS]] == r;
    } else {
      RunOne(DefineSet(name, v4, elements), Loading(r, InTable(OURS)));
      assert [] + elements == elements;
    }
  }

  lemma RunSets(r: Ruleset, ipv4: seq<string>, ipv6: seq<string>)
    requires OURS in r && IsOurs(r[OURS])
    ensures Run(SetItems(ipv4, ipv6), Loading(r, InTable(OURS))) ==
      Some(Loading(r[OURS := r[OURS].(sets := GrownSets(r[OURS], ipv4, ipv6))], InTable(OURS)))
  {
    var middle := r[OURS := r[OURS].(sets := Grown(r[OURS].sets, "reverse_proxy_v4", true, ipv4))];
    RunConcat(
      if ipv4 == [] then [] else [DefineSet("reverse_proxy_v4", true, ipv4)],
      if ipv6 == [] then [] else [DefineSet("reverse_proxy_v6", false, ipv6)],
      Loading(r, InTable(OURS)));
    RunSet(r, "reverse_proxy_v4", true, ipv4);
    NamesDiffer();
    RunSet(middle, "reverse_proxy_v6", false, ipv6);
    PutTwice(r, middle[OURS], r[OURS].(sets := GrownSets(r[OURS], ipv4, ipv6)));
  }

  lemma PutTwice(r: Ruleset, first: Table, second: Table)
    ensures r[OURS := first][OURS := second] == r[OURS := second]
  {
  }

  lemma NamesDiffer()
    ensures "reverse_proxy_v4" != "reverse_proxy_v6"
  {
    assert "reverse_proxy_v4"[15] == '4' && "reverse_proxy_v6"[15] == '6';
  }

  predicate Refers(sets: map<string, NamedSet>, rule: NftRule) {
    rule.source.Some? ==> rule.source.value.name in sets && sets[rule.source.value.name].v4 == rule.source.value.v4
  }

  /** The table with the installer's chain and these rules in it. */
  function WithRules(sets: map<string, NamedSet>, rules: seq<NftRule>): Table {
    Table(sets, map["input" := Chain("input", "-5;", Admit, rules)])
  }

  lemma {:induction false} RunRules(r: Ruleset, sets: map<string, NamedSet>, done: seq<NftRule>, rules: seq<NftRule>)
    requires forall i | 0 <= i < |rules| :: Refers(sets, rules[i])
    ensures Run(RuleItems(rules), Loading(r[OURS := WithRules(sets, done)], InChain(OURS, "input"))) ==
      Some(Loading(r[OURS := WithRules(sets, done + rules)], InChain(OURS, "input")))
    decreases |rules|
  {
    var s := Loading(r[OURS := WithRules(sets, done)], InChain(OURS, "input"));
    if rules == [] {
      assert done + rules == done;
    } else {
      assert RuleItems(rules) == [AddRule(rules[0])] + RuleItems(rules[1..]);
      RunConcat([AddRule(rules[0])], RuleItems(rules[1..]), s);
      RunRule(r, sets, done, rules[0]);
      RunRules(r, sets, done + [rules[0]], rules[1..]);
      assert done + [rules[0]] + rules[1..] == done + rules;
    }
  }

  lemma RunRule(r: Ruleset, sets: map<string, NamedSet>, done: seq<NftRule>, rule: NftRule)
    requires Refers(sets, rule)
    ensures Run([AddRule(rule)], Loading(r[OURS := WithRules(sets, done)], InChain(OURS, "input"))) ==
      Some(Loading(r[OURS := WithRules(sets, done + [rule])], InChain(OURS, "input")))
  {
    var t := WithRules(sets, done);
    RunOne(AddRule(rule), Loading(r[OURS := t], InChain(OURS, "input")));
    assert t.chains["input" := t.chains["input"].(rules := done + [rule])] == WithRules(sets, done + [rule]).chains;
    PutTwice(r, t, WithRules(sets, done + [rule]));
  }

  lemma RunChain(r: Ruleset, t: Table)
    requires IsOurs(t)
    ensures Run([INPUT_CHAIN], Loading(r[OURS := Flushed(t)], InTable(OURS))) ==
      Some(Loading(r[OURS := WithRules(t.sets, [])], InChain(OURS, "input")))
  {
    RunOne(INPUT_CHAIN, Loading(r[OURS := Flushed(t)], InTable(OURS)));
    var chained := WithChain(Flushed(t), "input", "input", "-5;", Admit);
    assert chained.Some? && chained.value.chains == WithRules(t.sets, []).chains;
    PutTwice(r, Flushed(t), WithRules(t.sets, []));
  }

  lemma RunClosing(r: Ruleset)
    ensures Run([Close, Close, Blank], Loading(r, InChain(OURS, "input"))) == Some(Loading(r, Top))
  {
    RunConcat([Close], [Close, Blank], Loading(r, InChain(OURS, "input")));
    RunConcat([Close], [Blank], Loading(r, InTable(OURS)));
    RunOne(Close, Loading(r, InChain(OURS, "input")));
    RunOne(Close, Loading(r, InTable(OURS)));
    RunOne(Blank, Loading(r, Top));
    assert [Close] + [Close, Blank] == [Close, Close, Blank] && [Close] + [Blank] == [Close, Blank];
  }

  lemma AcceptsRefer(t: Table, ipv4: seq<string>, ipv6: seq<string>, port: nat)
    requires IsOurs(t)
    ensures forall i | 0 <= i < |Accepts(ipv4, ipv6, port)| ::
      Refers(GrownSets(t, ipv4, ipv6), Accepts(ipv4, ipv6, port)[i])
    ensures forall i | 0 <= i < 2 :: Refers(GrownSets(t, ipv4, ipv6), Rejects(port)[i])
  {
    NamesDiffer();
  }

  lemma RunItems(before: Ruleset, ipv4: seq<string>, ipv6: seq<string>, port: nat)
    requires IsReady(before)
    ensures Run(Items(ipv4, ipv6, port), Loading(before, Top)) ==
      Some(Loading(before[OURS := Loaded(TableAt(before, OURS), ipv4, ipv6, port)], Top))
  {
    var t := TableAt(before, OURS);
    var sets, accepts := GrownSets(t, ipv4, ipv6), Accepts(ipv4, ipv6, port);
    var flushed := before[OURS := Flushed(t)];
    RunOpening(before);
    RunSets(flushed, ipv4, ipv6);
    RunBlock(SetItems(ipv4, ipv6), Loading(flushed, InTable(OURS)));
    var grown := t.(sets := sets);
    PutTwice(before, Flushed(t), Flushed(grown));
    OursGrows(t, ipv4, ipv6);
    RunChain(before, grown);
    var inChain := Loading(before[OURS := WithRules(sets, [])], InChain(OURS, "input"));
    RunBlock(RuleItems(accepts), inChain);
    AcceptsRefer(t, ipv4, ipv6, port);
    RunRules(before, sets, [], accepts);
    assert [] + accepts == accepts;
    RunRules(before, sets, accepts, Rejects(port));
    RunClosing(before[OURS := WithRules(sets, accepts + Rejects(port))]);
    RunParts(
      OPENING, ItemBlock(SetItems(ipv4, ipv6)), [INPUT_CHAIN], ItemBlock(RuleItems(accepts)), RuleItems(Rejects(port)),
      [Close, Close, Blank], Loading(before, Top));
  }

  lemma OursGrows(t: Table, ipv4: seq<string>, ipv6: seq<string>)
    requires IsOurs(t)
    ensures IsOurs(t.(sets := GrownSets(t, ipv4, ipv6)))
    ensures Flushed(t).(sets := GrownSets(Flushed(t), ipv4, ipv6)) == Flushed(t.(sets := GrownSets(t, ipv4, ipv6)))
    ensures IsOurs(Flushed(t))
  {
    NamesDiffer();
  }

  function Then(s: Option<Loading>, items: seq<Item>): Option<Loading> {
    if s.Some? then Run(items, s.value) else None
  }

  lemma RunParts(
      a: seq<Item>, b: seq<Item>, c: seq<Item>, d: seq<Item>, e: seq<Item>, f: seq<Item>, s: Loading)
    ensures Run(a + b + c + d + (e + f), s) == Then(Then(Then(Then(Then(Run(a, s), b), c), d), e), f)
  {
    RunConcat(a, b, s);
    RunConcat(a + b, c, s);
    RunConcat(a + b + c, d, s);
    RunConcat(a + b + c + d, e, s);
    RunConcat(a + b + c + d + e, f, s);
    assert a + b + c + d + (e + f) == a + b + c + d + e + f;
  }

  /** Onto a ruleset without the table, or with an earlier version of it, the script loads. It replaces the
      chain and its rules, adds its blocks to the sets, and touches no other table. */
  lemma ScriptLoads(parse: Parser, cidrs: seq<string>, port: nat, before: Ruleset)
    requires Tidy(parse) && (forall x | x in cidrs :: parse(x).Some?) && IsReady(before)
    ensures Load(Script(parse, cidrs, port), before) ==
      Some(before[OURS :=
        Loaded(TableAt(before, OURS), OfFamily(parse, cidrs, true), OfFamily(parse, cidrs, false), port)])
  {
    ScriptReadsBack(parse, cidrs, port);
    RunItems(before, OfFamily(parse, cidrs, true), OfFamily(parse, cidrs, false), port);
  }

  // ---- what the ruleset means ------------------------------------------

  predicate RuleMatches(rule: NftRule, sets: map<string, NamedSet>, parse: Parser, port: nat, a: Address) {
    && rule.port == port
    && (rule.source.Some? ==> rule.source.value.v4 == a.V4? && Holds(sets, rule.source.value.name, parse, a))
  }

  predicate Holds(sets: map<string, NamedSet>, name: string, parse: Parser, a: Address) {
    name in sets && InSome(parse, sets[name].elements, a)
  }

  /** The first rule that matches decides, and without one the policy of the chain. */
  function ChainVerdict(
    rules: seq<NftRule>, policy: Verdict, sets: map<string, NamedSet>, parse: Parser, port: nat, a: Address): Verdict
  {
    if rules == [] then policy
    else if RuleMatches(rules[0], sets, parse, port, a) then rules[0].verdict
    else ChainVerdict(rules[1..], policy, sets, parse, port, a)
  }

  predicate Refuses(t: Table, name: string, parse: Parser, port: nat, a: Address)
    requires name in t.chains
  {
    t.chains[name].hook == "input"
    && ChainVerdict(t.chains[name].rules, t.chains[name].policy, t.sets, parse, port, a) == Refuse
  }

  /** Every chain of the table that sees incoming packets must admit the connection. */
  function TableVerdict(t: Table, parse: Parser, port: nat, a: Address): Verdict {
    if exists name | name in t.chains :: Refuses(t, name, parse, port, a) then Refuse else Admit
  }

  /** The decision of the installer's table after loading a text, if it loads. */
  function NftVerdict(text: string, before: Ruleset, parse: Parser, port: nat, a: Address): Option<Verdict> {
    match Load(text, before)
    case Some(r) => Some(TableVerdict(TableAt(r, OURS), parse, port, a))
    case None => None
  }

  /** The decision that the script stands for. */
  function NftPolicy(agentPort: nat, admitted: bool, port: nat): Verdict {
    if port == agentPort then (if admitted then Admit else Refuse)
    else if port == 5432 then Refuse
    else Admit
  }

  lemma {:induction false} ChainConcat(
      first: seq<NftRule>, rest: seq<NftRule>, policy: Verdict, sets: map<string, NamedSet>, parse: Parser, port: nat,
      a: Address)
    ensures ChainVerdict(first + rest, policy, sets, parse, port, a) ==
      ChainVerdict(first, ChainVerdict(rest, policy, sets, parse, port, a), sets, parse, port, a)
  {
    if first == [] {
      assert first + rest == rest;
    } else {
      assert (first + rest)[1..] == first[1..] + rest;
      ChainConcat(first[1..], rest, policy, sets, parse, port, a);
    }
  }

  lemma OneRule(
      rule: NftRule, policy: Verdict, sets: map<string, NamedSet>, parse: Parser, port: nat, a: Address)
    ensures ChainVerdict([rule], policy, sets, parse, port, a) ==
      if RuleMatches(rule, sets, parse, port, a) then rule.verdict else policy
  {
    assert [rule][1..] == [];
  }

  lemma RejectsMean(agentPort: nat, sets: map<string, NamedSet>, parse: Parser, port: nat, a: Address)
    ensures ChainVerdict(Rejects(agentPort), Admit, sets, parse, port, a) == NftPolicy(agentPort, false, port)
  {
    var first, second := NftRule(agentPort, None, Refuse), NftRule(5432, None, Refuse);
    assert Rejects(agentPort) == [first] + [second];
    ChainConcat([first], [second], Admit, sets, parse, port, a);
    OneRule(second, Admit, sets, parse, port, a);
    OneRule(first, ChainVerdict([second], Admit, sets, parse, port, a), sets, parse, port, a);
  }

  /** The set whose elements decide about a source, and whether the script refers to it. */
  function SetFor(a: Address): string {
    if a.V4? then "reverse_proxy_v4" else "reverse_proxy_v6"
  }

  lemma AcceptsMean(
      ipv4: seq<string>, ipv6: seq<string>, agentPort: nat, rest: Verdict, sets: map<string, NamedSet>, parse: Parser,
      port: nat, a: Address)
    ensures ChainVerdict(Accepts(ipv4, ipv6, agentPort), rest, sets, parse, port, a) ==
      if port == agentPort && (if a.V4? then ipv4 else ipv6) != [] && Holds(sets, SetFor(a), parse, a) then Admit
      else rest
  {
    var v4, v6 := NftRule(agentPort, Some(SetRef(true, "reverse_proxy_v4")), Admit),
      NftRule(agentPort, Some(SetRef(false, "reverse_proxy_v6")), Admit);
    var first, second := if ipv4 == [] then [] else [v4], if ipv6 == [] then [] else [v6];
    ChainConcat(first, second, rest, sets, parse, port, a);
    OneRule(v6, rest, sets, parse, port, a);
    OneRule(v4, ChainVerdict(second, rest, sets, parse, port, a), sets, parse, port, a);
  }

  /** The elements of the set for a source before the script is loaded. */
  function Older(t: Table, a: Address): seq<string> {
    if SetFor(a) in t.sets then t.sets[SetFor(a)].elements else []
  }

  lemma LoadedHolds(t: Table, ipv4: seq<string>, ipv6: seq<string>, parse: Parser, a: Address)
    requires (if a.V4? then ipv4 else ipv6) != []
    ensures Holds(GrownSets(t, ipv4, ipv6), SetFor(a), parse, a) <==>
      InSome(parse, Older(t, a), a) || InSome(parse, if a.V4? then ipv4 else ipv6, a)
  {
    NamesDiffer();
    InSomeSplit(parse, Older(t, a), if a.V4? then ipv4 else ipv6, a);
  }

  lemma LoadedMeans(
      t: Table, ipv4: seq<string>, ipv6: seq<string>, agentPort: nat, parse: Parser, port: nat, a: Address)
    ensures
      var own := if a.V4? then ipv4 else ipv6;
      var admitted := own != [] && (InSome(parse, Older(t, a), a) || InSome(parse, own, a));
      TableVerdict(Loaded(t, ipv4, ipv6, agentPort), parse, port, a) == NftPolicy(agentPort, admitted, port)
  {
    var sets, rejects := GrownSets(t, ipv4, ipv6), Rejects(agentPort);
    var loaded := Loaded(t, ipv4, ipv6, agentPort);
    ChainConcat(Accepts(ipv4, ipv6, agentPort), rejects, Admit, sets, parse, port, a);
    RejectsMean(agentPort, sets, parse, port, a);
    AcceptsMean(
      ipv4, ipv6, agentPort, ChainVerdict(rejects, Admit, sets, parse, port, a), sets, parse, port, a);
    if (if a.V4? then ipv4 else ipv6) != [] {
      LoadedHolds(t, ipv4, ipv6, parse, a);
    }
    assert "input" in loaded.chains;
    assert Refuses(loaded, "input", parse, port, a) <==>
      ChainVerdict(loaded.chains["input"].rules, Admit, sets, parse, port, a) == Refuse;
  }

  /** Some block covers the source exactly if some block of the source's own family does. */
  lemma FamilySplitKeepsCoverage(parse: Parser, cidrs: seq<string>, a: Address)
    ensures InSome(parse, cidrs, a) <==> InSome(parse, OfFamily(parse, cidrs, a.V4?), a)
  {
    var own := OfFamily(parse, cidrs, a.V4?);
    OfFamilyIsPart(parse, cidrs, a.V4?);
    if InSome(parse, cidrs, a) {
      var i :| 0 <= i < |cidrs| && InBlock(parse, cidrs[i], a);
      assert cidrs[i] in own;
      var j :| 0 <= j < |own| && own[j] == cidrs[i];
      assert InBlock(parse, own[j], a);
    }
    if InSome(parse, own, a) {
      var j :| 0 <= j < |own| && InBlock(parse, own[j], a);
      assert own[j] in cidrs;
    }
  }

  /** The decision after loading, for every port and every source: the blocks of the script admit to the
      agent's port, and so do the elements that the set of the source's family already had, if the script
      has any block of that family. */
  lemma ReloadMeaning(parse: Parser, cidrs: seq<string>, agentPort: nat, before: Ruleset, port: nat, a: Address)
    requires Tidy(parse) && (forall x | x in cidrs :: parse(x).Some?) && IsReady(before)
    ensures
      var stale := InSome(parse, Older(TableAt(before, OURS), a), a) && OfFamily(parse, cidrs, a.V4?) != [];
      NftVerdict(Script(parse, cidrs, agentPort), before, parse, port, a)
        == Some(NftPolicy(agentPort, InSome(parse, cidrs, a) || stale, port))
  {
    var ipv4, ipv6 := OfFamily(parse, cidrs, true), OfFamily(parse, cidrs, false);
    var t := TableAt(before, OURS);
    ScriptLoads(parse, cidrs, agentPort, before);
    FamilySplitKeepsCoverage(parse, cidrs, a);
    LoadedMeans(t, ipv4, ipv6, agentPort, parse, port, a);
    assert before[OURS := Loaded(t, ipv4, ipv6, agentPort)][OURS] == Loaded(t, ipv4, ipv6, agentPort);
  }

  /** First-match evaluation of the text that `NFT` renders, loaded where the table is not there yet. */
  lemma NftMeaning(parse: Parser, cidrs: seq<string>, agentPort: nat, before: Ruleset, port: nat, a: Address)
    requires Tidy(parse) && (forall x | x in cidrs :: parse(x).Some?) && OURS !in before
    ensures NftVerdict(Script(parse, cidrs, agentPort), before, parse, port, a)
         == Some(NftPolicy(agentPort, InSome(parse, cidrs, a), port))
  {
    ReloadMeaning(parse, cidrs, agentPort, before, port, a);
  }

  /** Loading a second plan over a first one means the second plan, for every port and source, exactly if
      the second lists every source of the first, or none of the sources' family. */
  lemma SecondPlanMeansItselfExactly(
      parse: Parser, first: seq<string>, second: seq<string>, firstPort: nat, agentPort: nat, before: Ruleset,
      sources: set<Address>)
    requires Tidy(parse) && OURS !in before && agentPort != 5432
    requires forall x | x in first || x in second :: parse(x).Some?
    ensures Load(Script(parse, first, firstPort), before).Some?
    ensures
      var between := Load(Script(parse, first, firstPort), before).value;
      (forall port: nat, a | a in sources :: SameVerdict(parse, second, agentPort, between, before, port, a))
      <==>
      forall a | a in sources :: StaysOrNew(parse, first, second, a)
  {
    ScriptLoads(parse, first, firstPort, before);
    var between := Load(Script(parse, first, firstPort), before).value;
    forall port: nat, a
      ensures SameVerdict(parse, second, agentPort, between, before, port, a) <==>
        (port == agentPort ==> StaysOrNew(parse, first, second, a))
    {
      SameVerdictExactly(parse, first, second, firstPort, agentPort, before, port, a);
    }
    if a :| a in sources && !StaysOrNew(parse, first, second, a) {
      assert !SameVerdict(parse, second, agentPort, between, before, agentPort, a);
    }
  }

  /** A source of the first plan is listed by the second as well, or the second lists none of its family. */
  predicate StaysOrNew(parse: Parser, first: seq<string>, second: seq<string>, a: Address) {
    InSome(parse, first, a) ==> InSome(parse, second, a) || OfFamily(parse, second, a.V4?) == []
  }

  lemma SameVerdictExactly(
      parse: Parser, first: seq<string>, second: seq<string>, firstPort: nat, agentPort: nat, before: Ruleset,
      port: nat, a: Address)
    requires Tidy(parse) && OURS !in before && agentPort != 5432
    requires forall x | x in first || x in second :: parse(x).Some?
    requires Load(Script(parse, first, firstPort), before).Some?
    ensures
      SameVerdict(
        parse, second, agentPort, Load(Script(parse, first, firstPort), before).value, before, port, a) <==>
      (port == agentPort ==> StaysOrNew(parse, first, second, a))
  {
    var between := Load(Script(parse, first, firstPort), before).value;
    ScriptLoads(parse, first, firstPort, before);
    OlderAfterFirst(parse, first, firstPort, a);
    BetweenIsReady(parse, first, firstPort, before);
    ReloadMeaning(parse, second, agentPort, between, port, a);
    NftMeaning(parse, second, agentPort, before, port, a);
  }

  /** A plan decides alike on either of two rulesets. */
  predicate SameVerdict(
      parse: Parser, cidrs: seq<string>, agentPort: nat, one: Ruleset, other: Ruleset, port: nat, a: Address)
  {
    NftVerdict(Script(parse, cidrs, agentPort), one, parse, port, a)
      == NftVerdict(Script(parse, cidrs, agentPort), other, parse, port, a)
  }

  lemma BetweenIsReady(parse: Parser, first: seq<string>, port: nat, before: Ruleset)
    requires OURS !in before
    ensures IsReady(
      before[OURS := Loaded(EMPTY, OfFamily(parse, first, true), OfFamily(parse, first, false), port)])
  {
    NamesDiffer();
  }

  lemma OlderAfterFirst(parse: Parser, first: seq<string>, port: nat, a: Address)
    ensures InSome(parse, Older(Loaded(EMPTY, OfFamily(parse, first, true), OfFamily(parse, first, false), port), a), a)
       <==> InSome(parse, first, a)
  {
    NamesDiffer();
    FamilySplitKeepsCoverage(parse, first, a);
    var own := OfFamily(parse, first, a.V4?);
    assert [] + own == own;
  }

  // ---- the two backends compared ---------------------------------------

  /** What either plan meets on a host. */
  datatype Host = Host(ufw: Ufw, ruleset: Ruleset)

  predicate IsManaged(port: nat, sshPort: nat, agentPort: nat) {
    port == sshPort || port == 80 || port == 443 || port == agentPort || port == 5432
  }

  /** The two plans decide one managed port alike. */
  predicate AgreeOn(
      sshPort: nat, agentPort: nat, cidrs: seq<string>, parse: Parser, host: Host, port: nat, a: Address)
  {
    NftVerdict(Script(parse, cidrs, agentPort), host.ruleset, parse, port, a)
      == Some(UfwVerdict(UfwCommands(sshPort, agentPort, cidrs), parse, host.ufw, port, a))
  }

  /** The ports that `Build` does not check against each other. */
  predicate PortsAreClear(sshPort: nat, agentPort: nat) {
    agentPort != sshPort && agentPort != 80 && agentPort != 443 && sshPort != 5432
  }

  predicate CoversEverySource(parse: Parser, cidrs: seq<string>, sources: set<Address>) {
    forall a | a in sources :: InSome(parse, cidrs, a)
  }

  /** For clear ports both plans admit SSH, HTTP and HTTPS, admit the agent port exactly from the
      listed blocks, and refuse PostgreSQL. */
  lemma PlansMeanThePolicy(
      sshPort: nat, agentPort: nat, cidrs: seq<string>, parse: Parser, host: Host, port: nat, a: Address)
    requires Tidy(parse) && (forall x | x in cidrs :: parse(x).Some?) && OURS !in host.ruleset
    requires PortsAreClear(sshPort, agentPort) && agentPort != 5432 && IsManaged(port, sshPort, agentPort)
    ensures
      var verdict :=
        if port == agentPort then (if InSome(parse, cidrs, a) then Admit else Refuse)
        else if port == 5432 then Refuse else Admit;
      && UfwVerdict(UfwCommands(sshPort, agentPort, cidrs), parse, host.ufw, port, a) == verdict
      && NftVerdict(Script(parse, cidrs, agentPort), host.ruleset, parse, port, a) == Some(verdict)
  {
    UfwMeaning(sshPort, agentPort, cidrs, parse, host.ufw, port, a);
    NftMeaning(parse, cidrs, agentPort, host.ruleset, port, a);
  }

  lemma AgreementOfPolicies(
      sshPort: nat, agentPort: nat, cidrs: seq<string>, parse: Parser, host: Host, port: nat, a: Address)
    requires Tidy(parse) && (forall x | x in cidrs :: parse(x).Some?) && OURS !in host.ruleset
    ensures AgreeOn(sshPort, agentPort, cidrs, parse, host, port, a) <==>
      UfwPolicy(sshPort, agentPort, InSome(parse, cidrs, a), host.ufw.policy, port) ==
        NftPolicy(agentPort, InSome(parse, cidrs, a), port)
  {
    UfwMeaning(sshPort, agentPort, cidrs, parse, host.ufw, port, a);
    NftMeaning(parse, cidrs, agentPort, host.ruleset, port, a);
  }

  /** The backends agree on the managed ports for one source. */
  predicate AgreeFor(sshPort: nat, agentPort: nat, cidrs: seq<string>, parse: Parser, host: Host, a: Address) {
    && AgreeOn(sshPort, agentPort, cidrs, parse, host, sshPort, a)
    && AgreeOn(sshPort, agentPort, cidrs, parse, host, 80, a)
    && AgreeOn(sshPort, agentPort, cidrs, parse, host, 443, a)
    && AgreeOn(sshPort, agentPort, cidrs, parse, host, agentPort, a)
    && AgreeOn(sshPort, agentPort, cidrs, parse, host, 5432, a)
  }

  lemma OneSourceAgrees(sshPort: nat, agentPort: nat, cidrs: seq<string>, parse: Parser, host: Host, a: Address)
    requires Tidy(parse) && (forall x | x in cidrs :: parse(x).Some?) && OURS !in host.ruleset
    ensures AgreeFor(sshPort, agentPort, cidrs, parse, host, a) <==>
      PortsAreClear(sshPort, agentPort) || (InSome(parse, cidrs, a) && (sshPort != 5432 || agentPort == 5432))
  {
    AgreementOfPolicies(sshPort, agentPort, cidrs, parse, host, sshPort, a);
    AgreementOfPolicies(sshPort, agentPort, cidrs, parse, host, 80, a);
    AgreementOfPolicies(sshPort, agentPort, cidrs, parse, host, 443, a);
    AgreementOfPolicies(sshPort, agentPort, cidrs, parse, host, agentPort, a);
    AgreementOfPolicies(sshPort, agentPort, cidrs, parse, host, 5432, a);
  }

  /** Exactly when the backends agree on the managed ports, for a set of sources. The ports must be
      clear; or the blocks admit every source anyway, and SSH is not on PostgreSQL's port
      (unless the agent is there too). */
  lemma BackendsAgreeExactly(
      sshPort: nat, agentPort: nat, cidrs: seq<string>, parse: Parser, host: Host, sources: set<Address>)
    requires Tidy(parse) && (forall x | x in cidrs :: parse(x).Some?) && OURS !in host.ruleset && sources != {}
    ensures
      (forall port: nat, a | IsManaged(port, sshPort, agentPort) && a in sources ::
         AgreeOn(sshPort, agentPort, cidrs, parse, host, port, a))
      <==>
      PortsAreClear(sshPort, agentPort)
      || (CoversEverySource(parse, cidrs, sources) && (sshPort != 5432 || agentPort == 5432))
  {
    if PortsAreClear(sshPort, agentPort)
       || (CoversEverySource(parse, cidrs, sources) && (sshPort != 5432 || agentPort == 5432)) {
      forall port: nat, a | IsManaged(port, sshPort, agentPort) && a in sources
        ensures AgreeOn(sshPort, agentPort, cidrs, parse, host, port, a)
      {
        OneSourceAgrees(sshPort, agentPort, cidrs, parse, host, a);
      }
    } else {
      var a :| a in sources && (CoversEverySource(parse, cidrs, sources) || !InSome(parse, cidrs, a));
      var port := DisagreeFor(sshPort, agentPort, cidrs, parse, host, a);
    }
  }

  lemma DisagreeFor(sshPort: nat, agentPort: nat, cidrs: seq<string>, parse: Parser, host: Host, a: Address)
    returns (port: nat)
    requires Tidy(parse) && (forall x | x in cidrs :: parse(x).Some?) && OURS !in host.ruleset
    requires !PortsAreClear(sshPort, agentPort)
    requires !InSome(parse, cidrs, a) || (sshPort == 5432 && agentPort != 5432)
    ensures IsManaged(port, sshPort, agentPort)
    ensures !AgreeOn(sshPort, agentPort, cidrs, parse, host, port, a)
  {
    OneSourceAgrees(sshPort, agentPort, cidrs, parse, host, a);
    port :| (port == sshPort || port == 80 || port == 443 || port == agentPort || port == 5432)
      && !AgreeOn(sshPort, agentPort, cidrs, parse, host, port, a);
  }

  const AGENT_PORT := 9443

  /** For the agent port that the installer passes: the backends agree unless SSH is on that port and
      some source is not listed, or SSH is on PostgreSQL's port. */
  lemma InstallerPlansAgreeExactly(
      sshPort: nat, cidrs: seq<string>, parse: Parser, host: Host, sources: set<Address>)
    requires Tidy(parse) && (forall x | x in cidrs :: parse(x).Some?) && OURS !in host.ruleset && sources != {}
    ensures
      (forall port: nat, a | IsManaged(port, sshPort, AGENT_PORT) && a in sources ::
         AgreeOn(sshPort, AGENT_PORT, cidrs, parse, host, port, a))
      <==>
      sshPort != 5432 && (sshPort != AGENT_PORT || CoversEverySource(parse, cidrs, sources))
  {
    BackendsAgreeExactly(sshPort, AGENT_PORT, cidrs, parse, host, sources);
  }

  /** With SSH on the agent's port, UFW admits a source that is not listed and nftables refuses it. */
  lemma SshOnAgentPortDisagrees(cidrs: seq<string>, parse: Parser, host: Host, a: Address)
    requires Tidy(parse) && (forall x | x in cidrs :: parse(x).Some?) && OURS !in host.ruleset
    requires !InSome(parse, cidrs, a)
    ensures UfwVerdict(UfwCommands(AGENT_PORT, AGENT_PORT, cidrs), parse, host.ufw, AGENT_PORT, a) == Admit
    ensures NftVerdict(Script(parse, cidrs, AGENT_PORT), host.ruleset, parse, AGENT_PORT, a) == Some(Refuse)
  {
    UfwMeaning(AGENT_PORT, AGENT_PORT, cidrs, parse, host.ufw, AGENT_PORT, a);
    NftMeaning(parse, cidrs, AGENT_PORT, host.ruleset, AGENT_PORT, a);
  }
}
