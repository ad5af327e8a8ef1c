/** internal/firewall: one policy compiled to UFW commands and to an nftables script, and what each
    of the two means. `netip.ParsePrefix` is a parameter. */
module Firewall {
  import opened Wrappers
  import opened Text

  // ---- addresses -------------------------------------------------------

  datatype Address = V4(bits: nat) | V6(bits: nat)

  datatype Prefix = Prefix(address: Address, length: nat)

  function Width(a: Address): nat {
    if a.V4? then 32 else 128
  }

  function Pow2(n: nat): (r: nat)
    ensures r > 0
  {
    if n == 0 then 1 else 2 * Pow2(n - 1)
  }

  /** The block of addresses of RFC 4632, section 3.1: those that agree in the first `length` bits. */
  predicate Covers(p: Prefix, a: Address) {
    && p.address.V4? == a.V4?
    && p.length <= Width(a)
    && p.address.bits / Pow2(Width(a) - p.length) == a.bits / Pow2(Width(a) - p.length)
  }

  type Parser = string -> Option<Prefix>

  /** What the parser takes is written with hexadecimal digits, dots, colons and a slash. */
  ghost predicate Tidy(parse: Parser) {
    forall s: string | parse(s).Some? :: s != "" && ',' !in s && ' ' !in s && '\n' !in s
  }

  predicate IsV4(parse: Parser, raw: string) {
    parse(raw).Some? && parse(raw).value.address.V4?
  }

  predicate InBlock(parse: Parser, raw: string, a: Address) {
    parse(raw).Some? && Covers(parse(raw).value, a)
  }

  predicate InSome(parse: Parser, cidrs: seq<string>, a: Address) {
    exists i | 0 <= i < |cidrs| :: InBlock(parse, cidrs[i], a)
  }

  // ---- the plan --------------------------------------------------------

  datatype Plan = Plan(
    backend: string, sshPort: nat, agentPort: nat, sourceCIDRs: seq<string>, commands: seq<seq<string>>)

  datatype BuildError = NoSSHPort | NothingToAdmit | InvalidCIDR(raw: string) | UnsupportedBackend

  datatype BuildResult = Built(plan: Plan) | Rejected(error: BuildError)

  function AllowPort(port: nat, comment: string): seq<string> {
    ["ufw", "allow", Itoa(port) + "/tcp", "comment", comment]
  }

  function DenyPort(port: nat, comment: string): seq<string> {
    ["ufw", "deny", Itoa(port) + "/tcp", "comment", comment]
  }

  function AllowFrom(cidr: string, port: nat): seq<string> {
    ["ufw", "allow", "from", cidr, "to", "any", "port", Itoa(port), "proto", "tcp", "comment", "CentralCloud Agent"]
  }

  function OpenPorts(sshPort: nat): seq<seq<string>> {
    [AllowPort(sshPort, "CentralCloud SSH"), AllowPort(80, "CentralCloud HTTP"), AllowPort(443, "CentralCloud HTTPS")]
  }

  function AgentRules(cidrs: seq<string>, agentPort: nat): (r: seq<seq<string>>)
    ensures |r| == |cidrs|
  {
    seq(|cidrs|, i requires 0 <= i < |cidrs| => AllowFrom(cidrs[i], agentPort))
  }

  function ClosedPorts(agentPort: nat): seq<seq<string>> {
    [DenyPort(agentPort, "CentralCloud Agent default deny"), DenyPort(5432, "CentralCloud PostgreSQL"),
     ["ufw", "--force", "enable"]]
  }

  function UfwCommands(sshPort: nat, agentPort: nat, cidrs: seq<string>): seq<seq<string>> {
    OpenPorts(sshPort) + AgentRules(cidrs, agentPort) + ClosedPorts(agentPort)
  }

  const NFT_FILE := "/etc/nftables.d/centralcloud-installer.nft"

  predicate FirstInvalid(parse: Parser, cidrs: seq<string>, raw: string) {
    exists i | 0 <= i < |cidrs| :: cidrs[i] == raw && parse(raw).None? && forall j | 0 <= j < i :: parse(cidrs[j]).Some?
  }

  method Build(backend: string, sshPort: nat, agentPort: nat, cidrs: seq<string>, parse: Parser)
    returns (r: BuildResult)
    ensures r.Built? <==>
      && sshPort != 0 && agentPort != 0 && cidrs != [] && (backend == "ufw" || backend == "nftables")
      && forall i | 0 <= i < |cidrs| :: parse(cidrs[i]).Some?
    ensures r.Built? ==>
      r.plan == Plan(backend, sshPort, agentPort, cidrs,
        if backend == "ufw" then UfwCommands(sshPort, agentPort, cidrs) else [["nft", "-f", NFT_FILE]])
    ensures r.Rejected? ==> (r.error.NoSSHPort? <==> sshPort == 0)
    ensures r.Rejected? ==> (r.error.NothingToAdmit? <==> sshPort != 0 && (agentPort == 0 || cidrs == []))
    ensures r.Rejected? && r.error.UnsupportedBackend? ==> forall i | 0 <= i < |cidrs| :: parse(cidrs[i]).Some?
    ensures r.Rejected? && r.error.InvalidCIDR? ==> FirstInvalid(parse, cidrs, r.error.raw)
  {
    if sshPort == 0 {
      return Rejected(NoSSHPort);
    }
    if agentPort == 0 || |cidrs| == 0 {
      return Rejected(NothingToAdmit);
    }
    for i := 0 to |cidrs|
      invariant forall j | 0 <= j < i :: parse(cidrs[j]).Some?
    {
      if parse(cidrs[i]).None? {
        return Rejected(InvalidCIDR(cidrs[i]));
      }
    }
    if backend == "ufw" {
      var commands := OpenPorts(sshPort);
      for i := 0 to |cidrs|
        invariant commands == OpenPorts(sshPort) + AgentRules(cidrs[..i], agentPort)
      {
        commands := commands + [AllowFrom(cidrs[i], agentPort)];
        assert AgentRules(cidrs[..i + 1], agentPort) ==
          AgentRules(cidrs[..i], agentPort) + [AllowFrom(cidrs[i], agentPort)];
      }
      assert cidrs[..|cidrs|] == cidrs;
      return Built(Plan(backend, sshPort, agentPort, cidrs, commands + ClosedPorts(agentPort)));
    }
    if backend == "nftables" {
      return Built(Plan(backend, sshPort, agentPort, cidrs, [["nft", "-f", NFT_FILE]]));
    }
    return Rejected(UnsupportedBackend);
  }

  // ---- what UFW commands mean ------------------------------------------

  datatype Verdict = Admit | Refuse

  /** An added rule: an action for a TCP port, from anywhere or from one block. */
  datatype UfwRule = UfwRule(verdict: Verdict, port: nat, source: Option<string>)

  function ReadAction(word: string): Option<Verdict> {
    if word == "allow" then Some(Admit) else if word == "deny" then Some(Refuse) else None
  }

  /** The rule that one `ufw` command line adds, if it adds one. */
  function ReadUfw(command: seq<string>): Option<UfwRule> {
    if |command| == 5 && command[0] == "ufw" && ReadAction(command[1]).Some? && command[3] == "comment"
       && HasSuffix(command[2], "/tcp") && ParseDigits(command[2][..|command[2]| - 4]).Some? then
      Some(UfwRule(ReadAction(command[1]).value, ParseDigits(command[2][..|command[2]| - 4]).value, None))
    else if |command| == 12 && command[0] == "ufw" && ReadAction(command[1]).Some? && command[2] == "from"
            && command[4..7] == ["to", "any", "port"] && command[8..11] == ["proto", "tcp", "comment"]
            && ParseDigits(command[7]).Some? then
      Some(UfwRule(ReadAction(command[1]).value, ParseDigits(command[7]).value, Some(command[3])))
    else None
  }

  predicate UfwMatches(rule: UfwRule, parse: Parser, port: nat, a: Address) {
    rule.port == port && (rule.source.None? || InBlock(parse, rule.source.value, a))
  }

  /** First match over the rules that the commands add; the default policy decides the rest. */
  function FirstMatch(commands: seq<seq<string>>, parse: Parser, policy: Verdict, port: nat, a: Address): Verdict {
    if commands == [] then policy
    else
      match ReadUfw(commands[0])
      case Some(rule) =>
        if UfwMatches(rule, parse, port, a) then rule.verdict else FirstMatch(commands[1..], parse, policy, port, a)
      case None => FirstMatch(commands[1..], parse, policy, port, a)
  }

  /** What a command line says about the firewall as a whole: on, off, or nothing. */
  function ReadSwitch(command: seq<string>): Option<bool> {
    if command == ["ufw", "enable"] || command == ["ufw", "--force", "enable"] then Some(true)
    else if command == ["ufw", "disable"] || command == ["ufw", "--force", "disable"] then Some(false)
    else None
  }

  /** Whether the firewall is active after the commands. */
  function Active(commands: seq<seq<string>>, before: bool): bool {
    if commands == [] then before
    else Active(commands[1..], if ReadSwitch(commands[0]).Some? then ReadSwitch(commands[0]).value else before)
  }

  /** The state of the firewall that the commands meet. */
  datatype Ufw = Ufw(active: bool, policy: Verdict)

  /** An inactive firewall admits everything. */
  function UfwVerdict(commands: seq<seq<string>>, parse: Parser, ufw: Ufw, port: nat, a: Address): Verdict {
    if Active(commands, ufw.active) then FirstMatch(commands, parse, ufw.policy, port, a) else Admit
  }

  lemma {:induction false} ActiveSnoc(commands: seq<seq<string>>, last: seq<string>, before: bool)
    ensures Active(commands + [last], before) ==
      if ReadSwitch(last).Some? then ReadSwitch(last).value else Active(commands, before)
  {
    if commands == [] {
      assert commands + [last] == [last] && [last][1..] == [];
    } else {
      assert (commands + [last])[1..] == commands[1..] + [last];
      ActiveSnoc(
        commands[1..], last, if ReadSwitch(commands[0]).Some? then ReadSwitch(commands[0]).value else before);
    }
  }

  /** The plan turns the firewall on. */
  lemma PlanActivates(sshPort: nat, agentPort: nat, cidrs: seq<string>, before: bool)
    ensures Active(UfwCommands(sshPort, agentPort, cidrs), before)
  {
    var closed := ClosedPorts(agentPort);
    var earlier := OpenPorts(sshPort) + AgentRules(cidrs, agentPort) + closed[..2];
    assert closed == closed[..2] + [closed[2]];
    assert UfwCommands(sshPort, agentPort, cidrs) == earlier + [closed[2]];
    ActiveSnoc(earlier, closed[2], before);
  }

  lemma ReadPortRule(port: nat, comment: string)
    ensures ReadUfw(AllowPort(port, comment)) == Some(UfwRule(Admit, port, None))
    ensures ReadUfw(DenyPort(port, comment)) == Some(UfwRule(Refuse, port, None))
  {
    var word := Itoa(port) + "/tcp";
    assert word[|word| - 4..] == "/tcp" && word[..|word| - 4] == Itoa(port);
    ParseItoa(port);
  }

  lemma ReadAgentRule(cidr: string, port: nat)
    ensures ReadUfw(AllowFrom(cidr, port)) == Some(UfwRule(Admit, port, Some(cidr)))
  {
    ParseItoa(port);
  }

  /** The rules of a plan: three open ports, the blocks, two closed ports, and a command that is no rule. */
  function PlannedRule(sshPort: nat, agentPort: nat, cidrs: seq<string>, i: nat): Option<UfwRule>
    requires i < |cidrs| + 6
  {
    if i < 3 then Some(UfwRule(Admit, [sshPort, 80, 443][i], None))
    else if i < |cidrs| + 3 then Some(UfwRule(Admit, agentPort, Some(cidrs[i - 3])))
    else if i < |cidrs| + 5 then Some(UfwRule(Refuse, [agentPort, 5432][i - |cidrs| - 3], None))
    else None
  }

  /** Reading the plan's command lines gives back the ports and exactly the blocks, in order. */
  lemma UfwPlanReadsBack(sshPort: nat, agentPort: nat, cidrs: seq<string>, i: nat)
    requires i < |cidrs| + 6
    ensures |UfwCommands(sshPort, agentPort, cidrs)| == |cidrs| + 6
    ensures ReadUfw(UfwCommands(sshPort, agentPort, cidrs)[i]) == PlannedRule(sshPort, agentPort, cidrs, i)
  {
    var command := UfwCommands(sshPort, agentPort, cidrs)[i];
    if i < 3 {
      assert command == OpenPorts(sshPort)[i];
      ReadPortRule(sshPort, "CentralCloud SSH");
      ReadPortRule(80, "CentralCloud HTTP");
      ReadPortRule(443, "CentralCloud HTTPS");
    } else if i < |cidrs| + 3 {
      assert command == AllowFrom(cidrs[i - 3], agentPort);
      ReadAgentRule(cidrs[i - 3], agentPort);
    } else {
      assert command == ClosedPorts(agentPort)[i - |cidrs| - 3];
      ReadPortRule(agentPort, "CentralCloud Agent default deny");
      ReadPortRule(5432, "CentralCloud PostgreSQL");
    }
  }

  /** The decision that the UFW plan stands for. */
  function UfwPolicy(sshPort: nat, agentPort: nat, admitted: bool, policy: Verdict, port: nat): Verdict {
    if port == sshPort || port == 80 || port == 443 then Admit
    else if port == agentPort then (if admitted then Admit else Refuse)
    else if port == 5432 then Refuse
    else policy
  }

  lemma UfwTail(agentPort: nat, parse: Parser, policy: Verdict, port: nat, a: Address)
    ensures FirstMatch(ClosedPorts(agentPort), parse, policy, port, a)
         == if port == agentPort || port == 5432 then Refuse else policy
  {
    ReadPortRule(agentPort, "CentralCloud Agent default deny");
    ReadPortRule(5432, "CentralCloud PostgreSQL");
    var commands := ClosedPorts(agentPort);
    UfwUncons(commands[0], commands[1..], parse, policy, port, a);
    UfwUncons(commands[1], commands[2..], parse, policy, port, a);
    UfwUncons(commands[2], [], parse, policy, port, a);
    assert commands == [commands[0]] + commands[1..];
    assert commands[1..] == [commands[1]] + commands[2..];
    assert commands[2..] == [commands[2]] + [];
  }

  lemma UfwUncons(first: seq<string>, rest: seq<seq<string>>, parse: Parser, policy: Verdict, port: nat, a: Address)
    ensures FirstMatch([first] + rest, parse, policy, port, a) ==
      if ReadUfw(first).Some? && UfwMatches(ReadUfw(first).value, parse, port, a) then ReadUfw(first).value.verdict
      else FirstMatch(rest, parse, policy, port, a)
  {
    assert ([first] + rest)[1..] == rest;
  }

  lemma {:induction false} UfwAgentRules(
      cidrs: seq<string>, agentPort: nat, rest: seq<seq<string>>, parse: Parser, policy: Verdict, port: nat, a: Address)
    ensures FirstMatch(AgentRules(cidrs, agentPort) + rest, parse, policy, port, a) ==
      if port == agentPort && InSome(parse, cidrs, a) then Admit else FirstMatch(rest, parse, policy, port, a)
  {
    if cidrs == [] {
      assert AgentRules(cidrs, agentPort) + rest == rest;
    } else {
      var later := AgentRules(cidrs[1..], agentPort) + rest;
      assert AgentRules(cidrs, agentPort) + rest == [AllowFrom(cidrs[0], agentPort)] + later;
      ReadAgentRule(cidrs[0], agentPort);
      UfwUncons(AllowFrom(cidrs[0], agentPort), later, parse, policy, port, a);
      UfwAgentRules(cidrs[1..], agentPort, rest, parse, policy, port, a);
      InSomeSplit(parse, [cidrs[0]], cidrs[1..], a);
      assert [cidrs[0]] + cidrs[1..] == cidrs;
    }
  }

  lemma InSomeSplit(parse: Parser, xs: seq<string>, ys: seq<string>, a: Address)
    ensures InSome(parse, xs + ys, a) <==> InSome(parse, xs, a) || InSome(parse, ys, a)
    ensures |xs| == 1 ==> (InSome(parse, xs, a) <==> InBlock(parse, xs[0], a))
  {
    assert forall i | 0 <= i < |xs| :: (xs + ys)[i] == xs[i];
    assert forall i | 0 <= i < |ys| :: (xs + ys)[|xs| + i] == ys[i];
  }

  /** First-match evaluation of the whole UFW plan, for every port and every source, whether the firewall
      was active or not. */
  lemma UfwMeaning(
      sshPort: nat, agentPort: nat, cidrs: seq<string>, parse: Parser, ufw: Ufw, port: nat, a: Address)
    ensures UfwVerdict(UfwCommands(sshPort, agentPort, cidrs), parse, ufw, port, a)
         == UfwPolicy(sshPort, agentPort, InSome(parse, cidrs, a), ufw.policy, port)
  {
    var policy := ufw.policy;
    PlanActivates(sshPort, agentPort, cidrs, ufw.active);
    var open, later := OpenPorts(sshPort), AgentRules(cidrs, agentPort) + ClosedPorts(agentPort);
    ReadPortRule(sshPort, "CentralCloud SSH");
    ReadPortRule(80, "CentralCloud HTTP");
    ReadPortRule(443, "CentralCloud HTTPS");
    assert UfwCommands(sshPort, agentPort, cidrs) == [open[0]] + ([open[1]] + ([open[2]] + later));
    UfwUncons(open[0], [open[1]] + ([open[2]] + later), parse, policy, port, a);
    UfwUncons(open[1], [open[2]] + later, parse, policy, port, a);
    UfwUncons(open[2], later, parse, policy, port, a);
    UfwAgentRules(cidrs, agentPort, ClosedPorts(agentPort), parse, policy, port, a);
    UfwTail(agentPort, parse, policy, port, a);
  }
}
