/** internal/traefik: the text of the proxy's route to the agent, and that text read back by its
    indentation. */
module TraefikRoute {
  import opened Wrappers
  import opened Text

  // ---- rendering -------------------------------------------------------

  const TICK := '`'

  const URL := "\"http://host.docker.internal:9443\""

  function Rule(host: string): string {
    "\"Host(" + [TICK] + host + [TICK] + ")\""
  }

  /** A line: its column, and its words. */
  datatype Row = Row(column: nat, words: seq<string>)

  const TOP_ROWS: seq<Row> := [Row(0, ["http:"]), Row(2, ["routers:"]), Row(4, ["centralcloud-agent:"])]

  function RouterRows(host: string): seq<Row> {
    [Row(6, ["rule:", Rule(host)]),
     Row(6, ["entryPoints:", "[websecure]"]),
     Row(6, ["service:", "centralcloud-agent"]),
     Row(6, ["tls:"]),
     Row(8, ["certResolver:", "letsencrypt"])]
  }

  const SERVICE_ROWS: seq<Row> := [
    Row(2, ["services:"]),
    Row(4, ["centralcloud-agent:"]),
    Row(6, ["loadBalancer:"]),
    Row(8, ["servers:"]),
    Row(10, ["-", "url:", URL])]

  function Blanks(n: nat): string {
    if n == 0 then "" else " " + Blanks(n - 1)
  }

  function Lines(rows: seq<Row>): seq<string> {
    seq(|rows|, i requires 0 <= i < |rows| => Line(Blanks(rows[i].column), rows[i].words))
  }

  /** The dynamic configuration, for a host name in lower case. */
  function Route(host: string): string {
    Join(Lines(TOP_ROWS + RouterRows(host) + SERVICE_ROWS) + [""], "\n")
  }

  // ---- reading ---------------------------------------------------------

  /** A key at its column with the value behind it, if it has one. */
  datatype Entry = Entry(column: nat, key: string, value: string) | Blank | Unreadable

  function Indent(line: string): nat {
    if line != "" && line[0] == ' ' then 1 + Indent(line[1..]) else 0
  }

  /** A key, a key with a plain value, or an item of a list that starts with one. */
  function ReadEntry(line: string): Entry {
    var words := Words(line);
    if |words| == 0 then Blank
    else if |words| == 1 then Entry(Indent(line), words[0], "")
    else if |words| == 2 then Entry(Indent(line), words[0], words[1])
    else if |words| == 3 && words[0] == "-" then Entry(Indent(line) + 2, words[1], words[2])
    else Unreadable
  }

  function ReadEntries(lines: seq<string>): seq<Entry> {
    seq(|lines|, i requires 0 <= i < |lines| => ReadEntry(lines[i]))
  }

  /** The value under a path of keys, each in the block of the one before; of a list, its first item. */
  function Lookup(entries: seq<Entry>, path: seq<string>, column: nat): Option<string>
    requires path != []
  {
    if entries == [] || entries[0].Unreadable? then None
    else if entries[0].Blank? then Lookup(entries[1..], path, column)
    else if entries[0].column < column then None
    else if entries[0].column == column && entries[0].key == path[0] then
      if |path| == 1 then Some(entries[0].value)
      else if |entries| > 1 && entries[1].Entry? && entries[1].column > column then
        Lookup(entries[1..], path[1..], entries[1].column)
      else None
    else Lookup(entries[1..], path, column)
  }

  function ValueAt(text: string, path: seq<string>): Option<string>
    requires path != []
  {
    Lookup(ReadEntries(Split(text, "\n")), path, 0)
  }

  /** The host that a rule names: the text between its two backticks. */
  function HostOf(rule: string): Option<string> {
    var (before, behind) := Cut(rule, TICK);
    if before == "\"Host(" && behind.Some? && Cut(behind.value, TICK).1 == Some(")\"") then
      Some(Cut(behind.value, TICK).0)
    else None
  }

  // ---- reading back ----------------------------------------------------

  lemma {:induction false} IndentOf(indent: string, line: string)
    requires AreBlanks(indent) && (line == "" || line[0] != ' ')
    ensures Indent(indent + line) == |indent|
  {
    if indent == "" {
      assert indent + line == line;
    } else {
      assert (indent + line)[1..] == indent[1..] + line;
      IndentOf(indent[1..], line);
    }
  }

  lemma LineReads(indent: string, words: seq<string>)
    requires AreBlanks(indent) && AreWords(words) && words != []
    ensures Indent(Line(indent, words)) == |indent| && Words(Line(indent, words)) == words
    ensures '\n' !in Line(indent, words)
  {
    WordsOfLine(indent, words);
    assert Join(words, " ")[0] == words[0][0];
    assert words[0][0] in words[0];
    IndentOf(indent, Join(words, " "));
  }

  lemma {:induction false} BlanksAreBlank(n: nat)
    ensures AreBlanks(Blanks(n)) && |Blanks(n)| == n
  {
    if n > 0 {
      BlanksAreBlank(n - 1);
    }
  }

  function EntryOf(row: Row): Entry {
    if |row.words| == 1 then Entry(row.column, row.words[0], "")
    else if |row.words| == 2 then Entry(row.column, row.words[0], row.words[1])
    else if |row.words| == 3 && row.words[0] == "-" then Entry(row.column + 2, row.words[1], row.words[2])
    else Unreadable
  }

  function EntriesOf(rows: seq<Row>): seq<Entry> {
    seq(|rows|, i requires 0 <= i < |rows| => EntryOf(rows[i]))
  }

  predicate Proper(rows: seq<Row>) {
    forall i | 0 <= i < |rows| :: AreWords(rows[i].words) && rows[i].words != []
  }

  predicate OneLineEach(lines: seq<string>) {
    forall i | 0 <= i < |lines| :: '\n' !in lines[i]
  }

  lemma RowsRead(rows: seq<Row>)
    requires Proper(rows)
    ensures ReadEntries(Lines(rows)) == EntriesOf(rows) && OneLineEach(Lines(rows))
  {
    forall i | 0 <= i < |rows|
      ensures ReadEntry(Lines(rows)[i]) == EntryOf(rows[i]) && '\n' !in Lines(rows)[i]
    {
      BlanksAreBlank(rows[i].column);
      LineReads(Blanks(rows[i].column), rows[i].words);
    }
  }

  lemma TextReads(rows: seq<Row>)
    requires Proper(rows)
    ensures ReadEntries(Split(Join(Lines(rows) + [""], "\n"), "\n")) == EntriesOf(rows) + [Blank]
  {
    RowsRead(rows);
    NoWords();
    SplitJoin(Lines(rows) + [""], "\n");
  }

  lemma RouterIsProper(host: string)
    requires IsWord(host)
    ensures Proper(RouterRows(host))
  {
    RuleIsWord(host);
  }

  lemma RuleIsWord(host: string)
    requires IsWord(host)
    ensures IsWord(Rule(host))
  {
  }

  lemma UrlIsWord()
    ensures IsWord(URL)
  {
  }

  lemma ServiceIsProper()
    ensures Proper(SERVICE_ROWS)
  {
    UrlIsWord();
  }

  lemma TopIsProper()
    ensures Proper(TOP_ROWS)
  {
  }

  /** Entries of deeper blocks, or with other keys, are passed over. */
  lemma {:induction false} LookupSkips(passed: seq<Entry>, rest: seq<Entry>, path: seq<string>, column: nat)
    requires path != []
    requires forall e | e in passed :: e.Entry? && e.column >= column && (e.column > column || e.key != path[0])
    ensures Lookup(passed + rest, path, column) == Lookup(rest, path, column)
  {
    if passed == [] {
      assert passed + rest == rest;
    } else {
      assert passed[0] in passed && (passed + rest)[1..] == passed[1..] + rest;
      assert (passed + rest)[0] == passed[0];
      LookupSkips(passed[1..], rest, path, column);
    }
  }

  lemma LookupEnters(first: Entry, next: Entry, rest: seq<Entry>, path: seq<string>, column: nat)
    requires |path| > 1 && first.Entry? && next.Entry? && next.column > first.column == column && first.key == path[0]
    ensures Lookup([first, next] + rest, path, column) == Lookup([next] + rest, path[1..], next.column)
  {
    assert ([first, next] + rest)[1..] == [next] + rest;
  }

  lemma LookupEnds(first: Entry, rest: seq<Entry>, path: seq<string>, column: nat)
    requires |path| == 1 && first.Entry? && first.column == column && first.key == path[0]
    ensures Lookup([first] + rest, path, column) == Some(first.value)
  {
  }

  const TOP: seq<Entry> := [Entry(0, "http:", ""), Entry(2, "routers:", ""), Entry(4, "centralcloud-agent:", "")]

  function Router(host: string): seq<Entry> {
    [Entry(6, "rule:", Rule(host)), Entry(6, "entryPoints:", "[websecure]"), Entry(6, "service:", "centralcloud-agent"),
     Entry(6, "tls:", ""), Entry(8, "certResolver:", "letsencrypt")]
  }

  const SERVICE: seq<Entry> := [
    Entry(2, "services:", ""), Entry(4, "centralcloud-agent:", ""), Entry(6, "loadBalancer:", ""),
    Entry(8, "servers:", ""), Entry(12, "url:", "\"http://host.docker.internal:9443\"")]

  lemma EntriesAre(host: string)
    ensures EntriesOf(TOP_ROWS) == TOP && EntriesOf(RouterRows(host)) == Router(host)
    ensures EntriesOf(SERVICE_ROWS) == SERVICE
  {
  }

  lemma RouteEntries(host: string)
    requires IsWord(host)
    ensures ReadEntries(Split(Route(host), "\n")) == TOP + (Router(host) + (SERVICE + [Blank]))
  {
    TopIsProper();
    ServiceIsProper();
    RouterIsProper(host);
    EntriesAre(host);
    TextReads(TOP_ROWS + RouterRows(host) + SERVICE_ROWS);
    EntriesConcat(TOP_ROWS, RouterRows(host), SERVICE_ROWS);
    assert TOP + Router(host) + SERVICE + [Blank] == TOP + (Router(host) + (SERVICE + [Blank]));
  }

  lemma EntriesConcat(a: seq<Row>, b: seq<Row>, c: seq<Row>)
    ensures EntriesOf(a + b + c) == EntriesOf(a) + EntriesOf(b) + EntriesOf(c)
  {
  }

  /** Into the blocks of three keys, each the first of its block. */
  lemma Descend(a: Entry, b: Entry, c: Entry, rest: seq<Entry>, path: seq<string>)
    requires a.Entry? && b.Entry? && c.Entry? && a.column < b.column < c.column
    requires rest != [] && rest[0].Entry? && rest[0].column > c.column && path != []
    ensures Lookup([a, b, c] + rest, [a.key, b.key, c.key] + path, a.column) == Lookup(rest, path, rest[0].column)
  {
    assert [a, b, c] + rest == [a] + ([b] + ([c] + rest));
    assert [a.key, b.key, c.key] + path == [a.key] + ([b.key] + ([c.key] + path));
    DescendOnce(a, [b] + ([c] + rest), [b.key] + ([c.key] + path));
    DescendOnce(b, [c] + rest, [c.key] + path);
    DescendOnce(c, rest, path);
  }

  lemma DescendOnce(e: Entry, rest: seq<Entry>, path: seq<string>)
    requires e.Entry? && rest != [] && rest[0].Entry? && rest[0].column > e.column && path != []
    ensures Lookup([e] + rest, [e.key] + path, e.column) == Lookup(rest, path, rest[0].column)
  {
    LookupEnters(e, rest[0], rest[1..], [e.key] + path, e.column);
    assert [e] + rest == [e, rest[0]] + rest[1..] && [rest[0]] + rest[1..] == rest;
    assert ([e.key] + path)[1..] == path;
  }

  const ROUTER: seq<string> := ["http:", "routers:", "centralcloud-agent:"]

  lemma InRouter(host: string, path: seq<string>)
    requires IsWord(host) && path != []
    ensures ValueAt(Route(host), ROUTER + path) == Lookup(Router(host) + (SERVICE + [Blank]), path, 6)
  {
    RouteEntries(host);
    Descend(TOP[0], TOP[1], TOP[2], Router(host) + (SERVICE + [Blank]), path);
  }

  lemma LookupHere(passed: seq<Entry>, e: Entry, rest: seq<Entry>, key: string)
    requires e.Entry? && e.key == key
    requires forall x | x in passed :: x.Entry? && x.column >= e.column && (x.column > e.column || x.key != key)
    ensures Lookup(passed + ([e] + rest), [key], e.column) == Some(e.value)
  {
    LookupSkips(passed, [e] + rest, [key], e.column);
    LookupEnds(e, rest, [key], e.column);
  }

  lemma RuleValue(host: string)
    requires IsWord(host)
    ensures ValueAt(Route(host), ROUTER + ["rule:"]) == Some(Rule(host))
  {
    var r, rest := Router(host), SERVICE + [Blank];
    InRouter(host, ["rule:"]);
    LookupHere([], r[0], r[1..] + rest, "rule:");
    assert r + rest == [] + ([r[0]] + (r[1..] + rest));
  }

  lemma EntryPointValue(host: string)
    requires IsWord(host)
    ensures ValueAt(Route(host), ROUTER + ["entryPoints:"]) == Some("[websecure]")
  {
    var r, rest := Router(host), SERVICE + [Blank];
    InRouter(host, ["entryPoints:"]);
    LookupHere(r[..1], r[1], r[2..] + rest, "entryPoints:");
    assert r + rest == r[..1] + ([r[1]] + (r[2..] + rest));
  }

  lemma ServiceValue(host: string)
    requires IsWord(host)
    ensures ValueAt(Route(host), ROUTER + ["service:"]) == Some("centralcloud-agent")
  {
    var r, rest := Router(host), SERVICE + [Blank];
    InRouter(host, ["service:"]);
    LookupHere(r[..2], r[2], r[3..] + rest, "service:");
    assert r + rest == r[..2] + ([r[2]] + (r[3..] + rest));
  }

  lemma ResolverValue(host: string)
    requires IsWord(host)
    ensures ValueAt(Route(host), ROUTER + ["tls:", "certResolver:"]) == Some("letsencrypt")
  {
    var r, rest := Router(host), SERVICE + [Blank];
    var path := ["tls:", "certResolver:"];
    InRouter(host, path);
    LookupSkips(r[..3], [r[3], r[4]] + rest, path, 6);
    LookupEnters(r[3], r[4], rest, path, 6);
    LookupHere([], r[4], rest, "certResolver:");
    assert r + rest == r[..3] + ([r[3], r[4]] + rest);
    assert path[1..] == ["certResolver:"] && [r[4]] + rest == [] + ([r[4]] + rest);
  }

  /** Past the routers, into the service of that name, down to its first server. */
  lemma UrlValue(host: string)
    requires IsWord(host)
    ensures ValueAt(
      Route(host), ["http:", "services:", "centralcloud-agent:", "loadBalancer:", "servers:", "url:"])
        == Some("\"http://host.docker.internal:9443\"")
  {
    RouteEntries(host);
    var passed := [TOP[1], TOP[2]] + Router(host);
    PassedByServices(host);
    ServicePath(TOP[0], passed, SERVICE[0], SERVICE[1], SERVICE[2], SERVICE[3], SERVICE[4], [Blank]);
    Parts(TOP, Router(host), SERVICE, Blank);
  }

  lemma PassedByServices(host: string)
    ensures forall x | x in [TOP[1], TOP[2]] + Router(host) ::
      x.Entry? && x.column >= 2 && (x.column > 2 || x.key != "services:")
  {
    assert TOP[1].key == "routers:" != "services:";
  }

  lemma Parts(top: seq<Entry>, router: seq<Entry>, service: seq<Entry>, last: Entry)
    requires |top| == 3 && |service| == 5
    ensures top + (router + (service + [last])) == [top[0]] + (([top[1], top[2]] + router) +
      ([service[0], service[1], service[2]] + ([service[3], service[4]] + [last])))
  {
    assert top == [top[0]] + [top[1], top[2]];
    assert service == [service[0], service[1], service[2]] + [service[3], service[4]];
  }

  lemma ServicePath(
      top: Entry, passed: seq<Entry>, a: Entry, b: Entry, c: Entry, d: Entry, e: Entry, rest: seq<Entry>)
    requires top.Entry? && a.Entry? && b.Entry? && c.Entry? && d.Entry? && e.Entry?
    requires top.column < a.column < b.column < c.column < d.column < e.column
    requires passed != [] && passed[0].Entry? && passed[0].column == a.column
    requires forall x | x in passed :: x.Entry? && x.column >= a.column && (x.column > a.column || x.key != a.key)
    ensures Lookup(
      [top] + (passed + ([a, b, c] + ([d, e] + rest))), [top.key, a.key, b.key, c.key, d.key, e.key], top.column)
        == Some(e.value)
  {
    var path := [a.key, b.key, c.key, d.key, e.key];
    assert [top.key] + path == [top.key, a.key, b.key, c.key, d.key, e.key];
    EnterAndSkip(top, passed, [a, b, c] + ([d, e] + rest), path, a.column);
    Descend(a, b, c, [d, e] + rest, [d.key, e.key]);
    assert [a.key, b.key, c.key] + [d.key, e.key] == path;
    LastTwo(d, e, rest);
  }

  lemma EnterAndSkip(top: Entry, passed: seq<Entry>, inner: seq<Entry>, path: seq<string>, column: nat)
    requires top.Entry? && top.column < column && path != []
    requires passed != [] && passed[0].Entry? && passed[0].column == column
    requires forall x | x in passed :: x.Entry? && x.column >= column && (x.column > column || x.key != path[0])
    ensures Lookup([top] + (passed + inner), [top.key] + path, top.column) == Lookup(inner, path, column)
  {
    LookupEnters(top, passed[0], passed[1..] + inner, [top.key] + path, top.column);
    assert [top] + (passed + inner) == [top, passed[0]] + (passed[1..] + inner);
    assert [passed[0]] + (passed[1..] + inner) == passed + inner;
    assert ([top.key] + path)[1..] == path;
    LookupSkips(passed, inner, path, column);
  }

  lemma LastTwo(d: Entry, e: Entry, rest: seq<Entry>)
    requires d.Entry? && e.Entry? && d.column < e.column
    ensures Lookup([d, e] + rest, [d.key, e.key], d.column) == Some(e.value)
  {
    LookupEnters(d, e, rest, [d.key, e.key], d.column);
    LookupEnds(e, rest, [e.key], e.column);
    assert [d.key, e.key][1..] == [e.key];
  }

  /** The address that requests are forwarded to: the first server of the service that the router names. */
  function Backend(text: string): Option<string> {
    match ValueAt(text, ["http:", "routers:", "centralcloud-agent:", "service:"])
    case Some(name) => ValueAt(text, ["http:", "services:", name + ":", "loadBalancer:", "servers:", "url:"])
    case None => None
  }

  /** The file routes exactly the host, over TLS with a certificate of the resolver, to the agent's address. */
  lemma RouteMeaning(host: string)
    requires IsWord(host) && TICK !in host
    ensures
      var rule := ValueAt(Route(host), ["http:", "routers:", "centralcloud-agent:", "rule:"]);
      rule.Some? && HostOf(rule.value) == Some(host)
    ensures ValueAt(Route(host), ["http:", "routers:", "centralcloud-agent:", "entryPoints:"]) == Some("[websecure]")
    ensures ValueAt(Route(host), ["http:", "routers:", "centralcloud-agent:", "tls:", "certResolver:"])
      == Some("letsencrypt")
    ensures Backend(Route(host)) == Some("\"http://host.docker.internal:9443\"")
  {
    RuleNamesHost(host);
    RuleAndEntryPoint(host);
    ResolverAndService(host);
    UrlValue(host);
    assert "centralcloud-agent" + ":" == "centralcloud-agent:";
  }

  lemma RuleAndEntryPoint(host: string)
    requires IsWord(host)
    ensures ValueAt(Route(host), ["http:", "routers:", "centralcloud-agent:", "rule:"]) == Some(Rule(host))
    ensures ValueAt(Route(host), ["http:", "routers:", "centralcloud-agent:", "entryPoints:"]) == Some("[websecure]")
  {
    RuleValue(host);
    EntryPointValue(host);
    assert ROUTER + ["rule:"] == ["http:", "routers:", "centralcloud-agent:", "rule:"];
    assert ROUTER + ["entryPoints:"] == ["http:", "routers:", "centralcloud-agent:", "entryPoints:"];
  }

  lemma ResolverAndService(host: string)
    requires IsWord(host)
    ensures ValueAt(Route(host), ["http:", "routers:", "centralcloud-agent:", "tls:", "certResolver:"])
      == Some("letsencrypt")
    ensures ValueAt(Route(host), ["http:", "routers:", "centralcloud-agent:", "service:"])
      == Some("centralcloud-agent")
  {
    ResolverValue(host);
    ServiceValue(host);
    assert ROUTER + ["tls:", "certResolver:"] ==
      ["http:", "routers:", "centralcloud-agent:", "tls:", "certResolver:"];
    assert ROUTER + ["service:"] == ["http:", "routers:", "centralcloud-agent:", "service:"];
  }

  lemma RuleNamesHost(host: string)
    requires TICK !in host
    ensures HostOf(Rule(host)) == Some(host)
  {
    assert Rule(host) == "\"Host(" + [TICK] + (host + [TICK] + ")\"");
    assert TICK !in "\"Host(";
    CutHere("\"Host(", TICK, host + [TICK] + ")\"");
    CutHere(host, TICK, ")\"");
  }
}
