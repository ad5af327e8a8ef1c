/** The string operations of Go's `strings` and `strconv` packages that the
    installer relies on, and the inverse laws the other modules need. */
module Text {
  import opened Wrappers

  predicate IsDigit(c: char) {
    '0' <= c <= '9'
  }

  predicate AllDigits(s: string) {
    forall i | 0 <= i < |s| :: IsDigit(s[i])
  }

  /** White space as `strings.TrimSpace` and `strings.Fields` see it in ASCII text. */
  predicate IsSpace(c: char) {
    c == ' ' || ('\t' <= c <= '\r')
  }

  // ---- decimal numbers -------------------------------------------------

  function Itoa(n: nat): (s: string)
    ensures s != [] && AllDigits(s)
  {
    var digit := ['0' + (n % 10) as char];
    if n < 10 then digit else Itoa(n / 10) + digit
  }

  /** The number a non-empty string of digits denotes; None for anything else. */
  function ParseDigits(s: string): Option<nat> {
    if s == [] || !AllDigits(s) then None else Some(DigitsValue(s))
  }

  function DigitsValue(s: string): nat
    requires AllDigits(s)
  {
    if s == [] then 0
    else 10 * DigitsValue(s[..|s| - 1]) + (s[|s| - 1] - '0') as nat
  }

  lemma {:induction false} ParseItoa(n: nat)
    ensures ParseDigits(Itoa(n)) == Some(n)
  {
    var s := Itoa(n);
    if n < 10 {
      assert s[..|s| - 1] == [] && DigitsValue([]) == 0;
      assert (s[0] - '0') as nat == n;
    } else {
      ParseItoa(n / 10);
      assert s[..|s| - 1] == Itoa(n / 10);
    }
  }

  // ---- searching and trimming ------------------------------------------

  predicate HasPrefix(s: string, prefix: string) {
    prefix <= s
  }

  predicate HasSuffix(s: string, suffix: string) {
    |suffix| <= |s| && s[|s| - |suffix|..] == suffix
  }

  predicate OccursAt(s: string, sub: string, i: nat) {
    i + |sub| <= |s| && s[i..i + |sub|] == sub
  }

  predicate Contains(s: string, sub: string) {
    exists i | 0 <= i <= |s| :: OccursAt(s, sub, i)
  }

  lemma ContainsHere(before: string, sub: string, after: string)
    ensures Contains(before + sub + after, sub)
  {
    assert OccursAt(before + sub + after, sub, |before|);
  }

  function TrimLeft(s: string): string {
    if s != [] && IsSpace(s[0]) then TrimLeft(s[1..]) else s
  }

  function TrimRight(s: string): string {
    if s != [] && IsSpace(s[|s| - 1]) then TrimRight(s[..|s| - 1]) else s
  }

  function TrimSpace(s: string): string {
    TrimRight(TrimLeft(s))
  }

  /** Trimming stops at the last character of the core, or further right inside the suffix. */
  lemma TrimKeepsCore(core: string, suffix: string)
    requires core != [] && !IsSpace(core[0]) && !IsSpace(core[|core| - 1])
    ensures TrimSpace(core + suffix) == core + TrimRight(suffix)
  {
    TrimRightKeeps(core, suffix);
  }

  lemma {:induction false} TrimRightKeeps(core: string, suffix: string)
    requires core != [] && !IsSpace(core[|core| - 1])
    ensures TrimRight(core + suffix) == core + TrimRight(suffix)
  {
    var s := core + suffix;
    if suffix == [] {
      assert s == core;
    } else if IsSpace(suffix[|suffix| - 1]) {
      assert s[..|s| - 1] == core + suffix[..|suffix| - 1];
      TrimRightKeeps(core, suffix[..|suffix| - 1]);
    }
  }

  lemma {:induction false} TrimRightKeepsOut(s: string, c: char)
    requires c !in s
    ensures c !in TrimRight(s)
  {
    if s != [] && IsSpace(s[|s| - 1]) {
      TrimRightKeepsOut(s[..|s| - 1], c);
    }
  }

  lemma {:induction false} TrimKeepsOut(s: string, c: char)
    requires c !in s
    ensures c !in TrimSpace(s)
  {
    if s != [] && IsSpace(s[0]) {
      TrimKeepsOut(s[1..], c);
    } else {
      TrimRightKeepsOut(s, c);
    }
  }

  /** The part of `s` before the first `c`, and the part after it when there is one. */
  function Cut(s: string, c: char): (r: (string, Option<string>))
    ensures c !in r.0
    ensures s == r.0 + (if r.1.Some? then [c] + r.1.value else [])
  {
    if s == [] then ([], None)
    else if s[0] == c then ([], Some(s[1..]))
    else
      var (before, after) := Cut(s[1..], c);
      ([s[0]] + before, after)
  }

  lemma {:induction false} CutHere(before: string, c: char, after: string)
    requires c !in before
    ensures Cut(before + [c] + after, c) == (before, Some(after))
  {
    if before != [] {
      CutHere(before[1..], c, after);
      assert (before + [c] + after)[1..] == before[1..] + [c] + after;
      assert [before[0]] + before[1..] == before;
    }
  }

  lemma {:induction false} CutAbsent(s: string, c: char)
    requires c !in s
    ensures Cut(s, c) == (s, None)
  {
    if s != [] {
      CutAbsent(s[1..], c);
      assert [s[0]] + s[1..] == s;
    }
  }

  // ---- splitting and joining -------------------------------------------

  function Join(parts: seq<string>, sep: string): string {
    if parts == [] then ""
    else if |parts| == 1 then parts[0]
    else parts[0] + sep + Join(parts[1..], sep)
  }

  /** `strings.Split` for a non-empty separator. */
  function Split(s: string, sep: string): (parts: seq<string>)
    requires sep != []
    ensures parts != []
  {
    SplitFrom(s, sep, [])
  }

  function SplitFrom(s: string, sep: string, field: string): (parts: seq<string>)
    requires sep != []
    ensures parts != []
    decreases |s|
  {
    if s == [] then [field]
    else if sep <= s then [field] + SplitFrom(s[|sep|..], sep, [])
    else SplitFrom(s[1..], sep, field + [s[0]])
  }

  /** A field that does not hold the separator's first character ends where the separator starts. */
  lemma {:induction false} SplitField(part: string, sep: string, rest: string, field: string)
    requires sep != [] && sep[0] !in part
    ensures SplitFrom(part + sep + rest, sep, field) == [field + part] + SplitFrom(rest, sep, [])
    decreases |part|
  {
    var s := part + sep + rest;
    if part == [] {
      assert s == sep + rest;
      assert s[..|sep|] == sep;
      assert s[|sep|..] == rest;
      assert field + part == field;
    } else {
      assert s[0] == part[0];
      assert s[1..] == part[1..] + sep + rest;
      SplitField(part[1..], sep, rest, field + [part[0]]);
      assert field + [part[0]] + part[1..] == field + part;
    }
  }

  lemma {:induction false} SplitLast(part: string, sep: string, field: string)
    requires sep != [] && sep[0] !in part
    ensures SplitFrom(part, sep, field) == [field + part]
    decreases |part|
  {
    if part == [] {
      assert field + part == field;
    } else {
      SplitLast(part[1..], sep, field + [part[0]]);
      assert field + [part[0]] + part[1..] == field + part;
    }
  }

  /** Splitting undoes joining when no part holds the separator's first character. */
  /** Splitting at one character: a text and another behind that character. */
  lemma {:induction false} SplitConcat(a: string, c: char, b: string, field: string)
    ensures SplitFrom(a + [c] + b, [c], field) == SplitFrom(a, [c], field) + SplitFrom(b, [c], [])
    decreases |a|
  {
    var s := a + [c] + b;
    if a == [] {
      assert s == [c] + b && s[1..] == b && s[..1] == [c];
    } else if a[0] == c {
      assert a[..1] == [c] && s[..1] == [c];
      assert s[1..] == a[1..] + [c] + b;
      SplitConcat(a[1..], c, b, []);
    } else {
      assert s[..1] == [a[0]] && a[..1] == [a[0]];
      assert s[1..] == a[1..] + [c] + b;
      SplitConcat(a[1..], c, b, field + [a[0]]);
    }
  }

  lemma {:induction false} JoinKeepsOut(parts: seq<string>, sep: string, c: char)
    requires c !in sep && forall i | 0 <= i < |parts| :: c !in parts[i]
    ensures c !in Join(parts, sep)
  {
    if |parts| > 1 {
      JoinKeepsOut(parts[1..], sep, c);
    }
  }

  lemma {:induction false} SplitJoin(parts: seq<string>, sep: string)
    requires parts != [] && sep != []
    requires forall i | 0 <= i < |parts| :: sep[0] !in parts[i]
    ensures Split(Join(parts, sep), sep) == parts
    decreases |parts|
  {
    if |parts| == 1 {
      SplitLast(parts[0], sep, []);
      assert [] + parts[0] == parts[0] && [parts[0]] == parts;
    } else {
      var rest := parts[1..];
      SplitJoin(rest, sep);
      SplitField(parts[0], sep, Join(rest, sep), []);
      assert [parts[0]] + rest == parts;
      assert [] + parts[0] == parts[0];
    }
  }

  // ---- words -----------------------------------------------------------

  function NonEmpty(words: seq<string>): seq<string> {
    if words == [] then []
    else if words[0] == "" then NonEmpty(words[1..])
    else [words[0]] + NonEmpty(words[1..])
  }

  /** The parts of a line between blanks. */
  function Words(line: string): seq<string> {
    NonEmpty(Split(line, " "))
  }

  /** The words of a line behind its indentation. */
  function Line(indent: string, words: seq<string>): string {
    indent + Join(words, " ")
  }

  predicate IsWord(s: string) {
    s != "" && ' ' !in s && '\n' !in s
  }

  predicate AreWords(words: seq<string>) {
    forall i | 0 <= i < |words| :: IsWord(words[i])
  }

  lemma {:induction false} NonEmptyConcat(a: seq<string>, b: seq<string>)
    ensures NonEmpty(a + b) == NonEmpty(a) + NonEmpty(b)
  {
    if a == [] {
      assert a + b == b;
    } else {
      assert (a + b)[1..] == a[1..] + b;
      NonEmptyConcat(a[1..], b);
    }
  }

  lemma WordsConcat(a: string, b: string)
    ensures Words(a + " " + b) == Words(a) + Words(b)
  {
    SplitConcat(a, ' ', b, []);
    assert a + " " + b == a + [' '] + b;
    NonEmptyConcat(Split(a, " "), Split(b, " "));
  }

  lemma NoWords()
    ensures Words("") == []
  {
    assert Split("", " ") == [""];
    assert [""][1..] == [];
  }

  lemma OneWord(w: string)
    requires w != "" && ' ' !in w
    ensures Words(w) == [w]
  {
    SplitLast(w, " ", []);
    assert [] + w == w;
    assert [w][1..] == [] && NonEmpty([]) == [] && [w] + [] == [w];
  }

  lemma {:induction false} WordsJoin(words: seq<string>)
    requires AreWords(words)
    ensures Words(Join(words, " ")) == words
  {
    if words == [] {
      NoWords();
    } else if |words| == 1 {
      OneWord(words[0]);
    } else {
      WordsConcat(words[0], Join(words[1..], " "));
      OneWord(words[0]);
      WordsJoin(words[1..]);
      assert [words[0]] + words[1..] == words;
    }
  }

  predicate AreBlanks(s: string) {
    forall i | 0 <= i < |s| :: s[i] == ' '
  }

  lemma {:induction false} IndentIsNoWord(indent: string, line: string)
    requires AreBlanks(indent)
    ensures Words(indent + line) == Words(line)
  {
    if indent == "" {
      assert indent + line == line;
    } else {
      IndentIsNoWord(indent[1..], line);
      assert indent + line == "" + " " + (indent[1..] + line);
      WordsConcat("", indent[1..] + line);
      NoWords();
      assert [] + Words(line) == Words(line);
    }
  }

  lemma WordsOfLine(indent: string, words: seq<string>)
    requires AreBlanks(indent) && AreWords(words)
    ensures Words(Line(indent, words)) == words
    ensures '\n' !in Line(indent, words)
  {
    IndentIsNoWord(indent, Join(words, " "));
    WordsJoin(words);
    JoinKeepsOut(words, " ", '\n');
  }

  lemma {:induction false} WordsAround(before: seq<string>, middle: string, after: seq<string>)
    requires AreWords(before) && AreWords(after) && after != []
    ensures Words(Join(before + [middle] + after, " ")) == before + Words(middle) + after
  {
    var all := before + [middle] + after;
    if before == [] {
      assert all == [middle] + after && all[1..] == after;
      WordsConcat(middle, Join(after, " "));
      WordsJoin(after);
      assert [] + Words(middle) + after == Words(middle) + after;
    } else {
      assert all[1..] == before[1..] + [middle] + after;
      WordsConcat(before[0], Join(all[1..], " "));
      OneWord(before[0]);
      WordsAround(before[1..], middle, after);
      assert [before[0]] + (before[1..] + Words(middle) + after) == before + Words(middle) + after;
    }
  }
}
