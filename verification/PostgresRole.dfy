/** internal/postgresql: what the rendered SQL does to the roles of the server, read from its text: words,
    string literals and punctuation (PostgreSQL 17 documentation, section 4.1), and the two commands
    under the test. */
module PostgresRole {
  import opened Wrappers
  import opened Text
  import opened PostgresPassword

  // ---- tokens ----------------------------------------------------------

  datatype Token = Word(text: string) | Literal(value: string) | Mark(c: char)

  type Tokens = Option<seq<Token>>

  predicate IsMark(c: char) {
    c == '(' || c == ')' || c == ';' || c == '='
  }

  predicate IsPlain(c: char) {
    !IsSpace(c) && !IsMark(c) && c != '\''
  }

  function Flush(word: string): seq<Token> {
    if word == "" then [] else [Word(word)]
  }

  function Before(first: seq<Token>, rest: Tokens): Tokens {
    match rest
    case Some(tokens) => Some(first + tokens)
    case None => None
  }

  /** The tokens of a text, of which the beginning of a word has been read; a literal right behind a word
      is not read. */
  function Lex(text: string, word: string): Tokens
    decreases |text|
  {
    if text == "" then Some(Flush(word))
    else if IsSpace(text[0]) then Before(Flush(word), Lex(text[1..], ""))
    else if IsMark(text[0]) then Before(Flush(word) + [Mark(text[0])], Lex(text[1..], ""))
    else if text[0] == '\'' then
      if word != "" || Scan(text[1..]).None? then None
      else
        var (value, rest) := Scan(text[1..]).value;
        if |rest| < |text| then Before([Literal(value)], Lex(rest, "")) else None
    else Lex(text[1..], word + [text[0]])
  }

  // ---- what a body says ------------------------------------------------

  /** CREATE ROLE or ALTER ROLE. */
  datatype Change = Change(creates: bool, role: string, rights: set<string>, password: string)

  /** IF [NOT] EXISTS (SELECT 1 FROM pg_roles WHERE rolname = ...) THEN ... ELSE ... END IF. */
  datatype Choice = Choice(negated: bool, role: string, first: Change, second: Change)

  function ReadChange(tokens: seq<Token>): Option<Change> {
    if |tokens| == 9 && (tokens[0] == Word("CREATE") || tokens[0] == Word("ALTER")) && tokens[1] == Word("ROLE")
       && (forall i | 2 <= i < 6 :: tokens[i].Word?) && tokens[6] == Word("PASSWORD") && tokens[7].Literal?
       && tokens[8] == Mark(';') then
      Some(Change(
        tokens[0] == Word("CREATE"), tokens[2].text, {tokens[3].text, tokens[4].text, tokens[5].text},
        tokens[7].value))
    else None
  }

  /** The role whose presence in the catalogue is tested. */
  function ReadTest(tokens: seq<Token>): Option<string> {
    if |tokens| == 11 && tokens[0] == Word("EXISTS")
       && tokens[1..9] == [
         Mark('('), Word("SELECT"), Word("1"), Word("FROM"), Word("pg_roles"), Word("WHERE"), Word("rolname"),
         Mark('=')]
       && tokens[9].Literal? && tokens[10] == Mark(')') then Some(tokens[9].value)
    else None
  }

  function ReadChoice(tokens: seq<Token>, negated: bool): Option<Choice> {
    if |tokens| == 31 && tokens[11] == Word("THEN") && tokens[21] == Word("ELSE")
    then
      match (ReadTest(tokens[..11]), ReadChange(tokens[12..21]), ReadChange(tokens[22..]))
      case (Some(role), Some(first), Some(second)) => Some(Choice(negated, role, first, second))
      case _ => None
    else None
  }

  function ReadBody(tokens: seq<Token>): Option<Choice> {
    var n := |tokens|;
    if n < 7 || tokens[..2] != [Word("BEGIN"), Word("IF")]
       || tokens[n - 4..] != [Word("END"), Word("IF"), Mark(';'), Word("END")] then None
    else if tokens[2] == Word("NOT") then ReadChoice(tokens[3..n - 4], true)
    else ReadChoice(tokens[2..n - 4], false)
  }

  /** The roles of the server: what each may do, and the password it logs in with. */
  datatype Role = Role(rights: set<string>, password: string)

  type Roles = map<string, Role>

  /** A role can be created only when it is not there, and altered only when it is; other rights stay. */
  function Perform(change: Change, roles: Roles): Option<Roles> {
    if change.creates then
      if change.role in roles then None else Some(roles[change.role := Role(change.rights, change.password)])
    else if change.role in roles then
      Some(roles[change.role := Role(roles[change.role].rights + change.rights, change.password)])
    else None
  }

  function Choose(choice: Choice, roles: Roles): Option<Roles> {
    Perform(if (choice.role in roles) != choice.negated then choice.first else choice.second, roles)
  }

  /** The text before the first occurrence of `tag`. */
  function Until(text: string, tag: string): Option<string> {
    if tag <= text then Some("")
    else if text == "" then None
    else
      match Until(text[1..], tag)
      case Some(before) => Some([text[0]] + before)
      case None => None
  }

  /** What the server makes of a dollar-quoted anonymous block. */
  function Execute(sql: string, roles: Roles): Option<Roles> {
    if !HasPrefix(sql, "DO $centralcloud$") then None
    else
      match Until(sql[17..], TAG)
      case None => None
      case Some(body) => ExecuteBody(body, roles)
  }

  function ExecuteBody(body: string, roles: Roles): Option<Roles> {
    match Lex(body, "")
    case None => None
    case Some(tokens) =>
      match ReadBody(tokens)
      case None => None
      case Some(choice) => Choose(choice, roles)
  }

  // ---- reading the template --------------------------------------------

  predicate AllPlain(s: string) {
    forall i | 0 <= i < |s| :: IsPlain(s[i])
  }

  function WordTokens(words: seq<string>): seq<Token> {
    seq(|words|, i requires 0 <= i < |words| => Word(words[i]))
  }

  function Both(a: Tokens, b: Tokens): Tokens {
    if a.Some? then Before(a.value, b) else None
  }

  lemma BothAssociates(a: Tokens, b: Tokens, c: Tokens)
    ensures Both(Both(a, b), c) == Both(a, Both(b, c))
    ensures Both(Some([]), c) == c
  {
    if a.Some? && b.Some? && c.Some? {
      assert a.value + b.value + c.value == a.value + (b.value + c.value);
    }
    if c.Some? {
      assert [] + c.value == c.value;
    }
  }

  /** White space between two texts, of which the first holds no literal. */
  lemma {:induction false} LexSpace(text: string, c: char, rest: string, word: string)
    requires '\'' !in text && IsSpace(c)
    ensures Lex(text + ([c] + rest), word) == Both(Lex(text, word), Lex(rest, ""))
  {
    var all := text + ([c] + rest);
    if text == "" {
      assert all == [c] + rest && all[1..] == rest;
    } else {
      assert all[1..] == text[1..] + ([c] + rest);
      if IsSpace(text[0]) || IsMark(text[0]) {
        LexSpace(text[1..], c, rest, "");
        var first := Flush(word) + if IsMark(text[0]) then [Mark(text[0])] else [];
        BothAssociates(Some(first), Lex(text[1..], ""), Lex(rest, ""));
        assert Flush(word) + [] == Flush(word);
      } else {
        LexSpace(text[1..], c, rest, word + [text[0]]);
      }
    }
  }

  lemma {:induction false} LexSpaces(spaces: string, rest: string)
    requires forall i | 0 <= i < |spaces| :: IsSpace(spaces[i])
    ensures Lex(spaces + rest, "") == Lex(rest, "")
  {
    if spaces == "" {
      assert spaces + rest == rest;
    } else {
      LexSpaces(spaces[1..], rest);
      assert spaces + rest == "" + ([spaces[0]] + (spaces[1..] + rest));
      LexSpace("", spaces[0], spaces[1..] + rest, "");
      BothAssociates(None, None, Lex(rest, ""));
    }
  }

  /** The tokens of every word. */
  function LexAll(words: seq<string>): Tokens {
    if words == [] then Some([]) else Both(Lex(words[0], ""), LexAll(words[1..]))
  }

  lemma {:induction false} LexWords(words: seq<string>, rest: string)
    requires words != [] && forall i | 0 <= i < |words| :: '\'' !in words[i]
    ensures Lex(Join(words, " ") + (" " + rest), "") == Both(LexAll(words), Lex(rest, ""))
  {
    var later := if |words| == 1 then rest else Join(words[1..], " ") + (" " + rest);
    assert Join(words, " ") + (" " + rest) == words[0] + ([' '] + later);
    LexSpace(words[0], ' ', later, "");
    if |words| == 1 {
      assert LexAll(words[1..]) == Some([]);
      BothAssociates(Lex(words[0], ""), Some([]), Lex(rest, ""));
    } else {
      LexWords(words[1..], rest);
      BothAssociates(Lex(words[0], ""), LexAll(words[1..]), Lex(rest, ""));
    }
  }

  lemma {:induction false} LexPlain(s: string, word: string)
    requires AllPlain(s)
    ensures Lex(s, word) == Some(Flush(word + s))
  {
    if s == "" {
      assert word + s == word;
    } else {
      assert IsPlain(s[0]);
      LexPlain(s[1..], word + [s[0]]);
      assert word + [s[0]] + s[1..] == word + s;
    }
  }

  lemma LexWord(word: string)
    requires word != "" && AllPlain(word)
    ensures Lex(word, "") == Some([Word(word)])
  {
    LexPlain(word, "");
    assert "" + word == word;
  }

  lemma LexMark(c: char, rest: string)
    requires IsMark(c)
    ensures Lex([c] + rest, "") == Before([Mark(c)], Lex(rest, ""))
  {
    assert ([c] + rest)[1..] == rest && Flush("") + [Mark(c)] == [Mark(c)];
  }

  /** A word and a mark right behind it. */
  lemma {:induction false} LexWordMark(s: string, c: char, word: string)
    requires AllPlain(s) && IsMark(c)
    ensures Lex(s + [c], word) == Some(Flush(word + s) + [Mark(c)])
  {
    if s == "" {
      assert s + [c] == [c] && word + s == word && [c][1..] == "" && Flush("") == [];
      assert Flush(word) + [Mark(c)] + [] == Flush(word) + [Mark(c)];
    } else {
      assert IsPlain(s[0]) && (s + [c])[1..] == s[1..] + [c];
      LexWordMark(s[1..], c, word + [s[0]]);
      assert word + [s[0]] + s[1..] == word + s;
    }
  }

  lemma LexLiteral(value: string, rest: string)
    requires rest != "" ==> rest[0] != '\''
    ensures Lex("'" + (Quote(value) + "'" + rest), "") == Before([Literal(value)], Lex(rest, ""))
  {
    ScanQuote(value, rest);
    var text := "'" + (Quote(value) + "'" + rest);
    assert text[1..] == Quote(value) + "'" + rest;
  }

  lemma {:induction false} LexPlainWords(words: seq<string>)
    requires forall i | 0 <= i < |words| :: words[i] != "" && AllPlain(words[i])
    ensures LexAll(words) == Some(WordTokens(words))
  {
    if words != [] {
      LexWord(words[0]);
      LexPlainWords(words[1..]);
      assert [Word(words[0])] + WordTokens(words[1..]) == WordTokens(words);
    }
  }

  // ---- the template read -----------------------------------------------

  function ChangeTokens(verb: string, password: string): seq<Token> {
    WordTokens(ChangeWords(verb)) + [Literal(password)]
  }

  lemma ChangeIsPlain(verb: string)
    requires verb != "" && AllPlain(verb)
    ensures forall i | 0 <= i < 7 :: ChangeWords(verb)[i] != "" && AllPlain(ChangeWords(verb)[i])
  {
    assert AllPlain("ROLE") && AllPlain(ROLE) && AllPlain("LOGIN") && AllPlain("CREATEDB");
    assert AllPlain("CREATEROLE") && AllPlain("PASSWORD");
  }

  /** A command up to the end of its literal. */
  lemma LexChange(verb: string, password: string, rest: string)
    requires verb != "" && AllPlain(verb) && rest != "" && rest[0] == ';'
    ensures Lex(Join(ChangeWords(verb), " ") + (" " + ("'" + (Quote(password) + "'" + rest))), "") ==
      Before(ChangeTokens(verb, password), Lex(rest, ""))
  {
    var words, literal := ChangeWords(verb), "'" + (Quote(password) + "'" + rest);
    ChangeIsPlain(verb);
    LexPlainWords(words);
    LexWords(words, literal);
    LexLiteral(password, rest);
    BothAssociates(Some(WordTokens(words)), Some([Literal(password)]), Lex(rest, ""));
  }

  const TEST_TOKENS: seq<Token> :=
    WordTokens(MISSING) + ([Mark('('), Word("SELECT")] + (WordTokens(CATALOGUE) + [Mark('=')]))

  lemma {:induction false} LexAllConcat(a: seq<string>, b: seq<string>)
    ensures LexAll(a + b) == Both(LexAll(a), LexAll(b))
  {
    if a == [] {
      assert a + b == b;
      BothAssociates(None, None, LexAll(b));
    } else {
      assert (a + b)[1..] == a[1..] + b;
      LexAllConcat(a[1..], b);
      BothAssociates(Lex(a[0], ""), LexAll(a[1..]), LexAll(b));
    }
  }

  lemma LexSelect()
    ensures LexAll(["(SELECT"]) == Some([Mark('('), Word("SELECT")])
    ensures LexAll(["="]) == Some([Mark('=')])
  {
    LexMark('(', "SELECT");
    LexWord("SELECT");
    assert ['('] + "SELECT" == "(SELECT" && [Mark('(')] + [Word("SELECT")] == [Mark('('), Word("SELECT")];
    LexMark('=', "");
    assert ['='] + "" == "=" && [Mark('=')] + [] == [Mark('=')];
    LexAllOne("(SELECT");
    LexAllOne("=");
  }

  lemma LexAllOne(word: string)
    requires Lex(word, "").Some?
    ensures LexAll([word]) == Lex(word, "")
  {
    assert [word][1..] == [] && Lex(word, "").value + [] == Lex(word, "").value;
  }

  lemma TestWords()
    ensures forall i | 0 <= i < |MISSING| :: MISSING[i] != "" && AllPlain(MISSING[i])
    ensures forall i | 0 <= i < |CATALOGUE| :: CATALOGUE[i] != "" && AllPlain(CATALOGUE[i])
  {
  }

  lemma TestHasNoLiteral()
    ensures forall i | 0 <= i < |TEST| :: '\'' !in TEST[i]
  {
    TestWords();
    assert '\'' !in "(SELECT" && '\'' !in "=";
    forall i | 0 <= i < |TEST|
      ensures '\'' !in TEST[i]
    {
      assert TEST[i] in MISSING || TEST[i] == "(SELECT" || TEST[i] in CATALOGUE || TEST[i] == "=";
    }
  }

  lemma LexTestWords()
    ensures LexAll(TEST) == Some(TEST_TOKENS)
  {
    TestWords();
    LexPlainWords(MISSING);
    LexPlainWords(CATALOGUE);
    LexSelect();
    LexFour(MISSING, ["(SELECT"], CATALOGUE, ["="]);
  }

  lemma LexFour(a: seq<string>, b: seq<string>, c: seq<string>, d: seq<string>)
    ensures LexAll(a + (b + (c + d))) == Both(LexAll(a), Both(LexAll(b), Both(LexAll(c), LexAll(d))))
  {
    LexAllConcat(c, d);
    LexAllConcat(b, c + d);
    LexAllConcat(a, b + (c + d));
  }

  lemma RoleIsPlain()
    ensures Quote(ROLE) == ROLE
  {
    NothingToQuote(ROLE);
  }

  /** The test, up to the word that follows it. */
  lemma LexTest(rest: string)
    ensures Lex(TESTED + ("\n" + rest), "") ==
      Before(TEST_TOKENS + [Literal(ROLE), Mark(')'), Word("THEN")], Lex(rest, ""))
  {
    TestHasNoLiteral();
    LexTestWords();
    RoleIsPlain();
    TestedText(rest);
    LexTestParts(TEST, TEST_TOKENS, ROLE, rest);
  }

  lemma LexTestParts(words: seq<string>, tokens: seq<Token>, role: string, rest: string)
    requires words != [] && (forall i | 0 <= i < |words| :: '\'' !in words[i]) && LexAll(words) == Some(tokens)
    requires Quote(role) == role
    ensures
      Lex(Join(words, " ") + (" " + ("'" + (role + "'" + ([')'] + (" " + ("THEN" + ("\n" + rest))))))), "") ==
      Before(tokens + [Literal(role), Mark(')'), Word("THEN")], Lex(rest, ""))
  {
    var then_ := [')'] + (" " + ("THEN" + ("\n" + rest)));
    LexWords(words, "'" + (role + "'" + then_));
    LexLiteral(role, then_);
    LexThen(rest);
    var last := [Mark(')'), Word("THEN")];
    BothAssociates(Some([Literal(role)]), Some(last), Lex(rest, ""));
    BothAssociates(Some(tokens), Some([Literal(role)] + last), Lex(rest, ""));
    assert tokens + ([Literal(role)] + last) == tokens + [Literal(role), Mark(')'), Word("THEN")];
  }

  lemma LexThen(rest: string)
    ensures Lex([')'] + (" " + ("THEN" + ("\n" + rest))), "") == Before([Mark(')'), Word("THEN")], Lex(rest, ""))
  {
    LexMark(')', " " + ("THEN" + ("\n" + rest)));
    LexSpaces(" ", "THEN" + ("\n" + rest));
    LexSpace("THEN", '\n', rest, "");
    LexWord("THEN");
    BothAssociates(Some([Mark(')')]), Some([Word("THEN")]), Lex(rest, ""));
    assert [Mark(')')] + [Word("THEN")] == [Mark(')'), Word("THEN")];
  }

  lemma TestedText(rest: string)
    ensures TESTED + ("\n" + rest) ==
      Join(TEST, " ") + (" " + ("'" + (ROLE + "'" + ([')'] + (" " + ("THEN" + ("\n" + rest)))))))
  {
    assert " '" == " " + "'" && "') THEN" == "'" + [')'] + " " + "THEN";
    RegroupTested(Join(TEST, " "), " ", "'", ROLE, [')'], "THEN", "\n" + rest);
  }

  lemma RegroupTested(a: string, b: string, c: string, d: string, e: string, f: string, g: string)
    ensures a + (b + c) + d + (c + e + b + f) + g == a + (b + (c + (d + c + (e + (b + (f + g))))))
  {
  }

  const BEGINNING := [Word("BEGIN")]

  const OTHERWISE := [Mark(';'), Word("ELSE")]

  const ENDING := [Mark(';'), Word("END"), Word("IF"), Mark(';'), Word("END")]

  // The body from its parts, each with all that follows it.

  function EndText(): string {
    [';'] + ("\n  " + ("END" + (" " + ("IF" + [';'] + ("\n" + ("END" + ("\n" + "")))))))
  }

  function CommandText(words: string, quoted: string, rest: string): string {
    words + (" " + ("'" + (quoted + "'" + rest)))
  }

  function ElseText(rest: string): string {
    [';'] + ("\n  " + ("ELSE" + ("\n    " + rest)))
  }

  function BeginText(rest: string): string {
    "\n" + ("BEGIN" + ("\n  " + rest))
  }

  function BodyText(test: string, create: string, alter: string, quoted: string): string {
    BeginText(test + ("\n" + ("    "
      + CommandText(create, quoted, ElseText(CommandText(alter, quoted, EndText()))))))
  }

  lemma CreateText()
    ensures BEFORE_CREATE == "\n" + "BEGIN" + "\n  " + TESTED + ("\n" + "    ") + Create() + (" " + "'")
  {
    assert "\nBEGIN\n  " == "\n" + "BEGIN" + "\n  " && "\n    " == "\n" + "    " && " '" == " " + "'";
  }

  lemma AlterText()
    ensures BEFORE_ALTER == [';'] + "\n  " + "ELSE" + "\n    " + Alter() + (" " + "'")
  {
    assert ";\n  ELSE\n    " == [';'] + "\n  " + "ELSE" + "\n    " && " '" == " " + "'";
  }

  lemma LastText()
    ensures AFTER_ALTER == EndText()
  {
  }

  function Create(): string {
    Join(ChangeWords("CREATE"), " ")
  }

  function Alter(): string {
    Join(ChangeWords("ALTER"), " ")
  }

  lemma BodyIsText(password: string)
    ensures Body(password) == BodyText(TESTED, Create(), Alter(), Quote(password))
  {
    CreateText();
    AlterText();
    LastText();
    RegroupBody("\n", "BEGIN", "\n  ", TESTED, "    ", Create(), " ", "'", Quote(password),
      ElseText(CommandText(Alter(), Quote(password), EndText())));
    RegroupElse([';'], "\n  ", "ELSE", "\n    ", Alter(), " ", "'", Quote(password), EndText());
    RegroupAll(BEFORE_CREATE, Quote(password), "'", BEFORE_ALTER, AFTER_ALTER);
  }

  lemma RegroupAll(a: string, b: string, c: string, d: string, e: string)
    ensures a + b + c + d + b + c + e == a + (b + c + (d + (b + c + e)))
  {
  }

  lemma RegroupBody(
      a: string, b: string, c: string, d: string, e: string, f: string, g: string, h: string, i: string, j: string)
    ensures a + b + c + d + (a + e) + f + (g + h) + (i + h + j) ==
      a + (b + (c + (d + (a + (e + (f + (g + (h + (i + h + j)))))))))
  {
  }

  lemma RegroupElse(
      a: string, b: string, c: string, d: string, e: string, f: string, g: string, h: string, i: string)
    ensures a + b + c + d + e + (f + g) + (h + g + i) == a + (b + (c + (d + (e + (f + (g + (h + g + i)))))))
  {
  }

  lemma LexOneWord(word: string, spaces: string, rest: string)
    requires word != "" && AllPlain(word) && '\'' !in word
    requires spaces != "" && forall i | 0 <= i < |spaces| :: IsSpace(spaces[i])
    ensures Lex(word + (spaces + rest), "") == Before([Word(word)], Lex(rest, ""))
  {
    assert spaces + rest == [spaces[0]] + (spaces[1..] + rest);
    LexSpace(word, spaces[0], spaces[1..] + rest, "");
    LexSpaces(spaces[1..], rest);
    LexWord(word);
  }

  lemma LexBegin(rest: string)
    ensures Lex(BeginText(rest), "") == Before(BEGINNING, Lex(rest, ""))
  {
    LexSpaces("\n", "BEGIN" + ("\n  " + rest));
    LexOneWord("BEGIN", "\n  ", rest);
  }

  lemma LexElse(rest: string)
    ensures Lex(ElseText(rest), "") == Before(OTHERWISE, Lex(rest, ""))
  {
    var else_ := "ELSE" + ("\n    " + rest);
    LexMark(';', "\n  " + else_);
    LexSpaces("\n  ", else_);
    LexOneWord("ELSE", "\n    ", rest);
    BothAssociates(Some([Mark(';')]), Some([Word("ELSE")]), Lex(rest, ""));
    assert [Mark(';')] + [Word("ELSE")] == OTHERWISE;
  }

  lemma LexEnd()
    ensures Lex(EndText(), "") == Some(ENDING)
  {
    var last := "END" + ("\n" + "");
    var if_ := "IF" + [';'] + ("\n" + last);
    LexMark(';', "\n  " + ("END" + (" " + if_)));
    LexSpaces("\n  ", "END" + (" " + if_));
    LexOneWord("END", " ", if_);
    LexSpace("IF" + [';'], '\n', last, "");
    LexWordMark("IF", ';', "");
    assert "" + "IF" == "IF";
    LexOneWord("END", "\n", "");
    assert Lex("", "") == Some([]);
    assert [Word("END")] + [] == [Word("END")];
    assert Lex(last, "") == Some([Word("END")]);
    assert Lex(if_, "") == Some([Word("IF")] + [Mark(';')] + [Word("END")]);
    assert [Mark(';')] + ([Word("END")] + ([Word("IF")] + [Mark(';')] + [Word("END")])) == ENDING;
  }

  function BodyTokens(password: string): seq<Token> {
    BEGINNING + (TEST_TOKENS + [Literal(ROLE), Mark(')'), Word("THEN")])
    + ChangeTokens("CREATE", password) + OTHERWISE + ChangeTokens("ALTER", password) + ENDING
  }

  lemma LexAlter(password: string)
    ensures Lex(CommandText(Alter(), Quote(password), EndText()), "") ==
      Some(ChangeTokens("ALTER", password) + ENDING)
  {
    LexEnd();
    VerbsArePlain();
    LexChange("ALTER", password, EndText());
  }

  lemma VerbsArePlain()
    ensures AllPlain("CREATE") && AllPlain("ALTER")
  {
  }

  lemma ElseStarts(rest: string)
    ensures ElseText(rest) != "" && ElseText(rest)[0] == ';'
  {
  }

  lemma LexCreate(password: string, rest: string)
    ensures Lex("    " + CommandText(Create(), Quote(password), ElseText(rest)), "") ==
      Before(ChangeTokens("CREATE", password), Before(OTHERWISE, Lex(rest, "")))
  {
    LexElse(rest);
    VerbsArePlain();
    ElseStarts(rest);
    LexChange("CREATE", password, ElseText(rest));
    LexSpaces("    ", CommandText(Create(), Quote(password), ElseText(rest)));
  }

  lemma LexBody(password: string)
    ensures Lex(Body(password), "") == Some(BodyTokens(password))
  {
    var alter := CommandText(Alter(), Quote(password), EndText());
    var create := "    " + CommandText(Create(), Quote(password), ElseText(alter));
    BodyIsText(password);
    LexAlter(password);
    LexCreate(password, alter);
    LexTest(create);
    LexBegin(TESTED + ("\n" + create));
    Nest(
      BEGINNING, TEST_TOKENS + [Literal(ROLE), Mark(')'), Word("THEN")], ChangeTokens("CREATE", password), OTHERWISE,
      ChangeTokens("ALTER", password), ENDING);
  }

  lemma Nest(a: seq<Token>, b: seq<Token>, c: seq<Token>, d: seq<Token>, e: seq<Token>, f: seq<Token>)
    ensures a + (b + (c + (d + (e + f)))) == a + b + c + d + e + f
  {
  }

  // ---- what the template does ------------------------------------------

  const GRANTED: set<string> := {"LOGIN", "CREATEDB", "CREATEROLE"}

  const PROVISIONER := "centralcloud_provisioner"

  lemma CommandReads(password: string)
    ensures ReadChange(ChangeTokens("CREATE", password) + [Mark(';')]) ==
      Some(Change(true, PROVISIONER, GRANTED, password))
    ensures ReadChange(ChangeTokens("ALTER", password) + [Mark(';')]) ==
      Some(Change(false, PROVISIONER, GRANTED, password))
  {
    CommandTokens("CREATE", password);
    CommandTokens("ALTER", password);
  }

  lemma CommandTokens(verb: string, password: string)
    ensures ChangeTokens(verb, password) + [Mark(';')] == [
      Word(verb), Word("ROLE"), Word(PROVISIONER), Word("LOGIN"), Word("CREATEDB"), Word("CREATEROLE"),
      Word("PASSWORD"), Literal(password), Mark(';')]
  {
  }

  lemma TestReads()
    ensures WordTokens(MISSING) == [Word("IF"), Word("NOT"), Word("EXISTS")]
    ensures |TEST_TOKENS| == 11 && TEST_TOKENS[..3] == WordTokens(MISSING)
    ensures ReadTest(TEST_TOKENS[2..] + [Literal(ROLE), Mark(')')]) == Some(PROVISIONER)
  {
    var tokens := TEST_TOKENS[2..] + [Literal(ROLE), Mark(')')];
    assert WordTokens(CATALOGUE) == [Word("1"), Word("FROM"), Word("pg_roles"), Word("WHERE"), Word("rolname")];
    assert tokens[1..9] == [
      Mark('('), Word("SELECT"), Word("1"), Word("FROM"), Word("pg_roles"), Word("WHERE"), Word("rolname"), Mark('=')];
  }

  lemma BodyReads(password: string)
    ensures ReadBody(BodyTokens(password)) == Some(Choice(
      true, PROVISIONER, Change(true, PROVISIONER, GRANTED, password), Change(false, PROVISIONER, GRANTED, password)))
  {
    TestReads();
    CommandReads(password);
    BodyParts(TEST_TOKENS, Literal(ROLE), ChangeTokens("CREATE", password), ChangeTokens("ALTER", password));
  }

  lemma BodyParts(test: seq<Token>, role: Token, create: seq<Token>, alter: seq<Token>)
    requires |test| == 11 && test[..2] == [Word("IF"), Word("NOT")] && |create| == |alter| == 8
    ensures
      var tokens := BEGINNING + (test + [role, Mark(')'), Word("THEN")]) + create + OTHERWISE + alter + ENDING;
      ReadBody(tokens) ==
        match (
          ReadTest(test[2..] + [role, Mark(')')]), ReadChange(create + [Mark(';')]), ReadChange(alter + [Mark(';')]))
        case (Some(name), Some(first), Some(second)) => Some(Choice(true, name, first, second))
        case _ => None
  {
    var tokens := BEGINNING + (test + [role, Mark(')'), Word("THEN")]) + create + OTHERWISE + alter + ENDING;
    var tested, first, second := test[2..] + [role, Mark(')')], create + [Mark(';')], alter + [Mark(';')];
    var inner := tested + [Word("THEN")] + first + [Word("ELSE")] + second;
    var head, last := [Word("BEGIN")] + test[..2], [Word("END"), Word("IF"), Mark(';'), Word("END")];
    assert head == [Word("BEGIN"), Word("IF"), Word("NOT")];
    Regrouped(test, [role, Mark(')')], Word("THEN"), create, Word("ELSE"), alter, Mark(';'));
    assert ENDING == [Mark(';')] + last;
    assert tokens == head + inner + last;
    assert tokens[..2] == [Word("BEGIN"), Word("IF")] && tokens[2] == Word("NOT");
    assert tokens[34..] == last;
    assert tokens[3..34] == inner;
    assert inner[..11] == tested && inner[12..21] == first && inner[22..] == second;
  }

  lemma Regrouped(
      test: seq<Token>, role: seq<Token>, then_: Token, create: seq<Token>, else_: Token, alter: seq<Token>, end: Token)
    requires |test| >= 2
    ensures (test + (role + [then_])) + create + [end, else_] + alter + [end] ==
      test[..2] + ((test[2..] + role) + [then_] + (create + [end]) + [else_] + (alter + [end]))
  {
    assert test == test[..2] + test[2..];
  }

  lemma BodyMeaning(password: string, roles: Roles)
    ensures ExecuteBody(Body(password), roles) == Some(WithProvisioner(roles, password))
  {
    LexBody(password);
    BodyReads(password);
    ChoiceMeans(PROVISIONER, GRANTED, password, roles);
  }

  lemma ChoiceMeans(name: string, rights: set<string>, password: string, roles: Roles)
    ensures
      var choice := Choice(true, name, Change(true, name, rights, password), Change(false, name, rights, password));
      Choose(choice, roles) ==
        Some(roles[name := Role((if name in roles then roles[name].rights else {}) + rights, password)])
  {
    assert {} + rights == rights;
  }

  /** The provisioner can log in with the password and create databases and roles; what else it could do,
      and all other roles, stay. */
  function WithProvisioner(roles: Roles, password: string): Roles {
    var rights := if PROVISIONER in roles then roles[PROVISIONER].rights else {};
    roles[PROVISIONER := Role(rights + GRANTED, password)]
  }

  // ---- the end of the body ---------------------------------------------

  lemma {:induction false} UntilHere(body: string, tag: string, rest: string)
    requires tag != "" && !OccursBefore(body + tag + rest, |body|, tag)
    ensures Until(body + tag + rest, tag) == Some(body)
  {
    var text := body + tag + rest;
    if body == "" {
      assert text[..|tag|] == tag;
    } else {
      var later := body[1..] + tag + rest;
      assert text == [body[0]] + later;
      assert !OccursAt(text, tag, 0);
      forall i | 0 <= i < |body| - 1
        ensures !OccursAt(later, tag, i)
      {
        Shift([body[0]], later, tag, i);
        assert !OccursAt(text, tag, 1 + i);
      }
      UntilHere(body[1..], tag, rest);
      assert [body[0]] + body[1..] == body;
    }
  }

  lemma {:induction false} UntilSkips(s: string, rest: string, tag: string)
    requires tag != "" && tag[0] !in s
    ensures Until(s + rest, tag) == match Until(rest, tag) case Some(before) => Some(s + before) case None => None
  {
    if s == "" {
      assert s + rest == rest;
      assert Until(rest, tag).Some? ==> "" + Until(rest, tag).value == Until(rest, tag).value;
    } else {
      var text := s + rest;
      assert text[0] == s[0] && text[1..] == s[1..] + rest;
      UntilSkips(s[1..], rest, tag);
      assert Until(rest, tag).Some? ==> [s[0]] + (s[1..] + Until(rest, tag).value) == s + Until(rest, tag).value;
    }
  }

  /** A tag inside the password ends the text within the quoted value, behind whole characters of it. */
  lemma {:induction false} UntilInQuote(value: string, tag: string, rest: string) returns (k: nat)
    requires tag != "" && '\'' !in tag && Contains(value, tag)
    ensures k <= |value| && Until(Quote(value) + rest, tag) == Some(Quote(value[..k]))
  {
    var text := Quote(value) + rest;
    QuoteKeepsPrefix(value, tag);
    if tag <= value {
      k := 0;
      assert value[..0] == "";
      assert tag <= text;
    } else {
      BehindTheFirst(value, tag);
      QuoteIsLonger(value);
      assert !(tag <= text);
      NotAtQuote(value, tag, rest);
      var later := UntilInQuote(value[1..], tag, rest);
      k := later + 1;
      assert value[..k][1..] == value[1..][..later];
      Uncons(value[..k]);
    }
  }

  lemma BehindTheFirst(value: string, tag: string)
    requires Contains(value, tag) && !(tag <= value)
    ensures value != "" && Contains(value[1..], tag) && |value| >= |tag|
  {
    var i :| 0 <= i <= |value| && OccursAt(value, tag, i);
    assert i > 0 && value == [value[0]] + value[1..];
    Shift([value[0]], value[1..], tag, i - 1);
    assert OccursAt(value[1..], tag, i - 1);
  }

  lemma QuoteIsLonger(value: string)
    ensures |Quote(value)| >= |value|
  {
  }

  /** One step over the character in front, or the two that stand for a quote. */
  lemma NotAtQuote(value: string, tag: string, rest: string)
    requires value != "" && tag != "" && '\'' !in tag && !(tag <= Quote(value) + rest)
    ensures
      var later := Quote(value[1..]) + rest;
      Until(Quote(value) + rest, tag) ==
        match Until(later, tag) case Some(before) => Some(QuoteOf(value[0]) + before) case None => None
  {
    UnconsRest(value, rest);
    if value[0] == '\'' {
      UntilTwo(Quote(value[1..]) + rest, tag);
    } else {
      UntilOne(value[0], Quote(value[1..]) + rest, tag);
    }
  }

  lemma UnconsRest(value: string, rest: string)
    requires value != ""
    ensures Quote(value) + rest == QuoteOf(value[0]) + (Quote(value[1..]) + rest)
  {
    Uncons(value);
    Associates(QuoteOf(value[0]), Quote(value[1..]), rest);
  }

  lemma Associates(a: string, b: string, c: string)
    ensures a + b + c == a + (b + c)
  {
  }

  lemma UntilTwo(later: string, tag: string)
    requires tag != "" && '\'' !in tag
    ensures Until("''" + later, tag) ==
      match Until(later, tag) case Some(before) => Some("''" + before) case None => None
  {
    assert tag[0] in tag;
    UntilSkips("''", later, tag);
  }

  lemma UntilOne(c: char, later: string, tag: string)
    requires !(tag <= [c] + later)
    ensures Until([c] + later, tag) ==
      match Until(later, tag) case Some(before) => Some([c] + before) case None => None
  {
    assert ([c] + later)[1..] == later;
  }

  lemma {:induction false} ScanNeedsItsEnd(value: string)
    ensures Scan(Quote(value)).None?
  {
    if value != "" {
      ScanNeedsItsEnd(value[1..]);
      Uncons(value);
      var head, later := QuoteOf(value[0]), Quote(value[1..]);
      assert (head + later)[|head|..] == later;
    }
  }

  /** A body that ends inside its first literal is no body. */
  lemma CutBodyIsRefused(part: string, roles: Roles)
    ensures ExecuteBody(BEFORE_CREATE + Quote(part), roles).None?
  {
    CreateText();
    RegroupCut("\n", "BEGIN", "\n  ", TESTED, "    ", Create(), " ", "'", Quote(part));
    var create := Create() + (" " + ("'" + Quote(part)));
    CutCommand(part);
    LexSpaces("    ", create);
    LexTest("    " + create);
    LexBegin(TESTED + ("\n" + ("    " + create)));
    assert BEFORE_CREATE + Quote(part) == BeginText(TESTED + ("\n" + ("    " + create)));
  }

  lemma CutCommand(part: string)
    ensures Lex(Create() + (" " + ("'" + Quote(part))), "").None?
  {
    Unclosed(part);
    ChangeIsPlain("CREATE");
    NothingBehind(ChangeWords("CREATE"), "'" + Quote(part));
  }

  lemma Unclosed(part: string)
    ensures Lex("'" + Quote(part), "").None?
  {
    ScanNeedsItsEnd(part);
    assert ("'" + Quote(part))[1..] == Quote(part);
  }

  lemma NothingBehind(words: seq<string>, rest: string)
    requires words != [] && (forall i | 0 <= i < |words| :: words[i] != "" && AllPlain(words[i]))
    requires Lex(rest, "").None?
    ensures Lex(Join(words, " ") + (" " + rest), "").None?
  {
    LexWords(words, rest);
    LexPlainWords(words);
  }

  lemma RegroupCut(
      a: string, b: string, c: string, d: string, e: string, f: string, g: string, h: string, i: string)
    ensures a + b + c + d + (a + e) + f + (g + h) + i == a + (b + (c + (d + (a + (e + (f + (g + (h + i))))))))
  {
  }

  /** The statement gives the role its password and its rights, whether it was there or not, exactly if
      the password does not contain the tag; with the tag it is refused. */
  lemma SqlMeaning(password: string, roles: Roles)
    ensures !Contains(password, TAG) ==> Execute(Sql(password), roles) == Some(WithProvisioner(roles, password))
    ensures Contains(password, TAG) ==> Execute(Sql(password), roles).None?
  {
    OpeningIsRead(password);
    if Contains(password, TAG) {
      CutAtTag(password, roles);
    } else {
      TagInBody(password);
      TagShape();
      assert Rest(password) == Body(password) + TAG + ";\n";
      UntilHere(Body(password), TAG, ";\n");
      BodyMeaning(password, roles);
    }
  }

  lemma OpeningIsRead(password: string)
    ensures HasPrefix(Sql(password), "DO $centralcloud$") && Sql(password)[17..] == Rest(password)
  {
    assert OPENING == "DO $centralcloud$" && |OPENING| == 17;
  }

  lemma CutAtTag(password: string, roles: Roles)
    requires Contains(password, TAG)
    ensures Until(Rest(password), TAG).Some? && ExecuteBody(Until(Rest(password), TAG).value, roles).None?
  {
    var later := "'" + BEFORE_ALTER + Quote(password) + "'" + AFTER_ALTER + TAG + ";\n";
    RegroupRest(BEFORE_CREATE, Quote(password), "'", BEFORE_ALTER, AFTER_ALTER, TAG, ";\n");
    TagShape();
    TemplateHasNoDollar();
    var k := UntilInQuote(password, TAG, later);
    UntilSkips(BEFORE_CREATE, Quote(password) + later, TAG);
    CutBodyIsRefused(password[..k], roles);
  }

  lemma RegroupRest(a: string, b: string, c: string, d: string, e: string, f: string, g: string)
    ensures a + b + c + d + b + c + e + f + g == a + (b + (c + d + b + c + e + f + g))
  {
  }
}
