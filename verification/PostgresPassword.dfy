/** internal/postgresql: the provisioner's password, its quoting into SQL, and its file. */
module PostgresPassword {
  import opened Wrappers
  import opened Text
  import opened Files

  // ---- quoting ---------------------------------------------------------

  /** `strings.ReplaceAll` of one quote by two. */
  function Quote(value: string): string {
    if value == "" then ""
    else (if value[0] == '\'' then "''" else [value[0]]) + Quote(value[1..])
  }

  /** A string literal read from behind its opening quote under standard-conforming strings
      (PostgreSQL 17 documentation, section 4.1.2.1): its value, and the text behind the closing quote. */
  function Scan(text: string): Option<(string, string)> {
    if text == "" then None
    else if text[0] != '\'' then Prepend(text[0], Scan(text[1..]))
    else if |text| > 1 && text[1] == '\'' then Prepend('\'', Scan(text[2..]))
    else Some(("", text[1..]))
  }

  function Prepend(c: char, scanned: Option<(string, string)>): Option<(string, string)> {
    match scanned
    case None => None
    case Some((value, rest)) => Some(([c] + value, rest))
  }

  /** Scanning a quoted value gives it back, and stops at the quote that the template closes it with. */
  lemma {:induction false} ScanQuote(value: string, rest: string)
    requires rest != "" ==> rest[0] != '\''
    ensures Scan(Quote(value) + "'" + rest) == Some((value, rest))
  {
    var text := Quote(value) + "'" + rest;
    if value == "" {
      assert text == "'" + rest;
      assert text[1..] == rest;
    } else {
      var later := Quote(value[1..]) + "'" + rest;
      ScanQuote(value[1..], rest);
      assert [value[0]] + value[1..] == value;
      if value[0] == '\'' {
        assert text == "''" + later;
        assert text[2..] == later;
      } else {
        assert text == [value[0]] + later;
        assert text[1..] == later;
      }
    }
  }

  // ---- the template ----------------------------------------------------

  const TAG := "$centralcloud$"

  const ROLE := "centralcloud_provisioner"

  const MISSING: seq<string> := ["IF", "NOT", "EXISTS"]

  const CATALOGUE: seq<string> := ["1", "FROM", "pg_roles", "WHERE", "rolname"]

  const TEST: seq<string> := MISSING + (["(SELECT"] + (CATALOGUE + ["="]))

  /** The words of a command up to the literal for the password. */
  function ChangeWords(verb: string): seq<string> {
    [verb, "ROLE", ROLE, "LOGIN", "CREATEDB", "CREATEROLE", "PASSWORD"]
  }

  const TESTED := Join(TEST, " ") + " '" + ROLE + "') THEN"

  const BEFORE_CREATE := "\nBEGIN\n  " + TESTED + "\n    " + Join(ChangeWords("CREATE"), " ") + " '"

  const BEFORE_ALTER := ";\n  ELSE\n    " + Join(ChangeWords("ALTER"), " ") + " '"

  const AFTER_ALTER := ";\n  END IF;\nEND\n"

  function Body(password: string): string {
    BEFORE_CREATE + Quote(password) + "'" + BEFORE_ALTER + Quote(password) + "'" + AFTER_ALTER
  }

  const OPENING := "DO " + TAG

  /** The text behind the tag that opens the body. */
  function Rest(password: string): string {
    Body(password) + TAG + ";\n"
  }

  function Sql(password: string): string {
    OPENING + Rest(password)
  }

  /** Quoting changes nothing that a text without quotes could notice: it starts the quoted value
      exactly when it starts the value ... */
  lemma {:induction false} QuoteKeepsPrefix(value: string, t: string)
    requires '\'' !in t
    ensures t <= Quote(value) <==> t <= value
  {
    if value != "" && t != "" {
      assert t[0] in t && t == [t[0]] + t[1..] && value == [value[0]] + value[1..];
      if value[0] != '\'' {
        assert Quote(value) == [value[0]] + Quote(value[1..]);
        QuoteKeepsPrefix(value[1..], t[1..]);
        assert t <= Quote(value) <==> t[0] == value[0] && t[1..] <= Quote(value[1..]);
        assert t <= value <==> t[0] == value[0] && t[1..] <= value[1..];
      }
    }
  }

  lemma OccursIsPrefix(s: string, t: string, i: nat)
    requires i <= |s|
    ensures OccursAt(s, t, i) <==> t <= s[i..]
  {
  }

  lemma Shift(head: string, s: string, t: string, i: nat)
    ensures OccursAt(head + s, t, |head| + i) <==> OccursAt(s, t, i)
  {
    if i + |t| <= |s| {
      assert (head + s)[|head| + i..|head| + i + |t|] == s[i..i + |t|];
    }
  }

  function QuoteOf(c: char): string {
    if c == '\'' then "''" else [c]
  }

  lemma Uncons(value: string)
    requires value != ""
    ensures Quote(value) == QuoteOf(value[0]) + Quote(value[1..]) && value == [value[0]] + value[1..]
  {
  }

  lemma {:induction false} OccursInQuote(value: string, t: string, i: nat)
    requires t != "" && '\'' !in t && OccursAt(Quote(value), t, i)
    ensures Contains(value, t)
  {
    if i == 0 {
      QuoteKeepsPrefix(value, t);
      OccursIsPrefix(value, t, 0);
    } else {
      var head, rest := QuoteOf(value[0]), Quote(value[1..]);
      Uncons(value);
      assert t[0] in t && Quote(value)[i] == t[0];
      assert head == "''" ==> Quote(value)[1] == '\'';
      Shift(head, rest, t, i - |head|);
      OccursInQuote(value[1..], t, i - |head|);
      var j :| 0 <= j <= |value[1..]| && OccursAt(value[1..], t, j);
      Shift([value[0]], value[1..], t, j);
    }
  }

  lemma {:induction false} OccursInValue(value: string, t: string, i: nat)
    requires t != "" && '\'' !in t && OccursAt(value, t, i)
    ensures Contains(Quote(value), t)
  {
    if i == 0 {
      QuoteKeepsPrefix(value, t);
      OccursIsPrefix(Quote(value), t, 0);
    } else {
      var head, rest := QuoteOf(value[0]), Quote(value[1..]);
      Uncons(value);
      Shift([value[0]], value[1..], t, i - 1);
      OccursInValue(value[1..], t, i - 1);
      var j :| 0 <= j <= |rest| && OccursAt(rest, t, j);
      Shift(head, rest, t, j);
      assert OccursAt(Quote(value), t, |head| + j);
    }
  }

  /** ... and occurs in the one exactly when it occurs in the other. */
  lemma QuoteKeepsOccurrences(value: string, t: string)
    requires t != "" && '\'' !in t
    ensures Contains(Quote(value), t) <==> Contains(value, t)
  {
    if Contains(Quote(value), t) {
      var i :| 0 <= i <= |Quote(value)| && OccursAt(Quote(value), t, i);
      OccursInQuote(value, t, i);
    }
    if Contains(value, t) {
      var i :| 0 <= i <= |value| && OccursAt(value, t, i);
      OccursInValue(value, t, i);
    }
  }

  lemma ChangeHasNoDollar(verb: string)
    requires '$' !in verb
    ensures '$' !in Join(ChangeWords(verb), " ")
  {
    JoinKeepsOut(ChangeWords(verb), " ", '$');
  }

  lemma TestHasNoDollar()
    ensures '$' !in TESTED
  {
    JoinKeepsOut(TEST, " ", '$');
    assert '$' !in " '" && '$' !in ROLE && '$' !in "') THEN";
  }

  lemma TemplateHasNoDollar()
    ensures '$' !in BEFORE_CREATE && '$' !in BEFORE_ALTER && '$' !in AFTER_ALTER
  {
    TestHasNoDollar();
    ChangeHasNoDollar("CREATE");
    ChangeHasNoDollar("ALTER");
    assert '$' !in "\nBEGIN\n  " && '$' !in "\n    " && '$' !in " '" && '$' !in ";\n  ELSE\n    ";
  }

  function Framed(pre: string, q: string, mid: string, end: string, tail: string): string {
    pre + q + mid + q + end + tail
  }

  lemma Parts(pre: string, q: string, mid: string, end: string, tail: string)
    ensures
      var text, second := Framed(pre, q, mid, end, tail), |pre| + |q| + |mid|;
      && |text| == second + |q| + |end| + |tail|
      && text[|pre|..|pre| + |q|] == q && text[second..second + |q|] == q
  {
    var a, b, c := pre + q, pre + q + mid, pre + q + mid + q;
    assert a[|pre|..] == q && c[|b|..] == q;
    assert Framed(pre, q, mid, end, tail) == c + (end + tail);
    assert c[..|a|] == a;
  }

  /** A character before the tail is in one of the two quoted parts, or occurs in the frame. */
  lemma CharacterPlace(pre: string, q: string, mid: string, end: string, tail: string, k: nat)
    requires k < |pre| + |q| + |mid| + |q| + |end|
    ensures
      var text, second := Framed(pre, q, mid, end, tail), |pre| + |q| + |mid|;
      || |pre| <= k < |pre| + |q| || second <= k < second + |q|
      || text[k] in pre || text[k] in mid || text[k] in end
  {
    var a, b, c := pre + q, pre + q + mid, pre + q + mid + q;
    var d := c + end;
    assert Framed(pre, q, mid, end, tail)[k] == d[k];
    if k >= |c| {
      assert d[k] == end[k - |c|];
    } else if k < |b| {
      assert d[k] == b[k];
    }
  }

  lemma InPart(text: string, q: string, at: nat, t: string, i: nat)
    requires at + |q| <= |text| && text[at..at + |q|] == q && i + |t| <= |q|
    ensures OccursAt(text, t, at + i) <==> OccursAt(q, t, i)
  {
    var inner, outer := q[i..i + |t|], text[at + i..at + i + |t|];
    forall j | 0 <= j < |t|
      ensures inner[j] == outer[j]
    {
      assert text[at..at + |q|][i + j] == text[at + (i + j)];
    }
    assert inner == outer;
  }

  lemma InFrame(pre: string, q: string, mid: string, end: string, tail: string, t: string, i: nat)
    requires OccursAt(q, t, i)
    ensures OccursAt(Framed(pre, q, mid, end, tail), t, |pre| + i)
  {
    Parts(pre, q, mid, end, tail);
    InPart(Framed(pre, q, mid, end, tail), q, |pre|, t, i);
  }

  /** A tag that starts and ends with a dollar sign fits only into the parts that may hold one. */
  lemma TagIsInsideOnePart(pre: string, q: string, mid: string, end: string, tail: string, tag: string, i: nat)
    requires tag != "" && tag[0] == tag[|tag| - 1] == '$' && |mid| >= |tag| && |end| >= |tag|
    requires '$' !in pre && '$' !in mid && '$' !in end
    requires i < |pre| + |q| + |mid| + |q| + |end| && OccursAt(Framed(pre, q, mid, end, tail), tag, i)
    ensures Contains(q, tag)
  {
    var text, last, second := Framed(pre, q, mid, end, tail), i + |tag| - 1, |pre| + |q| + |mid|;
    assert text[i] == text[i..i + |tag|][0] && text[last] == text[i..i + |tag|][|tag| - 1];
    CharacterPlace(pre, q, mid, end, tail, i);
    if last < second + |q| + |end| {
      CharacterPlace(pre, q, mid, end, tail, last);
    }
    Parts(pre, q, mid, end, tail);
    var at := if i < |pre| + |q| then |pre| else second;
    InPart(text, q, at, tag, i - at);
  }

  /** The text behind the tag that opens the body, in its parts. */
  lemma BodyIsFramed(password: string)
    ensures Rest(password) ==
      Framed(BEFORE_CREATE, Quote(password), "'" + BEFORE_ALTER, "'" + AFTER_ALTER, TAG + ";\n")
    ensures |Body(password)| ==
      |BEFORE_CREATE| + |Quote(password)| + |"'" + BEFORE_ALTER| + |Quote(password)| + |"'" + AFTER_ALTER|
  {
    Flatten(BEFORE_CREATE, Quote(password), "'", BEFORE_ALTER, AFTER_ALTER, TAG, ";\n");
  }

  lemma Flatten(a: string, b: string, c: string, d: string, e: string, f: string, g: string)
    ensures a + b + c + d + b + c + e == a + b + (c + d) + b + (c + e)
    ensures a + b + c + d + b + c + e + f + g == a + b + (c + d) + b + (c + e) + (f + g)
  {
  }

  lemma TagShape()
    ensures |TAG| == 14 && TAG[0] == TAG[13] == '$' && '\'' !in TAG
    ensures |BEFORE_ALTER| >= 14 && |AFTER_ALTER| >= 14
  {
    assert |";\n  ELSE\n    "| == 13;
  }

  predicate OccursBefore(text: string, n: nat, t: string) {
    exists i | 0 <= i < n :: OccursAt(text, t, i)
  }

  predicate OccursBetween(text: string, from: nat, to: nat, t: string) {
    exists i | from <= i < to :: OccursAt(text, t, i)
  }

  lemma OccursBehind(head: string, s: string, n: nat, t: string)
    ensures OccursBetween(head + s, |head|, |head| + n, t) <==> OccursBefore(s, n, t)
  {
    if OccursBetween(head + s, |head|, |head| + n, t) {
      var i :| |head| <= i < |head| + n && OccursAt(head + s, t, i);
      Shift(head, s, t, i - |head|);
      assert OccursAt(s, t, i - |head|);
    }
    if OccursBefore(s, n, t) {
      var i :| 0 <= i < n && OccursAt(s, t, i);
      Shift(head, s, t, i);
      assert OccursAt(head + s, t, |head| + i);
    }
  }

  /** The dollar-quoted body is closed before the template closes it. */
  predicate ClosesEarly(password: string) {
    OccursBetween(Sql(password), |OPENING|, |OPENING| + |Body(password)|, TAG)
  }

  lemma TagInFrame(pre: string, q: string, mid: string, end: string, tail: string, tag: string)
    requires tag != "" && tag[0] == tag[|tag| - 1] == '$' && |mid| >= |tag| && |end| >= |tag|
    requires '$' !in pre && '$' !in mid && '$' !in end
    ensures OccursBefore(Framed(pre, q, mid, end, tail), |pre| + |q| + |mid| + |q| + |end|, tag) <==> Contains(q, tag)
  {
    var text, n := Framed(pre, q, mid, end, tail), |pre| + |q| + |mid| + |q| + |end|;
    if OccursBefore(text, n, tag) {
      var i :| 0 <= i < n && OccursAt(text, tag, i);
      TagIsInsideOnePart(pre, q, mid, end, tail, tag, i);
    }
    if Contains(q, tag) {
      var i :| 0 <= i <= |q| && OccursAt(q, tag, i);
      InFrame(pre, q, mid, end, tail, tag, i);
      assert OccursAt(text, tag, |pre| + i);
    }
  }

  lemma TagInBody(password: string)
    ensures OccursBefore(Rest(password), |Body(password)|, TAG) <==> Contains(password, TAG)
  {
    BodyIsFramed(password);
    TagShape();
    TemplateHasNoDollar();
    QuoteKeepsOccurrences(password, TAG);
    TagInFrame(BEFORE_CREATE, Quote(password), "'" + BEFORE_ALTER, "'" + AFTER_ALTER, TAG + ";\n", TAG);
  }

  /** The password closes the body early exactly when it contains the whole tag; without a dollar sign
      it cannot. */
  lemma OnlyTheTagClosesEarly(password: string)
    ensures ClosesEarly(password) <==> Contains(password, TAG)
    ensures '$' !in password ==> !ClosesEarly(password)
  {
    OccursBehind(OPENING, Rest(password), |Body(password)|, TAG);
    TagInBody(password);
    TagShape();
    if Contains(password, TAG) {
      var i :| 0 <= i <= |password| && OccursAt(password, TAG, i);
      assert password[i] == TAG[0];
    }
  }

  /** What follows the first literal in the body. */
  function AfterCreate(password: string): string {
    BEFORE_ALTER + (Quote(password) + "'" + AFTER_ALTER)
  }

  lemma BodySplits(password: string)
    ensures Body(password) == BEFORE_CREATE + (Quote(password) + "'" + AfterCreate(password))
    ensures AfterCreate(password)[|BEFORE_ALTER|..] == Quote(password) + "'" + AFTER_ALTER
    ensures AfterCreate(password)[0] == ';'
  {
    Regroup(BEFORE_CREATE, Quote(password), "'", BEFORE_ALTER, AFTER_ALTER);
    assert BEFORE_ALTER[0] == ';';
  }

  lemma Regroup(a: string, b: string, c: string, d: string, e: string)
    ensures a + b + c + d + b + c + e == a + (b + c + (d + (b + c + e)))
  {
  }

  /** Inside the body both literals stand for the password: the one that creates the role, and the one
      that alters it. */
  lemma BothLiteralsArePassword(password: string)
    ensures Body(password)[..|BEFORE_CREATE|] == BEFORE_CREATE
    ensures Scan(Body(password)[|BEFORE_CREATE|..]) == Some((password, AfterCreate(password)))
    ensures AfterCreate(password)[..|BEFORE_ALTER|] == BEFORE_ALTER
    ensures Scan(AfterCreate(password)[|BEFORE_ALTER|..]) == Some((password, AFTER_ALTER))
  {
    BodySplits(password);
    ScanQuote(password, AfterCreate(password));
    ScanQuote(password, AFTER_ALTER);
  }

  // ---- the password file -----------------------------------------------

  predicate UrlSafe(s: string) {
    forall c | c in s :: 'a' <= c <= 'z' || 'A' <= c <= 'Z' || '0' <= c <= '9' || c == '-' || c == '_'
  }

  /** The base64url text of 48 random bytes. */
  predicate IsRandomText(value: string) {
    |value| == 64 && UrlSafe(value)
  }

  predicate LongEnough(held: string) {
    |held| >= 32
  }

  /** What the file may hold once a call has ended, anywhere: what it held before; or, if there was no
      file, the start of a new password. The file is created empty and then written. */
  ghost predicate CreationLeaves(before: Option<string>, after: Option<string>) {
    after == before
    || (before.None? && after.Some? && exists value :: IsRandomText(value) && after.value <= value + "\n")
  }

  /** The password returned is the one that the file holds, and a file that was there is not touched. */
  method EnsurePassword(disk: Disk, path: Path, random: Option<string>) returns (password: Option<string>)
    requires disk.Valid() && path.Named? && (random.Some? ==> IsRandomText(random.value))
    modifies disk
    ensures disk.Valid() && old(|disk.trail|) <= |disk.trail| && disk.trail[..old(|disk.trail|)] == old(disk.trail)
    ensures password.Some? ==>
      path in disk.files && LongEnough(disk.files[path].data) && password.value == TrimSpace(disk.files[path].data)
    // When no operation fails, only a file that is there and too short does.
    ensures disk.Healthy() ==>
      (password.Some? <==> if path in old(disk.files) then LongEnough(old(disk.files)[path].data) else random.Some?)
    ensures path in old(disk.files) ==> disk.files == old(disk.files)
    ensures path in old(disk.files) && !LongEnough(old(disk.files)[path].data) ==> password.None?
    ensures path !in old(disk.files) && password.Some? ==>
      password == random && disk.files[path].mode == 0x180 && Quote(password.value) == password.value
    ensures path !in old(disk.files) && password.Some? ==>
      disk.files[path].data == password.value + "\n" && !disk.files[path].synced
    // A call that creates the password goes through every beginning of it, the empty one first.
    ensures path !in old(disk.files) && password.Some? ==>
      forall part | part <= password.value + "\n" :: Passes(disk.trail, old(|disk.trail|), path, part)
    // Wherever a call ends, this is what it may have left.
    ensures CreationLeaves(DataAt(old(disk.files), path), DataAt(disk.files, path))
    ensures forall k | old(|disk.trail|) <= k < |disk.trail| ::
      && CreationLeaves(DataAt(old(disk.files), path), DataAt(disk.trail[k], path))
      && forall p | p != path :: SameAt(old(disk.files), disk.trail[k], p)
    ensures forall p | p != path :: SameAt(old(disk.files), disk.files, p)
  {
    if path in disk.files {
      var ok := disk.Other();
      if !ok || !LongEnough(disk.files[path].data) {
        return None;
      }
      return Some(TrimSpace(disk.files[path].data));
    }
    if random.None? {
      return None;
    }
    var value := random.value;
    var ok := disk.WriteFile(path, value + "\n", 0x180);
    if !ok {
      return None;
    }
    TrimNewline(value);
    NothingToQuote(value);
    return Some(value);
  }

  /** A file that was left too short is never repaired: no call ever succeeds again, whatever else fails
      or works. A creation that died right after it truncated the file leaves the empty one. */
  method RetryShortFile(disk: Disk, path: Path, randoms: seq<Option<string>>) returns (ok: bool)
    requires disk.Valid() && path.Named? && path in disk.files && !LongEnough(disk.files[path].data)
    requires forall i | 0 <= i < |randoms| && randoms[i].Some? :: IsRandomText(randoms[i].value)
    modifies disk
    ensures !ok && disk.files == old(disk.files)
  {
    ok := false;
    for i := 0 to |randoms|
      invariant disk.Valid() && disk.files == old(disk.files) && !ok
    {
      var password := EnsurePassword(disk, path, randoms[i]);
      ok := ok || password.Some?;
    }
  }

  /** A creation cut short after `n` characters can be retried exactly from the thirty-second on. */
  lemma CutShortIsRetryable(value: string, n: nat)
    requires IsRandomText(value) && n <= |value + "\n"|
    ensures CreationLeaves(None, Some((value + "\n")[..n]))
    ensures LongEnough((value + "\n")[..n]) <==> n >= 32
  {
    assert (value + "\n")[..n] <= value + "\n";
  }

  lemma TrimNewline(value: string)
    requires value != "" && UrlSafe(value)
    ensures TrimSpace(value + "\n") == value
  {
    assert value[0] in value && value[|value| - 1] in value;
    TrimKeepsCore(value, "\n");
    assert "\n"[..0] == "" && TrimRight("\n") == TrimRight("");
    assert value + "" == value;
  }

  lemma {:induction false} NothingToQuote(value: string)
    requires UrlSafe(value)
    ensures Quote(value) == value
  {
    if value != "" {
      assert value[0] in value && value == [value[0]] + value[1..];
      assert forall c | c in value[1..] :: c in value;
      NothingToQuote(value[1..]);
    }
  }

  /** A first call that ended anywhere, and a later one that meets no fault. A password once returned is
      returned again; a call that failed can be made good exactly if it left no file, or one of at
      least 32 characters. */
  method EnsureTwice(disk: Disk, path: Path, random: Option<string>, other: string)
    returns (first: Option<string>, left: Option<string>, second: Option<string>)
    requires disk.Valid() && path.Named? && (random.Some? ==> IsRandomText(random.value)) && IsRandomText(other)
    modifies disk
    ensures CreationLeaves(DataAt(old(disk.files), path), left)
    ensures first.Some? ==> second == first
    ensures second.Some? <==> left.None? || LongEnough(left.value)
  {
    first := EnsurePassword(disk, path, random);
    left := DataAt(disk.files, path);
    var later := new Disk.After(disk, _ => Done);
    second := EnsurePassword(later, path, Some(other));
  }
}
