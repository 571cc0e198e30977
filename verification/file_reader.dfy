/**
 * The reader's top level: the optional `Version` and `HierarchyVersion` header lines, then
 * `entity {` blocks, split by brace counting and handed one at a time to the entity parser.
 */
module FileReader {
  import opened Optional
  import opened Text
  import opened Model
  import opened Names
  import opened EntityDefParser
  import opened EntityParser

  /** The state of the line loop: the header values read so far, the brace-line counts of the
      entity block being collected, the pending "missing `{`" flag, the block's lines and the
      entities kept so far. */
  datatype Reader = Reader(
    version: string,
    hierarchyVersion: string,
    open: int,
    closed: int,
    nextEntityError: bool,
    current: seq<string>,
    entities: seq<Entity>)

  const Initial := Reader("", "", 0, 0, false, [], [])

  /** Between lines: with no block held both counts are zero, a held block is still open,
      the flag is clear, and every kept entity has a valid entityDef. */
  predicate Valid(s: Reader) {
    && (s.current == [] ==> s.open == 0 && s.closed == 0)
    && (s.current != [] ==> s.open > s.closed >= 0)
    && !s.nextEntityError
    && forall k :: 0 <= k < |s.entities| ==> HasDef(s.entities[k])
  }

  predicate HasDef(e: Entity) {
    e.entityDef.Some? && IsValidEntityDefName(e.entityDef.value.name)
  }

  /** Keeps a parsed entity only when it has an entityDef. */
  function Keep(entities: seq<Entity>, e: Entity): (r: seq<Entity>)
    requires forall k :: 0 <= k < |entities| ==> HasDef(entities[k])
    requires e.entityDef.Some? ==> IsValidEntityDefName(e.entityDef.value.name)
    ensures forall k :: 0 <= k < |r| ==> HasDef(r[k])
    ensures r == if e.entityDef.Some? then entities + [e] else entities
  {
    if e.entityDef.Some? then entities + [e] else entities
  }

  /** A two-token header line `Version V` or `HierarchyVersion H`. */
  predicate IsVersionLine(line: string) {
    |Split(line, ' ')| == 2 && Split(line, ' ')[0] == "Version"
  }

  predicate IsHierarchyVersionLine(line: string) {
    |Split(line, ' ')| == 2 && Split(line, ' ')[0] == "HierarchyVersion"
  }

  /** The header test runs while the version is unset, or while the hierarchy version is
      unset and no block is open: `||` binds looser than `&&`. */
  predicate HeaderTest(s: Reader) {
    s.version == "" || (s.hierarchyVersion == "" && s.open == 0)
  }

  predicate IsEntityOpener(line: string) {
    line == "entity {" || line == "entity{"
  }

  /** One line of the file, with the diagnostics it adds. */
  function Step(s: Reader, raw: string, dp: DoubleParser): (r: Parsed<Reader>)
    requires Valid(s)
    ensures r.Done? ==> Valid(r.value)
    ensures r.Done? ==> |s.entities| <= |r.value.entities| <= |s.entities| + 1 && r.value.entities[..|s.entities|] == s.entities
    ensures AllWhiteSpace(raw) ==> r == Done(s, [])
  {
    var line := Trim(raw);
    if line == "" then Done(s, [])
    else if HeaderTest(s) && IsVersionLine(line) then Done(s.(version := Split(line, ' ')[1]), [])
    else if HeaderTest(s) && IsHierarchyVersionLine(line) then Done(s.(hierarchyVersion := Split(line, ' ')[1]), [])
    else if s.open == 0 then Outside(s, line)
    else Inside(s, line, dp)
  }

  /** A non-blank line outside any block: only an entity opener starts one. */
  function Outside(s: Reader, line: string): (r: Parsed<Reader>)
    requires Valid(s) && s.open == 0
    ensures r.Done? && Valid(r.value) && r.value.entities == s.entities
    ensures IsEntityOpener(line) <==> r.value.current != []
    ensures IsEntityOpener(line) ==> r == Done(s.(current := [line], open := 1, closed := 0), [])
    ensures !IsEntityOpener(line) ==> r == Done(s, [if line == "entity" then MissingOpenBrace else Unexpected(line)])
  {
    if !IsEntityOpener(line) then Done(s, [if line == "entity" then MissingOpenBrace else Unexpected(line)])
    else
      assert s.current + [line] == [line];
      Done(s.(current := s.current + [line], open := 1, closed := 0), [])
  }

  /** A non-blank line inside a block: it extends the block, closes it (and the block is
      parsed), or starts the next entity (and the held block is parsed as it is). */
  function Inside(s: Reader, line: string, dp: DoubleParser): (r: Parsed<Reader>)
    requires Valid(s) && s.open != 0 && line != ""
    ensures r.Done? ==> Valid(r.value)
    ensures r.Done? ==> |s.entities| <= |r.value.entities| <= |s.entities| + 1 && r.value.entities[..|s.entities|] == s.entities
  {
    var open := if Last(line) == '{' then s.open + 1 else s.open;
    var closed := if Last(line) == '}' then s.closed + 1 else s.closed;
    if !IsEntityOpener(line) && line != "entity" then
      if open != closed then Done(s.(open := open, closed := closed, current := s.current + [line]), [])
      else
        match ParseEntity(s.current + [line], dp)
        case Crash(f) => Crash(f)
        case Done(e, ed) => Done(s.(open := 0, closed := 0, current := [], entities := Keep(s.entities, e)), ed)
    else
      NextEntity(s, line, open, closed, dp)
  }

  /** An entity opener, or a bare `entity` (reported first), inside a block: the held lines
      are parsed as one entity and the line starts the next block. */
  function NextEntity(s: Reader, line: string, open: int, closed: int, dp: DoubleParser): (r: Parsed<Reader>)
    requires Valid(s) && s.current != []
    ensures r.Done? ==> Valid(r.value) && r.value.current == [line]
    ensures r.Done? ==> |s.entities| <= |r.value.entities| <= |s.entities| + 1 && r.value.entities[..|s.entities|] == s.entities
    ensures r.Crash? <==> ParseEntity(s.current, dp).Crash?
  {
    var flag := line == "entity";
    var missing := (open - 1 != closed) || (flag && open != closed);
    var reported := (if flag then [MissingOpenBrace] else []) + (if missing then [MissingCloseBrace] else []);
    match ParseEntity(s.current, dp)
    case Crash(f) => Crash(f)
    case Done(e, ed) => Done(Reader(s.version, s.hierarchyVersion, 1, 0, flag && !missing, [line], Keep(s.entities, e)), reported + ed)
  }

  /** The line loop over the rest of the file, with every diagnostic in order. */
  function Run(s: Reader, lines: seq<string>, dp: DoubleParser): (r: Parsed<Reader>)
    requires Valid(s)
    ensures r.Done? ==> Valid(r.value)
    ensures r.Done? ==> |s.entities| <= |r.value.entities| <= |s.entities| + |lines| && r.value.entities[..|s.entities|] == s.entities
    decreases |lines|
  {
    if |lines| == 0 then Done(s, [])
    else
      match Step(s, lines[0], dp)
      case Crash(f) => Crash(f)
      case Done(s', d) => Prepend(d, Run(s', lines[1..], dp))
  }

  /** `Parse` without the file handling: the whole file as its lines. An entity block still
      open at the end of the file is dropped without a diagnostic. */
  function Parse(lines: seq<string>, dp: DoubleParser): (r: Parsed<ParseResult>)
    ensures r.Done? ==> forall k :: 0 <= k < |r.value.file.entities| ==> HasDef(r.value.file.entities[k])
    ensures r.Done? ==> r.value.errors == Errors(r.diags) && r.value.warnings == Warnings(r.diags)
    ensures r.Done? ==> |r.value.file.entities| <= |lines|
  {
    match Run(Initial, lines, dp)
    case Crash(f) => Crash(f)
    case Done(s, ds) => Done(ParseResult(Errors(ds), Warnings(ds), EntitiesFile(s.version, s.hierarchyVersion, s.entities)), ds)
  }

  /** Reading a file in two pieces is reading the first, then the second from where the
      first left off. */
  lemma {:induction false} RunAppend(s: Reader, a: seq<string>, b: seq<string>, dp: DoubleParser)
    requires Valid(s)
    ensures Run(s, a + b, dp) ==
      match Run(s, a, dp)
      case Crash(f) => Crash(f)
      case Done(s1, d1) => Prepend(d1, Run(s1, b, dp))
    decreases |a|
  {
    if |a| == 0 {
      assert a + b == b;
    } else {
      assert (a + b)[0] == a[0];
      assert (a + b)[1..] == a[1..] + b;
      match Step(s, a[0], dp)
      case Crash(f) =>
      case Done(s', d) =>
        RunAppend(s', a[1..], b, dp);
        match Run(s', a[1..], dp)
        case Crash(f) =>
        case Done(s1, d1) =>
          PrependTwice(d, d1, Run(s1, b, dp));
    }
  }

  lemma PrependTwice<T>(d: seq<Diag>, e: seq<Diag>, r: Parsed<T>)
    ensures Prepend(d, Prepend(e, r)) == Prepend(d + e, r)
  {
    match r
    case Crash(f) =>
    case Done(v, x) => assert d + (e + x) == (d + e) + x;
  }

  /** Blank lines anywhere change nothing. */
  lemma BlankLineIgnored(s: Reader, a: seq<string>, blank: string, b: seq<string>, dp: DoubleParser)
    requires Valid(s) && AllWhiteSpace(blank)
    ensures Run(s, a + [blank] + b, dp) == Run(s, a + b, dp)
  {
    RunAppend(s, a, [blank] + b, dp);
    RunAppend(s, a, b, dp);
    assert a + [blank] + b == a + ([blank] + b);
    match Run(s, a, dp)
    case Crash(f) =>
    case Done(s1, d1) =>
      assert ([blank] + b)[1..] == b;
      assert Run(s1, [blank] + b, dp) == Prepend([], Run(s1, b, dp));
      match Run(s1, b, dp)
      case Crash(f) =>
      case Done(v, x) => assert [] + x == x;
  }

  /** While the version is unset, a `Version V` line is a header line even inside an entity
      block: it sets the version and leaves the block alone. */
  lemma VersionInsideBlock(s: Reader, raw: string, dp: DoubleParser)
    requires Valid(s) && s.version == "" && IsVersionLine(Trim(raw))
    ensures Step(s, raw, dp) == Done(s.(version := Split(Trim(raw), ' ')[1]), [])
  {
  }

  /** A new `entity {` while a block is held always reports the missing `}`, because a held
      block is never balanced; the held lines are parsed all the same, and the opener
      starts the next block. */
  lemma NewEntityInsideBlock(s: Reader, raw: string, dp: DoubleParser)
    requires Valid(s) && s.current != [] && IsEntityOpener(Trim(raw))
    ensures Step(s, raw, dp).Crash? <==> ParseEntity(s.current, dp).Crash?
    ensures Step(s, raw, dp).Done? ==>
      && Step(s, raw, dp).diags == [MissingCloseBrace] + ParseEntity(s.current, dp).diags
      && Step(s, raw, dp).value.current == [Trim(raw)]
      && Step(s, raw, dp).value.entities == Keep(s.entities, ParseEntity(s.current, dp).value)
  {
    hide *;
    var line := Trim(raw);
    OpenerNotHeader(line);
    InsideStep(s, raw, dp);
    OpenerInside(s, line, dp);
    NextEntityMissing(s, line, dp);
  }

  /** A non-blank line that is no header line, read while a block is open, goes to `Inside`. */
  lemma InsideStep(s: Reader, raw: string, dp: DoubleParser)
    requires Valid(s) && s.current != [] && Trim(raw) != ""
    requires !IsVersionLine(Trim(raw)) && !IsHierarchyVersionLine(Trim(raw))
    ensures Step(s, raw, dp) == Inside(s, Trim(raw), dp)
  {
  }

  /** Inside a block, an entity opener goes to `NextEntity` with the open count raised. */
  lemma OpenerInside(s: Reader, line: string, dp: DoubleParser)
    requires Valid(s) && s.current != [] && IsEntityOpener(line)
    ensures Inside(s, line, dp) == NextEntity(s, line, s.open + 1, s.closed, dp)
  {
  }

  /** The opener of the next entity while a block is held: the held lines are parsed, and the
      missing `}` is reported first. */
  lemma NextEntityMissing(s: Reader, line: string, dp: DoubleParser)
    requires Valid(s) && s.current != [] && IsEntityOpener(line)
    ensures var r := NextEntity(s, line, s.open + 1, s.closed, dp);
      && (r.Crash? <==> ParseEntity(s.current, dp).Crash?)
      && (r.Done? ==>
        && r.diags == [MissingCloseBrace] + ParseEntity(s.current, dp).diags
        && r.value.current == [line]
        && r.value.entities == Keep(s.entities, ParseEntity(s.current, dp).value))
  {
  }

  /** An entity opener is neither header line. */
  lemma OpenerNotHeader(line: string)
    requires IsEntityOpener(line)
    ensures line != "" && !IsVersionLine(line) && !IsHierarchyVersionLine(line)
  {
    if line == "entity {" {
      SplitWordsAt("entity", "{");
    } else {
      SplitNoSeparator(line, ' ');
    }
  }

  lemma SplitWordsAt(a: string, b: string)
    requires ' ' !in a && ' ' !in b
    ensures Split(a + " " + b, ' ') == [a, b]
  {
    SplitNoSeparator(a, ' ');
    SplitNoSeparator(b, ' ');
    SplitAround(a, b, ' ');
  }

  /** A file that ends inside an entity block yields no entity for it: here an entity
      opener followed by an entityDef header, with both blocks left open. */
  lemma UnterminatedBlockDropped(opener: string, name: string, dp: DoubleParser)
    requires IsEntityOpener(opener) && IsValidEntityDefName(name)
    ensures Parse([opener, "entityDef " + name + " {"], dp).Done?
    ensures Parse([opener, "entityDef " + name + " {"], dp).value.file.entities == []
  {
    var l2 := "entityDef " + name + " {";
    var s1 := Initial.(current := [opener], open := 1, closed := 0);
    var s2 := s1.(open := 2, current := [opener, l2]);
    OpenerStep(opener, dp);
    HeldStep(s1, opener, name, dp);
    assert Run(s2, [], dp) == Done(s2, []);
    assert [l2][1..] == [];
    assert Run(s1, [l2], dp) == Done(s2, []);
    assert [opener, l2][1..] == [l2];
    assert Run(Initial, [opener, l2], dp) == Done(s2, []);
  }

  lemma OpenerStep(opener: string, dp: DoubleParser)
    requires IsEntityOpener(opener)
    ensures Step(Initial, opener, dp) == Done(Initial.(current := [opener], open := 1, closed := 0), [])
  {
    assert Trim(opener) == opener;
    if opener == "entity {" {
      assert opener == "entity" + " " + "{";
      SplitWordsAt("entity", "{");
    } else {
      SplitNoSeparator(opener, ' ');
    }
  }

  lemma HeldStep(s1: Reader, opener: string, name: string, dp: DoubleParser)
    requires s1 == Initial.(current := [opener], open := 1, closed := 0)
    requires IsValidEntityDefName(name)
    ensures Step(s1, "entityDef " + name + " {", dp) == Done(s1.(open := 2, current := [opener, "entityDef " + name + " {"]), [])
  {
    var l2 := "entityDef " + name + " {";
    DefLineShape(name);
    assert Last(l2) == '{' && !IsEntityOpener(l2) && l2 != "entity";
    assert s1.current + [l2] == [opener, l2];
    assert Inside(s1, l2, dp) == Done(s1.(open := 2, closed := 0, current := [opener, l2]), []);
    assert Step(s1, l2, dp) == Inside(s1, l2, dp);
  }

  /** The spaced entityDef header line is trimmed and has three space-separated tokens. */
  lemma DefLineShape(name: string)
    requires IsValidEntityDefName(name)
    ensures Trim("entityDef " + name + " {") == "entityDef " + name + " {"
    ensures |Split("entityDef " + name + " {", ' ')| == 3
  {
    var l2 := "entityDef " + name + " {";
    assert !IsWhiteSpace(l2[0]) && Last(l2) == '{';
    DefLineTokens(name);
  }

  lemma DefLineTokens(name: string)
    requires IsValidEntityDefName(name)
    ensures Count("entityDef " + name + " {", ' ') == 2
  {
    CountAppend("entityDef " + name, " {", ' ');
    CountAppend("entityDef ", name, ' ');
    NameLacks(name, ' ');
    CountAbsent(name, ' ');
  }
}
