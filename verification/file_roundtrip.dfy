/**
 * The reader gets a whole written file back. Its lines are the `Version` and
 * `HierarchyVersion` header lines, then each entity's lines. The file loop opens a block at
 * `entity {`, holds the lines that follow while the braces stay unbalanced, and hands the
 * block to the entity parser at the `}` that balances them.
 */
module FileRoundTrip {
  import opened Text
  import opened Numbers
  import opened Model
  import opened Names
  import opened BlockScanner
  import opened EntityParser
  import opened FileReader
  import opened Writer
  import opened Layout
  import opened Nesting
  import opened RoundTrip
  import opened EntityLayout
  import opened EntityRoundTrip

  // ---------------------------------------------------------------------------------------
  // Files the reader gets back

  /** The value of a header line: one token, with no space, no line break and no white
      space at its end. */
  predicate HeaderToken(v: string) {
    v != "" && ' ' !in v && '\n' !in v && !IsWhiteSpace(Last(v))
  }

  /** A file the reader gets back unchanged from its written form. It has a version, and a
      hierarchy version that is absent or a single token too; every entity is canonical. */
  predicate CanonicalFile(f: EntitiesFile, dp: DoubleParser) {
    && HeaderToken(f.version)
    && (f.hierarchyVersion == "" || HeaderToken(f.hierarchyVersion))
    && forall k :: 0 <= k < |f.entities| ==> CanonicalEntity(f.entities[k], dp)
  }

  /** Reading the written text of a canonical file, split at its newlines, gives back the
      file with no diagnostic. */
  lemma FileRoundTrip(f: EntitiesFile, dp: DoubleParser)
    requires CanonicalFile(f, dp)
    ensures forall k :: 0 <= k < |f.entities| ==> WritableEntity(f.entities[k])
    ensures Parse(Split(FileString(f), '\n'), dp) == Done(ParseResult([], [], f), [])
  {
    hide *;
    var v := f.version;
    var h := f.hierarchyVersion;
    var es := f.entities;
    CanonicalFileParts(f, dp);
    InitialIs();
    var s1 := Initial.(version := v);
    var s2 := if h != "" then s1.(hierarchyVersion := h) else s1;
    var body := Split(EntitiesString(es), '\n');
    var hp := if h != "" then ["HierarchyVersion " + h] else [];
    FileLines(f);
    assert ["Version " + v] + hp + body == ["Version " + v] + (hp + body);
    VersionStep(v, dp);
    QuietStep(Initial, "Version " + v, hp + body, s1, dp);
    if h != "" {
      HierarchyStep(s1, h, dp);
      QuietStep(s1, "HierarchyVersion " + h, body, s2, dp);
      assert hp + body == ["HierarchyVersion " + h] + body;
    } else {
      assert hp + body == body;
    }
    EntitiesRun(s2, es, dp);
    assert s2.(entities := s2.entities + es) == Reader(v, h, 0, 0, false, [], es);
    ParseOf(Split(FileString(f), '\n'), Reader(v, h, 0, 0, false, [], es), dp);
  }

  lemma InitialIs()
    ensures Initial == Reader("", "", 0, 0, false, [], []) && Valid(Initial)
  {
  }

  lemma CanonicalFileParts(f: EntitiesFile, dp: DoubleParser)
    requires CanonicalFile(f, dp)
    ensures HeaderToken(f.version) && f.version != ""
    ensures f.hierarchyVersion != "" ==> HeaderToken(f.hierarchyVersion)
    ensures forall k :: 0 <= k < |f.entities| ==> CanonicalEntity(f.entities[k], dp) && WritableEntity(f.entities[k])
    ensures f == EntitiesFile(f.version, f.hierarchyVersion, f.entities)
  {
    forall k | 0 <= k < |f.entities| ensures WritableEntity(f.entities[k]) {
      CanonicalEntityWritable(f.entities[k], dp);
    }
  }

  /** The lines of a written file: its header lines, then the lines of its entities. */
  lemma FileLines(f: EntitiesFile)
    requires HeaderToken(f.version) && (f.hierarchyVersion != "" ==> HeaderToken(f.hierarchyVersion))
    requires forall k :: 0 <= k < |f.entities| ==> WritableEntity(f.entities[k])
    ensures Split(FileString(f), '\n') ==
      ["Version " + f.version]
      + (if f.hierarchyVersion != "" then ["HierarchyVersion " + f.hierarchyVersion] else [])
      + Split(EntitiesString(f.entities), '\n')
  {
    hide *;
    var v := f.version;
    var h := f.hierarchyVersion;
    var body := EntitiesString(f.entities);
    var more := if h != "" then "HierarchyVersion " + h + "\n" else "";
    HeaderTokenShape(v);
    VersionLine(v);
    FileText(f);
    SplitLine("Version " + v, more + body);
    if h != "" {
      HierarchyLine(h);
      assert more + body == "HierarchyVersion " + h + "\n" + body;
      SplitLine("HierarchyVersion " + h, body);
    } else {
      assert more + body == body;
    }
  }

  lemma FileText(f: EntitiesFile)
    requires forall k :: 0 <= k < |f.entities| ==> WritableEntity(f.entities[k])
    requires f.version != ""
    ensures FileString(f) == "Version " + f.version + "\n" +
      ((if f.hierarchyVersion != "" then "HierarchyVersion " + f.hierarchyVersion + "\n" else "") + EntitiesString(f.entities))
  {
  }

  /** The `Version` line read first sets the version. */
  lemma VersionStep(v: string, dp: DoubleParser)
    requires HeaderToken(v)
    ensures Step(Initial, "Version " + v, dp) == Done(Initial.(version := v), [])
  {
    VersionLine(v);
    var line := "Version " + v;
    assert HeaderTest(Initial) && IsVersionLine(line) && Split(line, ' ')[1] == v;
  }

  /** The `HierarchyVersion` line read next, outside any block, sets the hierarchy version. */
  lemma HierarchyStep(s: Reader, h: string, dp: DoubleParser)
    requires s == Reader(s.version, "", 0, 0, false, [], []) && s.version != "" && HeaderToken(h)
    ensures Step(s, "HierarchyVersion " + h, dp) == Done(s.(hierarchyVersion := h), [])
  {
    HierarchyLine(h);
    var line := "HierarchyVersion " + h;
    assert HeaderTest(s) && !IsVersionLine(line) && IsHierarchyVersionLine(line) && Split(line, ' ')[1] == h;
  }

  /** A loop that ends quietly in state `s` makes `Parse` report the file `s` holds. */
  lemma ParseOf(lines: seq<string>, s: Reader, dp: DoubleParser)
    requires Run(Initial, lines, dp) == Done(s, [])
    ensures Parse(lines, dp) == Done(ParseResult([], [], EntitiesFile(s.version, s.hierarchyVersion, s.entities)), [])
  {
  }

  lemma VersionLine(v: string)
    requires HeaderToken(v)
    ensures Trim("Version " + v) == "Version " + v && Split("Version " + v, ' ') == ["Version", v]
    ensures '\n' !in "Version " + v
  {
    assert "Version" + " " == "Version ";
    HeaderLine("Version", v);
  }

  lemma HierarchyLine(h: string)
    requires HeaderToken(h)
    ensures Trim("HierarchyVersion " + h) == "HierarchyVersion " + h
    ensures Split("HierarchyVersion " + h, ' ') == ["HierarchyVersion", h]
    ensures '\n' !in "HierarchyVersion " + h
  {
    assert "HierarchyVersion" + " " == "HierarchyVersion ";
    HeaderLine("HierarchyVersion", h);
  }

  lemma HeaderTokenShape(v: string)
    requires HeaderToken(v)
    ensures v != ""
  {
  }

  /** A header line, `word value`, is its own trim and splits at its one space. */
  lemma HeaderLine(word: string, v: string)
    requires word != "" && ' ' !in word && '\n' !in word && !IsWhiteSpace(word[0])
    requires HeaderToken(v)
    ensures Trim(word + " " + v) == word + " " + v
    ensures Split(word + " " + v, ' ') == [word, v]
    ensures '\n' !in word + " " + v
  {
    var line := word + " " + v;
    assert line[0] == word[0] && Last(line) == Last(v);
    SolidTrim(line);
    SplitWordsAt(word, v);
  }

  /** A line that reports nothing and leaves the loop in state `s'`. */
  lemma QuietStep(s: Reader, line: string, rest: seq<string>, s': Reader, dp: DoubleParser)
    requires Valid(s) && Step(s, line, dp) == Done(s', [])
    ensures Valid(s') && Run(s, [line] + rest, dp) == Run(s', rest, dp)
  {
    assert ([line] + rest)[0] == line;
    assert ([line] + rest)[1..] == rest;
    match Run(s', rest, dp)
    case Done(x, d) => assert [] + d == d;
    case Crash(_) =>
  }

  /** The written entities, read from a point between blocks, are all kept, in order, with
      no diagnostic; the blank line the text of no entities splits into is skipped. */
  lemma {:induction false} EntitiesRun(s: Reader, es: seq<Entity>, dp: DoubleParser)
    requires Valid(s) && s.version != "" && s.current == []
    requires forall k :: 0 <= k < |es| ==> CanonicalEntity(es[k], dp)
    ensures forall k :: 0 <= k < |es| ==> WritableEntity(es[k])
    ensures Run(s, Split(EntitiesString(es), '\n'), dp) == Done(s.(entities := s.entities + es), [])
    decreases |es|
  {
    hide *;
    forall k | 0 <= k < |es| ensures WritableEntity(es[k]) {
      CanonicalEntityWritable(es[k], dp);
    }
    EntitiesCases(es);
    if |es| == 0 {
      BlankRun(s, dp);
      assert s.entities + es == s.entities;
    } else if |es| == 1 {
      EntityRun(s, es[0], dp);
      assert [es[0]] == es;
      assert s.entities + [es[0]] == s.entities + es;
    } else {
      var first := Split(EntityString(es[0]), '\n');
      var rest := Split(EntitiesString(es[1..]), '\n');
      SplitAround(EntityString(es[0]), EntitiesString(es[1..]), '\n');
      RunAppend(s, first, rest, dp);
      EntityRun(s, es[0], dp);
      var s' := s.(entities := s.entities + [es[0]]);
      EntitiesRun(s', es[1..], dp);
      PrependNothing(Run(s', rest, dp));
      assert s.entities + [es[0]] + es[1..] == s.entities + es;
    }
  }

  /** The entity loop's text: nothing, one entity, or one entity, a newline and the rest. */
  lemma EntitiesCases(es: seq<Entity>)
    requires forall k :: 0 <= k < |es| ==> WritableEntity(es[k])
    ensures |es| == 0 ==> EntitiesString(es) == ""
    ensures |es| == 1 ==> EntitiesString(es) == EntityString(es[0])
    ensures |es| >= 2 ==> EntitiesString(es) == EntityString(es[0]) + "\n" + EntitiesString(es[1..])
  {
  }

  /** The empty text is one blank line, which the loop skips. */
  lemma BlankRun(s: Reader, dp: DoubleParser)
    requires Valid(s)
    ensures Run(s, Split("", '\n'), dp) == Done(s, [])
  {
    assert Split("", '\n') == [""];
    assert Step(s, "", dp) == Done(s, []);
  }

  lemma PrependNothing<T>(r: Parsed<T>)
    ensures Prepend([], r) == r
  {
    match r
    case Done(x, d) => assert [] + d == d;
    case Crash(_) =>
  }

  lemma RunNothing(s: Reader, dp: DoubleParser)
    requires Valid(s)
    ensures Run(s, [], dp) == Done(s, [])
  {
  }

  /** One written entity, read from a point between blocks, is kept with no diagnostic. */
  lemma EntityRun(s: Reader, e: Entity, dp: DoubleParser)
    requires Valid(s) && s.version != "" && s.current == [] && CanonicalEntity(e, dp)
    ensures WritableEntity(e)
    ensures Run(s, Split(EntityString(e), '\n'), dp) == Done(s.(entities := s.entities + [e]), [])
  {
    hide *;
    EntityText(e, dp);
    EntityRead(e, dp);
    LinesDepth(e, dp);
    var raws := Split(EntityString(e), '\n');
    var lines := EntityLines(e);
    TrimAllAt(raws);
    assert Trim(raws[0]) == lines[0] == "entity {";
    var s1 := s.(current := ["entity {"], open := 1, closed := 0);
    OpenerRun(s, raws[0], dp);
    BalanceOne(lines);
    CanonicalHasDef(e, dp);
    assert raws == [raws[0]] + raws[1..];
    QuietStep(s, raws[0], raws[1..], s1, dp);
    HeldRun(s1, raws, lines, 1, e, dp);
  }

  /** Between blocks, the entity opener starts one. */
  lemma OpenerRun(s: Reader, raw: string, dp: DoubleParser)
    requires Valid(s) && s.current == [] && Trim(raw) == "entity {"
    ensures s.open == 0 && s.closed == 0
    ensures Step(s, raw, dp) == Done(s.(current := ["entity {"], open := 1, closed := 0), [])
  {
    OpenerNotHeader("entity {");
  }

  lemma CanonicalHasDef(e: Entity, dp: DoubleParser)
    requires CanonicalEntity(e, dp)
    ensures HasDef(e)
  {
  }

  lemma BalanceOne(lines: seq<string>)
    requires |lines| >= 1 && lines[..1] == ["entity {"]
    ensures Balance(lines[..1]) == 1
  {
    BalanceCons("entity {", []);
  }

  /** Inside a block, the rest of an entity's lines: each is held while the braces stay
      unbalanced, and the last one balances them and hands the block to the entity parser. */
  lemma {:induction false} HeldRun(s: Reader, raws: seq<string>, lines: seq<string>, j: nat, e: Entity, dp: DoubleParser)
    requires Valid(s) && s.version != "" && 1 <= j < |lines| == |raws|
    requires forall m :: 0 <= m < |lines| ==> Trim(raws[m]) == lines[m]
    requires s.current == lines[..j] && s.open - s.closed == Balance(lines[..j])
    requires forall m :: j <= m < |lines| ==> Held(lines[m])
    requires forall p :: j < p < |lines| ==> Balance(lines[..p]) > 0
    requires Balance(lines) == 0
    requires ParseEntity(lines, dp) == Done(e, []) && HasDef(e)
    ensures Run(s, raws[j..], dp) == Done(s.(open := 0, closed := 0, current := [], entities := s.entities + [e]), [])
    decreases |lines| - j
  {
    hide *;
    var line := lines[j];
    assert Trim(raws[j]) == line && Held(line);
    HeldShape(line);
    var open' := if Last(line) == '{' then s.open + 1 else s.open;
    var closed' := if Last(line) == '}' then s.closed + 1 else s.closed;
    DepthStep(lines, j, s.open, s.closed);
    HeldLineStep(s, raws[j], dp);
    var final := s.(open := 0, closed := 0, current := [], entities := s.entities + [e]);
    assert raws[j..] == [raws[j]] + raws[j + 1..];
    if j + 1 == |lines| {
      assert lines[..j + 1] == lines;
      InsideCloses(s, line, e, dp);
      QuietStep(s, raws[j], raws[j + 1..], final, dp);
      assert raws[j + 1..] == [];
      RunNothing(final, dp);
    } else {
      var s' := s.(open := open', closed := closed', current := lines[..j + 1]);
      InsideHolds(s, line, dp);
      QuietStep(s, raws[j], raws[j + 1..], s', dp);
      HeldRun(s', raws, lines, j + 1, e, dp);
      assert s'.(open := 0, closed := 0, current := [], entities := s'.entities + [e]) == final;
    }
  }

  lemma HeldShape(line: string)
    requires Held(line)
    ensures line != ""
  {
  }

  /** The depth after one more line. */
  lemma DepthStep(lines: seq<string>, j: nat, open: int, closed: int)
    requires j < |lines| && lines[j] != "" && open - closed == Balance(lines[..j])
    ensures lines[..j + 1] == lines[..j] + [lines[j]]
    ensures (if Last(lines[j]) == '}' then closed + 1 else closed) - (if Last(lines[j]) == '{' then open + 1 else open)
      == -Balance(lines[..j + 1])
  {
    assert lines[..j + 1] == lines[..j] + [lines[j]];
    BalanceAppend(lines[..j], [lines[j]]);
    BalanceCons(lines[j], []);
  }

  /** A held line that leaves the braces unbalanced is added to the block. */
  lemma InsideHolds(s: Reader, line: string, dp: DoubleParser)
    requires Valid(s) && s.current != [] && Held(line)
    requires (if Last(line) == '{' then s.open + 1 else s.open) != (if Last(line) == '}' then s.closed + 1 else s.closed)
    ensures s.open != 0
    ensures Inside(s, line, dp) == Done(s.(
      open := if Last(line) == '{' then s.open + 1 else s.open,
      closed := if Last(line) == '}' then s.closed + 1 else s.closed,
      current := s.current + [line]), [])
  {
  }

  /** A held line that balances the braces closes the block, and an entity with an entityDef
      that the block parses to with no diagnostic is kept. */
  lemma InsideCloses(s: Reader, line: string, e: Entity, dp: DoubleParser)
    requires Valid(s) && s.current != [] && Held(line)
    requires (if Last(line) == '{' then s.open + 1 else s.open) == (if Last(line) == '}' then s.closed + 1 else s.closed)
    requires ParseEntity(s.current + [line], dp) == Done(e, []) && HasDef(e)
    ensures s.open != 0
    ensures Inside(s, line, dp) == Done(s.(open := 0, closed := 0, current := [], entities := s.entities + [e]), [])
  {
  }

  /** A held line read while a block is open goes to `Inside`: with the version set, no line
      inside a block is tested for a header line. */
  lemma HeldLineStep(s: Reader, raw: string, dp: DoubleParser)
    requires Valid(s) && s.version != "" && s.current != [] && Held(Trim(raw))
    ensures Step(s, raw, dp) == Inside(s, Trim(raw), dp)
  {
  }

  lemma {:induction false} TrimAllAt(raws: seq<string>)
    ensures |TrimAll(raws)| == |raws|
    ensures forall m :: 0 <= m < |raws| ==> TrimAll(raws)[m] == Trim(raws[m])
    decreases |raws|
  {
    if |raws| > 0 {
      TrimAllAt(raws[1..]);
      assert forall m :: 1 <= m < |raws| ==> raws[1..][m - 1] == raws[m];
    }
  }

  // ---------------------------------------------------------------------------------------
  // The brace depth along an entity's lines

  /** A line the file loop holds inside a block: not blank, and neither an entity opener nor
      a bare `entity`, either of which would start the next block. */
  predicate Held(line: string) {
    line != "" && !IsEntityOpener(line) && line != "entity"
  }

  predicate AllHeld(lines: seq<string>) {
    forall k :: 0 <= k < |lines| ==> Held(lines[k])
  }

  /** Along an entity's written lines the depth is one after `entity {`, stays positive, and
      comes back to zero only at the final `}`; no line after the first starts a block. */
  lemma LinesDepth(e: Entity, dp: DoubleParser)
    requires CanonicalEntity(e, dp)
    ensures WritableEntity(e)
    ensures var lines := EntityLines(e);
      && |lines| >= 2 && lines[..1] == ["entity {"] && Balance(lines[..1]) == 1
      && Balance(lines) == 0
      && (forall p :: 1 < p < |lines| ==> Balance(lines[..p]) > 0)
      && (forall m :: 1 <= m < |lines| ==> Held(lines[m]))
  {
    BodyNested(e, dp);
    BodyHeld(e, dp);
    var body := EntityBody(e);
    var lines := EntityLines(e);
    assert lines == ["entity {"] + body + ["}"];
    assert lines[..1] == ["entity {"];
    BalanceCons("entity {", []);
    BalanceAppend(["entity {"] + body, ["}"]);
    BalanceCons("entity {", body);
    BalanceCons("}", []);
    forall p | 1 < p < |lines| ensures Balance(lines[..p]) > 0 {
      assert lines[..p] == ["entity {"] + body[..p - 1];
      BalanceCons("entity {", body[..p - 1]);
    }
    forall m | 1 <= m < |lines| ensures Held(lines[m]) {
      assert lines[m] == (body + ["}"])[m - 1];
    }
  }

  /** The lines between `entity {` and its `}` are well-nested. */
  lemma BodyNested(e: Entity, dp: DoubleParser)
    requires CanonicalEntity(e, dp)
    ensures WritableEntity(e) && Nested(EntityBody(e))
  {
    CanonicalEntityWritable(e, dp);
    var def := e.entityDef.value;
    var v := Object(def.properties);
    if e.layers.Some? {
      FlatNested(QuotedLines(e.layers.value));
      NestedBlock("layers {", QuotedLines(e.layers.value), "}");
    } else {
      NestedNone();
    }
    if e.instanceId.Some? {
      NestedLine(InstanceIdDecl(e.instanceId.value));
    } else {
      NestedNone();
    }
    if e.originalName.Some? {
      NestedLine(OriginalNameDecl(e.originalName.value));
    } else {
      NestedNone();
    }
    MembersNested(v, 0, dp);
    NestedBlock(DefDecl(def.name), MembersLines(v, 0), "}");
    NestedAppend(LayersPart(e), IdPart(e));
    NestedAppend(LayersPart(e) + IdPart(e), NamePart(e));
    NestedAppend(LayersPart(e) + IdPart(e) + NamePart(e), DefPart(e));
  }

  lemma NestedNone()
    ensures Nested([])
  {
    var none: seq<string> := [];
    assert forall p :: 0 <= p <= |none| ==> none[..p] == none;
  }

  /** Lines that neither open nor close a block are well-nested. */
  lemma {:induction false} FlatNested(lines: seq<string>)
    requires forall k :: 0 <= k < |lines| ==> lines[k] != "" && Delta(lines[k]) == 0
    ensures Nested(lines)
    decreases |lines|
  {
    if |lines| == 0 {
      NestedNone();
    } else {
      NestedLine(lines[0]);
      assert forall k :: 0 <= k < |lines[1..]| ==> lines[1..][k] == lines[k + 1];
      FlatNested(lines[1..]);
      NestedAppend([lines[0]], lines[1..]);
      assert [lines[0]] + lines[1..] == lines;
    }
  }

  /** No line of an entity's body, nor its closing `}`, starts a block. */
  lemma BodyHeld(e: Entity, dp: DoubleParser)
    requires CanonicalEntity(e, dp)
    ensures WritableEntity(e) && AllHeld(EntityBody(e) + ["}"])
  {
    DefHeld(e, dp);
    LayersHeld(e);
    IdHeld(e);
    NameHeld(e);
    hide *;
    AllHeldAppend(LayersPart(e), IdPart(e));
    AllHeldAppend(LayersPart(e) + IdPart(e), NamePart(e));
    AllHeldAppend(LayersPart(e) + IdPart(e) + NamePart(e), DefPart(e) + ["}"]);
    BodyParts(e);
  }

  lemma BodyParts(e: Entity)
    requires WritableEntity(e)
    ensures EntityBody(e) + ["}"] == LayersPart(e) + IdPart(e) + NamePart(e) + (DefPart(e) + ["}"])
  {
  }

  lemma AllHeldAppend(a: seq<string>, b: seq<string>)
    requires AllHeld(a) && AllHeld(b)
    ensures AllHeld(a + b)
  {
    forall k | |a| <= k < |a + b| ensures (a + b)[k] == b[k - |a|] {
    }
  }

  lemma LayersHeld(e: Entity)
    ensures AllHeld(LayersPart(e))
  {
    if e.layers.Some? {
      var ls := e.layers.value;
      forall k | 0 <= k < |ls| ensures Held(LayerDecl(ls[k])) {
        assert LayerDecl(ls[k])[0] == '"';
      }
      assert LayersPart(e) == ["layers {"] + QuotedLines(ls) + ["}"];
      AllHeldAppend(["layers {"], QuotedLines(ls));
      AllHeldAppend(["layers {"] + QuotedLines(ls), ["}"]);
    }
  }

  lemma IdHeld(e: Entity)
    ensures AllHeld(IdPart(e))
  {
    if e.instanceId.Some? {
      var n := e.instanceId.value;
      EqualsAfter("instanceId", LongToString(n) + ";");
      assert InstanceIdDecl(n) == "instanceId" + " = " + (LongToString(n) + ";");
      KeyedHeld([InstanceIdDecl(n)]);
    }
  }

  lemma NameHeld(e: Entity)
    ensures AllHeld(NamePart(e))
  {
    if e.originalName.Some? {
      var s := e.originalName.value;
      EqualsAfter("originalName", "\"" + s + "\";");
      assert OriginalNameDecl(s) == "originalName" + " = " + ("\"" + s + "\";");
      KeyedHeld([OriginalNameDecl(s)]);
    }
  }

  /** The entityDef block and the entity's closing `}`: the header line is longer than any
      line that starts a block, and the members' lines are `}` lines and lines with an `=`. */
  lemma DefHeld(e: Entity, dp: DoubleParser)
    requires CanonicalEntity(e, dp)
    ensures WritableEntity(e) && AllHeld(DefPart(e) + ["}"])
  {
    CanonicalEntityWritable(e, dp);
    var def := e.entityDef.value;
    var v := Object(def.properties);
    MembersKeyed(v, 0, dp);
    KeyedAppend(MembersLines(v, 0), ["}", "}"]);
    KeyedHeld(MembersLines(v, 0) + ["}", "}"]);
    assert |DefDecl(def.name)| > 8;
    assert DefPart(e) + ["}"] == [DefDecl(def.name)] + (MembersLines(v, 0) + ["}", "}"]);
    AllHeldAppend([DefDecl(def.name)], MembersLines(v, 0) + ["}", "}"]);
  }

  // ---------------------------------------------------------------------------------------
  // Member lines

  /** Every written member line is a `}` or holds an `=`. */
  predicate Keyed(lines: seq<string>) {
    forall k :: 0 <= k < |lines| ==> lines[k] == "}" || '=' in lines[k]
  }

  lemma KeyedHeld(lines: seq<string>)
    requires Keyed(lines)
    ensures AllHeld(lines)
  {
    assert '=' !in "entity {" && '=' !in "entity{" && '=' !in "entity";
  }

  lemma EqualsAfter(a: string, b: string)
    ensures '=' in a + " = " + b
  {
    assert (a + " = " + b)[|a| + 1] == '=';
  }

  lemma KeyedAppend(a: seq<string>, b: seq<string>)
    requires Keyed(a) && Keyed(b)
    ensures Keyed(a + b)
  {
    forall k | |a| <= k < |a + b| ensures (a + b)[k] == b[k - |a|] {
    }
  }

  /** The written lines of a canonical property are `}` lines and lines with an `=`. */
  lemma {:induction false} PropertyKeyed(p: Property, dp: DoubleParser)
    requires Canonical(p, dp)
    ensures Writable(p.value.value) && Keyed(PropertyLines(p))
    decreases p.value.value, 2
  {
    var v := p.value.value;
    CanonicalWritable(v, dp);
    match v
    case Array(_) =>
      ItemsKeyed(v, 0, dp);
      ArrayKeyed(p);
    case Object(_) =>
      MembersKeyed(v, 0, dp);
      ObjectKeyed(p);
    case _ =>
      ScalarKeyed(p);
  }

  lemma OpeningKeyed(p: Property)
    ensures '=' in Opening(p, 0)
  {
    EqualsAfter(IndentText(NameText(p), 0), (if p.important then "! " else "") + "{");
    assert Opening(p, 0) == IndentText(NameText(p), 0) + " = " + ((if p.important then "! " else "") + "{");
  }

  lemma ArrayKeyed(p: Property)
    requires p.value.Some? && p.value.value.Array? && Writable(p.value.value)
    requires Keyed(ItemsLines(p.value.value, 0))
    ensures Keyed(PropertyLines(p))
  {
    var v := p.value.value;
    var numLine := "num = " + DecimalString(|v.elements|) + ";";
    OpeningKeyed(p);
    EqualsAfter("num", DecimalString(|v.elements|) + ";");
    assert numLine == "num" + " = " + (DecimalString(|v.elements|) + ";");
    KeyedAppend([Opening(p, 0), numLine], ItemsLines(v, 0));
    KeyedAppend([Opening(p, 0), numLine] + ItemsLines(v, 0), ["}"]);
  }

  lemma ObjectKeyed(p: Property)
    requires p.value.Some? && p.value.value.Object? && Writable(p.value.value)
    requires Keyed(MembersLines(p.value.value, 0))
    ensures Keyed(PropertyLines(p))
  {
    OpeningKeyed(p);
    KeyedAppend([Opening(p, 0)], MembersLines(p.value.value, 0));
    KeyedAppend([Opening(p, 0)] + MembersLines(p.value.value, 0), ["}"]);
  }

  lemma ScalarKeyed(p: Property)
    requires p.value.Some? && IsScalar(p.value.value) && Writable(p.value.value)
    ensures Keyed(PropertyLines(p))
  {
    var v := p.value.value;
    EqualsAfter(IndentText(NameText(p), 0), Literal(v) + ";");
    assert PropertyString(p, 0) == IndentText(NameText(p), 0) + " = " + (Literal(v) + ";");
  }

  lemma {:induction false} MembersKeyed(v: Value, k: nat, dp: DoubleParser)
    requires v.Object? && CanonicalMembers(v.properties, dp) && k <= |v.properties|
    ensures Writable(v) && Keyed(MembersLines(v, k))
    decreases v, 1, |v.properties| - k
  {
    MembersWritable(v.properties, dp);
    if k < |v.properties| {
      PropertyKeyed(v.properties[k], dp);
      MembersKeyed(v, k + 1, dp);
      KeyedAppend(PropertyLines(v.properties[k]), MembersLines(v, k + 1));
    }
  }

  lemma {:induction false} ItemsKeyed(v: Value, i: nat, dp: DoubleParser)
    requires v.Array? && CanonicalValue(v, dp) && i <= |v.elements|
    ensures Writable(v) && Keyed(ItemsLines(v, i))
    decreases v, 1, |v.elements| - i
  {
    CanonicalWritable(v, dp);
    if i < |v.elements| {
      var e := v.elements[i];
      PropertyKeyed(ItemProperty(e, i), dp) by {
        ItemNameValid(i);
      }
      ItemAsProperty(e, i, dp);
      ItemsKeyed(v, i + 1, dp);
      KeyedAppend(ItemLines(e, i), ItemsLines(v, i + 1));
    }
  }
}
