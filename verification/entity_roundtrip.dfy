/**
 * The entity parser reads the written lines of a canonical entity back to the same entity:
 * the frame lines are skipped, the layer block, the `instanceId` and `originalName` lines
 * fill their fields, and the block scanner hands the whole entityDef block, and nothing
 * else, to the entityDef parser.
 */
module EntityRoundTrip {
  import opened Optional
  import opened Text
  import opened Numbers
  import opened Model
  import opened Names
  import opened BlockScanner
  import opened ScalarParser
  import opened PropertyParser
  import opened EntityDefParser
  import opened EntityParser
  import opened Writer
  import opened Layout
  import opened Nesting
  import opened RoundTrip
  import opened EntityLayout

  // ---------------------------------------------------------------------------------------
  // The entityDef body loop

  /** The members of an entityDef the body loop reads back: canonical, and none `!`-marked. */
  predicate PlainMembers(ps: seq<Property>, dp: DoubleParser) {
    CanonicalMembers(ps, dp) && forall k :: 0 <= k < |ps| ==> !ps[k].important
  }

  /** A lone `}` is skipped by the body loop. */
  lemma DefBraceStep(lines: seq<string>, i: nat, props: seq<Property>, ds: seq<Diag>, dp: DoubleParser)
    requires i < |lines| && lines[i] == "}" && AllNamesValid(props)
    ensures DefLoop(lines, i, props, ds, dp) == DefLoop(lines, i + 1, props, ds, dp)
  {
    SolidTrim("}");
    SplitNoSeparator("}", '=');
  }

  /** A canonical single-line member is read by the property parser and appended. */
  lemma DefScalarStep(lines: seq<string>, i: nat, props: seq<Property>, ds: seq<Diag>, dp: DoubleParser, q: Property)
    requires Canonical(q, dp) && IsScalar(q.value.value) && AllNamesValid(props)
    requires i < |lines| && Writable(q.value.value) && [lines[i]] == PropertyLines(q)
    ensures DefLoop(lines, i, props, ds, dp) == DefLoop(lines, i + 1, props + [q], ds, dp)
  {
    ScalarHead(q, dp);
    var name := q.name.value;
    var v := q.value.value;
    LiteralShape(v, dp);
    NameShape(name);
    var right := Literal(v) + ";";
    assert Solid(right) && '=' !in right by {
      assert right[0] == Literal(v)[0] && Last(right) == ';';
    }
    EqualsLine(name, right);
    var line := name + " = " + right;
    assert lines[i] == line;
    SolidTrim(line);
    SolidTrim(right);
    assert ClassifyDefLine(line) == DefScalar;
    PropertyRead(q, dp);
    assert ParseProperty([line], dp) == Done(Some(q), []);
    assert ds + [] == ds;
  }

  /** How the body loop handles a line it classifies as a block: the scanner's chunk goes
      to the property parser, and the loop goes on after the scanner's resume index. */
  lemma DefBlockAt(lines: seq<string>, i: nat, props: seq<Property>, ds: seq<Diag>, dp: DoubleParser,
                   line: string, b: Block, p: Property)
    requires i < |lines| && Trim(lines[i]) == line && ClassifyDefLine(line) == DefBlock
    requires ScanBlock(line, lines, i) == b && ParseProperty(b.lines, dp) == Done(Some(p), [])
    requires AllNamesValid(props) && AllNamesValid(props + [p])
    ensures DefLoop(lines, i, props, ds, dp) == DefLoop(lines, b.resume + 1, props + [p], ds, dp)
  {
    hide Trim, ClassifyDefLine, ScanBlock, ParseProperty, AllNamesValid, Split, ParseHeader;
    assert ds + [] == ds;
  }

  /** The opening line of an unmarked block member, as the body loop sees it. */
  lemma DefOpening(name: string)
    requires IsValidPropertyName(name)
    ensures Trim(name + " = " + "{") == name + " = " + "{"
    ensures ClassifyDefLine(name + " = " + "{") == DefBlock
  {
    NameShape(name);
    EqualsLine(name, "{");
    SolidTrim(name + " = " + "{");
    assert Trim(Split(name + " = " + "{", '=')[1]) == "{";
  }

  /** The first written line of an unmarked block member. */
  lemma OpeningOf(q: Property, dp: DoubleParser)
    requires Canonical(q, dp) && !IsScalar(q.value.value) && !q.important && Writable(q.value.value)
    ensures q.name.Some? && IsValidPropertyName(q.name.value)
    ensures |PropertyLines(q)| >= 2 && PropertyLines(q)[0] == q.name.value + " = " + "{"
  {
    BlockShape(q, dp);
    var name := q.name.value;
    assert NameText(q) == name && IndentText(name, 0) == name;
  }

  /** A canonical unmarked block member is collected whole by the scanner, read by the
      property parser and appended; the loop goes on after its closing line. */
  lemma DefBlockStep(lines: seq<string>, i: nat, props: seq<Property>, ds: seq<Diag>, dp: DoubleParser,
                     q: Property, n: nat)
    requires Canonical(q, dp) && !IsScalar(q.value.value) && !q.important && AllNamesValid(props)
    requires Writable(q.value.value)
    requires n == |PropertyLines(q)| && i + n <= |lines| && lines[i..i + n] == PropertyLines(q)
    ensures DefLoop(lines, i, props, ds, dp) == DefLoop(lines, i + n, props + [q], ds, dp)
  {
    hide *;
    BlockScan(lines, i, q, dp, n);
    OpeningOf(q, dp);
    var line := q.name.value + " = " + "{";
    SliceOfSlice(lines, i, i + n, 0, 1);
    assert lines[i] == line;
    DefOpening(q.name.value);
    PropertyRead(q, dp);
    AppendValid(props, q, dp);
    var b := ScanBlock(line, lines, i);
    DefBlockAt(lines, i, props, ds, dp, line, b, q);
    if n == 2 {
      DefBraceStep(lines, i + 1, props + [q], ds, dp);
    }
  }

  /** Appending a canonical property keeps every name valid. */
  lemma AppendValid(props: seq<Property>, q: Property, dp: DoubleParser)
    requires AllNamesValid(props) && Canonical(q, dp)
    ensures AllNamesValid(props + [q])
  {
    assert Append(props, Some(q)) == props + [q];
  }

  /** The written lines of an entityDef's members from member `k` on. */
  lemma MembersCons(v: Value, k: nat)
    requires v.Object? && Writable(v) && k < |v.properties| && v.properties[k].value.Some?
    ensures Writable(v.properties[k].value.value)
    ensures MembersLines(v, k) == PropertyLines(v.properties[k]) + MembersLines(v, k + 1)
  {
  }

  /** Where member `k`'s lines and the rest stand, when the members from `k` on are at `j`. */
  lemma MemberAt(lines: seq<string>, j: nat, v: Value, k: nat, dp: DoubleParser)
    requires v.Object? && PlainMembers(v.properties, dp) && Writable(v) && k < |v.properties|
    requires |lines| == j + |MembersLines(v, k)| + 1 && lines[j..] == MembersLines(v, k) + ["}"]
    ensures var q := v.properties[k];
      && Canonical(q, dp) && !q.important && q.value.Some? && Writable(q.value.value)
      && var n := |PropertyLines(q)|;
      && j + n <= |lines| && lines[j..j + n] == PropertyLines(q)
      && |lines| == j + n + |MembersLines(v, k + 1)| + 1 && lines[j + n..] == MembersLines(v, k + 1) + ["}"]
      && (IsScalar(q.value.value) ==> n == 1 && [lines[j]] == PropertyLines(q))
      && v.properties[k..] == [q] + v.properties[k + 1..]
  {
    hide *;
    var q := v.properties[k];
    PlainAt(v.properties, k, dp);
    MembersCons(v, k);
    var n := |PropertyLines(q)|;
    var rest := MembersLines(v, k + 1);
    assert MembersLines(v, k) + ["}"] == PropertyLines(q) + (rest + ["}"]);
    SuffixSplit(lines, j, PropertyLines(q), rest + ["}"]);
    if IsScalar(q.value.value) {
      ScalarHead(q, dp);
      assert [lines[j]] == lines[j..j + n];
    }
    assert v.properties[k..] == [q] + v.properties[k + 1..];
  }

  /** Member `k` of a plain run is canonical and unmarked. */
  lemma PlainAt(ps: seq<Property>, k: nat, dp: DoubleParser)
    requires PlainMembers(ps, dp) && k < |ps|
    ensures Canonical(ps[k], dp) && !ps[k].important && ps[k].value.Some?
  {
  }

  /** A suffix that is two runs one after the other, cut into the two. */
  lemma SuffixSplit(lines: seq<string>, j: nat, a: seq<string>, b: seq<string>)
    requires j <= |lines| && lines[j..] == a + b
    ensures j + |a| <= |lines| && lines[j..j + |a|] == a && lines[j + |a|..] == b
  {
    assert lines[j..j + |a|] == lines[j..][..|a|];
    assert lines[j + |a|..] == lines[j..][|a|..];
  }

  /** The end of the members: the closing `}` is the last line. */
  lemma MembersEnd(lines: seq<string>, j: nat, v: Value, k: nat)
    requires v.Object? && Writable(v) && k == |v.properties|
    requires |lines| == j + |MembersLines(v, k)| + 1 && lines[j..] == MembersLines(v, k) + ["}"]
    ensures j < |lines| && lines[j] == "}" && j + 1 == |lines|
  {
    assert MembersLines(v, k) == [];
    assert lines[j] == lines[j..][0];
  }

  /** From the line of its member `k`, the body loop reads the remaining members of a
      canonical entityDef in order, then its closing `}` ends the text. */
  lemma {:induction false} DefRun(lines: seq<string>, j: nat, v: Value, k: nat, props: seq<Property>,
                                  ds: seq<Diag>, dp: DoubleParser)
    requires v.Object? && PlainMembers(v.properties, dp) && Writable(v) && k <= |v.properties|
    requires AllNamesValid(props)
    requires |lines| == j + |MembersLines(v, k)| + 1 && lines[j..] == MembersLines(v, k) + ["}"]
    ensures DefLoop(lines, j, props, ds, dp) == Done(props + v.properties[k..], ds)
    decreases |v.properties| - k
  {
    hide *;
    var ps := v.properties;
    if k == |ps| {
      MembersEnd(lines, j, v, k);
      DefBraceStep(lines, j, props, ds, dp);
      DefLoopEnd(lines, j + 1, props, ds, dp);
      assert ps[k..] == [];
      assert props + ps[k..] == props;
    } else {
      var q := ps[k];
      MemberAt(lines, j, v, k, dp);
      var n := |PropertyLines(q)|;
      if IsScalar(q.value.value) {
        DefScalarStep(lines, j, props, ds, dp, q);
      } else {
        DefBlockStep(lines, j, props, ds, dp, q, n);
      }
      AppendValid(props, q, dp);
      DefRun(lines, j + n, v, k + 1, props + [q], ds, dp);
      assert props + [q] + ps[k + 1..] == props + ps[k..];
    }
  }

  /** The body loop stops at the end of the text. */
  lemma DefLoopEnd(lines: seq<string>, i: nat, props: seq<Property>, ds: seq<Diag>, dp: DoubleParser)
    requires i == |lines| && AllNamesValid(props)
    ensures DefLoop(lines, i, props, ds, dp) == Done(props, ds)
  {
  }

  /** The entityDef block of a canonical entity: its header line, its members, `}`. */
  lemma DefPartShape(e: Entity, dp: DoubleParser)
    requires CanonicalEntity(e, dp)
    ensures WritableEntity(e) && Writable(Object(e.entityDef.value.properties))
    ensures var ml := MembersLines(Object(e.entityDef.value.properties), 0);
      && |DefPart(e)| == |ml| + 2 && DefPart(e)[0] == DefDecl(e.entityDef.value.name)
      && DefPart(e)[1..] == ml + ["}"] && DefPart(e)[1..|DefPart(e)| - 1] == ml
      && DefPart(e)[|DefPart(e)| - 1] == "}" && Last(DefPart(e)[|DefPart(e)| - 1]) == '}'
  {
    CanonicalEntityWritable(e, dp);
    MembersWritable(e.entityDef.value.properties, dp);
  }

  /** The header line of an entityDef block, as the reader sees it. */
  lemma DefDeclRead(name: string)
    requires IsValidEntityDefName(name)
    ensures Solid(DefDecl(name)) && Trim(DefDecl(name)) == DefDecl(name) && Last(DefDecl(name)) == '{'
    ensures ParseHeader(DefDecl(name)) == Done(Some(name), [])
  {
    var d := DefDecl(name);
    assert d[0] == 'e' && Last(d) == '{';
    SolidTrim(d);
    HeaderForms(d, name);
  }

  /** The entityDef parser reads the written entityDef block of a canonical entity back to
      its entityDef, with no diagnostic. */
  lemma DefRead(e: Entity, dp: DoubleParser)
    requires CanonicalEntity(e, dp)
    ensures WritableEntity(e)
    ensures ParseEntityDef(DefPart(e), dp) == Done(Some(e.entityDef.value), [])
  {
    DefPartShape(e, dp);
    var def := e.entityDef.value;
    var v := Object(def.properties);
    var lines := DefPart(e);
    DefDeclRead(def.name);
    DefRun(lines, 1, v, 0, [], [], dp);
    assert [] + def.properties[0..] == def.properties;
  }

  // ---------------------------------------------------------------------------------------
  // The entity loop

  /** A pattern longer than the text does not occur in it. */
  lemma ShorterNotContained(s: string, t: string)
    requires |s| < |t|
    ensures !Contains(s, t)
  {
    ContainsOccurs(s, t);
  }

  /** A pattern whose first character is missing from the text does not occur in it. */
  lemma FirstMissing(s: string, t: string)
    requires |t| > 0 && t[0] !in s
    ensures !Contains(s, t)
  {
    ContainsOccurs(s, t);
    forall k | 0 <= k <= |s| - |t| ensures !OccursAt(s, t, k) {
      assert s[k..k + |t|][0] == s[k] != t[0];
    }
  }

  /** A text that starts with the pattern contains it. */
  lemma StartContained(s: string, t: string)
    requires StartsWith(s, t)
    ensures Contains(s, t)
  {
  }

  /** The entity's own `{` and `}` lines are skipped by the entity loop. */
  lemma FrameClass(line: string)
    requires line == "}" || line == "entity {"
    ensures Trim(line) == line && ClassifyEntityLine(line) == FrameLine
  {
    SolidTrim(line);
    ShorterNotContained(line, "originalName");
    ShorterNotContained(line, "instanceId");
    ShorterNotContained(line, "entityDef");
  }

  /** The entity loop's condition on the entity it carries. */
  predicate DefValid(entity: Entity) {
    entity.entityDef.Some? ==> IsValidEntityDefName(entity.entityDef.value.name) && AllNamesValid(entity.entityDef.value.properties)
  }

  lemma FrameStep(lines: seq<string>, i: nat, entity: Entity, ds: seq<Diag>, dp: DoubleParser)
    requires i < |lines| && (lines[i] == "}" || lines[i] == "entity {") && DefValid(entity)
    ensures EntityLoop(lines, i, entity, ds, dp) == EntityLoop(lines, i + 1, entity, ds, dp)
  {
    FrameClass(lines[i]);
  }

  lemma EntityLoopEnd(lines: seq<string>, i: nat, entity: Entity, ds: seq<Diag>, dp: DoubleParser)
    requires i == |lines| && DefValid(entity)
    ensures EntityLoop(lines, i, entity, ds, dp) == Done(entity, ds)
  {
  }

  /** A quoted layer line reads back as its layer name. */
  lemma LayerLine(x: string, dp: DoubleParser)
    ensures Trim(LayerDecl(x)) == LayerDecl(x) && LayerDecl(x) != "}"
    ensures ReadLayer(LayerDecl(x), dp) == Done(Some(x), [])
  {
    var t := LayerDecl(x);
    assert t[0] == '"' && Last(t) == '"' && t[1..|t| - 1] == x;
    SolidTrim(t);
    assert t != "}" by { assert "}"[0] != t[0]; }
  }

  /** The quoted lines of a run of layer names, cut after the first. */
  lemma QuotedAt(lines: seq<string>, k: nat, ls: seq<string>)
    requires |ls| > 0 && k + |ls| <= |lines| && lines[k..k + |ls|] == QuotedLines(ls)
    ensures lines[k] == LayerDecl(ls[0]) && lines[k + 1..k + 1 + |ls[1..]|] == QuotedLines(ls[1..])
  {
    hide *;
    QuotedTail(ls);
    SliceOfSlice(lines, k, k + |ls|, 1, |ls|);
    SliceOfSlice(lines, k, k + |ls|, 0, 1);
    HeadOf(lines[k..k + |ls|], lines, k);
  }

  lemma QuotedTail(ls: seq<string>)
    requires |ls| > 0
    ensures |QuotedLines(ls)| == |ls| && QuotedLines(ls)[0] == LayerDecl(ls[0])
    ensures QuotedLines(ls)[1..] == QuotedLines(ls[1..]) && |ls[1..]| == |ls| - 1
  {
  }

  lemma HeadOf(window: seq<string>, lines: seq<string>, k: nat)
    requires k < |lines| && |window| > 0 && lines[k..k + 1] == window[0..1]
    ensures lines[k] == window[0]
  {
    assert lines[k] == lines[k..k + 1][0];
  }

  /** The layers loop stops at a `}` line. */
  lemma LayersClose(lines: seq<string>, k: nat, dp: DoubleParser)
    requires k < |lines| && lines[k] == "}"
    ensures LayersLoop(lines, k, dp) == Done(Layers([], k), [])
  {
    SolidTrim("}");
  }

  /** The layers loop puts the name of a quoted layer line in front of what follows. */
  lemma LayersMore(lines: seq<string>, k: nat, x: string, dp: DoubleParser, after: Layers)
    requires k < |lines| && lines[k] == LayerDecl(x) && LayersLoop(lines, k + 1, dp) == Done(after, [])
    ensures LayersLoop(lines, k, dp) == Done(after.(names := [x] + after.names), [])
  {
    LayerLine(x, dp);
    hide Trim, ReadLayer, LayerDecl;
  }

  /** The layers loop reads the quoted lines of a run of layer names, up to the `}` after
      them, back to those names. */
  lemma {:induction false} LayersRun(lines: seq<string>, k: nat, ls: seq<string>, dp: DoubleParser)
    requires k + |ls| < |lines| && lines[k..k + |ls|] == QuotedLines(ls) && lines[k + |ls|] == "}"
    ensures LayersLoop(lines, k, dp) == Done(Layers(ls, k + |ls|), [])
    decreases |ls|
  {
    hide *;
    if |ls| == 0 {
      LayersClose(lines, k, dp);
    } else {
      QuotedAt(lines, k, ls);
      LayersRun(lines, k + 1, ls[1..], dp);
      LayersMore(lines, k, ls[0], dp, Layers(ls[1..], k + |ls|));
      assert [ls[0]] + ls[1..] == ls;
    }
  }

  /** Where the lines of a layer block stand. */
  lemma LayersPartAt(lines: seq<string>, i: nat, e: Entity)
    requires e.layers.Some? && i + |LayersPart(e)| <= |lines| && lines[i..i + |LayersPart(e)|] == LayersPart(e)
    ensures var ls := e.layers.value;
      && |LayersPart(e)| == |ls| + 2 && lines[i] == "layers {"
      && lines[i + 1..i + 1 + |ls|] == QuotedLines(ls) && lines[i + 1 + |ls|] == "}"
  {
    var ls := e.layers.value;
    var part := LayersPart(e);
    assert lines[i] == lines[i..i + |part|][0] == part[0];
    assert part[1..1 + |ls|] == QuotedLines(ls);
    SliceOfSlice(lines, i, i + |part|, 1, 1 + |ls|);
    assert lines[i + 1 + |ls|] == lines[i..i + |part|][1 + |ls|] == part[1 + |ls|];
  }

  /** How the entity loop handles a `layers {` line. */
  lemma LayersAt(lines: seq<string>, i: nat, entity: Entity, ds: seq<Diag>, dp: DoubleParser, l: Layers)
    requires i < |lines| && lines[i] == "layers {" && DefValid(entity)
    requires LayersLoop(lines, i + 1, dp) == Done(l, [])
    ensures EntityLoop(lines, i, entity, ds, dp) == EntityLoop(lines, l.close + 1, entity.(layers := Some(l.names)), ds, dp)
  {
    LayersClass();
    hide LayersLoop, Trim, KeyedValue, ScanBlock, ParseEntityDef, Split, ClassifyEntityLine, Last, Contains;
    assert ds + [] == ds;
  }

  lemma LayersClass()
    ensures Trim("layers {") == "layers {" && ClassifyEntityLine("layers {") == LayersLine
  {
    SolidTrim("layers {");
  }

  lemma LayersStep(lines: seq<string>, i: nat, e: Entity, entity: Entity, ds: seq<Diag>, dp: DoubleParser,
                   rest: seq<string>)
    requires i <= |lines| && lines[i..] == LayersPart(e) + rest && entity.layers.None? && DefValid(entity)
    ensures i + |LayersPart(e)| <= |lines| && lines[i + |LayersPart(e)|..] == rest
    ensures EntityLoop(lines, i, entity, ds, dp) == EntityLoop(lines, i + |LayersPart(e)|, entity.(layers := e.layers), ds, dp)
  {
    hide *;
    SuffixSplit(lines, i, LayersPart(e), rest);
    if e.layers.Some? {
      var ls := e.layers.value;
      LayersPartAt(lines, i, e);
      LayersRun(lines, i + 1, ls, dp);
      LayersAt(lines, i, entity, ds, dp, Layers(ls, i + 1 + |ls|));
    } else {
      NoLayers(e);
      assert entity.(layers := e.layers) == entity;
    }
  }

  lemma NoLayers(e: Entity)
    requires e.layers.None?
    ensures LayersPart(e) == []
  {
  }

  /** An `instanceId` line as written reads back as its number. */
  lemma IdLine(n: Int64, dp: DoubleParser)
    ensures Trim(InstanceIdDecl(n)) == InstanceIdDecl(n) && ClassifyEntityLine(InstanceIdDecl(n)) == InstanceIdLine
    ensures |Split(InstanceIdDecl(n), '=')| == 2 && Last(InstanceIdDecl(n)) == ';'
    ensures KeyedValue(InstanceIdDecl(n), dp) == Done(Some(Long(n)), [])
  {
    IdLineClass(n);
    IdLineValue(n, dp);
  }

  /** The pieces of an `instanceId` line. */
  lemma IdLineParts(n: Int64)
    ensures var l := LongToString(n);
      && Solid(l) && Solid(l + ";") && '=' !in l + ";" && Solid("instanceId") && '=' !in "instanceId"
      && InstanceIdDecl(n) == "instanceId" + " = " + (l + ";")
      && DropLast(" " + (l + ";")) == " " + l && Last(l + ";") == ';' && |InstanceIdDecl(n)| > 0
  {
    var l := LongToString(n);
    LongShape(n);
    assert (l + ";")[0] == l[0] && Last(l + ";") == ';';
    assert forall c :: c in l + ";" ==> c == ';' || c in l;
  }

  lemma IdLineValue(n: Int64, dp: DoubleParser)
    ensures |Split(InstanceIdDecl(n), '=')| == 2 && Last(InstanceIdDecl(n)) == ';'
    ensures KeyedValue(InstanceIdDecl(n), dp) == Done(Some(Long(n)), [])
  {
    var key := "instanceId";
    var l := LongToString(n);
    IdLineParts(n);
    hide *;
    EqualsLine(key, l + ";");
    EqualsSides(key, l);
    LongLiteral(n, dp);
    LiteralRoundTrip(Long(n), dp);
    KeyedRight(InstanceIdDecl(n), dp);
  }

  /** The rendering of an integer is its literal. */
  lemma LongLiteral(n: Int64, dp: DoubleParser)
    ensures IsScalar(Long(n)) && CanonicalValue(Long(n), dp) && Literal(Long(n)) == LongToString(n)
  {
  }

  /** The value `KeyedValue` reads from a well-formed line. */
  lemma KeyedRight(line: string, dp: DoubleParser)
    requires |line| > 0 && |Split(line, '=')| == 2 && Last(line) == ';'
    ensures |Split(line, '=')[1]| > 0 && KeyedValue(line, dp) == ParseValue(Trim(DropLast(Split(line, '=')[1])), dp)
  {
  }

  lemma IdLineClass(n: Int64)
    ensures Trim(InstanceIdDecl(n)) == InstanceIdDecl(n) && ClassifyEntityLine(InstanceIdDecl(n)) == InstanceIdLine
  {
    var key := "instanceId";
    var l := LongToString(n);
    var d := InstanceIdDecl(n);
    IdLineParts(n);
    EqualsLine(key, l + ";");
    SolidTrim(d);
    IdNoO(n);
    FirstMissing(d, "originalName");
    IdStarts(n);
    hide *;
    StartContained(d, key);
    ClassifyKeyed(d, key);
  }

  /** A line that starts with `instanceId` and lacks `originalName` is an instanceId line. */
  lemma ClassifyKeyed(d: string, key: string)
    requires key == "instanceId" && StartsWith(d, key) && Contains(d, key) && !Contains(d, "originalName")
    ensures ClassifyEntityLine(d) == InstanceIdLine
  {
    assert d != "layers {" && d != "layers{" by { assert d[0] == 'i'; }
  }

  lemma IdStarts(n: Int64)
    ensures StartsWith(InstanceIdDecl(n), "instanceId")
  {
    var d := InstanceIdDecl(n);
    assert d[..10] == "instanceId";
  }

  /** The letter `o`, which starts `originalName`, is not in an `instanceId` line. */
  lemma IdNoO(n: Int64)
    ensures 'o' !in InstanceIdDecl(n)
  {
    var l := LongToString(n);
    LongShape(n);
    var d := InstanceIdDecl(n);
    assert d == "instanceId = " + l + ";";
    assert forall c :: c in d ==> c in "instanceId = " || c in l || c == ';';
  }

  /** The invariant rendering of an integer: solid, and only a sign and digits. */
  lemma LongShape(n: Int64)
    ensures Solid(LongToString(n)) && forall c :: c in LongToString(n) ==> c == '-' || IsDigit(c)
  {
    var d := DecimalString(if n < 0 then -(n as int) else n);
    assert forall c :: c in d ==> IsDigit(c);
    if n < 0 {
      assert LongToString(n) == "-" + d;
    }
  }

  lemma IdStep(lines: seq<string>, i: nat, e: Entity, entity: Entity, ds: seq<Diag>, dp: DoubleParser,
               rest: seq<string>)
    requires i <= |lines| && lines[i..] == IdPart(e) + rest && entity.instanceId.None? && DefValid(entity)
    ensures i + |IdPart(e)| <= |lines| && lines[i + |IdPart(e)|..] == rest
    ensures EntityLoop(lines, i, entity, ds, dp) == EntityLoop(lines, i + |IdPart(e)|, entity.(instanceId := e.instanceId), ds, dp)
  {
    SuffixSplit(lines, i, IdPart(e), rest);
    if e.instanceId.Some? {
      assert lines[i] == IdPart(e)[0] == InstanceIdDecl(e.instanceId.value);
      IdLine(e.instanceId.value, dp);
      assert ds + [] == ds;
    } else {
      assert entity.(instanceId := e.instanceId) == entity;
    }
  }

  /** An `originalName` line as written reads back as its text. */
  lemma NameLine(x: string, dp: DoubleParser)
    requires SafeText(x)
    ensures Trim(OriginalNameDecl(x)) == OriginalNameDecl(x) && ClassifyEntityLine(OriginalNameDecl(x)) == OriginalNameLine
    ensures |Split(OriginalNameDecl(x), '=')| == 2 && Last(OriginalNameDecl(x)) == ';'
    ensures KeyedValue(OriginalNameDecl(x), dp) == Done(Some(Str(x)), [])
  {
    var key := "originalName";
    var q := LayerDecl(x);
    var d := OriginalNameDecl(x);
    NameLineParts(x, dp);
    hide *;
    EqualsLine(key, q + ";");
    EqualsSides(key, q);
    SolidTrim(d);
    KeyedRight(d, dp);
    StartContained(d, key);
    ClassifyName(d, key);
  }

  /** A line that starts with `originalName` is an originalName line. */
  lemma ClassifyName(d: string, key: string)
    requires key == "originalName" && StartsWith(d, key) && Contains(d, key)
    ensures ClassifyEntityLine(d) == OriginalNameLine
  {
    assert d != "layers {" && d != "layers{" by { assert d[0] == 'o'; }
  }

  /** The pieces of an `originalName` line. */
  lemma NameLineParts(x: string, dp: DoubleParser)
    requires SafeText(x)
    ensures var q := LayerDecl(x);
      && Solid(q) && Solid(q + ";") && '=' !in q + ";" && Solid("originalName") && '=' !in "originalName"
      && OriginalNameDecl(x) == "originalName" + " = " + (q + ";")
      && DropLast(" " + (q + ";")) == " " + q && Last(q + ";") == ';' && |OriginalNameDecl(x)| > 0
      && ParseValue(q, dp) == Done(Some(Str(x)), [])
      && StartsWith(OriginalNameDecl(x), "originalName")
  {
    var q := LayerDecl(x);
    var d := OriginalNameDecl(x);
    assert q[0] == '"' && Last(q) == '"' && q[1..|q| - 1] == x;
    assert (q + ";")[0] == '"' && Last(q + ";") == ';';
    assert forall c :: c in q + ";" ==> c == ';' || c == '"' || c in x;
    assert d[..12] == "originalName";
  }

  lemma NameStep(lines: seq<string>, i: nat, e: Entity, entity: Entity, ds: seq<Diag>, dp: DoubleParser,
                 rest: seq<string>)
    requires i <= |lines| && lines[i..] == NamePart(e) + rest && entity.originalName.None? && DefValid(entity)
    requires e.originalName.Some? ==> SafeText(e.originalName.value)
    ensures i + |NamePart(e)| <= |lines| && lines[i + |NamePart(e)|..] == rest
    ensures EntityLoop(lines, i, entity, ds, dp) == EntityLoop(lines, i + |NamePart(e)|, entity.(originalName := e.originalName), ds, dp)
  {
    SuffixSplit(lines, i, NamePart(e), rest);
    if e.originalName.Some? {
      assert lines[i] == NamePart(e)[0] == OriginalNameDecl(e.originalName.value);
      NameLine(e.originalName.value, dp);
      assert ds + [] == ds;
    } else {
      assert entity.(originalName := e.originalName) == entity;
    }
  }

  /** How the entity loop handles an `entityDef` line ending in `{`: the scanner's chunk
      goes to the entityDef parser, and the loop goes on after the scanner's resume index. */
  lemma EntityDefAt(lines: seq<string>, i: nat, entity: Entity, ds: seq<Diag>, dp: DoubleParser,
                    line: string, b: Block, def: EntityDef)
    requires i < |lines| && Trim(lines[i]) == line && ClassifyEntityLine(line) == EntityDefLine && Last(line) == '{'
    requires ScanBlock(line, lines, i) == b && ParseEntityDef(b.lines, dp) == Done(Some(def), [])
    requires DefValid(entity) && IsValidEntityDefName(def.name) && AllNamesValid(def.properties)
    ensures EntityLoop(lines, i, entity, ds, dp) == EntityLoop(lines, b.resume + 1, entity.(entityDef := Some(def)), ds, dp)
  {
    hide Trim, ClassifyEntityLine, ScanBlock, ParseEntityDef, AllNamesValid, Split, KeyedValue, LayersLoop;
    assert ds + [] == ds;
  }

  lemma DefStep(lines: seq<string>, i: nat, e: Entity, entity: Entity, ds: seq<Diag>, dp: DoubleParser,
                rest: seq<string>)
    requires CanonicalEntity(e, dp) && DefValid(entity)
    requires WritableEntity(e) && i <= |lines| && lines[i..] == DefPart(e) + rest
    ensures i + |DefPart(e)| <= |lines| && lines[i + |DefPart(e)|..] == rest
    ensures EntityLoop(lines, i, entity, ds, dp) == EntityLoop(lines, i + |DefPart(e)|, entity.(entityDef := e.entityDef), ds, dp)
  {
    hide *;
    CanonicalDef(e, dp);
    var def := e.entityDef.value;
    var chunk := DefPart(e);
    SuffixSplit(lines, i, chunk, rest);
    DefPartShape(e, dp);
    var v := Object(def.properties);
    CanonicalDef(e, dp);
    MembersNested(v, 0, dp);
    ScanChunk(lines, i, chunk);
    SliceOfSlice(lines, i, i + |chunk|, 0, 1);
    assert lines[i] == DefDecl(def.name);
    DefDeclRead(def.name);
    DefLineClass(e, dp);
    DefRead(e, dp);
    var b := ScanBlock(DefDecl(def.name), lines, i);
    EntityDefAt(lines, i, entity, ds, dp, DefDecl(def.name), b, def);
    if |chunk| == 2 {
      SliceOfSlice(lines, i, i + |chunk|, 1, 2);
      assert lines[i + 1] == chunk[1];
      FrameStep(lines, i + 1, entity.(entityDef := Some(def)), ds, dp);
    }
  }

  /** What a canonical entity promises about its entityDef. */
  lemma CanonicalDef(e: Entity, dp: DoubleParser)
    requires CanonicalEntity(e, dp)
    ensures e.entityDef.Some? && IsValidEntityDefName(e.entityDef.value.name)
    ensures Object(e.entityDef.value.properties).Object? && CanonicalMembers(e.entityDef.value.properties, dp)
    ensures DefValid(Entity(None, None, None, e.entityDef))
    ensures DefValid(e)
  {
    AllValidOf(e.entityDef.value.properties, dp);
  }

  /** Canonical members carry valid names. */
  lemma AllValidOf(ps: seq<Property>, dp: DoubleParser)
    requires CanonicalMembers(ps, dp)
    ensures AllNamesValid(ps)
  {
    assert forall k :: 0 <= k < |ps| ==> Canonical(ps[k], dp);
  }

  /** The header line of a canonical entity's entityDef is read as one. */
  lemma DefLineClass(e: Entity, dp: DoubleParser)
    requires CanonicalEntity(e, dp)
    ensures ClassifyEntityLine(DefDecl(e.entityDef.value.name)) == EntityDefLine
  {
    var d := DefDecl(e.entityDef.value.name);
    assert d[..9] == "entityDef";
    StartContained(d, "entityDef");
    assert d != "layers {" && d != "layers{" by { assert d[0] == 'e'; }
  }

  // ---------------------------------------------------------------------------------------
  // Whole entities

  /** The written lines of an entity, as the steps of the entity loop take them. */
  lemma LinesShape(e: Entity)
    requires WritableEntity(e)
    ensures EntityLines(e)[0..] ==
      ["entity {"] + (LayersPart(e) + (IdPart(e) + (NamePart(e) + (DefPart(e) + ["}"]))))
  {
  }

  /** The entity parser reads the written lines of a canonical entity back to that entity,
      with no diagnostic. */
  lemma EntityRead(e: Entity, dp: DoubleParser)
    requires CanonicalEntity(e, dp)
    ensures WritableEntity(e)
    ensures ParseEntity(EntityLines(e), dp) == Done(e, [])
  {
    hide *;
    CanonicalEntityWritable(e, dp);
    CanonicalDef(e, dp);
    NameFact(e, dp);
    var lines := EntityLines(e);
    var e0 := Entity(None, None, None, None);
    var e3 := Entity(e.layers, e.originalName, e.instanceId, None);
    NoDef(e0);
    NoDef(e3);
    var i4 := 1 + |LayersPart(e)| + |IdPart(e)| + |NamePart(e)|;
    var i5 := i4 + |DefPart(e)|;
    Positions(e);
    calc {
      ParseEntity(lines, dp);
      { ParseEntityIs(lines, dp); }
      EntityLoop(lines, 0, e0, [], dp);
      { FrameStep(lines, 0, e0, [], dp); }
      EntityLoop(lines, 1, e0, [], dp);
      { FieldSteps(lines, 1, e, [], dp, DefPart(e) + ["}"]); }
      EntityLoop(lines, i4, e3, [], dp);
      { DefStep(lines, i4, e, e3, [], dp, ["}"]);
        assert e3.(entityDef := e.entityDef) == e; }
      EntityLoop(lines, i5, e, [], dp);
      { FrameStep(lines, i5, e, [], dp); }
      EntityLoop(lines, i5 + 1, e, [], dp);
      { EntityLoopEnd(lines, i5 + 1, e, [], dp); }
      Done(e, []);
    }
  }

  /** Where the parts of an entity's written lines stand. */
  lemma Positions(e: Entity)
    requires WritableEntity(e)
    ensures var lines := EntityLines(e);
      var i4 := 1 + |LayersPart(e)| + |IdPart(e)| + |NamePart(e)|;
      && |lines| > 0 && lines[0] == "entity {"
      && lines[1..] == LayersPart(e) + (IdPart(e) + (NamePart(e) + (DefPart(e) + ["}"])))
      && i4 <= |lines| && lines[i4..] == DefPart(e) + ["}"]
      && |lines| == i4 + |DefPart(e)| + 1 && lines[i4 + |DefPart(e)|] == "}"
  {
    hide *;
    LinesShape(e);
    FrameSplit(EntityLines(e), LayersPart(e), IdPart(e), NamePart(e), DefPart(e), "entity {", "}");
  }

  /** An opening line, four runs and a closing line, and where each starts. */
  lemma FrameSplit(lines: seq<string>, a: seq<string>, b: seq<string>, c: seq<string>, d: seq<string>,
                   first: string, last: string)
    requires lines[0..] == [first] + (a + (b + (c + (d + [last]))))
    ensures var i4 := 1 + |a| + |b| + |c|;
      && |lines| > 0 && lines[0] == first
      && lines[1..] == a + (b + (c + (d + [last])))
      && i4 <= |lines| && lines[i4..] == d + [last]
      && |lines| == i4 + |d| + 1 && lines[i4 + |d|] == last
  {
    assert lines == [first] + (a + (b + (c + (d + [last]))));
    assert lines[1..] == a + (b + (c + (d + [last])));
    assert a + (b + (c + (d + [last]))) == (a + b + c) + (d + [last]);
    SuffixSplit(lines, 1, a + b + c, d + [last]);
  }

  /** The layer block, the `instanceId` line and the `originalName` line, in the order the
      writer puts them, fill the three fields of an empty entity. */
  lemma FieldSteps(lines: seq<string>, i: nat, e: Entity, ds: seq<Diag>, dp: DoubleParser, rest: seq<string>)
    requires i <= |lines| && lines[i..] == LayersPart(e) + (IdPart(e) + (NamePart(e) + rest))
    requires e.originalName.Some? ==> SafeText(e.originalName.value)
    ensures var next := i + |LayersPart(e)| + |IdPart(e)| + |NamePart(e)|;
      && next <= |lines| && lines[next..] == rest
      && EntityLoop(lines, i, Entity(None, None, None, None), ds, dp) ==
         EntityLoop(lines, next, Entity(e.layers, e.originalName, e.instanceId, None), ds, dp)
  {
    hide *;
    var e0 := Entity(None, None, None, None);
    var e1 := e0.(layers := e.layers);
    var e2 := e1.(instanceId := e.instanceId);
    NoDef(e0);
    NoDef(e1);
    NoDef(e2);
    LayersStep(lines, i, e, e0, ds, dp, IdPart(e) + (NamePart(e) + rest));
    var i2 := i + |LayersPart(e)|;
    IdStep(lines, i2, e, e1, ds, dp, NamePart(e) + rest);
    var i3 := i2 + |IdPart(e)|;
    NameStep(lines, i3, e, e2, ds, dp, rest);
  }

  /** The line at the head of a suffix. */
  lemma ClosingAt(lines: seq<string>, i: nat, line: string, rest: seq<string>)
    requires i <= |lines| && lines[i..] == [line] + rest
    ensures i < |lines| && lines[i] == line && |lines| == i + 1 + |rest|
  {
    assert lines[i] == lines[i..][0];
  }

  lemma NoDef(entity: Entity)
    requires entity.entityDef.None?
    ensures DefValid(entity)
  {
  }

  lemma NameFact(e: Entity, dp: DoubleParser)
    requires CanonicalEntity(e, dp)
    ensures e.originalName.Some? ==> SafeText(e.originalName.value)
  {
  }

  lemma ParseEntityIs(lines: seq<string>, dp: DoubleParser)
    ensures ParseEntity(lines, dp) == EntityLoop(lines, 0, Entity(None, None, None, None), [], dp)
  {
  }

  /** The round trip of a whole entity: the text the writer produces for a canonical
      entity, cut at newlines and trimmed as the file reader does, parses back to the same
      entity with no diagnostic. */
  lemma EntityRoundTrip(e: Entity, dp: DoubleParser)
    requires CanonicalEntity(e, dp)
    ensures WritableEntity(e)
    ensures ParseEntity(TrimAll(Split(EntityString(e), '\n')), dp) == Done(e, [])
  {
    EntityText(e, dp);
    EntityRead(e, dp);
  }
}
