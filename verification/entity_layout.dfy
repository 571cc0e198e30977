/**
 * How the writer's text of a whole entity looks to the reader. Split at newlines and
 * trimmed, it is the opening line `entity {`, the layer block, the `instanceId` and
 * `originalName` lines, the entityDef block, and the closing `}`. This module defines that
 * list of lines and the entities whose written form the reader gets back.
 */
module EntityLayout {
  import opened Optional
  import opened Text
  import opened Numbers
  import opened Model
  import opened Names
  import opened Writer
  import opened Layout

  /** The trimmed line that opens the entityDef block. */
  function DefDecl(name: string): string {
    "entityDef " + name + " {"
  }

  function InstanceIdDecl(n: Int64): string {
    "instanceId = " + LongToString(n) + ";"
  }

  function OriginalNameDecl(s: string): string {
    "originalName = \"" + s + "\";"
  }

  /** A layer name between quotes, as its line reads once trimmed. */
  function LayerDecl(s: string): string {
    "\"" + s + "\""
  }

  function QuotedLines(layers: seq<string>): (r: seq<string>)
    ensures |r| == |layers|
    ensures forall k :: 0 <= k < |r| ==> r[k] == LayerDecl(layers[k])
  {
    if |layers| == 0 then [] else [LayerDecl(layers[0])] + QuotedLines(layers[1..])
  }

  /** The layer block's lines, when the entity has layers. */
  function LayersPart(e: Entity): seq<string> {
    if e.layers.Some? then ["layers {"] + QuotedLines(e.layers.value) + ["}"] else []
  }

  function IdPart(e: Entity): seq<string> {
    if e.instanceId.Some? then [InstanceIdDecl(e.instanceId.value)] else []
  }

  function NamePart(e: Entity): seq<string> {
    if e.originalName.Some? then [OriginalNameDecl(e.originalName.value)] else []
  }

  /** The entityDef block's lines: its opening line, the members' lines, `}`. */
  function DefPart(e: Entity): seq<string>
    requires WritableEntity(e)
  {
    var def := e.entityDef.value;
    assert Writable(Object(def.properties));
    [DefDecl(def.name)] + MembersLines(Object(def.properties), 0) + ["}"]
  }

  /** Everything between an entity's opening line and its closing `}`. */
  function EntityBody(e: Entity): seq<string>
    requires WritableEntity(e)
  {
    LayersPart(e) + IdPart(e) + NamePart(e) + DefPart(e)
  }

  /** The written lines of an entity, trimmed. */
  function EntityLines(e: Entity): seq<string>
    requires WritableEntity(e)
  {
    ["entity {"] + EntityBody(e) + ["}"]
  }

  /** An entity the reader gets back unchanged from its written form. It has an entityDef
      with a valid name, and its opening line does not contain the words the entity parser
      looks for before `entityDef`; every property is canonical and carries no `!` mark (a
      marked block at the top level makes the reader dereference a null property); layer
      names stay on one line; the original name stays on one line and holds no `=`. */
  predicate CanonicalEntity(e: Entity, dp: DoubleParser) {
    && e.entityDef.Some?
    && var def := e.entityDef.value;
    && IsValidEntityDefName(def.name)
    && !Contains(DefDecl(def.name), "originalName")
    && !Contains(DefDecl(def.name), "instanceId")
    && CanonicalMembers(def.properties, dp)
    && (forall k :: 0 <= k < |def.properties| ==> !def.properties[k].important)
    && (e.layers.Some? ==> forall k :: 0 <= k < |e.layers.value| ==> '\n' !in e.layers.value[k])
    && (e.originalName.Some? ==> SafeText(e.originalName.value))
  }

  /** A canonical entity can be printed. */
  lemma CanonicalEntityWritable(e: Entity, dp: DoubleParser)
    requires CanonicalEntity(e, dp)
    ensures WritableEntity(e)
  {
    MembersWritable(e.entityDef.value.properties, dp);
  }

  // ---------------------------------------------------------------------------------------
  // The written text, line by line

  /** One written line, indented, followed by a newline and more text. */
  lemma LineThen(text: string, tail: string, level: nat, rest: string)
    requires Solid(text + tail) && '\n' !in text && '\n' !in tail
    ensures TrimAll(Split(IndentText(text, level) + tail + "\n" + rest, '\n')) ==
      [text + tail] + TrimAll(Split(rest, '\n'))
  {
    IndentedLine(text, tail, level);
    HeadSplit(IndentText(text, level) + tail, rest, TrimAll(Split(rest, '\n')));
  }

  /** The layer lines, each followed by a newline, then more text. */
  lemma {:induction false} LayerLinesThen(layers: seq<string>, rest: string)
    requires forall k :: 0 <= k < |layers| ==> '\n' !in layers[k]
    ensures TrimAll(Split(LayerLines(layers) + rest, '\n')) == QuotedLines(layers) + TrimAll(Split(rest, '\n'))
    decreases |layers|
  {
    hide *;
    LayerLinesCons(layers, rest);
    if |layers| > 0 {
      var l := layers[0];
      var more := LayerLines(layers[1..]) + rest;
      assert '\n' !in l;
      LayerQuoted(l);
      LineThen("\"", l + "\"", 2, more);
      assert forall k :: 0 <= k < |layers[1..]| ==> layers[1..][k] == layers[k + 1];
      LayerLinesThen(layers[1..], rest);
    }
  }

  lemma LayerLinesCons(layers: seq<string>, rest: string)
    ensures |layers| == 0 ==> LayerLines(layers) + rest == rest && QuotedLines(layers) == []
    ensures |layers| > 0 ==>
      && LayerLines(layers) + rest == IndentText("\"", 2) + (layers[0] + "\"") + "\n" + (LayerLines(layers[1..]) + rest)
      && QuotedLines(layers) == [LayerDecl(layers[0])] + QuotedLines(layers[1..])
  {
    if |layers| > 0 {
      hide IndentText, QuotedLines;
      RegroupLayer(IndentText("\"", 2), layers[0], "\"", "\n", LayerLines(layers[1..]), rest);
      QuotedCons(layers);
    }
  }

  lemma RegroupLayer(a: string, b: string, c: string, d: string, e: string, f: string)
    ensures a + b + c + d + e + f == a + (b + c) + d + (e + f)
  {
  }

  lemma QuotedCons(layers: seq<string>)
    requires |layers| > 0
    ensures QuotedLines(layers) == [LayerDecl(layers[0])] + QuotedLines(layers[1..])
  {
  }

  lemma LayerQuoted(l: string)
    requires '\n' !in l
    ensures Solid("\"" + (l + "\"")) && '\n' !in "\"" && '\n' !in l + "\""
    ensures "\"" + (l + "\"") == LayerDecl(l)
  {
    assert ("\"" + (l + "\""))[0] == '"';
  }

  /** The layer block, then more text. */
  lemma LayersThen(layers: seq<string>, rest: string)
    requires forall k :: 0 <= k < |layers| ==> '\n' !in layers[k]
    ensures TrimAll(Split(IndentText("layers {", 1) + "\n" + LayerLines(layers) + IndentText("}", 1) + "\n" + rest, '\n')) ==
      ["layers {"] + QuotedLines(layers) + ["}"] + TrimAll(Split(rest, '\n'))
  {
    hide *;
    var opener := "layers {";
    var closer := "}";
    var closing := IndentText(closer, 1) + "" + "\n" + rest;
    var body := LayerLines(layers);
    SolidLiteral(opener);
    SolidLiteral(closer);
    EmptyTail(opener);
    EmptyTail(closer);
    LineThen(closer, "", 1, rest);
    LayerLinesThen(layers, closing);
    LineThen(opener, "", 1, body + closing);
    Regroup(IndentText(opener, 1), body, IndentText(closer, 1), "\n", rest);
  }

  /** Regrouping the written layer block. */
  lemma Regroup(o: string, body: string, c: string, nl: string, rest: string)
    ensures o + nl + body + c + nl + rest == o + "" + nl + (body + (c + "" + nl + rest))
  {
  }

  /** The written lines that carry no text after their keyword. */
  lemma SolidLiteral(s: string)
    requires s == "layers {" || s == "}" || s == "entity {"
    ensures Solid(s) && '\n' !in s && Trim(s) == s
  {
    SolidTrim(s);
  }

  lemma EmptyTail(s: string)
    ensures s + "" == s
  {
  }

  /** A keyword followed by a solid value is solid. */
  lemma SolidAfter(a: string, b: string)
    requires a != [] && !IsWhiteSpace(a[0]) && Solid(b)
    ensures Solid(a + b)
  {
    assert (a + b)[0] == a[0];
  }

  /** The `instanceId` line, then more text. */
  lemma IdThen(n: Int64, rest: string)
    ensures TrimAll(Split(IndentText("instanceId = ", 1) + LongToString(n) + ";" + "\n" + rest, '\n')) ==
      [InstanceIdDecl(n)] + TrimAll(Split(rest, '\n'))
  {
    var key := "instanceId = ";
    var d := LongToString(n);
    LongShape(n);
    assert Solid(d + ";") && '\n' !in d + ";" by {
      assert (d + ";")[0] == d[0];
    }
    assert key[0] == 'i' && '\n' !in key;
    SolidAfter(key, d + ";");
    KeyedLine(key, d, ";", rest);
  }

  /** A written `key value;`-style line: the key, the value and its tail, a newline, more text. */
  lemma KeyedLine(key: string, value: string, tail: string, rest: string)
    requires Solid(key + (value + tail)) && '\n' !in key && '\n' !in value + tail
    ensures TrimAll(Split(IndentText(key, 1) + value + tail + "\n" + rest, '\n')) ==
      [key + value + tail] + TrimAll(Split(rest, '\n'))
  {
    hide *;
    LineThen(key, value + tail, 1, rest);
    Regroup3(IndentText(key, 1), value, tail, "\n", rest);
    Assoc(key, value, tail);
  }

  lemma Regroup3(a: string, b: string, c: string, nl: string, rest: string)
    ensures a + b + c + nl + rest == a + (b + c) + nl + rest
  {
  }

  lemma Assoc(a: string, b: string, c: string)
    ensures a + b + c == a + (b + c)
  {
  }

  /** The `originalName` line, then more text. */
  lemma NameThen(s: string, rest: string)
    requires '\n' !in s
    ensures TrimAll(Split(IndentText("originalName = \"", 1) + s + "\";" + "\n" + rest, '\n')) ==
      [OriginalNameDecl(s)] + TrimAll(Split(rest, '\n'))
  {
    var key := "originalName = \"";
    var tail := "\";";
    var line := key + (s + tail);
    assert Solid(line) by {
      assert line[0] == 'o';
      assert Last(line) == ';';
    }
    assert '\n' !in key && '\n' !in s + tail;
    KeyedLine(key, s, tail, rest);
  }

  /** The two closing lines that end an entity's text. */
  lemma ClosingPair()
    ensures TrimAll(Split("}" + "\n" + "}", '\n')) == ["}", "}"]
  {
    ClosingLine(0);
    assert IndentText("}", 0) == "}";
    HeadSplit("}", "}", ["}"]);
    SolidTrim("}");
  }

  // ---------------------------------------------------------------------------------------
  // The pieces of an entity's text

  function LayersText(e: Entity): string {
    if e.layers.Some? then IndentText("layers {", 1) + "\n" + LayerLines(e.layers.value) + IndentText("}", 1) + "\n" else ""
  }

  function IdText(e: Entity): string {
    if e.instanceId.Some? then IndentText("instanceId = ", 1) + LongToString(e.instanceId.value) + ";" + "\n" else ""
  }

  function OriginalNameText(e: Entity): string {
    if e.originalName.Some? then IndentText("originalName = \"", 1) + e.originalName.value + "\";" + "\n" else ""
  }

  function DefText(e: Entity): string
    requires WritableEntity(e)
  {
    var def := e.entityDef.value;
    IndentText("entityDef ", 1) + def.name + " {" + "\n" + Members(Object(def.properties), 0, 1) + "}" + "\n" + "}"
  }

  /** The written text of an entity, piece by piece. */
  lemma EntityPieces(e: Entity)
    requires WritableEntity(e)
    ensures EntityString(e) == "entity {" + "\n" + (LayersText(e) + (IdText(e) + (OriginalNameText(e) + DefText(e))))
  {
    hide LayerLines, Members, IndentText, LongToString;
    var def := e.entityDef.value;
    Regroup12("entity {", "\n", LayersText(e), IdText(e), OriginalNameText(e), IndentText("entityDef ", 1), def.name, " {", "\n",
              Members(Object(def.properties), 0, 1), "}", "\n", "}");
  }

  lemma Regroup12(a: string, b: string, c: string, d: string, e: string, f: string, g: string, h: string, i: string,
                  j: string, k: string, l: string, m: string)
    ensures a + b + c + d + e + f + g + h + i + j + k + l + m == a + b + (c + (d + (e + (f + g + h + i + j + k + l + m))))
  {
  }

  lemma LayersPiece(e: Entity, rest: string)
    requires e.layers.Some? ==> forall k :: 0 <= k < |e.layers.value| ==> '\n' !in e.layers.value[k]
    ensures TrimAll(Split(LayersText(e) + rest, '\n')) == LayersPart(e) + TrimAll(Split(rest, '\n'))
  {
    if e.layers.Some? {
      LayersThen(e.layers.value, rest);
    } else {
      assert LayersText(e) + rest == rest;
    }
  }

  lemma IdPiece(e: Entity, rest: string)
    ensures TrimAll(Split(IdText(e) + rest, '\n')) == IdPart(e) + TrimAll(Split(rest, '\n'))
  {
    if e.instanceId.Some? {
      IdThen(e.instanceId.value, rest);
    } else {
      assert IdText(e) + rest == rest;
    }
  }

  lemma NamePiece(e: Entity, rest: string)
    requires e.originalName.Some? ==> '\n' !in e.originalName.value
    ensures TrimAll(Split(OriginalNameText(e) + rest, '\n')) == NamePart(e) + TrimAll(Split(rest, '\n'))
  {
    if e.originalName.Some? {
      NameThen(e.originalName.value, rest);
    } else {
      assert OriginalNameText(e) + rest == rest;
    }
  }

  /** The entityDef block and the entity's closing line, which end the text. */
  lemma DefPiece(e: Entity, dp: DoubleParser)
    requires CanonicalEntity(e, dp)
    ensures WritableEntity(e)
    ensures TrimAll(Split(DefText(e), '\n')) == DefPart(e) + ["}"]
  {
    CanonicalEntityWritable(e, dp);
    var name := e.entityDef.value.name;
    var ps := e.entityDef.value.properties;
    var members := Members(Object(ps), 0, 1);
    var c := "}" + "\n" + "}";
    DefPieceParts(e, dp);
    hide *;
    ClosingPair();
    MembersLayout(Object(ps), 0, 1, c, dp);
    DefLine(name);
    DefRegroup(IndentText("entityDef ", 1), name, " {", members, c);
    KeyedLine("entityDef ", name, " {", members + c);
  }

  lemma DefPieceParts(e: Entity, dp: DoubleParser)
    requires CanonicalEntity(e, dp)
    ensures WritableEntity(e) && Writable(Object(e.entityDef.value.properties))
    ensures IsValidEntityDefName(e.entityDef.value.name) && CanonicalMembers(e.entityDef.value.properties, dp)
    ensures DefText(e) == IndentText("entityDef ", 1) + e.entityDef.value.name + " {" + "\n"
      + Members(Object(e.entityDef.value.properties), 0, 1) + "}" + "\n" + "}"
    ensures DefPart(e) + ["}"] ==
      [DefDecl(e.entityDef.value.name)] + MembersLines(Object(e.entityDef.value.properties), 0) + ["}", "}"]
  {
    CanonicalEntityWritable(e, dp);
  }

  /** The facts about the entityDef's opening line that the layout needs. */
  lemma DefLine(name: string)
    requires IsValidEntityDefName(name)
    ensures Solid("entityDef " + (name + " {")) && '\n' !in "entityDef " && '\n' !in name + " {"
    ensures "entityDef " + name + " {" == DefDecl(name)
  {
    EntityDefNameIsPropertyName(name);
    PropertyNameCharacters(name);
    var line := "entityDef " + (name + " {");
    assert line[0] == 'e' && Last(line) == '{';
  }

  lemma DefRegroup(k: string, name: string, tail: string, members: string, c: string)
    requires c == "}" + "\n" + "}"
    ensures k + name + tail + "\n" + members + "}" + "\n" + "}" == k + name + tail + "\n" + (members + c)
  {
  }

  /** Split at newlines and trimmed, the written text of a canonical entity is its line list. */
  lemma EntityText(e: Entity, dp: DoubleParser)
    requires CanonicalEntity(e, dp)
    ensures WritableEntity(e)
    ensures TrimAll(Split(EntityString(e), '\n')) == EntityLines(e)
  {
    hide *;
    SingleLines(e, dp);
    var l := LayersText(e);
    var i := IdText(e);
    var n := OriginalNameText(e);
    var d := DefText(e);
    EntityPieces(e);
    DefPiece(e, dp);
    NamePiece(e, d);
    IdPiece(e, n + d);
    LayersPiece(e, i + (n + d));
    BodyLines(e);
    HeadSplit("entity {", l + (i + (n + d)), EntityBody(e) + ["}"]);
    SolidLiteral("entity {");
    LinesRegroup(e);
  }

  /** A canonical entity's layer names and original name stay on one line. */
  lemma SingleLines(e: Entity, dp: DoubleParser)
    requires CanonicalEntity(e, dp)
    ensures WritableEntity(e)
    ensures e.layers.Some? ==> forall k :: 0 <= k < |e.layers.value| ==> '\n' !in e.layers.value[k]
    ensures e.originalName.Some? ==> '\n' !in e.originalName.value
  {
    CanonicalEntityWritable(e, dp);
  }

  lemma BodyLines(e: Entity)
    requires WritableEntity(e)
    ensures LayersPart(e) + (IdPart(e) + (NamePart(e) + (DefPart(e) + ["}"]))) == EntityBody(e) + ["}"]
  {
  }

  lemma LinesRegroup(e: Entity)
    requires WritableEntity(e)
    ensures ["entity {"] + (EntityBody(e) + ["}"]) == EntityLines(e)
  {
  }
}
