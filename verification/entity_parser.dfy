/** The per-entity parser: layers, originalName, instanceId and the entityDef block. */
module EntityParser {
  import opened Optional
  import opened Text
  import opened Numbers
  import opened Model
  import opened Names
  import opened BlockScanner
  import opened ScalarParser
  import opened EntityDefParser

  /** How the entity loop reads one trimmed line; the tests are tried in this order. */
  datatype EntityLine =
    | LayersLine        // exactly `layers {` or `layers{`
    | OriginalNameLine  // contains `originalName`
    | InstanceIdLine    // contains `instanceId`
    | EntityDefLine     // contains `entityDef`
    | FrameLine         // `entity{`, `entity {`, `{` or `}`, skipped
    | StrayLine         // anything else

  function ClassifyEntityLine(line: string): (k: EntityLine)
    ensures k.LayersLine? <==> line == "layers {" || line == "layers{"
    ensures k.OriginalNameLine? <==> !k.LayersLine? && Contains(line, "originalName")
    ensures k.InstanceIdLine? <==> !k.LayersLine? && !Contains(line, "originalName") && Contains(line, "instanceId")
    ensures k.EntityDefLine? <==>
      !k.LayersLine? && !Contains(line, "originalName") && !Contains(line, "instanceId") && Contains(line, "entityDef")
    ensures k.FrameLine? ==> line in ["entity{", "entity {", "{", "}"]
    ensures k.OriginalNameLine? || k.InstanceIdLine? || k.EntityDefLine? ==> |line| > 0
  {
    if line == "layers {" || line == "layers{" then LayersLine
    else if Contains(line, "originalName") then OriginalNameLine
    else if Contains(line, "instanceId") then InstanceIdLine
    else if Contains(line, "entityDef") then EntityDefLine
    else if line in ["entity{", "entity {", "{", "}"] then FrameLine
    else StrayLine
  }

  /** Where the layers loop stopped and the layer names it collected. */
  datatype Layers = Layers(names: seq<string>, close: nat)

  /** The layers loop from line `k`: every line up to the first one that trims to `}` is read
      as a scalar; strings are kept, failed reads are skipped, and any other kind of value
      fails the hard cast to a string value. Running off the end of the text throws. */
  function LayersLoop(lines: seq<string>, k: nat, dp: DoubleParser): (r: Parsed<Layers>)
    ensures r.Done? ==> k <= r.value.close < |lines| && Trim(lines[r.value.close]) == "}"
    ensures r.Done? ==> forall m :: k <= m < r.value.close ==> Trim(lines[m]) != "}"
    ensures r.Done? ==> |r.value.names| <= r.value.close - k
    ensures (forall m :: k <= m < |lines| ==> Trim(lines[m]) != "}") ==> r.Crash?
    decreases |lines| - k
  {
    if k >= |lines| then Crash(IndexOutOfRange)
    else if Trim(lines[k]) == "}" then Done(Layers([], k), [])
    else
      match ReadLayer(Trim(lines[k]), dp)
      case Crash(f) => Crash(f)
      case Done(layer, vd) =>
        var after := LayersLoop(lines, k + 1, dp);
        LayersNext(lines, k, after);
        match after
        case Crash(f) => Crash(f)
        case Done(rest, rd) => Done(rest.(names := (if layer.Some? then [layer.value] else []) + rest.names), vd + rd)
  }

  /** What the rest of the layers loop promises from line `k + 1`, carried back to line `k`
      when that line does not close the block. */
  lemma LayersNext(lines: seq<string>, k: nat, after: Parsed<Layers>)
    requires k < |lines| && Trim(lines[k]) != "}"
    requires after.Done? ==> k + 1 <= after.value.close < |lines|
    requires after.Done? ==> forall m :: k + 1 <= m < after.value.close ==> Trim(lines[m]) != "}"
    requires (forall m :: k + 1 <= m < |lines| ==> Trim(lines[m]) != "}") ==> after.Crash?
    ensures after.Done? ==> forall m :: k <= m < after.value.close ==> Trim(lines[m]) != "}"
    ensures (forall m :: k <= m < |lines| ==> Trim(lines[m]) != "}") ==> after.Crash?
  {
  }

  /** One layer line: a string value, nothing after a failed read, or a failed cast. */
  function ReadLayer(text: string, dp: DoubleParser): (r: Parsed<Option<string>>)
    ensures r.Done? <==> ParseValue(text, dp).Done? && (ParseValue(text, dp).value.None? || ParseValue(text, dp).value.value.Str?)
    ensures r.Done? ==> r.diags == ParseValue(text, dp).diags
    ensures r.Done? && r.value.Some? ==> text == "\"" + r.value.value + "\""
  {
    match ParseValue(text, dp)
    case Crash(f) => Crash(f)
    case Done(None, vd) => Done(None, vd)
    case Done(Some(Str(s)), vd) => StringValueIsQuoted(text, dp); Done(Some(s), vd)
    case Done(Some(_), _) => Crash(InvalidCast)
  }

  /** The right-hand side of `key = value;` read as a scalar, for the originalName and
      instanceId lines. `None` with one diagnostic when the line has no single `=` or no `;`. */
  function KeyedValue(line: string, dp: DoubleParser): (r: Parsed<Option<Value>>)
    requires |line| > 0
    ensures |Split(line, '=')| != 2 ==> r == Done(None, [BadPropertyDeclaration(line)])
    ensures |Split(line, '=')| == 2 && Last(line) != ';' ==> r == Done(None, [MissingSemicolon])
    ensures |Split(line, '=')| == 2 && Last(line) == ';' ==>
      |Split(line, '=')[1]| > 0 && r == ParseValue(Trim(DropLast(Split(line, '=')[1])), dp)
  {
    var parts := Split(line, '=');
    if |parts| != 2 then Done(None, [BadPropertyDeclaration(line)])
    else if Last(line) != ';' then Done(None, [MissingSemicolon])
    else
      TwoParts(line, '=');
      assert line[|line| - 1] == (parts[0] + ['='] + parts[1])[|line| - 1];
      ParseValue(Trim(DropLast(parts[1])), dp)
  }

  /** Parses an entity given as its lines. The entityDef, if any, is the last one in the text. */
  function ParseEntity(lines: seq<string>, dp: DoubleParser): (r: Parsed<Entity>)
    ensures r.Done? && r.value.entityDef.Some? ==>
      IsValidEntityDefName(r.value.entityDef.value.name) && AllNamesValid(r.value.entityDef.value.properties)
    ensures (forall m :: 0 <= m < |lines| ==> !Contains(Trim(lines[m]), "entityDef")) && r.Done? ==> r.value.entityDef.None?
  {
    EntityLoop(lines, 0, Entity(None, None, None, None), [], dp)
  }

  /** The line loop of the entity parser from line `i`. */
  function EntityLoop(lines: seq<string>, i: nat, entity: Entity, ds: seq<Diag>, dp: DoubleParser): (r: Parsed<Entity>)
    requires entity.entityDef.Some? ==> IsValidEntityDefName(entity.entityDef.value.name) && AllNamesValid(entity.entityDef.value.properties)
    ensures r.Done? && r.value.entityDef.Some? ==>
      IsValidEntityDefName(r.value.entityDef.value.name) && AllNamesValid(r.value.entityDef.value.properties)
    ensures (forall m :: i <= m < |lines| ==> !Contains(Trim(lines[m]), "entityDef")) && r.Done? ==> r.value.entityDef == entity.entityDef
    decreases |lines| - i
  {
    if i >= |lines| then Done(entity, ds)
    else
      var line := Trim(lines[i]);
      match ClassifyEntityLine(line)
      case LayersLine =>
        (match LayersLoop(lines, i + 1, dp)
         case Crash(f) => Crash(f)
         case Done(layers, ld) => EntityLoop(lines, layers.close + 1, entity.(layers := Some(layers.names)), ds + ld, dp))
      case OriginalNameLine =>
        (match KeyedValue(line, dp)
         case Crash(f) => Crash(f)
         case Done(v, kd) =>
           if |Split(line, '=')| != 2 || Last(line) != ';' then EntityLoop(lines, i + 1, entity, ds + kd, dp)
           else if v.None? then EntityLoop(lines, i + 1, entity.(originalName := None), ds + kd, dp)
           else if v.value.Str? then EntityLoop(lines, i + 1, entity.(originalName := Some(v.value.text)), ds + kd, dp)
           else Crash(InvalidCast))
      case InstanceIdLine =>
        if |Split(line, '=')| != 2 then
          // the message quotes the entity's second line, not this one
          if |lines| < 2 then Crash(IndexOutOfRange)
          else EntityLoop(lines, i + 1, entity, ds + [BadPropertyDeclaration(if i == 0 then lines[1] else Trim(lines[1]))], dp)
        else
          (match KeyedValue(line, dp)
           case Crash(f) => Crash(f)
           case Done(v, kd) =>
             if Last(line) != ';' then EntityLoop(lines, i + 1, entity, ds + kd, dp)
             else if v.None? then EntityLoop(lines, i + 1, entity.(instanceId := None), ds + kd, dp)
             else if v.value.Long? then EntityLoop(lines, i + 1, entity.(instanceId := Some(v.value.number)), ds + kd, dp)
             else Crash(InvalidCast))
      case EntityDefLine =>
        if Last(line) != '{' then EntityLoop(lines, i + 1, entity, ds + [MissingOpenBrace], dp)
        else
          var b := ScanBlock(line, lines, i);
          (match ParseEntityDef(b.lines, dp)
           case Crash(f) => Crash(f)
           case Done(def, dd) => EntityLoop(lines, b.resume + 1, entity.(entityDef := def), ds + dd, dp))
      case FrameLine => EntityLoop(lines, i + 1, entity, ds, dp)
      case StrayLine => EntityLoop(lines, i + 1, entity, ds + [UnexpectedInEntity(line)], dp)
  }
}
