/** The entityDef parser: a header line naming the entityDef, then its properties. */
module EntityDefParser {
  import opened Optional
  import opened Text
  import opened Model
  import opened Names
  import opened BlockScanner
  import opened ScalarParser
  import opened PropertyParser

  /** Reads the header line (already trimmed), split on single spaces. The first token must
      be `entityDef` or `entityDef{`; then either one more token that is the name with `{`
      glued on, or the name and a separate `{`. Every rejection is exactly one error. */
  function ParseHeader(line: string): (r: Parsed<Option<string>>)
    ensures r.Done? ==> (r.value.Some? <==> r.diags == []) && (r.value.None? <==> |r.diags| == 1)
    ensures r.Done? && r.value.Some? ==> IsValidEntityDefName(r.value.value)
    ensures Split(line, ' ')[0] != "entityDef" && Split(line, ' ')[0] != "entityDef{" ==>
      r == Done(None, [UnknownType(Split(line, ' ')[0])])
    ensures |Split(line, ' ')| > 3 ==> r.Done? && r.value.None?
    ensures r.Crash? ==> |Split(line, ' ')| == 2 && Split(line, ' ')[1] == ""
  {
    var parts := Split(line, ' ');
    if parts[0] != "entityDef" && parts[0] != "entityDef{" then Done(None, [UnknownType(parts[0])])
    else if |parts| == 1 then Done(None, [MissingEntityDefName])
    else if |parts| == 2 then
      if parts[1] == "{" then Done(None, [MissingEntityDefName])
      else if parts[1] == "" then Crash(IndexOutOfRange)
      else if Last(parts[1]) != '{' then Done(None, [MissingOpenBrace])
      else if !IsValidEntityDefName(DropLast(parts[1])) then Done(None, [InvalidEntityDefName(DropLast(parts[1]))])
      else Done(Some(DropLast(parts[1])), [])
    else if |parts| == 3 then
      if parts[2] != "{" then Done(None, [MissingOpenBrace])
      else if !IsValidEntityDefName(parts[1]) then Done(None, [InvalidEntityDefName(parts[1])])
      else Done(Some(parts[1]), [])
    else Done(None, [EntityDefNotFound])
  }

  /** The four header spellings that name an entityDef `name`. */
  predicate IsHeader(line: string, name: string) {
    && IsValidEntityDefName(name)
    && (|| line == "entityDef " + name + "{"
        || line == "entityDef{ " + name + "{"
        || line == "entityDef " + name + " {"
        || line == "entityDef{ " + name + " {")
  }

  /** The header parser accepts a line with name `name` exactly in the four spellings. */
  lemma HeaderForms(line: string, name: string)
    ensures ParseHeader(line) == Done(Some(name), []) <==> IsHeader(line, name)
  {
    if IsHeader(line, name) {
      HeaderAccepted(line, name);
    }
    if ParseHeader(line) == Done(Some(name), []) {
      HeaderShape(line, name);
    }
  }

  lemma HeaderAccepted(line: string, name: string)
    requires IsHeader(line, name)
    ensures ParseHeader(line) == Done(Some(name), [])
  {
    NameLacks(name, ' ');
    if line == "entityDef " + name + "{" {
      assert line == "entityDef" + " " + name + "{";
      GluedHeader("entityDef", name);
    } else if line == "entityDef{ " + name + "{" {
      assert line == "entityDef{" + " " + name + "{";
      GluedHeader("entityDef{", name);
    } else if line == "entityDef " + name + " {" {
      assert line == "entityDef" + " " + name + " {";
      SpacedHeader("entityDef", name);
    } else {
      assert line == "entityDef{" + " " + name + " {";
      SpacedHeader("entityDef{", name);
    }
  }

  /** `entityDef NAME{`: two tokens, the name glued to the brace. */
  lemma GluedHeader(word: string, name: string)
    requires word == "entityDef" || word == "entityDef{"
    requires IsValidEntityDefName(name) && ' ' !in name
    ensures ParseHeader(word + " " + name + "{") == Done(Some(name), [])
  {
    assert word + " " + name + "{" == word + " " + (name + "{");
    assert ' ' !in name + "{";
    SplitNoSeparator(name + "{", ' ');
    SplitWords(word, name + "{");
    assert DropLast(name + "{") == name;
  }

  /** `entityDef NAME {`: three tokens. */
  lemma SpacedHeader(word: string, name: string)
    requires word == "entityDef" || word == "entityDef{"
    requires IsValidEntityDefName(name) && ' ' !in name
    ensures ParseHeader(word + " " + name + " {") == Done(Some(name), [])
  {
    assert word + " " + name + " {" == word + " " + (name + " " + "{");
    SplitNoSeparator("{", ' ');
    SplitWords(name, "{");
    SplitWords(word, name + " " + "{");
  }

  /** Two space-free words around one space split back into those words. */
  lemma SplitWords(a: string, b: string)
    requires ' ' !in a
    ensures Split(a + " " + b, ' ') == [a] + Split(b, ' ')
  {
    SplitNoSeparator(a, ' ');
    SplitAround(a, b, ' ');
  }

  lemma HeaderShape(line: string, name: string)
    requires ParseHeader(line) == Done(Some(name), [])
    ensures IsHeader(line, name)
  {
    var parts := Split(line, ' ');
    assert Join(parts, ' ') == parts[0] + [' '] + Join(parts[1..], ' ');
    if |parts| == 2 {
      assert parts[1..] == [parts[1]];
      assert parts[1] == name + "{" by { assert DropLast(parts[1]) + [Last(parts[1])] == parts[1]; }
    } else {
      assert Join(parts[1..], ' ') == parts[1] + [' '] + Join(parts[2..], ' ');
      assert parts[2..] == [parts[2]];
    }
  }

  /** How the entityDef body loop reads one trimmed line. */
  datatype DefLine =
    | DefBrace         // a lone `{` or `}`, skipped
    | DefStray         // anything else that is not `left = right`
    | DefBlankValue    // a blank right side, which the source indexes anyway
    | DefScalar        // a right side not ending in `{`
    | DefImportant     // a `!`-marked block, which dereferences a null property
    | DefBlock         // a right side ending in `{`

  function ClassifyDefLine(line: string): (k: DefLine)
    ensures k.DefBrace? || k.DefStray? <==> |Split(line, '=')| != 2
    ensures k.DefBrace? <==> |Split(line, '=')| != 2 && (line == "{" || line == "}")
    ensures k.DefBlankValue? <==> |Split(line, '=')| == 2 && Trim(Split(line, '=')[1]) == []
    ensures k.DefScalar? <==> |Split(line, '=')| == 2 && Trim(Split(line, '=')[1]) != [] && Last(Trim(Split(line, '=')[1])) != '{'
    ensures k.DefImportant? || k.DefBlock? ==> |Split(line, '=')| == 2 && Trim(Split(line, '=')[1]) != [] && Last(Trim(Split(line, '=')[1])) == '{'
    ensures k.DefImportant? <==>
      |Split(line, '=')| == 2 && Trim(Split(line, '=')[1]) != [] && Last(Trim(Split(line, '=')[1])) == '{' &&
      |Trim(Split(line, '=')[1])| > 1 && Trim(Split(line, '=')[1])[0] == '!'
  {
    var parts := Split(line, '=');
    if |parts| != 2 then
      if line == "{" || line == "}" then DefBrace else DefStray
    else
      var rhs := Trim(parts[1]);
      if rhs == "" then DefBlankValue
      else if Last(rhs) != '{' then DefScalar
      else if |rhs| > 1 && rhs[0] == '!' then DefImportant
      else DefBlock
  }

  /** Parses an entityDef given as its lines: `None` with one error for a rejected header,
      otherwise the name and every non-null property in line order. */
  function ParseEntityDef(lines: seq<string>, dp: DoubleParser): (r: Parsed<Option<EntityDef>>)
    requires |lines| > 0
    ensures ParseHeader(Trim(lines[0])).Crash? ==> r.Crash?
    ensures ParseHeader(Trim(lines[0])).Done? && ParseHeader(Trim(lines[0])).value.None? ==> r == Done(None, ParseHeader(Trim(lines[0])).diags)
    ensures r.Done? && r.value.Some? ==> ParseHeader(Trim(lines[0])) == Done(Some(r.value.value.name), [])
    ensures r.Done? && r.value.Some? ==> IsValidEntityDefName(r.value.value.name) && AllNamesValid(r.value.value.properties)
  {
    match ParseHeader(Trim(lines[0]))
    case Crash(f) => Crash(f)
    case Done(None, hd) => Done(None, hd)
    case Done(Some(name), _) =>
      match DefLoop(lines, 1, [], [], dp)
      case Crash(f) => Crash(f)
      case Done(props, ds) => Done(Some(EntityDef(name, props)), ds)
  }

  /** Every named property carries a valid property name. */
  predicate AllNamesValid(props: seq<Property>) {
    forall k :: 0 <= k < |props| && props[k].name.Some? ==> IsValidPropertyName(props[k].name.value)
  }

  /** The body loop of the entityDef parser from line `i`. */
  function DefLoop(lines: seq<string>, i: nat, props: seq<Property>, ds: seq<Diag>, dp: DoubleParser): (r: Parsed<seq<Property>>)
    requires AllNamesValid(props)
    ensures r.Done? ==> |r.value| >= |props| && r.value[..|props|] == props && AllNamesValid(r.value)
    decreases |lines| - i
  {
    if i >= |lines| then Done(props, ds)
    else
      var line := Trim(lines[i]);
      match ClassifyDefLine(line)
      case DefBrace => DefLoop(lines, i + 1, props, ds, dp)
      case DefStray => DefLoop(lines, i + 1, props, ds + [Unexpected(line)], dp)
      case DefBlankValue => Crash(IndexOutOfRange)
      case DefImportant => Crash(NullReference)
      case DefScalar =>
        (match ParseProperty([line], dp)
         case Crash(f) => Crash(f)
         case Done(p, pd) =>
           var r := DefLoop(lines, i + 1, Append(props, p), ds + pd, dp);
           AppendKept(props, p, r);
           r)
      case DefBlock =>
        var b := ScanBlock(line, lines, i);
        match ParseProperty(b.lines, dp)
        case Crash(f) => Crash(f)
        case Done(p, pd) =>
          var r := DefLoop(lines, b.resume + 1, Append(props, p), ds + pd, dp);
          AppendKept(props, p, r);
          r
  }

  /** A result that keeps the list with one more property in front keeps the list itself. */
  lemma AppendKept(props: seq<Property>, p: Option<Property>, r: Parsed<seq<Property>>)
    requires AllNamesValid(props)
    requires p.Some? && p.value.name.Some? ==> IsValidPropertyName(p.value.name.value)
    requires r.Done? ==> |r.value| >= |Append(props, p)| && r.value[..|Append(props, p)|] == Append(props, p)
    ensures r.Done? ==> |r.value| >= |props| && r.value[..|props|] == props
  {
    if r.Done? && p.Some? {
      assert r.value[..|props|] == r.value[..|props| + 1][..|props|];
    }
  }

  /** Adds a parsed property to a list unless it is null. */
  function Append(props: seq<Property>, p: Option<Property>): (r: seq<Property>)
    requires AllNamesValid(props)
    requires p.Some? && p.value.name.Some? ==> IsValidPropertyName(p.value.name.value)
    ensures r == if p.Some? then props + [p.value] else props
    ensures AllNamesValid(r)
  {
    if p.Some? then props + [p.value] else props
  }

  /** The body loop keeps the nameless record a single-line member with an invalid name
      parses to. */
  lemma InvalidScalarKept(lines: seq<string>, i: nat, props: seq<Property>, ds: seq<Diag>, dp: DoubleParser)
    requires i < |lines| && AllNamesValid(props)
    requires ClassifyDefLine(Trim(lines[i])) == DefScalar
    requires ClassifyProperty(Trim(Trim(lines[i]))).ScalarLine?
    requires !IsValidPropertyName(ClassifyProperty(Trim(Trim(lines[i]))).name)
    ensures DefLoop(lines, i, props, ds, dp) ==
      DefLoop(lines, i + 1, props + [Property(None, false, None)],
        ds + [InvalidPropertyName(ClassifyProperty(Trim(Trim(lines[i]))).name)], dp)
  {
    InvalidScalarName(Trim(lines[i]), dp);
    hide Trim, ClassifyDefLine, ClassifyProperty, ParseProperty, ScanBlock, IsValidPropertyName, Split;
  }

  /** The body loop drops a block member with an invalid name: it goes on after the block
      with the property's diagnostics and no new property. */
  lemma InvalidBlockDropped(lines: seq<string>, i: nat, props: seq<Property>, ds: seq<Diag>, dp: DoubleParser)
    requires i < |lines| && AllNamesValid(props)
    requires ClassifyDefLine(Trim(lines[i])) == DefBlock
    requires var b := ScanBlock(Trim(lines[i]), lines, i);
      |b.lines| > 0 && ClassifyProperty(Trim(b.lines[0])).BlockLine? && !IsValidPropertyName(ClassifyProperty(Trim(b.lines[0])).name)
    ensures var b := ScanBlock(Trim(lines[i]), lines, i);
      ParseProperty(b.lines, dp).Done? ==>
        DefLoop(lines, i, props, ds, dp) == DefLoop(lines, b.resume + 1, props, ds + ParseProperty(b.lines, dp).diags, dp)
  {
    var b := ScanBlock(Trim(lines[i]), lines, i);
    InvalidBlockName(b.lines, dp);
    hide Trim, ClassifyDefLine, ClassifyProperty, ParseProperty, ScanBlock, IsValidPropertyName, Split;
  }
}
