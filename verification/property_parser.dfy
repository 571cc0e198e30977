/**
 * The recursive property parser: a single-line `name = value;` property, or a block
 * `name = {` ... `}` that becomes an array when its first single-line `num` child appears
 * and an object otherwise.
 */
module PropertyParser {
  import opened Optional
  import opened Text
  import opened Numbers
  import opened Model
  import opened Names
  import opened BlockScanner
  import opened ScalarParser

  /** The immediate children of a block collected so far: the parsed child properties,
      whether a `num` child has made it an array, that `num` child, and the loop index the
      collecting loop leaves behind for the enclosing loop. */
  datatype Children = Children(props: seq<Property>, isArray: bool, num: Option<Property>, index: nat)

  /** A child counts as an array element when it has a name other than `num` and a value. */
  predicate IsElement(p: Property) {
    p.name.Some? && p.value.Some? && p.name.value != "num"
  }

  /** The array elements of a block: the values of its element children, in line order. */
  function ArrayElements(props: seq<Property>): (vs: seq<Value>)
    ensures |vs| <= |props|
  {
    if |props| == 0 then []
    else (if IsElement(props[0]) then [props[0].value.value] else []) + ArrayElements(props[1..])
  }

  /** The integer a `num` child declares, if it parsed to one. */
  function DeclaredCount(num: Option<Property>): Option<Int64> {
    if num.Some? && num.value.value.Some? && num.value.value.value.Long? then Some(num.value.value.value.number)
    else None
  }

  /** The `num` child parsed to a value that is not an integer. */
  predicate NumIsNotNumber(num: Option<Property>) {
    num.Some? && num.value.value.Some? && !num.value.value.value.Long?
  }

  /** Turns collected children into the block's value, with the count warning of an array
      whose `num` disagrees with its number of elements. */
  function Assemble(kids: Children): (r: (Value, seq<Diag>))
    ensures !kids.isArray ==> r.0 == Object(kids.props) && r.1 == []
    ensures kids.isArray ==> r.0.Array? && r.0.elements == ArrayElements(kids.props)
    ensures |r.1| <= 1 && Errors(r.1) == []
    ensures r.1 != [] <==> kids.isArray && DeclaredCount(kids.num).Some? && DeclaredCount(kids.num).value != |ArrayElements(kids.props)|
  {
    if !kids.isArray then (Object(kids.props), [])
    else
      var elements := ArrayElements(kids.props);
      var count := DeclaredCount(kids.num);
      (Array(elements), if count.Some? && count.value != |elements| then [NumMismatch(count.value, |elements|)] else [])
  }

  /** How the property parser's line loop reads one trimmed line. */
  datatype PropertyLine =
    | CloseLine                              // a lone `}`, skipped
    | BadLine                                // not `left = right` with a non-blank right side
    | ScalarLine(name: string, rhs: string)  // a right side not ending in `{`
    | BlockLine(name: string, rhs: string)   // a right side ending in `{`

  /** Splits a trimmed line on `=`; the name is the trimmed left part and `rhs` the trimmed right part. */
  function ClassifyProperty(line: string): (k: PropertyLine)
    ensures k.CloseLine? <==> line == "}"
    ensures k.BadLine? <==> line != "}" && (|Split(line, '=')| != 2 || AllWhiteSpace(Split(line, '=')[1]))
    ensures k.ScalarLine? || k.BlockLine? ==>
      |Split(line, '=')| == 2 && k.name == Trim(TrimEnd(Split(line, '=')[0])) && k.rhs == Trim(Split(line, '=')[1])
    ensures k.ScalarLine? || k.BlockLine? ==> k.rhs != [] && |line| > 0
    ensures k.ScalarLine? ==> Last(k.rhs) != '{'
    ensures k.BlockLine? ==> Last(k.rhs) == '{'
  {
    if line == "}" then CloseLine
    else
      var parts := Split(line, '=');
      if |parts| != 2 || Trim(parts[1]) == "" then BadLine
      else
        assert |line| > 0 by { assert Count(line, '=') == 1; }
        var name := Trim(TrimEnd(parts[0]));
        var rhs := Trim(parts[1]);
        if Last(rhs) != '{' then ScalarLine(name, rhs) else BlockLine(name, rhs)
  }

  /** Parses the text of one property, given as its lines. `None` is the null the source
      returns for a block property with an invalid name; every name it does return is valid. */
  function ParseProperty(lines: seq<string>, dp: DoubleParser): (r: Parsed<Option<Property>>)
    ensures r.Done? && r.value.Some? && r.value.value.name.Some? ==> IsValidPropertyName(r.value.value.name.value)
    decreases Weight(lines), 2, 0
  {
    PropertyLoop(lines, 0, Property(None, false, None), [], dp)
  }

  /** The line loop of the property parser from line `i`, with the property record `acc` and
      the diagnostics `ds` built so far. Later lines overwrite what earlier ones set. */
  function PropertyLoop(lines: seq<string>, i: nat, acc: Property, ds: seq<Diag>, dp: DoubleParser): (r: Parsed<Option<Property>>)
    requires acc.name.Some? ==> IsValidPropertyName(acc.name.value)
    ensures r.Done? && r.value.Some? && r.value.value.name.Some? ==> IsValidPropertyName(r.value.value.name.value)
    ensures r.Done? && r.value.Some? && acc.important ==> r.value.value.important
    decreases Weight(lines), 1, |lines| - i, 1
  {
    if i >= |lines| then Done(Some(acc), ds)
    else LineStep(lines, i, acc, ds, dp)
  }

  /** One iteration of the property parser's line loop, on line `i`. */
  function LineStep(lines: seq<string>, i: nat, acc: Property, ds: seq<Diag>, dp: DoubleParser): (r: Parsed<Option<Property>>)
    requires i < |lines|
    requires acc.name.Some? ==> IsValidPropertyName(acc.name.value)
    ensures r.Done? && r.value.Some? && r.value.value.name.Some? ==> IsValidPropertyName(r.value.value.name.value)
    ensures r.Done? && r.value.Some? && acc.important ==> r.value.value.important
    decreases Weight(lines), 1, |lines| - i, 0
  {
    var line := Trim(lines[i]);
    match ClassifyProperty(line)
    case CloseLine => PropertyLoop(lines, i + 1, acc, ds, dp)
    case BadLine => PropertyLoop(lines, i + 1, acc, ds + [BadPropertyDeclaration(line)], dp)
    case ScalarLine(name, rhs) =>
      (match ScalarProperty(name, rhs, acc, dp)
       case Crash(f) => Crash(f)
       case Done(acc', sd) => PropertyLoop(lines, i + 1, acc', ds + sd, dp))
    case BlockLine(name, rhs) =>
      var important := acc.important || (|rhs| > 1 && rhs[0] == '!');
      assert lines[i] != "";
      match BlockChildren(lines, i + 1, i, i, Children([], false, None, i), 1, ds, dp)
      case Crash(f) => Crash(f)
      case Done(kids, kd) =>
        var (value, warning) := Assemble(kids);
        if !IsValidPropertyName(name) then Done(None, kd + warning + [InvalidPropertyName(name)])
        else PropertyLoop(lines, kids.index + 1, Property(Some(name), important, Some(value)), kd + warning, dp)
  }

  /** One single-line property `name = rhs` applied to the record `acc`: an invalid name
      leaves the record alone; otherwise the name is set and the value is read from `rhs`
      without its `;` (or from all of `rhs` when the `;` is missing), even when that fails. */
  function ScalarProperty(name: string, rhs: string, acc: Property, dp: DoubleParser): (r: Parsed<Property>)
    requires rhs != [] && Last(rhs) != '{'
    requires acc.name.Some? ==> IsValidPropertyName(acc.name.value)
    ensures !IsValidPropertyName(name) ==> r == Done(acc, [InvalidPropertyName(name)])
    ensures r.Done? && IsValidPropertyName(name) ==> r.value == acc.(name := Some(name), value := r.value.value)
    ensures r.Done? ==> r.value.name.Some? ==> IsValidPropertyName(r.value.name.value)
    ensures IsValidPropertyName(name) && Last(rhs) == ';' ==> r.Done? == ParseValue(Trim(DropLast(rhs)), dp).Done?
    ensures IsValidPropertyName(name) && Last(rhs) == ';' && r.Done? ==>
      r.value.value == ParseValue(Trim(DropLast(rhs)), dp).value && r.diags == ParseValue(Trim(DropLast(rhs)), dp).diags
    ensures IsValidPropertyName(name) && Last(rhs) != ';' ==> r.Done? == ParseValue(Trim(rhs), dp).Done?
    ensures IsValidPropertyName(name) && Last(rhs) != ';' && r.Done? ==>
      r.value.value == ParseValue(Trim(rhs), dp).value && r.diags == [MissingSemicolon] + ParseValue(Trim(rhs), dp).diags
  {
    if !IsValidPropertyName(name) then Done(acc, [InvalidPropertyName(name)])
    else
      var text := if Last(rhs) == ';' then DropLast(rhs) else rhs;
      var missing := if Last(rhs) == ';' then [] else [MissingSemicolon];
      match ParseValue(Trim(text), dp)
      case Crash(f) => Crash(f)
      case Done(v, vd) => Done(acc.(name := Some(name), value := v), missing + vd)
  }

  /** How the child-collecting loop reads a non-empty line that leaves the block open. */
  datatype ChildLine =
    | BraceChild                // a lone `{` or `}`, skipped
    | StrayChild                // anything else that is not `left = right`
    | ValuelessChild            // a blank right side
    | ScalarChild(key: string)  // a right side not ending in `{`; `key` is the trimmed left side
    | BlockChild                // a right side ending in `{`, the head of a nested block

  function ClassifyChild(line: string): (k: ChildLine)
    ensures k.BraceChild? <==> |Split(line, '=')| != 2 && (line == "{" || line == "}")
    ensures k.StrayChild? <==> |Split(line, '=')| != 2 && line != "{" && line != "}"
    ensures k.ValuelessChild? <==> |Split(line, '=')| == 2 && AllWhiteSpace(Split(line, '=')[1])
    ensures k.ScalarChild? ==> |Split(line, '=')| == 2 && k.key == TrimStart(TrimEnd(Split(line, '=')[0]))
    ensures k.ScalarChild? || k.BlockChild? ==> |Split(line, '=')| == 2 && Trim(Split(line, '=')[1]) != []
    ensures k.ScalarChild? ==> Last(Trim(Split(line, '=')[1])) != '{'
    ensures k.BlockChild? ==> Last(Trim(Split(line, '=')[1])) == '{'
  {
    var parts := Split(line, '=');
    if |parts| != 2 then
      if line == "{" || line == "}" then BraceChild else StrayChild
    else
      var value := Trim(parts[1]);
      if value == "" then ValuelessChild
      else if Last(value) != '{' then ScalarChild(TrimStart(TrimEnd(parts[0])))
      else BlockChild
  }

  /** The child-collecting loop of a block property from line `j`, stopping before the last
      line of the text or where the brace depth returns to zero. `index` is the enclosing
      loop's index before this iteration and `anchor` the non-empty line that opened the block. */
  function BlockChildren(lines: seq<string>, j: nat, index: nat, anchor: nat, kids: Children,
                         depth: int, ds: seq<Diag>, dp: DoubleParser): (r: Parsed<Children>)
    requires anchor < |lines| && anchor < j <= |lines| + 1 && lines[anchor] != ""
    requires anchor <= index <= j && kids.index == index
    ensures r.Done? ==> index <= r.value.index <= |lines| + 1
    ensures r.Done? ==> |r.value.props| >= |kids.props| && r.value.props[..|kids.props|] == kids.props
    ensures r.Done? && kids.isArray ==> r.value.isArray && r.value.num == kids.num
    decreases Weight(lines), 0, |lines| + 1 - j, 1
  {
    if j + 1 >= |lines| then Done(kids, ds)
    else ChildStep(lines, j, index, anchor, kids, depth, ds, dp)
  }

  /** One iteration of the child-collecting loop, on line `j`, which is not the last line. */
  function ChildStep(lines: seq<string>, j: nat, index: nat, anchor: nat, kids: Children,
                     depth: int, ds: seq<Diag>, dp: DoubleParser): (r: Parsed<Children>)
    requires anchor < j && j + 1 < |lines| && lines[anchor] != ""
    requires anchor <= index <= j && kids.index == index
    ensures r.Done? ==> index <= r.value.index <= |lines| + 1
    ensures r.Done? ==> |r.value.props| >= |kids.props| && r.value.props[..|kids.props|] == kids.props
    ensures r.Done? && kids.isArray ==> r.value.isArray && r.value.num == kids.num
    decreases Weight(lines), 0, |lines| + 1 - j, 0
  {
    var lj := lines[j];
    var next := kids.(index := j + 1);
    if lj == "" then BlockChildren(lines, j + 1, j + 1, anchor, next, depth, ds, dp)
    else if depth + Delta(lj) == 0 then Done(kids, ds)
    else
      match ClassifyChild(lj)
      case BraceChild => BlockChildren(lines, j + 1, j + 1, anchor, next, depth + Delta(lj), ds, dp)
      case StrayChild => BlockChildren(lines, j + 1, j + 1, anchor, next, depth + Delta(lj), ds + [Unexpected(lj)], dp)
      case ValuelessChild => BlockChildren(lines, j + 1, j + 1, anchor, next, depth + Delta(lj), ds + [MissingPropertyValue], dp)
      case ScalarChild(key) =>
        (match AddScalarChild(lines, j, anchor, next, key, dp)
         case Crash(f) => Crash(f)
         case Done(kids', cd) => BlockChildren(lines, j + 1, j + 1, anchor, kids', depth + Delta(lj), ds + cd, dp))
      case BlockChild =>
        match AddBlockChild(lines, j, anchor, kids, dp)
        case Crash(f) => Crash(f)
        case Done(kids', cd) => BlockChildren(lines, kids'.index, kids'.index, anchor, kids', depth + Delta(lj), ds + cd, dp)
  }

  /** A single-line child `key = ...` at line `j`, parsed as a property of its own and
      appended when not null. The first `num` child of a block that is not yet an array is
      parsed once more beforehand and turns the block into an array. */
  function AddScalarChild(lines: seq<string>, j: nat, anchor: nat, kids: Children, key: string, dp: DoubleParser): (r: Parsed<Children>)
    requires anchor < j < |lines| && lines[anchor] != ""
    ensures r.Done? ==> r.value.index == kids.index
    ensures r.Done? ==> |kids.props| <= |r.value.props| <= |kids.props| + 1 && r.value.props[..|kids.props|] == kids.props
    ensures r.Done? ==> r.value.isArray == (kids.isArray || key == "num")
    ensures r.Done? && (kids.isArray || key != "num") ==> r.value.num == kids.num
    decreases Weight(lines), 0, |lines| - j - 1
  {
    SmallerText(lines, j, anchor);
    var isNum := !kids.isArray && key == "num";
    match (if isNum then ParseProperty([lines[j]], dp) else Done(None, []))
    case Crash(f) => Crash(f)
    case Done(num, nd) =>
      var nd' := if isNum && NumIsNotNumber(num) then nd + [NumNotNumber] else nd;
      var kids' := if isNum then kids.(isArray := true, num := num) else kids;
      match ParseProperty([lines[j]], dp)
      case Crash(f) => Crash(f)
      case Done(p, pd) => Done(kids'.(props := kids.props + (if p.Some? then [p.value] else [])), nd' + pd)
  }

  /** What a single-line child adds: the line is parsed as a property of its own, appended
      when not null, with its diagnostics. A first `num` child of a block that is not yet an
      array is parsed twice: its diagnostics come twice, with the "num is not a number" error
      between them when its value is not a number, and the first parse becomes the block's
      `num`. */
  lemma ScalarChildAdded(lines: seq<string>, j: nat, anchor: nat, kids: Children, key: string, dp: DoubleParser)
    requires anchor < j < |lines| && lines[anchor] != ""
    ensures var r := AddScalarChild(lines, j, anchor, kids, key, dp);
      var q := ParseProperty([lines[j]], dp);
      && (r.Crash? <==> q.Crash?)
      && (r.Done? ==>
        && r.value.props == kids.props + (if q.value.Some? then [q.value.value] else [])
        && r.value.index == kids.index
        && r.value.isArray == (kids.isArray || key == "num")
        && (!kids.isArray && key == "num" ==>
          && r.value.num == q.value
          && r.diags == q.diags + (if NumIsNotNumber(q.value) then [NumNotNumber] else []) + q.diags)
        && (kids.isArray || key != "num" ==> r.value.num == kids.num && r.diags == q.diags))
  {
  }

  /** A nested block child opened at line `j`: its text is collected with the block scanner
      and parsed as a property of its own, appended when not null. A nested block that never
      closes is collected to the end of the text and parsed as it is (the scan's loop test
      looks at the enclosing loop's index, which the scan keeps equal to its own). The loop
      resumes after the scan. */
  function AddBlockChild(lines: seq<string>, j: nat, anchor: nat, kids: Children, dp: DoubleParser): (r: Parsed<Children>)
    requires anchor < j < |lines| && lines[anchor] != ""
    ensures r.Done? ==> j < r.value.index <= |lines| + 1
    ensures r.Done? ==> |kids.props| <= |r.value.props| <= |kids.props| + 1 && r.value.props[..|kids.props|] == kids.props
    ensures r.Done? ==> r.value.isArray == kids.isArray && r.value.num == kids.num
    decreases Weight(lines), 0, |lines| - j - 1
  {
    SmallerText(lines, j, anchor);
    var b := ScanBlock(lines[j], lines, j);
    match ParseProperty(b.lines, dp)
    case Crash(f) => Crash(f)
    case Done(p, pd) => Done(kids.(props := kids.props + (if p.Some? then [p.value] else []), index := b.resume + 1), pd)
  }

  /** What a nested block child adds: the block scanned from line `j` is parsed as a property
      of its own, its crash passes through, a non-null result is appended, its diagnostics are
      the step's diagnostics, and the loop resumes after the scan with the array state kept. */
  lemma BlockChildAdded(lines: seq<string>, j: nat, anchor: nat, kids: Children, dp: DoubleParser)
    requires anchor < j < |lines| && lines[anchor] != ""
    ensures var r := AddBlockChild(lines, j, anchor, kids, dp);
      var b := ScanBlock(lines[j], lines, j);
      var q := ParseProperty(b.lines, dp);
      && (r.Crash? <==> q.Crash?)
      && (r.Done? ==>
        && r.value.props == kids.props + (if q.value.Some? then [q.value.value] else [])
        && r.value.index == b.resume + 1
        && r.value.isArray == kids.isArray && r.value.num == kids.num
        && r.diags == q.diags)
  {
  }

  /** A child's own text weighs less than the block text it was cut from, because the
      opening line stays behind. */
  lemma SmallerText(lines: seq<string>, j: nat, anchor: nat)
    requires anchor < j < |lines| && lines[anchor] != ""
    ensures Weight([lines[j]]) < Weight(lines)
    ensures Weight([lines[j]]) + Weight(lines[j + 1..]) < Weight(lines)
  {
    WeightSplitAt(lines, j);
    WeightOfLine(lines[..j], anchor);
    assert lines[j..] == [lines[j]] + lines[j + 1..];
    WeightAppend([lines[j]], lines[j + 1..]);
  }

  // ---------------------------------------------------------------------------------------
  // Invalid names

  /** A single-line property with an invalid name is reported, and the record comes back
      with no name and no value rather than as a null. */
  lemma InvalidScalarName(line: string, dp: DoubleParser)
    requires ClassifyProperty(Trim(line)).ScalarLine? && !IsValidPropertyName(ClassifyProperty(Trim(line)).name)
    ensures ParseProperty([line], dp) ==
      Done(Some(Property(None, false, None)), [InvalidPropertyName(ClassifyProperty(Trim(line)).name)])
  {
    hide Trim, ClassifyProperty, ScalarProperty, BlockChildren, Assemble, IsValidPropertyName;
    var acc := Property(None, false, None);
    var k := ClassifyProperty(Trim(line));
    assert [line][0] == line;
    assert ParseProperty([line], dp) == LineStep([line], 0, acc, [], dp);
    assert ScalarProperty(k.name, k.rhs, acc, dp) == Done(acc, [InvalidPropertyName(k.name)]);
    assert PropertyLoop([line], 1, acc, [] + [InvalidPropertyName(k.name)], dp) == Done(Some(acc), [InvalidPropertyName(k.name)]);
  }

  /** A block property with an invalid name is read to its end and then returned as a null,
      with the invalid name reported last. */
  lemma InvalidBlockName(lines: seq<string>, dp: DoubleParser)
    requires |lines| > 0 && ClassifyProperty(Trim(lines[0])).BlockLine?
    requires !IsValidPropertyName(ClassifyProperty(Trim(lines[0])).name)
    ensures var r := ParseProperty(lines, dp);
      r.Done? ==> r.value.None? && |r.diags| > 0 && r.diags[|r.diags| - 1] == InvalidPropertyName(ClassifyProperty(Trim(lines[0])).name)
  {
    hide Trim, ClassifyProperty, ScalarProperty, Assemble, IsValidPropertyName;
    var acc := Property(None, false, None);
    assert ParseProperty(lines, dp) == LineStep(lines, 0, acc, [], dp);
  }
}
