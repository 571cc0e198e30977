/**
 * The reader reads back what the writer writes. A canonical property's written text, split
 * into trimmed lines as the file reader does, parses to the same property with no
 * diagnostic. The proof follows the reader's loops: a `name = value;` line, a block opened
 * by `name = {`, and inside a block one chunk of lines per child.
 */
module RoundTrip {
  import opened Optional
  import opened Text
  import opened Numbers
  import opened Model
  import opened Names
  import opened BlockScanner
  import opened ScalarParser
  import opened PropertyParser
  import opened Writer
  import opened Layout
  import opened Nesting

  // ---------------------------------------------------------------------------------------
  // Scalars and single lines

  /** A scalar's literal reads back as the same value, with no diagnostic: any string, and a
      double whose text the double parser reads back. */
  lemma LiteralRoundTrip(v: Value, dp: DoubleParser)
    requires IsScalar(v) && (v.Double? ==> CanonicalValue(v, dp))
    ensures ParseValue(Literal(v), dp) == Done(Some(v), [])
  {
    var t := Literal(v);
    if !v.Str? {
      LiteralShape(v, dp);
    }
    match v
    case Null =>
      assert t == "NULL";
    case Str(s) =>
    case Bool(b) =>
      assert t == (if b then "true" else "false");
      assert t != "\"";
    case Long(n) =>
      assert ParseInt64(t) == Some(n);
      assert IsNumeric(t) by {
        assert IsDigit(t[0]) || t[0] == '-' || t[0] == '+';
        assert t[0] != "NULL"[0] && t[0] != "true"[0] && t[0] != "false"[0];
      }
    case Double(d) =>
      assert ReadsBackAsDouble(d, dp);
      assert t == Lower(d);
  }

  /** How a written `left = right` line is cut at its one `=` and trimmed. */
  lemma EqualsLine(left: string, right: string)
    requires Solid(left) && Solid(right) && '=' !in left && '=' !in right
    ensures Solid(left + " = " + right) && Last(left + " = " + right) == Last(right)
    ensures Split(left + " = " + right, '=') == [left + " ", " " + right]
    ensures TrimEnd(left + " ") == left && Trim(left) == left && TrimStart(left) == left
    ensures Trim(" " + right) == right
  {
    EqualsSplit(left, right);
    EqualsSides(left, right);
    var line := left + " = " + right;
    assert line[0] == left[0];
  }

  lemma EqualsSplit(left: string, right: string)
    requires '=' !in left && '=' !in right
    ensures Split(left + " = " + right, '=') == [left + " ", " " + right]
  {
    hide *;
    assert left + " = " + right == (left + " ") + ['='] + (" " + right);
    SplitAround(left + " ", " " + right, '=');
    SplitNoSeparator(left + " ", '=');
    SplitNoSeparator(" " + right, '=');
  }

  lemma EqualsSides(left: string, right: string)
    requires Solid(left) && Solid(right)
    ensures TrimEnd(left + " ") == left && Trim(left) == left && TrimStart(left) == left
    ensures Trim(" " + right) == right
  {
    assert DropLast(left + " ") == left;
    assert (" " + right)[1..] == right;
    SolidTrim(left);
    SolidTrim(right);
  }

  /** How both reader loops classify a written `left = right` line. */
  lemma WrittenLine(left: string, right: string)
    requires Solid(left) && Solid(right) && '=' !in left && '=' !in right
    ensures Trim(left + " = " + right) == left + " = " + right
    ensures ClassifyProperty(left + " = " + right) ==
      if Last(right) == '{' then BlockLine(left, right) else ScalarLine(left, right)
    ensures ClassifyChild(left + " = " + right) ==
      if Last(right) == '{' then BlockChild else ScalarChild(left)
  {
    EqualsLine(left, right);
    var line := left + " = " + right;
    SolidTrim(line);
    assert line != "}" by {
      assert |line| >= 5;
    }
  }

  /** A single `name = literal;` line is read as a property with that name, holding the value
      the literal reads as, and no mark. */
  lemma ScalarLineRead(name: string, lit: string, v: Value, dp: DoubleParser)
    requires IsValidPropertyName(name) && Solid(lit) && '=' !in lit
    requires ParseValue(lit, dp) == Done(Some(v), [])
    ensures ParseProperty([name + " = " + (lit + ";")], dp) == Done(Some(Property(Some(name), false, Some(v))), [])
  {
    NameShape(name);
    var right := lit + ";";
    assert Solid(right) && '=' !in right by {
      assert right[0] == lit[0] && Last(right) == ';';
    }
    WrittenLine(name, right);
    var lines := [name + " = " + right];
    var acc := Property(None, false, None);
    assert DropLast(right) == lit;
    SolidTrim(lit);
    var r := ScalarProperty(name, right, acc, dp);
    assert r == Done(Property(Some(name), false, Some(v)), []);
    ScalarLineStep(lines, 0, acc, [], dp, name, right, r.value, []);
    LoopEnd(lines, 1, r.value, [] + [], dp);
  }

  /** A canonical single-line property reads back from its one written line. */
  lemma {:induction false} ScalarRead(p: Property, dp: DoubleParser)
    requires Canonical(p, dp) && IsScalar(p.value.value)
    ensures ParseProperty(PropertyLines(p), dp) == Done(Some(p), [])
  {
    hide *;
    ScalarHead(p, dp);
    var v := p.value.value;
    var name := p.name.value;
    LiteralShape(v, dp);
    LiteralRoundTrip(v, dp);
    ScalarLineRead(name, Literal(v), v, dp);
  }

  /** The one written line of a canonical single-line property. */
  lemma ScalarHead(p: Property, dp: DoubleParser)
    requires Canonical(p, dp) && IsScalar(p.value.value)
    ensures p.name.Some? && IsValidPropertyName(p.name.value) && !p.important
    ensures p.value.Some? && IsScalar(p.value.value) && CanonicalValue(p.value.value, dp) && Writable(p.value.value)
    ensures PropertyLines(p) == [p.name.value + " = " + (Literal(p.value.value) + ";")]
  {
    var v := p.value.value;
    var name := p.name.value;
    CanonicalWritable(v, dp);
    assert NameText(p) == name && IndentText(name, 0) == name;
    assert PropertyString(p, 0) == name + " = " + (Literal(v) + ";");
  }

  /** The name the writer gives array element `i` is a valid indexed property name. */
  lemma ItemNameValid(i: nat)
    ensures IsValidPropertyName(ItemName(i))
  {
    var d := DecimalString(i);
    var s := ItemName(i);
    assert s[..4] == "item";
    assert s[4] == '[';
    assert s[5..5 + |d|] == d;
    assert s[5 + |d|..] == "]";
    assert IndexedAt(s, 4, 5 + |d|);
    IndexedNameMatches(s);
  }

  // ---------------------------------------------------------------------------------------
  // Brace structure of the written lines

  /** The written lines of a canonical property are well-nested; a block's lines are its
      opening line, a well-nested run, and `}`. */
  lemma {:induction false} PropertyNested(p: Property, dp: DoubleParser)
    requires Canonical(p, dp)
    ensures Writable(p.value.value)
    ensures Nested(PropertyLines(p))
    ensures !IsScalar(p.value.value) ==>
      var ls := PropertyLines(p);
      && |ls| >= 2 && ls[0] == Opening(p, 0) && ls[|ls| - 1] == "}"
      && Nested(ls[1..|ls| - 1])
    decreases p.value.value, 2
  {
    var v := p.value.value;
    CanonicalWritable(v, dp);
    match v
    case Array(_) =>
      ItemsNested(v, 0, dp);
      ArrayNested(p, dp);
    case Object(_) =>
      MembersNested(v, 0, dp);
      ObjectNested(p, dp);
    case _ =>
      ScalarNested(p, dp);
  }

  /** An array block is well-nested once its items' lines are. */
  lemma ArrayNested(p: Property, dp: DoubleParser)
    requires Canonical(p, dp) && p.value.Some? && p.value.value.Array? && Writable(p.value.value)
    requires Nested(ItemsLines(p.value.value, 0))
    ensures Nested(PropertyLines(p))
    ensures !IsScalar(p.value.value) ==>
      var ls := PropertyLines(p);
      && |ls| >= 2 && ls[0] == Opening(p, 0) && ls[|ls| - 1] == "}"
      && Nested(ls[1..|ls| - 1])
  {
    hide *;
    var v := p.value.value;
    var ls := PropertyLines(p);
    var opener := Opening(p, 0);
    var numLine := "num = " + DecimalString(|v.elements|) + ";";
    var inner := [numLine] + ItemsLines(v, 0);
    ArrayLinesShape(p);
    NumLineNested(numLine, ItemsLines(v, 0));
    assert ls == [opener] + inner + ["}"];
    assert ls[1..|ls| - 1] == inner;
    NestedBlock(opener, inner, "}");
  }

  /** The written lines of an array property, and the depth change of the ones around its items. */
  lemma ArrayLinesShape(p: Property)
    requires p.value.Some? && p.value.value.Array? && Writable(p.value.value)
    ensures var numLine := "num = " + DecimalString(|p.value.value.elements|) + ";";
      && PropertyLines(p) == [Opening(p, 0), numLine] + ItemsLines(p.value.value, 0) + ["}"]
      && numLine != "" && Last(numLine) == ';'
      && Opening(p, 0) != "" && Delta(Opening(p, 0)) == 1 && Delta("}") == -1
  {
  }

  lemma NumLineNested(numLine: string, rest: seq<string>)
    requires Nested(rest) && numLine != "" && Last(numLine) == ';'
    ensures Nested([numLine] + rest)
  {
    NestedLine(numLine);
    NestedAppend([numLine], rest);
  }

  /** An object block is well-nested once its members' lines are. */
  lemma ObjectNested(p: Property, dp: DoubleParser)
    requires Canonical(p, dp) && p.value.value.Object? && Writable(p.value.value)
    requires Nested(MembersLines(p.value.value, 0))
    ensures Nested(PropertyLines(p))
    ensures !IsScalar(p.value.value) ==>
      var ls := PropertyLines(p);
      && |ls| >= 2 && ls[0] == Opening(p, 0) && ls[|ls| - 1] == "}"
      && Nested(ls[1..|ls| - 1])
  {
    var v := p.value.value;
    var ls := PropertyLines(p);
    var opener := Opening(p, 0);
    assert opener != "" && Delta(opener) == 1;
    assert Delta("}") == -1;
    assert ls[1..|ls| - 1] == MembersLines(v, 0);
    NestedBlock(opener, MembersLines(v, 0), "}");
  }

  /** A single-line property is well-nested. */
  lemma ScalarNested(p: Property, dp: DoubleParser)
    requires Canonical(p, dp) && IsScalar(p.value.value)
    ensures Writable(p.value.value) && Nested(PropertyLines(p))
  {
    NameShape(p.name.value);
    var line := PropertyString(p, 0);
    assert line != "" && Last(line) == ';';
    NestedLine(line);
  }

  lemma {:induction false} MembersNested(v: Value, k: nat, dp: DoubleParser)
    requires v.Object? && CanonicalMembers(v.properties, dp) && k <= |v.properties|
    ensures Writable(v) && Nested(MembersLines(v, k))
    decreases v, 1, |v.properties| - k
  {
    MembersWritable(v.properties, dp);
    if k == |v.properties| {
      assert MembersLines(v, k) == [];
    } else {
      PropertyNested(v.properties[k], dp);
      MembersNested(v, k + 1, dp);
      NestedAppend(PropertyLines(v.properties[k]), MembersLines(v, k + 1));
    }
  }

  lemma {:induction false} ItemsNested(v: Value, i: nat, dp: DoubleParser)
    requires v.Array? && CanonicalValue(v, dp) && i <= |v.elements|
    ensures Writable(v) && Nested(ItemsLines(v, i))
    decreases v, 1, |v.elements| - i
  {
    CanonicalWritable(v, dp);
    if i == |v.elements| {
      assert ItemsLines(v, i) == [];
    } else {
      var e := v.elements[i];
      PropertyNested(ItemProperty(e, i), dp) by {
        ItemNameValid(i);
      }
      ItemAsProperty(e, i, dp);
      ItemsNested(v, i + 1, dp);
      NestedAppend(ItemLines(e, i), ItemsLines(v, i + 1));
    }
  }

  /** Array element `i` is written exactly like a property named `item[i]`. */
  lemma ItemAsProperty(e: Value, i: nat, dp: DoubleParser)
    requires !e.Null? && !e.Array? && CanonicalValue(e, dp)
    ensures Canonical(ItemProperty(e, i), dp)
    ensures WritableElement(e) && Writable(e)
    ensures ItemLines(e, i) == PropertyLines(ItemProperty(e, i))
  {
    hide *;
    CanonicalWritable(e, dp);
    ItemNameValid(i);
    ItemPropertyCanonical(e, i, dp);
    if e.Object? {
      ObjectItemLines(e, i);
    } else {
      ScalarItemLines(e, i);
    }
  }

  lemma ItemPropertyCanonical(e: Value, i: nat, dp: DoubleParser)
    requires !e.Null? && !e.Array? && CanonicalValue(e, dp) && IsValidPropertyName(ItemName(i))
    ensures Canonical(ItemProperty(e, i), dp)
  {
  }

  lemma ObjectItemLines(e: Value, i: nat)
    requires e.Object? && WritableElement(e) && Writable(e)
    ensures ItemLines(e, i) == PropertyLines(ItemProperty(e, i))
  {
    assert Opening(ItemProperty(e, i), 0) == "item[" + DecimalString(i) + "] = {";
  }

  lemma ScalarItemLines(e: Value, i: nat)
    requires !e.Array? && !e.Object? && WritableElement(e) && Writable(e)
    ensures ItemLines(e, i) == PropertyLines(ItemProperty(e, i))
  {
    ScalarItemParts(e, i);
    hide *;
    var d := DecimalString(i);
    var l := Literal(e);
    ItemValueParts(e, i, 0);
    IndentNone("item[");
    IndentNone(ItemName(i));
    ItemGlue(d, l);
  }

  lemma ScalarItemParts(e: Value, i: nat)
    requires IsScalar(e) && WritableElement(e) && Writable(e)
    ensures ItemLines(e, i) == [ItemValueString(e, i, 0)]
    ensures PropertyLines(ItemProperty(e, i)) == [IndentText(ItemName(i), 0) + " = " + Literal(e) + ";"]
    ensures ItemName(i) == "item[" + DecimalString(i) + "]"
  {
  }

  lemma IndentNone(s: string)
    ensures IndentText(s, 0) == s
  {
  }

  lemma ItemGlue(d: string, l: string)
    ensures "item[" + d + "] = " + l + ";" == "item[" + d + "]" + " = " + l + ";"
  {
    assert "]" + " = " == "] = ";
  }

  // ---------------------------------------------------------------------------------------
  // Single iterations of the reader's loops

  /** One iteration of the child loop on a single-line child. */
  lemma ScalarStep(lines: seq<string>, j: nat, index: nat, anchor: nat, kids: Children, depth: int,
                   ds: seq<Diag>, dp: DoubleParser, key: string, kids': Children, cd: seq<Diag>,
                   depth': int, ds': seq<Diag>)
    requires anchor < j && j + 1 < |lines| && lines[anchor] != "" && anchor <= index <= j && kids.index == index
    requires lines[j] != "" && depth + Delta(lines[j]) != 0 && ClassifyChild(lines[j]) == ScalarChild(key)
    requires AddScalarChild(lines, j, anchor, kids.(index := j + 1), key, dp) == Done(kids', cd)
    requires depth' == depth + Delta(lines[j]) && ds' == ds + cd
    ensures kids'.index == j + 1
    ensures BlockChildren(lines, j, index, anchor, kids, depth, ds, dp) ==
      BlockChildren(lines, j + 1, j + 1, anchor, kids', depth', ds', dp)
  {
    assert ClassifyChild(lines[j]) == ScalarChild(key);
    var r := AddScalarChild(lines, j, anchor, kids.(index := j + 1), key, dp);
    assert r.Done? && r.value == kids' && r.diags == cd;
  }

  /** One iteration of the child loop on the opening line of a nested block. */
  lemma BlockStep(lines: seq<string>, j: nat, index: nat, anchor: nat, kids: Children, depth: int,
                  ds: seq<Diag>, dp: DoubleParser, kids': Children, cd: seq<Diag>, next: nat,
                  depth': int, ds': seq<Diag>)
    requires anchor < j && j + 1 < |lines| && lines[anchor] != "" && anchor <= index <= j && kids.index == index
    requires lines[j] != "" && depth + Delta(lines[j]) != 0 && ClassifyChild(lines[j]) == BlockChild
    requires AddBlockChild(lines, j, anchor, kids, dp) == Done(kids', cd)
    requires next == kids'.index && depth' == depth + Delta(lines[j]) && ds' == ds + cd
    ensures j < next <= |lines| + 1
    ensures BlockChildren(lines, j, index, anchor, kids, depth, ds, dp) ==
      BlockChildren(lines, next, next, anchor, kids', depth', ds', dp)
  {
    assert ClassifyChild(lines[j]) == BlockChild;
    var r := AddBlockChild(lines, j, anchor, kids, dp);
    assert r.Done? && r.value == kids' && r.diags == cd;
  }

  /** One iteration of the child loop on a lone brace. */
  lemma BraceStep(lines: seq<string>, j: nat, index: nat, anchor: nat, kids: Children, depth: int,
                  ds: seq<Diag>, dp: DoubleParser, kids': Children, depth': int, next: nat)
    requires anchor < j && j + 1 < |lines| && lines[anchor] != "" && anchor <= index <= j && kids.index == index
    requires lines[j] != "" && depth + Delta(lines[j]) != 0 && ClassifyChild(lines[j]) == BraceChild
    requires next == j + 1 && kids' == kids.(index := next) && depth' == depth + Delta(lines[j])
    ensures BlockChildren(lines, j, index, anchor, kids, depth, ds, dp) ==
      BlockChildren(lines, next, next, anchor, kids', depth', ds, dp)
  {
    assert ClassifyChild(lines[j]) == BraceChild;
  }

  /** A child-loop outcome given field by field. */
  lemma Assembled(r: Parsed<Children>, c: Children)
    requires r.Done? && r.diags == [] && r.value.props == c.props && r.value.index == c.index
    requires r.value.isArray == c.isArray && r.value.num == c.num
    ensures r == Done(c, [])
  {
  }

  /** A single-line child that is not a first `num` is parsed once and appended. */
  lemma PlainScalarChild(lines: seq<string>, j: nat, anchor: nat, kids: Children, key: string,
                         dp: DoubleParser, q: Property, target: Children)
    requires anchor < j < |lines| && lines[anchor] != ""
    requires kids.isArray || key != "num"
    requires ParseProperty([lines[j]], dp) == Done(Some(q), [])
    requires target.props == kids.props + [q] && target.index == kids.index
    requires target.isArray == kids.isArray && target.num == kids.num
    ensures AddScalarChild(lines, j, anchor, kids, key, dp) == Done(target, [])
  {
    PlainScalarParts(lines, j, anchor, kids, key, dp, q);
    Assembled(AddScalarChild(lines, j, anchor, kids, key, dp), target);
  }

  lemma PlainScalarParts(lines: seq<string>, j: nat, anchor: nat, kids: Children, key: string,
                         dp: DoubleParser, q: Property)
    requires anchor < j < |lines| && lines[anchor] != ""
    requires kids.isArray || key != "num"
    requires ParseProperty([lines[j]], dp) == Done(Some(q), [])
    ensures AddScalarChild(lines, j, anchor, kids, key, dp).Done?
    ensures AddScalarChild(lines, j, anchor, kids, key, dp).diags == []
    ensures AddScalarChild(lines, j, anchor, kids, key, dp).value.props == kids.props + [q]
    ensures AddScalarChild(lines, j, anchor, kids, key, dp).value.index == kids.index
    ensures AddScalarChild(lines, j, anchor, kids, key, dp).value.isArray == kids.isArray
    ensures AddScalarChild(lines, j, anchor, kids, key, dp).value.num == kids.num
  {
    assert !(!kids.isArray && key == "num");
    var second := ParseProperty([lines[j]], dp);
    assert second.Done? && second.value == Some(q) && second.diags == [];
  }

  /** The first `num` child: it makes the block an array and is also appended. */
  lemma NumScalarChild(lines: seq<string>, j: nat, anchor: nat, kids: Children, dp: DoubleParser, q: Property,
                       target: Children)
    requires anchor < j < |lines| && lines[anchor] != ""
    requires !kids.isArray && !NumIsNotNumber(Some(q))
    requires ParseProperty([lines[j]], dp) == Done(Some(q), [])
    requires target == Children(kids.props + [q], true, Some(q), kids.index)
    ensures AddScalarChild(lines, j, anchor, kids, "num", dp) == Done(target, [])
  {
    NumScalarParts(lines, j, anchor, kids, dp, q);
    Assembled(AddScalarChild(lines, j, anchor, kids, "num", dp), target);
  }

  lemma NumScalarParts(lines: seq<string>, j: nat, anchor: nat, kids: Children, dp: DoubleParser, q: Property)
    requires anchor < j < |lines| && lines[anchor] != ""
    requires !kids.isArray && !NumIsNotNumber(Some(q))
    requires ParseProperty([lines[j]], dp) == Done(Some(q), [])
    ensures AddScalarChild(lines, j, anchor, kids, "num", dp).Done?
    ensures AddScalarChild(lines, j, anchor, kids, "num", dp).diags == []
    ensures AddScalarChild(lines, j, anchor, kids, "num", dp).value.props == kids.props + [q]
    ensures AddScalarChild(lines, j, anchor, kids, "num", dp).value.index == kids.index
    ensures AddScalarChild(lines, j, anchor, kids, "num", dp).value.isArray
    ensures AddScalarChild(lines, j, anchor, kids, "num", dp).value.num == Some(q)
  {
    var parsed := ParseProperty([lines[j]], dp);
    assert parsed.Done? && parsed.value == Some(q) && parsed.diags == [];
  }

  /** A nested block whose collected text parses to `q` is appended, and the loop resumes
      after the scan. */
  lemma ParsedBlockChild(lines: seq<string>, j: nat, anchor: nat, kids: Children, dp: DoubleParser,
                         chunk: seq<string>, resume: nat, q: Property, target: Children)
    requires anchor < j < |lines| && lines[anchor] != ""
    requires ScanBlock(lines[j], lines, j) == Block(chunk, resume) && Closed(chunk[1..])
    requires ParseProperty(chunk, dp) == Done(Some(q), [])
    requires target == kids.(props := kids.props + [q], index := resume + 1)
    ensures AddBlockChild(lines, j, anchor, kids, dp) == Done(target, [])
  {
    BlockChildParts(lines, j, anchor, kids, dp, chunk, resume, q);
    Assembled(AddBlockChild(lines, j, anchor, kids, dp), target);
  }

  lemma BlockChildParts(lines: seq<string>, j: nat, anchor: nat, kids: Children, dp: DoubleParser,
                        chunk: seq<string>, resume: nat, q: Property)
    requires anchor < j < |lines| && lines[anchor] != ""
    requires ScanBlock(lines[j], lines, j) == Block(chunk, resume) && Closed(chunk[1..])
    requires ParseProperty(chunk, dp) == Done(Some(q), [])
    ensures AddBlockChild(lines, j, anchor, kids, dp).Done?
    ensures AddBlockChild(lines, j, anchor, kids, dp).diags == []
    ensures AddBlockChild(lines, j, anchor, kids, dp).value.props == kids.props + [q]
    ensures AddBlockChild(lines, j, anchor, kids, dp).value.index == resume + 1
    ensures AddBlockChild(lines, j, anchor, kids, dp).value.isArray == kids.isArray
    ensures AddBlockChild(lines, j, anchor, kids, dp).value.num == kids.num
  {
    var b := ScanBlock(lines[j], lines, j);
    assert b.lines == chunk && b.resume == resume && Closed(b.lines[1..]);
    var parsed := ParseProperty(b.lines, dp);
    assert parsed.Done? && parsed.value == Some(q) && parsed.diags == [];
  }

  /** One iteration of the property loop on the opening line of a block with a valid name. */
  lemma BlockLineStep(lines: seq<string>, i: nat, acc: Property, ds: seq<Diag>, dp: DoubleParser,
                      name: string, rhs: string, kids: Children, kd: seq<Diag>,
                      acc': Property, next: nat, ds': seq<Diag>)
    requires i < |lines| && (acc.name.Some? ==> IsValidPropertyName(acc.name.value))
    requires ClassifyProperty(Trim(lines[i])) == BlockLine(name, rhs) && IsValidPropertyName(name)
    requires lines[i] != ""
    requires BlockChildren(lines, i + 1, i, i, Children([], false, None, i), 1, ds, dp) == Done(kids, kd)
    requires acc' == Property(Some(name), acc.important || (|rhs| > 1 && rhs[0] == '!'), Some(Assemble(kids).0))
    requires next == kids.index + 1 && ds' == kd + Assemble(kids).1
    ensures i < next && IsValidPropertyName(acc'.name.value)
    ensures PropertyLoop(lines, i, acc, ds, dp) == PropertyLoop(lines, next, acc', ds', dp)
  {
    hide *;
    LoopAt(lines, i, acc, ds, dp);
    BlockLineAt(lines, i, acc, ds, dp, name, rhs, kids, kd, acc', next, ds');
  }

  lemma LoopAt(lines: seq<string>, i: nat, acc: Property, ds: seq<Diag>, dp: DoubleParser)
    requires i < |lines| && (acc.name.Some? ==> IsValidPropertyName(acc.name.value))
    ensures PropertyLoop(lines, i, acc, ds, dp) == LineStep(lines, i, acc, ds, dp)
  {
  }

  lemma BlockLineAt(lines: seq<string>, i: nat, acc: Property, ds: seq<Diag>, dp: DoubleParser,
                    name: string, rhs: string, kids: Children, kd: seq<Diag>,
                    acc': Property, next: nat, ds': seq<Diag>)
    requires i < |lines| && (acc.name.Some? ==> IsValidPropertyName(acc.name.value))
    requires ClassifyProperty(Trim(lines[i])) == BlockLine(name, rhs) && IsValidPropertyName(name)
    requires lines[i] != ""
    requires BlockChildren(lines, i + 1, i, i, Children([], false, None, i), 1, ds, dp) == Done(kids, kd)
    requires acc' == Property(Some(name), acc.important || (|rhs| > 1 && rhs[0] == '!'), Some(Assemble(kids).0))
    requires next == kids.index + 1 && ds' == kd + Assemble(kids).1
    ensures i < next && IsValidPropertyName(acc'.name.value)
    ensures LineStep(lines, i, acc, ds, dp) == PropertyLoop(lines, next, acc', ds', dp)
  {
    hide Trim, ClassifyProperty, ScalarProperty, BlockChildren, Assemble, IsValidPropertyName, PropertyLoop;
    var r := BlockChildren(lines, i + 1, i, i, Children([], false, None, i), 1, ds, dp);
    assert r.Done? && r.value == kids && r.diags == kd;
  }

  /** One iteration of the property loop on a single-line property. */
  lemma ScalarLineStep(lines: seq<string>, i: nat, acc: Property, ds: seq<Diag>, dp: DoubleParser,
                       name: string, rhs: string, acc': Property, sd: seq<Diag>)
    requires i < |lines| && (acc.name.Some? ==> IsValidPropertyName(acc.name.value))
    requires ClassifyProperty(Trim(lines[i])) == ScalarLine(name, rhs)
    requires ScalarProperty(name, rhs, acc, dp) == Done(acc', sd)
    ensures acc'.name.Some? ==> IsValidPropertyName(acc'.name.value)
    ensures PropertyLoop(lines, i, acc, ds, dp) == PropertyLoop(lines, i + 1, acc', ds + sd, dp)
  {
    assert ClassifyProperty(Trim(lines[i])) == ScalarLine(name, rhs);
    var r := ScalarProperty(name, rhs, acc, dp);
    assert r.Done? && r.value == acc' && r.diags == sd;
  }

  /** One iteration of the property loop on a lone `}`. */
  lemma CloseLineStep(lines: seq<string>, i: nat, acc: Property, ds: seq<Diag>, dp: DoubleParser)
    requires i < |lines| && (acc.name.Some? ==> IsValidPropertyName(acc.name.value))
    requires Trim(lines[i]) == "}"
    ensures PropertyLoop(lines, i, acc, ds, dp) == PropertyLoop(lines, i + 1, acc, ds, dp)
  {
    assert ClassifyProperty(Trim(lines[i])) == CloseLine;
  }

  /** The property loop past the last line. */
  lemma LoopEnd(lines: seq<string>, i: nat, acc: Property, ds: seq<Diag>, dp: DoubleParser)
    requires i >= |lines| && (acc.name.Some? ==> IsValidPropertyName(acc.name.value))
    ensures PropertyLoop(lines, i, acc, ds, dp) == Done(Some(acc), ds)
  {
  }

  // ---------------------------------------------------------------------------------------
  // One child at a time

  /** How the child loop sees a written `left = right` line: not empty, opening a block
      exactly when `right` ends in `{`, and classified accordingly. */
  lemma ChildLine(left: string, right: string)
    requires Solid(left) && Solid(right) && '=' !in left && '=' !in right
    requires Last(right) == ';' || Last(right) == '{'
    ensures var line := left + " = " + right;
      && line != "" && Delta(line) == (if Last(right) == '{' then 1 else 0)
      && ClassifyChild(line) == (if Last(right) == '{' then BlockChild else ScalarChild(left))
  {
    EqualsLine(left, right);
    WrittenLine(left, right);
  }

  /** A single-line child (not a first `num`) that parses to `q` is appended; the loop goes
      on with the next line at the same depth. */
  lemma ScalarChunk(lines: seq<string>, j: nat, index: nat, kids: Children, depth: int, ds: seq<Diag>,
                    dp: DoubleParser, key: string, q: Property)
    requires 0 < j && j + 1 < |lines| && lines[0] != "" && index <= j && kids.index == index && depth >= 1
    requires lines[j] != "" && Delta(lines[j]) == 0 && ClassifyChild(lines[j]) == ScalarChild(key)
    requires kids.isArray || key != "num"
    requires ParseProperty([lines[j]], dp) == Done(Some(q), [])
    ensures BlockChildren(lines, j, index, 0, kids, depth, ds, dp) ==
      BlockChildren(lines, j + 1, j + 1, 0, kids.(props := kids.props + [q], index := j + 1), depth, ds, dp)
  {
    hide *;
    var next := kids.(index := j + 1);
    var kids' := kids.(props := kids.props + [q], index := j + 1);
    PlainScalarChild(lines, j, 0, next, key, dp, q, kids');
    assert ds + [] == ds;
    ScalarStep(lines, j, index, 0, kids, depth, ds, dp, key, kids', [], depth, ds);
  }

  /** The one single-line property of an array that declares its count. */
  function NumProperty(n: Int64): Property
    requires n >= 0
  {
    Property(Some("num"), false, Some(Long(n)))
  }

  /** The line `num = n;` is a single-line child named `num` that reads as the count. */
  lemma NumLine(n: nat, dp: DoubleParser)
    requires n <= INT64_MAX
    ensures var line := "num = " + DecimalString(n) + ";";
      && line != "" && Delta(line) == 0 && ClassifyChild(line) == ScalarChild("num")
      && ParseProperty([line], dp) == Done(Some(NumProperty(n)), [])
  {
    var d := DecimalString(n);
    var right := d + ";";
    assert "num = " + d + ";" == "num" + " = " + right;
    assert NumProperty(n) == Property(Some("num"), false, Some(Long(n)));
    hide *;
    NumLiteral(n, dp);
    NumName();
    SemicolonEnds(d);
    ScalarLineRead("num", d, Long(n), dp);
    ChildLine("num", right);
  }

  /** A count's decimal literal is solid and reads back as the same `Long`. */
  lemma NumLiteral(n: nat, dp: DoubleParser)
    requires n <= INT64_MAX
    ensures Solid(DecimalString(n)) && '=' !in DecimalString(n)
    ensures ParseValue(DecimalString(n), dp) == Done(Some(Long(n)), [])
  {
    assert LongToString(n) == DecimalString(n);
    assert Literal(Long(n)) == DecimalString(n);
    LiteralShape(Long(n), dp);
    LiteralRoundTrip(Long(n), dp);
  }

  /** `num` is a valid property name that a writer can put on the left of ` = `. */
  lemma NumName()
    ensures IsValidPropertyName("num") && Solid("num") && '=' !in "num"
  {
    assert IsValidPropertyName("num") by {
      assert IsValidEntityDefName("num");
    }
    NameShape("num");
  }

  /** Closing a solid literal with `;` keeps it solid and free of `=`. */
  lemma SemicolonEnds(d: string)
    requires Solid(d) && '=' !in d
    ensures Solid(d + ";") && '=' !in d + ";" && Last(d + ";") == ';'
  {
    var right := d + ";";
    assert right[0] == d[0] && Last(right) == ';';
  }

  /** The first `num` child of a block, when it reads as a count, turns the block into an
      array, and is kept both as the declared count and as a child. */
  lemma NumChunk(lines: seq<string>, j: nat, index: nat, kids: Children, depth: int, ds: seq<Diag>,
                 dp: DoubleParser, q: Property, kids': Children)
    requires 0 < j && j + 1 < |lines| && lines[0] != "" && index <= j && kids.index == index && depth >= 1
    requires lines[j] != "" && Delta(lines[j]) == 0 && ClassifyChild(lines[j]) == ScalarChild("num")
    requires !kids.isArray && q.value.Some? && q.value.value.Long?
    requires ParseProperty([lines[j]], dp) == Done(Some(q), [])
    requires kids' == Children(kids.props + [q], true, Some(q), j + 1)
    ensures BlockChildren(lines, j, index, 0, kids, depth, ds, dp) ==
      BlockChildren(lines, j + 1, j + 1, 0, kids', depth, ds, dp)
  {
    var next := kids.(index := j + 1);
    assert !NumIsNotNumber(Some(q));
    NumScalarChild(lines, j, 0, next, dp, q, kids');
    assert ds + [] == ds;
    ScalarStep(lines, j, index, 0, kids, depth, ds, dp, "num", kids', [], depth, ds);
  }

  /** A nested block child whose chunk — its opening line, a well-nested run, `}` — sits at
      line `j` is collected by the scanner, parsed on its own and appended. The loop goes on
      after the scan one level deeper, because the closing line it stops on is never counted. */
  lemma OpenChunk(lines: seq<string>, j: nat, index: nat, kids: Children, depth: int, ds: seq<Diag>,
                  dp: DoubleParser, chunk: seq<string>, q: Property, resume: nat, next: nat, depth': int)
    requires 0 < j && index <= j && kids.index == index && depth >= 1 && depth' == depth + 1
    requires j + 1 < |lines| && lines[0] != ""
    requires lines[j] != "" && Delta(lines[j]) == 1 && ClassifyChild(lines[j]) == BlockChild
    requires ScanBlock(lines[j], lines, j) == Block(chunk, resume) && Closed(chunk[1..])
    requires ParseProperty(chunk, dp) == Done(Some(q), [])
    requires next == resume + 1
    ensures BlockChildren(lines, j, index, 0, kids, depth, ds, dp) ==
      BlockChildren(lines, next, next, 0, kids.(props := kids.props + [q], index := next), depth', ds, dp)
  {
    var kids' := kids.(props := kids.props + [q], index := next);
    ParsedBlockChild(lines, j, 0, kids, dp, chunk, resume, q, kids');
    assert ds + [] == ds;
    BlockStep(lines, j, index, 0, kids, depth, ds, dp, kids', [], next, depth', ds);
  }

  lemma ChunkClosed(chunk: seq<string>)
    requires |chunk| >= 2 && chunk[|chunk| - 1] == "}"
    ensures Closed(chunk[1..]) && Last(chunk[|chunk| - 1]) == '}'
  {
    assert chunk[1..][|chunk| - 2] == "}";
  }

  /** A nested block child as a whole. A chunk with content leaves the loop's depth one
      higher; an empty chunk's `}` is read by the loop itself as a lone brace. */
  lemma BlockChunk(lines: seq<string>, j: nat, index: nat, kids: Children, depth: int, ds: seq<Diag>,
                   dp: DoubleParser, chunk: seq<string>, q: Property, n: nat, resume: nat, depth': int)
    requires 0 < j && index <= j && kids.index == index && depth >= 1
    requires depth' == (if n <= 2 then depth else depth + 1) && resume == (if n == 2 then j else j + n - 1)
    requires n >= 2 && j + n < |lines| && lines[0] != "" && lines[j + n - 1] == "}"
    requires lines[j] != "" && Delta(lines[j]) == 1 && ClassifyChild(lines[j]) == BlockChild
    requires ScanBlock(lines[j], lines, j) == Block(chunk, resume) && Closed(chunk[1..])
    requires ParseProperty(chunk, dp) == Done(Some(q), [])
    ensures BlockChildren(lines, j, index, 0, kids, depth, ds, dp) ==
      BlockChildren(lines, j + n, j + n, 0, kids.(props := kids.props + [q], index := j + n), depth', ds, dp)
  {
    hide *;
    if n == 2 {
      EmptyChunk(lines, j, index, kids, depth, ds, dp, chunk, q, n, depth');
    } else {
      OpenChunk(lines, j, index, kids, depth, ds, dp, chunk, q, resume, j + n, depth');
    }
  }

  /** A nested block with nothing inside: after it, the loop reads its `}` as a lone brace,
      which brings the depth back. */
  lemma EmptyChunk(lines: seq<string>, j: nat, index: nat, kids: Children, depth: int, ds: seq<Diag>,
                   dp: DoubleParser, chunk: seq<string>, q: Property, n: nat, depth': int)
    requires 0 < j && index <= j && kids.index == index && depth >= 1 && depth' == depth
    requires n == 2 && j + n < |lines| && lines[0] != "" && lines[j + 1] == "}"
    requires lines[j] != "" && Delta(lines[j]) == 1 && ClassifyChild(lines[j]) == BlockChild
    requires ScanBlock(lines[j], lines, j) == Block(chunk, j) && Closed(chunk[1..])
    requires ParseProperty(chunk, dp) == Done(Some(q), [])
    ensures BlockChildren(lines, j, index, 0, kids, depth, ds, dp) ==
      BlockChildren(lines, j + n, j + n, 0, kids.(props := kids.props + [q], index := j + n), depth', ds, dp)
  {
    var kids' := kids.(props := kids.props + [q], index := j + 1);
    OpenChunk(lines, j, index, kids, depth, ds, dp, chunk, q, j, j + 1, depth + 1);
    CloseBraceChild();
    BraceStep(lines, j + 1, j + 1, 0, kids', depth + 1, ds, dp,
              kids.(props := kids.props + [q], index := j + n), depth', j + n);
  }

  /** A lone `}` is not a `left = right` line. */
  lemma CloseBraceChild()
    ensures ClassifyChild("}") == BraceChild && Delta("}") == -1
  {
    SplitNoSeparator("}", '=');
  }

  /** The written line of a canonical single-line property, as the child loop sees it. */
  lemma ScalarShape(q: Property, dp: DoubleParser)
    requires Canonical(q, dp) && IsScalar(q.value.value)
    ensures Writable(q.value.value)
    ensures var ls := PropertyLines(q);
      && |ls| == 1 && ls[0] != "" && Delta(ls[0]) == 0 && ClassifyChild(ls[0]) == ScalarChild(q.name.value)
  {
    var v := q.value.value;
    var name := q.name.value;
    CanonicalWritable(v, dp);
    NameShape(name);
    LiteralShape(v, dp);
    var right := Literal(v) + ";";
    assert right[0] == Literal(v)[0] && Last(right) == ';';
    assert NameText(q) == name && IndentText(name, 0) == name;
    assert PropertyString(q, 0) == name + " = " + right;
    ChildLine(name, right);
  }

  /** The written lines of a canonical block property, as the child loop sees them: an
      opening line, a well-nested run, `}`. */
  lemma BlockShape(q: Property, dp: DoubleParser)
    requires Canonical(q, dp) && !IsScalar(q.value.value)
    ensures q.value.Some? && Writable(q.value.value)
    ensures var ls := PropertyLines(q);
      && |ls| >= 2 && ls[0] != "" && Delta(ls[0]) == 1 && ClassifyChild(ls[0]) == BlockChild
      && ls[|ls| - 1] == "}" && Nested(ls[1..|ls| - 1])
  {
    var name := q.name.value;
    NameShape(name);
    PropertyNested(q, dp);
    var right := (if q.important then "! " else "") + "{";
    assert right[0] == '!' || right[0] == '{';
    assert NameText(q) == name && IndentText(name, 0) == name;
    assert Opening(q, 0) == name + " = " + right;
    ChildLine(name, right);
  }

  /** A canonical child property that reads back, with its lines at line `j` of a block, is
      consumed as one chunk and appended. */
  lemma ChildChunk(lines: seq<string>, j: nat, index: nat, kids: Children, depth: int, ds: seq<Diag>,
                   dp: DoubleParser, q: Property, n: nat)
    requires 0 < j && index <= j && kids.index == index && depth >= 1
    requires ReadsBack(q, dp) && (kids.isArray || q.name.value != "num")
    requires n == |PropertyLines(q)| && j + n < |lines| && lines[j..j + n] == PropertyLines(q) && lines[0] != ""
    ensures BlockChildren(lines, j, index, 0, kids, depth, ds, dp) ==
      BlockChildren(lines, j + n, j + n, 0, kids.(props := kids.props + [q], index := j + n),
                    if n <= 2 then depth else depth + 1, ds, dp)
  {
    if IsScalar(q.value.value) {
      ScalarChildChunk(lines, j, index, kids, depth, ds, dp, q, n);
    } else {
      BlockChildChunk(lines, j, index, kids, depth, ds, dp, q, n);
    }
  }

  lemma ScalarChildChunk(lines: seq<string>, j: nat, index: nat, kids: Children, depth: int, ds: seq<Diag>,
                         dp: DoubleParser, q: Property, n: nat)
    requires 0 < j && index <= j && kids.index == index && depth >= 1
    requires ReadsBack(q, dp) && (kids.isArray || q.name.value != "num") && IsScalar(q.value.value)
    requires n == |PropertyLines(q)| && j + n < |lines| && lines[j..j + n] == PropertyLines(q) && lines[0] != ""
    ensures BlockChildren(lines, j, index, 0, kids, depth, ds, dp) ==
      BlockChildren(lines, j + n, j + n, 0, kids.(props := kids.props + [q], index := j + n),
                    if n <= 2 then depth else depth + 1, ds, dp)
  {
    var ls := PropertyLines(q);
    ScalarShape(q, dp);
    SliceOfSlice(lines, j, j + 1, 0, 1);
    assert [lines[j]] == ls;
    ScalarChunk(lines, j, index, kids, depth, ds, dp, q.name.value, q);
  }

  /** The scanner collects exactly the written lines of a canonical block property. */
  lemma BlockScan(lines: seq<string>, j: nat, q: Property, dp: DoubleParser, n: nat)
    requires Canonical(q, dp) && !IsScalar(q.value.value) && Writable(q.value.value)
    requires n == |PropertyLines(q)| && j + n <= |lines| && lines[j..j + n] == PropertyLines(q)
    ensures n >= 2 && lines[j] != "" && Delta(lines[j]) == 1 && ClassifyChild(lines[j]) == BlockChild
    ensures lines[j + n - 1] == "}" && Closed(PropertyLines(q)[1..])
    ensures ScanBlock(lines[j], lines, j) == Block(PropertyLines(q), if n == 2 then j else j + n - 1)
  {
    hide *;
    BlockShape(q, dp);
    var ls := PropertyLines(q);
    SliceOfSlice(lines, j, j + n, 0, 1);
    assert lines[j] == ls[0];
    SliceOfSlice(lines, j, j + n, n - 1, n);
    assert lines[j + n - 1] == ls[n - 1];
    ChunkClosed(ls);
    ScanChunk(lines, j, ls);
  }

  lemma BlockChildChunk(lines: seq<string>, j: nat, index: nat, kids: Children, depth: int, ds: seq<Diag>,
                        dp: DoubleParser, q: Property, n: nat)
    requires 0 < j && index <= j && kids.index == index && depth >= 1
    requires ReadsBack(q, dp) && (kids.isArray || q.name.value != "num") && !IsScalar(q.value.value)
    requires n == |PropertyLines(q)| && j + n < |lines| && lines[j..j + n] == PropertyLines(q) && lines[0] != ""
    ensures BlockChildren(lines, j, index, 0, kids, depth, ds, dp) ==
      BlockChildren(lines, j + n, j + n, 0, kids.(props := kids.props + [q], index := j + n),
                    if n <= 2 then depth else depth + 1, ds, dp)
  {
    BlockScan(lines, j, q, dp, n);
    BlockChunk(lines, j, index, kids, depth, ds, dp, PropertyLines(q), q, n, if n == 2 then j else j + n - 1,
               if n <= 2 then depth else depth + 1);
  }

  // ---------------------------------------------------------------------------------------
  // Whole blocks

  /** A canonical property whose written lines parse back to it with no diagnostic. */
  predicate ReadsBack(q: Property, dp: DoubleParser) {
    && q.name.Some?
    && q.value.Some?
    && Writable(q.value.value)
    && Canonical(q, dp)
    && ParseProperty(PropertyLines(q), dp) == Done(Some(q), [])
  }

  /** The written lines of a run of properties, one after the other; as in the member loop,
      a property without a printable value adds no line. */
  function LinesOf(ps: seq<Property>): seq<string> {
    if |ps| == 0 then []
    else (if ps[0].value.Some? && Writable(ps[0].value.value) then PropertyLines(ps[0]) else []) + LinesOf(ps[1..])
  }

  /** The written lines of the run `ps` stand in `lines` from line `j` on, and only the
      block's last line follows them. */
  predicate Placed(lines: seq<string>, j: nat, ps: seq<Property>)
    decreases |ps|
  {
    if |ps| == 0 then j + 1 == |lines|
    else
      && ps[0].value.Some? && Writable(ps[0].value.value)
      && j + |PropertyLines(ps[0])| < |lines|
      && lines[j..j + |PropertyLines(ps[0])|] == PropertyLines(ps[0])
      && Placed(lines, j + |PropertyLines(ps[0])|, ps[1..])
  }

  /** The child loop over the written lines of a run of child properties that each read
      back appends exactly that run; the loop index ends on the block's last line. */
  lemma {:induction false} ChildrenRead(lines: seq<string>, j: nat, index: nat, kids: Children, depth: int,
                                        ds: seq<Diag>, dp: DoubleParser, ps: seq<Property>, target: Children)
    requires ReadableRun(ps, dp, kids.isArray) && Placed(lines, j, ps)
    requires 0 < j < |lines| && lines[0] != "" && index <= j && kids.index == index && depth >= 1
    requires target == kids.(props := kids.props + ps, index := if |ps| == 0 then index else |lines| - 1)
    ensures BlockChildren(lines, j, index, 0, kids, depth, ds, dp) == Done(target, ds)
    decreases |ps|, 1
  {
    if |ps| == 0 {
      assert kids.props + ps == kids.props;
      ChildrenEnd(lines, j, index, kids, depth, ds, dp, target);
    } else {
      ChildrenMore(lines, j, index, kids, depth, ds, dp, ps, target);
    }
  }

  /** A non-empty run: the first child, then the rest of the run. */
  lemma {:induction false} ChildrenMore(lines: seq<string>, j: nat, index: nat, kids: Children, depth: int,
                                        ds: seq<Diag>, dp: DoubleParser, ps: seq<Property>, target: Children)
    requires |ps| > 0 && ReadableRun(ps, dp, kids.isArray) && Placed(lines, j, ps)
    requires 0 < j < |lines| && lines[0] != "" && index <= j && kids.index == index && depth >= 1
    requires target == kids.(props := kids.props + ps, index := if |ps| == 0 then index else |lines| - 1)
    ensures BlockChildren(lines, j, index, 0, kids, depth, ds, dp) == Done(target, ds)
    decreases |ps|, 0
  {
    hide *;
    ReadableTail(ps, dp, kids.isArray);
    var n := |PropertyLines(ps[0])|;
    var kids' := kids.(props := kids.props + [ps[0]], index := j + n);
    var depth' := if n <= 2 then depth else depth + 1;
    ChildrenNext(lines, j, index, kids, depth, dp, ps, target, n, kids', depth');
    ChildrenRead(lines, j + n, j + n, kids', depth', ds, dp, ps[1..], target);
    ChildrenStep(lines, j, index, kids, depth, ds, dp, ps, target, n, kids', depth');
  }

  /** The child loop stops on the block's last line. */
  lemma ChildrenEnd(lines: seq<string>, j: nat, index: nat, kids: Children, depth: int, ds: seq<Diag>,
                    dp: DoubleParser, target: Children)
    requires 0 < j && j + 1 == |lines| && lines[0] != "" && index <= j && kids.index == index && target == kids
    ensures BlockChildren(lines, j, index, 0, kids, depth, ds, dp) == Done(target, ds)
  {
  }

  /** What is left after the first child of a run: the rest of the run, on the lines after
      the child's. */
  lemma ChildrenNext(lines: seq<string>, j: nat, index: nat, kids: Children, depth: int,
                     dp: DoubleParser, ps: seq<Property>, target: Children, n: nat, kids': Children, depth': int)
    requires |ps| > 0 && ReadableRun(ps, dp, kids.isArray) && Placed(lines, j, ps)
    requires 0 < j < |lines| && lines[0] != "" && index <= j && kids.index == index && depth >= 1
    requires target == kids.(props := kids.props + ps, index := if |ps| == 0 then index else |lines| - 1)
    requires n == |PropertyLines(ps[0])| && kids' == kids.(props := kids.props + [ps[0]], index := j + n)
    requires depth' == if n <= 2 then depth else depth + 1
    ensures ReadableRun(ps[1..], dp, kids'.isArray) && Placed(lines, j + n, ps[1..])
    ensures 0 < j + n < |lines| && kids'.index == j + n && depth' >= 1
    ensures target == kids'.(props := kids'.props + ps[1..], index := if |ps[1..]| == 0 then j + n else |lines| - 1)
  {
    hide *;
    ReadableTail(ps, dp, kids.isArray);
    PlacedTail(lines, j, ps);
    RunRest(kids, ps, target, kids', j + n, |lines|);
  }

  /** The first property of a placed run stands on its lines, and the rest is placed after it. */
  lemma PlacedTail(lines: seq<string>, j: nat, ps: seq<Property>)
    requires |ps| > 0 && Placed(lines, j, ps)
    ensures ps[0].value.Some? && Writable(ps[0].value.value)
    ensures var n := |PropertyLines(ps[0])|;
      && j + n < |lines| && Placed(lines, j + n, ps[1..])
      && (|ps| == 1 ==> j + n == |lines| - 1)
  {
  }

  /** One child of the run: the loop reads its lines, then goes on with the rest. */
  lemma ChildrenStep(lines: seq<string>, j: nat, index: nat, kids: Children, depth: int, ds: seq<Diag>,
                     dp: DoubleParser, ps: seq<Property>, target: Children, n: nat, kids': Children, depth': int)
    requires |ps| > 0 && ReadableRun(ps, dp, kids.isArray) && Placed(lines, j, ps)
    requires 0 < j < |lines| && lines[0] != "" && index <= j && kids.index == index && depth >= 1
    requires n == |PropertyLines(ps[0])| && kids' == kids.(props := kids.props + [ps[0]], index := j + n)
    requires depth' == if n <= 2 then depth else depth + 1
    requires j + n < |lines| && BlockChildren(lines, j + n, j + n, 0, kids', depth', ds, dp) == Done(target, ds)
    ensures BlockChildren(lines, j, index, 0, kids, depth, ds, dp) == Done(target, ds)
  {
    ReadableTail(ps, dp, kids.isArray);
    ChildChunk(lines, j, index, kids, depth, ds, dp, ps[0], n);
  }

  /** A run of child properties that each read back; unless the block is already an array,
      none of them is named `num`. */
  predicate ReadableRun(ps: seq<Property>, dp: DoubleParser, isArray: bool)
    decreases |ps|
  {
    |ps| == 0 || (ReadsBack(ps[0], dp) && (isArray || ps[0].name.value != "num") && ReadableRun(ps[1..], dp, isArray))
  }

  lemma ReadableTail(ps: seq<Property>, dp: DoubleParser, isArray: bool)
    requires |ps| > 0 && ReadableRun(ps, dp, isArray)
    ensures ps[0].value.Some? && Writable(ps[0].value.value)
    ensures ReadsBack(ps[0], dp) && (isArray || ps[0].name.value != "num")
    ensures ReadableRun(ps[1..], dp, isArray)
  {
  }

  /** A run whose every property reads back (and, outside an array, is not named `num`) is
      a readable run. */
  lemma {:induction false} RunReadable(ps: seq<Property>, dp: DoubleParser, isArray: bool)
    requires forall k :: 0 <= k < |ps| ==> ReadsBack(ps[k], dp) && (isArray || ps[k].name.value != "num")
    ensures ReadableRun(ps, dp, isArray)
    decreases |ps|
  {
    if |ps| > 0 {
      assert forall k :: 0 <= k < |ps[1..]| ==> ps[1..][k] == ps[k + 1];
      RunReadable(ps[1..], dp, isArray);
    }
  }

  /** The written lines of the first property of a run open the run's lines. */
  lemma RunHead(lines: seq<string>, j: nat, ps: seq<Property>)
    requires |ps| > 0 && ps[0].value.Some? && Writable(ps[0].value.value)
    requires j + |LinesOf(ps)| == |lines| - 1 && lines[j..|lines| - 1] == LinesOf(ps)
    ensures var n := |PropertyLines(ps[0])|;
      && j + n < |lines| && lines[j..j + n] == PropertyLines(ps[0])
      && j + n + |LinesOf(ps[1..])| == |lines| - 1 && lines[j + n..|lines| - 1] == LinesOf(ps[1..])
  {
    hide *;
    var ql := PropertyLines(ps[0]);
    var rest := LinesOf(ps[1..]);
    LinesOfCons(ps);
    SliceOfSlice(lines, j, |lines| - 1, 0, |ql|);
    SliceOfSlice(lines, j, |lines| - 1, |ql|, |ql| + |rest|);
    assert (ql + rest)[..|ql|] == ql && (ql + rest)[|ql|..] == rest;
  }

  lemma LinesOfCons(ps: seq<Property>)
    requires |ps| > 0 && ps[0].value.Some? && Writable(ps[0].value.value)
    ensures LinesOf(ps) == PropertyLines(ps[0]) + LinesOf(ps[1..])
  {
  }

  /** Lines that hold the written lines of a run, then one more line, place the run. */
  lemma {:induction false} PlacedRun(lines: seq<string>, j: nat, ps: seq<Property>)
    requires forall k :: 0 <= k < |ps| ==> ps[k].value.Some? && Writable(ps[k].value.value)
    requires j + |LinesOf(ps)| == |lines| - 1 && lines[j..|lines| - 1] == LinesOf(ps)
    ensures Placed(lines, j, ps)
    decreases |ps|
  {
    hide *;
    if |ps| == 0 {
      PlacedNil(lines, j, ps);
    } else {
      RunHead(lines, j, ps);
      assert forall k :: 0 <= k < |ps[1..]| ==> ps[1..][k] == ps[k + 1];
      PlacedRun(lines, j + |PropertyLines(ps[0])|, ps[1..]);
      PlacedCons(lines, j, ps);
    }
  }

  lemma PlacedNil(lines: seq<string>, j: nat, ps: seq<Property>)
    requires |ps| == 0 && j + |LinesOf(ps)| == |lines| - 1
    ensures Placed(lines, j, ps)
  {
  }

  lemma PlacedCons(lines: seq<string>, j: nat, ps: seq<Property>)
    requires |ps| > 0 && ps[0].value.Some? && Writable(ps[0].value.value)
    requires j + |PropertyLines(ps[0])| < |lines| && lines[j..j + |PropertyLines(ps[0])|] == PropertyLines(ps[0])
    requires Placed(lines, j + |PropertyLines(ps[0])|, ps[1..])
    ensures Placed(lines, j, ps)
  {
  }

  /** What is left of a run after its first property, and the record it is read into. */
  lemma RunRest(kids: Children, ps: seq<Property>, target: Children, kids': Children, next: nat, size: nat)
    requires |ps| > 0 && size > 0 && kids' == kids.(props := kids.props + [ps[0]], index := next)
    requires target == kids.(props := kids.props + ps, index := size - 1)
    requires |ps| == 1 ==> next == size - 1
    ensures target == kids'.(props := kids'.props + ps[1..], index := if |ps[1..]| == 0 then next else size - 1)
  {
    assert kids.props + [ps[0]] + ps[1..] == kids.props + ps;
  }

  /** The written lines of an object's members from member `k` on are those of the run of
      members. */
  lemma {:induction false} MembersAsRun(v: Value, k: nat, dp: DoubleParser)
    requires v.Object? && CanonicalValue(v, dp) && k <= |v.properties|
    ensures Writable(v)
    ensures forall m :: 0 <= m < |v.properties[k..]| ==>
      v.properties[k..][m].value.Some? && Writable(v.properties[k..][m].value.value)
    ensures MembersLines(v, k) == LinesOf(v.properties[k..])
    decreases |v.properties| - k
  {
    CanonicalWritable(v, dp);
    var ps := v.properties;
    if k < |ps| {
      MembersAsRun(v, k + 1, dp);
      assert ps[k..][1..] == ps[k + 1..];
    }
  }

  /** The written lines of an array's elements from element `i` on are those of the run of
      `item[i]` properties. */
  lemma {:induction false} ItemsAsRun(v: Value, i: nat, dp: DoubleParser)
    requires v.Array? && CanonicalValue(v, dp) && i <= |v.elements|
    ensures Writable(v)
    ensures forall m :: 0 <= m < |ItemProps(v, i)| ==>
      Canonical(ItemProps(v, i)[m], dp) && Writable(ItemProps(v, i)[m].value.value)
    ensures ItemsLines(v, i) == LinesOf(ItemProps(v, i))
    decreases |v.elements| - i
  {
    CanonicalWritable(v, dp);
    if i < |v.elements| {
      var e := v.elements[i];
      ItemAsProperty(e, i, dp);
      ItemsAsRun(v, i + 1, dp);
      var r := ItemProps(v, i);
      assert r == [ItemProperty(e, i)] + ItemProps(v, i + 1);
      assert r[1..] == ItemProps(v, i + 1);
      assert forall m :: 1 <= m < |r| ==> r[m] == ItemProps(v, i + 1)[m - 1];
    }
  }

  /** The child properties the reader builds for the elements of an array from element `i` on. */
  function ItemProps(v: Value, i: nat): (r: seq<Property>)
    requires v.Array? && i <= |v.elements|
    ensures |r| == |v.elements| - i
    ensures forall m :: 0 <= m < |r| ==> r[m] == ItemProperty(v.elements[i + m], i + m)
    decreases |v.elements| - i
  {
    if i == |v.elements| then [] else [ItemProperty(v.elements[i], i)] + ItemProps(v, i + 1)
  }

  /** The item children give back the array's elements, in order. */
  lemma {:induction false} ItemElements(v: Value, i: nat)
    requires v.Array? && i <= |v.elements|
    ensures ArrayElements(ItemProps(v, i)) == v.elements[i..]
    decreases |v.elements| - i
  {
    if i < |v.elements| {
      var r := ItemProps(v, i);
      assert |ItemName(i)| > 3;
      assert IsElement(r[0]);
      assert r[1..] == ItemProps(v, i + 1);
      ItemElements(v, i + 1);
      assert v.elements[i..] == [v.elements[i]] + v.elements[i + 1..];
    }
  }

  /** The property loop on a block's lines: the opening line names the property and carries
      its mark, the child loop collects the children, and the closing line is skipped. */
  lemma BlockRead(lines: seq<string>, name: string, important: bool, kids: Children, dp: DoubleParser, p: Property)
    requires IsValidPropertyName(name) && |lines| >= 2 && lines[|lines| - 1] == "}"
    requires lines[0] == name + " = " + ((if important then "! " else "") + "{")
    requires BlockChildren(lines, 1, 0, 0, Children([], false, None, 0), 1, [], dp) == Done(kids, [])
    requires kids.index == |lines| - 1 || (kids.index == 0 && |lines| == 2)
    requires Assemble(kids).1 == [] && p == Property(Some(name), important, Some(Assemble(kids).0))
    ensures ParseProperty(lines, dp) == Done(Some(p), [])
  {
    var right := (if important then "! " else "") + "{";
    OpeningLine(name, right, important);
    var acc := Property(None, false, None);
    assert lines[0] != "" && Trim(lines[0]) == Trim(name + " = " + right);
    if kids.index == 0 && |lines| == 2 {
      BlockLineStep(lines, 0, acc, [], dp, name, right, kids, [], p, 1, []);
      assert Trim(lines[1]) == "}";
      CloseLineStep(lines, 1, p, [], dp);
      LoopEnd(lines, 2, p, [], dp);
    } else {
      BlockLineStep(lines, 0, acc, [], dp, name, right, kids, [], p, |lines|, []);
      LoopEnd(lines, |lines|, p, [], dp);
    }
  }

  /** How the property loop sees a written opening line. */
  lemma OpeningLine(name: string, right: string, important: bool)
    requires IsValidPropertyName(name) && right == (if important then "! " else "") + "{"
    ensures Trim(name + " = " + right) != ""
    ensures ClassifyProperty(Trim(name + " = " + right)) == BlockLine(name, right)
    ensures (|right| > 1 && right[0] == '!') == important
    ensures Trim("}") == "}"
  {
    NameShape(name);
    assert Solid(right) && '=' !in right by {
      assert right[0] == '!' || right[0] == '{';
    }
    WrittenLine(name, right);
    SolidTrim("}");
  }

  /** A canonical object property reads back from its written lines. */
  lemma {:induction false} ObjectRead(p: Property, dp: DoubleParser)
    requires Canonical(p, dp) && p.value.value.Object?
    ensures ReadsBack(p, dp)
    decreases p.value.value, 2
  {
    var ps := p.value.value.properties;
    forall k | 0 <= k < |ps| ensures ReadsBack(ps[k], dp) {
      assert Canonical(ps[k], dp);
      PropertyRead(ps[k], dp);
    }
    ObjectBody(p, dp);
  }

  /** The written lines of a canonical object property: the opening line, the members' lines, `}`. */
  lemma ObjectLines(p: Property, dp: DoubleParser)
    requires Canonical(p, dp) && p.value.value.Object?
    ensures Writable(p.value.value)
    ensures var ps := p.value.value.properties;
      && (forall k :: 0 <= k < |ps| ==> ps[k].value.Some? && Writable(ps[k].value.value))
      && var lines := PropertyLines(p);
      && |lines| == |LinesOf(ps)| + 2 && lines[|lines| - 1] == "}" && lines[1..|lines| - 1] == LinesOf(ps)
      && lines[0] == p.name.value + " = " + ((if p.important then "! " else "") + "{")
  {
    var v := p.value.value;
    CanonicalWritable(v, dp);
    MembersAsRun(v, 0, dp);
    assert v.properties[0..] == v.properties;
    ObjectText(p, 0);
    assert NameText(p) == p.name.value && IndentText(p.name.value, 0) == p.name.value;
  }

  /** An object property whose members each read back reads back itself. */
  lemma ObjectBody(p: Property, dp: DoubleParser)
    requires Canonical(p, dp) && p.value.value.Object?
    requires forall k :: 0 <= k < |p.value.value.properties| ==> ReadsBack(p.value.value.properties[k], dp)
    ensures ReadsBack(p, dp)
  {
    hide *;
    ObjectHead(p, dp);
    var v := p.value.value;
    var ps := v.properties;
    ObjectLines(p, dp);
    var lines := PropertyLines(p);
    var kids0 := Children([], false, None, 0);
    var kids := Children(ps, false, None, if |ps| == 0 then 0 else |lines| - 1);
    assert kids == kids0.(props := kids0.props + ps, index := if |ps| == 0 then 0 else |lines| - 1);
    RunReadable(ps, dp, false);
    PlacedRun(lines, 1, ps);
    ChildrenRead(lines, 1, 0, kids0, 1, [], dp, ps, kids);
    BlockRead(lines, p.name.value, p.important, kids, dp, p);
    ReadsBackIntro(p, dp);
  }

  /** What a canonical object property guarantees of its name and of its members' names. */
  lemma ObjectHead(p: Property, dp: DoubleParser)
    requires Canonical(p, dp) && p.value.value.Object?
    ensures p.name.Some? && IsValidPropertyName(p.name.value) && p.value.Some? && Writable(p.value.value)
    ensures var ps := p.value.value.properties;
      && (forall k :: 0 <= k < |ps| ==> ps[k].name.Some? && ps[k].name.value != "num")
      && (|ps| == 0 ==> |PropertyLines(p)| == 2)
      && PropertyLines(p)[0] != ""
  {
    ObjectLines(p, dp);
    var ps := p.value.value.properties;
    forall k | 0 <= k < |ps| ensures ps[k].name.Some? && ps[k].name.value != "num" {
      assert Canonical(ps[k], dp);
    }
  }

  /** A canonical array property reads back from its written lines: the `num` line makes
      the block an array with the right count, and the items give back the elements. */
  lemma {:induction false} ArrayRead(p: Property, dp: DoubleParser)
    requires Canonical(p, dp) && p.value.value.Array?
    ensures ReadsBack(p, dp)
    decreases p.value.value, 2
  {
    var v := p.value.value;
    var es := v.elements;
    var ps := ItemProps(v, 0);
    forall k | 0 <= k < |ps| ensures ReadsBack(ps[k], dp) {
      ItemAsProperty(es[k], k, dp);
      PropertyRead(ItemProperty(es[k], k), dp);
    }
    ArrayBody(p, dp);
  }

  /** The written lines of a canonical array property: the opening line, the `num` line,
      the items' lines, `}`. */
  lemma ArrayLinesRun(p: Property, dp: DoubleParser)
    requires Canonical(p, dp) && p.value.value.Array?
    ensures Writable(p.value.value)
    ensures var ps := ItemProps(p.value.value, 0);
      && (forall k :: 0 <= k < |ps| ==> ps[k].value.Some? && Writable(ps[k].value.value) && ps[k].name.value != "num")
      && var lines := PropertyLines(p);
      && |lines| == |LinesOf(ps)| + 3 && lines[|lines| - 1] == "}" && lines[2..|lines| - 1] == LinesOf(ps)
      && lines[1] == "num = " + DecimalString(|p.value.value.elements|) + ";"
      && lines[0] == p.name.value + " = " + ((if p.important then "! " else "") + "{")
  {
    var v := p.value.value;
    CanonicalWritable(v, dp);
    ItemsAsRun(v, 0, dp);
    var ps := ItemProps(v, 0);
    forall k | 0 <= k < |ps| ensures ps[k].name.value != "num" {
      assert |ItemName(k)| > 3;
    }
    var lines := PropertyLines(p);
    assert lines == [Opening(p, 0), "num = " + DecimalString(|v.elements|) + ";"] + LinesOf(ps) + ["}"];
    assert lines[2..|lines| - 1] == LinesOf(ps);
    assert NameText(p) == p.name.value && IndentText(p.name.value, 0) == p.name.value;
  }

  /** What the reader assembles from the `num` child and the item children of an array is
      the array, with no count warning. */
  lemma ArrayAssembled(v: Value, numP: Property, kids: Children)
    requires v.Array? && |v.elements| <= INT64_MAX && numP == NumProperty(|v.elements|)
    requires kids == Children([numP] + ItemProps(v, 0), true, Some(numP), kids.index)
    ensures Assemble(kids) == (v, [])
  {
    assert ([numP] + ItemProps(v, 0))[1..] == ItemProps(v, 0);
    ItemElements(v, 0);
    assert v.elements[0..] == v.elements;
    assert ArrayElements(kids.props) == v.elements;
  }

  /** An array property whose item children each read back reads back itself. */
  lemma ArrayBody(p: Property, dp: DoubleParser)
    requires Canonical(p, dp) && p.value.value.Array?
    requires forall k :: 0 <= k < |ItemProps(p.value.value, 0)| ==> ReadsBack(ItemProps(p.value.value, 0)[k], dp)
    ensures ReadsBack(p, dp)
  {
    hide *;
    ArrayHead(p, dp);
    var v := p.value.value;
    var ps := ItemProps(v, 0);
    ArrayLinesRun(p, dp);
    var lines := PropertyLines(p);
    var numP := NumProperty(|v.elements|);
    var kids0 := Children([], false, None, 0);
    var kids1 := Children([numP], true, Some(numP), 2);
    assert kids1 == Children(kids0.props + [numP], true, Some(numP), 1 + 1);
    NumChunk(lines, 1, 0, kids0, 1, [], dp, numP, kids1);
    var kids := Children([numP] + ps, true, Some(numP), if |ps| == 0 then 2 else |lines| - 1);
    assert kids == kids1.(props := kids1.props + ps, index := if |ps| == 0 then 2 else |lines| - 1);
    RunReadable(ps, dp, true);
    PlacedRun(lines, 2, ps);
    ChildrenRead(lines, 2, 2, kids1, 1, [], dp, ps, kids);
    ArrayAssembled(v, numP, kids);
    BlockRead(lines, p.name.value, p.important, kids, dp, p);
    ReadsBackIntro(p, dp);
  }

  /** The opening line and the `num` line of a written array property. */
  lemma ArrayHead(p: Property, dp: DoubleParser)
    requires Canonical(p, dp) && p.value.value.Array?
    ensures p.name.Some? && IsValidPropertyName(p.name.value) && p.value.Some?
    ensures INT64_MIN <= 0 <= |p.value.value.elements| <= INT64_MAX
    ensures Writable(p.value.value)
    ensures var lines := PropertyLines(p);
      var q := NumProperty(|p.value.value.elements|);
      && |lines| >= 3 && lines[0] != "" && (|ItemProps(p.value.value, 0)| == 0 ==> |lines| == 3)
      && lines[1] != "" && Delta(lines[1]) == 0 && ClassifyChild(lines[1]) == ScalarChild("num")
      && q.value.Some? && q.value.value.Long? && ParseProperty([lines[1]], dp) == Done(Some(q), [])
  {
    ArrayLinesRun(p, dp);
    NumLine(|p.value.value.elements|, dp);
    var lines := PropertyLines(p);
    assert lines[0][0] == p.name.value[0];
  }

  /** The parts of `ReadsBack`, put together. */
  lemma ReadsBackIntro(p: Property, dp: DoubleParser)
    requires p.name.Some? && p.value.Some? && Writable(p.value.value) && Canonical(p, dp)
    requires ParseProperty(PropertyLines(p), dp) == Done(Some(p), [])
    ensures ReadsBack(p, dp)
  {
  }

  /** Every canonical property reads back from its written lines, with no diagnostic. */
  lemma {:induction false} PropertyRead(p: Property, dp: DoubleParser)
    requires Canonical(p, dp)
    ensures ReadsBack(p, dp)
    decreases p.value.value, 3
  {
    CanonicalWritable(p.value.value, dp);
    if IsScalar(p.value.value) {
      ScalarRead(p, dp);
    } else if p.value.value.Object? {
      ObjectRead(p, dp);
    } else {
      ArrayRead(p, dp);
    }
  }

  /** The round trip at any nesting level: the text the writer produces for a canonical
      property, cut at newlines and trimmed as the file reader does, parses back to the same
      property with no diagnostic. */
  lemma PropertyRoundTrip(p: Property, level: nat, dp: DoubleParser)
    requires Canonical(p, dp)
    ensures Writable(p.value.value)
    ensures ParseProperty(TrimAll(Split(ChildString(p, level), '\n')), dp) == Done(Some(p), [])
  {
    ChildLayout(p, level, dp);
    PropertyRead(p, dp);
  }
}
