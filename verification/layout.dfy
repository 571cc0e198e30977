/**
 * How the writer's text looks to the reader. The file reader trims every line before it
 * parses anything, so the indentation the writer adds disappears again: the written text
 * of a property, split at newlines and trimmed, is the same list of lines at every level.
 * This module defines that list and the values whose written form the reader gets back.
 */
module Layout {
  import opened Optional
  import opened Text
  import opened Numbers
  import opened Model
  import opened Names
  import opened ScalarParser
  import opened Writer

  /** The name under which the writer prints array element `i`. */
  function ItemName(i: nat): string {
    "item[" + DecimalString(i) + "]"
  }

  /** Array element `e` seen as the child property the reader builds from its lines. */
  function ItemProperty(e: Value, i: nat): Property {
    Property(Some(ItemName(i)), false, Some(e))
  }

  /** Text that stays on one line and inside one side of a `=`. */
  predicate SafeText(s: string) {
    '\n' !in s && '=' !in s
  }

  /** A double whose lower-cased rendering the reader takes for a double again, and which
      the double parser turns back into the same rendering. */
  predicate ReadsBackAsDouble(t: string, dp: DoubleParser) {
    var w := Lower(t);
    && Trim(w) == w && SafeText(w) && IsNumeric(w)
    && ParseInt64(w).None? && '.' in w && dp(w) == Some(t)
  }

  /** A property the reader gets back unchanged from its written form: it has a valid name
      and a value; a single-line property is not important (the mark is not written); strings
      hold no newline and no `=`; doubles read back as themselves; arrays hold no null and
      no nested array; and no object member is called `num` (the reader would turn the
      object into an array). */
  predicate Canonical(p: Property, dp: DoubleParser)
    decreases p
  {
    && p.name.Some? && IsValidPropertyName(p.name.value)
    && p.value.Some?
    && (IsScalar(p.value.value) ==> !p.important)
    && CanonicalValue(p.value.value, dp)
  }

  predicate CanonicalValue(v: Value, dp: DoubleParser)
    decreases v
  {
    match v
    case Null => true
    case Bool(_) => true
    case Long(_) => true
    case Str(s) => SafeText(s)
    case Double(t) => ReadsBackAsDouble(t, dp)
    case Array(es) =>
      && |es| <= INT64_MAX
      && forall k :: 0 <= k < |es| ==> !es[k].Null? && !es[k].Array? && CanonicalValue(es[k], dp)
    case Object(ps) => forall k :: 0 <= k < |ps| ==> Canonical(ps[k], dp) && ps[k].name != Some("num")
  }

  /** Properties that are each canonical. An object's members are, and besides none of them
      is called `num`; an entityDef's top-level properties need only this. */
  predicate CanonicalMembers(ps: seq<Property>, dp: DoubleParser) {
    forall k :: 0 <= k < |ps| ==> Canonical(ps[k], dp)
  }

  /** Canonical members can be printed, each with its value. */
  lemma MembersWritable(ps: seq<Property>, dp: DoubleParser)
    requires CanonicalMembers(ps, dp)
    ensures Writable(Object(ps))
    ensures forall k :: 0 <= k < |ps| ==> ps[k].value.Some? && Writable(ps[k].value.value)
  {
    forall k | 0 <= k < |ps| ensures ps[k].value.Some? && Writable(ps[k].value.value) {
      CanonicalWritable(ps[k].value.value, dp);
    }
  }

  /** Every canonical value can be printed. */
  lemma {:induction false} CanonicalWritable(v: Value, dp: DoubleParser)
    requires CanonicalValue(v, dp)
    ensures Writable(v)
    ensures !v.Null? && !v.Array? ==> WritableElement(v)
    decreases v
  {
    match v
    case Array(es) =>
      forall k | 0 <= k < |es| ensures WritableElement(es[k]) {
        CanonicalWritable(es[k], dp);
      }
    case Object(ps) =>
      forall k | 0 <= k < |ps| ensures ps[k].value.Some? && Writable(ps[k].value.value) {
        CanonicalWritable(ps[k].value.value, dp);
      }
    case _ =>
  }

  /** The written lines of a property, trimmed. */
  function PropertyLines(p: Property): seq<string>
    requires p.value.Some? && Writable(p.value.value)
    decreases p, 2
  {
    match p.value.value
    case Array(es) => [Opening(p, 0), "num = " + DecimalString(|es|) + ";"] + ItemsLines(p.value.value, 0) + ["}"]
    case Object(_) => [Opening(p, 0)] + MembersLines(p.value.value, 0) + ["}"]
    case _ => [PropertyString(p, 0)]
  }

  function ItemsLines(v: Value, i: nat): seq<string>
    requires v.Array? && Writable(v) && i <= |v.elements|
    decreases v, 0, |v.elements| - i
  {
    if i == |v.elements| then [] else ItemLines(v.elements[i], i) + ItemsLines(v, i + 1)
  }

  /** The trimmed written lines of array element `i`. */
  function ItemLines(e: Value, i: nat): seq<string>
    requires WritableElement(e)
    decreases e, 1
  {
    if e.Object? then ["item[" + DecimalString(i) + "] = {"] + MembersLines(e, 0) + ["}"]
    else [ItemValueString(e, i, 0)]
  }

  function MembersLines(v: Value, k: nat): seq<string>
    requires v.Object? && Writable(v) && k <= |v.properties|
    decreases v, 0, |v.properties| - k
  {
    if k == |v.properties| then []
    else (if v.properties[k].value.Some? then PropertyLines(v.properties[k]) else []) + MembersLines(v, k + 1)
  }

  /** Every line trimmed, as the file reader does before parsing. */
  function TrimAll(lines: seq<string>): seq<string> {
    if |lines| == 0 then [] else [Trim(lines[0])] + TrimAll(lines[1..])
  }

  lemma {:induction false} TrimAllAppend(a: seq<string>, b: seq<string>)
    ensures TrimAll(a + b) == TrimAll(a) + TrimAll(b)
    decreases |a|
  {
    if |a| == 0 {
      assert a + b == b;
    } else {
      assert (a + b)[1..] == a[1..] + b;
      TrimAllAppend(a[1..], b);
    }
  }

  /** A piece of text with no white space at either end. */
  predicate Solid(s: string) {
    s != [] && !IsWhiteSpace(s[0]) && !IsWhiteSpace(Last(s))
  }

  lemma {:induction false} TrimTabs(n: nat, s: string)
    requires Solid(s)
    ensures Trim(Tabs(n) + s) == s
    decreases n
  {
    if n == 0 {
      assert Tabs(0) + s == s;
    } else {
      var t := Tabs(n) + s;
      assert t[0] == '\t';
      assert t[1..] == Tabs(n - 1) + s;
      TrimTabs(n - 1, s);
    }
  }

  /** Trimming a written line takes away exactly the indentation in front of it. */
  lemma IndentedLine(text: string, rest: string, level: nat)
    requires Solid(text + rest)
    requires '\n' !in text && '\n' !in rest
    ensures Split(IndentText(text, level) + rest, '\n') == [IndentText(text, level) + rest]
    ensures Trim(IndentText(text, level) + rest) == text + rest
  {
    hide *;
    IndentedTrim(text, rest, level);
    IndentedNoNewline(text, rest, level);
    SplitNoSeparator(IndentText(text, level) + rest, '\n');
  }

  /** Text without white space at either end is its own trim. */
  lemma SolidTrim(s: string)
    requires Solid(s)
    ensures Trim(s) == s
  {
  }

  lemma IndentedTrim(text: string, rest: string, level: nat)
    requires Solid(text + rest)
    ensures Trim(IndentText(text, level) + rest) == text + rest
  {
    hide Trim, Solid, Tabs;
    var line := IndentText(text, level) + rest;
    assert line == Tabs(level) + (text + rest) || level == 0;
    if level > 0 {
      TrimTabs(level, text + rest);
    } else {
      assert line == text + rest;
      SolidTrim(line);
    }
  }

  lemma IndentedNoNewline(text: string, rest: string, level: nat)
    requires '\n' !in text && '\n' !in rest
    ensures '\n' !in IndentText(text, level) + rest
  {
    var line := IndentText(text, level) + rest;
    assert forall k :: 0 <= k < level ==> line[k] == '\t';
    assert line[level..] == text + rest;
    forall k | 0 <= k < |line| ensures line[k] != '\n' {
      if k >= level {
        assert line[k] == line[level..][k - level];
      }
    }
  }

  /** Splitting one written line followed by a newline and more text. */
  lemma SplitLine(line: string, rest: string)
    requires '\n' !in line
    ensures Split(line + "\n" + rest, '\n') == [line] + Split(rest, '\n')
  {
    SplitAround(line, rest, '\n');
    SplitNoSeparator(line, '\n');
  }

  /** The facts about a valid name that the layout needs. */
  lemma NameShape(s: string)
    requires IsValidPropertyName(s)
    ensures Solid(s) && '\n' !in s && '=' !in s && ' ' !in s
  {
    PropertyNameCharacters(s);
  }

  /** A canonical scalar's literal is solid and stays on one side of a `=` on one line. */
  lemma LiteralShape(v: Value, dp: DoubleParser)
    requires IsScalar(v) && CanonicalValue(v, dp)
    ensures Solid(Literal(v)) && '\n' !in Literal(v) && '=' !in Literal(v)
  {
    match v
    case Null =>
      assert Literal(v) == "NULL";
    case Str(s) =>
      var r := Literal(v);
      assert r == "\"" + s + "\"";
      assert r[0] == '"' && Last(r) == '"';
    case Bool(b) =>
      assert Literal(v) == (if b then "true" else "false");
    case Long(n) =>
      LongShape(n);
    case Double(t) =>
      var w := Lower(t);
      assert Literal(v) == w;
      assert ReadsBackAsDouble(t, dp);
      assert Trim(w) == w && SafeText(w) && IsNumeric(w);
  }

  /** Digits are neither white space, nor a newline, nor `=`. */
  lemma DigitsShape(d: string)
    requires AllDigits(d)
    ensures '\n' !in d && '=' !in d
    ensures d != [] ==> Solid(d)
  {
    assert forall c :: IsDigit(c) ==> !IsWhiteSpace(c) && c != '\n' && c != '=';
    if d != [] {
      assert IsDigit(d[0]) && IsDigit(Last(d));
    }
  }

  lemma NegativeShape(d: string)
    requires AllDigits(d) && d != []
    ensures Solid("-" + d)
  {
    DigitsShape(d);
    var r := "-" + d;
    assert r[0] == '-';
    assert r[|r| - 1] == d[|d| - 1];
  }

  /** An integer's rendering is a minus sign or digits, starting with one of them. */
  lemma LongShape(n: Int64)
    ensures Solid(LongToString(n)) && '\n' !in LongToString(n) && '=' !in LongToString(n)
  {
    if n < 0 {
      var d := DecimalString(-(n as int));
      DigitsShape(d);
      NegativeShape(d);
      assert LongToString(n) == "-" + d;
    } else {
      DigitsShape(DecimalString(n));
    }
  }

  /** A first line, a newline, and text whose trimmed lines are known. */
  lemma HeadSplit(head: string, rest: string, lines: seq<string>)
    requires '\n' !in head && TrimAll(Split(rest, '\n')) == lines
    ensures TrimAll(Split(head + "\n" + rest, '\n')) == [Trim(head)] + lines
  {
    SplitLine(head, rest);
    TrimAllAppend([head], Split(rest, '\n'));
  }

  /** A written line, indented, that ends the text. */
  lemma LastLine(text: string, rest: string, level: nat)
    requires Solid(text + rest) && '\n' !in text && '\n' !in rest
    ensures TrimAll(Split(IndentText(text, level) + rest, '\n')) == [text + rest]
  {
    IndentedLine(text, rest, level);
  }

  /** Trimmed lines of two texts joined at a newline. */
  lemma JoinedLines(x: seq<string>, y: seq<string>, a: seq<string>, b: seq<string>, c: seq<string>)
    requires TrimAll(x) == a && TrimAll(y) == b + c
    ensures TrimAll(x + y) == (a + b) + c
  {
    TrimAllAppend(x, y);
  }

  lemma ItemsStep(v: Value, i: nat, level: nat, c: string)
    requires v.Array? && Writable(v) && i < |v.elements|
    ensures Split(Items(v, i, level) + c, '\n') ==
      Split(ItemString(v.elements[i], i, level), '\n') + Split(Items(v, i + 1, level) + c, '\n')
    ensures ItemsLines(v, i) == ItemLines(v.elements[i], i) + ItemsLines(v, i + 1)
  {
    assert Items(v, i, level) + c == ItemString(v.elements[i], i, level) + "\n" + (Items(v, i + 1, level) + c);
    SplitAround(ItemString(v.elements[i], i, level), Items(v, i + 1, level) + c, '\n');
  }

  lemma MembersStep(v: Value, k: nat, level: nat, c: string)
    requires v.Object? && Writable(v) && k < |v.properties| && v.properties[k].value.Some?
    ensures Split(Members(v, k, level) + c, '\n') ==
      Split(ChildString(v.properties[k], level), '\n') + Split(Members(v, k + 1, level) + c, '\n')
    ensures MembersLines(v, k) == PropertyLines(v.properties[k]) + MembersLines(v, k + 1)
  {
    assert Members(v, k, level) + c == ChildString(v.properties[k], level) + "\n" + (Members(v, k + 1, level) + c);
    SplitAround(ChildString(v.properties[k], level), Members(v, k + 1, level) + c, '\n');
  }

  /** Regrouping a concatenation of five pieces. */
  lemma Regroup5(a: string, b: string, c: string, d: string, e: string)
    ensures a + b + c + d + e == a + (b + c + d + e)
  {
  }

  /** The written text of an array property, piece by piece. */
  lemma ArrayText(p: Property, level: nat)
    requires p.value.Some? && p.value.value.Array? && Writable(p.value.value)
    ensures ArrayString(p, level) ==
      Opening(p, level) + "\n"
        + (IndentText("num = ", level + 1) + (DecimalString(|p.value.value.elements|) + ";") + "\n"
          + (Items(p.value.value, 0, level + 1) + IndentText("}", level)))
  {
    var o := Opening(p, level);
    var n := IndentText("num = ", level + 1);
    var d := DecimalString(|p.value.value.elements|);
    var items := Items(p.value.value, 0, level + 1);
    var c := IndentText("}", level);
    assert ArrayString(p, level) == o + "\n" + n + d + ";" + "\n" + items + c;
    Regroup8(o, "\n", n, d, ";", "\n", items, c);
  }

  lemma Regroup8(o: string, nl: string, n: string, d: string, semi: string, nl2: string, items: string, c: string)
    ensures o + nl + n + d + semi + nl2 + items + c == o + nl + (n + (d + semi) + nl2 + (items + c))
  {
  }

  lemma ArrayLines(p: Property)
    requires p.value.Some? && p.value.value.Array? && Writable(p.value.value)
    ensures PropertyLines(p) ==
      [Opening(p, 0)] + ([("num = " + (DecimalString(|p.value.value.elements|) + ";"))] + (ItemsLines(p.value.value, 0) + ["}"]))
  {
    hide DecimalString, Opening, ItemsLines, ItemLines, Writable;
    var d := DecimalString(|p.value.value.elements|);
    assert "num = " + d + ";" == "num = " + (d + ";");
    var a := [Opening(p, 0), "num = " + d + ";"];
    assert a == [Opening(p, 0)] + ["num = " + (d + ";")];
  }

  lemma ObjectText(p: Property, level: nat)
    requires p.value.Some? && p.value.value.Object? && Writable(p.value.value)
    ensures ObjectString(p, level) == Opening(p, level) + "\n" + (Members(p.value.value, 0, level + 1) + IndentText("}", level))
    ensures PropertyLines(p) == [Opening(p, 0)] + (MembersLines(p.value.value, 0) + ["}"])
  {
  }

  lemma ArrayObjectText(e: Value, i: nat, level: nat)
    requires e.Object? && WritableElement(e)
    ensures ArrayObjectString(e, i, level) ==
      IndentText("item[", level) + (DecimalString(i) + "] = {") + "\n" + (Members(e, 0, level + 1) + IndentText("}", level))
    ensures ItemLines(e, i) == ["item[" + (DecimalString(i) + "] = {")] + (MembersLines(e, 0) + ["}"])
  {
    var d := DecimalString(i);
    assert "item[" + d + "] = {" == "item[" + (d + "] = {");
  }

  /** The opening line of a canonical block property, indented or not. */
  lemma OpeningLine(p: Property, level: nat)
    requires p.name.Some? && IsValidPropertyName(p.name.value)
    ensures '\n' !in Opening(p, level) && Trim(Opening(p, level)) == Opening(p, 0)
  {
    var name := p.name.value;
    NameShape(name);
    var mark := if p.important then "! " else "";
    assert Opening(p, level) == IndentText(name, level) + (" = " + mark + "{");
    assert Opening(p, 0) == name + (" = " + mark + "{");
    IndentedLine(name, " = " + mark + "{", level);
  }

  /** The closing line at any level. */
  lemma ClosingLine(level: nat)
    ensures TrimAll(Split(IndentText("}", level), '\n')) == ["}"]
  {
    LastLine("}", "", level);
    assert "}" + "" == "}";
    assert IndentText("}", level) + "" == IndentText("}", level);
  }

  lemma NumberLine(n: nat, level: nat)
    ensures '\n' !in IndentText("num = ", level) + (DecimalString(n) + ";")
    ensures Trim(IndentText("num = ", level) + (DecimalString(n) + ";")) == "num = " + (DecimalString(n) + ";")
  {
    DigitsShape(DecimalString(n));
    IndentedLine("num = ", DecimalString(n) + ";", level);
  }

  lemma ItemLine(i: nat, rest: string, level: nat)
    requires Solid(rest) && '\n' !in rest
    ensures '\n' !in IndentText("item[", level) + (DecimalString(i) + rest)
    ensures Trim(IndentText("item[", level) + (DecimalString(i) + rest)) == "item[" + (DecimalString(i) + rest)
  {
    DigitsShape(DecimalString(i));
    assert Last(DecimalString(i) + rest) == Last(rest);
    IndentedLine("item[", DecimalString(i) + rest, level);
  }

  /** The written text of a canonical property at any level, split at newlines and trimmed,
      is its line list. */
  lemma {:induction false} ChildLayout(p: Property, level: nat, dp: DoubleParser)
    requires Canonical(p, dp)
    ensures Writable(p.value.value)
    ensures TrimAll(Split(ChildString(p, level), '\n')) == PropertyLines(p)
    decreases p.value.value, 2
  {
    var v := p.value.value;
    CanonicalWritable(v, dp);
    match v
    case Array(es) =>
      var c := IndentText("}", level);
      var n := IndentText("num = ", level + 1) + (DecimalString(|es|) + ";");
      ArrayText(p, level);
      ArrayLines(p);
      ClosingLine(level);
      ItemsLayout(v, 0, level + 1, c, dp);
      NumberLine(|es|, level + 1);
      HeadSplit(n, Items(v, 0, level + 1) + c, ItemsLines(v, 0) + ["}"]);
      OpeningLine(p, level);
      HeadSplit(Opening(p, level), n + "\n" + (Items(v, 0, level + 1) + c), [Trim(n)] + (ItemsLines(v, 0) + ["}"]));
    case Object(ps) =>
      var c := IndentText("}", level);
      ObjectText(p, level);
      ClosingLine(level);
      MembersLayout(v, 0, level + 1, c, dp);
      OpeningLine(p, level);
      HeadSplit(Opening(p, level), Members(v, 0, level + 1) + c, MembersLines(v, 0) + ["}"]);
    case _ =>
      ScalarLayout(p, level, dp);
  }

  lemma ScalarLayout(p: Property, level: nat, dp: DoubleParser)
    requires Canonical(p, dp) && IsScalar(p.value.value)
    ensures TrimAll(Split(PropertyString(p, level), '\n')) == [PropertyString(p, 0)]
  {
    hide *;
    ScalarLineForms(p, level, dp);
    LastLine(p.name.value, " = " + Literal(p.value.value) + ";", level);
  }

  lemma ScalarLineForms(p: Property, level: nat, dp: DoubleParser)
    requires Canonical(p, dp) && IsScalar(p.value.value)
    ensures p.name.Some? && p.value.Some? && IsScalar(p.value.value)
    ensures var name := p.name.value;
      var rest := " = " + Literal(p.value.value) + ";";
      && Solid(name + rest) && '\n' !in name && '\n' !in rest
      && PropertyString(p, level) == IndentText(name, level) + rest
      && PropertyString(p, 0) == name + rest
  {
    var v := p.value.value;
    var name := p.name.value;
    NameShape(name);
    LiteralShape(v, dp);
    PropertyStringForm(p, level);
    PropertyStringForm(p, 0);
  }

  /** A single-line property's text, as its name after the indentation and the rest. */
  lemma PropertyStringForm(p: Property, level: nat)
    requires p.name.Some? && p.value.Some? && IsScalar(p.value.value)
    ensures PropertyString(p, level) == IndentText(p.name.value, level) + (" = " + Literal(p.value.value) + ";")
    ensures level == 0 ==> IndentText(p.name.value, level) == p.name.value
  {
    hide Literal, Solid, Trim;
    var t := IndentText(p.name.value, level);
    var l := Literal(p.value.value);
    assert t + " = " + l + ";" == t + (" = " + l + ";");
  }

  lemma {:induction false} ItemsLayout(v: Value, i: nat, level: nat, c: string, dp: DoubleParser)
    requires v.Array? && CanonicalValue(v, dp) && i <= |v.elements|
    ensures Writable(v)
    ensures TrimAll(Split(Items(v, i, level) + c, '\n')) == ItemsLines(v, i) + TrimAll(Split(c, '\n'))
    decreases v, 1, |v.elements| - i
  {
    hide *;
    CanonicalWritable(v, dp);
    if i == |v.elements| {
      ItemsEnd(v, i, level, c);
    } else {
      var e := v.elements[i];
      ItemCanonical(v, i, dp);
      ItemsStep(v, i, level, c);
      ItemLayout(e, i, level, dp);
      ItemsLayout(v, i + 1, level, c, dp);
      JoinedLines(Split(ItemString(e, i, level), '\n'), Split(Items(v, i + 1, level) + c, '\n'),
                  ItemLines(e, i), ItemsLines(v, i + 1), TrimAll(Split(c, '\n')));
    }
  }

  lemma ItemsEnd(v: Value, i: nat, level: nat, c: string)
    requires v.Array? && Writable(v) && i == |v.elements|
    ensures Items(v, i, level) + c == c && ItemsLines(v, i) == []
  {
  }

  lemma ItemCanonical(v: Value, i: nat, dp: DoubleParser)
    requires v.Array? && CanonicalValue(v, dp) && i < |v.elements|
    ensures !v.elements[i].Null? && !v.elements[i].Array? && CanonicalValue(v.elements[i], dp)
  {
  }

  lemma {:induction false} ItemLayout(e: Value, i: nat, level: nat, dp: DoubleParser)
    requires !e.Null? && !e.Array? && CanonicalValue(e, dp)
    ensures WritableElement(e)
    ensures TrimAll(Split(ItemString(e, i, level), '\n')) == ItemLines(e, i)
    decreases e, 2
  {
    CanonicalWritable(e, dp);
    if e.Object? {
      var c := IndentText("}", level);
      ArrayObjectText(e, i, level);
      ClosingLine(level);
      MembersLayout(e, 0, level + 1, c, dp);
      ItemLine(i, "] = {", level);
      HeadSplit(IndentText("item[", level) + (DecimalString(i) + "] = {"), Members(e, 0, level + 1) + c, MembersLines(e, 0) + ["}"]);
    } else {
      ScalarItemLayout(e, i, level, dp);
    }
  }

  lemma ScalarItemLayout(e: Value, i: nat, level: nat, dp: DoubleParser)
    requires IsScalar(e) && !e.Null? && CanonicalValue(e, dp)
    ensures WritableElement(e)
    ensures TrimAll(Split(ItemString(e, i, level), '\n')) == ItemLines(e, i)
  {
    hide *;
    var rest := "] = " + Literal(e) + ";";
    ScalarItemForms(e, i, level, dp);
    ItemLine(i, rest, level);
    ItemText(e, i, level, rest);
    ItemText(e, i, 0, rest);
    SplitNoSeparator(ItemValueString(e, i, level), '\n');
  }

  lemma ScalarItemForms(e: Value, i: nat, level: nat, dp: DoubleParser)
    requires IsScalar(e) && !e.Null? && CanonicalValue(e, dp)
    ensures WritableElement(e)
    ensures ItemString(e, i, level) == ItemValueString(e, i, level) && ItemLines(e, i) == [ItemValueString(e, i, 0)]
    ensures var rest := "] = " + Literal(e) + ";"; Solid(rest) && '\n' !in rest
    ensures IndentText("item[", 0) == "item["
    ensures TrimAll([ItemValueString(e, i, level)]) == [Trim(ItemValueString(e, i, level))]
  {
    LiteralShape(e, dp);
    var rest := "] = " + Literal(e) + ";";
    assert Last(rest) == ';';
    assert [ItemValueString(e, i, level)][1..] == [];
  }

  lemma ItemText(e: Value, i: nat, level: nat, rest: string)
    requires IsScalar(e) && rest == "] = " + Literal(e) + ";"
    ensures ItemValueString(e, i, level) == IndentText("item[", level) + (DecimalString(i) + rest)
  {
    hide *;
    var d := DecimalString(i);
    var l := Literal(e);
    ItemValueParts(e, i, level);
    Regroup5(IndentText("item[", level), d, "] = ", l, ";");
    assert d + "] = " + l + ";" == d + ("] = " + l + ";");
  }

  lemma ItemValueParts(e: Value, i: nat, level: nat)
    requires IsScalar(e)
    ensures ItemValueString(e, i, level) == IndentText("item[", level) + DecimalString(i) + "] = " + Literal(e) + ";"
  {
  }

  lemma {:induction false} MembersLayout(v: Value, k: nat, level: nat, c: string, dp: DoubleParser)
    requires v.Object? && CanonicalMembers(v.properties, dp) && k <= |v.properties|
    ensures Writable(v)
    ensures TrimAll(Split(Members(v, k, level) + c, '\n')) == MembersLines(v, k) + TrimAll(Split(c, '\n'))
    decreases v, 1, |v.properties| - k
  {
    MembersWritable(v.properties, dp);
    if k == |v.properties| {
      assert Members(v, k, level) + c == c;
    } else {
      var q := v.properties[k];
      MembersStep(v, k, level, c);
      ChildLayout(q, level, dp);
      MembersLayout(v, k + 1, level, c, dp);
      JoinedLines(Split(ChildString(q, level), '\n'), Split(Members(v, k + 1, level) + c, '\n'),
                  PropertyLines(q), MembersLines(v, k + 1), TrimAll(Split(c, '\n')));
    }
  }
}
