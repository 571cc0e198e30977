/**
 * The entities-file writer: string builders for the header, an entity, and every kind of
 * property, each appending its pieces in the same order as the writer does. Indentation
 * is one tab per nesting level; single-line properties never carry the `!` mark.
 */
module Writer {
  import opened Optional
  import opened Text
  import opened Numbers
  import opened Model

  /** `n` tab characters. */
  function Tabs(n: nat): (r: string)
    ensures |r| == n && forall k :: 0 <= k < n ==> r[k] == '\t'
  {
    if n == 0 then [] else ['\t'] + Tabs(n - 1)
  }

  /** `IndentText`: `level` tabs in front of `text`; level zero hands the text back as is. */
  function IndentText(text: string, level: nat): (r: string)
    ensures |r| == level + |text| && r[level..] == text
    ensures forall k :: 0 <= k < level ==> r[k] == '\t'
  {
    if level == 0 then text else Tabs(level) + text
  }

  /** The name as the builders append it: appending a null name appends nothing. */
  function NameText(p: Property): string {
    p.name.GetOr("")
  }

  /** What the writer can print without an exception. A property value of any kind is
      printable when its array elements are printable elements and its object members that
      have a value are printable (members without one are skipped). */
  predicate Writable(v: Value)
    decreases v, 1
  {
    match v
    case Array(es) => forall k :: 0 <= k < |es| ==> WritableElement(es[k])
    case Object(ps) => forall k :: 0 <= k < |ps| ==> ps[k].value.Some? ==> Writable(ps[k].value.value)
    case _ => true
  }

  /** An array element is printable when it is a string, boolean, double or integer (any other
      value hits the cast to the integer value), or an object whose members all have a
      printable value (the value's type is looked up without a null check). */
  predicate WritableElement(e: Value)
    decreases e, 2
  {
    match e
    case Null => false
    case Array(_) => false
    case Object(ps) => forall k :: 0 <= k < |ps| ==> ps[k].value.Some? && Writable(ps[k].value.value)
    case _ => true
  }

  predicate IsScalar(v: Value) {
    !v.Array? && !v.Object?
  }

  /** The literal a single-line property or array item carries before its `;`: `NULL`, the
      string between quotes (no escaping), `true`/`false`, and the invariant rendering of a
      double or an integer, lower-cased. */
  function Literal(v: Value): (r: string)
    requires IsScalar(v)
    ensures v.Str? ==> |r| == |v.text| + 2 && r[0] == '"' && Last(r) == '"' && r[1..|r| - 1] == v.text
    ensures v.Long? ==> ParseInt64(r) == Some(v.number)
  {
    match v
    case Null => "NULL"
    case Str(s) => "\"" + s + "\""
    case Bool(b) => if b then "true" else "false"
    case Double(t) => Lower(t)
    case Long(n) => LongRoundTrip(n); LongToString(n)
  }

  /** `GetPropertyString`: `name = literal;`. */
  function PropertyString(p: Property, level: nat): string
    requires p.value.Some? && IsScalar(p.value.value)
  {
    IndentText(NameText(p), level) + " = " + Literal(p.value.value) + ";"
  }

  /** The first line of an array or object property: `name = {` or, when important, `name = ! {`. */
  function Opening(p: Property, level: nat): string {
    IndentText(NameText(p), level) + " = " + (if p.important then "! " else "") + "{"
  }

  /** The dispatch of the member loops: arrays, objects, and single-line properties. */
  function ChildString(p: Property, level: nat): string
    requires p.value.Some? && Writable(p.value.value)
    decreases p, 2
  {
    match p.value.value
    case Array(_) => ArrayString(p, level)
    case Object(_) => ObjectString(p, level)
    case _ => PropertyString(p, level)
  }

  /** `GetArrayString`: the opening line, `num = <count>;` one level deeper, each element one
      level deeper followed by a newline, and the closing brace without one. */
  function ArrayString(p: Property, level: nat): string
    requires p.value.Some? && p.value.value.Array? && Writable(p.value.value)
    decreases p, 1
  {
    Opening(p, level) + "\n"
      + IndentText("num = ", level + 1) + DecimalString(|p.value.value.elements|) + ";" + "\n"
      + Items(p.value.value, 0, level + 1)
      + IndentText("}", level)
  }

  /** The element loop of `GetArrayString` from element `i` on. */
  function Items(v: Value, i: nat, level: nat): string
    requires v.Array? && Writable(v) && i <= |v.elements|
    decreases v, 0, |v.elements| - i
  {
    if i == |v.elements| then ""
    else ItemString(v.elements[i], i, level) + "\n" + Items(v, i + 1, level)
  }

  /** One array element: an object element as a block, anything else on one line. */
  function ItemString(e: Value, i: nat, level: nat): string
    requires WritableElement(e)
    decreases e, 2
  {
    if e.Object? then ArrayObjectString(e, i, level) else ItemValueString(e, i, level)
  }

  /** `GetArrayPropertyValueString`: `item[i] = literal;`. */
  function ItemValueString(e: Value, i: nat, level: nat): string
    requires IsScalar(e)
  {
    IndentText("item[", level) + DecimalString(i) + "] = " + Literal(e) + ";"
  }

  /** `GetArrayObjectValueString`: `item[i] = {`, the members one level deeper, `}`. */
  function ArrayObjectString(e: Value, i: nat, level: nat): string
    requires e.Object? && WritableElement(e)
    decreases e, 1
  {
    IndentText("item[", level) + DecimalString(i) + "] = {" + "\n"
      + Members(e, 0, level + 1)
      + IndentText("}", level)
  }

  /** `GetObjectString`: the opening line, the members one level deeper, `}`. */
  function ObjectString(p: Property, level: nat): string
    requires p.value.Some? && p.value.value.Object? && Writable(p.value.value)
    decreases p, 1
  {
    Opening(p, level) + "\n" + Members(p.value.value, 0, level + 1) + IndentText("}", level)
  }

  /** The member loop from member `k` on: each member with a value, followed by a newline. */
  function Members(v: Value, k: nat, level: nat): string
    requires v.Object? && Writable(v) && k <= |v.properties|
    decreases v, 0, |v.properties| - k
  {
    if k == |v.properties| then ""
    else
      (if v.properties[k].value.Some? then ChildString(v.properties[k], level) + "\n" else "")
        + Members(v, k + 1, level)
  }

  /** An entity the writer prints without an exception: it has an entityDef, and every
      property of it has a printable value. */
  predicate WritableEntity(e: Entity) {
    && e.entityDef.Some?
    && forall k :: 0 <= k < |e.entityDef.value.properties| ==>
         e.entityDef.value.properties[k].value.Some? && Writable(e.entityDef.value.properties[k].value.value)
  }

  /** The layer loop: each layer name quoted on its own line, two levels deep. */
  function LayerLines(layers: seq<string>): string {
    if |layers| == 0 then ""
    else IndentText("\"", 2) + layers[0] + "\"" + "\n" + LayerLines(layers[1..])
  }

  /** `GetEntityString`. */
  function EntityString(e: Entity): string
    requires WritableEntity(e)
  {
    var def := e.entityDef.value;
    "entity {" + "\n"
      + (if e.layers.Some? then IndentText("layers {", 1) + "\n" + LayerLines(e.layers.value) + IndentText("}", 1) + "\n" else "")
      + (if e.instanceId.Some? then IndentText("instanceId = ", 1) + LongToString(e.instanceId.value) + ";" + "\n" else "")
      + (if e.originalName.Some? then IndentText("originalName = \"", 1) + e.originalName.value + "\";" + "\n" else "")
      + IndentText("entityDef ", 1) + def.name + " {" + "\n"
      + Members(Object(def.properties), 0, 1)
      + "}" + "\n" + "}"
  }

  /** `GetEntitiesFileHeaderString`: a `Version` line and a `HierarchyVersion` line, each only
      when its value is not empty. */
  function HeaderString(f: EntitiesFile): string {
    (if f.version != "" then "Version " + f.version + "\n" else "")
      + (if f.hierarchyVersion != "" then "HierarchyVersion " + f.hierarchyVersion + "\n" else "")
  }

  /** The entity loop of `WriteEntitiesFile`: one newline between neighbouring entities,
      none after the last. */
  function EntitiesString(es: seq<Entity>): string
    requires forall k :: 0 <= k < |es| ==> WritableEntity(es[k])
  {
    if |es| == 0 then ""
    else if |es| == 1 then EntityString(es[0])
    else EntityString(es[0]) + "\n" + EntitiesString(es[1..])
  }

  /** `WriteEntitiesFile` with the stream's line terminator set to the empty string: the
      header, then the entities. */
  function FileString(f: EntitiesFile): string
    requires forall k :: 0 <= k < |f.entities| ==> WritableEntity(f.entities[k])
  {
    HeaderString(f) + EntitiesString(f.entities)
  }
}
