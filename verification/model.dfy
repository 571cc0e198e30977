/**
 * The document model of an entities file: property values, properties, entityDefs,
 * entities and the file, plus the diagnostics and outcomes the reader produces.
 */
module Model {
  import opened Optional
  import opened Numbers

  /** A property value. `Double` keeps the invariant-culture rendering of the parsed
      floating-point number; floating-point arithmetic itself is not modelled. */
  datatype Value =
    | Null
    | Str(text: string)
    | Bool(flag: bool)
    | Long(number: Int64)
    | Double(repr: string)
    | Array(elements: seq<Value>)
    | Object(properties: seq<Property>)

  /** A property record. The reader really builds records without a name or without a
      value, so both are optional. */
  datatype Property = Property(name: Option<string>, important: bool, value: Option<Value>)

  datatype EntityDef = EntityDef(name: string, properties: seq<Property>)

  datatype Entity = Entity(
    layers: Option<seq<string>>,
    originalName: Option<string>,
    instanceId: Option<Int64>,
    entityDef: Option<EntityDef>)

  datatype EntitiesFile = EntitiesFile(version: string, hierarchyVersion: string, entities: seq<Entity>)

  /** One diagnostic; the line number in front of each message is left abstract. */
  datatype Diag =
    | MissingPropertyValue                          // "missing property value"
    | MissingQuote                                  // "missing '\"'"
    | InvalidPropertyValue(text: string)            // "invalid property value: ..."
    | BadPropertyDeclaration(line: string)          // "bad property declaration '...'"
    | InvalidPropertyName(name: string)             // "invalid property name '...'"
    | MissingSemicolon                              // "missing ';'"
    | Unexpected(line: string)                      // "unexpected '...'"
    | NumNotNumber                                  // "'num' property value must be a number"
    | NumMismatch(declared: int, actual: int)       // the one warning: count mismatch
    | UnknownType(token: string)                    // "unknown type '...'"
    | MissingEntityDefName                          // "missing entityDef name"
    | MissingOpenBrace                              // "missing '{'"
    | InvalidEntityDefName(name: string)            // "invalid entityDef name '...'"
    | EntityDefNotFound                             // "expected entityDef declaration not found"
    | MissingCloseBrace                             // "missing '}'"
    | UnexpectedInEntity(line: string)              // "unexpected '...' inside entity definition"

  /** Only the array count check writes to the warnings list; everything else is an error. */
  predicate IsWarning(d: Diag) {
    d.NumMismatch?
  }

  function Errors(ds: seq<Diag>): (es: seq<Diag>)
    ensures forall i :: 0 <= i < |es| ==> !IsWarning(es[i])
    ensures |es| <= |ds|
  {
    if |ds| == 0 then []
    else (if IsWarning(ds[0]) then [] else [ds[0]]) + Errors(ds[1..])
  }

  function Warnings(ds: seq<Diag>): (ws: seq<Diag>)
    ensures forall i :: 0 <= i < |ws| ==> IsWarning(ws[i])
    ensures |ws| <= |ds|
  {
    if |ds| == 0 then []
    else (if IsWarning(ds[0]) then [ds[0]] else []) + Warnings(ds[1..])
  }

  /** The .NET exceptions the reader can run into; any of them aborts the whole parse. */
  datatype Fault = NullReference | IndexOutOfRange | InvalidCast | ArgumentOutOfRange

  /** What one reader function returns: a result with the diagnostics it added, in order,
      or the exception that escaped it. */
  datatype Parsed<+T> = Done(value: T, diags: seq<Diag>) | Crash(fault: Fault)

  /** Puts diagnostics reported earlier in front of the ones of a later step. */
  function Prepend<T>(ds: seq<Diag>, r: Parsed<T>): Parsed<T> {
    match r
    case Done(v, d) => Done(v, ds + d)
    case Crash(f) => Crash(f)
  }

  /** `Double.TryParse(text, NumberStyles.Any, CultureInfo.InvariantCulture, out d)`:
      `None` when it fails, otherwise the invariant-culture rendering of `d`. */
  type DoubleParser = string -> Option<string>

  datatype ParseResult = ParseResult(errors: seq<Diag>, warnings: seq<Diag>, file: EntitiesFile)
}
