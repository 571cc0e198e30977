# idTech entities-file codec in Dafny

This project models the text codec for idTech `.entities` files.

The **reader** turns the lines of a file into an `EntitiesFile`, collecting error and warning diagnostics on the way:
- the optional `Version` and `HierarchyVersion` header lines;
- `entity {` blocks, split by counting the lines that end in `{` and `}`;
- inside each entity: `layers`, `instanceId`, `originalName` and the `entityDef` block;
- inside the entityDef: single-line `name = value;` properties and nested blocks. A block becomes an array when its first single-line child is named `num`, and an object otherwise.

The **writer** renders the same tree back to text with one tab per nesting level.

The model is functional. Values, properties, entityDefs, entities and the file are immutable datatypes (`model.dfy`). Each reader routine is a pure function over a sequence of lines that returns a `Parsed` outcome. The outcome is either the result with the diagnostics it added, in order, or a `Crash` that stands for the .NET exception escaping the reader. Each writer routine is a string-building function.

Module layout, following the source:

| file | models |
|---|---|
| `text.dfy` | the .NET string operations used: `char.IsWhiteSpace`, `Trim*`, `Split(char)`, `Contains`, ASCII `ToLower` |
| `numbers.dfy` | `long.TryParse` and the invariant `long.ToString` |
| `names.dfy` | the two name regexes, as character-class predicates |
| `scalar.dfy` | `ParseEntityPropertyValue` |
| `scanner.dfy`, `nesting.dfy` | the brace-counting block collection loops, and what they collect from a well-nested run |
| `property_parser.dfy` | `ParseEntityProperty` |
| `entitydef_parser.dfy` | `ParseEntityDef` |
| `entity_parser.dfy` | `ParseEntity` |
| `file_reader.dfy` | the line loop of `Parse` |
| `writer.dfy` | every `Get*String` builder, `IndentText` and `WriteEntitiesFile` |
| `layout.dfy`, `roundtrip.dfy` | a property's written text as the reader sees it, and the property round trip |
| `entity_layout.dfy`, `entity_roundtrip.dfy` | an entity's written text as the reader sees it, and the entity round trip |
| `file_roundtrip.dfy` | the written file as the file loop reads it, and the file round trip |

The main result is `FileRoundTrip.FileRoundTrip`. Take a canonical file, write it, and split the text at its newlines. The file reader then returns exactly that file, with no error and no warning. It rests on two smaller round trips:
- `EntityRoundTrip.EntityRoundTrip`: a canonical entity's written text, split and trimmed, parses back to that entity;
- `RoundTrip.PropertyRoundTrip`: a canonical property, written at any nesting level, split and trimmed as the file reader does, parses back to that property.

A property is canonical when:
- it has a valid name and a value;
- if it is a single-line property, it is not marked important, because the writer never writes the mark on a single line;
- its strings hold no newline and no `=`;
- its doubles read back as themselves. A whole double is written without a `.` and is read back as an integer: `1` as `Long(1)`, and `1e+20` as `Long(0)`;
- its arrays hold no null and no nested array;
- none of its object members is named `num`.

An entity is canonical when it has an entityDef with a valid name, its members are canonical and carry no `!` mark, its layer names and original name stay on one line, and its original name holds no `=`. The entityDef's opening line must also not contain `originalName` or `instanceId`. A file is canonical when its version is a single token, its hierarchy version is empty or a single token, and its entities are canonical.

## Model

| member | source | states |
|---|---|---|
| ScalarParser.ParseValue | IdTech.EntitiesFileParser/EntitiesFileReader.cs:853-923 | Blank text gives "missing property value" and no value. `NULL` gives Null. A quoted text gives the inner text verbatim. An opening quote without a closing one gives "missing '\"'". A lone `"` throws. `true`/`false` give booleans. Anything else is read as a number. There is never a warning, and a result has no value exactly when one error is reported. |
| ScalarParser.ParseNumber | IdTech.EntitiesFileParser/EntitiesFileReader.cs:897-922 | If the int64 parse succeeds, the result is that integer. Otherwise text containing `.` becomes a double, or "invalid property value" when the double parse fails. Text without `.` silently gives `Long(0)`. |
| ScalarParser.StringValueIsQuoted | IdTech.EntitiesFileParser/EntitiesFileReader.cs:868-883 | A string value is only ever read from its quoted form. |
| Numbers.LongRoundTrip | IdTech.EntitiesFileParser/EntitiesFileReader.cs:897-899 | Every 64-bit integer's invariant rendering parses back to that integer. |
| Numbers.DecimalValue | EntityFileParser/EntitiesFileWriter.cs:151 | The decimal digits written for a natural number denote that number. |
| Names.IndexedNameMatches | IdTech.EntitiesFileParser/EntitiesFileReader.cs:930-933 | The left-to-right scanner accepts a string exactly when it is one or more name characters, one `[`, one or more digits, then one or more `]` to the end. So `a[1]]` is accepted and `a[1][2]` is not. This is what `^[a-zA-Z0-9_/]+\[[0-9]+\]+$` matches on every trimmed name. .NET's `$` would also accept one final `\n`, but the reader only passes trimmed names, so that case never arises. |
| Names.EntityDefNameIsPropertyName | IdTech.EntitiesFileParser/EntitiesFileReader.cs:930-943 | Every valid entityDef name is a valid property name. |
| Names.PropertyNameCharacters | IdTech.EntitiesFileParser/EntitiesFileReader.cs:930-933 | A valid property name is non-empty and holds only name characters and brackets. So it never holds white space, `=`, `;`, quotes or braces. |
| Text.Split | IdTech.EntitiesFileParser/EntitiesFileReader.cs:588 | `Split` yields one more piece than there are separators. No piece contains the separator. Joining the pieces gives back the text. |
| Text.SplitJoin | IdTech.EntitiesFileParser/EntitiesFileReader.cs:569 | Splitting the newline-joined lines gives back the lines, when no line holds a newline. |
| Text.TrimBothEnds | IdTech.EntitiesFileParser/EntitiesFileReader.cs:65 | Trimming is removing the leading white space and then the trailing white space. |
| Text.Trim | IdTech.EntitiesFileParser/EntitiesFileReader.cs:65 | The trimmed text is empty exactly when the text is all white space. Otherwise it neither starts nor ends with white space. |
| Text.ContainsOccurs | IdTech.EntitiesFileParser/EntitiesFileReader.cs:275 | `Contains` holds exactly when the pattern occurs at some position. |
| BlockScanner.ScanBlock | IdTech.EntitiesFileParser/EntitiesFileReader.cs:321-356 | The collected lines start with the opener and never close the block early. A closed block brings the depth back to zero on its last line. An unclosed block runs to the end and ends with the empty line left by the trailing newline. The loop index ends where the source's `i = j` increment leaves it. |
| Nesting.ScanChunk | IdTech.EntitiesFileParser/EntitiesFileReader.cs:509-543 | Given an opener, a well-nested run and a closing `}`, the scanner collects exactly that chunk. It leaves the index on the closing line, or on the opener when the chunk is empty. |
| PropertyParser.ClassifyProperty | IdTech.EntitiesFileParser/EntitiesFileReader.cs:582-600 | A lone `}` is skipped. A line that is not exactly two `=`-parts with a non-blank right side is a bad declaration. Otherwise the line is single-line or a block, according to the trimmed right side's last character. |
| PropertyParser.ScalarProperty | IdTech.EntitiesFileParser/EntitiesFileReader.cs:600-636 | An invalid name gives one error and leaves the record untouched. Otherwise the name is set and the value is read from the right side without its `;`. A missing `;` is reported first, and the value is still read from the whole right side. |
| PropertyParser.ClassifyChild | IdTech.EntitiesFileParser/EntitiesFileReader.cs:683-710 | For a child line: not two parts gives a skipped brace or "unexpected". A blank value gives "missing property value". Otherwise it is a scalar child keyed by its trimmed left side, or a nested block. |
| PropertyParser.ScalarChildAdded | IdTech.EntitiesFileParser/EntitiesFileReader.cs:718-740 | A single-line child crashes exactly when its own parse does, and otherwise appends its non-null result. The first `num` child turns the block into an array, even when its value is not an integer. It becomes the remembered count, and its diagnostics appear twice: first those of the count parse, then "'num' property value must be a number" when it is not an integer, then those of the child parse. Any other child leaves the count alone and adds its diagnostics once. |
| PropertyParser.AddScalarChild | IdTech.EntitiesFileParser/EntitiesFileReader.cs:710-740 | The first `num` child turns the block into an array and is remembered. Later `num` children do neither. The child is appended when not null. |
| PropertyParser.AddBlockChild | IdTech.EntitiesFileParser/EntitiesFileReader.cs:741-794 | A nested block child adds at most one property, keeping the earlier ones. The loop index moves past the scan, and the array state is unchanged. |
| PropertyParser.BlockChildAdded | IdTech.EntitiesFileParser/EntitiesFileReader.cs:741-794 | The block scanned from the child's line is parsed as a property of its own. The step crashes exactly when that parse does. Otherwise that parse's result is appended when it is not null, its diagnostics are the step's diagnostics, the loop resumes after the scan, and the array state is unchanged. |
| PropertyParser.Assemble | IdTech.EntitiesFileParser/EntitiesFileReader.cs:797-831 | Without `num` the children become an Object. With `num` they become an Array of the values of the named, valued, non-`num` children, in order. The one count warning is raised exactly when an integer `num` differs from the element count. |
| PropertyParser.BlockChildren | IdTech.EntitiesFileParser/EntitiesFileReader.cs:657-795 | The child loop only appends children. Once a block is an array it stays one, with the same `num` child. |
| PropertyParser.ParseProperty | IdTech.EntitiesFileParser/EntitiesFileReader.cs:565-845 | Every name on a returned property is a valid property name. |
| PropertyParser.LineStep | IdTech.EntitiesFileParser/EntitiesFileReader.cs:573-842 | One iteration of the property loop keeps every name valid and never clears the Important flag. |
| RoundTrip.ScalarLineStep | IdTech.EntitiesFileParser/EntitiesFileReader.cs:600-612 | On a single-line property, the loop moves to the next line with the record the single-line branch gives and that branch's diagnostics. |
| RoundTrip.BlockLineStep | IdTech.EntitiesFileParser/EntitiesFileReader.cs:636-842 | On the opening line of a block with a valid name, the loop sets the name, sets Important when the value starts with `!`, takes the value that the child loop's children assemble to, and goes on after the block. |
| RoundTrip.CloseLineStep | IdTech.EntitiesFileParser/EntitiesFileReader.cs:581-585 | A lone `}` line is skipped. |
| PropertyParser.InvalidScalarName | IdTech.EntitiesFileParser/EntitiesFileReader.cs:600-609 | A single-line property with an invalid name gives one "invalid property name" error and a record with no name and no value, not a null. |
| PropertyParser.InvalidBlockName | IdTech.EntitiesFileParser/EntitiesFileReader.cs:834-837 | A block property with an invalid name, once read to its end, gives a null, and the last diagnostic is "invalid property name". |
| PropertyParser.PropertyLoop | IdTech.EntitiesFileParser/EntitiesFileReader.cs:572-842 | Once the Important flag is set, later lines never clear it. |
| EntityDefParser.ParseHeader | IdTech.EntitiesFileParser/EntitiesFileReader.cs:398-459 | A wrong first token gives "unknown type". More than three tokens is always rejected. Every rejection is exactly one error and no name. An accepted name is valid. The only crash is a lone trailing space after the first token. |
| EntityDefParser.HeaderForms | IdTech.EntitiesFileParser/EntitiesFileReader.cs:398-459 | A header is accepted with name N exactly when it is one of the four spellings `entityDef N{`, `entityDef{ N{`, `entityDef N {`, `entityDef{ N {`, with N valid. |
| EntityDefParser.ClassifyDefLine | IdTech.EntitiesFileParser/EntitiesFileReader.cs:468-502 | Classifies an entityDef body line as a skipped brace, "unexpected", a blank value (which throws), single-line, an important block (which dereferences a null property), or a plain block. |
| EntityDefParser.ParseEntityDef | IdTech.EntitiesFileParser/EntitiesFileReader.cs:379-557 | A rejected header gives no entityDef and only the header's one error. An accepted entityDef carries the header's name and only validly named properties. |
| EntityDefParser.InvalidScalarKept | IdTech.EntitiesFileParser/EntitiesFileReader.cs:545-552 | The entityDef body loop keeps the nameless record of a single-line member with an invalid name, and reports the error. |
| EntityDefParser.InvalidBlockDropped | IdTech.EntitiesFileParser/EntitiesFileReader.cs:507-552 | The entityDef body loop drops a block member with an invalid name. It goes on after the block with that block's diagnostics and no new property. |
| EntityDefParser.DefLoop | IdTech.EntitiesFileParser/EntitiesFileReader.cs:388-553 | The body loop only appends properties. Every property name it keeps is valid. |
| EntityParser.ClassifyEntityLine | IdTech.EntitiesFileParser/EntitiesFileReader.cs:248-366 | The entity loop tries, in order: `layers {`, lines containing `originalName`, `instanceId`, `entityDef`, then the skipped frame lines. Anything else is unexpected. |
| EntityParser.LayersLoop | IdTech.EntitiesFileParser/EntitiesFileReader.cs:248-274 | The layers loop stops at the first line that trims to `}`. It throws when there is none. |
| EntityParser.ReadLayer | IdTech.EntitiesFileParser/EntitiesFileReader.cs:253-262 | A layer line keeps a string value (read from its quoted form) and skips a failed read. Any other kind of value fails the cast. |
| EntityParser.KeyedValue | IdTech.EntitiesFileParser/EntitiesFileReader.cs:275-311 | An `originalName`/`instanceId` line that is not exactly two `=`-parts is a bad declaration. A line without a final `;` reports the missing `;`. Otherwise the value is read from the right side without its `;`. |
| EntityParser.ParseEntity | IdTech.EntitiesFileParser/EntitiesFileReader.cs:229-371 | A parsed entityDef has a valid name and validly named properties. Without a line containing `entityDef`, the entity has none. |
| EntityParser.EntityLoop | IdTech.EntitiesFileParser/EntitiesFileReader.cs:248-366 | The entity loop keeps the entityDef it has unless some later line contains `entityDef`, and every entityDef it sets has a valid name and validly named properties. |
| EntityRoundTrip.EntityRead | IdTech.EntitiesFileParser/EntitiesFileReader.cs:229-371 | The entity parser reads the written lines of a canonical entity back to that entity, with no diagnostic: the layer block gives the layers, the `instanceId` and `originalName` lines give those fields, and the entityDef block gives the entityDef. |
| EntityRoundTrip.LayersRun | IdTech.EntitiesFileParser/EntitiesFileReader.cs:248-274 | The layers loop reads a run of quoted layer lines, up to the `}` after them, back to those layer names, and stops on the `}`. |
| EntityRoundTrip.DefRun | IdTech.EntitiesFileParser/EntitiesFileReader.cs:464-553 | From the line of any member, the entityDef body loop appends the remaining members of a canonical entityDef, in order, and then stops at the closing `}`. |
| EntityRoundTrip.DefRead | IdTech.EntitiesFileParser/EntitiesFileReader.cs:379-557 | The entityDef parser reads the written entityDef block of a canonical entity back to its entityDef, with no diagnostic. |
| FileReader.Keep | IdTech.EntitiesFileParser/EntitiesFileReader.cs:150-155 | A parsed entity is kept exactly when it has an entityDef. |
| FileReader.Step | IdTech.EntitiesFileParser/EntitiesFileReader.cs:62-208 | A blank line changes nothing. Every line keeps the loop invariant: no held block means zero counts, a held block is open, and kept entities have entityDefs. Entities are only appended, at most one per line. |
| FileReader.Outside | IdTech.EntitiesFileParser/EntitiesFileReader.cs:91-112 | Outside a block only `entity {`/`entity{` opens one. `entity` gives "missing '{'" and anything else "unexpected". |
| FileReader.Inside | IdTech.EntitiesFileParser/EntitiesFileReader.cs:114-208 | A line inside a block keeps the loop invariant and appends at most one entity, keeping the earlier ones. |
| FileReader.Run | IdTech.EntitiesFileParser/EntitiesFileReader.cs:62-208 | Reading lines keeps the loop invariant and only appends entities, at most one per line. |
| FileRoundTrip.InsideHolds | IdTech.EntitiesFileParser/EntitiesFileReader.cs:114-140 | A held line that leaves the brace counts unequal is added to the block, and the counts are updated. |
| FileRoundTrip.InsideCloses | IdTech.EntitiesFileParser/EntitiesFileReader.cs:114-166 | A held line that makes the brace counts equal closes the block: the block is parsed, an entity with an entityDef is kept, and the counts are reset. |
| FileRoundTrip.HeldRun | IdTech.EntitiesFileParser/EntitiesFileReader.cs:62-166 | Once `entity {` has opened a block, the rest of a written entity's lines are held until the final `}`. That line balances the braces and keeps the parsed entity, with no diagnostic. |
| FileRoundTrip.EntityRun | IdTech.EntitiesFileParser/EntitiesFileReader.cs:91-166 | Between blocks, the lines of one written canonical entity add exactly that entity, with no diagnostic. |
| FileRoundTrip.EntitiesRun | IdTech.EntitiesFileParser/EntitiesFileReader.cs:62-208 | Between blocks, the written text of a list of canonical entities adds exactly those entities, in order, with no diagnostic. |
| FileReader.NextEntity | IdTech.EntitiesFileParser/EntitiesFileReader.cs:170-207 | An entity opener inside a block parses the held lines as one entity and starts a new block with the opener. The step crashes exactly when that parse does. |
| FileReader.Parse | IdTech.EntitiesFileParser/EntitiesFileReader.cs:30-220 | Every kept entity has an entityDef with a valid name. Errors and warnings are the diagnostics split by kind, in order. |
| FileReader.RunAppend | IdTech.EntitiesFileParser/EntitiesFileReader.cs:62-208 | Reading a file in two pieces is reading the first piece, then the second from the state the first left. |
| FileReader.BlankLineIgnored | IdTech.EntitiesFileParser/EntitiesFileReader.cs:65-70 | A blank line anywhere in the file changes neither the result nor the diagnostics. |
| FileReader.VersionInsideBlock | IdTech.EntitiesFileParser/EntitiesFileReader.cs:74-88 | While the version is unset, `Version V` is a header line even inside an entity block. |
| FileReader.NewEntityInsideBlock | IdTech.EntitiesFileParser/EntitiesFileReader.cs:170-207 | A new `entity {` while a block is held always reports "missing '}'" first. It still parses the held lines (keeping the entity if it has an entityDef) and starts the next block. |
| FileReader.UnterminatedBlockDropped | IdTech.EntitiesFileParser/EntitiesFileReader.cs:62-210 | An entity block still open at the end of the file yields no entity. |
| Writer.IndentText | EntityFileParser/EntitiesFileWriter.cs:330-347 | The result is `level` tabs followed by the text, so its length is `level` plus the text's length. Level 0 returns the text itself. |
| Writer.Literal | EntityFileParser/EntitiesFileWriter.cs:263-290 | A string is written between quotes without escaping. An integer is written in a form that parses back to it. |
| Layout.CanonicalWritable | EntityFileParser/EntitiesFileWriter.cs:138-169 | Every canonical value can be written without hitting the writer's casts. |
| EntityLayout.EntityText | EntityFileParser/EntitiesFileWriter.cs:65-130 | A canonical entity's written text, split at newlines and trimmed, is `entity {`, the layer block, the `instanceId` line, the `originalName` line, the entityDef block with its members, and `}`. |
| EntityRoundTrip.EntityRoundTrip | EntityFileParser/EntitiesFileWriter.cs:65-130 | A canonical entity's written text, split at newlines and trimmed as the file reader does, parses back to that entity, with no diagnostic. |
| FileRoundTrip.LinesDepth | EntityFileParser/EntitiesFileWriter.cs:65-130 | Along a written entity's lines, the brace depth is one after `entity {`, stays positive, and returns to zero only at the final `}`. No line after the first is `entity`, `entity {` or `entity{`. |
| FileRoundTrip.PropertyKeyed | EntityFileParser/EntitiesFileWriter.cs:138-322 | Every written line of a canonical property is a `}` line or contains `=`, so none can open an entity. |
| FileRoundTrip.FileLines | EntityFileParser/EntitiesFileWriter.cs:17-58 | The written file's lines are `Version v`, then `HierarchyVersion h` when `h` is not empty, then the lines of the entities. |
| FileRoundTrip.FileRoundTrip | EntityFileParser/EntitiesFileWriter.cs:17-36 | Reading a canonical file's written text gives back the file, with no error and no warning. |
| Layout.OpeningLine | EntityFileParser/EntitiesFileWriter.cs:143-146 | The opening line of a block is `name = {`, or `name = ! {` when important, at any indentation. |
| Layout.ChildLayout | EntityFileParser/EntitiesFileWriter.cs:138-322 | The written text of a canonical property, at any level, split at newlines and trimmed, is the same list of lines at every level. |
| RoundTrip.LiteralRoundTrip | EntityFileParser/EntitiesFileWriter.cs:268-287 | The scalar parser reads a scalar's written literal back as the same value, with no diagnostic. This holds for every string, even one holding a newline or `=`, and for every integer; a double must read back as itself. |
| RoundTrip.ItemNameValid | EntityFileParser/EntitiesFileWriter.cs:299-322 | The writer's element name `item[i]` is a valid property name. |
| RoundTrip.PropertyNested | EntityFileParser/EntitiesFileWriter.cs:138-215 | The written lines of a canonical property are well nested. A block's lines are its opening line, a well-nested run, and `}`. |
| RoundTrip.ItemElements | IdTech.EntitiesFileParser/EntitiesFileReader.cs:811-820 | The reader turns the written `item[i]` children back into the array's elements, in order. |
| RoundTrip.ChildrenRead | IdTech.EntitiesFileParser/EntitiesFileReader.cs:657-795 | Over the written lines of a run of children that each read back, the child loop appends exactly that run, with no diagnostic. |
| RoundTrip.ArrayRead | IdTech.EntitiesFileParser/EntitiesFileReader.cs:718-831 | A canonical array reads back from its written lines. The written `num` matches the element count, so no warning appears. |
| RoundTrip.ObjectRead | IdTech.EntitiesFileParser/EntitiesFileReader.cs:797-803 | A canonical object reads back from its written lines. |
| RoundTrip.ScalarRead | IdTech.EntitiesFileParser/EntitiesFileReader.cs:600-636 | A canonical single-line property reads back from its one written line. |
| RoundTrip.PropertyRead | IdTech.EntitiesFileParser/EntitiesFileReader.cs:565-845 | Every canonical property parses back from its written lines, with no diagnostic. |
| RoundTrip.PropertyRoundTrip | EntityFileParser/EntitiesFileWriter.cs:138-322 | For a canonical property written at any level, splitting and trimming the text as the reader does, then parsing, gives back the property. |

## Left out

- File handling is not modelled. This covers the existence check and `FileNotFoundException`, the reader's stream stack, and the writer's `StreamWriter`. The reader takes the file as its sequence of lines. The writer returns the file's text.
- `ReadLine` also ends a line at `\r` and at `\r\n`. The reader model takes the lines as given, and the round trip splits the written text at `\n`, the only line break the writer emits.
- Floating point is not modelled. `Double.TryParse` is a parameter `DoubleParser`: `None` when the parse fails, otherwise the invariant rendering of the parsed double. The writer prints the stored rendering lower-cased.
- Culture details of `long.TryParse` are not modelled. It is optional sign plus decimal digits within 64 bits; its callers always pass trimmed text.
- The writer's culture-dependent calls are modelled as if the current culture were the invariant one:
  - `Append(long)` for `instanceId` (EntityFileParser/EntitiesFileWriter.cs:94) is modelled by `LongToString`. A culture whose negative sign is not `-` would write a different sign.
  - The `ToLower()` calls on rendered booleans and doubles (EntityFileParser/EntitiesFileWriter.cs:278-286, :310-318) are modelled by the ASCII `Lower`. Under a Turkish culture, for example, a double rendered as `Infinity` would be written `ınfinity`.
- Line numbers in diagnostics are abstract. The `ref int currentLineNumber` arithmetic is left out, and each diagnostic keeps its kind and the text it quotes. Diagnostics are one ordered list; errors and warnings are split by kind (`NumMismatch` is the only warning).
- The `try { … } catch { throw; }` wrappers do nothing and are not modelled.
- The data-class files only hold fields. They are folded into the datatypes of `model.dfy`; the unused `IsQuoted` flag is not modelled.
- Null array elements and nested-array elements fall into the writer's integer cast; the writer's preconditions (`Writable`, `WritableElement`) exclude them. Null properties in the writer's lists, and null layers, are not representable.
- WritableEntity and WritableElement also exclude three inputs on which the writer throws a NullReferenceException; the model does not represent those exceptions:
  - an entity with no entityDef (`entity.EntityDef.Name`, EntityFileParser/EntitiesFileWriter.cs:103);
  - a top-level entityDef property with no value (`property.Value.GetType()`, EntityFileParser/EntitiesFileWriter.cs:112). A valueless member of an object is skipped instead (:191-194), as `Members` does;
  - an object array element with a valueless member (`value.Value.GetType()`, EntityFileParser/EntitiesFileWriter.cs:236), which `WritableElement` excludes.
- EntityParser.ParseEntity: assumes its lines are already trimmed, as the file reader always passes them. The source trims each line in place as its loop reaches it (IdTech.EntitiesFileParser/EntitiesFileReader.cs:240). Its `instanceId` bad-declaration message quotes line 1 as it stands (:300). When an entityDef scan from line 0 skips line 1, the source quotes that line untrimmed and the model quotes it trimmed.
- PropertyParser.PropertyLoop: states only that the Important flag is never cleared. That the flag is set exactly by a `!` opening line is proved only for written text, via `RoundTrip.PropertyRead`.
- FileReader.UnterminatedBlockDropped: proved for the smallest unterminated file (an opener and an entityDef header) rather than for every unterminated file.
- EntityParser.ParseEntity: its own contract gives only the validity of the entityDef's names and the case without an `entityDef` line. The exact result is proved for the lines the writer produces, by `EntityRoundTrip.EntityRead`. For other lines, the result is described one step at a time, by `ClassifyEntityLine`, `LayersLoop`, `KeyedValue` and `EntityLoop`, but not as a whole.
- FileRoundTrip.FileRoundTrip: proved only for files with a version. Without one, the reader tests every line as a possible header line, even inside entity blocks. The written entity lines never have that form, but this is not proved. The round trip splits the text at `\n` only, so values holding `\r`, which `ReadLine` would also split at, are not covered.
- Besides the canonical-property conditions above, the round trips exclude two inputs the writer accepts but the reader does not get back. An entityDef whose opening line contains `originalName` or `instanceId` is read as that field, because the entity loop tests those words before `entityDef`. A top-level member marked `!` makes the entityDef parser dereference a null property.
