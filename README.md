# SPASE model tools: model builder and schema emitter

This project models the two programs that turn the SPASE information model
into an XML Schema.

The model builder (`makejson`) reads six tab-separated tables:
- `type.tab`, `dictionary.tab`, `list.tab` and `history.tab`, read row by row;
- `member.tab` and `ontology.tab`, whose consecutive rows are folded into nested objects.

It then derives three fields for each dictionary term: `usedBy`, `subElements` and `allowedValues`.
It checks that every member-set item is a dictionary term.
Finally it layers the header, taking the outline defaults, then the configuration file, then the command-line options.

The schema emitter (`makexsd`) walks the assembled model and writes the
schema one indented line at a time:
- the preamble and the `<xsd:schema>` tag;
- the root element;
- one complexType per ontology container, depth first from `Spase`, each written once;
- the element groups;
- the dictionary's simple and complex types;
- the lists with their enumerations;
- the shared base types;
- the closing tag.

## Modules

- `Sequences`: sequence helpers, including maximal runs of equal keys.
  Runs are the reference definition of the adjacency grouping and of the choice blocks.
- `JsObject`: JavaScript objects as insertion-ordered association lists with distinct keys.
  A repeated assignment keeps the key's first position.
- `JsString`: `split`, `join`, `trim` and `parseInt`, the way the JavaScript built-ins behave.
- `InfoModel`: one datatype per table row, the header, the model, and the console diagnostics.
- `TableReaders`: the six readers (imperative, one `while` loop each).
  Each is proved against a function of the input lines.
- `ModelBuilder`: the derived-field loops, the reference check, the header overrides and the whole build.
- `XsdNames`: `getXSLName`, `getXSLType` and `getXSLOccurrence`.
- `Choices`: the events of the `currentGroup`/`inc`/`inChoice` cursor: Open, Close, and Item inside or outside a block.
  It also proves that those events are well formed.
- `Traversal`: the depth-first walk with the `_written` marker, as a function of the ontology.
- `Enumerations`: what `makeEnum` writes, as a function of the member sets.
- `SchemaSpec`: the lines each emitter writes, as functions of the model.
- `SchemaWriter`: class `SchemaWriter` holds the output stream (`lines`), the console log (`log`) and the set of containers marked `_written` (`written`).
  Every emitter is a method, and each one states the new stream as the old stream followed by the `SchemaSpec` function.

## Modelling notes

- Tables are sequences of already-read lines. Line 1 is the header line.
- A row is dropped when it is shorter than the table's minimum. It is then reported as `InvalidRecord(table, lineNumber)`.
- `parseInt` follows the ECMAScript rules:
  - leading white space, then a sign;
  - the `0x` prefix;
  - the longest digit prefix;
  - `NaN` when there are no digits.
- `htmlEncode` is an uninterpreted function parameter of the writer.
- `today()` is a string parameter.
- `makeXSD` calls `makeTree` with `""` as its third argument, which binds `addLang`. The string is falsy, so the `lang` attribute is never written. The fourth argument, `true`, matches no parameter and is ignored.
  The writer's methods still take `addLang` as a parameter.
- `getXSLOccurrence`'s fourth test is the comma expression `(occur, "*")`. It is always true.
  So every code other than `0`, `1` and `+` gets `minOccurs="0" maxOccurs="unbounded"`, and the final `return ""` is never reached.
- For a child element inside a choice, the modelled line leaves out the occurrence clause, as the source does.
- `makeEnum` has no cycle guard. The nesting of member sets must therefore be well founded.
  A ghost `rank` map witnesses this (`Enumerations.Ranked`).
- JavaScript exceptions that `makexsd.js` catches are modelled as their effect. In each case a diagnostic replaces the line that threw.
  - Reading the definition of a container that is not a dictionary term throws. The annotation and the `<xsd:sequence>` line are then missing from its type.
  - A member that is not a dictionary term leaves its `<xsd:enumeration>` tag unclosed and ends the list (`EnumAborted`).

## Model

| member | source | states |
|---|---|---|
| TableReaders.ReadKeyed | src/makejson.js:143-222 | the one reader loop of the keyed tables. The object it returns is every row that is not the header line, not a comment and long enough, put into an ordered object by its key, later rows replacing earlier ones. The log holds one InvalidRecord, with the 1-based line number, per short row |
| TableReaders.ReadGrouped | src/makejson.js:251-329 | the one reader loop of the grouped tables, with the currentObjectName/currentObject cursor. The result equals sealing the maximal runs of rows with equal outer key, skipping runs whose key is empty; the log is as for ReadKeyed |
| TableReaders.ReadType | src/makejson.js:143-166 | type.tab: 4 fields, keyed by the third |
| TableReaders.ReadDictionary | src/makejson.js:168-195 | dictionary.tab: 8 fields, keyed by the term (third field), derived fields empty |
| TableReaders.ReadList | src/makejson.js:197-222 | list.tab: 6 fields, keyed by the list name (third field) |
| TableReaders.ReadHistory | src/makejson.js:224-249 | history.tab: 6 fields, every valid row kept in file order |
| TableReaders.ReadMember | src/makejson.js:251-284 | member.tab: 4 fields, grouped by list, then by item |
| TableReaders.ReadOntology | src/makejson.js:286-329 | ontology.tab: 8 fields, grouped by object, then by element; reference is parseInt of the fifth field |
| TableReaders.RowsExact | src/makejson.js:150-155 | a row is read exactly for each line after the first whose first character is not `#`, carrying that line's tab-split fields and its 1-based number |
| TableReaders.RowsInOrder | src/makejson.js:150-152 | row line numbers lie in 2..number of lines and strictly increase |
| TableReaders.RecordsExact | src/makejson.js:156-161 | a record is built exactly from each row with at least the minimum number of fields |
| TableReaders.RejectedExact | src/makejson.js:156 | an InvalidRecord is logged exactly for each row with fewer fields than the minimum |
| TableReaders.KeyedHas | src/makejson.js:162 | a key is in the keyed table exactly when some record has it |
| TableReaders.KeyedLastWins | src/makejson.js:162 | the stored record for a key is the last record with that key |
| TableReaders.SealPairsKeys | src/makejson.js:272-281 | a group is stored for a key exactly when the key is not empty and some run has it |
| TableReaders.SealPairsLast | src/makejson.js:272-281 | a key's stored group is the one built from its last run |
| TableReaders.GroupedHas | src/makejson.js:272-281 | the grouped table has a key exactly when the key is not empty and some record has it as outer key |
| TableReaders.GroupedLastRun | src/makejson.js:272-281 | when a key comes back later, the group of its last run (keyed by inner key, last row winning) replaces the earlier one |
| Sequences.RunsFlatten | src/makejson.js:272-277 | the runs the cursor cuts put back together give the rows in order |
| Sequences.RunsMaximal | src/makejson.js:272-277 | the runs are maximal: non-empty, equal keys within a run, different keys between neighbours |
| Sequences.RunsKeys | src/makejson.js:272-281 | a key occurs among the rows exactly when it occurs as a run's key |
| JsObject.PutKeepsOrder | src/makejson.js:162 | assigning a key keeps the existing keys, in order, as a prefix, and adds the assigned key to the domain |
| JsObject.PutAllHas | src/makejson.js:277 | after a series of assignments a key is present exactly when it was before or was assigned |
| JsObject.PutAllLastWins | src/makejson.js:277 | the last assignment to a key wins |
| JsObject.PutAllUntouched | src/makejson.js:277 | keys not assigned keep their value |
| JsString.JoinSplit | src/makejson.js:155 | joining the tab-split fields with tabs gives the line back |
| JsString.SplitJoin | src/makejson.js:155 | splitting a join of tab-free fields gives the fields back |
| JsString.SplitLength | src/makejson.js:155 | a line has one more field than it has tabs |
| JsString.SplitPiecesFree | src/makejson.js:155 | no field contains a tab |
| JsString.ParseIntRoundTrip | src/makejson.js:305 | parseInt of an integer's decimal text gives the integer back |
| JsString.ParseIntDecimal | src/makejson.js:305 | parseInt of a digit string is its decimal value |
| JsString.ParseIntNegative | src/makejson.js:305 | parseInt of a minus sign followed by digits is the negated value |
| JsString.TrimStartShape | src/makexsd.js:654 | trimStart removes exactly a maximal white-space prefix |
| JsString.TrimEndShape | src/makexsd.js:654 | trimEnd removes exactly a maximal white-space suffix |
| JsString.TrimIdempotent | src/makexsd.js:654 | trimming twice is trimming once |
| ModelBuilder.UsedByLoop | src/makejson.js:435-441 | the inner loop's usedBy is the reference UsedBy: the containers, in ontology key order, whose child keys include the term |
| ModelBuilder.UsedByExact | src/makejson.js:435-441 | a container is in usedBy exactly when it is an ontology key whose child keys include the term, and no container is listed twice |
| ModelBuilder.DeriveUsage | src/makejson.js:433-446 | every term gets that usedBy, and subElements set to the container's child keys exactly when the term is an ontology container; nothing else changes, key order included |
| ModelBuilder.DeriveAllowed | src/makejson.js:449-460 | allowedValues is the member set's keys when the term names an existing list, and empty otherwise; a ListMissing is logged, in term order, for each named list that does not exist |
| ModelBuilder.ListErrorsExact | src/makejson.js:452-454 | a ListMissing is logged exactly for a term with a non-empty list that is not a member set |
| ModelBuilder.CheckItems | src/makejson.js:465-469 | the inner loop reports exactly the items of one list that are not dictionary terms, in order |
| ModelBuilder.CheckReferences | src/makejson.js:463-471 | the check reports each (list, item) whose item is not a dictionary term, in member order, and changes nothing |
| ModelBuilder.ItemErrorsExact | src/makejson.js:465-469 | a MemberUndefined is logged exactly for each item of the list missing from the dictionary |
| ModelBuilder.IntegrityErrorsExact | src/makejson.js:463-471 | a MemberUndefined (l, i) is logged exactly when i is an item of member set l that is not a term |
| ModelBuilder.FirstTruthyPicks | src/makejson.js:367-373 | the first non-empty candidate is chosen, and "" only when all are empty |
| ModelBuilder.Override | src/makejson.js:479-485 | every header field takes the overriding value when it is non-empty, otherwise keeps its own |
| ModelBuilder.Configure | src/makejson.js:344-378 | with a configuration file named and present, each header field is the config value or the outline's ""; a named but missing file is reported |
| ModelBuilder.Derive | src/makejson.js:431-471 | each term gets all three derived fields; the log is the reference errors followed by the integrity errors; the key order is unchanged |
| ModelBuilder.HeaderPrecedence | src/makejson.js:344-373 | each header field is the first non-empty among the command-line value, the config value (`number` feeding version) and "" |
| ModelBuilder.Build | src/makejson.js:331-496 | the whole model: the layered header, the six tables as the readers define them, the dictionary with its derived fields, and every diagnostic in program order |
| XsdNames.XslNameProperties | src/makexsd.js:598-608 | the XML name keeps exactly the characters of the term that are not dash, quote or space, in order; it distributes over concatenation, is idempotent and leaves a clean term unchanged |
| XsdNames.XslNameIsStrip | src/makexsd.js:598-608 | the three successive removals equal one pass that drops the three characters |
| XsdNames.XslType | src/makexsd.js:624-650 | Container gives namespace:name; every other type gives an xsd: or spase: type |
| XsdNames.XslTypeTable | src/makexsd.js:624-650 | outside Container, getXSLType is the fixed table of fourteen types and xsd:string for anything else |
| XsdNames.XslOccurrence | src/makexsd.js:652-661 | the clause is always one of the four min/max clauses, never "" |
| XsdNames.OccurrenceOfTrimmed | src/makexsd.js:652-661 | the clause depends only on the trimmed code, and every code but 0, 1 and + gives any number |
| Choices.ChoicesWellFormed | src/makexsd.js:230-271 | the cursor's events are well formed: an Open comes only at the start of a run with non-empty group, never inside an open block, and each block closes before a child of another group and at the end |
| Choices.ChoicesBalanced | src/makexsd.js:230-271 | opens equal closes |
| Choices.ChoicesKeepChildren | src/makexsd.js:230-271 | the children written are exactly the container's children, in order |
| Choices.ChildrenRuns | src/makexsd.js:230-271 | the items of the run events are the flattened runs |
| Choices.OpenStep | src/makexsd.js:232-248 | one cursor step appends the events of that child |
| Choices.OpenClose | src/makexsd.js:269-271 | after the loop, a block is closed exactly when the last group is non-empty |
| Traversal.VisitOnce | src/makexsd.js:207-209 | the walk visits only containers not already marked, each at most once |
| Traversal.VisitAllOnce | src/makexsd.js:277-283 | the walk over a list of child keys visits each container at most once |
| Traversal.VisitClosed | src/makexsd.js:207-283 | after the walk, every container child of a visited container has been visited or was already marked |
| Traversal.VisitRootFirst | src/makexsd.js:207-209 | the walk from an unmarked container starts with that container |
| Traversal.VisitStart | src/makexsd.js:207-283 | an unmarked container is written, then its child keys are walked with it marked |
| SchemaSpec.IndentedShape | src/makexsd.js:96-107 | a written line is three spaces per indent level followed by the text |
| SchemaSpec.TreeBlocks | src/makexsd.js:180-209 | the tree's containers start with the root, are distinct, are ontology containers and are closed under child containers |
| SchemaSpec.BranchChoices | src/makexsd.js:230-271 | in each complexType the choice events are well formed and balanced and hold every child once, in order |
| SchemaSpec.StepLines | src/makexsd.js:232-265 | one child writes a close tag when it leaves a group, an open tag with its own occurrence when it starts a group, and its element line, which has no occurrence clause inside a choice |
| SchemaSpec.ReachFromRoot | src/makexsd.js:180-209 | the containers of the walk from the root are closed under children, which is what the walk needs from the dictionary |
| SchemaSpec.GroupsWellFormed | src/makexsd.js:309-355 | makeGroup's items are exactly the grouped children of all containers; the group events keep them in order and opens equal closes |
| SchemaSpec.AllGroupedMembers | src/makexsd.js:318-330 | an item is in makeGroup's stream exactly when it has a non-empty group and is a child of some container |
| SchemaSpec.DictEntryKinds | src/makexsd.js:357-412 | a term writes nothing exactly when it is silent (Version, Extension, Item, Enumeration, Container or a `+` type); Boundary and Value open a complexType, everything else a simpleType |
| SchemaSpec.EnumStep | src/makexsd.js:559-573 | one turn of makeEnum's loop appends that member's entries, and stops the loop exactly when the member is not a term |
| Enumerations.EnumQualified | src/makexsd.js:551-578 | every entry is qualified: value prefix.name (no dot for an empty prefix), nested entries deeper and under their parent's value |
| Enumerations.QualifiedNested | src/makexsd.js:564-571 | entries nested under a member stay under the enclosing prefix and deeper than the member |
| Enumerations.EnumDescribed | src/makexsd.js:559-573 | every entry with a definition is a dictionary term with that definition; an entry without one is the unclosed tag |
| Enumerations.EntriesTopLevel | src/makexsd.js:559-573 | the entries at the list's own level are the member-set keys in order, up to and including the first one that is not a term |
| Enumerations.EntriesHalted | src/makexsd.js:574-577 | once a member is not a term, nothing more of that list is written |
| Enumerations.EnumNoMembers | src/makexsd.js:553-556 | a list with no member set writes nothing and logs NoMembers |
| SchemaWriter.SchemaWriter.Write | src/makexsd.js:96-107 | appends one indented line and changes nothing else |
| SchemaWriter.SchemaWriter.AddAnnotation | src/makexsd.js:616-622 | appends the annotation with the encoded description |
| SchemaWriter.SchemaWriter.ChoiceStep | src/makexsd.js:232-265 | one turn of the cursor: the group, inChoice and inc that follow, and the lines of that step |
| SchemaWriter.SchemaWriter.WriteCursor | src/makexsd.js:230-266 | the loop over the children writes the cursor's events and leaves currentGroup at the last child's group |
| SchemaWriter.SchemaWriter.WriteChoices | src/makexsd.js:230-271 | the lines of the container's well-formed choice events |
| SchemaWriter.SchemaWriter.WriteComplexType | src/makexsd.js:212-276 | the container's complexType: its annotation, its sequence of choices and elements and its closing tags; the log has TermFailed when the container is not a term |
| SchemaWriter.SchemaWriter.MakeBranch | src/makexsd.js:204-284 | writes exactly the blocks of the containers Visit lists, in walk order, marks exactly those containers, and logs their failures |
| SchemaWriter.SchemaWriter.WriteUsedTypes | src/makexsd.js:277-283 | after the parent's type is closed, walks the child keys in order, each container still unmarked |
| SchemaWriter.SchemaWriter.MakeExtension | src/makexsd.js:286-307 | the Extension type; when Extension is not a term only its first two lines are written, and the failure is logged unless the model is version 1.1.0 |
| SchemaWriter.SchemaWriter.MakeTree | src/makexsd.js:180-202 | the walk from the root and the Extension type, wrapped in an override of the base schema when the model extends one; when it returns no container is marked |
| SchemaWriter.SchemaWriter.StripMarkers | src/makexsd.js:195-201 | removes every `_written` marker and writes nothing |
| SchemaWriter.SchemaWriter.GroupContainer | src/makexsd.js:318-330 | one container's children continue the group stream with its grouped children |
| SchemaWriter.SchemaWriter.MakeGroup | src/makexsd.js:309-355 | the element groups of all containers, with the last group closed |
| SchemaWriter.SchemaWriter.WriteDictEntry | src/makexsd.js:372-410 | the type of one dictionary term, by its type |
| SchemaWriter.SchemaWriter.MakeDictionary | src/makexsd.js:357-412 | the types of all dictionary terms in key order |
| SchemaWriter.SchemaWriter.MakeEnum | src/makexsd.js:551-578 | the lines and log of the list's enumeration as Enum defines them |
| SchemaWriter.SchemaWriter.WriteMember | src/makexsd.js:564-571 | one member's entry and its nested set; reports whether the loop stops |
| SchemaWriter.SchemaWriter.WriteList | src/makexsd.js:424-474 | one list: an open list is an element of string type; a closed list is a simpleType restriction holding its enumeration |
| SchemaWriter.SchemaWriter.MakeLists | src/makexsd.js:417-476 | the Lists banner, the version type in a base schema, and every list in key order |
| SchemaWriter.SchemaWriter.MakeTypes | src/makexsd.js:481-520 | the Types banner, then typeSequence only when the type table has Sequence and typeID only when it has ID |
| SchemaWriter.SchemaWriter.MakeXSD | src/makexsd.js:141-177 | the whole schema: preamble, schema tag, root, tree, groups, dictionary, lists, base types only when the model extends nothing, and the closing tag; no container marked afterwards |

## Left out

- Reading the tables and the configuration file, `JSON.parse`, and writing the JSON and schema files: these are I/O. The tables are sequences of lines, the configuration is an optional header, and the outputs are the `Model` value and the line stream.
- The command-line parsing (yargs) and the `verbose` output.
- `outputEnd` and the output streams. The `makejson` writer that prints the model as JSON is replaced by the returned `Model`.
- The JSON serialisation of the model is not modelled.
- `today()` reads the clock; it is a parameter. `htmlEncode` is a foreign library; it is an uninterpreted function.
- `makeEnumUnion` and the Union branch of `makeLists`: that code cannot run, since it assigns undeclared variables in strict mode and calls a nonexistent `String.index`. `MakeXSD` and `MakeLists` require that no list is a Union.
- `defineType` is never called. `getElementGroup` is a constant stub.
- The unused `desc` variable of `makeLists` is not modelled.
- SchemaWriter.SchemaWriter.MakeExtension: the version comparison `localeCompare("1.1.0")` is modelled as an equality test on the version text.
- The text of a caught exception's message is not modelled, only the first line of each diagnostic.
- `parseInt` results are integers; JavaScript's floating-point rounding of very long digit strings is not modelled.
- Crash paths that are not caught become preconditions:
  - `Spase` is an ontology container;
  - every element of a container reachable from it is a dictionary term;
  - no list is a Union.
- `makeEnum` has no cycle guard, so the member-set nesting must be well founded; `MakeXSD` and `MakeEnum` require that it is ranked.
  A cyclic nesting would recurse until the stack overflows inside `makeEnum`'s own `try`, whose handler would catch it; that behaviour is not modelled.
- A table key literally named `_written` would clash with the marker. The model keeps the marker in a separate set.
- The keys of every table (type, dictionary, list, the member sets and their items, the ontology containers and their elements) are assumed not to be array-index strings, which JavaScript would order first in `Object.keys`.
- The keys of every table are assumed not to be `Object.prototype` property names (`__proto__`, `constructor`, `toString`, `hasOwnProperty`, …).
  Each lookup `o[k]` is modelled as "k is an own key of o", whereas JavaScript finds such names through the prototype chain and treats them as truthy, and an assignment to `__proto__` adds no key.
  For example, a term whose list is `constructor` with no such member set gets `[]` with no diagnostic in the source, while `ModelBuilder.ListErrors` reports `ListMissing`; a container child named `toString` would make `makeBranch` descend into it, while `Traversal.Visit` skips it.
