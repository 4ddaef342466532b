/**
 * The information model that the model builder assembles from the six
 * tab-separated tables and that the schema emitter reads back: one record
 * type per table, the header fields, and the diagnostics both programs write
 * to the console.
 */
module InfoModel {

  import opened JsObject
  import opened JsString

  /** A row of type.tab, keyed by its type name. */
  datatype TypeDef = TypeDef(version: string, since: string, typeName: string, definition: string)

  /** A row of dictionary.tab, keyed by its term, with the three fields the
      builder derives (they start empty when the row is read). */
  datatype Term = Term(
    version: string, since: string, term: string, termType: string, list: string,
    element: string, attributes: string, definition: string,
    usedBy: seq<string>, subElements: Option<seq<string>>, allowedValues: seq<string>)

  /** A row of list.tab, keyed by its list name. */
  datatype ListDef = ListDef(
    version: string, since: string, name: string, listType: string, reference: string, definition: string)

  /** A row of history.tab; history keeps every row. */
  datatype HistoryRec = HistoryRec(
    id: string, version: string, updated: string, changedBy: string, description: string, note: string)

  /** A row of member.tab: one item of the member set named `list`. */
  datatype MemberDef = MemberDef(version: string, since: string, list: string, item: string)

  /** A row of ontology.tab: one child `element` of the container `objectName`. */
  datatype OntologyDef = OntologyDef(
    version: string, since: string, objectName: string, element: string, reference: Number,
    occurrence: string, group: string, elementType: string)

  type MemberSets = JsObj<JsObj<MemberDef>>
  type Ontology = JsObj<JsObj<OntologyDef>>

  /** The header fields of the model; the configuration file and the command
      line supply values for the same fields. */
  datatype Header = Header(
    name: string, version: string, released: string, description: string,
    namespace: string, schemaurl: string, extend: string)

  /** The assembled model (`type` and `list` are keywords here, so the
      tables are called `types` and `lists`). */
  datatype Model = Model(
    header: Header,
    history: seq<HistoryRec>,
    types: JsObj<TypeDef>,
    dictionary: JsObj<Term>,
    lists: JsObj<ListDef>,
    member: MemberSets,
    ontology: Ontology)

  /** A message written to the console. */
  datatype Diagnostic =
    | InvalidRecord(table: string, line: nat)
    | ConfigMissing(config: string)
    | ListMissing(term: string, list: string)
    | MemberUndefined(list: string, item: string)
    | TermFailed(term: string)
    | ExtensionFailed
    | NoMembers(list: string)
    | EnumAborted(term: string, list: string)

  /** The first line of each message as printed (an exception's own message,
      printed after TermFailed, ExtensionFailed and EnumAborted, is not
      modelled). */
  function Text(d: Diagnostic): string {
    match d
    case InvalidRecord(table, line) => table + ": Invalid record at line " + IntToString(line)
    case ConfigMissing(config) => "Config file \"" + config + "\" does not exist."
    case ListMissing(term, list) =>
      "Reference error: Term '" + term + "' refers to list '" + list + "' which does not exist."
    case MemberUndefined(list, item) => "Error in list '" + list + "' - member '" + item + "' is not defined."
    case TermFailed(term) => "Processing term: " + term
    case ExtensionFailed => "Processing term: Extension"
    case NoMembers(list) => "List '" + list + "' has no members defined."
    case EnumAborted(term, list) => "Processing term '" + term + "' in list '" + list + "'"
  }
}
