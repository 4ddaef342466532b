/**
 * The main routine of the model builder (src/makejson.js): read the six
 * tables, derive `usedBy`, `subElements` and `allowedValues` for every
 * dictionary term, check that every member of every member set is a
 * dictionary term, and layer the header fields (outline default, then the
 * configuration file, then the command line).
 */
module ModelBuilder {

  import opened Sequences
  import opened JsObject
  import opened InfoModel
  import opened TableReaders

  /** The command line: the configuration file name ("" when none is to be
      read) and the header values given as options ("" when absent). */
  datatype Options = Options(config: string, header: Header)

  /** The lines of the six tables of the model folder. */
  datatype Tables = Tables(
    typeLines: seq<string>, dictionaryLines: seq<string>, listLines: seq<string>,
    memberLines: seq<string>, historyLines: seq<string>, ontologyLines: seq<string>)

  // ----- Header layering -----

  datatype HeaderField = Name | Version | Released | Description | Namespace | SchemaUrl | Extend

  function Get(h: Header, f: HeaderField): string {
    match f
    case Name => h.name
    case Version => h.version
    case Released => h.released
    case Description => h.description
    case Namespace => h.namespace
    case SchemaUrl => h.schemaurl
    case Extend => h.extend
  }

  /** The model outline: every header field empty. */
  const Outline: Header := Header("", "", "", "", "", "", "")

  /** The first truthy (non-empty) candidate, or "" when there is none. */
  function FirstTruthy(cands: seq<string>): string
    decreases |cands|
  {
    if cands == [] then "" else if cands[0] != "" then cands[0] else FirstTruthy(cands[1..])
  }

  /** FirstTruthy picks the first non-empty candidate, and is empty only
      when every candidate is. */
  lemma {:induction false} FirstTruthyPicks(cands: seq<string>)
    ensures FirstTruthy(cands) == "" <==> forall i | 0 <= i < |cands| :: cands[i] == ""
    ensures FirstTruthy(cands) != "" ==>
      exists i | 0 <= i < |cands| :: cands[i] == FirstTruthy(cands) && forall j | 0 <= j < i :: cands[j] == ""
    decreases |cands|
  {
    if cands != [] && cands[0] == "" {
      var rest := cands[1..];
      FirstTruthyPicks(rest);
      assert forall i | 1 <= i < |cands| :: cands[i] == rest[i - 1];
      if FirstTruthy(rest) != "" {
        var i :| 0 <= i < |rest| && rest[i] == FirstTruthy(rest) && forall j | 0 <= j < i :: rest[j] == "";
        assert cands[i + 1] == FirstTruthy(cands);
        assert forall j | 0 <= j < i + 1 :: cands[j] == "" by {
          forall j | 0 <= j < i + 1 ensures cands[j] == "" {
            if j > 0 { assert cands[j] == rest[j - 1]; }
          }
        }
      }
    }
  }

  function Pick(a: string, b: string): string {
    if a != "" then a else b
  }

  lemma FirstTruthyOfTwo(a: string, b: string)
    ensures FirstTruthy([a, b]) == if a != "" then a else b
  {
    assert [a, b][1..] == [b];
    assert [b][1..] == [];
    assert FirstTruthy([b]) == b;
  }

  lemma FirstTruthyOfThree(a: string, b: string)
    ensures FirstTruthy([a, b, ""]) == if a != "" then a else b
  {
    assert [a, b, ""][1..] == [b, ""];
    assert [b, ""][1..] == [""];
    assert [""][1..] == [];
    assert FirstTruthy([""]) == "";
    assert FirstTruthy([b, ""]) == b;
  }

  /** The assignments `if (over.f) { h.f = over.f; }` for the seven fields. */
  method Override(h: Header, over: Header) returns (r: Header)
    ensures forall f: HeaderField :: Get(r, f) == FirstTruthy([Get(over, f), Get(h, f)])
  {
    r := h;
    if over.name != "" { r := r.(name := over.name); }
    if over.version != "" { r := r.(version := over.version); }
    if over.released != "" { r := r.(released := over.released); }
    if over.description != "" { r := r.(description := over.description); }
    if over.namespace != "" { r := r.(namespace := over.namespace); }
    if over.schemaurl != "" { r := r.(schemaurl := over.schemaurl); }
    if over.extend != "" { r := r.(extend := over.extend); }
    OverrideFields(h, over, r);
  }

  /** Field by field, the header each override leaves. */
  lemma OverrideFields(h: Header, over: Header, r: Header)
    requires r == Header(Pick(over.name, h.name), Pick(over.version, h.version), Pick(over.released, h.released),
                         Pick(over.description, h.description), Pick(over.namespace, h.namespace),
                         Pick(over.schemaurl, h.schemaurl), Pick(over.extend, h.extend))
    ensures forall f: HeaderField :: Get(r, f) == FirstTruthy([Get(over, f), Get(h, f)])
  {
    forall f: HeaderField ensures Get(r, f) == FirstTruthy([Get(over, f), Get(h, f)]) {
      FirstTruthyOfTwo(Get(over, f), Get(h, f));
    }
  }

  /** The header values the configuration file supplies (its `number`
      feeds the version); none when no configuration file is read. */
  function ConfigHeader(options: Options, config: Option<Header>): Header {
    if options.config != "" && config.Some? then config.value else Outline
  }

  function ConfigLog(options: Options, config: Option<Header>): seq<Diagnostic> {
    if options.config != "" && config.None? then [ConfigMissing(options.config)] else []
  }

  // ----- usedBy and subElements -----

  /** The containers among `cs` whose children include `term`, in order. */
  function UsedByIn(ontology: Ontology, term: string, cs: seq<string>): seq<string>
    decreases |cs|
  {
    if cs == [] then []
    else
      var c := Last(cs);
      UsedByIn(ontology, term, cs[..|cs| - 1])
      + (if c in ontology.vals && term in ontology.vals[c].keys then [c] else [])
  }

  function UsedBy(ontology: Ontology, term: string): seq<string> {
    UsedByIn(ontology, term, ontology.keys)
  }

  /** A term's dictionary entry once its usage is derived. */
  function WithUsage(rec: Term, term: string, ontology: Ontology): Term {
    rec.(usedBy := UsedBy(ontology, term),
         subElements := if term in ontology.vals then Some(ontology.vals[term].keys) else rec.subElements)
  }

  lemma {:induction false} UsedByInExact(ontology: Ontology, term: string, cs: seq<string>, c: string)
    ensures c in UsedByIn(ontology, term, cs) <==> c in cs && c in ontology.vals && term in ontology.vals[c].keys
    decreases |cs|
  {
    if cs != [] {
      var init := cs[..|cs| - 1];
      UsedByInExact(ontology, term, init, c);
      assert cs == init + [Last(cs)];
    }
  }

  lemma {:induction false} UsedByInDistinct(ontology: Ontology, term: string, cs: seq<string>)
    requires Distinct(cs)
    ensures Distinct(UsedByIn(ontology, term, cs))
    decreases |cs|
  {
    if cs != [] {
      var init := cs[..|cs| - 1];
      UsedByInDistinct(ontology, term, init);
      UsedByInExact(ontology, term, init, Last(cs));
    }
  }

  /** `usedBy` lists exactly the containers that have the term as a child,
      each once, in the key order of the ontology. */
  lemma UsedByExact(ontology: Ontology, term: string, c: string)
    ensures c in UsedBy(ontology, term) <==> c in ontology.vals && term in ontology.vals[c].keys
    ensures Distinct(UsedBy(ontology, term))
  {
    UsedByInExact(ontology, term, ontology.keys, c);
    UsedByInDistinct(ontology, term, ontology.keys);
  }

  /** The inner loop of the first derived-field loop: the containers whose
      children include `term`, in ontology order. */
  method UsedByLoop(ontology: Ontology, term: string) returns (usedBy: seq<string>)
    ensures usedBy == UsedBy(ontology, term)
  {
    var ont := ontology.keys;
    usedBy := [];
    var j := 0;
    while j < |ont|
      invariant 0 <= j <= |ont|
      invariant usedBy == UsedByIn(ontology, term, ont[..j])
    {
      var item := ont[j];
      var members := ontology.vals[item].keys;
      assert ont[..j + 1][..j] == ont[..j];
      if term in members { usedBy := usedBy + [item]; }
      j := j + 1;
    }
    assert ont[..j] == ont;
  }

  /** The first derived-field loop. */
  method DeriveUsage(dictionary: JsObj<Term>, ontology: Ontology) returns (d: JsObj<Term>)
    ensures d.keys == dictionary.keys
    ensures forall t | t in dictionary.vals :: t in d.vals && d.vals[t] == WithUsage(dictionary.vals[t], t, ontology)
  {
    var terms := dictionary.keys;
    d := dictionary;
    var i := 0;
    while i < |terms|
      invariant 0 <= i <= |terms|
      invariant d.keys == dictionary.keys
      invariant forall t | t in dictionary.vals ::
                  t in d.vals && d.vals[t] == if t in terms[..i] then WithUsage(dictionary.vals[t], t, ontology)
                                              else dictionary.vals[t]
    {
      var term := terms[i];
      var usedBy := UsedByLoop(ontology, term);
      var rec := d.vals[term].(usedBy := usedBy);
      if term in ontology.vals {
        rec := rec.(subElements := Some(ontology.vals[term].keys));
      }
      assert term !in terms[..i];
      d := Put(d, term, rec);
      assert forall t | t in terms[..i + 1] :: t in terms[..i] || t == term;
      i := i + 1;
    }
  }

  // ----- allowedValues and the list reference check -----

  /** Allowed values: the keys of the member set the term's list names,
      when the list is named and the member set exists, otherwise none. */
  function Allowed(rec: Term, member: MemberSets): seq<string> {
    if rec.list != "" && rec.list in member.vals then member.vals[rec.list].keys else []
  }

  function WithAllowed(rec: Term, member: MemberSets): Term {
    rec.(allowedValues := Allowed(rec, member))
  }

  /** The reference errors for the terms `ts`, in order. */
  function ListErrors(dictionary: JsObj<Term>, member: MemberSets, ts: seq<string>): seq<Diagnostic>
    decreases |ts|
  {
    if ts == [] then []
    else
      var t := Last(ts);
      ListErrors(dictionary, member, ts[..|ts| - 1])
      + (if t in dictionary.vals && dictionary.vals[t].list != "" && dictionary.vals[t].list !in member.vals
         then [ListMissing(t, dictionary.vals[t].list)] else [])
  }

  /** A reference error is reported exactly for a term among `ts` whose
      named list has no member set. */
  lemma {:induction false} ListErrorsExact(dictionary: JsObj<Term>, member: MemberSets, ts: seq<string>, d: Diagnostic)
    ensures d in ListErrors(dictionary, member, ts) <==>
      && d.ListMissing? && d.term in ts && d.term in dictionary.vals
      && d.list == dictionary.vals[d.term].list && d.list != "" && d.list !in member.vals
    decreases |ts|
  {
    if ts != [] {
      var init := ts[..|ts| - 1];
      ListErrorsExact(dictionary, member, init, d);
      assert ts == init + [Last(ts)];
    }
  }

  /** The second derived-field loop. */
  method DeriveAllowed(dictionary: JsObj<Term>, member: MemberSets) returns (d: JsObj<Term>, log: seq<Diagnostic>)
    ensures d.keys == dictionary.keys
    ensures forall t | t in dictionary.vals :: t in d.vals && d.vals[t] == WithAllowed(dictionary.vals[t], member)
    ensures log == ListErrors(dictionary, member, dictionary.keys)
  {
    var terms := dictionary.keys;
    d := dictionary;
    log := [];
    var i := 0;
    while i < |terms|
      invariant 0 <= i <= |terms|
      invariant d.keys == dictionary.keys
      invariant forall t | t in dictionary.vals ::
                  t in d.vals && d.vals[t] == if t in terms[..i] then WithAllowed(dictionary.vals[t], member)
                                              else dictionary.vals[t]
      invariant log == ListErrors(dictionary, member, terms[..i])
    {
      var term := terms[i];
      assert term !in terms[..i];
      assert terms[..i + 1][..i] == terms[..i];
      assert d.vals[term] == dictionary.vals[term];
      var rec := d.vals[term].(allowedValues := []);
      if |rec.list| > 0 {
        if rec.list !in member.vals {
          log := log + [ListMissing(term, rec.list)];
        } else {
          rec := rec.(allowedValues := member.vals[rec.list].keys);
        }
      }
      assert rec == WithAllowed(dictionary.vals[term], member);
      assert log == ListErrors(dictionary, member, terms[..i + 1]) by {
        assert Last(terms[..i + 1]) == term;
      }
      ghost var d0 := d;
      d := Put(d, term, rec);
      forall t | t in dictionary.vals
        ensures t in d.vals && d.vals[t] == if t in terms[..i + 1] then WithAllowed(dictionary.vals[t], member)
                                            else dictionary.vals[t]
      {
        if t != term {
          assert t in terms[..i + 1] <==> t in terms[..i];
          assert d.vals[t] == d0.vals[t];
        }
      }
      i := i + 1;
    }
    assert terms[..i] == terms;
  }

  // ----- The member-to-dictionary check -----

  function ItemErrors(list: string, items: seq<string>, dictionary: JsObj<Term>): seq<Diagnostic>
    decreases |items|
  {
    if items == [] then []
    else
      ItemErrors(list, items[..|items| - 1], dictionary)
      + (if Last(items) !in dictionary.vals then [MemberUndefined(list, Last(items))] else [])
  }

  /** The integrity errors for the member sets `ls`, in order. */
  function IntegrityErrors(member: MemberSets, dictionary: JsObj<Term>, ls: seq<string>): seq<Diagnostic>
    decreases |ls|
  {
    if ls == [] then []
    else
      var l := Last(ls);
      IntegrityErrors(member, dictionary, ls[..|ls| - 1])
      + (if l in member.vals then ItemErrors(l, member.vals[l].keys, dictionary) else [])
  }

  lemma {:induction false} ItemErrorsExact(list: string, items: seq<string>, dictionary: JsObj<Term>, d: Diagnostic)
    ensures d in ItemErrors(list, items, dictionary) <==>
      d.MemberUndefined? && d.list == list && d.item in items && d.item !in dictionary.vals
    decreases |items|
  {
    if items != [] {
      var init := items[..|items| - 1];
      ItemErrorsExact(list, init, dictionary, d);
      assert items == init + [Last(items)];
    }
  }

  /** An integrity error is reported exactly for each item of a member set
      among `ls` that is not a dictionary term. */
  lemma {:induction false} IntegrityErrorsExact(member: MemberSets, dictionary: JsObj<Term>, ls: seq<string>, d: Diagnostic)
    ensures d in IntegrityErrors(member, dictionary, ls) <==>
      && d.MemberUndefined? && d.list in ls && d.list in member.vals
      && d.item in member.vals[d.list].keys && d.item !in dictionary.vals
    decreases |ls|
  {
    if ls != [] {
      var init := ls[..|ls| - 1];
      var l := Last(ls);
      IntegrityErrorsExact(member, dictionary, init, d);
      if l in member.vals {
        ItemErrorsExact(l, member.vals[l].keys, dictionary, d);
      }
      assert ls == init + [l];
    }
  }

  /** The inner loop of the reference check: one message per item of the
      set `list` that is not a dictionary term, in order. */
  method CheckItems(list: string, items: seq<string>, dictionary: JsObj<Term>) returns (log: seq<Diagnostic>)
    ensures log == ItemErrors(list, items, dictionary)
  {
    log := [];
    var j := 0;
    while j < |items|
      invariant 0 <= j <= |items|
      invariant log == ItemErrors(list, items[..j], dictionary)
    {
      assert items[..j + 1][..j] == items[..j];
      if items[j] !in dictionary.vals {
        log := log + [MemberUndefined(list, items[j])];
      }
      j := j + 1;
    }
    assert items[..j] == items;
  }

  /** The reference check: it reports and changes nothing else. */
  method CheckReferences(member: MemberSets, dictionary: JsObj<Term>) returns (log: seq<Diagnostic>)
    ensures log == IntegrityErrors(member, dictionary, member.keys)
  {
    var terms := member.keys;
    log := [];
    var i := 0;
    while i < |terms|
      invariant 0 <= i <= |terms|
      invariant log == IntegrityErrors(member, dictionary, terms[..i])
    {
      var items := CheckItems(terms[i], member.vals[terms[i]].keys, dictionary);
      assert terms[..i + 1][..i] == terms[..i];
      log := log + items;
      i := i + 1;
    }
    assert terms[..i] == terms;
  }

  // ----- The whole build -----

  /** A dictionary entry with all three derived fields. */
  function Derived(rec: Term, term: string, ontology: Ontology, member: MemberSets): Term {
    WithUsage(rec, term, ontology).(allowedValues := Allowed(rec, member))
  }

  /** The dictionary as read, before the derived fields. */
  function ReadDictionaryOf(tables: Tables): JsObj<Term> {
    Keyed(Records(Rows(tables.dictionaryLines), 8, TermOf), TermKey)
  }

  function ReadMemberOf(tables: Tables): MemberSets {
    Grouped(Records(Rows(tables.memberLines), 4, MemberOf), MemberList, MemberItem)
  }

  function ReadOntologyOf(tables: Tables): Ontology {
    Grouped(Records(Rows(tables.ontologyLines), 8, OntologyOf), OntologyObject, OntologyElement)
  }

  /** Everything the build reports, in the order the program reports it. */
  function BuildLog(options: Options, config: Option<Header>, tables: Tables): seq<Diagnostic> {
    ConfigLog(options, config)
    + Rejected(Rows(tables.typeLines), "Type", 4)
    + Rejected(Rows(tables.dictionaryLines), "Dictionary", 8)
    + Rejected(Rows(tables.listLines), "List", 6)
    + Rejected(Rows(tables.memberLines), "Member", 4)
    + Rejected(Rows(tables.historyLines), "History", 6)
    + Rejected(Rows(tables.ontologyLines), "Ontology", 8)
    + ListErrors(ReadDictionaryOf(tables), ReadMemberOf(tables), ReadDictionaryOf(tables).keys)
    + IntegrityErrors(ReadMemberOf(tables), ReadDictionaryOf(tables), ReadMemberOf(tables).keys)
  }

  /** The header after the configuration file, which is read only when a
      configuration file name is given and is reported when missing. */
  method Configure(options: Options, config: Option<Header>) returns (header: Header, log: seq<Diagnostic>)
    ensures forall f: HeaderField :: Get(header, f) == FirstTruthy([Get(ConfigHeader(options, config), f), ""])
    ensures log == ConfigLog(options, config)
  {
    header := Outline;
    log := [];
    if options.config != "" {
      if config.Some? {
        header := Override(header, config.value);
      } else {
        log := log + [ConfigMissing(options.config)];
      }
    }
    forall f: HeaderField ensures Get(header, f) == FirstTruthy([Get(ConfigHeader(options, config), f), ""]) {
      FirstTruthyOfTwo(Get(ConfigHeader(options, config), f), "");
    }
  }

  /** The derived-field loops and the reference check, in program order. */
  method Derive(dictionary: JsObj<Term>, ontology: Ontology, member: MemberSets)
    returns (d: JsObj<Term>, log: seq<Diagnostic>)
    ensures d.keys == dictionary.keys
    ensures forall t | t in dictionary.vals ::
              t in d.vals && d.vals[t] == Derived(dictionary.vals[t], t, ontology, member)
    ensures log == ListErrors(dictionary, member, dictionary.keys)
                   + IntegrityErrors(member, dictionary, member.keys)
  {
    var used := DeriveUsage(dictionary, ontology);
    var l1, l2;
    d, l1 := DeriveAllowed(used, member);
    forall t | t in dictionary.vals
      ensures t in d.vals && d.vals[t] == Derived(dictionary.vals[t], t, ontology, member)
    {
      DerivedBoth(dictionary.vals[t], t, ontology, member);
    }
    assert forall t :: t in used.vals <==> t in dictionary.vals;
    assert forall t | t in used.vals :: used.vals[t].list == dictionary.vals[t].list;
    ListErrorsSame(used, dictionary, member, dictionary.keys);
    l2 := CheckReferences(member, d);
    assert forall t :: t in d.vals <==> t in dictionary.vals;
    IntegrityErrorsSame(member, d, dictionary, member.keys);
    log := l1 + l2;
  }

  /** The two derived-field loops, one after the other, give each entry all
      three derived fields. */
  lemma DerivedBoth(rec: Term, term: string, ontology: Ontology, member: MemberSets)
    ensures WithAllowed(WithUsage(rec, term, ontology), member) == Derived(rec, term, ontology, member)
  {
    assert WithUsage(rec, term, ontology).list == rec.list;
  }

  /** main: the model handed to the JSON writer, and the console messages. */
  method Build(options: Options, config: Option<Header>, tables: Tables) returns (model: Model, log: seq<Diagnostic>)
    ensures forall f: HeaderField ::
      Get(model.header, f) == FirstTruthy([Get(options.header, f), Get(ConfigHeader(options, config), f), ""])
    ensures model.types == Keyed(Records(Rows(tables.typeLines), 4, TypeOf), TypeKey)
    ensures model.lists == Keyed(Records(Rows(tables.listLines), 6, ListOf), ListKey)
    ensures model.history == Records(Rows(tables.historyLines), 6, HistoryOf)
    ensures model.member == ReadMemberOf(tables)
    ensures model.ontology == ReadOntologyOf(tables)
    ensures model.dictionary.keys == ReadDictionaryOf(tables).keys
    ensures forall t | t in ReadDictionaryOf(tables).vals ::
              t in model.dictionary.vals &&
              model.dictionary.vals[t] == Derived(ReadDictionaryOf(tables).vals[t], t, model.ontology, model.member)
    ensures log == BuildLog(options, config, tables)
  {
    var header, l0 := Configure(options, config);
    var types, l1 := ReadType(tables.typeLines);
    var dictionary, l2 := ReadDictionary(tables.dictionaryLines);
    var lists, l3 := ReadList(tables.listLines);
    var member, l4 := ReadMember(tables.memberLines);
    var history, l5 := ReadHistory(tables.historyLines);
    var ontology, l6 := ReadOntology(tables.ontologyLines);
    var derived, l7 := Derive(dictionary, ontology, member);
    ghost var configured := header;
    header := Override(header, options.header);
    HeaderPrecedence(options, config, configured, header);
    model := Model(header, history, types, derived, lists, member, ontology);
    log := l0 + l1 + l2 + l3 + l4 + l5 + l6 + l7;
    AppendAssoc(l0 + l1 + l2 + l3 + l4 + l5 + l6, ListErrors(dictionary, member, dictionary.keys),
                IntegrityErrors(member, dictionary, member.keys));
  }

  /** The command-line options win over the configuration file, which wins
      over the empty outline. */
  lemma HeaderPrecedence(options: Options, config: Option<Header>, configured: Header, header: Header)
    requires forall f: HeaderField :: Get(configured, f) == FirstTruthy([Get(ConfigHeader(options, config), f), ""])
    requires forall f: HeaderField :: Get(header, f) == FirstTruthy([Get(options.header, f), Get(configured, f)])
    ensures forall f: HeaderField ::
      Get(header, f) == FirstTruthy([Get(options.header, f), Get(ConfigHeader(options, config), f), ""])
  {
    forall f: HeaderField
      ensures Get(header, f) == FirstTruthy([Get(options.header, f), Get(ConfigHeader(options, config), f), ""])
    {
      FirstTruthyOfThree(Get(options.header, f), Get(ConfigHeader(options, config), f));
      FirstTruthyOfTwo(Get(options.header, f), Get(configured, f));
      FirstTruthyOfTwo(Get(ConfigHeader(options, config), f), "");
    }
  }

  /** The reference errors depend only on the terms' lists. */
  lemma {:induction false} ListErrorsSame(a: JsObj<Term>, b: JsObj<Term>, member: MemberSets, ts: seq<string>)
    requires forall t :: t in a.vals <==> t in b.vals
    requires forall t | t in a.vals :: a.vals[t].list == b.vals[t].list
    ensures ListErrors(a, member, ts) == ListErrors(b, member, ts)
    decreases |ts|
  {
    if ts != [] { ListErrorsSame(a, b, member, ts[..|ts| - 1]); }
  }

  /** The integrity errors depend only on which terms are defined. */
  lemma {:induction false} IntegrityErrorsSame(member: MemberSets, a: JsObj<Term>, b: JsObj<Term>, ls: seq<string>)
    requires forall t :: t in a.vals <==> t in b.vals
    ensures IntegrityErrors(member, a, ls) == IntegrityErrors(member, b, ls)
    decreases |ls|
  {
    if ls != [] {
      IntegrityErrorsSame(member, a, b, ls[..|ls| - 1]);
      var l := Last(ls);
      if l in member.vals { ItemErrorsSame(l, member.vals[l].keys, a, b); }
    }
  }

  lemma {:induction false} ItemErrorsSame(list: string, items: seq<string>, a: JsObj<Term>, b: JsObj<Term>)
    requires forall t :: t in a.vals <==> t in b.vals
    ensures ItemErrors(list, items, a) == ItemErrors(list, items, b)
    decreases |items|
  {
    if items != [] { ItemErrorsSame(list, items[..|items| - 1], a, b); }
  }
}
