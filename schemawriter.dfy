/**
 * The schema emitter. Each make* method writes its section line by line
 * through `Write`, as the generator does, and is proved to write exactly the
 * lines the SchemaSpec functions give for the model; the console messages
 * go to `log`, and the containers already written carry their marker in
 * `written`.
 */
module SchemaWriter {

  import opened Sequences
  import opened JsObject
  import opened InfoModel
  import opened XsdNames
  import opened Choices
  import opened Traversal
  import opened Enumerations
  import opened SchemaSpec

  class SchemaWriter {
    const model: Model
    /** htmlEncode, which this model does not define. */
    const encode: string -> string
    /** The generation date, read from the clock by the generator. */
    const today: string

    var lines: seq<string>
    var log: seq<Diagnostic>
    /** The containers carrying the `_written` marker. */
    var written: set<string>

    constructor (model: Model, encode: string -> string, today: string)
      ensures this.model == model && this.encode == encode && this.today == today
      ensures lines == [] && log == [] && written == {}
    {
      this.model := model;
      this.encode := encode;
      this.today := today;
      lines := [];
      log := [];
      written := {};
    }

    /** outputWrite: one line, three spaces per indent level. */
    method Write(indent: nat, s: string)
      modifies this
      ensures lines == old(lines) + [Indented(indent, s)]
      ensures log == old(log) && written == old(written)
    {
      var prefix := "";
      var i := 0;
      while i < indent
        invariant 0 <= i <= indent
        invariant prefix == Pad(i)
      {
        prefix := prefix + "   ";
        i := i + 1;
      }
      lines := lines + [prefix + s];
    }

    method AddAnnotation(indent: nat, desc: string)
      modifies this
      ensures lines == old(lines) + AnnotationLines(indent, desc, encode)
      ensures log == old(log) && written == old(written)
    {
      Write(indent, "<xsd:annotation>");
      Write(indent + 1, DocumentationOpen);
      Write(indent + 1, encode(desc));
      Write(indent + 1, "</xsd:documentation>");
      Write(indent, "</xsd:annotation>");
    }

    method WriteBanner(title: string)
      modifies this
      ensures lines == old(lines) + Banner(title)
      ensures log == old(log) && written == old(written)
    {
      Write(0, BannerTop);
      Write(0, title);
      Write(0, BannerBottom);
    }

    /** One child element of a complexType: its type is the element itself
        or, for an enumeration, its list; the occurrence is written only
        outside a choice. */
    method WriteElement(member: OntologyDef, inChoice: bool)
      requires member.element in model.dictionary.vals
      modifies this
      ensures lines == old(lines) + EventLines(model, InChoice, Item(member, inChoice))
      ensures log == old(log) && written == old(written)
    {
      var inc := if inChoice then 1 else 0;
      var elementType := member.element;
      if model.dictionary.vals[member.element].termType == "Enumeration" {
        elementType := model.dictionary.vals[member.element].list;
      }
      var occur := "";
      if !inChoice {
        occur := " " + XslOccurrence(member.occurrence);
      }
      Write(3 + inc,
            "<xsd:element name=\"" + XslName(member.element) + "\""
            + " type=\"" + model.header.namespace + ":" + XslName(elementType) + "\""
            + occur + " />");
      assert elementType == TypeName(model.dictionary, member.element);
    }

    /** One iteration of the cursor loop: close the open choice when the
        group changes, open one when a new group starts, write the child. */
    method ChoiceStep(member: OntologyDef, currentGroup: string, inc: int, inChoice: bool)
      returns (group: string, inc': int, inChoice': bool)
      requires member.element in model.dictionary.vals
      requires inChoice == (currentGroup != "") && inc == if inChoice then 1 else 0
      modifies this
      ensures group == member.group
      ensures inChoice' == (group != "") && inc' == if inChoice' then 1 else 0
      ensures lines == old(lines) + Render(model, InChoice, Step(currentGroup, member))
      ensures log == old(log) && written == old(written)
    {
      ghost var L0 := lines;
      ghost var close: seq<string> := if currentGroup != "" && member.group != currentGroup
                                      then [Indented(3, "</xsd:choice>")] else [];
      ghost var open: seq<string> := if member.group != "" && member.group != currentGroup
                                     then [Indented(3, "<xsd:choice " + XslOccurrence(member.occurrence) + ">")] else [];
      group, inc', inChoice' := currentGroup, inc, inChoice;
      if group != "" {
        if member.group != group {
          Write(3, "</xsd:choice>");
          inc' := inc' - 1;
          inChoice' := false;
          group := "";
        }
      }
      assert lines == L0 + close;
      if member.group != "" {
        if member.group != group {
          Write(3, "<xsd:choice " + XslOccurrence(member.occurrence) + ">");
          inc' := inc' + 1;
          inChoice' := true;
        }
        group := member.group;
      }
      assert lines == L0 + close + open;
      WriteElement(member, inChoice');
      StepLines(model, currentGroup, member);
      AppendAssoc(L0, close, open);
      AppendAssoc(L0, close + open, EventLines(model, InChoice, Item(member, member.group != "")));
    }

    /** The cursor loop of makeBranch over the children of the container
        `item`; it returns the group still open after the last child. */
    method WriteCursor(item: JsObj<OntologyDef>) returns (currentGroup: string)
      requires forall c | c in Values(item) :: c.element in model.dictionary.vals
      modifies this
      ensures currentGroup == LastGroup(Values(item))
      ensures lines == old(lines) + Render(model, InChoice, OpenEvents(Values(item)))
      ensures log == old(log) && written == old(written)
    {
      var keys := item.keys;
      ghost var cs := Values(item);
      ghost var L0, G0, W0 := lines, log, written;
      currentGroup := "";
      var inc := 0;
      var inChoice := false;
      var i := 0;
      while i < |keys|
        invariant 0 <= i <= |keys| == |cs|
        invariant currentGroup == LastGroup(cs[..i])
        invariant inChoice == (currentGroup != "")
        invariant inc == if inChoice then 1 else 0
        invariant lines == L0 + Render(model, InChoice, OpenEvents(cs[..i]))
        invariant log == G0 && written == W0
      {
        var member := item.vals[keys[i]];
        assert member == cs[i] && member in cs;
        ghost var done := Render(model, InChoice, OpenEvents(cs[..i]));
        ghost var step := Render(model, InChoice, Step(currentGroup, member));
        CursorStep(model, InChoice, cs, i);
        assert Render(model, InChoice, OpenEvents(cs[..i + 1])) == done + step;
        currentGroup, inc, inChoice := ChoiceStep(member, currentGroup, inc, inChoice);
        AppendAssoc(L0, done, step);
        i := i + 1;
      }
      assert cs[..i] == cs;
    }

    /** The children of `term` with their choice blocks, the last one
        closed after the loop. */
    method WriteChoices(term: string)
      requires term in model.ontology.vals
      requires forall c | c in ChildDefs(model.ontology, term) :: c.element in model.dictionary.vals
      modifies this
      ensures lines == old(lines) + Render(model, InChoice, ChoiceEvents(ChildDefs(model.ontology, term)))
      ensures log == old(log) && written == old(written)
    {
      ghost var cs := ChildDefs(model.ontology, term);
      assert cs == Values(model.ontology.vals[term]);
      ghost var open := Render(model, InChoice, OpenEvents(cs));
      var currentGroup := WriteCursor(model.ontology.vals[term]);
      assert lines == old(lines) + open;
      ghost var close := if currentGroup != "" then EventLines(model, InChoice, Close) else [];
      if currentGroup != "" {
        Write(3, "</xsd:choice>");
        assert lines == old(lines) + open + close;
      } else {
        AppendEmpty(old(lines) + open);
        AppendEmpty(open);
      }
      CursorEnd(model, InChoice, cs);
      AppendAssoc(old(lines), open, close);
    }
    /** The complexType of container `term`. A term missing from the
        dictionary makes reading its definition throw: the handler reports
        the term and the rest of the type is still written. */
    method WriteComplexType(term: string, addLang: bool)
      requires term in model.ontology.vals
      requires forall c | c in ChildDefs(model.ontology, term) :: c.element in model.dictionary.vals
      modifies this
      ensures lines == old(lines) + BranchBlock(model, encode, addLang, term)
      ensures log == old(log) + BranchLog(model, term)
      ensures written == old(written)
    {
      ghost var L0 := lines;
      ghost var head := if term in model.dictionary.vals
                        then AnnotationLines(2, model.dictionary.vals[term].definition, encode) + [Indented(2, "<xsd:sequence>")]
                        else [];
      ghost var body := Render(model, InChoice, ChoiceEvents(ChildDefs(model.ontology, term)));
      Write(1, "<xsd:complexType name=\"" + XslName(term) + "\">");
      ghost var L1 := lines;
      if term in model.dictionary.vals {
        AddAnnotation(2, model.dictionary.vals[term].definition);
        Write(2, "<xsd:sequence>");
        AppendAssoc(L1, AnnotationLines(2, model.dictionary.vals[term].definition, encode), [Indented(2, "<xsd:sequence>")]);
        AppendEmpty(old(log));
      } else {
        log := log + [TermFailed(term)];
        AppendEmpty(L1);
      }
      assert lines == L1 + head;
      WriteChoices(term);
      ghost var L2 := lines;
      Write(2, "</xsd:sequence>");
      if addLang {
        Write(3, LangAttribute);
      } else {
        AppendEmpty(L2 + [Indented(2, "</xsd:sequence>")]);
      }
      ghost var L3 := lines;
      assert L3 == L2 + [Indented(2, "</xsd:sequence>")] + LangLines(addLang);
      Write(1, "</xsd:complexType>");
      BlockParts(L0, [Indented(1, "<xsd:complexType name=\"" + XslName(term) + "\">")], head, body,
                 [Indented(2, "</xsd:sequence>")], LangLines(addLang), [Indented(1, "</xsd:complexType>")]);
    }

    /** makeBranch: a container already marked is skipped; otherwise it is
        marked, its complexType is written, and every child key naming a
        container is walked in turn. */
    method MakeBranch(term: string, addLang: bool, ghost reach: set<string>)
      requires term in model.ontology.vals
      requires Reach(model, reach) && term in reach
      modifies this
      decreases |model.ontology.vals.Keys - written|, 1
      ensures written == old(written) + Elems(Visit(model.ontology, term, old(written)))
      ensures lines == old(lines) + Blocks(model, encode, addLang, Visit(model.ontology, term, old(written)))
      ensures log == old(log) + BlocksLog(model, Visit(model.ontology, term, old(written)))
    {
      var item := model.ontology.vals[term];
      if term in written {
        return;
      }
      ghost var W0, L0, G0 := written, lines, log;
      written := written + {term};
      ReachDefined(model, reach, term);
      WriteComplexType(term, addLang);
      WriteUsedTypes(term, addLang, W0, reach);
      BranchStep(model, encode, addLang, term, W0, L0, G0, written, lines, log);
    }

    /** The recursion loop of makeBranch: after `term` is marked and
        written, every child key naming a container is walked, each with the
        marks the walks before it left (`marks` are those found on entry to
        makeBranch). */
    method WriteUsedTypes(term: string, addLang: bool, ghost marks: set<string>, ghost reach: set<string>)
      requires term in model.ontology.vals && term !in marks && written == marks + {term}
      requires Reach(model, reach) && term in reach
      modifies this
      decreases |model.ontology.vals.Keys - marks|, 0
      ensures var walked := VisitAll(model.ontology, model.ontology.vals[term].keys, marks + {term});
              && written == old(written) + Elems(walked)
              && lines == old(lines) + Blocks(model, encode, addLang, walked)
              && log == old(log) + BlocksLog(model, walked)
    {
      ghost var W1 := written;
      VisitStart(model.ontology, term, marks);
      ghost var L1, G1 := lines, log;
      var keys := model.ontology.vals[term].keys;
      ghost var walked: seq<string> := [];
      var i := 0;
      while i < |keys|
        invariant 0 <= i <= |keys|
        invariant walked == VisitAll(model.ontology, keys[..i], W1)
        invariant written == W1 + Elems(walked)
        invariant lines == L1 + Blocks(model, encode, addLang, walked)
        invariant log == G1 + BlocksLog(model, walked)
      {
        VisitAllStep(model.ontology, keys, W1, i, walked, written);
        ghost var v := Visit(model.ontology, keys[i], written);
        ghost var next := VisitAll(model.ontology, keys[..i + 1], W1);
        assert next == walked + v;
        if keys[i] in model.ontology.vals {
          CardShrinks(model.ontology.vals.Keys, W1, written);
          CardShrinksStrict(model.ontology.vals.Keys, marks, W1, term);
          ReachChild(model, reach, term, keys[i]);
          MakeBranch(keys[i], addLang, reach);
        }
        WalkStep(model, encode, addLang, keys, W1, L1, G1, i, walked, v, written, lines, log);
        walked := walked + v;
        i := i + 1;
        assert walked == VisitAll(model.ontology, keys[..i], W1);
      }
      assert keys[..i] == keys;
    }
  
    /** makeExtension: the Extension complexType. Without an Extension
        term, reading its definition throws after the first two lines; the
        handler reports it unless the model is version 1.1.0. */
    method MakeExtension(addLang: bool)
      modifies this
      ensures lines == old(lines) + ExtensionLines(model, encode, addLang)
      ensures log == old(log) + ExtensionLog(model)
      ensures written == old(written)
    {
      ghost var head := [Indented(0, ""), Indented(1, "<xsd:complexType name=\"" + "Extension" + "\">")];
      Write(0, "");
      OpenCleanType("Extension");
      assert lines == old(lines) + head;
      ghost var body := if "Extension" in model.dictionary.vals
                        then ExtensionBody(model.dictionary.vals["Extension"], encode, addLang) else [];
      assert ExtensionLines(model, encode, addLang) == head + body;
      if "Extension" in model.dictionary.vals {
        WriteExtensionBody(model.dictionary.vals["Extension"], addLang);
        AppendAssoc(old(lines), head, body);
      } else if model.header.version != "1.1.0" {
        log := log + [ExtensionFailed];
      }
    }

    /** The opening tag of a complexType named by getXSLName after a term
        it leaves unchanged. */
    method OpenCleanType(term: string)
      requires forall i | 0 <= i < |term| :: !Dropped(term[i])
      modifies this
      ensures lines == old(lines) + [Indented(1, "<xsd:complexType name=\"" + term + "\">")]
      ensures log == old(log) && written == old(written)
    {
      CleanName(term);
      Write(1, "<xsd:complexType name=\"" + XslName(term) + "\">");
    }

    method WriteExtensionBody(rec: Term, addLang: bool)
      modifies this
      ensures lines == old(lines) + ExtensionBody(rec, encode, addLang)
      ensures log == old(log) && written == old(written)
    {
      ghost var L1 := lines;
      ghost var ann := AnnotationLines(2, rec.definition, encode);
      ghost var any := [ Indented(2, "<xsd:sequence>"),
                         Indented(3, AnyElement),
                         Indented(2, "</xsd:sequence>") ];
      AddAnnotation(2, rec.definition);
      Write(2, "<xsd:sequence>");
      Write(3, AnyElement);
      Write(2, "</xsd:sequence>");
      assert lines == L1 + ann + any;
      if addLang {
        Write(3, LangAttribute);
      }
      assert lines == L1 + ann + any + LangLines(addLang);
      Write(1, "</xsd:complexType>");
      TreeParts(L1, ann, any, LangLines(addLang), [Indented(1, "</xsd:complexType>")]);
    }

    method WriteOverrideOpen()
      modifies this
      ensures lines == old(lines) + OverrideOpen(model)
      ensures log == old(log) && written == old(written)
    {
      if model.header.extend != "" {
        Write(1, OverrideNote);
        Write(1, "<xsd:override schemaLocation=\"" + model.header.extend + "\">");
      }
    }

    method WriteOverrideClose()
      modifies this
      ensures lines == old(lines) + OverrideClose(model)
      ensures log == old(log) && written == old(written)
    {
      if model.header.extend != "" {
        Write(1, "</xsd:override>");
        Write(0, "");
      }
    }

    /** makeTree: the override wrapper of an extension schema around the
        tree of complexTypes from `term` and the Extension type, then the
        markers are removed from every container. */
    method MakeTree(term: string, addLang: bool)
      requires written == {}
      requires term in model.ontology.vals
      requires ElementsDefined(model, Visit(model.ontology, term, {}))
      modifies this
      ensures lines == old(lines) + TreeLines(model, encode, addLang, term)
      ensures log == old(log) + TreeLog(model, term)
      ensures written == {}
    {
      ghost var L0, G0 := lines, log;
      ghost var ts := Visit(model.ontology, term, {});
      WriteOverrideOpen();
      ghost var open := OverrideOpen(model);
      ReachFromRoot(model, term);
      MakeBranch(term, addLang, Elems(ts));
      ghost var tree := Blocks(model, encode, addLang, ts);
      assert lines == L0 + open + tree;
      MakeExtension(addLang);
      ghost var ext := ExtensionLines(model, encode, addLang);
      assert lines == L0 + open + tree + ext;
      WriteOverrideClose();
      TreeParts(L0, open, tree, ext, OverrideClose(model));
      AppendAssoc(G0, BlocksLog(model, ts), ExtensionLog(model));
      VisitOnce(model.ontology, term, {});
      assert written == Elems(ts) <= model.ontology.vals.Keys;
      StripMarkers();
    }

    /** The loop that deletes the `_written` marker from every container. */
    method StripMarkers()
      requires written <= model.ontology.vals.Keys
      modifies this
      ensures written == {}
      ensures lines == old(lines) && log == old(log)
    {
      var keys := model.ontology.keys;
      ghost var W := written;
      var i := 0;
      while i < |keys|
        invariant 0 <= i <= |keys|
        invariant written == W - Elems(keys[..i])
        invariant lines == old(lines) && log == old(log)
      {
        if keys[i] in written {
          written := written - {keys[i]};
        }
        assert keys[..i + 1] == keys[..i] + [keys[i]];
        i := i + 1;
      }
      assert keys[..i] == keys;
      assert forall k | k in W :: k in keys;
    }
  
    method CloseGroup()
      modifies this
      ensures lines == old(lines) + EventLines(model, InGroup, Close)
      ensures log == old(log) && written == old(written)
    {
      Write(2, "</xsd:sequence>");
      Write(1, "</xsd:group>");
    }

    /** One grouped child of makeGroup: close the group that ends, open the
        one that starts, write the element. */
    method GroupStep(member: OntologyDef, currentGroup: string) returns (group: string)
      requires member.group != ""
      modifies this
      ensures group == member.group
      ensures lines == old(lines) + Render(model, InGroup, Step(currentGroup, member))
      ensures log == old(log) && written == old(written)
    {
      ghost var L0 := lines;
      ghost var close := if currentGroup != "" && member.group != currentGroup then EventLines(model, InGroup, Close) else [];
      ghost var open := if member.group != currentGroup then EventLines(model, InGroup, Open(member)) else [];
      ghost var item := EventLines(model, InGroup, Item(member, true));
      if currentGroup != "" && member.group != currentGroup {
        CloseGroup();
      } else {
        AppendEmpty(L0);
      }
      assert lines == L0 + close;
      if member.group != currentGroup {
        Write(1, "<xsd:group name=\"" + member.group + "\">");
        Write(2, "<xsd:sequence>");
      } else {
        AppendEmpty(L0 + close);
      }
      assert lines == L0 + close + open;
      group := member.group;
      Write(3, "<xsd:element name=\"" + XslName(member.element) + "\""
               + " type=\"" + model.header.namespace + ":" + XslName(member.element) + "\""
               + " " + XslOccurrence(member.occurrence)
               + " />");
      GroupStepLines(model, currentGroup, member);
      AppendAssoc(L0, close, open);
      AppendAssoc(L0, close + open, item);
    }

    /** The inner loop of makeGroup over the children of one container;
        `done` are the grouped children of the containers before it. */
    method GroupContainer(container: JsObj<OntologyDef>, currentGroup: string,
                          ghost base: seq<string>, ghost done: seq<OntologyDef>)
      returns (group: string)
      requires currentGroup == LastGroup(done)
      requires lines == base + Render(model, InGroup, OpenEvents(done))
      modifies this
      ensures group == LastGroup(done + Filter(Values(container), IsGrouped))
      ensures lines == base + Render(model, InGroup, OpenEvents(done + Filter(Values(container), IsGrouped)))
      ensures log == old(log) && written == old(written)
    {
      var items := container.keys;
      ghost var cs := Values(container);
      group := currentGroup;
      var j := 0;
      assert done + Filter(cs[..0], IsGrouped) == done by {
        assert cs[..0] == [];
      }
      while j < |items|
        invariant 0 <= j <= |items| == |cs|
        invariant group == LastGroup(done + Filter(cs[..j], IsGrouped))
        invariant lines == base + Render(model, InGroup, OpenEvents(done + Filter(cs[..j], IsGrouped)))
        invariant log == old(log) && written == old(written)
      {
        var member := container.vals[items[j]];
        assert member == cs[j];
        group := GroupChild(member, group, base, done, cs, j);
        j := j + 1;
      }
      assert cs[..j] == cs;
    }

    /** One child in the inner loop of makeGroup: only a grouped child is
        written. */
    method GroupChild(member: OntologyDef, currentGroup: string, ghost base: seq<string>,
                      ghost done: seq<OntologyDef>, ghost cs: seq<OntologyDef>, ghost j: nat)
      returns (group: string)
      requires j < |cs| && member == cs[j]
      requires currentGroup == LastGroup(done + Filter(cs[..j], IsGrouped))
      requires lines == base + Render(model, InGroup, OpenEvents(done + Filter(cs[..j], IsGrouped)))
      modifies this
      ensures group == LastGroup(done + Filter(cs[..j + 1], IsGrouped))
      ensures lines == base + Render(model, InGroup, OpenEvents(done + Filter(cs[..j + 1], IsGrouped)))
      ensures log == old(log) && written == old(written)
    {
      ghost var acc := done + Filter(cs[..j], IsGrouped);
      GroupItemStep(model, done, cs, j);
      group := currentGroup;
      if member.group != "" {
        group := GroupStep(member, group);
        AppendAssoc(base, Render(model, InGroup, OpenEvents(acc)), Render(model, InGroup, Step(currentGroup, member)));
      }
    }

    /** makeGroup: one group definition per run of equal group tags over the
        grouped children of all containers, in container order. */
    method MakeGroup()
      modifies this
      ensures lines == old(lines) + GroupLines(model)
      ensures log == old(log) && written == old(written)
    {
      WriteBanner("      Groups");
      ghost var base := lines;
      assert base == old(lines) + Banner("      Groups");
      var keys := model.ontology.keys;
      var currentGroup := "";
      var i := 0;
      while i < |keys|
        invariant 0 <= i <= |keys|
        invariant currentGroup == LastGroup(AllGrouped(model.ontology, keys[..i]))
        invariant lines == base + Render(model, InGroup, OpenEvents(AllGrouped(model.ontology, keys[..i])))
        invariant log == old(log) && written == old(written)
      {
        var container := model.ontology.vals[keys[i]];
        assert Values(container) == ChildDefs(model.ontology, keys[i]);
        AllGroupedStep(model.ontology, keys, i);
        currentGroup := GroupContainer(container, currentGroup, base, AllGrouped(model.ontology, keys[..i]));
        i := i + 1;
      }
      assert keys[..i] == keys;
      ghost var items := AllGrouped(model.ontology, keys);
      ghost var open := Render(model, InGroup, OpenEvents(items));
      ghost var close := if currentGroup != "" then EventLines(model, InGroup, Close) else [];
      assert lines == base + open;
      if currentGroup != "" {
        CloseGroup();
      } else {
        AppendEmpty(base + open);
        AppendEmpty(open);
      }
      assert lines == base + open + close;
      CursorEnd(model, InGroup, items);
      assert GroupLines(model) == Banner("      Groups") + (open + close);
      AppendAssoc(base, open, close);
      AppendAssoc(old(lines), Banner("      Groups"), open + close);
    }
  
    /** The definition of one dictionary term: Version, Extension, items,
        enumerations, containers and `+` types write nothing; Boundary and
        Value terms restrict their base type in complex or simple content;
        every other term is a simple restriction of its base type. */
    method WriteDictEntry(rec: Term)
      modifies this
      ensures lines == old(lines) + DictEntryLines(model, encode, rec)
      ensures log == old(log) && written == old(written)
    {
      var term := rec.term;
      var termType := rec.termType;
      var desc := rec.definition;
      if term == "Version" || term == "Extension" {
        return;
      }
      var base := "<xsd:restriction base=\"" + XslType(termType, model.header.namespace, term) + "\"" + " />";
      if termType == "Item" {
      } else if termType == "Enumeration" {
      } else if termType == "Container" {
      } else if termType == "Boundary" {
        WriteContentType(term, desc, "complexContent", base);
      } else if termType == "Value" {
        WriteContentType(term, desc, "simpleContent", base);
      } else {
        if "+" <= termType {
        } else {
          WriteSimpleType(term, desc, base);
        }
      }
    }

    method WriteSimpleType(term: string, desc: string, base: string)
      modifies this
      ensures lines == old(lines) + SimpleTypeLines(term, desc, encode, base)
      ensures log == old(log) && written == old(written)
    {
      Write(1, "<xsd:simpleType name=\"" + XslName(term) + "\">");
      ghost var L1 := lines;
      AddAnnotation(2, desc);
      Write(2, base);
      Write(1, "</xsd:simpleType>");
      AppendAssoc(L1, AnnotationLines(2, desc, encode), [Indented(2, base), Indented(1, "</xsd:simpleType>")]);
    }

    /** A complexType whose `content` restricts the base type. */
    method WriteContentType(term: string, desc: string, content: string, base: string)
      modifies this
      ensures lines == old(lines) + ContentTypeLines(term, desc, encode, content, base)
      ensures log == old(log) && written == old(written)
    {
      ghost var head := [Indented(1, "<xsd:complexType name=\"" + XslName(term) + "\">")];
      ghost var ann := AnnotationLines(2, desc, encode);
      ghost var tail := [ Indented(2, "<xsd:" + content + ">"), Indented(3, base),
                          Indented(1, "</xsd:" + content + ">"), Indented(1, "</xsd:complexType>") ];
      Write(1, "<xsd:complexType name=\"" + XslName(term) + "\">");
      AddAnnotation(2, desc);
      ghost var L2 := lines;
      Write(2, "<xsd:" + content + ">");
      Write(3, base);
      Write(1, "</xsd:" + content + ">");
      Write(1, "</xsd:complexType>");
      Append4(L2, Indented(2, "<xsd:" + content + ">"), Indented(3, base),
              Indented(1, "</xsd:" + content + ">"), Indented(1, "</xsd:complexType>"));
      AppendAssoc(old(lines), head, ann);
      AppendAssoc(old(lines), head + ann, tail);
    }

    /** makeDictionary: the type definitions of the dictionary terms, in
        dictionary order. */
    method MakeDictionary()
      modifies this
      ensures lines == old(lines) + DictionaryLines(model, encode)
      ensures log == old(log) && written == old(written)
    {
      WriteBanner("      Dictionary Terms");
      ghost var base := lines;
      var keys := model.dictionary.keys;
      var i := 0;
      while i < |keys|
        invariant 0 <= i <= |keys|
        invariant lines == base + DictEntries(model, encode, keys[..i])
        invariant log == old(log) && written == old(written)
      {
        ghost var done := DictEntries(model, encode, keys[..i]);
        WriteDictEntry(model.dictionary.vals[keys[i]]);
        AppendAssoc(base, done, DictEntryLines(model, encode, model.dictionary.vals[keys[i]]));
        assert keys[..i + 1][..i] == keys[..i];
        i := i + 1;
      }
      assert keys[..i] == keys;
      AppendAssoc(old(lines), Banner("      Dictionary Terms"), DictEntries(model, encode, keys));
    }
  
    /** makeEnum(indent, model, prefix, list): the enumeration values of the
        member set of `list`. The handler around the loop means the first
        member missing from the dictionary ends the loop. */
    method MakeEnum(indent: nat, prefix: string, list: string, ghost rank: map<string, nat>)
      requires Ranked(model.member, rank)
      modifies this
      decreases if list in rank then rank[list] else 0, 1
      ensures lines == old(lines) + EnumLines(encode, Enum(model.member, model.dictionary, rank, indent, prefix, list).entries)
      ensures log == old(log) + Enum(model.member, model.dictionary, rank, indent, prefix, list).log
      ensures written == old(written)
    {
      if list !in model.member.vals {
        log := log + [NoMembers(list)];
        return;
      }
      ghost var L0, G0 := lines, log;
      var keys := model.member.vals[list].keys;
      var stop := false;
      var i := 0;
      assert keys[..0] == [];
      while i < |keys| && !stop
        invariant 0 <= i <= |keys|
        invariant stop == Halted(model.dictionary, keys[..i])
        invariant lines == L0 + EnumLines(encode, Entries(model.member, model.dictionary, rank, indent, prefix, list, keys[..i]).entries)
        invariant log == G0 + Entries(model.member, model.dictionary, rank, indent, prefix, list, keys[..i]).log
        invariant written == old(written)
      {
        ghost var pre := Entries(model.member, model.dictionary, rank, indent, prefix, list, keys[..i]);
        ghost var me := Member(model.member, model.dictionary, rank, indent, prefix, list, keys[i]);
        EnumStep(model.member, model.dictionary, rank, indent, prefix, list, keys, i);
        stop := WriteMember(indent, prefix, list, keys[i], rank);
        EnumLinesAppend(encode, pre.entries, me.entries);
        AppendAssoc(L0, EnumLines(encode, pre.entries), EnumLines(encode, me.entries));
        AppendAssoc(G0, pre.log, me.log);
        i := i + 1;
      }
      if stop {
        EntriesHalted(model.member, model.dictionary, rank, indent, prefix, list, keys, i);
      } else {
        assert keys[..i] == keys;
      }
    }

    /** One member of makeEnum's loop: its enumeration value, its
        definition when it is a dictionary term (and otherwise the two
        reports and the end of the loop), then its own member set. */
    method WriteMember(indent: nat, prefix: string, list: string, term: string, ghost rank: map<string, nat>)
      returns (stop: bool)
      requires Ranked(model.member, rank)
      requires list in model.member.vals && term in model.member.vals[list].vals
      modifies this
      decreases rank[list], 0
      ensures stop == (term !in model.dictionary.vals)
      ensures lines == old(lines) + EnumLines(encode, Member(model.member, model.dictionary, rank, indent, prefix, list, term).entries)
      ensures log == old(log) + Member(model.member, model.dictionary, rank, indent, prefix, list, term).log
      ensures written == old(written)
    {
      var buffer := prefix;
      if |prefix| > 0 {
        buffer := buffer + ".";
      }
      buffer := buffer + XslName(term);
      assert buffer == Qualify(prefix, term);
      if term !in model.dictionary.vals {
        WriteEntry(Entry(indent + 1, buffer, term, None));
        log := log + [MemberUndefined(list, term), EnumAborted(term, list)];
        EntryOnly(encode, Entry(indent + 1, buffer, term, None));
        return true;
      }
      stop := false;
      var e := Entry(indent + 1, buffer, term, Some(model.dictionary.vals[term].definition));
      WriteEntry(e);
      EntryOnly(encode, e);
      if term in model.member.vals {
        ghost var L1 := lines;
        ghost var nested := Enum(model.member, model.dictionary, rank, indent + 1, buffer, term);
        MakeEnum(indent + 1, buffer, term, rank);
        EnumLinesAppend(encode, [e], nested.entries);
        AppendAssoc(old(lines), EntryLines(encode, e), EnumLines(encode, nested.entries));
      } else {
        assert [e] + [] == [e];
      }
    }

    /** One enumeration value: its opening tag and, when the term has a
        definition, the annotation and the closing tag. */
    method WriteEntry(e: Entry)
      modifies this
      ensures lines == old(lines) + EntryLines(encode, e)
      ensures log == old(log) && written == old(written)
    {
      Write(e.indent, "<xsd:enumeration value=\"" + e.value + "\">");
      if e.desc.Some? {
        ghost var L1 := lines;
        AddAnnotation(e.indent + 1, e.desc.value);
        Write(e.indent, "</xsd:enumeration>");
        AppendAssoc(L1, AnnotationLines(e.indent + 1, e.desc.value, encode), [Indented(e.indent, "</xsd:enumeration>")]);
        AppendAssoc(old(lines), [Indented(e.indent, "<xsd:enumeration value=\"" + e.value + "\">")],
                    AnnotationLines(e.indent + 1, e.desc.value, encode) + [Indented(e.indent, "</xsd:enumeration>")]);
      }
    }
  
    /** The banner of one list. */
    method WriteListComment(l: ListDef)
      modifies this
      ensures lines == old(lines) + ListComment(l)
      ensures log == old(log) && written == old(written)
    {
      Write(0, ListRuleTop);
      Write(0, "     List: " + l.name);
      Write(0, "");
      Write(0, "     " + l.definition);
      Write(0, ListRuleBottom);
    }

    /** One list of makeLists: an open list is a string element; any other
        list (Union lists excluded) is a string restriction to the
        enumeration of its members. */
    method WriteList(indent: nat, l: ListDef, ghost rank: map<string, nat>)
      requires Ranked(model.member, rank)
      requires l.listType != "Union"
      modifies this
      ensures lines == old(lines) + ListLines(model, encode, rank, indent, l)
      ensures log == old(log) + ListLog(model, rank, indent, l)
      ensures written == old(written)
    {
      var listName := XslName(l.name);
      WriteListComment(l);
      ghost var L1 := lines;
      ghost var body: seq<string>;
      if l.listType == "Open" {
        body := [Indented(indent, "<xsd:element name=\"" + listName + "\" type=\"xsd:string\">")]
                + AnnotationLines(indent + 1, l.definition, encode)
                + [Indented(indent, "</xsd:element>")];
        WriteOpenList(indent, listName, l.definition);
      } else {
        body := [Indented(indent, "<xsd:simpleType name=\"" + listName + "\">")]
                + AnnotationLines(indent + 1, l.definition, encode)
                + [Indented(indent + 1, "<xsd:restriction base=\"xsd:string\">")]
                + EnumLines(encode, Enum(model.member, model.dictionary, rank, indent + 2, "", l.name).entries)
                + [Indented(indent + 1, "</xsd:restriction>"), Indented(indent, "</xsd:simpleType>")];
        WriteClosedList(indent, listName, l, rank);
      }
      AppendAssoc(old(lines), ListComment(l), body);
    }

    method WriteOpenList(indent: nat, listName: string, desc: string)
      modifies this
      ensures lines == old(lines) + ([Indented(indent, "<xsd:element name=\"" + listName + "\" type=\"xsd:string\">")]
                                     + AnnotationLines(indent + 1, desc, encode)
                                     + [Indented(indent, "</xsd:element>")])
      ensures log == old(log) && written == old(written)
    {
      ghost var head := [Indented(indent, "<xsd:element name=\"" + listName + "\" type=\"xsd:string\">")];
      ghost var ann := AnnotationLines(indent + 1, desc, encode);
      Write(indent, "<xsd:element name=\"" + listName + "\" type=\"xsd:string\">");
      AddAnnotation(indent + 1, desc);
      Write(indent, "</xsd:element>");
      TreeParts(old(lines), head, ann, [Indented(indent, "</xsd:element>")], []);
    }

    method WriteClosedList(indent: nat, listName: string, l: ListDef, ghost rank: map<string, nat>)
      requires Ranked(model.member, rank)
      modifies this
      ensures var en := Enum(model.member, model.dictionary, rank, indent + 2, "", l.name);
              && lines == old(lines) + ([Indented(indent, "<xsd:simpleType name=\"" + listName + "\">")]
                                        + AnnotationLines(indent + 1, l.definition, encode)
                                        + [Indented(indent + 1, "<xsd:restriction base=\"xsd:string\">")]
                                        + EnumLines(encode, en.entries)
                                        + [Indented(indent + 1, "</xsd:restriction>"), Indented(indent, "</xsd:simpleType>")])
              && log == old(log) + en.log
      ensures written == old(written)
    {
      ghost var en := Enum(model.member, model.dictionary, rank, indent + 2, "", l.name);
      ghost var head := [Indented(indent, "<xsd:simpleType name=\"" + listName + "\">")];
      ghost var ann := AnnotationLines(indent + 1, l.definition, encode);
      ghost var restrict := [Indented(indent + 1, "<xsd:restriction base=\"xsd:string\">")];
      ghost var tail := [Indented(indent + 1, "</xsd:restriction>"), Indented(indent, "</xsd:simpleType>")];
      WriteClosedHead(indent, listName, l.definition);
      MakeEnum(indent + 2, "", l.name, rank);
      assert lines == old(lines) + (head + ann + restrict) + EnumLines(encode, en.entries);
      WriteClosedTail(indent);
      assert lines == old(lines) + (head + ann + restrict) + EnumLines(encode, en.entries) + tail;
      AppendAssoc(old(lines), head + ann + restrict, EnumLines(encode, en.entries));
      AppendAssoc(old(lines), head + ann + restrict + EnumLines(encode, en.entries), tail);
    }

    method WriteClosedHead(indent: nat, listName: string, desc: string)
      modifies this
      ensures lines == old(lines) + ([Indented(indent, "<xsd:simpleType name=\"" + listName + "\">")]
                                     + AnnotationLines(indent + 1, desc, encode)
                                     + [Indented(indent + 1, "<xsd:restriction base=\"xsd:string\">")])
      ensures log == old(log) && written == old(written)
    {
      ghost var head := [Indented(indent, "<xsd:simpleType name=\"" + listName + "\">")];
      ghost var ann := AnnotationLines(indent + 1, desc, encode);
      Write(indent, "<xsd:simpleType name=\"" + listName + "\">");
      AddAnnotation(indent + 1, desc);
      Write(indent + 1, "<xsd:restriction base=\"xsd:string\">");
      TreeParts(old(lines), head, ann, [Indented(indent + 1, "<xsd:restriction base=\"xsd:string\">")], []);
    }

    method WriteClosedTail(indent: nat)
      modifies this
      ensures lines == old(lines) + [Indented(indent + 1, "</xsd:restriction>"), Indented(indent, "</xsd:simpleType>")]
      ensures log == old(log) && written == old(written)
    {
      Write(indent + 1, "</xsd:restriction>");
      Write(indent, "</xsd:simpleType>");
    }

    /** The enumeration of the model's version. */
    method WriteVersion(indent: nat)
      modifies this
      ensures lines == old(lines) + VersionLines(model, encode, indent)
      ensures log == old(log) && written == old(written)
    {
      ghost var ann := AnnotationLines(indent + 1, "Version number.", encode);
      WriteVersionHead(indent);
      ghost var L1 := lines;
      AddAnnotation(indent + 1, "Version number.");
      ghost var L2 := lines;
      WriteVersionTail(indent);
      ghost var head := L1[|old(lines)|..];
      ghost var tail := lines[|L2|..];
      assert lines == old(lines) + head + ann + tail;
      AppendAssoc(old(lines), head + ann, tail);
      AppendAssoc(old(lines), head, ann);
    }

    method WriteVersionHead(indent: nat)
      modifies this
      ensures lines == old(lines) + [ Indented(0, ListRuleTop),
                                      Indented(0, "     Version"),
                                      Indented(0, ListRuleBottom),
                                      Indented(indent, "<xsd:simpleType name=\"Version\">") ]
      ensures log == old(log) && written == old(written)
    {
      Write(0, ListRuleTop);
      Write(0, "     Version");
      Write(0, ListRuleBottom);
      Write(indent, "<xsd:simpleType name=\"Version\">");
    }

    method WriteVersionTail(indent: nat)
      modifies this
      ensures lines == old(lines) + [ Indented(indent + 1, "<xsd:restriction base=\"xsd:string\">"),
                                      Indented(indent + 2, "<xsd:enumeration value=\"" + model.header.version + "\" />"),
                                      Indented(indent + 1, "</xsd:restriction>"),
                                      Indented(indent + 1, "</xsd:simpleType>") ]
      ensures log == old(log) && written == old(written)
    {
      Write(indent + 1, "<xsd:restriction base=\"xsd:string\">");
      Write(indent + 2, "<xsd:enumeration value=\"" + model.header.version + "\" />");
      Write(indent + 1, "</xsd:restriction>");
      Write(indent + 1, "</xsd:simpleType>");
    }

    /** makeLists: the Version enumeration in a base schema, then every list
        in list order. */
    method MakeLists(indent: nat, ghost rank: map<string, nat>)
      requires Ranked(model.member, rank)
      requires forall k | k in model.lists.vals :: model.lists.vals[k].listType != "Union"
      modifies this
      ensures lines == old(lines) + ListsLines(model, encode, rank, indent)
      ensures log == old(log) + ListsLog(model, rank, indent, model.lists.keys)
      ensures written == old(written)
    {
      WriteListsHead(indent);
      WriteListsOf(indent, rank);
      AppendAssoc(old(lines), Banner("     Lists") + (if model.header.extend == "" then VersionLines(model, encode, indent) else []),
                  ListsOf(model, encode, rank, indent, model.lists.keys));
    }

    /** The banner of makeLists and, in a base schema, the Version enumeration. */
    method WriteListsHead(indent: nat)
      modifies this
      ensures lines == old(lines) + (Banner("     Lists") + (if model.header.extend == "" then VersionLines(model, encode, indent) else []))
      ensures log == old(log) && written == old(written)
    {
      WriteBanner("     Lists");
      ghost var version: seq<string> := if model.header.extend == "" then VersionLines(model, encode, indent) else [];
      if model.header.extend == "" {
        WriteVersion(indent);
      }
      assert lines == old(lines) + Banner("     Lists") + version;
      AppendAssoc(old(lines), Banner("     Lists"), version);
    }

    /** The loop of makeLists over the lists in order. */
    method WriteListsOf(indent: nat, ghost rank: map<string, nat>)
      requires Ranked(model.member, rank)
      requires forall k | k in model.lists.vals :: model.lists.vals[k].listType != "Union"
      modifies this
      ensures lines == old(lines) + ListsOf(model, encode, rank, indent, model.lists.keys)
      ensures log == old(log) + ListsLog(model, rank, indent, model.lists.keys)
      ensures written == old(written)
    {
      var keys := model.lists.keys;
      var i := 0;
      while i < |keys|
        invariant 0 <= i <= |keys|
        invariant lines == old(lines) + ListsOf(model, encode, rank, indent, keys[..i])
        invariant log == old(log) + ListsLog(model, rank, indent, keys[..i])
        invariant written == old(written)
      {
        var l := model.lists.vals[keys[i]];
        WriteList(indent, l, rank);
        ListsStep(old(lines), model, encode, rank, indent, keys, i);
        ListsLogStep(old(log), model, rank, indent, keys, i);
        i := i + 1;
      }
      assert keys[..i] == keys;
    }
  
    /** The opening of a documented simple type of makeTypes. */
    method WriteTypeDoc(name: string, definition: string)
      modifies this
      ensures lines == old(lines) + TypeDoc(encode, name, definition)
      ensures log == old(log) && written == old(written)
    {
      WriteTypeHead(name);
      AddAnnotation(4, definition);
      WriteDocClose();
      AppendAssoc(old(lines), TypeHead(name), AnnotationLines(4, definition, encode));
      AppendAssoc(old(lines), TypeHead(name) + AnnotationLines(4, definition, encode), DocClose());
    }

    method WriteTypeHead(name: string)
      modifies this
      ensures lines == old(lines) + TypeHead(name)
      ensures log == old(log) && written == old(written)
    {
      Write(1, "<xsd:simpleType name=\"" + name + "\">");
      Write(2, "<xsd:annotation>");
      Write(3, DocumentationOpen);
      Append3(old(lines), Indented(1, "<xsd:simpleType name=\"" + name + "\">"), Indented(2, "<xsd:annotation>"), Indented(3, DocumentationOpen));
    }

    method WriteDocClose()
      modifies this
      ensures lines == old(lines) + DocClose()
      ensures log == old(log) && written == old(written)
    {
      Write(3, "</xsd:documentation>");
      Write(2, "</xsd:annotation>");
      Append2(old(lines), Indented(3, "</xsd:documentation>"), Indented(2, "</xsd:annotation>"));
    }

    /** The Sequence type, introduced in version 1.2.0. */
    method WriteSequenceType()
      modifies this
      ensures lines == old(lines) + SequenceType(model, encode)
      ensures log == old(log) && written == old(written)
    {
      if "Sequence" in model.types.vals {
        WriteTypeDoc("typeSequence", model.types.vals["Sequence"].definition);
        ghost var doc := TypeDoc(encode, "typeSequence", model.types.vals["Sequence"].definition);
        Write(2, "<xsd:list itemType=\"xsd:integer\"/>");
        Write(1, "</xsd:simpleType>");
        AppendAssoc(old(lines), doc, [Indented(2, "<xsd:list itemType=\"xsd:integer\"/>"), Indented(1, "</xsd:simpleType>")]);
      }
    }

    /** The ID type, introduced in version 2.2.3. */
    method WriteIdType()
      modifies this
      ensures lines == old(lines) + IdType(model, encode)
      ensures log == old(log) && written == old(written)
    {
      if "ID" in model.types.vals {
        WriteTypeDoc("typeID", model.types.vals["ID"].definition);
        ghost var doc := TypeDoc(encode, "typeID", model.types.vals["ID"].definition);
        ghost var L1 := lines;
        Write(2, "<xsd:restriction base=\"xsd:string\">");
        Write(3, "<xsd:pattern value=\"[^:]+://[^/]+/.+\"/>");
        Write(2, "</xsd:restriction>");
        Write(1, "</xsd:simpleType>");
        Append4(L1, Indented(2, "<xsd:restriction base=\"xsd:string\">"), Indented(3, "<xsd:pattern value=\"[^:]+://[^/]+/.+\"/>"),
                Indented(2, "</xsd:restriction>"), Indented(1, "</xsd:simpleType>"));
        AppendAssoc(old(lines), doc, [ Indented(2, "<xsd:restriction base=\"xsd:string\">"), Indented(3, "<xsd:pattern value=\"[^:]+://[^/]+/.+\"/>"),
                                       Indented(2, "</xsd:restriction>"), Indented(1, "</xsd:simpleType>") ]);
      }
    }

    /** makeTypes: the non-standard data types present in the model. */
    method MakeTypes()
      modifies this
      ensures lines == old(lines) + TypesLines(model, encode)
      ensures log == old(log) && written == old(written)
    {
      ghost var banner := Banner("      Types");
      ghost var blank := [Indented(0, "")];
      ghost var sequence := SequenceType(model, encode);
      ghost var id := IdType(model, encode);
      WriteBanner("      Types");
      Write(0, "");
      ghost var L1 := lines;
      assert L1 == old(lines) + banner + blank;
      WriteSequenceType();
      Write(0, "");
      ghost var L3 := lines;
      assert L3 == L1 + sequence + blank;
      WriteIdType();
      assert lines == L3 + id;
      assert TypesLines(model, encode) == banner + blank + sequence + blank + id;
      TreeParts(old(lines), banner + blank, sequence, blank, id);
      AppendAssoc(old(lines), banner, blank);
      AppendAssoc(L1, sequence, blank);
    }

    method WritePreamble()
      modifies this
      ensures lines == old(lines) + Preamble(model, today)
      ensures log == old(log) && written == old(written)
    {
      Write(0, XmlDeclaration);
      Write(0, CreatedNote);
      ghost var L1 := lines;
      if model.header.extend != "" {
        Write(0, "<!-- Extends the schema contained in \"" + model.header.extend + "\" -->");
      }
      ghost var L2 := lines;
      Write(0, "<!-- Version: " + model.header.version + " -->");
      Write(0, "<!-- Generated: " + today + " -->");
      assert lines == L2 + [ Indented(0, "<!-- Version: " + model.header.version + " -->"),
                             Indented(0, "<!-- Generated: " + today + " -->") ];
    }

    method WriteSchemaTag()
      modifies this
      ensures lines == old(lines) + SchemaTag(model)
      ensures log == old(log) && written == old(written)
    {
      WriteNamespaces();
      WriteSchemaOptions();
    }

    method WriteNamespaces()
      modifies this
      ensures lines == old(lines) + SchemaNamespaces(model)
      ensures log == old(log) && written == old(written)
    {
      Write(0, "<xsd:schema");
      Write(0, "\t      targetNamespace=\"" + model.header.schemaurl + "\"");
      Write(0, XsdNamespace);
      Write(0, XsiNamespace);
      Write(0, VcNamespace);
      Write(0, "\t      xmlns:" + model.header.namespace + "=\"" + model.header.schemaurl + "\"");
    }

    method WriteSchemaOptions()
      modifies this
      ensures lines == old(lines) + SchemaOptions(model)
      ensures log == old(log) && written == old(written)
    {
      Write(0, ElementForm);
      Write(0, AttributeForm);
      Write(0, MinVersion);
      Write(0, "\t      version=\"" + model.header.version + "\"");
      Write(0, ">");
      Write(0, "");
    }

    /** The document root element of a base schema. */
    method WriteRoot()
      modifies this
      ensures lines == old(lines) + RootLines(model)
      ensures log == old(log) && written == old(written)
    {
      if model.header.extend == "" {
        Write(1, "<!-- Document root element -->");
        Write(1, "<xsd:element name=\"Spase\" type=\"spase:Spase\" />");
        Write(0, "");
      }
    }

    /** makeXSD: the whole schema document for the model, from the root
        container "Spase" and without the lang attribute. */
    method MakeXSD(ghost rank: map<string, nat>)
      requires written == {}
      requires "Spase" in model.ontology.vals
      requires ElementsDefined(model, Visit(model.ontology, "Spase", {}))
      requires Ranked(model.member, rank)
      requires forall k | k in model.lists.vals :: model.lists.vals[k].listType != "Union"
      modifies this
      ensures lines == old(lines) + SchemaLines(model, encode, today, rank)
      ensures log == old(log) + SchemaLog(model, rank)
      ensures written == {}
    {
      ghost var front := HeadLines(model, today) + RootLines(model);
      ghost var tree := TreeLines(model, encode, false, "Spase");
      ghost var rest := Sections(model, encode, rank);
      WriteFront();
      MakeTree("Spase", false);
      assert lines == old(lines) + front + tree;
      ghost var G1 := log;
      WriteSections(rank);
      assert lines == old(lines) + front + tree + rest;
      assert SchemaLines(model, encode, today, rank) == front + tree + rest;
      AppendAssoc(old(lines), front + tree, rest);
      AppendAssoc(old(lines), front, tree);
      AppendAssoc(old(log), TreeLog(model, "Spase"), ListsLog(model, rank, 1, model.lists.keys));
    }

    /** The document head and, in a base schema, the root element. */
    method WriteFront()
      modifies this
      ensures lines == old(lines) + (HeadLines(model, today) + RootLines(model))
      ensures log == old(log) && written == old(written)
    {
      WritePreamble();
      WriteSchemaTag();
      AppendAssoc(old(lines), Preamble(model, today), SchemaTag(model));
      WriteRoot();
      AppendAssoc(old(lines), HeadLines(model, today), RootLines(model));
    }

    /** The groups, dictionary, lists and (in a base schema) types, then the
        end of the schema. */
    method WriteSections(ghost rank: map<string, nat>)
      requires Ranked(model.member, rank)
      requires forall k | k in model.lists.vals :: model.lists.vals[k].listType != "Union"
      modifies this
      ensures lines == old(lines) + Sections(model, encode, rank)
      ensures log == old(log) + ListsLog(model, rank, 1, model.lists.keys)
      ensures written == old(written)
    {
      ghost var groups := GroupLines(model);
      ghost var dict := DictionaryLines(model, encode);
      ghost var lists := ListsLines(model, encode, rank, 1);
      ghost var types: seq<string> := if model.header.extend == "" then TypesLines(model, encode) else [];
      MakeGroup();
      MakeDictionary();
      ghost var L2 := lines;
      assert L2 == old(lines) + groups + dict;
      MakeLists(1, rank);
      ghost var L3 := lines;
      assert L3 == L2 + lists;
      if model.header.extend == "" {
        MakeTypes();
      }
      assert lines == L3 + types;
      Write(0, "</xsd:schema>");
      TreeParts(old(lines), groups + dict, lists, types, [Indented(0, "</xsd:schema>")]);
      AppendAssoc(old(lines), groups, dict);
    }
}
}
