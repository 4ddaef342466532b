/**
 * The lines of the schema document, section by section, as functions of the
 * model. The emitter class writes exactly these lines; the lemmas here and in
 * the Choices, Traversal and Enumerations modules say what they contain.
 */
module SchemaSpec {

  import opened Sequences
  import opened JsObject
  import opened InfoModel
  import opened XsdNames
  import opened Choices
  import opened Traversal
  import opened Enumerations

  /** Three spaces per indent level. */
  function Pad(n: nat): string
    decreases n
  {
    if n == 0 then "" else Pad(n - 1) + "   "
  }

  lemma {:induction false} PadShape(n: nat)
    ensures |Pad(n)| == 3 * n
    ensures forall i | 0 <= i < |Pad(n)| :: Pad(n)[i] == ' '
    decreases n
  {
    if n > 0 {
      PadShape(n - 1);
      var p := Pad(n - 1);
      forall i | 0 <= i < |Pad(n)| ensures Pad(n)[i] == ' ' {
        if i < |p| { assert Pad(n)[i] == p[i]; }
      }
    }
  }

  /** A written line: the indentation, then the text. */
  function Indented(n: nat, s: string): string {
    Pad(n) + s
  }

  /** A written line is its text behind 3 * n spaces. */
  lemma IndentedShape(n: nat, s: string)
    ensures |Indented(n, s)| == 3 * n + |s|
    ensures Indented(n, s)[3 * n..] == s
    ensures forall i | 0 <= i < 3 * n :: Indented(n, s)[i] == ' '
  {
    PadShape(n);
    forall i | 0 <= i < 3 * n ensures Indented(n, s)[i] == ' ' {
      assert Indented(n, s)[i] == Pad(n)[i];
    }
  }

  /** addAnnotation: the definition, encoded by `encode`, inside an
      annotation and documentation element. */
  function AnnotationLines(indent: nat, desc: string, encode: string -> string): seq<string> {
    [ Indented(indent, "<xsd:annotation>"),
      Indented(indent + 1, DocumentationOpen),
      Indented(indent + 1, encode(desc)),
      Indented(indent + 1, "</xsd:documentation>"),
      Indented(indent, "</xsd:annotation>") ]
  }

  const LangAttribute := "<xsd:attribute name=\"lang\" type=\"xsd:string\" default=\"en\"/>"

  function LangLines(addLang: bool): seq<string> {
    if addLang then [Indented(3, LangAttribute)] else []
  }

  /** The opening tag of an English documentation element. */
  const DocumentationOpen := "<xsd:documentation xml:lang=\"en\">"

  /** The rules above and below a section title, and above and below a
      list's or the version's comment. */
  const BannerTop := "<!-- ================================"
  const BannerBottom := "     ================================ -->"
  const ListRuleTop := "<!-- =========================="
  const ListRuleBottom := "     ========================== -->"

  function Banner(title: string): seq<string> {
    [ Indented(0, BannerTop),
      Indented(0, title),
      Indented(0, BannerBottom) ]
  }

  // ---------------------------------------------------------------------
  // Elements of a complexType and of a group

  /** The ontology rows of container `t`, in child-key order. */
  function ChildDefs(o: Ontology, t: string): seq<OntologyDef> {
    if t in o.vals then Values(o.vals[t]) else []
  }

  /** The type of a child element: the element itself, or its list when the
      dictionary calls it an enumeration. */
  function TypeName(dict: JsObj<Term>, element: string): string {
    if element in dict.vals && dict.vals[element].termType == "Enumeration" then dict.vals[element].list
    else element
  }

  function ElementLine(m: Model, c: OntologyDef, occur: string): string {
    "<xsd:element name=\"" + XslName(c.element) + "\""
      + " type=\"" + m.header.namespace + ":" + XslName(TypeName(m.dictionary, c.element)) + "\""
      + occur + " />"
  }

  datatype Style = InChoice | InGroup

  function EventLines(m: Model, style: Style, e: Event): seq<string> {
    match style
    case InChoice =>
      (match e
       case Open(c) => [Indented(3, "<xsd:choice " + XslOccurrence(c.occurrence) + ">")]
       case Close => [Indented(3, "</xsd:choice>")]
       case Item(c, inRun) =>
         if inRun then [Indented(4, ElementLine(m, c, ""))]
         else [Indented(3, ElementLine(m, c, " " + XslOccurrence(c.occurrence)))])
    case InGroup =>
      (match e
       case Open(c) => [Indented(1, "<xsd:group name=\"" + c.group + "\">"), Indented(2, "<xsd:sequence>")]
       case Close => [Indented(2, "</xsd:sequence>"), Indented(1, "</xsd:group>")]
       case Item(c, _) =>
         [Indented(3, "<xsd:element name=\"" + XslName(c.element) + "\""
                      + " type=\"" + m.header.namespace + ":" + XslName(c.element) + "\""
                      + " " + XslOccurrence(c.occurrence) + " />")])
  }

  function Render(m: Model, style: Style, evs: seq<Event>): seq<string>
    decreases |evs|
  {
    if evs == [] then [] else Render(m, style, evs[..|evs| - 1]) + EventLines(m, style, evs[|evs| - 1])
  }

  lemma {:induction false} RenderAppend(m: Model, style: Style, a: seq<Event>, b: seq<Event>)
    ensures Render(m, style, a + b) == Render(m, style, a) + Render(m, style, b)
    decreases |b|
  {
    if b != [] {
      assert (a + b)[..|a + b| - 1] == a + b[..|b| - 1];
      RenderAppend(m, style, a, b[..|b| - 1]);
    } else {
      assert a + b == a;
    }
  }

  /** The lines of one cursor step, event by event. */
  lemma StepLines(m: Model, prev: string, x: OntologyDef)
    ensures Render(m, InChoice, Step(prev, x)) ==
      (if prev != "" && x.group != prev then [Indented(3, "</xsd:choice>")] else [])
      + (if x.group != "" && x.group != prev then [Indented(3, "<xsd:choice " + XslOccurrence(x.occurrence) + ">")] else [])
      + EventLines(m, InChoice, Item(x, x.group != ""))
  {
    var a: seq<Event> := if prev != "" && x.group != prev then [Close] else [];
    var b: seq<Event> := if x.group != "" && x.group != prev then [Open(x)] else [];
    var c: seq<Event> := [Item(x, x.group != "")];
    RenderAppend(m, InChoice, a + b, c);
    RenderAppend(m, InChoice, a, b);
    assert Render(m, InChoice, [Close]) == EventLines(m, InChoice, Close);
    assert Render(m, InChoice, [Open(x)]) == EventLines(m, InChoice, Open(x));
    assert Render(m, InChoice, c) == EventLines(m, InChoice, c[0]);
  }

  /** The lines written so far grow by one step per child. */
  lemma CursorStep(m: Model, style: Style, cs: seq<OntologyDef>, i: nat)
    requires i < |cs|
    ensures LastGroup(cs[..i + 1]) == cs[i].group
    ensures Render(m, style, OpenEvents(cs[..i + 1]))
            == Render(m, style, OpenEvents(cs[..i])) + Render(m, style, Step(LastGroup(cs[..i]), cs[i]))
  {
    assert cs[..i + 1] == cs[..i] + [cs[i]];
    OpenStep(cs[..i], cs[i]);
    RenderAppend(m, style, OpenEvents(cs[..i]), Step(LastGroup(cs[..i]), cs[i]));
  }

  /** After the last child, closing a still open block gives the reference. */
  lemma CursorEnd(m: Model, style: Style, cs: seq<OntologyDef>)
    ensures Render(m, style, ChoiceEvents(cs))
            == Render(m, style, OpenEvents(cs)) + (if LastGroup(cs) != "" then EventLines(m, style, Close) else [])
  {
    var close: seq<Event> := if LastGroup(cs) != "" then [Close] else [];
    OpenClose(cs);
    RenderAppend(m, style, OpenEvents(cs), close);
    assert Render(m, style, close) == if LastGroup(cs) != "" then EventLines(m, style, Close) else [];
  }

  // ---------------------------------------------------------------------
  // makeBranch, makeExtension, makeTree

  /** The complexType of container `t`. When `t` is not a dictionary term
      the annotation and the `<xsd:sequence>` line are not written (reading
      its definition throws) but the rest of the type is. */
  function BranchBlock(m: Model, encode: string -> string, addLang: bool, t: string): seq<string> {
    [Indented(1, "<xsd:complexType name=\"" + XslName(t) + "\">")]
    + (if t in m.dictionary.vals
       then AnnotationLines(2, m.dictionary.vals[t].definition, encode) + [Indented(2, "<xsd:sequence>")]
       else [])
    + Render(m, InChoice, ChoiceEvents(ChildDefs(m.ontology, t)))
    + [Indented(2, "</xsd:sequence>")]
    + LangLines(addLang)
    + [Indented(1, "</xsd:complexType>")]
  }

  /** Six pieces written one after another form their concatenation. */
  lemma BlockParts(l: seq<string>, a: seq<string>, b: seq<string>, c: seq<string>,
                   d: seq<string>, e: seq<string>, f: seq<string>)
    ensures l + a + b + c + d + e + f == l + (a + b + c + d + e + f)
  {
  }

  function BranchLog(m: Model, t: string): seq<Diagnostic> {
    if t in m.dictionary.vals then [] else [TermFailed(t)]
  }

  function Blocks(m: Model, encode: string -> string, addLang: bool, ts: seq<string>): seq<string>
    decreases |ts|
  {
    if ts == [] then [] else Blocks(m, encode, addLang, ts[..|ts| - 1]) + BranchBlock(m, encode, addLang, ts[|ts| - 1])
  }

  function BlocksLog(m: Model, ts: seq<string>): seq<Diagnostic>
    decreases |ts|
  {
    if ts == [] then [] else BlocksLog(m, ts[..|ts| - 1]) + BranchLog(m, ts[|ts| - 1])
  }

  lemma {:induction false} BlocksAppend(m: Model, encode: string -> string, addLang: bool, a: seq<string>, b: seq<string>)
    ensures Blocks(m, encode, addLang, a + b) == Blocks(m, encode, addLang, a) + Blocks(m, encode, addLang, b)
    ensures BlocksLog(m, a + b) == BlocksLog(m, a) + BlocksLog(m, b)
    decreases |b|
  {
    if b != [] {
      assert (a + b)[..|a + b| - 1] == a + b[..|b| - 1];
      BlocksAppend(m, encode, addLang, a, b[..|b| - 1]);
    } else {
      assert a + b == a;
    }
  }

  /** An unmarked container is marked and written before the walk of its
      keys: together they make its whole walk. */
  lemma BranchStep(m: Model, encode: string -> string, addLang: bool, t: string, w: set<string>,
                   l: seq<string>, g: seq<Diagnostic>, w2: set<string>, l2: seq<string>, g2: seq<Diagnostic>)
    requires t in m.ontology.vals && t !in w
    requires w2 == w + {t} + Elems(VisitAll(m.ontology, m.ontology.vals[t].keys, w + {t}))
    requires l2 == l + BranchBlock(m, encode, addLang, t)
                   + Blocks(m, encode, addLang, VisitAll(m.ontology, m.ontology.vals[t].keys, w + {t}))
    requires g2 == g + BranchLog(m, t) + BlocksLog(m, VisitAll(m.ontology, m.ontology.vals[t].keys, w + {t}))
    ensures w2 == w + Elems(Visit(m.ontology, t, w))
    ensures l2 == l + Blocks(m, encode, addLang, Visit(m.ontology, t, w))
    ensures g2 == g + BlocksLog(m, Visit(m.ontology, t, w))
  {
    var rest := VisitAll(m.ontology, m.ontology.vals[t].keys, w + {t});
    VisitStart(m.ontology, t, w);
    BlocksAppend(m, encode, addLang, [t], rest);
    assert Blocks(m, encode, addLang, [t]) == BranchBlock(m, encode, addLang, t);
    assert BlocksLog(m, [t]) == BranchLog(m, t);
    AppendAssoc(l, BranchBlock(m, encode, addLang, t), Blocks(m, encode, addLang, rest));
    AppendAssoc(g, BranchLog(m, t), BlocksLog(m, rest));
    ElemsAppend([t], rest);
    assert Elems([t]) == {t};
  }

  /** One turn of the recursion loop: the marks, lines and messages the walk
      of key `i` adds extend those of the keys before it to the walk of the
      first i + 1 keys. */
  lemma WalkStep(m: Model, encode: string -> string, addLang: bool, ks: seq<string>, w: set<string>,
                 l: seq<string>, g: seq<Diagnostic>, i: nat, walked: seq<string>, v: seq<string>,
                 w2: set<string>, l2: seq<string>, g2: seq<Diagnostic>)
    requires i < |ks| && walked == VisitAll(m.ontology, ks[..i], w)
    requires v == Visit(m.ontology, ks[i], w + Elems(walked))
    requires w2 == w + Elems(walked) + Elems(v)
    requires l2 == l + Blocks(m, encode, addLang, walked) + Blocks(m, encode, addLang, v)
    requires g2 == g + BlocksLog(m, walked) + BlocksLog(m, v)
    ensures walked + v == VisitAll(m.ontology, ks[..i + 1], w)
    ensures w2 == w + Elems(walked + v)
    ensures l2 == l + Blocks(m, encode, addLang, walked + v)
    ensures g2 == g + BlocksLog(m, walked + v)
  {
    VisitAllStep(m.ontology, ks, w, i, walked, w + Elems(walked));
    BlocksAppend(m, encode, addLang, walked, v);
    AppendAssoc(l, Blocks(m, encode, addLang, walked), Blocks(m, encode, addLang, v));
    AppendAssoc(g, BlocksLog(m, walked), BlocksLog(m, v));
    ElemsUnion(w, walked, v);
  }

  /** Every child element of the containers in `ts` is a dictionary term
      (makeBranch reads the element's dictionary entry outside any handler). */
  ghost predicate ElementsDefined(m: Model, ts: seq<string>) {
    forall x, c | x in ts && c in ChildDefs(m.ontology, x) :: c.element in m.dictionary.vals
  }

  /** A set of containers closed under child keys whose child elements are
      all dictionary terms: the containers the walk may reach. */
  ghost predicate Reach(m: Model, reach: set<string>) {
    forall x {:trigger Reaches(m, reach, x)} | x in reach :: Reaches(m, reach, x)
  }

  ghost predicate Reaches(m: Model, reach: set<string>, x: string) {
    && (forall c | c in ChildDefs(m.ontology, x) :: c.element in m.dictionary.vals)
    && (forall k | k in ChildKeys(m.ontology, x) && k in m.ontology.vals :: k in reach)
  }

  /** A container of a reach set names only defined elements. */
  lemma ReachDefined(m: Model, reach: set<string>, x: string)
    requires Reach(m, reach) && x in reach
    ensures forall c | c in ChildDefs(m.ontology, x) :: c.element in m.dictionary.vals
  {
    assert Reaches(m, reach, x);
  }

  /** A reach set contains the containers its members name. */
  lemma ReachChild(m: Model, reach: set<string>, x: string, k: string)
    requires Reach(m, reach) && x in reach
    requires k in ChildKeys(m.ontology, x) && k in m.ontology.vals
    ensures k in reach
  {
    assert Reaches(m, reach, x);
  }

  /** The containers reachable from the root form such a set when their
      child elements are defined. */
  lemma ReachFromRoot(m: Model, root: string)
    requires root in m.ontology.vals
    requires ElementsDefined(m, Visit(m.ontology, root, {}))
    ensures Reach(m, Elems(Visit(m.ontology, root, {})))
    ensures root in Elems(Visit(m.ontology, root, {}))
  {
    var ts := Visit(m.ontology, root, {});
    VisitClosed(m.ontology, root, {});
    forall x | x in Elems(ts) ensures Reaches(m, Elems(ts), x) {
      forall k | k in ChildKeys(m.ontology, x) && k in m.ontology.vals ensures k in Elems(ts) {
        assert k in ts;
      }
    }
  }

  lemma ElementsWithin(m: Model, a: seq<string>, b: seq<string>)
    requires forall x | x in a :: x in b
    requires ElementsDefined(m, b)
    ensures ElementsDefined(m, a)
  {
  }

  /** The Extension type; its XML name is the term itself (XsdNames.CleanName). */
  function ExtensionLines(m: Model, encode: string -> string, addLang: bool): seq<string> {
    [Indented(0, ""), Indented(1, "<xsd:complexType name=\"" + "Extension" + "\">")]
    + (if "Extension" in m.dictionary.vals then ExtensionBody(m.dictionary.vals["Extension"], encode, addLang) else [])
  }

  const AnyElement := "<xsd:any minOccurs=\"0\" maxOccurs=\"unbounded\" processContents=\"lax\" namespace=\"##other\" />"

  /** The rest of the Extension type: any element from another namespace. */
  function ExtensionBody(rec: Term, encode: string -> string, addLang: bool): seq<string> {
    AnnotationLines(2, rec.definition, encode)
    + [ Indented(2, "<xsd:sequence>"),
        Indented(3, AnyElement),
        Indented(2, "</xsd:sequence>") ]
    + LangLines(addLang)
    + [Indented(1, "</xsd:complexType>")]
  }

  /** A model without an Extension term reports it, unless it is version
      1.1.0, which predates the term. */
  function ExtensionLog(m: Model): seq<Diagnostic> {
    if "Extension" in m.dictionary.vals || m.header.version == "1.1.0" then [] else [ExtensionFailed]
  }

  const OverrideNote := "<!-- \"override\" does an implicit \"include\" of the referenced schema, then redfines the element -->"

  /** An extension schema wraps its types in an override of the base schema. */
  function OverrideOpen(m: Model): seq<string> {
    if m.header.extend != ""
    then [Indented(1, OverrideNote), Indented(1, "<xsd:override schemaLocation=\"" + m.header.extend + "\">")]
    else []
  }

  function OverrideClose(m: Model): seq<string> {
    if m.header.extend != "" then [Indented(1, "</xsd:override>"), Indented(0, "")] else []
  }

  function TreeLines(m: Model, encode: string -> string, addLang: bool, root: string): seq<string> {
    OverrideOpen(m)
    + Blocks(m, encode, addLang, Visit(m.ontology, root, {}))
    + ExtensionLines(m, encode, addLang)
    + OverrideClose(m)
  }

  /** Four pieces written one after another form their concatenation. */
  lemma TreeParts(l: seq<string>, a: seq<string>, b: seq<string>, c: seq<string>, d: seq<string>)
    ensures l + a + b + c + d == l + (a + b + c + d)
  {
  }

  function TreeLog(m: Model, root: string): seq<Diagnostic> {
    BlocksLog(m, Visit(m.ontology, root, {})) + ExtensionLog(m)
  }

  /** The tree writes one complexType per container reachable from the root
      through child keys, the root's first, each once. */
  lemma TreeBlocks(m: Model, root: string)
    requires root in m.ontology.vals
    ensures var ts := Visit(m.ontology, root, {});
            && ts[0] == root
            && Distinct(ts)
            && (forall x | x in ts :: x in m.ontology.vals)
            && (forall x, k | x in ts && k in ChildKeys(m.ontology, x) && k in m.ontology.vals :: k in ts)
  {
    VisitRootFirst(m.ontology, root);
    VisitOnce(m.ontology, root, {});
    VisitClosed(m.ontology, root, {});
  }

  /** Within each complexType, the choices are well formed and balanced and
      every child element is written once, in child-key order. */
  lemma BranchChoices(m: Model, t: string)
    ensures var evs := ChoiceEvents(ChildDefs(m.ontology, t));
            && Scan(evs, None, "")
            && Opens(evs) == Closes(evs)
            && Choices.Children(evs) == ChildDefs(m.ontology, t)
  {
    ChoicesWellFormed(ChildDefs(m.ontology, t));
    ChoicesBalanced(ChildDefs(m.ontology, t));
    ChoicesKeepChildren(ChildDefs(m.ontology, t));
  }

  // ---------------------------------------------------------------------
  // makeGroup

  predicate IsGrouped(c: OntologyDef) {
    c.group != ""
  }

  /** The grouped children of the containers `ks`, container by container. */
  function AllGrouped(o: Ontology, ks: seq<string>): seq<OntologyDef>
    decreases |ks|
  {
    if ks == [] then [] else AllGrouped(o, ks[..|ks| - 1]) + Filter(ChildDefs(o, ks[|ks| - 1]), IsGrouped)
  }

  function GroupLines(m: Model): seq<string> {
    Banner("      Groups") + Render(m, InGroup, ChoiceEvents(AllGrouped(m.ontology, m.ontology.keys)))
  }

  /** One container more: its grouped children follow those before it. */
  lemma AllGroupedStep(o: Ontology, ks: seq<string>, i: nat)
    requires i < |ks|
    ensures AllGrouped(o, ks[..i + 1]) == AllGrouped(o, ks[..i]) + Filter(ChildDefs(o, ks[i]), IsGrouped)
  {
    assert ks[..i + 1][..i] == ks[..i];
  }

  /** One child more in the group loop: an ungrouped child is skipped, a
      grouped one takes one cursor step. */
  lemma GroupItemStep(m: Model, done: seq<OntologyDef>, cs: seq<OntologyDef>, j: nat)
    requires j < |cs|
    ensures var acc := done + Filter(cs[..j], IsGrouped);
            var next := done + Filter(cs[..j + 1], IsGrouped);
            && (cs[j].group == "" ==> next == acc)
            && (cs[j].group != "" ==>
                  && next == acc + [cs[j]]
                  && LastGroup(next) == cs[j].group
                  && Render(m, InGroup, OpenEvents(next))
                     == Render(m, InGroup, OpenEvents(acc)) + Render(m, InGroup, Step(LastGroup(acc), cs[j])))
  {
    var acc := done + Filter(cs[..j], IsGrouped);
    assert cs[..j + 1] == cs[..j] + [cs[j]];
    FilterAppend(cs[..j], [cs[j]], IsGrouped);
    assert Filter([cs[j]], IsGrouped) == (if cs[j].group != "" then [cs[j]] else []) by {
      assert [cs[j]][..0] == [];
    }
    AppendAssoc(done, Filter(cs[..j], IsGrouped), Filter([cs[j]], IsGrouped));
    if cs[j].group != "" {
      OpenStep(acc, cs[j]);
      RenderAppend(m, InGroup, OpenEvents(acc), Step(LastGroup(acc), cs[j]));
    }
  }

  /** The lines of one step of the group loop, for a grouped child. */
  lemma GroupStepLines(m: Model, prev: string, x: OntologyDef)
    requires x.group != ""
    ensures Render(m, InGroup, Step(prev, x)) ==
      (if prev != "" && x.group != prev then EventLines(m, InGroup, Close) else [])
      + (if x.group != prev then EventLines(m, InGroup, Open(x)) else [])
      + EventLines(m, InGroup, Item(x, true))
  {
    var a: seq<Event> := if prev != "" && x.group != prev then [Close] else [];
    var b: seq<Event> := if x.group != prev then [Open(x)] else [];
    var c: seq<Event> := [Item(x, true)];
    RenderAppend(m, InGroup, a + b, c);
    RenderAppend(m, InGroup, a, b);
    assert Render(m, InGroup, [Close]) == EventLines(m, InGroup, Close);
    assert Render(m, InGroup, [Open(x)]) == EventLines(m, InGroup, Open(x));
    assert Render(m, InGroup, c) == EventLines(m, InGroup, c[0]);
  }

  lemma {:induction false} AllGroupedMembers(o: Ontology, ks: seq<string>, c: OntologyDef)
    ensures c in AllGrouped(o, ks) <==> c.group != "" && exists i | 0 <= i < |ks| :: c in ChildDefs(o, ks[i])
    decreases |ks|
  {
    if ks != [] {
      var init := ks[..|ks| - 1];
      AllGroupedMembers(o, init, c);
      FilterMembers(ChildDefs(o, ks[|ks| - 1]), IsGrouped, c);
      if exists i | 0 <= i < |ks| :: c in ChildDefs(o, ks[i]) {
        var i :| 0 <= i < |ks| && c in ChildDefs(o, ks[i]);
        if i < |init| { assert c in ChildDefs(o, init[i]); }
      }
      if exists i | 0 <= i < |init| :: c in ChildDefs(o, init[i]) {
        var i :| 0 <= i < |init| && c in ChildDefs(o, init[i]);
        assert c in ChildDefs(o, ks[i]);
      }
    }
  }

  /** The group definitions: every grouped child of every container appears
      in one of them (and no ungrouped child does), in container and child
      order, and every group opened is closed. */
  lemma GroupsWellFormed(m: Model)
    ensures var items := AllGrouped(m.ontology, m.ontology.keys);
            var evs := ChoiceEvents(items);
            && Choices.Children(evs) == items
            && Opens(evs) == Closes(evs)
            && (forall c :: c in items <==>
                  c.group != "" && exists i | 0 <= i < |m.ontology.keys| :: c in ChildDefs(m.ontology, m.ontology.keys[i]))
  {
    var items := AllGrouped(m.ontology, m.ontology.keys);
    ChoicesKeepChildren(items);
    ChoicesBalanced(items);
    forall c ensures c in items <==>
                  c.group != "" && exists i | 0 <= i < |m.ontology.keys| :: c in ChildDefs(m.ontology, m.ontology.keys[i])
    {
      AllGroupedMembers(m.ontology, m.ontology.keys, c);
    }
  }

  // ---------------------------------------------------------------------
  // makeDictionary

  /** Dictionary types that get no definition of their own here. */
  predicate Silent(rec: Term) {
    || rec.term == "Version" || rec.term == "Extension"
    || rec.termType == "Item" || rec.termType == "Enumeration" || rec.termType == "Container"
    || "+" <= rec.termType
  }

  /** A complexType named after `term` whose `content` (complexContent or
      simpleContent) restricts `base`. */
  function ContentTypeLines(term: string, desc: string, encode: string -> string, content: string, base: string): seq<string> {
    [Indented(1, "<xsd:complexType name=\"" + XslName(term) + "\">")]
    + AnnotationLines(2, desc, encode)
    + [ Indented(2, "<xsd:" + content + ">"), Indented(3, base),
        Indented(1, "</xsd:" + content + ">"), Indented(1, "</xsd:complexType>") ]
  }

  /** A simpleType named after `term` that restricts `base`. */
  function SimpleTypeLines(term: string, desc: string, encode: string -> string, base: string): seq<string> {
    [Indented(1, "<xsd:simpleType name=\"" + XslName(term) + "\">")]
    + AnnotationLines(2, desc, encode)
    + [Indented(2, base), Indented(1, "</xsd:simpleType>")]
  }

  function DictEntryLines(m: Model, encode: string -> string, rec: Term): seq<string> {
    var base := "<xsd:restriction base=\"" + XslType(rec.termType, m.header.namespace, rec.term) + "\"" + " />";
    if rec.term == "Version" || rec.term == "Extension" then []
    else if rec.termType == "Item" || rec.termType == "Enumeration" || rec.termType == "Container" then []
    else if rec.termType == "Boundary" then ContentTypeLines(rec.term, rec.definition, encode, "complexContent", base)
    else if rec.termType == "Value" then ContentTypeLines(rec.term, rec.definition, encode, "simpleContent", base)
    else if "+" <= rec.termType then []
    else SimpleTypeLines(rec.term, rec.definition, encode, base)
  }

  /** A dictionary entry writes nothing exactly when it is silent; otherwise
      Boundary and Value entries open a complexType, every other entry a
      simpleType, named after the term. */
  lemma DictEntryKinds(m: Model, encode: string -> string, rec: Term)
    ensures DictEntryLines(m, encode, rec) == [] <==> Silent(rec)
    ensures !Silent(rec) ==>
      DictEntryLines(m, encode, rec)[0] ==
        if rec.termType == "Boundary" || rec.termType == "Value"
        then Indented(1, "<xsd:complexType name=\"" + XslName(rec.term) + "\">")
        else Indented(1, "<xsd:simpleType name=\"" + XslName(rec.term) + "\">")
  {
    if rec.termType == "Boundary" || rec.termType == "Value" {
      assert rec.termType[0] != '+';
    }
  }

  function DictEntries(m: Model, encode: string -> string, ks: seq<string>): seq<string>
    decreases |ks|
  {
    if ks == [] then []
    else
      var k := ks[|ks| - 1];
      DictEntries(m, encode, ks[..|ks| - 1])
      + (if k in m.dictionary.vals then DictEntryLines(m, encode, m.dictionary.vals[k]) else [])
  }

  function DictionaryLines(m: Model, encode: string -> string): seq<string> {
    Banner("      Dictionary Terms") + DictEntries(m, encode, m.dictionary.keys)
  }

  // ---------------------------------------------------------------------
  // makeLists and makeEnum

  function EntryLines(encode: string -> string, e: Entry): seq<string> {
    [Indented(e.indent, "<xsd:enumeration value=\"" + e.value + "\">")]
    + (if e.desc.Some?
       then AnnotationLines(e.indent + 1, e.desc.value, encode) + [Indented(e.indent, "</xsd:enumeration>")]
       else [])
  }

  function EnumLines(encode: string -> string, es: seq<Entry>): seq<string>
    decreases |es|
  {
    if es == [] then [] else EnumLines(encode, es[..|es| - 1]) + EntryLines(encode, es[|es| - 1])
  }

  lemma {:induction false} EnumLinesAppend(encode: string -> string, a: seq<Entry>, b: seq<Entry>)
    ensures EnumLines(encode, a + b) == EnumLines(encode, a) + EnumLines(encode, b)
    decreases |b|
  {
    if b != [] {
      assert (a + b)[..|a + b| - 1] == a + b[..|b| - 1];
      EnumLinesAppend(encode, a, b[..|b| - 1]);
    } else {
      assert a + b == a;
    }
  }

  lemma EntryOnly(encode: string -> string, e: Entry)
    ensures EnumLines(encode, [e]) == EntryLines(encode, e)
  {
    assert [e][..0] == [];
  }

  /** One turn of makeEnum's loop, while no earlier member was missing. */
  lemma EnumStep(member: MemberSets, dict: JsObj<Term>, rank: map<string, nat>,
                 indent: nat, prefix: string, list: string, ks: seq<string>, i: nat)
    requires Ranked(member, rank)
    requires list in member.vals && i < |ks| && !Halted(dict, ks[..i])
    ensures Entries(member, dict, rank, indent, prefix, list, ks[..i + 1])
            == Concat(Entries(member, dict, rank, indent, prefix, list, ks[..i]),
                      Member(member, dict, rank, indent, prefix, list, ks[i]))
    ensures Halted(dict, ks[..i + 1]) <==> ks[i] !in dict.vals
  {
    var next := ks[..i + 1];
    assert next[..|next| - 1] == ks[..i] && next[|next| - 1] == ks[i];
    EntriesSnoc(member, dict, rank, indent, prefix, list, next);
    HaltedSnoc(dict, ks, i);
  }

  lemma HaltedSnoc(dict: JsObj<Term>, ks: seq<string>, i: nat)
    requires i < |ks|
    ensures Halted(dict, ks[..i + 1]) <==> Halted(dict, ks[..i]) || ks[i] !in dict.vals
  {
    var next := ks[..i + 1];
    if Halted(dict, next) && ks[i] in dict.vals {
      var j :| 0 <= j < |next| && next[j] !in dict.vals;
      assert ks[..i][j] !in dict.vals;
    }
    if Halted(dict, ks[..i]) {
      var j :| 0 <= j < i && ks[..i][j] !in dict.vals;
      assert next[j] !in dict.vals;
    }
    if ks[i] !in dict.vals {
      assert next[i] !in dict.vals;
    }
  }

  function ListComment(l: ListDef): seq<string> {
    [ Indented(0, ListRuleTop),
      Indented(0, "     List: " + l.name),
      Indented(0, ""),
      Indented(0, "     " + l.definition),
      Indented(0, ListRuleBottom) ]
  }

  /** The lines of one list; a list that is not Open is treated as Closed
      (Union lists are excluded by the emitter's precondition). */
  ghost function ListLines(m: Model, encode: string -> string, rank: map<string, nat>, indent: nat, l: ListDef): seq<string>
    requires Ranked(m.member, rank)
  {
    var name := XslName(l.name);
    ListComment(l)
    + if l.listType == "Open" then
        [Indented(indent, "<xsd:element name=\"" + name + "\" type=\"xsd:string\">")]
        + AnnotationLines(indent + 1, l.definition, encode)
        + [Indented(indent, "</xsd:element>")]
      else
        [Indented(indent, "<xsd:simpleType name=\"" + name + "\">")]
        + AnnotationLines(indent + 1, l.definition, encode)
        + [Indented(indent + 1, "<xsd:restriction base=\"xsd:string\">")]
        + EnumLines(encode, Enum(m.member, m.dictionary, rank, indent + 2, "", l.name).entries)
        + [Indented(indent + 1, "</xsd:restriction>"), Indented(indent, "</xsd:simpleType>")]
  }

  ghost function ListLog(m: Model, rank: map<string, nat>, indent: nat, l: ListDef): seq<Diagnostic>
    requires Ranked(m.member, rank)
  {
    if l.listType == "Open" then [] else Enum(m.member, m.dictionary, rank, indent + 2, "", l.name).log
  }

  ghost function ListsOf(m: Model, encode: string -> string, rank: map<string, nat>, indent: nat, ks: seq<string>): seq<string>
    requires Ranked(m.member, rank)
    decreases |ks|
  {
    if ks == [] then []
    else
      var k := ks[|ks| - 1];
      ListsOf(m, encode, rank, indent, ks[..|ks| - 1])
      + (if k in m.lists.vals then ListLines(m, encode, rank, indent, m.lists.vals[k]) else [])
  }

  /** One list more in the loop of makeLists. */
  lemma ListsStep(base: seq<string>, m: Model, encode: string -> string, rank: map<string, nat>, indent: nat, ks: seq<string>, i: nat)
    requires Ranked(m.member, rank)
    requires i < |ks| && ks[i] in m.lists.vals
    ensures base + ListsOf(m, encode, rank, indent, ks[..i]) + ListLines(m, encode, rank, indent, m.lists.vals[ks[i]])
            == base + ListsOf(m, encode, rank, indent, ks[..i + 1])
  {
    assert ks[..i + 1][..i] == ks[..i];
    AppendAssoc(base, ListsOf(m, encode, rank, indent, ks[..i]), ListLines(m, encode, rank, indent, m.lists.vals[ks[i]]));
  }

  ghost function ListsLog(m: Model, rank: map<string, nat>, indent: nat, ks: seq<string>): seq<Diagnostic>
    requires Ranked(m.member, rank)
    decreases |ks|
  {
    if ks == [] then []
    else
      var k := ks[|ks| - 1];
      ListsLog(m, rank, indent, ks[..|ks| - 1])
      + (if k in m.lists.vals then ListLog(m, rank, indent, m.lists.vals[k]) else [])
  }

  lemma ListsLogStep(base: seq<Diagnostic>, m: Model, rank: map<string, nat>, indent: nat, ks: seq<string>, i: nat)
    requires Ranked(m.member, rank)
    requires i < |ks| && ks[i] in m.lists.vals
    ensures base + ListsLog(m, rank, indent, ks[..i]) + ListLog(m, rank, indent, m.lists.vals[ks[i]])
            == base + ListsLog(m, rank, indent, ks[..i + 1])
  {
    assert ks[..i + 1][..i] == ks[..i];
    AppendAssoc(base, ListsLog(m, rank, indent, ks[..i]), ListLog(m, rank, indent, m.lists.vals[ks[i]]));
  }

  /** The enumeration of the model's version, written in a base schema only
      (its closing simpleType tag is indented one level deeper than its
      opening tag). */
  function VersionLines(m: Model, encode: string -> string, indent: nat): seq<string> {
    [ Indented(0, ListRuleTop),
      Indented(0, "     Version"),
      Indented(0, ListRuleBottom),
      Indented(indent, "<xsd:simpleType name=\"Version\">") ]
    + AnnotationLines(indent + 1, "Version number.", encode)
    + [ Indented(indent + 1, "<xsd:restriction base=\"xsd:string\">"),
        Indented(indent + 2, "<xsd:enumeration value=\"" + m.header.version + "\" />"),
        Indented(indent + 1, "</xsd:restriction>"),
        Indented(indent + 1, "</xsd:simpleType>") ]
  }

  ghost function ListsLines(m: Model, encode: string -> string, rank: map<string, nat>, indent: nat): seq<string>
    requires Ranked(m.member, rank)
  {
    Banner("     Lists")
    + (if m.header.extend == "" then VersionLines(m, encode, indent) else [])
    + ListsOf(m, encode, rank, indent, m.lists.keys)
  }

  // ---------------------------------------------------------------------
  // makeTypes

  /** The opening of a documented simple type of makeTypes. */
  function TypeDoc(encode: string -> string, name: string, definition: string): seq<string> {
    TypeHead(name) + AnnotationLines(4, definition, encode) + DocClose()
  }

  function TypeHead(name: string): seq<string> {
    [ Indented(1, "<xsd:simpleType name=\"" + name + "\">"),
      Indented(2, "<xsd:annotation>"),
      Indented(3, DocumentationOpen) ]
  }

  function DocClose(): seq<string> {
    [Indented(3, "</xsd:documentation>"), Indented(2, "</xsd:annotation>")]
  }

  function SequenceType(m: Model, encode: string -> string): seq<string> {
    if "Sequence" in m.types.vals then
      TypeDoc(encode, "typeSequence", m.types.vals["Sequence"].definition)
      + [Indented(2, "<xsd:list itemType=\"xsd:integer\"/>"), Indented(1, "</xsd:simpleType>")]
    else []
  }

  function IdType(m: Model, encode: string -> string): seq<string> {
    if "ID" in m.types.vals then
      TypeDoc(encode, "typeID", m.types.vals["ID"].definition)
      + [ Indented(2, "<xsd:restriction base=\"xsd:string\">"),
          Indented(3, "<xsd:pattern value=\"[^:]+://[^/]+/.+\"/>"),
          Indented(2, "</xsd:restriction>"),
          Indented(1, "</xsd:simpleType>") ]
    else []
  }

  function TypesLines(m: Model, encode: string -> string): seq<string> {
    Banner("      Types") + [Indented(0, "")] + SequenceType(m, encode) + [Indented(0, "")] + IdType(m, encode)
  }

  // ---------------------------------------------------------------------
  // makeXSD

  const XmlDeclaration := "<?xml version=\"1.0\" encoding=\"UTF-8\"?>"
  const CreatedNote := "<!-- Automatically created based on the specification available at http://www.spase-group.org/model -->"
  const XsdNamespace := "\t      xmlns:xsd=\"http://www.w3.org/2001/XMLSchema\""
  const XsiNamespace := "\t      xmlns:xsi=\"http://www.w3.org/2001/XMLSchema-instance\""
  const VcNamespace := "\t      xmlns:vc=\"http://www.w3.org/2007/XMLSchema-versioning\""
  const ElementForm := "\t      elementFormDefault=\"qualified\""
  const AttributeForm := "\t      attributeFormDefault=\"unqualified\""
  const MinVersion := "\t      vc:minVersion=\"1.1\""

  /** The XML declaration and the comments naming the model. */
  function Preamble(m: Model, today: string): seq<string> {
    var h := m.header;
    [ Indented(0, XmlDeclaration),
      Indented(0, CreatedNote) ]
    + (if h.extend != "" then [Indented(0, "<!-- Extends the schema contained in \"" + h.extend + "\" -->")] else [])
    + [ Indented(0, "<!-- Version: " + h.version + " -->"),
        Indented(0, "<!-- Generated: " + today + " -->") ]
  }

  /** The opening schema tag with its namespaces and version. */
  function SchemaTag(m: Model): seq<string> {
    SchemaNamespaces(m) + SchemaOptions(m)
  }

  function SchemaNamespaces(m: Model): seq<string> {
    var h := m.header;
    [ Indented(0, "<xsd:schema"),
      Indented(0, "\t      targetNamespace=\"" + h.schemaurl + "\""),
      Indented(0, XsdNamespace),
      Indented(0, XsiNamespace),
      Indented(0, VcNamespace),
      Indented(0, "\t      xmlns:" + h.namespace + "=\"" + h.schemaurl + "\"") ]
  }

  function SchemaOptions(m: Model): seq<string> {
    [ Indented(0, ElementForm),
      Indented(0, AttributeForm),
      Indented(0, MinVersion),
      Indented(0, "\t      version=\"" + m.header.version + "\""),
      Indented(0, ">"),
      Indented(0, "") ]
  }

  function HeadLines(m: Model, today: string): seq<string> {
    Preamble(m, today) + SchemaTag(m)
  }

  function RootLines(m: Model): seq<string> {
    if m.header.extend == "" then
      [ Indented(1, "<!-- Document root element -->"),
        Indented(1, "<xsd:element name=\"Spase\" type=\"spase:Spase\" />"),
        Indented(0, "") ]
    else []
  }

  /** The head, the root element, the tree of complexTypes, then the other
      sections. */
  ghost function SchemaLines(m: Model, encode: string -> string, today: string, rank: map<string, nat>): seq<string>
    requires Ranked(m.member, rank)
  {
    (HeadLines(m, today) + RootLines(m)) + TreeLines(m, encode, false, "Spase") + Sections(m, encode, rank)
  }

  /** Everything after the tree: the groups, the dictionary, the lists, the
      types of a base schema (one that extends nothing), and the closing tag.
      makeXSD walks the tree from "Spase" without the lang attribute (its
      addLang argument is the empty string). */
  ghost function Sections(m: Model, encode: string -> string, rank: map<string, nat>): seq<string>
    requires Ranked(m.member, rank)
  {
    GroupLines(m)
    + DictionaryLines(m, encode)
    + ListsLines(m, encode, rank, 1)
    + (if m.header.extend == "" then TypesLines(m, encode) else [])
    + [Indented(0, "</xsd:schema>")]
  }

  ghost function SchemaLog(m: Model, rank: map<string, nat>): seq<Diagnostic>
    requires Ranked(m.member, rank)
  {
    TreeLog(m, "Spase") + ListsLog(m, rank, 1, m.lists.keys)
  }
}
