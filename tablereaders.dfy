/**
 * The six table readers of the model builder (src/makejson.js). Each reads
 * a tab-separated table given as its sequence of lines: the first line holds
 * the field names and is skipped, a line starting with '#' is a comment, a
 * row with too few fields is reported with its 1-based line number and
 * skipped. The keyed readers (type, dictionary, list) store each record
 * under one of its fields; the history reader keeps every record; the
 * grouping readers (member, ontology) fold consecutive records with the
 * same leading field into one nested object.
 */
module TableReaders {

  import opened Sequences
  import opened JsObject
  import opened JsString
  import opened InfoModel

  const TAB: char := '\t'

  predicate IsComment(text: string) {
    |text| > 0 && text[0] == '#'
  }

  /** A data line: its 1-based line number and its tab-separated fields. */
  datatype Row = Row(line: nat, fields: seq<string>)

  /** The data lines of a table, in file order. */
  function Rows(lines: seq<string>): seq<Row>
    decreases |lines|
  {
    if lines == [] then []
    else
      Rows(lines[..|lines| - 1])
      + (if |lines| == 1 || IsComment(Last(lines)) then [] else [Row(|lines|, Split(Last(lines), TAB))])
  }

  /** The records built from the rows with at least `min` fields, in order. */
  function Records<R>(rows: seq<Row>, min: nat, mk: seq<string> -> R): seq<R>
    decreases |rows|
  {
    if rows == [] then []
    else
      Records(rows[..|rows| - 1], min, mk)
      + (if |Last(rows).fields| >= min then [mk(Last(rows).fields)] else [])
  }

  /** The reports for the rows with fewer than `min` fields, in order. */
  function Rejected(rows: seq<Row>, table: string, min: nat): seq<Diagnostic>
    decreases |rows|
  {
    if rows == [] then []
    else
      Rejected(rows[..|rows| - 1], table, min)
      + (if |Last(rows).fields| < min then [InvalidRecord(table, Last(rows).line)] else [])
  }

  /** The assignments `dictionary[key(r)] = r`, one per record, in order. */
  function Pairs<R>(recs: seq<R>, key: R -> string): (ps: seq<(string, R)>)
    ensures |ps| == |recs|
  {
    seq(|recs|, i requires 0 <= i < |recs| => (key(recs[i]), recs[i]))
  }

  /** The object holding each record under its key. */
  function Keyed<R>(recs: seq<R>, key: R -> string): JsObj<R> {
    PutAll(Empty(), Pairs(recs, key))
  }

  /** The assignments that seal the groups: one per run whose key is not
      empty, the run's records keyed by `inner`. */
  function SealPairs<R>(runs: seq<seq<R>>, outer: R -> string, inner: R -> string): seq<(string, JsObj<R>)>
    decreases |runs|
  {
    if runs == [] then []
    else
      var run := Last(runs);
      SealPairs(runs[..|runs| - 1], outer, inner)
      + (if run != [] && outer(run[0]) != "" then [(outer(run[0]), Keyed(run, inner))] else [])
  }

  /** The grouped object: one group per maximal run of records sharing the
      `outer` field, a later run of the same key replacing the earlier one. */
  function Grouped<R>(recs: seq<R>, outer: R -> string, inner: R -> string): JsObj<JsObj<R>> {
    PutAll(Empty(), SealPairs(RunsOf(recs, outer), outer, inner))
  }

  // ----- Record constructors and keys of the six tables -----

  /** Field `i` of a row; the readers build a record only from a row that
      has all its fields, so the "" past the end is never used. */
  function Field(f: seq<string>, i: nat): string {
    if i < |f| then f[i] else ""
  }

  function TypeOf(f: seq<string>): TypeDef {
    TypeDef(Field(f, 0), Field(f, 1), Field(f, 2), Field(f, 3))
  }

  function TermOf(f: seq<string>): Term {
    Term(Field(f, 0), Field(f, 1), Field(f, 2), Field(f, 3), Field(f, 4), Field(f, 5), Field(f, 6), Field(f, 7),
         [], None, [])
  }

  function ListOf(f: seq<string>): ListDef {
    ListDef(Field(f, 0), Field(f, 1), Field(f, 2), Field(f, 3), Field(f, 4), Field(f, 5))
  }

  function HistoryOf(f: seq<string>): HistoryRec {
    HistoryRec(Field(f, 0), Field(f, 1), Field(f, 2), Field(f, 3), Field(f, 4), Field(f, 5))
  }

  function MemberOf(f: seq<string>): MemberDef {
    MemberDef(Field(f, 0), Field(f, 1), Field(f, 2), Field(f, 3))
  }

  function OntologyOf(f: seq<string>): OntologyDef {
    OntologyDef(Field(f, 0), Field(f, 1), Field(f, 2), Field(f, 3), ParseInt(Field(f, 4)),
                Field(f, 5), Field(f, 6), Field(f, 7))
  }

  function TypeKey(d: TypeDef): string { d.typeName }
  function TermKey(d: Term): string { d.term }
  function ListKey(d: ListDef): string { d.name }
  function MemberList(d: MemberDef): string { d.list }
  function MemberItem(d: MemberDef): string { d.item }
  function OntologyObject(d: OntologyDef): string { d.objectName }
  function OntologyElement(d: OntologyDef): string { d.element }

  // ----- Unfolding facts used by the loops -----

  lemma RowsStep(lines: seq<string>, n: nat)
    requires 0 < n <= |lines|
    ensures Rows(lines[..n]) == Rows(lines[..n - 1])
      + (if n == 1 || IsComment(lines[n - 1]) then [] else [Row(n, Split(lines[n - 1], TAB))])
  {
    assert lines[..n][..n - 1] == lines[..n - 1];
  }

  lemma RecordsStep<R>(rows: seq<Row>, r: Row, min: nat, mk: seq<string> -> R, table: string)
    ensures Records(rows + [r], min, mk) == Records(rows, min, mk) + (if |r.fields| >= min then [mk(r.fields)] else [])
    ensures Rejected(rows + [r], table, min) == Rejected(rows, table, min)
      + (if |r.fields| < min then [InvalidRecord(table, r.line)] else [])
  {
    assert (rows + [r])[..|rows|] == rows;
  }

  lemma KeyedStep<R>(recs: seq<R>, r: R, key: R -> string)
    ensures Keyed(recs + [r], key) == Put(Keyed(recs, key), key(r), r)
  {
    assert Pairs(recs + [r], key) == Pairs(recs, key) + [(key(r), r)];
    assert Pairs(recs + [r], key)[..|recs|] == Pairs(recs, key);
  }

  // ----- The readers -----

  /** The loop shared by the keyed readers. */
  method ReadKeyed<R>(lines: seq<string>, table: string, min: nat, mk: seq<string> -> R, key: R -> string)
    returns (dictionary: JsObj<R>, log: seq<Diagnostic>)
    ensures dictionary == Keyed(Records(Rows(lines), min, mk), key)
    ensures log == Rejected(Rows(lines), table, min)
  {
    var lineNumber := 0;
    dictionary := Empty();
    log := [];
    ghost var recs: seq<R> := [];
    while lineNumber < |lines|
      invariant 0 <= lineNumber <= |lines|
      invariant recs == Records(Rows(lines[..lineNumber]), min, mk)
      invariant log == Rejected(Rows(lines[..lineNumber]), table, min)
      invariant dictionary == Keyed(recs, key)
    {
      var text := lines[lineNumber];
      lineNumber := lineNumber + 1;
      RowsStep(lines, lineNumber);
      if lineNumber == 1 {
        assert Rows(lines[..lineNumber]) == Rows(lines[..lineNumber - 1]);
        continue;
      }
      if |text| > 0 && text[0] == '#' {
        assert Rows(lines[..lineNumber]) == Rows(lines[..lineNumber - 1]);
        continue;
      }
      var part := Split(text, TAB);
      RecordsStep(Rows(lines[..lineNumber - 1]), Row(lineNumber, part), min, mk, table);
      assert Rows(lines[..lineNumber]) == Rows(lines[..lineNumber - 1]) + [Row(lineNumber, part)];
      if |part| < min {
        log := log + [InvalidRecord(table, lineNumber)];
        continue;
      }
      var definition := mk(part);
      KeyedStep(recs, definition, key);
      dictionary := Put(dictionary, key(definition), definition);
      recs := recs + [definition];
    }
    assert lines[..lineNumber] == lines;
  }

  /** The state of the grouping cursors after some records: no record yet,
      or the open group is the last run and the earlier runs are sealed. */
  ghost predicate Cursor<R>(recs: seq<R>, outer: R -> string, inner: R -> string,
                            dictionary: JsObj<JsObj<R>>, currentName: string, current: JsObj<R>)
  {
    var runs := RunsOf(recs, outer);
    if recs == [] then currentName == "" && current == Empty() && dictionary == Empty()
    else
      && currentName == outer(Last(recs))
      && current == Keyed(Last(runs), inner)
      && dictionary == PutAll(Empty(), SealPairs(runs[..|runs| - 1], outer, inner))
  }

  lemma SealStep<R>(runs: seq<seq<R>>, outer: R -> string, inner: R -> string)
    requires runs != []
    ensures SealPairs(runs, outer, inner) == SealPairs(runs[..|runs| - 1], outer, inner)
      + (if Last(runs) != [] && outer(Last(runs)[0]) != "" then [(outer(Last(runs)[0]), Keyed(Last(runs), inner))] else [])
  {
  }

  lemma PutAllStep<V>(o: JsObj<V>, ps: seq<(string, V)>, p: (string, V))
    ensures PutAll(o, ps + [p]) == Put(PutAll(o, ps), p.0, p.1)
  {
    assert (ps + [p])[..|ps|] == ps;
  }

  /** Sealing the open group turns a cursor state into the grouped object. */
  lemma CursorSeal<R>(recs: seq<R>, outer: R -> string, inner: R -> string,
                      dictionary: JsObj<JsObj<R>>, currentName: string, current: JsObj<R>)
    requires Cursor(recs, outer, inner, dictionary, currentName, current)
    ensures (if currentName != "" then Put(dictionary, currentName, current) else dictionary)
      == Grouped(recs, outer, inner)
  {
    var runs := RunsOf(recs, outer);
    if recs != [] {
      RunsMaximal(recs, outer);
      var run := Last(runs);
      assert run[|run| - 1] == Last(recs);
      assert outer(run[0]) == outer(run[|run| - 1]);
      assert currentName == outer(run[0]);
      SealStep(runs, outer, inner);
      var sealed := SealPairs(runs[..|runs| - 1], outer, inner);
      if currentName != "" {
        assert SealPairs(runs, outer, inner) == sealed + [(currentName, current)];
        PutAllStep(Empty(), sealed, (currentName, current));
      } else {
        assert SealPairs(runs, outer, inner) == sealed;
      }
    }
  }

  /** One more record keeps the cursor invariant. */
  lemma CursorStep<R>(recs: seq<R>, r: R, outer: R -> string, inner: R -> string,
                      dictionary: JsObj<JsObj<R>>, currentName: string, current: JsObj<R>)
    requires Cursor(recs, outer, inner, dictionary, currentName, current)
    ensures currentName == outer(r) ==>
      Cursor(recs + [r], outer, inner, dictionary, currentName, Put(current, inner(r), r))
    ensures currentName != outer(r) ==>
      Cursor(recs + [r], outer, inner,
             if currentName != "" then Put(dictionary, currentName, current) else dictionary,
             outer(r), Put(Empty(), inner(r), r))
  {
    var s := recs + [r];
    var runs := RunsOf(recs, outer);
    var runs' := RunsOf(s, outer);
    assert s[..|s| - 1] == recs;
    KeyedStep([], r, inner);
    assert [] + [r] == [r];
    if recs == [] {
      assert runs' == [[r]];
    } else {
      assert s[|s| - 2] == Last(recs);
      if currentName == outer(r) {
        assert runs' == runs[..|runs| - 1] + [Last(runs) + [r]];
        assert runs'[..|runs'| - 1] == runs[..|runs| - 1];
        KeyedStep(Last(runs), r, inner);
      } else {
        assert runs' == runs + [[r]];
        assert runs'[..|runs'| - 1] == runs;
        CursorSeal(recs, outer, inner, dictionary, currentName, current);
      }
    }
  }

  /** The loop shared by the grouping readers. */
  method ReadGrouped<R>(lines: seq<string>, table: string, min: nat, mk: seq<string> -> R,
                        outer: R -> string, inner: R -> string)
    returns (dictionary: JsObj<JsObj<R>>, log: seq<Diagnostic>)
    ensures dictionary == Grouped(Records(Rows(lines), min, mk), outer, inner)
    ensures log == Rejected(Rows(lines), table, min)
  {
    var lineNumber := 0;
    dictionary := Empty();
    log := [];
    var currentObjectName := "";
    var currentObject: JsObj<R> := Empty();
    ghost var recs: seq<R> := [];
    while lineNumber < |lines|
      invariant 0 <= lineNumber <= |lines|
      invariant recs == Records(Rows(lines[..lineNumber]), min, mk)
      invariant log == Rejected(Rows(lines[..lineNumber]), table, min)
      invariant Cursor(recs, outer, inner, dictionary, currentObjectName, currentObject)
    {
      var text := lines[lineNumber];
      lineNumber := lineNumber + 1;
      RowsStep(lines, lineNumber);
      if lineNumber == 1 {
        assert Rows(lines[..lineNumber]) == Rows(lines[..lineNumber - 1]);
        continue;
      }
      if |text| > 0 && text[0] == '#' {
        assert Rows(lines[..lineNumber]) == Rows(lines[..lineNumber - 1]);
        continue;
      }
      var part := Split(text, TAB);
      RecordsStep(Rows(lines[..lineNumber - 1]), Row(lineNumber, part), min, mk, table);
      assert Rows(lines[..lineNumber]) == Rows(lines[..lineNumber - 1]) + [Row(lineNumber, part)];
      if |part| < min {
        log := log + [InvalidRecord(table, lineNumber)];
        continue;
      }
      var definition := mk(part);
      CursorStep(recs, definition, outer, inner, dictionary, currentObjectName, currentObject);
      if currentObjectName != outer(definition) {
        if |currentObjectName| != 0 { dictionary := Put(dictionary, currentObjectName, currentObject); }
        currentObjectName := outer(definition);
        currentObject := Empty();
      }
      currentObject := Put(currentObject, inner(definition), definition);
      recs := recs + [definition];
    }
    assert lines[..lineNumber] == lines;
    CursorSeal(recs, outer, inner, dictionary, currentObjectName, currentObject);
    if |currentObjectName| != 0 { dictionary := Put(dictionary, currentObjectName, currentObject); }
  }

  /** readType: type.tab, at least 4 fields, keyed by the type name. */
  method ReadType(lines: seq<string>) returns (types: JsObj<TypeDef>, log: seq<Diagnostic>)
    ensures types == Keyed(Records(Rows(lines), 4, TypeOf), TypeKey)
    ensures log == Rejected(Rows(lines), "Type", 4)
  {
    types, log := ReadKeyed(lines, "Type", 4, TypeOf, TypeKey);
  }

  /** readDictionary: dictionary.tab, at least 8 fields, keyed by the term. */
  method ReadDictionary(lines: seq<string>) returns (dictionary: JsObj<Term>, log: seq<Diagnostic>)
    ensures dictionary == Keyed(Records(Rows(lines), 8, TermOf), TermKey)
    ensures log == Rejected(Rows(lines), "Dictionary", 8)
  {
    dictionary, log := ReadKeyed(lines, "Dictionary", 8, TermOf, TermKey);
  }

  /** readList: list.tab, at least 6 fields, keyed by the list name. */
  method ReadList(lines: seq<string>) returns (lists: JsObj<ListDef>, log: seq<Diagnostic>)
    ensures lists == Keyed(Records(Rows(lines), 6, ListOf), ListKey)
    ensures log == Rejected(Rows(lines), "List", 6)
  {
    lists, log := ReadKeyed(lines, "List", 6, ListOf, ListKey);
  }

  /** readHistory: history.tab, at least 6 fields, every record kept. */
  method ReadHistory(lines: seq<string>) returns (history: seq<HistoryRec>, log: seq<Diagnostic>)
    ensures history == Records(Rows(lines), 6, HistoryOf)
    ensures log == Rejected(Rows(lines), "History", 6)
  {
    var lineNumber := 0;
    history := [];
    log := [];
    while lineNumber < |lines|
      invariant 0 <= lineNumber <= |lines|
      invariant history == Records(Rows(lines[..lineNumber]), 6, HistoryOf)
      invariant log == Rejected(Rows(lines[..lineNumber]), "History", 6)
    {
      var text := lines[lineNumber];
      lineNumber := lineNumber + 1;
      RowsStep(lines, lineNumber);
      if lineNumber == 1 {
        assert Rows(lines[..lineNumber]) == Rows(lines[..lineNumber - 1]);
        continue;
      }
      if |text| > 0 && text[0] == '#' {
        assert Rows(lines[..lineNumber]) == Rows(lines[..lineNumber - 1]);
        continue;
      }
      var part := Split(text, TAB);
      RecordsStep(Rows(lines[..lineNumber - 1]), Row(lineNumber, part), 6, HistoryOf, "History");
      assert Rows(lines[..lineNumber]) == Rows(lines[..lineNumber - 1]) + [Row(lineNumber, part)];
      if |part| < 6 {
        log := log + [InvalidRecord("History", lineNumber)];
        continue;
      }
      history := history + [HistoryOf(part)];
    }
    assert lines[..lineNumber] == lines;
  }

  /** readMember: member.tab, at least 4 fields, grouped by list, then keyed by item. */
  method ReadMember(lines: seq<string>) returns (member: MemberSets, log: seq<Diagnostic>)
    ensures member == Grouped(Records(Rows(lines), 4, MemberOf), MemberList, MemberItem)
    ensures log == Rejected(Rows(lines), "Member", 4)
  {
    member, log := ReadGrouped(lines, "Member", 4, MemberOf, MemberList, MemberItem);
  }

  /** readOntology: ontology.tab, at least 8 fields, grouped by object, then
      keyed by element; the reference field is parsed with parseInt. */
  method ReadOntology(lines: seq<string>) returns (ontology: Ontology, log: seq<Diagnostic>)
    ensures ontology == Grouped(Records(Rows(lines), 8, OntologyOf), OntologyObject, OntologyElement)
    ensures log == Rejected(Rows(lines), "Ontology", 8)
  {
    ontology, log := ReadGrouped(lines, "Ontology", 8, OntologyOf, OntologyObject, OntologyElement);
  }

  // ----- What the readers keep and what they report -----

  /** A data row is exactly a line after the first that is not a comment,
      with its 1-based number and its tab-separated fields. */
  lemma {:induction false} RowsExact(lines: seq<string>, r: Row)
    ensures r in Rows(lines) <==>
      2 <= r.line <= |lines| && !IsComment(lines[r.line - 1]) && r.fields == Split(lines[r.line - 1], TAB)
    decreases |lines|
  {
    if lines != [] {
      var init := lines[..|lines| - 1];
      RowsExact(init, r);
      if 2 <= r.line <= |init| {
        assert lines[r.line - 1] == init[r.line - 1];
      }
    }
  }

  /** The rows come in file order. */
  lemma {:induction false} RowsInOrder(lines: seq<string>)
    ensures forall i | 0 <= i < |Rows(lines)| :: 2 <= Rows(lines)[i].line <= |lines|
    ensures forall i, j | 0 <= i < j < |Rows(lines)| :: Rows(lines)[i].line < Rows(lines)[j].line
    decreases |lines|
  {
    if lines != [] {
      var init := lines[..|lines| - 1];
      RowsInOrder(init);
      var rs := Rows(lines);
      assert forall i | 0 <= i < |Rows(init)| :: rs[i] == Rows(init)[i];
    }
  }

  /** A record is kept exactly when its row has at least `min` fields. */
  lemma {:induction false} RecordsExact<R>(rows: seq<Row>, min: nat, mk: seq<string> -> R, x: R)
    ensures x in Records(rows, min, mk) <==>
      exists i | 0 <= i < |rows| :: |rows[i].fields| >= min && x == mk(rows[i].fields)
    decreases |rows|
  {
    if rows != [] {
      var init := rows[..|rows| - 1];
      RecordsExact(init, min, mk, x);
      if exists i | 0 <= i < |init| :: |init[i].fields| >= min && x == mk(init[i].fields) {
        var i :| 0 <= i < |init| && |init[i].fields| >= min && x == mk(init[i].fields);
        assert rows[i] == init[i];
      }
      if exists i | 0 <= i < |rows| :: |rows[i].fields| >= min && x == mk(rows[i].fields) {
        var i :| 0 <= i < |rows| && |rows[i].fields| >= min && x == mk(rows[i].fields);
        if i < |init| { assert rows[i] == init[i]; }
      }
    }
  }

  /** A report is written exactly for each row with fewer than `min` fields,
      naming the table and the row's line number. */
  lemma {:induction false} RejectedExact(rows: seq<Row>, table: string, min: nat, d: Diagnostic)
    ensures d in Rejected(rows, table, min) <==>
      exists i | 0 <= i < |rows| :: |rows[i].fields| < min && d == InvalidRecord(table, rows[i].line)
    decreases |rows|
  {
    if rows != [] {
      var init := rows[..|rows| - 1];
      RejectedExact(init, table, min, d);
      if exists i | 0 <= i < |init| :: |init[i].fields| < min && d == InvalidRecord(table, init[i].line) {
        var i :| 0 <= i < |init| && |init[i].fields| < min && d == InvalidRecord(table, init[i].line);
        assert rows[i] == init[i];
      }
      if exists i | 0 <= i < |rows| :: |rows[i].fields| < min && d == InvalidRecord(table, rows[i].line) {
        var i :| 0 <= i < |rows| && |rows[i].fields| < min && d == InvalidRecord(table, rows[i].line);
        if i < |init| { assert rows[i] == init[i]; }
      }
    }
  }

  /** A key is present exactly when some record carries it. */
  lemma KeyedHas<R>(recs: seq<R>, key: R -> string, k: string)
    ensures k in Keyed(recs, key).vals <==> SomeKey(recs, key, k)
  {
    var ps := Pairs(recs, key);
    PutAllHas(Empty(), ps, k);
    if Assigns(ps, k) {
      var i :| 0 <= i < |ps| && ps[i].0 == k;
      assert key(recs[i]) == k;
    }
    if SomeKey(recs, key, k) {
      var i :| 0 <= i < |recs| && key(recs[i]) == k;
      assert ps[i].0 == k;
    }
  }

  /** The last record with a key is the one stored under it. */
  lemma KeyedLastWins<R>(recs: seq<R>, key: R -> string, i: nat)
    requires i < |recs|
    requires forall j | i < j < |recs| :: key(recs[j]) != key(recs[i])
    ensures key(recs[i]) in Keyed(recs, key).vals && Keyed(recs, key).vals[key(recs[i])] == recs[i]
  {
    var ps := Pairs(recs, key);
    assert forall j | i < j < |ps| :: ps[j].0 == key(recs[j]);
    PutAllLastWins(Empty(), ps, i);
  }

  /** The sealed keys are the non-empty keys of the runs. */
  lemma {:induction false} SealPairsKeys<R>(runs: seq<seq<R>>, outer: R -> string, inner: R -> string, k: string)
    ensures Assigns(SealPairs(runs, outer, inner), k) <==> k != "" && SomeRunKey(runs, outer, k)
    decreases |runs|
  {
    if runs != [] {
      var init := runs[..|runs| - 1];
      var ps := SealPairs(runs, outer, inner);
      var pi := SealPairs(init, outer, inner);
      SealPairsKeys(init, outer, inner, k);
      assert forall p | 0 <= p < |pi| :: ps[p] == pi[p];
      if Assigns(ps, k) {
        var p :| 0 <= p < |ps| && ps[p].0 == k;
        if p < |pi| {
          assert pi[p].0 == k;
          var j :| 0 <= j < |init| && init[j] != [] && outer(init[j][0]) == k;
          assert runs[j] == init[j];
        } else {
          assert Last(runs) != [] && outer(Last(runs)[0]) == k;
          assert runs[|runs| - 1] == Last(runs);
        }
      }
      if k != "" && SomeRunKey(runs, outer, k) {
        var j :| 0 <= j < |runs| && runs[j] != [] && outer(runs[j][0]) == k;
        if j < |init| {
          assert init[j] == runs[j];
          var p :| 0 <= p < |pi| && pi[p].0 == k;
          assert ps[p].0 == k;
        } else {
          assert Last(runs) == runs[j];
          assert ps == pi + [(k, Keyed(runs[j], inner))];
          assert ps[|ps| - 1].0 == k;
        }
      }
    }
  }

  /** The last run of a key is the group sealed for it, and nothing sealed
      after it carries that key. */
  lemma {:induction false} SealPairsLast<R>(runs: seq<seq<R>>, outer: R -> string, inner: R -> string, i: nat)
    requires i < |runs| && runs[i] != [] && outer(runs[i][0]) != ""
    requires forall j | i < j < |runs| :: runs[j] != [] && outer(runs[j][0]) != outer(runs[i][0])
    ensures exists p | 0 <= p < |SealPairs(runs, outer, inner)| ::
      && SealPairs(runs, outer, inner)[p] == (outer(runs[i][0]), Keyed(runs[i], inner))
      && forall q | p < q < |SealPairs(runs, outer, inner)| :: SealPairs(runs, outer, inner)[q].0 != outer(runs[i][0])
    decreases |runs|
  {
    var ps := SealPairs(runs, outer, inner);
    var init := runs[..|runs| - 1];
    var pi := SealPairs(init, outer, inner);
    var key := outer(runs[i][0]);
    var last := Last(runs);
    var tail := if last != [] && outer(last[0]) != "" then [(outer(last[0]), Keyed(last, inner))] else [];
    SealStep(runs, outer, inner);
    assert ps == pi + tail;
    if i == |runs| - 1 {
      assert ps[|ps| - 1] == (key, Keyed(runs[i], inner));
    } else {
      assert init[i] == runs[i];
      forall j | i < j < |init| ensures init[j] != [] && outer(init[j][0]) != outer(init[i][0]) {
        assert init[j] == runs[j];
      }
      SealPairsLast(init, outer, inner, i);
      var p :| 0 <= p < |pi| && pi[p] == (key, Keyed(runs[i], inner))
        && forall q | p < q < |pi| :: pi[q].0 != key;
      assert outer(last[0]) != key;
      assert ps[p] == pi[p];
      forall q | p < q < |ps| ensures ps[q].0 != key {
        if q < |pi| { assert ps[q] == pi[q]; } else { assert ps[q] == tail[q - |pi|]; }
      }
    }
  }

  /** A group is stored exactly under each non-empty leading key some record
      carries; the empty key is never stored. */
  lemma GroupedHas<R>(recs: seq<R>, outer: R -> string, inner: R -> string, k: string)
    ensures k in Grouped(recs, outer, inner).vals <==> k != "" && SomeKey(recs, outer, k)
  {
    var runs := RunsOf(recs, outer);
    var e: JsObj<JsObj<R>> := Empty();
    assert k !in e.vals;
    PutAllHas(e, SealPairs(runs, outer, inner), k);
    SealPairsKeys(runs, outer, inner, k);
    RunsKeys(recs, outer, k);
  }

  /** The group stored under a key holds the records of the last run of
      that key (a reappearing key replaces its earlier group), each keyed by
      its inner field. */
  lemma GroupedLastRun<R>(recs: seq<R>, outer: R -> string, inner: R -> string, i: nat)
    requires i < |RunsOf(recs, outer)|
    requires RunsOf(recs, outer)[i] != [] && outer(RunsOf(recs, outer)[i][0]) != ""
    requires forall j | i < j < |RunsOf(recs, outer)| ::
      RunsOf(recs, outer)[j] != [] ==> outer(RunsOf(recs, outer)[j][0]) != outer(RunsOf(recs, outer)[i][0])
    ensures outer(RunsOf(recs, outer)[i][0]) in Grouped(recs, outer, inner).vals
    ensures Grouped(recs, outer, inner).vals[outer(RunsOf(recs, outer)[i][0])]
      == Keyed(RunsOf(recs, outer)[i], inner)
  {
    var runs := RunsOf(recs, outer);
    RunsMaximal(recs, outer);
    SealPairsLast(runs, outer, inner, i);
    var ps := SealPairs(runs, outer, inner);
    var p :| 0 <= p < |ps| && ps[p] == (outer(runs[i][0]), Keyed(runs[i], inner))
      && forall q | p < q < |ps| :: ps[q].0 != outer(runs[i][0]);
    PutAllLastWins(Empty(), ps, p);
  }
}
