/**
 * The pure name and type mappings of the schema emitter: the XML name of a
 * term, the schema type of a dictionary type, and the occurrence clause of an
 * ontology occurrence code.
 */
module XsdNames {

  import opened JsString

  /** The characters the XML name drops: dash, single quote and space. */
  predicate Dropped(c: char) {
    c == '-' || c == '\'' || c == ' '
  }

  /** `s.replace(/c/g, "")`: every occurrence of `c` removed. */
  function RemoveAll(s: string, c: char): (r: string)
    ensures |r| <= |s|
  {
    if s == [] then [] else (if s[0] == c then [] else [s[0]]) + RemoveAll(s[1..], c)
  }

  /** getXSLName: the empty string for an empty term, otherwise the term with
      its dashes, then its quotes, then its spaces removed. */
  function XslName(term: string): string {
    if term == "" then "" else RemoveAll(RemoveAll(RemoveAll(term, '-'), '\''), ' ')
  }

  /** Reference definition: one pass that keeps every character not dropped. */
  function Strip(s: string): (r: string)
    ensures |r| <= |s|
  {
    if s == [] then [] else (if Dropped(s[0]) then [] else [s[0]]) + Strip(s[1..])
  }

  lemma {:induction false} StripAppend(a: string, b: string)
    ensures Strip(a + b) == Strip(a) + Strip(b)
  {
    if a != [] {
      assert (a + b)[1..] == a[1..] + b;
      StripAppend(a[1..], b);
    } else {
      assert a + b == b;
    }
  }

  lemma {:induction false} ThreePassesStrip(s: string)
    ensures RemoveAll(RemoveAll(RemoveAll(s, '-'), '\''), ' ') == Strip(s)
  {
    if s != [] {
      ThreePassesStrip(s[1..]);
      var a := RemoveAll(s, '-');
      var b := RemoveAll(a, '\'');
      if s[0] == '-' {
        assert a == RemoveAll(s[1..], '-');
      } else {
        assert a == [s[0]] + RemoveAll(s[1..], '-');
        assert a[1..] == RemoveAll(s[1..], '-');
        if s[0] == '\'' {
          assert b == RemoveAll(RemoveAll(s[1..], '-'), '\'');
        } else {
          assert b == [s[0]] + RemoveAll(RemoveAll(s[1..], '-'), '\'');
          assert b[1..] == RemoveAll(RemoveAll(s[1..], '-'), '\'');
        }
      }
    }
  }

  /** The three successive removals drop exactly the dashes, quotes and spaces
      and keep every other character in order. */
  lemma XslNameIsStrip(term: string)
    ensures XslName(term) == Strip(term)
  {
    if term != "" {
      ThreePassesStrip(term);
    }
  }

  /** A character is in the name exactly when it is in the term and is not
      dropped. */
  lemma {:induction false} StripMembers(s: string, c: char)
    ensures c in Strip(s) <==> c in s && !Dropped(c)
  {
    if s != [] {
      StripMembers(s[1..], c);
      assert s == [s[0]] + s[1..];
    }
  }

  /** A term without dropped characters is its own name. */
  lemma {:induction false} StripClean(s: string)
    requires forall i | 0 <= i < |s| :: !Dropped(s[i])
    ensures Strip(s) == s
  {
    if s != [] {
      StripClean(s[1..]);
    }
  }

  /** The XML name keeps the non-dropped characters in order, distributes
      over concatenation, contains no dropped character, and is idempotent. */
  lemma XslNameProperties(a: string, b: string)
    ensures forall c :: c in XslName(a) <==> c in a && !Dropped(c)
    ensures XslName(a + b) == XslName(a) + XslName(b)
    ensures XslName(XslName(a)) == XslName(a)
    ensures (forall i | 0 <= i < |a| :: !Dropped(a[i])) ==> XslName(a) == a
  {
    XslNameIsStrip(a);
    XslNameIsStrip(b);
    XslNameIsStrip(a + b);
    StripAppend(a, b);
    forall c ensures c in XslName(a) <==> c in a && !Dropped(c) {
      StripMembers(a, c);
    }
    var n := XslName(a);
    XslNameIsStrip(n);
    forall i | 0 <= i < |n| ensures !Dropped(n[i]) {
      StripMembers(a, n[i]);
    }
    StripClean(n);
    if forall i | 0 <= i < |a| :: !Dropped(a[i]) {
      StripClean(a);
    }
  }

  /** A term without dash, quote or space is its own XML name (as the
      fixed names the emitters pass to getXSLName are). */
  lemma CleanName(term: string)
    requires forall i | 0 <= i < |term| :: !Dropped(term[i])
    ensures XslName(term) == term
  {
    XslNameIsStrip(term);
    StripClean(term);
  }

  /** The fixed part of getXSLType's table. */
  const BuiltInTypes: map<string, string> := map[
    "Count" := "xsd:integer", "DateTime" := "xsd:dateTime", "Duration" := "xsd:duration",
    "Numeric" := "xsd:double", "Text" := "xsd:string", "URL" := "xsd:anyURI",
    "Boundary" := "spase:typeBoundary", "Value" := "spase:typeValue",
    "Sequence" := "spase:typeSequence", "StringSequence" := "spase:typeStringSequence",
    "FloatSequence" := "spase:typeFloatSequence", "ID" := "spase:typeID",
    "Date" := "xsd:date", "Time" := "xsd:time"]

  /** getXSLType: the schema type for a dictionary type. */
  function XslType(dtype: string, namespace: string, name: string): (r: string)
    ensures dtype == "Container" ==> r == namespace + ":" + name
    ensures dtype != "Container" ==> "xsd:" <= r || "spase:" <= r
  {
    if dtype == "Container" then namespace + ":" + name
    else if dtype == "Count" then "xsd:integer"
    else if dtype == "DateTime" then "xsd:dateTime"
    else if dtype == "Duration" then "xsd:duration"
    else if dtype == "Numeric" then "xsd:double"
    else if dtype == "Text" then "xsd:string"
    else if dtype == "URL" then "xsd:anyURI"
    else if dtype == "Boundary" then "spase:typeBoundary"
    else if dtype == "Value" then "spase:typeValue"
    else if dtype == "Sequence" then "spase:typeSequence"
    else if dtype == "StringSequence" then "spase:typeStringSequence"
    else if dtype == "FloatSequence" then "spase:typeFloatSequence"
    else if dtype == "ID" then "spase:typeID"
    else if dtype == "Date" then "xsd:date"
    else if dtype == "Time" then "xsd:time"
    else "xsd:string"
  }

  /** getXSLType agrees with the table, and every type outside it (other than
      Container) is a string. */
  lemma XslTypeTable(dtype: string, namespace: string, name: string)
    requires dtype != "Container"
    ensures dtype in BuiltInTypes ==> XslType(dtype, namespace, name) == BuiltInTypes[dtype]
    ensures dtype !in BuiltInTypes ==> XslType(dtype, namespace, name) == "xsd:string"
  {
  }

  const Optional := "minOccurs=\"0\" maxOccurs=\"1\""
  const Exactly := "minOccurs=\"1\" maxOccurs=\"1\""
  const AtLeastOne := "minOccurs=\"1\" maxOccurs=\"unbounded\""
  const AnyNumber := "minOccurs=\"0\" maxOccurs=\"unbounded\""

  /** getXSLOccurrence on the trimmed code. The fourth test is a comma
      expression whose value is the always-true "*", so every code other
      than 0, 1 and + falls into it and the final empty default never
      returns. */
  function XslOccurrence(occur: string): (r: string)
    ensures r in {Optional, Exactly, AtLeastOne, AnyNumber}
  {
    var t := Trim(occur);
    if t == "0" then Optional
    else if t == "1" then Exactly
    else if t == "+" then AtLeastOne
    else AnyNumber
  }

  /** The clause depends only on the trimmed code, and anything but 0, 1 and
      + (including "*") allows any number. */
  lemma OccurrenceOfTrimmed(occur: string)
    ensures XslOccurrence(Trim(occur)) == XslOccurrence(occur)
    ensures Trim(occur) !in {"0", "1", "+"} ==> XslOccurrence(occur) == AnyNumber
    ensures XslOccurrence(occur) != ""
  {
    TrimIdempotent(occur);
  }
}
