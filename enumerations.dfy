/**
 * The enumeration values written for a closed list: the members of the
 * list's member set in key order, each qualified by the value of the member
 * it is nested under, each followed at once by the values of its own member
 * set when it has one. A member missing from the dictionary leaves its
 * opening tag unclosed and ends the list (the exception raised when its
 * definition is read is caught once, for the whole loop).
 */
module Enumerations {

  import opened Sequences
  import opened JsObject
  import opened InfoModel
  import opened XsdNames

  /** One `<xsd:enumeration>` entry at output indent `indent`; `desc` is the
      definition written inside it, None when the opening tag stays unclosed. */
  datatype Entry = Entry(indent: nat, value: string, term: string, desc: Option<string>)

  datatype Written = Written(entries: seq<Entry>, log: seq<Diagnostic>)

  function Concat(a: Written, b: Written): Written {
    Written(a.entries + b.entries, a.log + b.log)
  }

  /** makeEnum has no cycle guard: the nesting of member sets (a member
      naming a member set) must be well founded, witnessed by a rank that
      decreases from a set to every nested one. */
  ghost predicate Ranked(member: MemberSets, rank: map<string, nat>) {
    forall l | l in member.vals ::
      && l in rank
      && forall t | t in member.vals[l].vals && t in member.vals :: t in rank && rank[t] < rank[l]
  }

  /** The value of `term` nested under `prefix`. */
  function Qualify(prefix: string, term: string): string {
    (if prefix != "" then prefix + "." else "") + XslName(term)
  }

  /** Some key of `ks` is not a dictionary term. */
  predicate Halted(dict: JsObj<Term>, ks: seq<string>) {
    exists i | 0 <= i < |ks| :: ks[i] !in dict.vals
  }

  /** makeEnum(indent, model, prefix, list). */
  ghost function Enum(member: MemberSets, dict: JsObj<Term>, rank: map<string, nat>,
                      indent: nat, prefix: string, list: string): Written
    requires Ranked(member, rank)
    decreases if list in rank then rank[list] else 0, 1, 0
  {
    if list !in member.vals then Written([], [NoMembers(list)])
    else Entries(member, dict, rank, indent, prefix, list, member.vals[list].keys)
  }

  /** The loop of makeEnum over the member keys `ks`. */
  ghost function Entries(member: MemberSets, dict: JsObj<Term>, rank: map<string, nat>,
                         indent: nat, prefix: string, list: string, ks: seq<string>): Written
    requires Ranked(member, rank)
    requires list in member.vals
    decreases rank[list], 0, |ks|
  {
    if ks == [] then Written([], [])
    else
      var pre := Entries(member, dict, rank, indent, prefix, list, ks[..|ks| - 1]);
      if Halted(dict, ks[..|ks| - 1]) then pre
      else Concat(pre, Member(member, dict, rank, indent, prefix, list, ks[|ks| - 1]))
  }

  /** One iteration: the member's entry, then its nested set. (A key of the
      set is always one of its members; the second test gives the nesting
      its measure.) */
  ghost function Member(member: MemberSets, dict: JsObj<Term>, rank: map<string, nat>,
                        indent: nat, prefix: string, list: string, term: string): Written
    requires Ranked(member, rank)
    requires list in member.vals
    decreases rank[list], 0, 0
  {
    var value := Qualify(prefix, term);
    if term !in dict.vals then
      Written([Entry(indent + 1, value, term, None)], [MemberUndefined(list, term), EnumAborted(term, list)])
    else
      var nested := if term in member.vals && term in member.vals[list].vals
                    then Enum(member, dict, rank, indent + 1, value, term) else Written([], []);
      Written([Entry(indent + 1, value, term, Some(dict.vals[term].definition))] + nested.entries, nested.log)
  }

  /** Every entry carries its term's definition, or none (an unclosed tag)
      exactly when the term is missing from the dictionary. */
  ghost predicate Described(dict: JsObj<Term>, es: seq<Entry>) {
    forall i | 0 <= i < |es| ::
      es[i].desc == if es[i].term in dict.vals then Some(dict.vals[es[i].term].definition) else None
  }

  lemma DescribedAppend(dict: JsObj<Term>, a: seq<Entry>, b: seq<Entry>)
    requires Described(dict, a) && Described(dict, b)
    ensures Described(dict, a + b)
  {
    forall i | 0 <= i < |a + b|
      ensures (a + b)[i].desc == if (a + b)[i].term in dict.vals then Some(dict.vals[(a + b)[i].term].definition) else None
    {
      if i < |a| { assert (a + b)[i] == a[i]; } else { assert (a + b)[i] == b[i - |a|]; }
    }
  }

  lemma {:induction false} EnumDescribed(member: MemberSets, dict: JsObj<Term>, rank: map<string, nat>,
                                         indent: nat, prefix: string, list: string)
    requires Ranked(member, rank)
    ensures Described(dict, Enum(member, dict, rank, indent, prefix, list).entries)
    decreases if list in rank then rank[list] else 0, 1, 0
  {
    if list in member.vals {
      EntriesDescribed(member, dict, rank, indent, prefix, list, member.vals[list].keys);
    }
  }

  lemma {:induction false} EntriesDescribed(member: MemberSets, dict: JsObj<Term>, rank: map<string, nat>,
                                            indent: nat, prefix: string, list: string, ks: seq<string>)
    requires Ranked(member, rank)
    requires list in member.vals
    requires forall i | 0 <= i < |ks| :: ks[i] in member.vals[list].vals
    ensures Described(dict, Entries(member, dict, rank, indent, prefix, list, ks).entries)
    decreases rank[list], 0, |ks|
  {
    if ks != [] {
      EntriesDescribed(member, dict, rank, indent, prefix, list, ks[..|ks| - 1]);
      if !Halted(dict, ks[..|ks| - 1]) {
        MemberDescribed(member, dict, rank, indent, prefix, list, ks[|ks| - 1]);
        DescribedAppend(dict, Entries(member, dict, rank, indent, prefix, list, ks[..|ks| - 1]).entries,
                        Member(member, dict, rank, indent, prefix, list, ks[|ks| - 1]).entries);
      }
    }
  }

  lemma {:induction false} MemberDescribed(member: MemberSets, dict: JsObj<Term>, rank: map<string, nat>,
                                           indent: nat, prefix: string, list: string, term: string)
    requires Ranked(member, rank)
    requires list in member.vals && term in member.vals[list].vals
    ensures Described(dict, Member(member, dict, rank, indent, prefix, list, term).entries)
    decreases rank[list], 0, 0
  {
    var value := Qualify(prefix, term);
    if term in dict.vals && term in member.vals {
      EnumDescribed(member, dict, rank, indent + 1, value, term);
      var e := Entry(indent + 1, value, term, Some(dict.vals[term].definition));
      DescribedAppend(dict, [e], Enum(member, dict, rank, indent + 1, value, term).entries);
    }
  }

  /** Every entry is indented below the call's own level and its value is
      qualified by the call's prefix; the entries at the first level are the
      members themselves. */
  ghost predicate Qualified(indent: nat, prefix: string, es: seq<Entry>) {
    forall i | 0 <= i < |es| ::
      && es[i].indent > indent
      && (prefix != "" ==> prefix + "." <= es[i].value)
      && (es[i].indent == indent + 1 ==> es[i].value == Qualify(prefix, es[i].term))
  }

  lemma QualifiedAppend(indent: nat, prefix: string, a: seq<Entry>, b: seq<Entry>)
    requires Qualified(indent, prefix, a) && Qualified(indent, prefix, b)
    ensures Qualified(indent, prefix, a + b)
  {
    forall i | 0 <= i < |a + b|
      ensures (a + b)[i].indent > indent
      ensures prefix != "" ==> prefix + "." <= (a + b)[i].value
      ensures (a + b)[i].indent == indent + 1 ==> (a + b)[i].value == Qualify(prefix, (a + b)[i].term)
    {
      if i < |a| { assert (a + b)[i] == a[i]; } else { assert (a + b)[i] == b[i - |a|]; }
    }
  }

  lemma PrefixTrans(a: string, b: string, c: string)
    requires a <= b && b <= c
    ensures a <= c
  {
    assert c[..|a|] == b[..|a|];
  }

  /** Entries nested under `value` are qualified under `prefix` as well. */
  lemma QualifiedNested(indent: nat, prefix: string, term: string, es: seq<Entry>)
    requires Qualified(indent + 1, Qualify(prefix, term), es)
    ensures forall i | 0 <= i < |es| :: es[i].indent > indent + 1 && (prefix != "" ==> prefix + "." <= es[i].value)
  {
    var value := Qualify(prefix, term);
    forall i | 0 <= i < |es| ensures prefix != "" ==> prefix + "." <= es[i].value {
      if prefix != "" {
        assert prefix + "." <= value;
        assert value + "." <= es[i].value;
        assert value <= value + ".";
        PrefixTrans(value, value + ".", es[i].value);
        PrefixTrans(prefix + ".", value, es[i].value);
      }
    }
  }

  lemma {:induction false} EnumQualified(member: MemberSets, dict: JsObj<Term>, rank: map<string, nat>,
                                         indent: nat, prefix: string, list: string)
    requires Ranked(member, rank)
    ensures Qualified(indent, prefix, Enum(member, dict, rank, indent, prefix, list).entries)
    decreases if list in rank then rank[list] else 0, 1, 0
  {
    if list in member.vals {
      EntriesQualified(member, dict, rank, indent, prefix, list, member.vals[list].keys);
    }
  }

  lemma {:induction false} EntriesQualified(member: MemberSets, dict: JsObj<Term>, rank: map<string, nat>,
                                            indent: nat, prefix: string, list: string, ks: seq<string>)
    requires Ranked(member, rank)
    requires list in member.vals
    requires forall i | 0 <= i < |ks| :: ks[i] in member.vals[list].vals
    ensures Qualified(indent, prefix, Entries(member, dict, rank, indent, prefix, list, ks).entries)
    decreases rank[list], 0, |ks|
  {
    if ks != [] {
      EntriesQualified(member, dict, rank, indent, prefix, list, ks[..|ks| - 1]);
      if !Halted(dict, ks[..|ks| - 1]) {
        MemberQualified(member, dict, rank, indent, prefix, list, ks[|ks| - 1]);
        QualifiedAppend(indent, prefix, Entries(member, dict, rank, indent, prefix, list, ks[..|ks| - 1]).entries,
                        Member(member, dict, rank, indent, prefix, list, ks[|ks| - 1]).entries);
      }
    }
  }

  lemma {:induction false} MemberQualified(member: MemberSets, dict: JsObj<Term>, rank: map<string, nat>,
                                           indent: nat, prefix: string, list: string, term: string)
    requires Ranked(member, rank)
    requires list in member.vals && term in member.vals[list].vals
    ensures Qualified(indent, prefix, Member(member, dict, rank, indent, prefix, list, term).entries)
    decreases rank[list], 0, 0
  {
    var value := Qualify(prefix, term);
    assert prefix != "" ==> prefix + "." <= value;
    if term in dict.vals && term in member.vals {
      var nested := Enum(member, dict, rank, indent + 1, value, term).entries;
      EnumQualified(member, dict, rank, indent + 1, value, term);
      QualifiedNested(indent, prefix, term, nested);
      var e := Entry(indent + 1, value, term, Some(dict.vals[term].definition));
      assert Qualified(indent, prefix, nested);
      QualifiedAppend(indent, prefix, [e], nested);
    }
  }

  /** Once a key is missing from the dictionary, the later keys write
      nothing. */
  lemma {:induction false} EntriesHalted(member: MemberSets, dict: JsObj<Term>, rank: map<string, nat>,
                                         indent: nat, prefix: string, list: string, ks: seq<string>, i: nat)
    requires Ranked(member, rank)
    requires list in member.vals
    requires forall j | 0 <= j < |ks| :: ks[j] in member.vals[list].vals
    requires i <= |ks| && Halted(dict, ks[..i])
    ensures Entries(member, dict, rank, indent, prefix, list, ks) == Entries(member, dict, rank, indent, prefix, list, ks[..i])
    decreases |ks|
  {
    if i == |ks| {
      assert ks[..i] == ks;
    } else {
      var init := ks[..|ks| - 1];
      assert init[..i] == ks[..i];
      var j :| 0 <= j < i && ks[..i][j] !in dict.vals;
      assert init[j] !in dict.vals;
      EntriesHalted(member, dict, rank, indent, prefix, list, init, i);
    }
  }

  /** The terms of the entries at indent `d`, in order. */
  function TopTerms(es: seq<Entry>, d: nat): seq<string>
    decreases |es|
  {
    if es == [] then [] else TopTerms(es[..|es| - 1], d) + (if es[|es| - 1].indent == d then [es[|es| - 1].term] else [])
  }

  lemma {:induction false} TopTermsAppend(a: seq<Entry>, b: seq<Entry>, d: nat)
    ensures TopTerms(a + b, d) == TopTerms(a, d) + TopTerms(b, d)
    decreases |b|
  {
    if b != [] {
      assert (a + b)[..|a + b| - 1] == a + b[..|b| - 1];
      TopTermsAppend(a, b[..|b| - 1], d);
    } else {
      assert a + b == a;
    }
  }

  lemma {:induction false} TopTermsDeeper(es: seq<Entry>, d: nat)
    requires forall i | 0 <= i < |es| :: es[i].indent > d
    ensures TopTerms(es, d) == []
    decreases |es|
  {
    if es != [] {
      TopTermsDeeper(es[..|es| - 1], d);
    }
  }

  /** The number of keys up to and including the first one missing from
      the dictionary (all of them when none is missing). */
  function StopAt(dict: JsObj<Term>, ks: seq<string>): (n: nat)
    ensures n <= |ks|
    decreases |ks|
  {
    if ks == [] then 0 else if ks[0] !in dict.vals then 1 else 1 + StopAt(dict, ks[1..])
  }

  lemma {:induction false} StopAtSnoc(dict: JsObj<Term>, ks: seq<string>, k: string)
    ensures !Halted(dict, ks) ==> StopAt(dict, ks + [k]) == |ks| + 1
    ensures Halted(dict, ks) ==> StopAt(dict, ks + [k]) == StopAt(dict, ks)
    ensures !Halted(dict, ks) ==> StopAt(dict, ks) == |ks|
    decreases |ks|
  {
    if ks != [] {
      assert (ks + [k])[1..] == ks[1..] + [k];
      StopAtSnoc(dict, ks[1..], k);
      if Halted(dict, ks[1..]) {
        var i :| 0 <= i < |ks[1..]| && ks[1..][i] !in dict.vals;
        assert ks[i + 1] !in dict.vals;
      }
      if ks[0] in dict.vals && Halted(dict, ks) {
        var i :| 0 <= i < |ks| && ks[i] !in dict.vals;
        assert ks[1..][i - 1] !in dict.vals;
      }
    }
  }

  /** The set's own members are written in member-set order, up to and
      including the first one missing from the dictionary; none after it. */
  lemma {:induction false} EntriesTopLevel(member: MemberSets, dict: JsObj<Term>, rank: map<string, nat>,
                                           indent: nat, prefix: string, list: string, ks: seq<string>)
    requires Ranked(member, rank)
    requires list in member.vals
    ensures TopTerms(Entries(member, dict, rank, indent, prefix, list, ks).entries, indent + 1) == ks[..StopAt(dict, ks)]
    decreases |ks|
  {
    if ks != [] {
      var init := ks[..|ks| - 1];
      EntriesTopLevel(member, dict, rank, indent, prefix, list, init);
      StopAtLast(dict, ks);
      EntriesSnoc(member, dict, rank, indent, prefix, list, ks);
      if !Halted(dict, init) {
        var pre := Entries(member, dict, rank, indent, prefix, list, init).entries;
        var me := Member(member, dict, rank, indent, prefix, list, ks[|ks| - 1]).entries;
        MemberTop(member, dict, rank, indent, prefix, list, ks[|ks| - 1]);
        TopLevelJoin(pre, me, indent + 1, ks);
      }
    }
  }

  /** How the count of keys written grows by one key. */
  lemma StopAtLast(dict: JsObj<Term>, ks: seq<string>)
    requires ks != []
    ensures Halted(dict, ks[..|ks| - 1]) ==> ks[..StopAt(dict, ks)] == ks[..|ks| - 1][..StopAt(dict, ks[..|ks| - 1])]
    ensures !Halted(dict, ks[..|ks| - 1]) ==> StopAt(dict, ks) == |ks|
                                              && ks[..|ks| - 1][..StopAt(dict, ks[..|ks| - 1])] == ks[..|ks| - 1]
  {
    var init := ks[..|ks| - 1];
    assert ks == init + [ks[|ks| - 1]];
    StopAtSnoc(dict, init, ks[|ks| - 1]);
    if Halted(dict, init) {
      assert ks[..StopAt(dict, init)] == init[..StopAt(dict, init)];
    } else {
      assert init[..|init|] == init;
    }
  }

  lemma TopLevelJoin(pre: seq<Entry>, me: seq<Entry>, d: nat, ks: seq<string>)
    requires ks != []
    requires TopTerms(pre, d) == ks[..|ks| - 1] && TopTerms(me, d) == [ks[|ks| - 1]]
    ensures TopTerms(pre + me, d) == ks[..|ks|]
  {
    TopTermsAppend(pre, me, d);
    assert ks[..|ks|] == ks[..|ks| - 1] + [ks[|ks| - 1]];
  }

  /** One turn of the loop of makeEnum. */
  lemma EntriesSnoc(member: MemberSets, dict: JsObj<Term>, rank: map<string, nat>,
                    indent: nat, prefix: string, list: string, ks: seq<string>)
    requires Ranked(member, rank)
    requires list in member.vals && ks != []
    ensures Entries(member, dict, rank, indent, prefix, list, ks)
            == if Halted(dict, ks[..|ks| - 1]) then Entries(member, dict, rank, indent, prefix, list, ks[..|ks| - 1])
               else Concat(Entries(member, dict, rank, indent, prefix, list, ks[..|ks| - 1]),
                           Member(member, dict, rank, indent, prefix, list, ks[|ks| - 1]))
  {
  }

  /** A member written by the loop is the one entry at the loop's level. */
  lemma MemberTop(member: MemberSets, dict: JsObj<Term>, rank: map<string, nat>,
                  indent: nat, prefix: string, list: string, k: string)
    requires Ranked(member, rank)
    requires list in member.vals
    ensures TopTerms(Member(member, dict, rank, indent, prefix, list, k).entries, indent + 1) == [k]
  {
    var e := Entry(indent + 1, Qualify(prefix, k), k,
                   if k in dict.vals then Some(dict.vals[k].definition) else None);
    var m := Member(member, dict, rank, indent, prefix, list, k);
    assert TopTerms([e], indent + 1) == TopTerms([], indent + 1) + [k];
    if k in dict.vals && k in member.vals && k in member.vals[list].vals {
      var nested := Enum(member, dict, rank, indent + 1, Qualify(prefix, k), k).entries;
      EnumQualified(member, dict, rank, indent + 1, Qualify(prefix, k), k);
      TopTermsDeeper(nested, indent + 1);
      assert m.entries == [e] + nested;
      TopTermsAppend([e], nested, indent + 1);
    } else {
      assert m.entries == [e];
    }
  }

  /** A list without a member set writes nothing and reports it. */
  lemma EnumNoMembers(member: MemberSets, dict: JsObj<Term>, rank: map<string, nat>,
                      indent: nat, prefix: string, list: string)
    requires Ranked(member, rank)
    requires list !in member.vals
    ensures Enum(member, dict, rank, indent, prefix, list) == Written([], [NoMembers(list)])
  {
  }
}
