/**
 * The grouping of a container's children into `<xsd:choice>` blocks (and of
 * all grouped children into `<xsd:group>` definitions), as a sequence of
 * events: a block opens, a child is written inside or outside a block, a
 * block closes. The reference definition puts one block around each maximal
 * run of children sharing a non-empty group tag; the emitters' cursor loops
 * are proved against it through the step lemmas below.
 */
module Choices {

  import opened Sequences
  import opened JsObject
  import opened InfoModel

  function Group(c: OntologyDef): string {
    c.group
  }

  datatype Event =
    | Open(first: OntologyDef)
    | Close
    | Item(child: OntologyDef, inRun: bool)

  function Items(r: seq<OntologyDef>, inRun: bool): (evs: seq<Event>)
    ensures |evs| == |r|
    decreases |r|
  {
    if r == [] then [] else [Item(r[0], inRun)] + Items(r[1..], inRun)
  }

  /** The events of one run: a block around it when its group is non-empty,
      the bare children otherwise. */
  function RunEvents(r: seq<OntologyDef>): seq<Event> {
    if r == [] then []
    else if r[0].group != "" then [Open(r[0])] + Items(r, true) + [Close]
    else Items(r, false)
  }

  function RunsEvents(runs: seq<seq<OntologyDef>>): seq<Event>
    decreases |runs|
  {
    if runs == [] then [] else RunsEvents(runs[..|runs| - 1]) + RunEvents(runs[|runs| - 1])
  }

  /** The reference: one block per maximal run of equal group tags. */
  function ChoiceEvents(cs: seq<OntologyDef>): seq<Event> {
    RunsEvents(RunsOf(cs, Group))
  }

  /** The events written so far while the last run is still open. */
  function OpenRun(r: seq<OntologyDef>): seq<Event> {
    if r == [] then []
    else if r[0].group != "" then [Open(r[0])] + Items(r, true)
    else Items(r, false)
  }

  function OpenEvents(cs: seq<OntologyDef>): seq<Event> {
    var runs: seq<seq<OntologyDef>> := RunsOf(cs, Group);
    if runs == [] then [] else RunsEvents(runs[..|runs| - 1]) + OpenRun(runs[|runs| - 1])
  }

  /** The cursor of the emitters: the group of the previous child. */
  function LastGroup(cs: seq<OntologyDef>): string {
    if cs == [] then "" else cs[|cs| - 1].group
  }

  /** What one loop step writes, given the cursor: close a block whose group
      ends, open a block whose group starts, then the child. */
  function Step(prev: string, x: OntologyDef): seq<Event> {
    (if prev != "" && x.group != prev then [Close] else [])
    + (if x.group != "" && x.group != prev then [Open(x)] else [])
    + [Item(x, x.group != "")]
  }

  lemma {:induction false} ItemsAppend(r: seq<OntologyDef>, s: seq<OntologyDef>, inRun: bool)
    ensures Items(r + s, inRun) == Items(r, inRun) + Items(s, inRun)
    decreases |r|
  {
    if r != [] {
      assert (r + s)[1..] == r[1..] + s;
      ItemsAppend(r[1..], s, inRun);
    } else {
      assert r + s == s;
    }
  }

  lemma StepFirst(x: OntologyDef)
    ensures OpenEvents([x]) == Step("", x)
  {
    assert [x][..0] == [];
    assert RunsOf([x], Group) == [[x]];
    assert Items([x], true) == [Item(x, true)] + Items([], true);
    assert Items([x], false) == [Item(x, false)] + Items([], false);
  }

  /** How the runs grow by one child, with the facts about the last run the
      step lemmas use. */
  lemma RunsSnoc(cs: seq<OntologyDef>, x: OntologyDef)
    requires cs != []
    ensures RunsOf(cs, Group) != []
    ensures var runs := RunsOf(cs, Group);
            var r := runs[|runs| - 1];
            && r != []
            && r[0].group == cs[|cs| - 1].group
            && RunsOf(cs + [x], Group) ==
                 if cs[|cs| - 1].group == x.group then runs[..|runs| - 1] + [r + [x]] else runs + [[x]]
  {
    var s := cs + [x];
    assert s[..|s| - 1] == cs;
    assert s[|s| - 2] == cs[|cs| - 1];
    var runs: seq<seq<OntologyDef>> := RunsOf(cs, Group);
    RunsMaximal(cs, Group);
    var r := runs[|runs| - 1];
    assert r[|r| - 1] == cs[|cs| - 1];
    assert Group(r[0]) == Group(r[|r| - 1]);
  }

  lemma ItemsOne(x: OntologyDef, b: bool)
    ensures Items([x], b) == [Item(x, b)]
  {
    assert Items([x], b) == [Item(x, b)] + Items([], b);
  }

  /** A child continuing a run's group joins the run. */
  lemma JoinRun(r: seq<OntologyDef>, x: OntologyDef)
    requires r != [] && r[0].group == x.group
    ensures OpenRun(r + [x]) == OpenRun(r) + Step(r[0].group, x)
  {
    var b := x.group != "";
    ItemsAppend(r, [x], b);
    ItemsOne(x, b);
    assert (r + [x])[0] == r[0];
  }

  /** A child of another group starts a run, after the old run's close. */
  lemma StartRun(r: seq<OntologyDef>, x: OntologyDef)
    requires r != [] && r[0].group != x.group
    ensures RunEvents(r) + OpenRun([x]) == OpenRun(r) + Step(r[0].group, x)
  {
    var b := x.group != "";
    ItemsOne(x, b);
    var close: seq<Event> := if r[0].group != "" then [Close] else [];
    assert RunEvents(r) == OpenRun(r) + close;
    if b {
      assert OpenRun([x]) == [Open(x)] + [Item(x, b)];
      assert Step(r[0].group, x) == close + ([Open(x)] + [Item(x, b)]);
    } else {
      assert OpenRun([x]) == [Item(x, b)];
      assert Step(r[0].group, x) == close + [Item(x, b)];
    }
  }

  /** A child continuing the last run's group joins that run. */
  lemma StepExtend(cs: seq<OntologyDef>, x: OntologyDef)
    requires cs != [] && cs[|cs| - 1].group == x.group
    ensures OpenEvents(cs + [x]) == OpenEvents(cs) + Step(LastGroup(cs), x)
  {
    RunsSnoc(cs, x);
    var runs: seq<seq<OntologyDef>> := RunsOf(cs, Group);
    var r := runs[|runs| - 1];
    var runs' := RunsOf(cs + [x], Group);
    var front := runs[..|runs| - 1];
    assert runs'[..|runs'| - 1] == front;
    assert runs'[|runs'| - 1] == r + [x];
    JoinRun(r, x);
  }

  /** A child of another group starts a new run, closing a block first. */
  lemma StepNew(cs: seq<OntologyDef>, x: OntologyDef)
    requires cs != [] && cs[|cs| - 1].group != x.group
    ensures OpenEvents(cs + [x]) == OpenEvents(cs) + Step(LastGroup(cs), x)
  {
    RunsSnoc(cs, x);
    var runs: seq<seq<OntologyDef>> := RunsOf(cs, Group);
    var r := runs[|runs| - 1];
    var runs' := RunsOf(cs + [x], Group);
    var front := runs[..|runs| - 1];
    assert runs'[..|runs'| - 1] == runs;
    assert runs'[|runs'| - 1] == [x];
    assert runs == front + [r];
    StartRun(r, x);
    assert RunsEvents(runs) == RunsEvents(front) + RunEvents(r);
    assert OpenEvents(cs + [x]) == RunsEvents(runs) + OpenRun([x]);
    AppendAssoc(RunsEvents(front), RunEvents(r), OpenRun([x]));
    AppendAssoc(RunsEvents(front), OpenRun(r), Step(LastGroup(cs), x));
  }

  /** One loop step extends the open form by exactly the step's events. */
  lemma OpenStep(cs: seq<OntologyDef>, x: OntologyDef)
    ensures OpenEvents(cs + [x]) == OpenEvents(cs) + Step(LastGroup(cs), x)
  {
    if cs == [] {
      StepFirst(x);
      assert cs + [x] == [x];
    } else if cs[|cs| - 1].group == x.group {
      StepExtend(cs, x);
    } else {
      StepNew(cs, x);
    }
  }

  /** After the loop, closing a still open block gives the reference. */
  lemma OpenClose(cs: seq<OntologyDef>)
    ensures ChoiceEvents(cs) == OpenEvents(cs) + (if LastGroup(cs) != "" then [Close] else [])
  {
    if cs != [] {
      var runs := RunsOf(cs, Group);
      RunsMaximal(cs, Group);
      var r := runs[|runs| - 1];
      assert r[|r| - 1] == cs[|cs| - 1];
      assert r[0].group == cs[|cs| - 1].group;
    }
  }

  /** The children written, in order. */
  function Children(evs: seq<Event>): seq<OntologyDef>
    decreases |evs|
  {
    if evs == [] then [] else (if evs[0].Item? then [evs[0].child] else []) + Children(evs[1..])
  }

  lemma {:induction false} ChildrenAppend(a: seq<Event>, b: seq<Event>)
    ensures Children(a + b) == Children(a) + Children(b)
    decreases |a|
  {
    if a != [] {
      assert (a + b)[1..] == a[1..] + b;
      ChildrenAppend(a[1..], b);
    } else {
      assert a + b == b;
    }
  }

  lemma {:induction false} ChildrenItems(r: seq<OntologyDef>, inRun: bool)
    ensures Children(Items(r, inRun)) == r
    decreases |r|
  {
    if r != [] {
      ChildrenItems(r[1..], inRun);
      assert Items(r, inRun)[1..] == Items(r[1..], inRun);
    }
  }

  lemma {:induction false} ChildrenRuns(runs: seq<seq<OntologyDef>>)
    ensures Children(RunsEvents(runs)) == Flatten(runs)
    decreases |runs|
  {
    if runs != [] {
      var r := runs[|runs| - 1];
      ChildrenRuns(runs[..|runs| - 1]);
      ChildrenAppend(RunsEvents(runs[..|runs| - 1]), RunEvents(r));
      if r != [] {
        ChildrenItems(r, r[0].group != "");
        if r[0].group != "" {
          ChildrenAppend([Open(r[0])], Items(r, true));
          ChildrenAppend([Open(r[0])] + Items(r, true), [Close]);
        }
      }
    }
  }

  /** Every child is written exactly once, in the container's key order. */
  lemma ChoicesKeepChildren(cs: seq<OntologyDef>)
    ensures Children(ChoiceEvents(cs)) == cs
  {
    ChildrenRuns(RunsOf(cs, Group));
    RunsFlatten(cs, Group);
  }

  /** The well-formedness of a block structure, read left to right with the
      open block's group `cur` and the group `prev` of the previous child:
      blocks never nest and are all closed; a block opens right before its
      first child, holds only children of its own non-empty group, and never
      continues the group of the child before it; children inside a block
      are flagged as such (and so get no occurrence clause), ungrouped
      children are outside every block. */
  predicate Scan(evs: seq<Event>, cur: Option<string>, prev: string)
    decreases |evs|
  {
    if evs == [] then cur.None?
    else match evs[0]
      case Open(c) =>
        && cur.None? && c.group != "" && c.group != prev
        && |evs| > 1 && evs[1] == Item(c, true)
        && Scan(evs[1..], Some(c.group), prev)
      case Close => cur.Some? && Scan(evs[1..], None, prev)
      case Item(c, inRun) =>
        && inRun == cur.Some?
        && c.group == (if cur.Some? then cur.value else "")
        && Scan(evs[1..], cur, c.group)
  }

  /** The group of the last child written, or `p` when none is. */
  function LastChildGroup(evs: seq<Event>, p: string): string
    decreases |evs|
  {
    if evs == [] then p else LastChildGroup(evs[1..], if evs[0].Item? then evs[0].child.group else p)
  }

  lemma {:induction false} ScanAppend(a: seq<Event>, b: seq<Event>, cur: Option<string>, p: string)
    requires Scan(a, cur, p)
    requires Scan(b, None, LastChildGroup(a, p))
    ensures Scan(a + b, cur, p)
    ensures LastChildGroup(a + b, p) == LastChildGroup(b, LastChildGroup(a, p))
    decreases |a|
  {
    if a != [] {
      assert (a + b)[1..] == a[1..] + b;
      assert (a + b)[0] == a[0];
      match a[0]
      case Open(c) =>
        assert (a + b)[1] == a[1];
        ScanAppend(a[1..], b, Some(c.group), p);
      case Close =>
        ScanAppend(a[1..], b, None, p);
      case Item(c, inRun) =>
        ScanAppend(a[1..], b, cur, c.group);
    } else {
      assert a + b == b;
    }
  }

  lemma {:induction false} ScanItems(r: seq<OntologyDef>, g: string, cur: Option<string>, p: string, tail: seq<Event>)
    requires r != []
    requires cur == (if g != "" then Some(g) else None)
    requires forall j | 0 <= j < |r| :: r[j].group == g
    requires Scan(tail, cur, g)
    ensures Scan(Items(r, g != "") + tail, cur, p)
    ensures LastChildGroup(Items(r, g != "") + tail, p) == LastChildGroup(tail, g)
    decreases |r|
  {
    var b := g != "";
    var head := Item(r[0], b);
    var rest := Items(r[1..], b) + tail;
    var evs := Items(r, b) + tail;
    assert Items(r, b) == [head] + Items(r[1..], b);
    assert evs == [head] + rest;
    assert evs[0] == head && evs[1..] == rest;
    if |r| > 1 {
      ScanItems(r[1..], g, cur, g, tail);
    } else {
      assert r[1..] == [];
      assert rest == tail;
    }
    assert Scan(rest, cur, g);
    assert LastChildGroup(evs, p) == LastChildGroup(rest, g);
  }

  lemma ScanRun(r: seq<OntologyDef>, p: string)
    requires r != []
    requires forall j | 0 <= j < |r| :: r[j].group == r[0].group
    requires r[0].group != "" ==> r[0].group != p
    ensures Scan(RunEvents(r), None, p)
    ensures LastChildGroup(RunEvents(r), p) == r[0].group
  {
    var g := r[0].group;
    if g != "" {
      ScanItems(r, g, Some(g), p, [Close]);
      var body := Items(r, true) + [Close];
      assert RunEvents(r) == [Open(r[0])] + body;
      assert RunEvents(r)[1..] == body;
      assert body[0] == Item(r[0], true);
      assert [Close][1..] == [];
    } else {
      ScanItems(r, g, None, p, []);
      assert Items(r, false) + [] == Items(r, false);
    }
  }

  lemma {:induction false} ScanRuns(runs: seq<seq<OntologyDef>>)
    requires MaximalRuns(runs, Group)
    requires forall i | 0 <= i < |runs| :: runs[i] != []
    ensures Scan(RunsEvents(runs), None, "")
    ensures LastChildGroup(RunsEvents(runs), "") == (if runs == [] then "" else runs[|runs| - 1][0].group)
    decreases |runs|
  {
    if runs != [] {
      var init := runs[..|runs| - 1];
      var r := runs[|runs| - 1];
      assert forall i | 0 <= i < |init| :: init[i] == runs[i];
      ScanRuns(init);
      var p := LastChildGroup(RunsEvents(init), "");
      assert forall j | 0 <= j < |r| :: Group(r[j]) == Group(r[0]);
      if init != [] {
        assert p == Group(runs[|runs| - 2][0]);
      }
      ScanRun(r, p);
      ScanAppend(RunsEvents(init), RunEvents(r), None, "");
    }
  }

  /** The reference blocks are well formed in the sense of Scan. */
  lemma ChoicesWellFormed(cs: seq<OntologyDef>)
    ensures Scan(ChoiceEvents(cs), None, "")
  {
    RunsMaximal(cs, Group);
    ScanRuns(RunsOf(cs, Group));
  }

  function Opens(evs: seq<Event>): nat
    decreases |evs|
  {
    if evs == [] then 0 else (if evs[0].Open? then 1 else 0) + Opens(evs[1..])
  }

  function Closes(evs: seq<Event>): nat
    decreases |evs|
  {
    if evs == [] then 0 else (if evs[0].Close? then 1 else 0) + Closes(evs[1..])
  }

  /** A well-formed structure closes every block it opens. */
  lemma {:induction false} ScanBalanced(evs: seq<Event>, cur: Option<string>, p: string)
    requires Scan(evs, cur, p)
    ensures Opens(evs) + (if cur.Some? then 1 else 0) == Closes(evs)
    decreases |evs|
  {
    if evs != [] {
      match evs[0]
      case Open(c) => ScanBalanced(evs[1..], Some(c.group), p);
      case Close => ScanBalanced(evs[1..], None, p);
      case Item(c, _) => ScanBalanced(evs[1..], cur, c.group);
    }
  }

  /** Within one complexType, as many choices open as close. */
  lemma ChoicesBalanced(cs: seq<OntologyDef>)
    ensures Opens(ChoiceEvents(cs)) == Closes(ChoiceEvents(cs))
  {
    ChoicesWellFormed(cs);
    ScanBalanced(ChoiceEvents(cs), None, "");
  }
}
