/**
 * Sequence utilities shared by both components: flattening, filtering, and
 * the decomposition of a sequence into maximal runs of equal key. The run
 * decomposition is the reference the adjacency-grouping code of the model
 * builder (member and ontology tables) and the choice/group detection of the
 * schema emitter are proved against.
 */
module Sequences {

  function Last<T>(s: seq<T>): T
    requires s != []
  {
    s[|s| - 1]
  }

  function Elems<T>(s: seq<T>): set<T> {
    set x | x in s
  }

  lemma ElemsAppend<T>(a: seq<T>, b: seq<T>)
    ensures Elems(a + b) == Elems(a) + Elems(b)
  {
  }

  lemma ElemsUnion<T>(w: set<T>, a: seq<T>, b: seq<T>)
    ensures w + Elems(a + b) == w + Elems(a) + Elems(b)
  {
    ElemsAppend(a, b);
  }

  ghost predicate Distinct<T>(s: seq<T>) {
    forall i, j | 0 <= i < j < |s| :: s[i] != s[j]
  }

  lemma DistinctAppend<T>(a: seq<T>, b: seq<T>)
    requires Distinct(a) && Distinct(b)
    requires forall x | x in a :: x !in b
    ensures Distinct(a + b)
  {
    forall i, j | 0 <= i < j < |a + b| ensures (a + b)[i] != (a + b)[j] {
      if j < |a| {
        assert (a + b)[i] == a[i] && (a + b)[j] == a[j];
      } else if i >= |a| {
        assert (a + b)[i] == b[i - |a|] && (a + b)[j] == b[j - |a|];
      } else {
        assert (a + b)[i] == a[i] && (a + b)[j] == b[j - |a|];
        assert a[i] in a;
      }
    }
  }

  lemma AppendAssoc<T>(a: seq<T>, b: seq<T>, c: seq<T>)
    ensures a + b + c == a + (b + c)
  {
  }

  lemma AppendEmpty<T>(l: seq<T>)
    ensures l + [] == l
  {
  }

  /** Elements appended one at a time form the display of those elements. */
  lemma Append2<T>(l: seq<T>, a: T, b: T)
    ensures l + [a] + [b] == l + [a, b]
  {
  }

  lemma Append3<T>(l: seq<T>, a: T, b: T, c: T)
    ensures l + [a] + [b] + [c] == l + [a, b, c]
  {
  }

  lemma Append4<T>(l: seq<T>, a: T, b: T, c: T, d: T)
    ensures l + [a] + [b] + [c] + [d] == l + [a, b, c, d]
  {
  }

  /** Concatenation of the pieces, in order. */
  function Flatten<T>(ss: seq<seq<T>>): seq<T>
    decreases |ss|
  {
    if ss == [] then [] else Flatten(ss[..|ss| - 1]) + ss[|ss| - 1]
  }

  lemma {:induction false} FlattenAppend<T>(a: seq<seq<T>>, b: seq<seq<T>>)
    ensures Flatten(a + b) == Flatten(a) + Flatten(b)
    decreases |b|
  {
    if b != [] {
      var b' := b[..|b| - 1];
      assert (a + b)[..|a + b| - 1] == a + b';
      FlattenAppend(a, b');
    } else {
      assert a + b == a;
    }
  }

  /** An element of the concatenation is an element of one of the pieces. */
  lemma {:induction false} FlattenMembers<T>(ss: seq<seq<T>>, x: T)
    ensures x in Flatten(ss) <==> exists j | 0 <= j < |ss| :: x in ss[j]
    decreases |ss|
  {
    if ss != [] {
      var init := ss[..|ss| - 1];
      FlattenMembers(init, x);
      if x in Flatten(ss) && x !in ss[|ss| - 1] {
        var j :| 0 <= j < |init| && x in init[j];
        assert x in ss[j];
      }
      if exists j | 0 <= j < |ss| :: x in ss[j] {
        var j :| 0 <= j < |ss| && x in ss[j];
        if j < |init| { assert x in init[j]; }
      }
    }
  }

  /** The elements satisfying `p`, in order. */
  function Filter<T>(s: seq<T>, p: T -> bool): (r: seq<T>)
    ensures |r| <= |s|
    decreases |s|
  {
    if s == [] then []
    else Filter(s[..|s| - 1], p) + (if p(s[|s| - 1]) then [s[|s| - 1]] else [])
  }

  lemma {:induction false} FilterAppend<T>(a: seq<T>, b: seq<T>, p: T -> bool)
    ensures Filter(a + b, p) == Filter(a, p) + Filter(b, p)
    decreases |b|
  {
    if b != [] {
      var b' := b[..|b| - 1];
      assert (a + b)[..|a + b| - 1] == a + b';
      FilterAppend(a, b', p);
    } else {
      assert a + b == a;
    }
  }

  /** An element is kept exactly when it occurs and satisfies `p`. */
  lemma {:induction false} FilterMembers<T>(s: seq<T>, p: T -> bool, x: T)
    ensures x in Filter(s, p) <==> x in s && p(x)
    decreases |s|
  {
    if s != [] {
      var init := s[..|s| - 1];
      FilterMembers(init, p, x);
      assert s == init + [s[|s| - 1]];
    }
  }

  /** Filtering keeps a sequence without repetitions free of repetitions. */
  lemma {:induction false} FilterDistinct<T>(s: seq<T>, p: T -> bool)
    requires Distinct(s)
    ensures Distinct(Filter(s, p))
    decreases |s|
  {
    if s != [] {
      var init := s[..|s| - 1];
      FilterDistinct(init, p);
      if p(s[|s| - 1]) {
        FilterMembers(init, p, s[|s| - 1]);
      }
    }
  }

  /** Maximal runs of consecutive elements with the same key, in order. */
  function RunsOf<T>(s: seq<T>, key: T -> string): (runs: seq<seq<T>>)
    ensures |runs| == 0 <==> |s| == 0
    decreases |s|
  {
    if s == [] then []
    else
      var init := RunsOf(s[..|s| - 1], key);
      var x := s[|s| - 1];
      if |s| > 1 && key(s[|s| - 2]) == key(x) then init[..|init| - 1] + [init[|init| - 1] + [x]]
      else init + [[x]]
  }

  /** The runs are non-empty, each has one key, two neighbouring runs have
      different keys, and the last run ends with the last element. */
  ghost predicate MaximalRuns<T>(runs: seq<seq<T>>, key: T -> string) {
    && (forall i | 0 <= i < |runs| :: runs[i] != [])
    && (forall i, j | 0 <= i < |runs| && 0 <= j < |runs[i]| :: key(runs[i][j]) == key(runs[i][0]))
    && (forall i | 0 <= i < |runs| - 1 :: key(runs[i][0]) != key(runs[i + 1][0]))
  }

  /** Extending the last sequence extends the concatenation. */
  lemma FlattenExtend<T>(r: seq<seq<T>>, x: T)
    requires r != []
    ensures Flatten(r[..|r| - 1] + [Last(r) + [x]]) == Flatten(r) + [x]
  {
    var front := r[..|r| - 1];
    var y := Last(r) + [x];
    assert (front + [y])[..|front + [y]| - 1] == front;
    assert Flatten(front + [y]) == Flatten(front) + y;
    AppendAssoc(Flatten(front), Last(r), [x]);
  }

  /** The runs put back together are the sequence. */
  lemma {:induction false} RunsFlatten<T>(s: seq<T>, key: T -> string)
    ensures Flatten(RunsOf(s, key)) == s
    decreases |s|
  {
    if s != [] {
      var init := s[..|s| - 1];
      var r := RunsOf(init, key);
      RunsFlatten(init, key);
      var x := s[|s| - 1];
      if |s| > 1 && key(s[|s| - 2]) == key(x) {
        FlattenExtend(r, x);
      } else {
        assert Flatten(r + [[x]]) == Flatten(r) + [x];
      }
      assert s == init + [x];
    }
  }

  /** An element with the key of the last run extends that run. */
  lemma ExtendRun<T>(r: seq<seq<T>>, x: T, key: T -> string)
    requires MaximalRuns(r, key) && r != [] && key(Last(Last(r))) == key(x)
    ensures MaximalRuns(r[..|r| - 1] + [Last(r) + [x]], key)
  {
    var runs := r[..|r| - 1] + [Last(r) + [x]];
    assert forall i | 0 <= i < |r| - 1 :: runs[i] == r[i];
    assert key(runs[|r| - 1][0]) == key(r[|r| - 1][0]);
  }

  /** An element with another key than the last run starts a run. */
  lemma StartNewRun<T>(r: seq<seq<T>>, x: T, key: T -> string)
    requires MaximalRuns(r, key) && (r != [] ==> key(Last(Last(r))) != key(x))
    ensures MaximalRuns(r + [[x]], key)
  {
    var runs := r + [[x]];
    assert forall i | 0 <= i < |r| :: runs[i] == r[i];
  }

  /** The runs are maximal. */
  lemma {:induction false} RunsMaximal<T>(s: seq<T>, key: T -> string)
    ensures MaximalRuns(RunsOf(s, key), key)
    ensures s != [] ==> Last(Last(RunsOf(s, key))) == Last(s)
    decreases |s|
  {
    if s != [] {
      var init := s[..|s| - 1];
      var r := RunsOf(init, key);
      RunsMaximal(init, key);
      var x := s[|s| - 1];
      if |s| > 1 && key(s[|s| - 2]) == key(x) {
        assert Last(Last(r)) == s[|s| - 2];
        ExtendRun(r, x, key);
      } else {
        if init != [] {
          assert Last(Last(r)) == s[|s| - 2];
        }
        StartNewRun(r, x, key);
      }
    }
  }

  /** Some element has key `k`. */
  ghost predicate SomeKey<T>(s: seq<T>, key: T -> string, k: string) {
    exists i | 0 <= i < |s| :: key(s[i]) == k
  }

  /** Some run starts with an element of key `k`. */
  ghost predicate SomeRunKey<T>(runs: seq<seq<T>>, key: T -> string, k: string) {
    exists j | 0 <= j < |runs| :: runs[j] != [] && key(runs[j][0]) == k
  }

  /** A key occurs among the elements exactly when some run has it. */
  lemma RunsKeys<T>(s: seq<T>, key: T -> string, k: string)
    ensures SomeKey(s, key, k) <==> SomeRunKey(RunsOf(s, key), key, k)
  {
    var runs := RunsOf(s, key);
    RunsMaximal(s, key);
    RunsFlatten(s, key);
    if SomeKey(s, key, k) {
      var i :| 0 <= i < |s| && key(s[i]) == k;
      FlattenMembers(runs, s[i]);
      var j :| 0 <= j < |runs| && s[i] in runs[j];
      var m :| 0 <= m < |runs[j]| && runs[j][m] == s[i];
      assert key(runs[j][0]) == k;
    }
    if SomeRunKey(runs, key, k) {
      var j :| 0 <= j < |runs| && runs[j] != [] && key(runs[j][0]) == k;
      FlattenMembers(runs, runs[j][0]);
      assert runs[j][0] in s;
      var i :| 0 <= i < |s| && s[i] == runs[j][0];
      assert key(s[i]) == k;
    }
  }
}
