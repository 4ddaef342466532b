/**
 * The depth-first walk of the ontology that writes one complexType per
 * container: a container already marked is skipped; otherwise it is marked,
 * written, and then each of its child keys that names a container is walked
 * in child order, with the marks left by the walks before it.
 */
module Traversal {

  import opened Sequences
  import opened JsObject
  import opened InfoModel

  function ChildKeys(o: Ontology, t: string): seq<string> {
    if t in o.vals then o.vals[t].keys else []
  }

  lemma CardShrinks(k: set<string>, a: set<string>, b: set<string>)
    requires a <= b
    ensures |k - b| <= |k - a|
  {
    var d := k - a;
    assert k - b <= d;
    assert d == (k - b) + (d - (k - b));
    assert (k - b) * (d - (k - b)) == {};
  }

  lemma CardShrinksStrict(k: set<string>, a: set<string>, b: set<string>, t: string)
    requires a <= b && t in k && t !in a && t in b
    ensures |k - b| < |k - a|
  {
    var d := k - a;
    assert k - b <= d;
    assert d == (k - b) + (d - (k - b));
    assert (k - b) * (d - (k - b)) == {};
    assert t in d - (k - b);
  }

  /** The containers written by makeBranch(t) when the containers in `w`
      already carry their marker, in the order they are written. */
  function Visit(o: Ontology, t: string, w: set<string>): seq<string>
    decreases |o.vals.Keys - w|, 0, 0
  {
    if t in w || t !in o.vals then []
    else
      CardShrinksStrict(o.vals.Keys, w, w + {t}, t);
      [t] + VisitAll(o, o.vals[t].keys, w + {t})
  }

  /** The containers written by the recursion loop over the keys `ks`. */
  function VisitAll(o: Ontology, ks: seq<string>, w: set<string>): seq<string>
    decreases |o.vals.Keys - w|, 1, |ks|
  {
    if ks == [] then []
    else
      var pre := VisitAll(o, ks[..|ks| - 1], w);
      CardShrinks(o.vals.Keys, w, w + Elems(pre));
      pre + Visit(o, ks[|ks| - 1], w + Elems(pre))
  }

  /** No container is written twice, none already marked is written, and
      only containers are written. */
  lemma {:induction false} VisitOnce(o: Ontology, t: string, w: set<string>)
    ensures Distinct(Visit(o, t, w))
    ensures forall x | x in Visit(o, t, w) :: x in o.vals && x !in w
    decreases |o.vals.Keys - w|, 0, 0
  {
    if t !in w && t in o.vals {
      CardShrinksStrict(o.vals.Keys, w, w + {t}, t);
      var rest := VisitAll(o, o.vals[t].keys, w + {t});
      VisitAllOnce(o, o.vals[t].keys, w + {t});
      DistinctAppend([t], rest);
    }
  }

  lemma {:induction false} VisitAllOnce(o: Ontology, ks: seq<string>, w: set<string>)
    ensures Distinct(VisitAll(o, ks, w))
    ensures forall x | x in VisitAll(o, ks, w) :: x in o.vals && x !in w
    decreases |o.vals.Keys - w|, 1, |ks|
  {
    if ks != [] {
      var pre := VisitAll(o, ks[..|ks| - 1], w);
      VisitAllOnce(o, ks[..|ks| - 1], w);
      CardShrinks(o.vals.Keys, w, w + Elems(pre));
      var v := Visit(o, ks[|ks| - 1], w + Elems(pre));
      VisitOnce(o, ks[|ks| - 1], w + Elems(pre));
      DistinctAppend(pre, v);
    }
  }

  /** The walk is complete: the start container is written unless already
      marked, and every child key of a written container that names a
      container is marked before or written by the walk. */
  lemma {:induction false} VisitClosed(o: Ontology, t: string, w: set<string>)
    ensures t in o.vals ==> t in w || t in Visit(o, t, w)
    ensures forall x, k | x in Visit(o, t, w) && k in ChildKeys(o, x) && k in o.vals ::
              k in w || k in Visit(o, t, w)
    decreases |o.vals.Keys - w|, 0, 0
  {
    if t !in w && t in o.vals {
      CardShrinksStrict(o.vals.Keys, w, w + {t}, t);
      VisitAllClosed(o, o.vals[t].keys, w + {t});
    }
  }

  lemma {:induction false} VisitAllClosed(o: Ontology, ks: seq<string>, w: set<string>)
    ensures forall k | k in ks && k in o.vals :: k in w || k in VisitAll(o, ks, w)
    ensures forall x, k | x in VisitAll(o, ks, w) && k in ChildKeys(o, x) && k in o.vals ::
              k in w || k in VisitAll(o, ks, w)
    decreases |o.vals.Keys - w|, 1, |ks|
  {
    if ks != [] {
      var init := ks[..|ks| - 1];
      var pre := VisitAll(o, init, w);
      VisitAllClosed(o, init, w);
      CardShrinks(o.vals.Keys, w, w + Elems(pre));
      var v := Visit(o, ks[|ks| - 1], w + Elems(pre));
      VisitClosed(o, ks[|ks| - 1], w + Elems(pre));
      assert VisitAll(o, ks, w) == pre + v;
      forall k | k in ks && k in o.vals ensures k in w || k in pre + v {
        if k != ks[|ks| - 1] {
          assert k in init;
        }
      }
    }
  }

  /** The walk from the root writes the root first. */
  lemma VisitRootFirst(o: Ontology, t: string)
    requires t in o.vals
    ensures Visit(o, t, {}) != [] && Visit(o, t, {})[0] == t
  {
  }

  /** Walking a prefix of the keys writes a prefix of the containers. */
  lemma {:induction false} VisitAllPrefix(o: Ontology, ks: seq<string>, w: set<string>, i: nat)
    requires i <= |ks|
    ensures VisitAll(o, ks[..i], w) <= VisitAll(o, ks, w)
    decreases |ks|
  {
    if i < |ks| {
      var init := ks[..|ks| - 1];
      assert init[..i] == ks[..i];
      VisitAllPrefix(o, init, w, i);
    } else {
      assert ks[..i] == ks;
    }
  }

  /** An unmarked container is written first, then the walk of its keys. */
  lemma VisitStart(o: Ontology, t: string, w: set<string>)
    requires t !in w && t in o.vals
    ensures Visit(o, t, w) == [t] + VisitAll(o, o.vals[t].keys, w + {t})
  {
  }

  /** One more key walks its container after the marks of the keys before,
      and what it writes is part of the walk of all the keys. */
  lemma VisitAllStep(o: Ontology, ks: seq<string>, w: set<string>, i: nat, pre: seq<string>, cur: set<string>)
    requires i < |ks| && pre == VisitAll(o, ks[..i], w) && cur == w + Elems(pre)
    ensures VisitAll(o, ks[..i + 1], w) == pre + Visit(o, ks[i], cur)
    ensures forall x | x in Visit(o, ks[i], cur) :: x in VisitAll(o, ks, w)
  {
    var v := Visit(o, ks[i], cur);
    assert ks[..i + 1][..i] == ks[..i];
    assert VisitAll(o, ks[..i + 1], w) == pre + v;
    VisitAllPrefix(o, ks, w, i + 1);
    forall x | x in v ensures x in VisitAll(o, ks, w) {
      assert x in pre + v;
      var j :| 0 <= j < |pre + v| && (pre + v)[j] == x;
      assert VisitAll(o, ks, w)[j] == x;
    }
  }
}
