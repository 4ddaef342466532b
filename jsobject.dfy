/**
 * JavaScript plain objects as the two programs use them: string keys, and
 * `Object.keys` reporting the keys in insertion order (no key is an
 * array-index string, so no key is reordered). Assigning to an existing key
 * replaces its value and keeps its position; assigning to a new key appends it.
 */
module JsObject {

  import opened Sequences

  datatype Option<T> = None | Some(value: T)

  datatype Obj<V> = Obj(keys: seq<string>, vals: map<string, V>)

  /** The keys listed are exactly the keys mapped, each listed once. */
  ghost predicate WellFormed<V>(o: Obj<V>) {
    Distinct(o.keys) && (forall k :: k in o.keys <==> k in o.vals)
  }

  type JsObj<V> = o: Obj<V> | WellFormed(o) witness Obj([], map[])

  function Empty<V>(): JsObj<V> {
    Obj([], map[])
  }

  /** The assignment `o[k] = v`. */
  function Put<V>(o: JsObj<V>, k: string, v: V): JsObj<V> {
    if k in o.vals then Obj(o.keys, o.vals[k := v])
    else
      var r := Obj(o.keys + [k], o.vals[k := v]);
      assert forall j | 0 <= j < |o.keys| :: r.keys[j] == o.keys[j] && r.keys[j] in o.vals;
      r
  }

  /** Successive assignments, first pair first. */
  function PutAll<V>(o: JsObj<V>, ps: seq<(string, V)>): JsObj<V>
    decreases |ps|
  {
    if ps == [] then o
    else Put(PutAll(o, ps[..|ps| - 1]), ps[|ps| - 1].0, ps[|ps| - 1].1)
  }

  /** The values of `o` in key order (`Object.keys(o).map(k => o[k])`). */
  function Values<V>(o: JsObj<V>): (r: seq<V>)
    ensures |r| == |o.keys|
  {
    seq(|o.keys|, i requires 0 <= i < |o.keys| => o.vals[o.keys[i]])
  }

  /** A later assignment never moves the keys already present. */
  lemma PutKeepsOrder<V>(o: JsObj<V>, k: string, v: V)
    ensures |o.keys| <= |Put(o, k, v).keys|
    ensures Put(o, k, v).keys[..|o.keys|] == o.keys
    ensures Put(o, k, v).vals.Keys == o.vals.Keys + {k}
  {
  }

  /** Some pair assigns the key `k`. */
  ghost predicate Assigns<V>(ps: seq<(string, V)>, k: string) {
    exists i | 0 <= i < |ps| :: ps[i].0 == k
  }

  /** After successive assignments a key is present exactly when it was
      present before or some pair assigns it. */
  lemma {:induction false} PutAllHas<V>(o: JsObj<V>, ps: seq<(string, V)>, k: string)
    ensures k in PutAll(o, ps).vals <==> k in o.vals || Assigns(ps, k)
    decreases |ps|
  {
    if ps != [] {
      var init := ps[..|ps| - 1];
      PutAllHas(o, init, k);
      if k in PutAll(o, ps).vals && k !in o.vals && k != ps[|ps| - 1].0 {
        var i :| 0 <= i < |init| && init[i].0 == k;
        assert ps[i].0 == k;
      }
      if Assigns(ps, k) {
        var i :| 0 <= i < |ps| && ps[i].0 == k;
        if i < |init| { assert init[i].0 == k; }
      }
    }
  }

  /** The last assignment to a key wins. */
  lemma {:induction false} PutAllLastWins<V>(o: JsObj<V>, ps: seq<(string, V)>, i: nat)
    requires i < |ps|
    requires forall j | i < j < |ps| :: ps[j].0 != ps[i].0
    ensures ps[i].0 in PutAll(o, ps).vals && PutAll(o, ps).vals[ps[i].0] == ps[i].1
    decreases |ps|
  {
    if i < |ps| - 1 {
      var init := ps[..|ps| - 1];
      assert forall j | i < j < |init| :: init[j] == ps[j];
      PutAllLastWins(o, init, i);
    }
  }

  /** A key no pair assigns keeps its old value (or stays absent). */
  lemma {:induction false} PutAllUntouched<V>(o: JsObj<V>, ps: seq<(string, V)>, k: string)
    requires forall j | 0 <= j < |ps| :: ps[j].0 != k
    ensures (k in PutAll(o, ps).vals) == (k in o.vals)
    ensures k in o.vals ==> PutAll(o, ps).vals[k] == o.vals[k]
    decreases |ps|
  {
    if ps != [] {
      var init := ps[..|ps| - 1];
      assert forall j | 0 <= j < |init| :: init[j] == ps[j];
      PutAllUntouched(o, init, k);
    }
  }
}
