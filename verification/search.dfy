/**
 * Catalogues and first-match search. A catalogue loaded from a JSON object is
 * a Python dict, whose iteration order is the order of the keys in the file;
 * it is modelled as the ordered list of its (key, value) entries.
 */
module Search {
  import opened Wrappers

  type Catalogue<V> = seq<(string, V)>

  /** Index of the first element satisfying `p`, as a `for ... : if p: return` loop finds it. */
  function FindFirst<T>(s: seq<T>, p: T -> bool): (r: Option<nat>)
    ensures r.Some? ==> r.value < |s|
  {
    if s == [] then None
    else if p(s[0]) then Some(0)
    else
      match FindFirst(s[1..], p)
      case None => None
      case Some(i) => Some(i + 1)
  }

  /** `FindFirst` finds nothing exactly when no element qualifies, and otherwise the earliest one that does. */
  lemma {:induction false} FindFirstSpec<T>(s: seq<T>, p: T -> bool)
    ensures FindFirst(s, p).None? <==> forall i :: 0 <= i < |s| ==> !p(s[i])
    ensures FindFirst(s, p).Some? ==> p(s[FindFirst(s, p).value])
    ensures FindFirst(s, p).Some? ==> forall i :: 0 <= i < FindFirst(s, p).value ==> !p(s[i])
  {
    if s != [] && !p(s[0]) {
      FindFirstSpec(s[1..], p);
      assert forall i :: 1 <= i < |s| ==> s[i] == s[1..][i - 1];
    }
  }

  /** The first index satisfying `p` is the only one with no earlier index satisfying it. */
  lemma FindFirstUnique<T>(s: seq<T>, p: T -> bool, j: nat)
    requires j < |s| && p(s[j])
    requires forall i :: 0 <= i < j ==> !p(s[i])
    ensures FindFirst(s, p) == Some(j)
  {
    FindFirstSpec(s, p);
  }

  /** When nothing satisfies `p`, `FindFirst` finds nothing. */
  lemma FindFirstNone<T>(s: seq<T>, p: T -> bool)
    requires forall i :: 0 <= i < |s| ==> !p(s[i])
    ensures FindFirst(s, p) == None
  {
    FindFirstSpec(s, p);
  }

  /** `kb.get(key)`: the value of the first entry with that key. */
  function Lookup<V>(kb: Catalogue<V>, key: string): (r: Option<V>)
  {
    match FindFirst(kb, (e: (string, V)) => e.0 == key)
    case None => None
    case Some(i) => Some(kb[i].1)
  }

  /** A lookup misses exactly when no entry has the key, and a hit is an entry of the catalogue. */
  lemma LookupSpec<V>(kb: Catalogue<V>, key: string)
    ensures Lookup(kb, key).None? <==> forall i :: 0 <= i < |kb| ==> kb[i].0 != key
    ensures Lookup(kb, key).Some? ==> exists i :: 0 <= i < |kb| && kb[i] == (key, Lookup(kb, key).value)
  {
    FindFirstSpec(kb, (e: (string, V)) => e.0 == key);
  }

  /** No key occurs twice, as in a catalogue read from a JSON object. */
  predicate DistinctKeys<V>(kb: Catalogue<V>)
  {
    forall i, j :: 0 <= i < j < |kb| ==> kb[i].0 != kb[j].0
  }

  /** With distinct keys, looking up an entry's key gives that entry's value, and a hit is the value stored under the key. */
  lemma LookupDistinct<V>(kb: Catalogue<V>, key: string)
    requires DistinctKeys(kb)
    ensures forall i :: 0 <= i < |kb| && kb[i].0 == key ==> Lookup(kb, key) == Some(kb[i].1)
    ensures Lookup(kb, key).Some? ==> exists i :: 0 <= i < |kb| && kb[i].0 == key && kb[i].1 == Lookup(kb, key).value
  {
    forall i | 0 <= i < |kb| && kb[i].0 == key
      ensures Lookup(kb, key) == Some(kb[i].1)
    {
      FindFirstUnique(kb, (e: (string, V)) => e.0 == key, i);
    }
    LookupSpec(kb, key);
  }

  /** `v` is one of the catalogue's values. */
  ghost predicate IsValueOf<V>(kb: Catalogue<V>, v: V)
  {
    exists i :: 0 <= i < |kb| && kb[i].1 == v
  }

  /** The largest element of `xs`, 0 when there is none. */
  function MaxOf(xs: seq<nat>): nat
    decreases |xs|
  {
    if xs == [] then 0
    else
      var m := MaxOf(xs[..|xs| - 1]);
      if xs[|xs| - 1] > m then xs[|xs| - 1] else m
  }

  lemma {:induction false} MaxOfIsMaximum(xs: seq<nat>)
    ensures forall i :: 0 <= i < |xs| ==> xs[i] <= MaxOf(xs)
    ensures xs != [] ==> exists i :: 0 <= i < |xs| && xs[i] == MaxOf(xs)
    decreases |xs|
  {
    if xs != [] {
      var front := xs[..|xs| - 1];
      MaxOfIsMaximum(front);
      assert forall i :: 0 <= i < |front| ==> front[i] == xs[i];
      if front == [] {
        assert xs[0] == MaxOf(xs);
      } else if xs[|xs| - 1] <= MaxOf(front) {
        var i :| 0 <= i < |front| && front[i] == MaxOf(front);
        assert xs[i] == MaxOf(xs);
      }
    }
  }
}
