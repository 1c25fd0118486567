/** Insertion-ordered dictionaries, and the dictionary of lists that a loop of
    `d.setdefault(key, []).append(value)` builds. */
module Grouping {
  import opened Sequences

  /** A dictionary: its keys in insertion order, and what each key maps to. */
  datatype Dict<K(==, !new), V> = Dict(keys: seq<K>, at: map<K, V>) {
    ghost predicate Valid() {
      Distinct(keys) && (forall k :: k in keys <==> k in at)
    }

    /** `d[k] = v`: a new key goes last, a known key keeps its place. */
    function Put(k: K, v: V): (d: Dict<K, V>)
    {
      Dict(if k in at then keys else keys + [k], at[k := v])
    }
  }

  lemma PutValid<K(!new), V>(d: Dict<K, V>, k: K, v: V)
    requires d.Valid()
    ensures d.Put(k, v).Valid()
  {
  }

  lemma DictEqual<K(!new), V>(d: Dict<K, V>, e: Dict<K, V>)
    requires d.Valid() && e.Valid() && d.keys == e.keys
    requires forall k :: k in d.keys ==> d.at[k] == e.at[k]
    ensures d == e
  {
    assert forall k :: k in d.at <==> k in e.at;
  }

  function Empty<K(!new), V>(): Dict<K, V> {
    Dict([], map[])
  }

  /** `d.get(k, [])`. */
  function Lookup<K(!new), V>(d: Dict<K, seq<V>>, k: K): seq<V> {
    if k in d.at then d.at[k] else []
  }

  /** `d.setdefault(k, []).append(v)`. */
  function AppendTo<K(!new), V>(d: Dict<K, seq<V>>, k: K, v: V): Dict<K, seq<V>> {
    d.Put(k, Lookup(d, k) + [v])
  }

  function KeysOf<K, V>(pairs: seq<(K, V)>): (r: seq<K>)
    ensures |r| == |pairs|
    ensures forall i :: 0 <= i < |pairs| ==> r[i] == pairs[i].0
  {
    seq(|pairs|, i requires 0 <= i < |pairs| => pairs[i].0)
  }

  /** The values filed under `k`, in order. */
  function At<K(==), V>(pairs: seq<(K, V)>, k: K): (r: seq<V>)
  {
    if pairs == [] then []
    else
      var rest, last := pairs[..|pairs| - 1], pairs[|pairs| - 1];
      if last.0 == k then At(rest, k) + [last.1] else At(rest, k)
  }

  /** The dictionary of lists that filing every pair in turn produces. */
  function Grouped<K(==, !new), V>(pairs: seq<(K, V)>): Dict<K, seq<V>>
  {
    var keys := Dedup(KeysOf(pairs));
    Dict(keys, map k | k in keys :: At(pairs, k))
  }

  lemma GroupedValid<K(!new), V>(pairs: seq<(K, V)>)
    ensures Grouped(pairs).Valid()
    ensures forall k :: k in Grouped(pairs).at <==> k in KeysOf(pairs)
  {
  }

  lemma GroupedNothing<K(!new), V>()
    ensures Grouped<K, V>([]) == Empty()
  {
    assert Grouped<K, V>([]).at == map[];
  }

  lemma GroupedLookup<K(!new), V>(pairs: seq<(K, V)>, k: K)
    ensures Lookup(Grouped(pairs), k) == At(pairs, k)
  {
    if k !in KeysOf(pairs) {
      AbsentKey(pairs, k);
    }
  }

  lemma {:induction false} AbsentKey<K, V>(pairs: seq<(K, V)>, k: K)
    requires k !in KeysOf(pairs)
    ensures At(pairs, k) == []
  {
    if pairs != [] {
      var rest := pairs[..|pairs| - 1];
      forall i | 0 <= i < |rest| ensures KeysOf(rest)[i] == KeysOf(pairs)[i] { }
      assert KeysOf(pairs)[|pairs| - 1] == pairs[|pairs| - 1].0;
      AbsentKey(rest, k);
    }
  }

  lemma AtSnoc<K, V>(pairs: seq<(K, V)>, p: (K, V), k: K)
    ensures At(pairs + [p], k) == if p.0 == k then At(pairs, k) + [p.1] else At(pairs, k)
  {
    assert (pairs + [p])[..|pairs|] == pairs;
  }

  lemma AtOne<K, V>(p: (K, V), k: K)
    ensures At([p], k) == if p.0 == k then [p.1] else []
  {
    assert [p][..0] == [];
  }

  lemma {:induction false} AtAppend<K, V>(p: seq<(K, V)>, q: seq<(K, V)>, k: K)
    ensures At(p + q, k) == At(p, k) + At(q, k)
  {
    if q == [] {
      assert p + q == p;
    } else {
      assert p + q == (p + q[..|q| - 1]) + [q[|q| - 1]];
      AtSnoc(p + q[..|q| - 1], q[|q| - 1], k);
      AtAppend(p, q[..|q| - 1], k);
    }
  }

  /** The values of a key around one pair that is filed under it. */
  lemma AtSplit<K, V>(pairs: seq<(K, V)>, n: nat)
    requires n < |pairs|
    ensures At(pairs, pairs[n].0) == At(pairs[..n], pairs[n].0) + [pairs[n].1] + At(pairs[n + 1..], pairs[n].0)
  {
    hide At;
    assert pairs == pairs[..n + 1] + pairs[n + 1..];
    assert pairs[..n + 1] == pairs[..n] + [pairs[n]];
    AtSnoc(pairs[..n], pairs[n], pairs[n].0);
    AtAppend(pairs[..n + 1], pairs[n + 1..], pairs[n].0);
  }

  /** What is listed under a key was filed under it. */
  lemma {:induction false} AtFiled<K, V>(pairs: seq<(K, V)>, k: K, v: V)
    requires v in At(pairs, k)
    ensures (k, v) in pairs
  {
    var rest, last := pairs[..|pairs| - 1], pairs[|pairs| - 1];
    assert pairs == rest + [last];
    if (k, v) != last {
      AtFiled(rest, k, v);
    }
  }

  lemma {:induction false} AtMember<K, V>(pairs: seq<(K, V)>, k: K, v: V)
    requires (k, v) in pairs
    ensures v in At(pairs, k)
  {
    var last := pairs[|pairs| - 1];
    assert pairs == pairs[..|pairs| - 1] + [last];
    if last != (k, v) {
      AtMember(pairs[..|pairs| - 1], k, v);
    }
  }

  /** One `setdefault(...).append(...)` step keeps the loop's dictionary exact. */
  lemma GroupedStep<K(!new), V>(pairs: seq<(K, V)>, p: (K, V))
    ensures Grouped(pairs + [p]) == AppendTo(Grouped(pairs), p.0, p.1)
  {
    var d, e := Grouped(pairs), Grouped(pairs + [p]);
    var want := AppendTo(d, p.0, p.1);
    assert KeysOf(pairs + [p]) == KeysOf(pairs) + [p.0];
    DedupSnoc(KeysOf(pairs), p.0);
    GroupedValid(pairs);
    GroupedLookup(pairs, p.0);
    forall k | k in e.keys ensures e.at[k] == want.at[k] {
      AtSnoc(pairs, p, k);
    }
    DictEqual(e, want);
  }

  /** The sum of the list lengths over the given keys. */
  function Total<K(==), V>(keys: seq<K>, pairs: seq<(K, V)>): nat {
    if keys == [] then 0
    else Total(keys[..|keys| - 1], pairs) + |At(pairs, keys[|keys| - 1])|
  }

  lemma {:induction false} TotalSnoc<K, V>(keys: seq<K>, pairs: seq<(K, V)>, p: (K, V))
    requires Distinct(keys)
    ensures Total(keys, pairs + [p]) == Total(keys, pairs) + if p.0 in keys then 1 else 0
  {
    if keys != [] {
      var front, last := keys[..|keys| - 1], keys[|keys| - 1];
      assert keys == front + [last];
      TotalSnoc(front, pairs, p);
      AtSnoc(pairs, p, last);
    }
  }

  /** Conservation: grouping neither loses nor repeats a value. */
  lemma {:induction false} GroupsConserve<K(!new), V>(pairs: seq<(K, V)>)
    ensures Total(Grouped(pairs).keys, pairs) == |pairs|
  {
    if pairs != [] {
      var rest, p := pairs[..|pairs| - 1], pairs[|pairs| - 1];
      assert pairs == rest + [p];
      GroupsConserve(rest);
      GroupedStep(rest, p);
      GroupedValid(rest);
      var before := Grouped(rest);
      TotalSnoc(before.keys, rest, p);
      if p.0 !in before.keys {
        AbsentKey(rest, p.0);
        AtSnoc(rest, p, p.0);
        assert Grouped(pairs).keys[..|before.keys|] == before.keys;
      }
    }
  }
}
