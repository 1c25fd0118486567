/** A list of mutable entries together with the dictionary that indexes it. The
    dictionary holds the entries themselves, so an edit made through it is an edit of
    the list. */
module KeyedLists {
  import opened Wrappers

  class Cell<T> {
    var value: T

    constructor (v: T)
      ensures value == v
    {
      value := v;
    }
  }

  /** The last position whose value has key `k`, or -1: a linear scan of the list. */
  function Scan<K(==), T>(keyOf: T -> Option<K>, vals: seq<T>, k: K): (p: int)
    ensures -1 <= p < |vals|
    ensures p >= 0 ==> keyOf(vals[p]) == Some(k)
    ensures forall j :: p < j < |vals| ==> keyOf(vals[j]) != Some(k)
  {
    if vals == [] then -1
    else if keyOf(vals[|vals| - 1]) == Some(k) then |vals| - 1
    else Scan(keyOf, vals[..|vals| - 1], k)
  }

  /** The index holds just these keys, each with the entry at its place. */
  ghost predicate PlacedIn<K, T>(items: seq<Cell<T>>, index: map<K, Cell<T>>, places: map<K, nat>) {
    places.Keys == index.Keys && forall k :: k in places ==> places[k] < |items| && items[places[k]] == index[k]
  }

  lemma PlacesGrow<K, T>(items: seq<Cell<T>>, index: map<K, Cell<T>>, places: map<K, nat>, k: K, c: Cell<T>)
    requires PlacedIn(items, index, places)
    ensures PlacedIn(items + [c], index[k := c], places[k := |items|])
  {
  }

  lemma PlaceIsUnique<K, T>(items: seq<Cell<T>>, index: map<K, Cell<T>>, places: map<K, nat>, k: K)
    requires PlacedIn(items, index, places)
    requires forall i, j :: 0 <= i < j < |items| ==> items[i] != items[j]
    ensures k in places <==> k in index
    ensures k in index ==> places[k] < |items| && forall i :: 0 <= i < |items| && items[i] == index[k] ==> i == places[k]
  {
  }

  class KeyedList<K(==, !new), T> {
    const keyOf: T -> Option<K>
    var items: seq<Cell<T>>
    var index: map<K, Cell<T>>

    /** Entries are separate objects and the index refers only to entries of the list. */
    ghost predicate Rep()
      reads this
    {
      && (forall i, j :: 0 <= i < j < |items| ==> items[i] != items[j])
      && (forall k :: k in index ==> index[k] in items)
    }

    /** The entries as a set of objects, for frames. */
    ghost function Cells(): set<object>
      reads this
    {
      set c | c in items
    }

    function Values(): (vals: seq<T>)
      reads this, items
      ensures |vals| == |items|
      ensures forall i :: 0 <= i < |items| ==> vals[i] == items[i].value
    {
      seq(|items|, i requires 0 <= i < |items| reads this, items => items[i].value)
    }

    /** For `k`, the index names the entry at `p`, or none when `p` is negative. */
    ghost predicate HoldsAt(k: K, p: int)
      reads this
    {
      p < |items| && (k in index <==> 0 <= p) && (k in index ==> index[k] == items[p])
    }

    ghost predicate PlacedBy(places: map<K, nat>)
      reads this
    {
      PlacedIn(items, index, places)
    }

    /** For `k`, the index and a linear scan of the list name the same entry. */
    ghost predicate AgreesAt(k: K)
      reads this, items
    {
      var p := Scan(keyOf, Values(), k);
      (k in index <==> p >= 0) && (k in index ==> index[k] == items[p])
    }

    ghost predicate Agrees()
      reads this, items
    {
      forall k :: AgreesAt(k)
    }

    /** Copies every entry and indexes those that have a key; a later entry with the
        same key replaces an earlier one in the index. */
    constructor (keyOf: T -> Option<K>, source: seq<T>)
      ensures this.keyOf == keyOf
      ensures Rep() && Values() == source && Agrees()
      ensures fresh(Cells())
    {
      this.keyOf := keyOf;
      this.items := [];
      this.index := map[];
      new;
      for n := 0 to |source|
        invariant this.keyOf == keyOf
        invariant Rep() && Values() == source[..n] && Agrees()
        invariant fresh(Cells())
      {
        var _ := Append(source[n], keyOf(source[n]));
      }
    }

    /** Appends an entry and, when `key` is given, files it under that key. The index
        still agrees with a scan at `k` exactly when the entry's own key says so too. */
    method Append(v: T, key: Option<K>) returns (c: Cell<T>)
      requires Rep()
      modifies this
      ensures Rep() && fresh(c) && c.value == v
      ensures items == old(items) + [c] && Values() == old(Values()) + [v] && Cells() == old(Cells()) + {c}
      ensures index == if key.Some? then old(index)[key.value := c] else old(index)
      ensures forall k :: old(AgreesAt(k)) ==> (AgreesAt(k) <==> (key == Some(k) <==> keyOf(v) == Some(k)))
    {
      hide Scan;
      ghost var before := Values();
      c := new Cell(v);
      items := items + [c];
      if key.Some? {
        index := index[key.value := c];
      }
      assert Values() == before + [v];
      forall k | old(AgreesAt(k)) ensures AgreesAt(k) <==> (key == Some(k) <==> keyOf(v) == Some(k)) {
        ScanSnoc(keyOf, before, v, k);
      }
    }

    /** Overwrites one entry of the list in place. */
    method Overwrite(c: Cell<T>, v: T, ghost at: nat)
      requires Rep() && at < |items| && items[at] == c
      modifies c
      ensures Rep() && c.value == v && Values() == old(Values())[at := v]
      ensures keyOf(v) == keyOf(old(c.value)) ==> forall k :: old(AgreesAt(k)) ==> AgreesAt(k)
      ensures forall k :: k in index && index[k] == c && keyOf(v) != Some(k) ==> !AgreesAt(k)
    {
      ghost var before := Values();
      c.value := v;
      assert Values() == before[at := v];
      if keyOf(v) == keyOf(before[at]) {
        forall k | old(AgreesAt(k)) ensures AgreesAt(k) {
          ScanSameKeys(keyOf, before, Values(), k);
        }
      }
    }
  }

  lemma ScanSnoc<K, T>(keyOf: T -> Option<K>, vals: seq<T>, v: T, k: K)
    ensures Scan(keyOf, vals + [v], k) == if keyOf(v) == Some(k) then |vals| else Scan(keyOf, vals, k)
  {
    assert (vals + [v])[..|vals|] == vals;
  }

  lemma {:induction false} ScanSameKeys<K, T>(keyOf: T -> Option<K>, a: seq<T>, b: seq<T>, k: K)
    requires |a| == |b| && forall i :: 0 <= i < |a| ==> keyOf(a[i]) == keyOf(b[i])
    ensures Scan(keyOf, a, k) == Scan(keyOf, b, k)
  {
    if a != [] {
      ScanSameKeys(keyOf, a[..|a| - 1], b[..|b| - 1], k);
    }
  }
}
