/** Stable sorting of a list by a strict order, as the scripting host sorts. */
module Sorting {
  import opened Sequences

  /** `a` comes later than nothing that comes later than it, and not being sooner is
      transitive: a strict order whose ties form classes. */
  ghost predicate Order<T(!new)>(sooner: (T, T) -> bool) {
    && (forall a, b :: sooner(a, b) ==> !sooner(b, a))
    && (forall a, b, c :: !sooner(b, a) && !sooner(c, b) ==> !sooner(c, a))
  }

  ghost predicate InOrder<T>(s: seq<T>, sooner: (T, T) -> bool) {
    forall i, j :: 0 <= i < j < |s| ==> !sooner(s[j], s[i])
  }

  /** Insertion after everything that does not come later. */
  function Insert<T>(s: seq<T>, x: T, sooner: (T, T) -> bool): seq<T> {
    if s == [] || !sooner(x, s[|s| - 1]) then s + [x]
    else Insert(s[..|s| - 1], x, sooner) + [s[|s| - 1]]
  }

  function Sorted<T>(s: seq<T>, sooner: (T, T) -> bool): seq<T> {
    if s == [] then [] else Insert(Sorted(s[..|s| - 1], sooner), s[|s| - 1], sooner)
  }

  lemma {:induction false} InsertKeeps<T>(s: seq<T>, x: T, sooner: (T, T) -> bool)
    ensures multiset(Insert(s, x, sooner)) == multiset(s) + multiset{x}
  {
    if s != [] && sooner(x, s[|s| - 1]) {
      InsertKeeps(s[..|s| - 1], x, sooner);
      assert s == s[..|s| - 1] + [s[|s| - 1]];
    }
  }

  lemma {:induction false} SortKeeps<T>(s: seq<T>, sooner: (T, T) -> bool)
    ensures multiset(Sorted(s, sooner)) == multiset(s)
  {
    if s != [] {
      SortKeeps(s[..|s| - 1], sooner);
      InsertKeeps(Sorted(s[..|s| - 1], sooner), s[|s| - 1], sooner);
      assert s == s[..|s| - 1] + [s[|s| - 1]];
    }
  }

  lemma SortMembers<T>(s: seq<T>, sooner: (T, T) -> bool)
    ensures |Sorted(s, sooner)| == |s|
    ensures forall x :: x in Sorted(s, sooner) <==> x in s
  {
    SortKeeps(s, sooner);
    assert |multiset(Sorted(s, sooner))| == |multiset(s)|;
    forall x ensures x in Sorted(s, sooner) <==> x in s {
      assert x in multiset(Sorted(s, sooner)) <==> x in multiset(s);
    }
  }

  lemma {:induction false} InsertKeepsOrder<T(!new)>(s: seq<T>, x: T, sooner: (T, T) -> bool)
    requires Order(sooner) && InOrder(s, sooner)
    ensures InOrder(Insert(s, x, sooner), sooner)
  {
    if s == [] {
    } else if sooner(x, s[|s| - 1]) {
      var front, last := s[..|s| - 1], s[|s| - 1];
      InsertKeepsOrder(front, x, sooner);
      var r := Insert(front, x, sooner);
      InsertKeeps(front, x, sooner);
      forall i | 0 <= i < |r| ensures !sooner(last, r[i]) {
        assert r[i] in multiset(r);
        if r[i] != x {
          var k :| 0 <= k < |front| && front[k] == r[i];
        }
      }
    } else {
      forall i | 0 <= i < |s| ensures !sooner(x, s[i]) {
        if i < |s| - 1 {
          assert !sooner(s[|s| - 1], s[i]);
        }
      }
    }
  }

  lemma {:induction false} SortOrders<T(!new)>(s: seq<T>, sooner: (T, T) -> bool)
    requires Order(sooner)
    ensures InOrder(Sorted(s, sooner), sooner)
  {
    if s != [] {
      SortOrders(s[..|s| - 1], sooner);
      InsertKeepsOrder(Sorted(s[..|s| - 1], sooner), s[|s| - 1], sooner);
    }
  }

  /** The first `n` in order: whatever comes sooner than one of them is among them. */
  lemma SoonerIsTaken<T(!new)>(s: seq<T>, sooner: (T, T) -> bool, n: nat, x: T, b: T)
    requires Order(sooner)
    requires x in Take(Sorted(s, sooner), n) && b in s && sooner(b, x)
    ensures b in Take(Sorted(s, sooner), n)
  {
    var sorted := Sorted(s, sooner);
    SortOrders(s, sooner);
    SortMembers(s, sooner);
    assert b in sorted;
    var i :| 0 <= i < |Take(sorted, n)| && Take(sorted, n)[i] == x;
    var j :| 0 <= j < |sorted| && sorted[j] == b;
    assert sorted[i] == x && !sooner(x, b);
    assert j <= i;
    assert Take(sorted, n)[j] == b;
  }

  // ----- Distinct elements ---------------------------------------------------------------------

  lemma Twice<T>(t: seq<T>, i: nat, j: nat)
    requires i < j < |t| && t[i] == t[j]
    ensures multiset(t)[t[i]] >= 2
  {
    assert t == t[..j] + t[j..];
    assert t[..j][i] == t[i] && t[j..][0] == t[i];
    assert multiset(t) == multiset(t[..j]) + multiset(t[j..]);
    assert t[i] in multiset(t[..j]) && t[i] in multiset(t[j..]);
  }

  /** No two elements have the same tag. */
  ghost predicate TagsDistinct<T, K>(s: seq<T>, tag: T -> K) {
    forall i, j :: 0 <= i < j < |s| ==> tag(s[i]) != tag(s[j])
  }

  lemma {:induction false} OnlyOnce<T, K>(s: seq<T>, tag: T -> K)
    requires TagsDistinct(s, tag)
    ensures forall x :: x in s ==> multiset(s)[x] == 1
  {
    if s != [] {
      var front, last := s[..|s| - 1], s[|s| - 1];
      assert s == front + [last];
      OnlyOnce(front, tag);
      forall i | 0 <= i < |front| ensures front[i] != last {
        assert tag(s[i]) != tag(s[|front|]);
      }
    }
  }

  lemma SameTagSameElement<T, K>(s: seq<T>, tag: T -> K, x: T, y: T)
    requires TagsDistinct(s, tag) && x in s && y in s && tag(x) == tag(y)
    ensures x == y
  {
    var i :| 0 <= i < |s| && s[i] == x;
    var j :| 0 <= j < |s| && s[j] == y;
    assert i == j;
  }

  /** Rearranging keeps tags distinct. */
  lemma TagsSurvive<T, K>(s: seq<T>, t: seq<T>, tag: T -> K)
    requires TagsDistinct(s, tag) && multiset(t) == multiset(s)
    ensures TagsDistinct(t, tag)
  {
    OnlyOnce(s, tag);
    forall i, j | 0 <= i < j < |t| ensures tag(t[i]) != tag(t[j]) {
      assert t[i] in multiset(t) && t[j] in multiset(t);
      assert t[i] in s && t[j] in s;
      if tag(t[i]) == tag(t[j]) {
        SameTagSameElement(s, tag, t[i], t[j]);
        Twice(t, i, j);
      }
    }
  }
}
