/** Sequences without repetition, as the source builds them with a `seen` set. */
module Sequences {

  /** `s[:n]`. */
  function Take<T>(s: seq<T>, n: nat): seq<T> {
    if |s| <= n then s else s[..n]
  }

  /** `a or b` on lists and texts. */
  function Or<T(==)>(a: seq<T>, b: seq<T>): seq<T> {
    if a != [] then a else b
  }

  predicate Distinct<T(==)>(s: seq<T>) {
    forall i, j :: 0 <= i < j < |s| ==> s[i] != s[j]
  }

  /** The elements of `s` in the order of their first occurrence. */
  function Dedup<T(==, !new)>(s: seq<T>): (r: seq<T>)
    ensures Distinct(r)
    ensures forall x :: x in r <==> x in s
  {
    if s == [] then []
    else
      var r := Dedup(s[..|s| - 1]);
      var x := s[|s| - 1];
      assert s == s[..|s| - 1] + [x];
      if x in r then r else r + [x]
  }

  lemma DedupSnoc<T(!new)>(s: seq<T>, x: T)
    ensures Dedup(s + [x]) == if x in s then Dedup(s) else Dedup(s) + [x]
  {
    assert (s + [x])[..|s|] == s;
  }

  lemma {:induction false} DedupOfDistinct<T(!new)>(s: seq<T>)
    requires Distinct(s)
    ensures Dedup(s) == s
  {
    if s != [] {
      DedupOfDistinct(s[..|s| - 1]);
      assert s == s[..|s| - 1] + [s[|s| - 1]];
    }
  }

  /** Dropping repetitions first, or after appending, makes no difference. */
  lemma {:induction false} DedupAppend<T(!new)>(s: seq<T>, t: seq<T>)
    ensures Dedup(Dedup(s) + t) == Dedup(s + t)
  {
    if t == [] {
      assert Dedup(s) + t == Dedup(s) && s + t == s;
      DedupOfDistinct(Dedup(s));
    } else {
      var u, x := t[..|t| - 1], t[|t| - 1];
      DedupAppend(s, u);
      assert Dedup(s) + t == (Dedup(s) + u) + [x];
      assert s + t == (s + u) + [x];
      DedupSnoc(Dedup(s) + u, x);
      DedupSnoc(s + u, x);
    }
  }

  /** `r` is `s` with some elements left out and the rest in order. */
  predicate Subsequence<T(==)>(r: seq<T>, s: seq<T>)
    decreases |s|
  {
    if r == [] then true
    else if s == [] then false
    else
      var x := s[|s| - 1];
      if r[|r| - 1] == x && Subsequence(r[..|r| - 1], s[..|s| - 1]) then true
      else Subsequence(r, s[..|s| - 1])
  }
}
