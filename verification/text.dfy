/** Text operations of the scripting host: white space, stripping, and sorted lists of
    distinct strings. */
module Text {
  import opened Sequences

  predicate IsSpace(c: char) {
    var x := c as int;
    || 9 <= x <= 13 || 28 <= x <= 32 || x == 0x85 || x == 0xA0 || x == 0x1680
    || 0x2000 <= x <= 0x200A || x == 0x2028 || x == 0x2029 || x == 0x202F || x == 0x205F || x == 0x3000
  }

  function LStrip(s: string): string {
    if s != [] && IsSpace(s[0]) then LStrip(s[1..]) else s
  }

  function RStrip(s: string): string {
    if s != [] && IsSpace(s[|s| - 1]) then RStrip(s[..|s| - 1]) else s
  }

  function Strip(s: string): string {
    RStrip(LStrip(s))
  }

  /** Code-point order on strings. */
  predicate Before(a: string, b: string) {
    if a == [] then b != []
    else if b == [] then false
    else if a[0] != b[0] then a[0] < b[0]
    else Before(a[1..], b[1..])
  }

  lemma {:induction false} BeforeIsTotal(a: string, b: string)
    ensures a != b ==> Before(a, b) || Before(b, a)
    ensures Before(a, b) ==> a != b && !Before(b, a)
  {
    if a != [] && b != [] {
      BeforeIsTotal(a[1..], b[1..]);
      assert a == [a[0]] + a[1..] && b == [b[0]] + b[1..];
    }
  }

  lemma {:induction false} BeforeIsTransitive(a: string, b: string, c: string)
    requires Before(a, b) && Before(b, c)
    ensures Before(a, c)
  {
    if a != [] && b != [] && c != [] && a[0] == b[0] && b[0] == c[0] {
      BeforeIsTransitive(a[1..], b[1..], c[1..]);
    }
  }

  /** What comparing field by field needs to know of code-point order. */
  lemma LexLaws(a: string, b: string, c: string)
    ensures !Before(b, a) && !Before(c, b) ==> !Before(c, a) && (a == c ==> a == b)
    ensures a != b ==> Before(a, b) || Before(b, a)
    ensures b != c ==> Before(b, c) || Before(c, b)
    ensures !Before(a, a) && !Before(b, b)
  {
    BeforeIsTotal(a, b);
    BeforeIsTotal(b, c);
    BeforeIsTotal(a, c);
    BeforeIsTotal(a, a);
    BeforeIsTotal(b, b);
    if Before(a, b) && Before(b, c) {
      BeforeIsTransitive(a, b, c);
    }
  }

  /** Strictly increasing, and so without repetition. */
  ghost predicate Increasing(s: seq<string>) {
    forall i, j :: 0 <= i < j < |s| ==> Before(s[i], s[j])
  }

  /** Puts `x` in its place; a string that is already there is not repeated. */
  function Insert(s: seq<string>, x: string): (r: seq<string>)
    ensures forall y :: y in r <==> y in s || y == x
  {
    if s == [] then [x]
    else if s[0] == x then s
    else if Before(x, s[0]) then [x] + s
    else
      var r := Insert(s[1..], x);
      assert s == [s[0]] + s[1..];
      [s[0]] + r
  }

  /** `sorted(set(s))`. */
  function SortedSet(s: seq<string>): (r: seq<string>)
    ensures forall y :: y in r <==> y in s
  {
    if s == [] then []
    else
      assert s == s[..|s| - 1] + [s[|s| - 1]];
      Insert(SortedSet(s[..|s| - 1]), s[|s| - 1])
  }

  lemma {:induction false} InsertKeepsIncreasing(s: seq<string>, x: string)
    requires Increasing(s)
    ensures Increasing(Insert(s, x))
  {
    if s != [] && s[0] != x {
      if Before(x, s[0]) {
        forall j | 0 <= j < |s| ensures Before(x, s[j]) {
          if j > 0 {
            BeforeIsTransitive(x, s[0], s[j]);
          }
        }
      } else {
        BeforeIsTotal(x, s[0]);
        InsertKeepsIncreasing(s[1..], x);
        var r := Insert(s[1..], x);
        forall j | 0 <= j < |r| ensures Before(s[0], r[j]) {
          assert r[j] in r;
          if r[j] != x {
            var i :| 0 <= i < |s[1..]| && s[1..][i] == r[j];
            assert s[i + 1] == r[j];
          }
        }
      }
    }
  }

  lemma {:induction false} SortedSetIncreases(s: seq<string>)
    ensures Increasing(SortedSet(s))
    ensures Distinct(SortedSet(s))
  {
    if s != [] {
      SortedSetIncreases(s[..|s| - 1]);
      InsertKeepsIncreasing(SortedSet(s[..|s| - 1]), s[|s| - 1]);
    }
    IncreasingIsDistinct(SortedSet(s));
  }

  lemma IncreasingIsDistinct(s: seq<string>)
    requires Increasing(s)
    ensures Distinct(s)
  {
    forall i, j | 0 <= i < j < |s| ensures s[i] != s[j] {
      BeforeIsTotal(s[i], s[j]);
    }
  }

  /** There is only one increasing list of a given set of strings. */
  lemma {:induction false} IncreasingIsUnique(s: seq<string>, t: seq<string>)
    requires Increasing(s) && Increasing(t)
    requires forall x :: x in s <==> x in t
    ensures s == t
  {
    assert t != [] ==> t[0] in t;
    if s != [] {
      assert s[0] in t;
      var i :| 0 <= i < |t| && t[i] == s[0];
      assert t[0] in s;
      var j :| 0 <= j < |s| && s[j] == t[0];
      FirstsAgree(s, t, i, j);
      forall x ensures x in s[1..] <==> x in t[1..] {
        TailMember(s, x);
        TailMember(t, x);
      }
      IncreasingIsUnique(s[1..], t[1..]);
      assert s == [s[0]] + s[1..] && t == [t[0]] + t[1..];
    }
  }

  lemma FirstsAgree(s: seq<string>, t: seq<string>, i: nat, j: nat)
    requires Increasing(s) && Increasing(t) && i < |t| && j < |s|
    requires t[i] == s[0] && s[j] == t[0]
    ensures s[0] == t[0]
  {
    BeforeIsTotal(t[0], t[i]);
  }

  lemma TailMember(s: seq<string>, x: string)
    requires Increasing(s) && s != []
    ensures x in s[1..] <==> x in s && x != s[0]
  {
    IncreasingIsDistinct(s);
    assert s == [s[0]] + s[1..];
    if x in s[1..] {
      var i :| 0 <= i < |s[1..]| && s[1..][i] == x;
      assert s[i + 1] == x;
    }
  }

  /** A list equals `sorted(set(list))` exactly when it is increasing. */
  lemma SortedIffIncreasing(s: seq<string>)
    ensures s == SortedSet(s) <==> Increasing(s)
  {
    SortedSetIncreases(s);
    if Increasing(s) {
      IncreasingIsUnique(s, SortedSet(s));
    }
  }

  // ----- Sets of strings in order ----------------------------------------------------------------

  predicate Least(x: string, s: set<string>) {
    x in s && forall y :: y in s && y != x ==> Before(x, y)
  }

  lemma {:induction false} LeastExists(s: set<string>)
    requires s != {}
    ensures exists x :: x in s && Least(x, s)
  {
    var y :| y in s;
    var rest := s - {y};
    if rest == {} {
      assert s == {y};
      assert Least(y, s);
    } else {
      LeastExists(rest);
      var x :| x in rest && Least(x, rest);
      BeforeIsTotal(x, y);
      if Before(x, y) {
        assert Least(x, s);
      } else {
        forall z | z in s && z != y ensures Before(y, z) {
          if z != x {
            BeforeIsTransitive(y, x, z);
          }
        }
        assert Least(y, s);
      }
    }
  }

  lemma LeastIsUnique(s: set<string>)
    ensures forall x, y :: Least(x, s) && Least(y, s) ==> x == y
  {
    forall x, y | Least(x, s) && Least(y, s) ensures x == y {
      BeforeIsTotal(x, y);
    }
  }

  /** `sorted(s)` of a set. */
  function SortedList(s: set<string>): (r: seq<string>)
    ensures |r| == |s|
    ensures forall x :: x in r <==> x in s
  {
    if s == {} then []
    else
      LeastExists(s);
      LeastIsUnique(s);
      var x :| x in s && Least(x, s);
      [x] + SortedList(s - {x})
  }

  lemma {:induction false} SortedListIncreases(s: set<string>)
    ensures Increasing(SortedList(s))
  {
    if s != {} {
      var r := SortedList(s);
      LeastFirst(s);
      var rest := SortedList(s - {r[0]});
      SortedListIncreases(s - {r[0]});
      hide Least, Before;
      forall j | 0 <= j < |rest| ensures Before(r[0], rest[j]) {
        assert rest[j] in rest;
      }
    }
  }

  lemma LeastFirst(s: set<string>)
    requires s != {}
    ensures
      var r := SortedList(s);
      r != [] && r[0] in s && r == [r[0]] + SortedList(s - {r[0]}) && forall y :: y in s - {r[0]} ==> Before(r[0], y)
  {
  }
}
