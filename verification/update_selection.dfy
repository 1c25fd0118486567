/** Which updates of a proposal a list of `section:index` selectors picks. */
module UpdateSelection {
  import opened Wrappers
  import opened Sequences
  import opened Grouping

  /** All updates of a section, or those at some positions counted from one. */
  datatype Pick = Every | These(positions: set<nat>)

  datatype Error =
    | NoColon(selector: string) | UnknownSection(section: string) | BadIndex(selector: string) | NotOneBased(selector: string)
    | OutOfRange(section: string)

  /** The text before and after the first colon. */
  function Cut(s: string): Option<(string, string)> {
    if s == [] then None
    else if s[0] == ':' then Some(("", s[1..]))
    else
      var rest := Cut(s[1..]);
      if rest.None? then None else Some(([s[0]] + rest.value.0, rest.value.1))
  }

  /** A selector is cut exactly when it has a colon, and at its first one. */
  lemma {:induction false} CutAtFirstColon(s: string)
    ensures Cut(s).Some? <==> ':' in s
    ensures Cut(s).Some? ==> s == Cut(s).value.0 + ":" + Cut(s).value.1 && ':' !in Cut(s).value.0
  {
    if s != [] {
      assert s == [s[0]] + s[1..];
      if s[0] == ':' {
        assert s == "" + ":" + s[1..];
      } else {
        CutAtFirstColon(s[1..]);
      }
    }
  }

  /** The known sections and how the host reads an integer. */
  datatype Env = Env(sections: set<string>, toInt: string -> Option<int>)

  /** A section with one position, or with `None` for a wildcard. */
  function Parse(selector: string, env: Env): Result<(string, Option<nat>), Error> {
    var parts := Cut(selector);
    if parts.None? then Failure(NoColon(selector))
    else
      var (section, raw) := parts.value;
      if section !in env.sections then Failure(UnknownSection(section))
      else if raw == "*" then Success((section, None))
      else
        var index := env.toInt(raw);
        if index.None? then Failure(BadIndex(selector))
        else if index.value < 1 then Failure(NotOneBased(selector))
        else Success((section, Some(index.value)))
  }

  function Add(d: Dict<string, Pick>, section: string, index: Option<nat>): Dict<string, Pick> {
    if index.None? then d.Put(section, Every)
    else if section !in d.at then d.Put(section, These({index.value}))
    else if d.at[section].Every? then d
    else d.Put(section, These(d.at[section].positions + {index.value}))
  }

  function Selectors(selectors: seq<string>, env: Env): Result<Dict<string, Pick>, Error> {
    if selectors == [] then Success(Empty())
    else
      var d :- Selectors(selectors[..|selectors| - 1], env);
      var p :- Parse(selectors[|selectors| - 1], env);
      Success(Add(d, p.0, p.1))
  }

  lemma PutTwice(d: Dict<string, Pick>, k: string, a: Pick, b: Pick)
    ensures d.Put(k, a).Put(k, b) == d.Put(k, b)
  {
    assert d.at[k := a][k := b] == d.at[k := b];
  }

  lemma {:induction false} FirstBadSelector(selectors: seq<string>, n: nat, env: Env)
    requires n < |selectors| && Selectors(selectors[..n + 1], env).Failure?
    ensures Selectors(selectors, env) == Selectors(selectors[..n + 1], env)
  {
    hide Parse;
    if n + 1 == |selectors| {
      assert selectors[..n + 1] == selectors;
    } else {
      assert selectors[..|selectors| - 1][..n + 1] == selectors[..n + 1];
      FirstBadSelector(selectors[..|selectors| - 1], n, env);
    }
  }

  method SelectorMap(selectors: seq<string>, env: Env) returns (r: Result<Dict<string, Pick>, Error>)
    ensures r == Selectors(selectors, env)
  {
    hide Parse;
    var selected: Dict<string, Pick> := Empty();
    for n := 0 to |selectors|
      invariant Selectors(selectors[..n], env) == Success(selected)
    {
      assert selectors[..n + 1][..n] == selectors[..n];
      var p := Parse(selectors[n], env);
      if p.Failure? {
        FirstBadSelector(selectors, n, env);
        return Failure(p.error);
      }
      var (section, index) := p.value;
      if index.None? {
        selected := selected.Put(section, Every);
        continue;
      }
      if section !in selected.at {
        selected := selected.Put(section, These({}));
      }
      ghost var before := Selectors(selectors[..n], env).value;
      PutTwice(before, section, These({}), These({index.value}));
      assert {} + {index.value} == {index.value};
      if selected.at[section].These? {
        selected := selected.Put(section, These(selected.at[section].positions + {index.value}));
      }
    }
    assert selectors[..|selectors|] == selectors;
    r := Success(selected);
  }

  // ----- Taking the updates -------------------------------------------------------------------------

  predicate Smallest(x: nat, s: set<nat>) {
    x in s && forall y :: y in s ==> x <= y
  }

  lemma {:induction false} SmallestExists(s: set<nat>)
    requires s != {}
    ensures exists x :: x in s && Smallest(x, s)
  {
    var y :| y in s;
    var rest := s - {y};
    if rest == {} {
      assert s == {y} && Smallest(y, s);
    } else {
      SmallestExists(rest);
      var x :| x in rest && Smallest(x, rest);
      forall z | z in s ensures z == y || z in rest { }
      assert Smallest(x, s) || Smallest(y, s);
    }
  }

  function Least(s: set<nat>): (x: nat)
    requires s != {}
    ensures x in s && forall y :: y in s ==> x <= y
  {
    SmallestExists(s);
    var x :| x in s && Smallest(x, s);
    x
  }

  /** `sorted(s)`. */
  function Ascending(s: set<nat>): (r: seq<nat>)
    ensures |r| == |s|
    ensures forall x :: x in r <==> x in s
  {
    if s == {} then [] else [Least(s)] + Ascending(s - {Least(s)})
  }

  lemma {:induction false} AscendingIncreases(s: set<nat>)
    ensures forall i, j :: 0 <= i < j < |Ascending(s)| ==> Ascending(s)[i] < Ascending(s)[j]
  {
    hide Least;
    if s != {} {
      var rest := Ascending(s - {Least(s)});
      AscendingIncreases(s - {Least(s)});
      forall j | 0 <= j < |rest| ensures Least(s) < rest[j] {
        assert rest[j] in rest;
      }
    }
  }

  function TakeAt<T>(updates: seq<T>, positions: seq<nat>): (r: seq<T>)
    requires forall i :: 0 <= i < |positions| ==> 1 <= positions[i] <= |updates|
    ensures |r| == |positions|
    ensures forall i :: 0 <= i < |positions| ==> r[i] == updates[positions[i] - 1]
  {
    seq(|positions|, i requires 0 <= i < |positions| => updates[positions[i] - 1])
  }

  function Updates<T>(proposal: map<string, seq<T>>, section: string): seq<T> {
    if section in proposal then proposal[section] else []
  }

  function PickFrom<T>(updates: seq<T>, pick: Pick): Option<seq<T>> {
    match pick
    case Every => Some(updates)
    case These(positions) =>
      if forall p :: p in positions ==> 1 <= p <= |updates| then
        var at := Ascending(positions);
        assert forall i :: 0 <= i < |at| ==> at[i] in positions;
        Some(TakeAt(updates, at))
      else None
  }

  /** Every section's picked updates, or the first section whose selection is out of range. */
  function Selected<T>(proposal: map<string, seq<T>>, d: Dict<string, Pick>, keys: seq<string>): Result<Dict<string, seq<T>>, Error>
  {
    if keys == [] then Success(Empty())
    else
      var out :- Selected(proposal, d, keys[..|keys| - 1]);
      var section := keys[|keys| - 1];
      if section !in d.at then Success(out)
      else
        var picked := PickFrom(Updates(proposal, section), d.at[section]);
        if picked.None? then Failure(OutOfRange(section)) else Success(out.Put(section, picked.value))
  }

  lemma {:induction false} FirstOutOfRange<T>(proposal: map<string, seq<T>>, d: Dict<string, Pick>, keys: seq<string>, n: nat)
    requires n < |keys| && Selected(proposal, d, keys[..n + 1]).Failure?
    ensures Selected(proposal, d, keys) == Selected(proposal, d, keys[..n + 1])
  {
    hide PickFrom;
    if n + 1 == |keys| {
      assert keys[..n + 1] == keys;
    } else {
      assert keys[..|keys| - 1][..n + 1] == keys[..n + 1];
      FirstOutOfRange(proposal, d, keys[..|keys| - 1], n);
    }
  }

  method SelectedUpdates<T>(proposal: map<string, seq<T>>, d: Dict<string, Pick>) returns (r: Result<Dict<string, seq<T>>, Error>)
    requires d.Valid()
    ensures r == Selected(proposal, d, d.keys)
  {
    hide PickFrom;
    var out: Dict<string, seq<T>> := Empty();
    for n := 0 to |d.keys|
      invariant Selected(proposal, d, d.keys[..n]) == Success(out)
    {
      assert d.keys[..n + 1][..n] == d.keys[..n];
      var section := d.keys[n];
      assert section in d.keys;
      var picked := PickFrom(Updates(proposal, section), d.at[section]);
      if picked.None? {
        FirstOutOfRange(proposal, d, d.keys, n);
        return Failure(OutOfRange(section));
      }
      out := out.Put(section, picked.value);
    }
    assert d.keys[..|d.keys|] == d.keys;
    r := Success(out);
  }

  // ----- What a selection means -----------------------------------------------------------------------

  /** Some selector of the list reads as the section with this position. */
  ghost predicate Asked(selectors: seq<string>, env: Env, section: string, index: Option<nat>) {
    exists s :: s in selectors && Parse(s, env) == Success((section, index))
  }

  /** What the dictionary of selectors holds under a section. */
  ghost predicate Holds(d: Dict<string, Pick>, selectors: seq<string>, env: Env, section: string) {
    && (section in d.at <==> exists index :: Asked(selectors, env, section, index))
    && (section in d.at && d.at[section].Every? <==> Asked(selectors, env, section, None))
    && (section in d.at && d.at[section].These? ==>
      forall p :: p in d.at[section].positions <==> Asked(selectors, env, section, Some(p)))
  }

  lemma AskedSnoc(selectors: seq<string>, s: string, env: Env, section: string, index: Option<nat>)
    ensures Asked(selectors + [s], env, section, index) <==>
      Asked(selectors, env, section, index) || Parse(s, env) == Success((section, index))
  {
    hide Parse;
    forall x ensures x in selectors + [s] <==> x in selectors || x == s { }
  }

  /** The selectors are accepted exactly when each of them reads. Then a section is picked
      whole when some selector has a wildcard for it, and otherwise at just the positions
      that are asked for. */
  lemma {:induction false} SelectorsMean(selectors: seq<string>, env: Env)
    ensures Selectors(selectors, env).Success? <==> forall s :: s in selectors ==> Parse(s, env).Success?
    ensures Selectors(selectors, env).Success? ==>
      var d := Selectors(selectors, env).value;
      d.Valid() && forall section :: Holds(d, selectors, env, section)
  {
    hide Parse;
    if selectors != [] {
      var front, last := selectors[..|selectors| - 1], selectors[|selectors| - 1];
      assert selectors == front + [last] && last in selectors;
      SelectorsMean(front, env);
      if Selectors(selectors, env).Success? {
        var d, p := Selectors(front, env).value, Parse(last, env).value;
        forall section ensures Holds(Add(d, p.0, p.1), selectors, env, section) {
          AddMeans(d, front, last, env, section);
        }
      }
    }
  }

  lemma AddMeans(d: Dict<string, Pick>, front: seq<string>, last: string, env: Env, section: string)
    requires Holds(d, front, env, section) && d.Valid() && Parse(last, env).Success?
    ensures
      var p := Parse(last, env).value;
      Holds(Add(d, p.0, p.1), front + [last], env, section)
  {
    hide Parse, Asked;
    forall index ensures
      Asked(front + [last], env, section, index) <==> Asked(front, env, section, index) || Parse(last, env) == Success((section, index)) {
      AskedSnoc(front, last, env, section, index);
    }
  }

  /** Neither the order of the selectors nor repeating one matters: the same selectors pick
      the same. */
  lemma OrderOfSelectorsIsFree(a: seq<string>, b: seq<string>, env: Env)
    requires forall s :: s in a <==> s in b
    ensures Selectors(a, env).Success? <==> Selectors(b, env).Success?
    ensures Selectors(a, env).Success? ==> Selectors(a, env).value.at == Selectors(b, env).value.at
  {
    hide Parse, Selectors;
    SelectorsMean(a, env);
    SelectorsMean(b, env);
    if Selectors(a, env).Success? {
      var d, e := Selectors(a, env).value, Selectors(b, env).value;
      forall section ensures section in d.at <==> section in e.at {
        assert Holds(d, a, env, section) && Holds(e, b, env, section);
        SameAsked(a, b, env, section);
      }
      forall section | section in d.at ensures d.at[section] == e.at[section] {
        assert Holds(d, a, env, section) && Holds(e, b, env, section);
        SameAsked(a, b, env, section);
        hide Asked;
        if d.at[section].These? {
          assert d.at[section].positions == e.at[section].positions;
        }
      }
      assert d.at == e.at;
    }
  }

  lemma SameAsked(a: seq<string>, b: seq<string>, env: Env, section: string)
    requires forall s :: s in a <==> s in b
    ensures forall index :: Asked(a, env, section, index) <==> Asked(b, env, section, index)
  {
    hide Parse;
  }

  /** Positions are taken in the order of the proposal, each update at most once. */
  lemma PickedInProposalOrder<T>(updates: seq<T>, positions: set<nat>)
    ensures PickFrom(updates, These(positions)).Some? <==> forall p :: p in positions ==> 1 <= p <= |updates|
    ensures PickFrom(updates, These(positions)).Some? ==>
      var r, at := PickFrom(updates, These(positions)).value, Ascending(positions);
      && |r| == |positions|
      && (forall i, j :: 0 <= i < j < |at| ==> at[i] < at[j])
      && forall i :: 0 <= i < |at| ==> at[i] in positions && r[i] == updates[at[i] - 1]
  {
    hide Ascending;
    var at := Ascending(positions);
    AscendingIncreases(positions);
    forall i | 0 <= i < |at| ensures at[i] in positions {
      assert at[i] in at;
    }
  }
}
