/** Filters that drop ignored findings from a scanner's document, in place. */
module IgnoreFilters {
  import opened Sequences
  import opened Glob
  import opened IgnoreMatcher

  // ----- Dropping by a test -----------------------------------------------------------------

  /** The elements that the test does not drop, in order. */
  function Kept<T>(s: seq<T>, drop: T -> bool): seq<T> {
    if s == [] then []
    else
      var r, x := Kept(s[..|s| - 1], drop), s[|s| - 1];
      if drop(x) then r else r + [x]
  }

  function Weight<T>(s: seq<T>, w: T -> nat): nat {
    if s == [] then 0 else Weight(s[..|s| - 1], w) + w(s[|s| - 1])
  }

  function Not<T>(drop: T -> bool): T -> bool {
    x => !drop(x)
  }

  lemma KeptSnoc<T>(s: seq<T>, x: T, drop: T -> bool)
    ensures Kept(s + [x], drop) == if drop(x) then Kept(s, drop) else Kept(s, drop) + [x]
  {
    assert (s + [x])[..|s|] == s;
  }

  lemma WeightSnoc<T>(s: seq<T>, x: T, w: T -> nat)
    ensures Weight(s + [x], w) == Weight(s, w) + w(x)
  {
    assert (s + [x])[..|s|] == s;
  }

  lemma TakeWeight<T>(s: seq<T>, n: nat, w: T -> nat)
    requires n < |s|
    ensures Weight(s[..n + 1], w) == Weight(s[..n], w) + w(s[n])
  {
    assert s[..n + 1] == s[..n] + [s[n]];
    WeightSnoc(s[..n], s[n], w);
  }

  /** Filtering keeps a subsequence: nothing is added, repeated or reordered. */
  lemma {:induction false} KeptIsSubsequence<T>(s: seq<T>, drop: T -> bool)
    ensures Subsequence(Kept(s, drop), s)
    ensures forall x :: x in Kept(s, drop) ==> x in s && !drop(x)
  {
    if s != [] {
      var front := s[..|s| - 1];
      assert s == front + [s[|s| - 1]];
      KeptIsSubsequence(front, drop);
      var r := Kept(front, drop);
      assert (r + [s[|s| - 1]])[..|r|] == r;
    }
  }

  /** What is kept and what is dropped add up to what was there. */
  lemma {:induction false} WeightSplits<T>(s: seq<T>, drop: T -> bool, w: T -> nat)
    ensures Weight(s, w) == Weight(Kept(s, drop), w) + Weight(Kept(s, Not(drop)), w)
  {
    if s != [] {
      var front, x := s[..|s| - 1], s[|s| - 1];
      WeightSplits(front, drop, w);
      WeightSnoc(Kept(front, drop), x, w);
      WeightSnoc(Kept(front, Not(drop)), x, w);
    }
  }

  /** A pass whose test is what two tests drop together equals the two passes in turn. */
  lemma {:induction false} PassesCompose<T>(s: seq<T>, p: T -> bool, q: T -> bool, both: T -> bool)
    requires forall x :: x in s ==> (both(x) <==> p(x) || q(x))
    ensures Kept(s, both) == Kept(Kept(s, p), q)
  {
    if s != [] {
      var front, x := s[..|s| - 1], s[|s| - 1];
      assert s == front + [x];
      PassesCompose(front, p, q, both);
      KeptSnoc(Kept(front, p), x, q);
    }
  }

  lemma KeptIsIdempotent<T>(s: seq<T>, drop: T -> bool)
    ensures Kept(Kept(s, drop), drop) == Kept(s, drop)
  {
    PassesCompose(s, drop, drop, drop);
  }

  /** A test that drops at least as much leaves a subsequence of what the two leave. */
  lemma {:induction false} StrongerPassDropsMore<T>(s: seq<T>, p: T -> bool, q: T -> bool, both: T -> bool)
    requires forall x :: x in s && (p(x) || q(x)) ==> both(x)
    ensures Subsequence(Kept(s, both), Kept(Kept(s, p), q))
  {
    if s != [] {
      var front, x := s[..|s| - 1], s[|s| - 1];
      assert s == front + [x];
      StrongerPassDropsMore(front, p, q, both);
      KeptSnoc(Kept(front, p), x, q);
      var r, t := Kept(front, both), Kept(Kept(front, p), q);
      assert (r + [x])[..|r|] == r && (t + [x])[..|t|] == t;
    }
  }

  // ----- Documents ------------------------------------------------------------------------------

  class Document<T> {
    var body: T

    constructor (body: T)
      ensures this.body == body
    {
      this.body := body;
    }
  }

  /** A finding with one path (Gitleaks). */
  datatype Leak = Leak(file: string, payload: string)

  /** A finding with any number of paths (a Semgrep result, a Grype match). */
  datatype Located = Located(paths: seq<string>, payload: string)

  datatype Run = Run(results: seq<Located>)

  datatype TrivyResult = TrivyResult(
    target: string, misconfigurations: seq<string>, vulnerabilities: seq<string>, secrets: seq<string>)

  function LeakIgnored(patterns: seq<string>, classes: Classes): Leak -> bool {
    (f: Leak) => Ignored(f.file, patterns, classes)
  }

  predicate AllIgnored(paths: seq<string>, patterns: seq<string>, classes: Classes) {
    forall i :: 0 <= i < |paths| ==> Ignored(paths[i], patterns, classes)
  }

  /** A result is dropped only when it has locations and every one of them is ignored. */
  function LocatedIgnored(patterns: seq<string>, classes: Classes): Located -> bool {
    (r: Located) => r.paths != [] && AllIgnored(r.paths, patterns, classes)
  }

  function TargetIgnored(patterns: seq<string>, classes: Classes): TrivyResult -> bool {
    (r: TrivyResult) => Ignored(r.target, patterns, classes)
  }

  method FilterGitleaks(doc: Document<seq<Leak>>, patterns: seq<string>, classes: Classes) returns (before: nat, after: nat)
    modifies doc
    ensures doc.body == Kept(old(doc.body), LeakIgnored(patterns, classes))
    ensures before == |old(doc.body)| && after == |doc.body|
  {
    var data := doc.body;
    var kept := [];
    for n := 0 to |data|
      invariant kept == Kept(data[..n], LeakIgnored(patterns, classes))
    {
      assert data[..n + 1][..n] == data[..n];
      var ignored := MatchesAny(data[n].file, patterns, classes);
      if !ignored {
        kept := kept + [data[n]];
      }
    }
    assert data[..|data|] == data;
    doc.body := kept;
    before, after := |data|, |kept|;
  }

  /** `paths and all(matches_any(p) for p in paths)`. */
  method EveryLocationIgnored(r: Located, patterns: seq<string>, classes: Classes) returns (drop: bool)
    ensures drop == LocatedIgnored(patterns, classes)(r)
  {
    for n := 0 to |r.paths|
      invariant forall i :: 0 <= i < n ==> Ignored(r.paths[i], patterns, classes)
    {
      var ignored := MatchesAny(r.paths[n], patterns, classes);
      if !ignored {
        return false;
      }
    }
    drop := r.paths != [];
  }

  method KeepLocated(results: seq<Located>, patterns: seq<string>, classes: Classes) returns (kept: seq<Located>)
    ensures kept == Kept(results, LocatedIgnored(patterns, classes))
  {
    kept := [];
    for n := 0 to |results|
      invariant kept == Kept(results[..n], LocatedIgnored(patterns, classes))
    {
      assert results[..n + 1][..n] == results[..n];
      var drop := EveryLocationIgnored(results[n], patterns, classes);
      if !drop {
        kept := kept + [results[n]];
      }
    }
    assert results[..|results|] == results;
  }

  function FilteredRuns(runs: seq<Run>, patterns: seq<string>, classes: Classes): (r: seq<Run>)
    ensures |r| == |runs|
    ensures forall i :: 0 <= i < |runs| ==> r[i] == Run(Kept(runs[i].results, LocatedIgnored(patterns, classes)))
  {
    seq(|runs|, i requires 0 <= i < |runs| => Run(Kept(runs[i].results, LocatedIgnored(patterns, classes))))
  }

  function Results(r: Run): nat {
    |r.results|
  }

  /** Every run keeps its place; only its results are filtered. */
  method FilterSemgrep(doc: Document<seq<Run>>, patterns: seq<string>, classes: Classes) returns (before: nat, after: nat)
    modifies doc
    ensures doc.body == FilteredRuns(old(doc.body), patterns, classes)
    ensures before == Weight(old(doc.body), Results) && after == Weight(doc.body, Results)
  {
    ghost var runs := doc.body;
    ghost var want := FilteredRuns(runs, patterns, classes);
    before, after := 0, 0;
    for n := 0 to |doc.body|
      invariant |doc.body| == |runs|
      invariant forall i :: 0 <= i < |runs| ==> doc.body[i] == if i < n then want[i] else runs[i]
      invariant before == Weight(runs[..n], Results) && after == Weight(want[..n], Results)
    {
      var run := doc.body[n];
      before := before + |run.results|;
      var kept := KeepLocated(run.results, patterns, classes);
      doc.body := doc.body[n := Run(kept)];
      after := after + |kept|;
      TakeWeight(runs, n, Results);
      TakeWeight(want, n, Results);
    }
    assert runs[..|runs|] == runs && want[..|runs|] == want && doc.body == want;
  }

  method FilterGrype(doc: Document<seq<Located>>, patterns: seq<string>, classes: Classes) returns (before: nat, after: nat)
    modifies doc
    ensures doc.body == Kept(old(doc.body), LocatedIgnored(patterns, classes))
    ensures before == |old(doc.body)| && after == |doc.body|
  {
    before := |doc.body|;
    var kept := KeepLocated(doc.body, patterns, classes);
    doc.body := kept;
    after := |kept|;
  }

  function Blanked(r: TrivyResult, patterns: seq<string>, classes: Classes): TrivyResult {
    if Ignored(r.target, patterns, classes) then r.(misconfigurations := []) else r
  }

  function BlankedAll(rs: seq<TrivyResult>, patterns: seq<string>, classes: Classes): (r: seq<TrivyResult>)
    ensures |r| == |rs|
    ensures forall i :: 0 <= i < |rs| ==> r[i] == Blanked(rs[i], patterns, classes)
  {
    seq(|rs|, i requires 0 <= i < |rs| => Blanked(rs[i], patterns, classes))
  }

  function Misconfigurations(r: TrivyResult): nat {
    |r.misconfigurations|
  }

  function Vulnerable(r: TrivyResult): nat {
    |r.vulnerabilities| + |r.secrets|
  }

  /** Results stay; an ignored target loses its misconfigurations. */
  method FilterTrivyConfig(doc: Document<seq<TrivyResult>>, patterns: seq<string>, classes: Classes)
    returns (before: nat, after: nat)
    modifies doc
    ensures doc.body == BlankedAll(old(doc.body), patterns, classes)
    ensures before == Weight(old(doc.body), Misconfigurations) && after == Weight(doc.body, Misconfigurations)
  {
    hide Ignored;
    ghost var rs := doc.body;
    ghost var want := BlankedAll(rs, patterns, classes);
    before, after := 0, 0;
    for n := 0 to |doc.body|
      invariant |doc.body| == |rs|
      invariant forall i :: 0 <= i < |rs| ==> doc.body[i] == if i < n then want[i] else rs[i]
      invariant before == Weight(rs[..n], Misconfigurations) && after == Weight(want[..n], Misconfigurations)
    {
      var r := doc.body[n];
      var ignored := MatchesAny(r.target, patterns, classes);
      before := before + |r.misconfigurations|;
      if ignored {
        doc.body := doc.body[n := r.(misconfigurations := [])];
      } else {
        after := after + |r.misconfigurations|;
      }
      TakeWeight(rs, n, Misconfigurations);
      TakeWeight(want, n, Misconfigurations);
    }
    assert rs[..|rs|] == rs && want[..|rs|] == want && doc.body == want;
  }

  /** An ignored target's whole result goes. */
  method FilterTrivy(doc: Document<seq<TrivyResult>>, patterns: seq<string>, classes: Classes) returns (before: nat, after: nat)
    modifies doc
    ensures doc.body == Kept(old(doc.body), TargetIgnored(patterns, classes))
    ensures before == Weight(old(doc.body), Vulnerable) && after == Weight(doc.body, Vulnerable)
  {
    var rs := doc.body;
    var kept := [];
    before, after := 0, 0;
    for n := 0 to |rs|
      invariant kept == Kept(rs[..n], TargetIgnored(patterns, classes))
      invariant before == Weight(rs[..n], Vulnerable) && after == Weight(kept, Vulnerable)
    {
      assert rs[..n + 1][..n] == rs[..n];
      var r := rs[n];
      before := before + |r.vulnerabilities| + |r.secrets|;
      var ignored := MatchesAny(r.target, patterns, classes);
      if !ignored {
        WeightSnoc(kept, r, Vulnerable);
        kept := kept + [r];
        after := after + |r.vulnerabilities| + |r.secrets|;
      }
    }
    assert rs[..|rs|] == rs;
    doc.body := kept;
  }

  // ----- Several ignore lists ---------------------------------------------------------------------

  /** One pass with both lists is a pass with each: Gitleaks and Trivy. */
  lemma OnePathPassesCompose(leaks: seq<Leak>, results: seq<TrivyResult>, p: seq<string>, q: seq<string>, classes: Classes)
    ensures Kept(leaks, LeakIgnored(p + q, classes)) == Kept(Kept(leaks, LeakIgnored(p, classes)), LeakIgnored(q, classes))
    ensures Kept(results, TargetIgnored(p + q, classes)) == Kept(Kept(results, TargetIgnored(p, classes)), TargetIgnored(q, classes))
    ensures BlankedAll(results, p + q, classes) == BlankedAll(BlankedAll(results, p, classes), q, classes)
  {
    hide Ignored;
    forall f: Leak ensures LeakIgnored(p + q, classes)(f) <==> LeakIgnored(p, classes)(f) || LeakIgnored(q, classes)(f) {
      IgnoredByParts(f.file, p, q, classes);
    }
    forall r: TrivyResult
      ensures TargetIgnored(p + q, classes)(r) <==> TargetIgnored(p, classes)(r) || TargetIgnored(q, classes)(r)
    {
      IgnoredByParts(r.target, p, q, classes);
    }
    PassesCompose(leaks, LeakIgnored(p, classes), LeakIgnored(q, classes), LeakIgnored(p + q, classes));
    PassesCompose(results, TargetIgnored(p, classes), TargetIgnored(q, classes), TargetIgnored(p + q, classes));
    forall i | 0 <= i < |results|
      ensures Blanked(results[i], p + q, classes) == Blanked(Blanked(results[i], p, classes), q, classes)
    {
      IgnoredByParts(results[i].target, p, q, classes);
    }
  }

  /** For Semgrep and Grype one pass with both lists drops at least as much. */
  lemma ManyPathPassesDropMore(results: seq<Located>, p: seq<string>, q: seq<string>, classes: Classes)
    ensures Subsequence(
      Kept(results, LocatedIgnored(p + q, classes)),
      Kept(Kept(results, LocatedIgnored(p, classes)), LocatedIgnored(q, classes)))
  {
    hide Ignored;
    forall r: Located | LocatedIgnored(p, classes)(r) || LocatedIgnored(q, classes)(r) ensures LocatedIgnored(p + q, classes)(r) {
      forall i | 0 <= i < |r.paths| ensures Ignored(r.paths[i], p + q, classes) {
        IgnoredByParts(r.paths[i], p, q, classes);
      }
    }
    StrongerPassDropsMore(results, LocatedIgnored(p, classes), LocatedIgnored(q, classes), LocatedIgnored(p + q, classes));
  }

  /** And strictly more exactly when a finding needs both lists: each of its paths is
      on one of them, but neither list has them all. */
  lemma DropsMoreIff(r: Located, p: seq<string>, q: seq<string>, classes: Classes)
    ensures
      (Kept([r], LocatedIgnored(p + q, classes)) == [] && Kept(Kept([r], LocatedIgnored(p, classes)), LocatedIgnored(q, classes)) == [r])
      <==>
      && r.paths != []
      && (forall i :: 0 <= i < |r.paths| ==> Ignored(r.paths[i], p, classes) || Ignored(r.paths[i], q, classes))
      && (exists i :: 0 <= i < |r.paths| && !Ignored(r.paths[i], p, classes))
      && (exists i :: 0 <= i < |r.paths| && !Ignored(r.paths[i], q, classes))
  {
    hide Ignored, Kept;
    forall i | 0 <= i < |r.paths|
      ensures Ignored(r.paths[i], p + q, classes) <==> Ignored(r.paths[i], p, classes) || Ignored(r.paths[i], q, classes)
    {
      IgnoredByParts(r.paths[i], p, q, classes);
    }
    KeptOne(r, LocatedIgnored(p + q, classes));
    KeptOne(r, LocatedIgnored(p, classes));
    KeptOne(r, LocatedIgnored(q, classes));
  }

  lemma KeptOne<T>(x: T, drop: T -> bool)
    ensures Kept([x], drop) == if drop(x) then [] else [x]
    ensures Kept([], drop) == []
  {
    assert [x][..0] == [];
  }
}
