/** The review summary of a configuration file: what the dashboard collects from the JSON
    tree, and the independent check that an artifact loader makes of it. */
module ReviewSummary {
  import opened Wrappers
  import opened Sequences
  import opened Json
  import Text

  type Members = seq<(string, Json)>

  /** `d.get(key)`; a parsed object has each key once. */
  function Member(d: Members, key: string): Json {
    if d == [] then Null
    else if d[0].0 == key then d[0].1
    else Member(d[1..], key)
  }

  /** Text of a value, with `show` printing what is no string. */
  function TextOf(j: Json, show: Json -> string): string {
    match j
    case Null => ""
    case Str(s) => Text.Strip(s)
    case _ => Text.Strip(show(j))
  }

  /** What one object, or the whole tree, contributes. */
  datatype Found = Found(
    reviews: multiset<string>, approvals: multiset<string>,
    reviewers: set<string>, approvers: set<string>, deciders: set<string>, signatures: set<string>) {
    function Plus(f: Found): Found {
      Found(reviews + f.reviews, approvals + f.approvals, reviewers + f.reviewers, approvers + f.approvers,
            deciders + f.deciders, signatures + f.signatures)
    }
  }

  const NOTHING := Found(multiset{}, multiset{}, {}, {}, {}, {})

  function Once(t: string): set<string> {
    if t == "" then {} else {t}
  }

  function Tally(t: string): multiset<string> {
    if t == "" then multiset{} else multiset{t}
  }

  function Field(d: Members, key: string, show: Json -> string): string {
    TextOf(Member(d, key), show)
  }

  function FoundHere(d: Members, show: Json -> string): Found {
    Found(Tally(Field(d, "review_status", show)), Tally(Field(d, "approval_status", show)),
          Once(Field(d, "reviewed_by", show)), Once(Field(d, "approved_by", show)), Once(Field(d, "decided_by", show)),
          Once(Field(d, "signature_ref", show)) + Once(Field(d, "review_signature", show)))
  }

  function Counted(m: multiset<string>, t: string): (r: multiset<string>)
    ensures r == m + Tally(t)
  {
    if t == "" then m else m + multiset{t}
  }

  function AddUnique(s: set<string>, t: string): (r: set<string>)
    ensures r == s + Once(t)
  {
    if t == "" then s else s + {t}
  }

  lemma PlusNothing(f: Found)
    ensures f.Plus(NOTHING) == f && NOTHING.Plus(f) == f
  {
    MultisetLaws(f.reviews, f.reviews, f.reviews);
    MultisetLaws(f.approvals, f.approvals, f.approvals);
  }

  lemma PlusLaws(f: Found, g: Found, h: Found)
    ensures f.Plus(g).Plus(h) == f.Plus(g.Plus(h))
  {
    MultisetLaws(f.reviews, g.reviews, h.reviews);
    MultisetLaws(f.approvals, g.approvals, h.approvals);
    SetLaw(f.reviewers, g.reviewers, h.reviewers);
    SetLaw(f.approvers, g.approvers, h.approvers);
    SetLaw(f.deciders, g.deciders, h.deciders);
    SetLaw(f.signatures, g.signatures, h.signatures);
  }

  lemma MultisetLaws<T>(a: multiset<T>, b: multiset<T>, c: multiset<T>)
    ensures a + multiset{} == a && multiset{} + a == a
    ensures (a + b) + c == a + (b + c)
  {
  }

  lemma SetLaw<T>(a: set<T>, b: set<T>, c: set<T>)
    ensures (a + b) + c == a + (b + c)
  {
  }

  /** The objects of a tree, each before those inside it. */
  function Objects(j: Json): seq<Members>
    decreases j, 1
  {
    match j
    case Arr(_) => Flat(PartsOf(j))
    case Obj(members) => [members] + Flat(PartsOf(j))
    case _ => []
  }

  /** The objects inside each item of a list or each member of an object. */
  function PartsOf(j: Json): seq<seq<Members>>
    decreases j, 0
  {
    match j
    case Arr(items) => seq(|items|, i requires 0 <= i < |items| => Objects(items[i]))
    case Obj(members) => seq(|members|, i requires 0 <= i < |members| => Objects(members[i].1))
    case _ => []
  }

  function Flat(s: seq<seq<Members>>): seq<Members> {
    if s == [] then [] else Flat(s[..|s| - 1]) + s[|s| - 1]
  }

  function FoundIn(objects: seq<Members>, show: Json -> string): Found {
    if objects == [] then NOTHING
    else FoundIn(objects[..|objects| - 1], show).Plus(FoundHere(objects[|objects| - 1], show))
  }

  lemma {:induction false} FoundInBoth(a: seq<Members>, b: seq<Members>, show: Json -> string)
    ensures FoundIn(a + b, show) == FoundIn(a, show).Plus(FoundIn(b, show))
  {
    if b == [] {
      assert a + b == a;
      PlusNothing(FoundIn(a, show));
    } else {
      hide FoundHere, Found.Plus;
      var front, last := b[..|b| - 1], b[|b| - 1];
      assert (a + b)[..|a + b| - 1] == a + front && (a + b)[|a + b| - 1] == last;
      FoundInBoth(a, front, show);
      PlusLaws(FoundIn(a, show), FoundIn(front, show), FoundHere(last, show));
    }
  }

  lemma FoundInOne(d: Members, show: Json -> string)
    ensures FoundIn([d], show) == FoundHere(d, show)
  {
    assert [d][..0] == [];
    PlusNothing(FoundHere(d, show));
  }

  lemma FlatSnoc(s: seq<seq<Members>>, n: nat)
    requires n < |s|
    ensures Flat(s[..n + 1]) == Flat(s[..n]) + s[n]
  {
    assert s[..n + 1][..n] == s[..n];
  }

  // ----- The visitor --------------------------------------------------------------------------------

  /** The counters and sets that the visit fills. */
  class Collector {
    var reviews: multiset<string>
    var approvals: multiset<string>
    var reviewers: set<string>
    var approvers: set<string>
    var deciders: set<string>
    var signatures: set<string>
    const show: Json -> string

    constructor (printer: Json -> string)
      ensures Value() == NOTHING && show == printer
    {
      reviews, approvals := multiset{}, multiset{};
      reviewers, approvers, deciders, signatures := {}, {}, {}, {};
      show := printer;
    }

    function Value(): Found
      reads this
    {
      Found(reviews, approvals, reviewers, approvers, deciders, signatures)
    }

    method Note(d: Members)
      modifies this
      ensures Value() == old(Value()).Plus(FoundHere(d, show))
    {
      hide Field, Once, Tally, Counted, AddUnique;
      reviews := Counted(reviews, Field(d, "review_status", show));
      approvals := Counted(approvals, Field(d, "approval_status", show));
      reviewers := AddUnique(reviewers, Field(d, "reviewed_by", show));
      approvers := AddUnique(approvers, Field(d, "approved_by", show));
      deciders := AddUnique(deciders, Field(d, "decided_by", show));
      signatures := AddUnique(signatures, Field(d, "signature_ref", show));
      signatures := AddUnique(signatures, Field(d, "review_signature", show));
      SetLaw(old(signatures), Once(Field(d, "signature_ref", show)), Once(Field(d, "review_signature", show)));
    }

    /** Visiting adds what every object of the tree contributes, once. */
    method Visit(value: Json)
      modifies this
      ensures Value() == old(Value()).Plus(FoundIn(Objects(value), show))
      decreases value, 1
    {
      hide Flat, FoundIn, FoundHere, Found.Plus;
      match value
      case Arr(items) => VisitItems(value);
      case Obj(members) =>
        Note(members);
        VisitMembers(value);
        ghost var inside := Flat(PartsOf(value));
        FoundInOne(members, show);
        FoundInBoth([members], inside, show);
        PlusLaws(old(Value()), FoundHere(members, show), FoundIn(inside, show));
      case _ => Untouched();
    }

    lemma Untouched()
      ensures Value() == Value().Plus(FoundIn([], show))
    {
      PlusNothing(Value());
    }

    method VisitItems(value: Json)
      requires value.Arr?
      modifies this
      ensures Value() == old(Value()).Plus(FoundIn(Flat(PartsOf(value)), show))
      decreases value, 0
    {
      ghost var parts := PartsOf(value);
      assert Flat(parts[..0]) == [];
      Untouched();
      hide Flat, FoundIn, FoundHere, Found.Plus, PartsOf, Value;
      for n := 0 to |value.items|
        invariant Value() == old(Value()).Plus(FoundIn(Flat(parts[..n]), show))
      {
        PartAt(value, n);
        Visit(value.items[n]);
        OneMorePart(old(Value()), parts, n, show);
      }
      assert parts[..|value.items|] == parts;
    }

    method VisitMembers(value: Json)
      requires value.Obj?
      modifies this
      ensures Value() == old(Value()).Plus(FoundIn(Flat(PartsOf(value)), show))
      decreases value, 0
    {
      ghost var parts := PartsOf(value);
      assert Flat(parts[..0]) == [];
      Untouched();
      hide Flat, FoundIn, FoundHere, Found.Plus, PartsOf, Value;
      for n := 0 to |value.members|
        invariant Value() == old(Value()).Plus(FoundIn(Flat(parts[..n]), show))
      {
        PartAt(value, n);
        Visit(value.members[n].1);
        OneMorePart(old(Value()), parts, n, show);
      }
      assert parts[..|value.members|] == parts;
    }
  }

  function Children(j: Json): nat {
    match j
    case Arr(items) => |items|
    case Obj(members) => |members|
    case _ => 0
  }

  lemma PartAt(j: Json, n: nat)
    requires n < Children(j)
    ensures |PartsOf(j)| == Children(j)
    ensures j.Arr? ==> PartsOf(j)[n] == Objects(j.items[n])
    ensures j.Obj? ==> PartsOf(j)[n] == Objects(j.members[n].1)
  {
  }

  lemma OneMorePart(start: Found, parts: seq<seq<Members>>, n: nat, show: Json -> string)
    requires n < |parts|
    ensures
      start.Plus(FoundIn(Flat(parts[..n]), show)).Plus(FoundIn(parts[n], show)) == start.Plus(FoundIn(Flat(parts[..n + 1]), show))
  {
    hide Flat, FoundIn, Found.Plus;
    FlatSnoc(parts, n);
    FoundInBoth(Flat(parts[..n]), parts[n], show);
    PlusLaws(start, FoundIn(Flat(parts[..n]), show), FoundIn(parts[n], show));
  }

  // ----- The summary -------------------------------------------------------------------------------

  /** An absent list or counter is empty, an absent number is `None`. */
  datatype Summary = Summary(
    reviewCounts: seq<(string, nat)>, reviewed: Option<nat>,
    approvalCounts: seq<(string, nat)>, approved: Option<nat>,
    reviewers: seq<string>, approvers: seq<string>, deciders: seq<string>,
    signatures: seq<string>, signed: Option<nat>)

  function Elements(m: multiset<string>): set<string> {
    set s | s in m
  }

  /** `{key: counter[key] for key in sorted(counter)}`. */
  function CountsOf(keys: seq<string>, m: multiset<string>): (r: seq<(string, nat)>)
    ensures |r| == |keys|
    ensures forall i :: 0 <= i < |keys| ==> r[i] == (keys[i], m[keys[i]])
  {
    seq(|keys|, i requires 0 <= i < |keys| => (keys[i], m[keys[i]]))
  }

  function Summarised(f: Found): Summary {
    Summary(
      CountsOf(Text.SortedList(Elements(f.reviews)), f.reviews), if f.reviews == multiset{} then None else Some(|f.reviews|),
      CountsOf(Text.SortedList(Elements(f.approvals)), f.approvals), if f.approvals == multiset{} then None else Some(|f.approvals|),
      Text.SortedList(f.reviewers), Text.SortedList(f.approvers), Text.SortedList(f.deciders),
      Text.SortedList(f.signatures), if f.signatures == {} then None else Some(|f.signatures|))
  }

  const EMPTY := Summary([], None, [], None, [], [], [], [], None)

  /** The review summary of a whole configuration tree. */
  method ConfigReviewSummary(raw: Json, show: Json -> string) returns (summary: Summary)
    ensures summary == Summarised(FoundIn(Objects(raw), show))
  {
    hide FoundIn, Objects, Summarised, Found.Plus;
    var c := new Collector(show);
    c.Visit(raw);
    PlusNothing(FoundIn(Objects(raw), show));
    summary := Summarised(c.Value());
  }

  // ----- The check ----------------------------------------------------------------------------------

  datatype Problem = ReviewedCount | ApprovedCount | SignedCount | NotSorted(list: string)

  function Sum(counts: seq<(string, nat)>): nat {
    if counts == [] then 0 else Sum(counts[..|counts| - 1]) + counts[|counts| - 1].1
  }

  function ProblemIf(bad: bool, p: Problem): seq<Problem> {
    if bad then [p] else []
  }

  function Lists(s: Summary): seq<(string, seq<string>)> {
    [("reviewers", s.reviewers), ("approvers", s.approvers), ("deciders", s.deciders), ("signature_refs", s.signatures)]
  }

  function ListProblems(lists: seq<(string, seq<string>)>): seq<Problem> {
    if lists == [] then []
    else
      var last := lists[|lists| - 1];
      ListProblems(lists[..|lists| - 1]) + ProblemIf(last.1 != Text.SortedSet(last.1), NotSorted(last.0))
  }

  function TotalProblems(s: Summary): seq<Problem> {
    ProblemIf(s.reviewCounts != [] && s.reviewed != Some(Sum(s.reviewCounts)), ReviewedCount)
    + ProblemIf(s.approvalCounts != [] && s.approved != Some(Sum(s.approvalCounts)), ApprovedCount)
    + ProblemIf(s.signatures != [] && s.signed != Some(|s.signatures|), SignedCount)
  }

  /** What the loader reports. */
  function Problems(s: Summary): seq<Problem> {
    TotalProblems(s) + ListProblems(Lists(s))
  }

  /** The totals agree with the counters, and every list increases. */
  ghost predicate Consistent(s: Summary) {
    && (s.reviewCounts != [] ==> s.reviewed == Some(Sum(s.reviewCounts)))
    && (s.approvalCounts != [] ==> s.approved == Some(Sum(s.approvalCounts)))
    && (s.signatures != [] ==> s.signed == Some(|s.signatures|))
    && Text.Increasing(s.reviewers) && Text.Increasing(s.approvers) && Text.Increasing(s.deciders)
    && Text.Increasing(s.signatures)
  }

  method CheckReviewSummary(s: Summary) returns (errors: seq<Problem>)
    ensures errors == Problems(s)
    ensures errors == [] <==> Consistent(s)
  {
    ProblemsIff(s);
    hide Text.SortedSet, Consistent, Lists, Sum;
    errors := CheckTotals(s);
    ghost var own := errors;
    var lists := Lists(s);
    for n := 0 to |lists|
      invariant errors == own + ListProblems(lists[..n])
    {
      assert lists[..n + 1][..n] == lists[..n];
      if lists[n].1 != Text.SortedSet(lists[n].1) {
        errors := errors + [NotSorted(lists[n].0)];
      }
    }
    assert lists[..|lists|] == lists;
  }

  method CheckTotals(s: Summary) returns (errors: seq<Problem>)
    ensures errors == TotalProblems(s)
  {
    errors := [];
    if s.reviewCounts != [] && s.reviewed != Some(Sum(s.reviewCounts)) {
      errors := errors + [ReviewedCount];
    }
    if s.approvalCounts != [] && s.approved != Some(Sum(s.approvalCounts)) {
      errors := errors + [ApprovedCount];
    }
    if s.signatures != [] && s.signed != Some(|s.signatures|) {
      errors := errors + [SignedCount];
    }
  }

  lemma {:induction false} NoListProblems(lists: seq<(string, seq<string>)>)
    ensures ListProblems(lists) == [] <==> forall i :: 0 <= i < |lists| ==> Text.Increasing(lists[i].1)
  {
    hide Text.SortedSet, Text.Increasing;
    if lists != [] {
      NoListProblems(lists[..|lists| - 1]);
      Text.SortedIffIncreasing(lists[|lists| - 1].1);
    }
  }

  /** The check is exact. */
  lemma ProblemsIff(s: Summary)
    ensures Problems(s) == [] <==> Consistent(s)
  {
    hide ListProblems, Text.Increasing;
    NoListProblems(Lists(s));
    var l := Lists(s);
    assert l[0].1 == s.reviewers && l[1].1 == s.approvers && l[2].1 == s.deciders && l[3].1 == s.signatures;
  }

  // ----- The producer meets the checker ------------------------------------------------------------------

  /** The listed counts of all elements add up to the whole. */
  lemma {:induction false} CountsAddUp(keys: seq<string>, m: multiset<string>)
    requires Distinct(keys) && forall s :: s in m <==> s in keys
    ensures Sum(CountsOf(keys, m)) == |m|
  {
    if keys == [] {
      assert m == multiset{};
    } else {
      var front, last := keys[..|keys| - 1], keys[|keys| - 1];
      assert keys == front + [last];
      var rest := m[last := 0];
      WithoutLast(keys, m);
      CountsAddUp(front, rest);
    }
  }

  lemma WithoutLast(keys: seq<string>, m: multiset<string>)
    requires keys != [] && Distinct(keys) && forall s :: s in m <==> s in keys
    ensures
      var front, rest := keys[..|keys| - 1], m[keys[|keys| - 1] := 0];
      && (forall s :: s in rest <==> s in front)
      && CountsOf(keys, m)[..|front|] == CountsOf(front, rest)
      && |m| == |rest| + m[keys[|keys| - 1]]
  {
    var front, last := keys[..|keys| - 1], keys[|keys| - 1];
    var rest := m[last := 0];
    assert keys == front + [last];
    assert last !in front by {
      forall i | 0 <= i < |front| ensures front[i] != last {
        assert keys[i] != keys[|front|];
      }
    }
    forall s ensures s in rest <==> s in front {
      assert s in m <==> s in keys;
    }
    var a, b := CountsOf(keys, m)[..|front|], CountsOf(front, rest);
    forall i | 0 <= i < |front| ensures a[i] == b[i] {
      assert front[i] in front;
    }
    assert a == b;
  }

  lemma CounterIsConsistent(m: multiset<string>)
    ensures
      var counts := CountsOf(Text.SortedList(Elements(m)), m);
      (counts == [] <==> m == multiset{}) && Sum(counts) == |m|
  {
    var keys := Text.SortedList(Elements(m));
    Text.SortedListIncreases(Elements(m));
    Text.IncreasingIsDistinct(keys);
    CountsAddUp(keys, m);
    if m != multiset{} {
      var s :| s in m;
      assert s in keys;
    }
  }

  /** For every configuration tree the summary that is produced passes the check, and its
      lists and totals are exactly those of the objects in the tree. */
  lemma SummaryIsConsistent(raw: Json, show: Json -> string)
    ensures
      var f, s := FoundIn(Objects(raw), show), Summarised(FoundIn(Objects(raw), show));
      && Consistent(s) && Problems(s) == []
      && (forall x :: x in s.reviewers <==> x in f.reviewers) && (forall x :: x in s.signatures <==> x in f.signatures)
      && s.signed == (if f.signatures == {} then None else Some(|f.signatures|))
      && s.reviewed == (if f.reviews == multiset{} then None else Some(|f.reviews|))
  {
    hide FoundIn, Objects;
    var f := FoundIn(Objects(raw), show);
    CounterIsConsistent(f.reviews);
    CounterIsConsistent(f.approvals);
    Text.SortedListIncreases(f.reviewers);
    Text.SortedListIncreases(f.approvers);
    Text.SortedListIncreases(f.deciders);
    Text.SortedListIncreases(f.signatures);
    ProblemsIff(Summarised(f));
  }

  predicate ReviewedBy(d: Members, show: Json -> string, x: string) {
    x != "" && Field(d, "reviewed_by", show) == x
  }

  predicate SignedBy(d: Members, show: Json -> string, x: string) {
    x != "" && (Field(d, "signature_ref", show) == x || Field(d, "review_signature", show) == x)
  }

  lemma HereMembers(d: Members, show: Json -> string, x: string)
    ensures x in FoundHere(d, show).reviewers <==> ReviewedBy(d, show, x)
    ensures x in FoundHere(d, show).signatures <==> SignedBy(d, show, x)
  {
    hide Field;
  }

  /** A reviewer is listed exactly when some object of the tree names them, and a signature
      exactly when some object refers to it. */
  lemma {:induction false} FoundMembers(objects: seq<Members>, show: Json -> string, x: string)
    ensures x in FoundIn(objects, show).reviewers <==> exists d :: d in objects && ReviewedBy(d, show, x)
    ensures x in FoundIn(objects, show).signatures <==> exists d :: d in objects && SignedBy(d, show, x)
  {
    hide FoundHere, ReviewedBy, SignedBy;
    if objects != [] {
      var front, last := objects[..|objects| - 1], objects[|objects| - 1];
      FoundMembers(front, show, x);
      HereMembers(last, show, x);
      forall d ensures d in objects <==> d in front || d == last {
        assert objects == front + [last];
      }
    }
  }
}
