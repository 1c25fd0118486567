/** The counters of each ruleset of the projection, and what they say of the rows. */
module RulesetSummary {
  import opened Wrappers
  import opened Sequences
  import opened Grouping
  import opened Sorting
  import opened RulesetProjection
  import Text

  // ----- Counting strings -----------------------------------------------------------------------------

  function Occurrences(tags: seq<string>, k: string): nat {
    if tags == [] then 0
    else Occurrences(tags[..|tags| - 1], k) + if tags[|tags| - 1] == k then 1 else 0
  }

  lemma OccurrencesSnoc(tags: seq<string>, t: string, k: string)
    ensures Occurrences(tags + [t], k) == Occurrences(tags, k) + if t == k then 1 else 0
  {
    assert (tags + [t])[..|tags|] == tags;
  }

  function HowMany(tags: seq<string>, p: string -> bool): nat {
    if tags == [] then 0
    else HowMany(tags[..|tags| - 1], p) + if p(tags[|tags| - 1]) then 1 else 0
  }

  lemma HowManySnoc(tags: seq<string>, t: string, p: string -> bool)
    ensures HowMany(tags + [t], p) == HowMany(tags, p) + if p(t) then 1 else 0
  {
    assert (tags + [t])[..|tags|] == tags;
  }

  /** Each string of `tags` with the number of its occurrences, by name. */
  function CountsOf(tags: seq<string>): (r: seq<(string, nat)>) {
    var keys := Text.SortedList(set k | k in tags);
    seq(|keys|, i requires 0 <= i < |keys| => (keys[i], Occurrences(tags, keys[i])))
  }

  lemma NoOccurrence(tags: seq<string>, k: string)
    ensures Occurrences(tags, k) == 0 <==> k !in tags
  {
    if tags != [] {
      NoOccurrence(tags[..|tags| - 1], k);
      assert tags == tags[..|tags| - 1] + [tags[|tags| - 1]];
    }
  }

  /** `dict(sorted(Counter(tags).items()))`. */
  method CountTags(tags: seq<string>) returns (counts: seq<(string, nat)>)
    ensures counts == CountsOf(tags)
  {
    hide Text.SortedList;
    var found: map<string, nat> := map[];
    for n := 0 to |tags|
      invariant forall k :: k in found <==> k in tags[..n]
      invariant forall k :: k in found ==> found[k] == Occurrences(tags[..n], k)
    {
      assert tags[..n + 1][..n] == tags[..n];
      NoOccurrence(tags[..n], tags[n]);
      found := found[tags[n] := (if tags[n] in found then found[tags[n]] else 0) + 1];
    }
    assert tags[..|tags|] == tags;
    assert found.Keys == set k | k in tags;
    var keys := Text.SortedList(found.Keys);
    counts := seq(|keys|, i requires 0 <= i < |keys| => (keys[i], if keys[i] in found then found[keys[i]] else 0));
  }

  /** What the counts say of `k`; an unlisted string is counted zero times. */
  function CountIn(counts: seq<(string, nat)>, k: string): nat {
    if counts == [] then 0
    else if counts[|counts| - 1].0 == k then counts[|counts| - 1].1
    else CountIn(counts[..|counts| - 1], k)
  }

  /** The sum of the counts of the strings that satisfy `p`. */
  function SumWhere(counts: seq<(string, nat)>, p: string -> bool): nat {
    if counts == [] then 0
    else SumWhere(counts[..|counts| - 1], p) + if p(counts[|counts| - 1].0) then counts[|counts| - 1].1 else 0
  }

  /** The counts of `tags` under the given keys. */
  function Counted(keys: seq<string>, tags: seq<string>): (r: seq<(string, nat)>)
    ensures |r| == |keys|
    ensures forall i :: 0 <= i < |keys| ==> r[i] == (keys[i], Occurrences(tags, keys[i]))
  {
    seq(|keys|, i requires 0 <= i < |keys| => (keys[i], Occurrences(tags, keys[i])))
  }

  lemma {:induction false} CountedSnoc(keys: seq<string>, tags: seq<string>, t: string, p: string -> bool)
    requires Distinct(keys)
    ensures SumWhere(Counted(keys, tags + [t]), p) == SumWhere(Counted(keys, tags), p) + if t in keys && p(t) then 1 else 0
  {
    assert (tags + [t])[..|tags|] == tags;
    if keys != [] {
      var front, last := keys[..|keys| - 1], keys[|keys| - 1];
      assert keys == front + [last];
      CountedSnoc(front, tags, t, p);
      assert Counted(keys, tags)[..|front|] == Counted(front, tags);
      assert Counted(keys, tags + [t])[..|front|] == Counted(front, tags + [t]);
    }
  }

  lemma {:induction false} CountedNothing(keys: seq<string>, p: string -> bool)
    ensures SumWhere(Counted(keys, []), p) == 0
  {
    if keys != [] {
      CountedNothing(keys[..|keys| - 1], p);
      assert Counted(keys, [])[..|keys| - 1] == Counted(keys[..|keys| - 1], []);
    }
  }

  lemma {:induction false} CountedSums(keys: seq<string>, tags: seq<string>, p: string -> bool)
    requires Distinct(keys) && forall t :: t in tags ==> t in keys
    ensures SumWhere(Counted(keys, tags), p) == HowMany(tags, p)
  {
    if tags == [] {
      CountedNothing(keys, p);
    } else {
      var front, last := tags[..|tags| - 1], tags[|tags| - 1];
      assert tags == front + [last];
      CountedSums(keys, front, p);
      CountedSnoc(keys, front, last, p);
    }
  }

  /** Whatever is asked of the strings, the counts add up to the strings that have it. */
  lemma CountsAddUp(tags: seq<string>, p: string -> bool)
    ensures SumWhere(CountsOf(tags), p) == HowMany(tags, p)
  {
    hide Text.SortedList;
    var keys := Text.SortedList(set k | k in tags);
    Text.SortedListIncreases(set k | k in tags);
    Text.IncreasingIsDistinct(keys);
    assert CountsOf(tags) == Counted(keys, tags);
    CountedSums(keys, tags, p);
  }

  lemma {:induction false} CountedIn(keys: seq<string>, tags: seq<string>, k: string)
    ensures CountIn(Counted(keys, tags), k) == if k in keys then Occurrences(tags, k) else 0
  {
    if keys != [] {
      var front, last := keys[..|keys| - 1], keys[|keys| - 1];
      assert keys == front + [last];
      CountedIn(front, tags, k);
      assert Counted(keys, tags)[..|front|] == Counted(front, tags);
    }
  }

  lemma CountIsOccurrences(tags: seq<string>, k: string)
    ensures CountIn(CountsOf(tags), k) == Occurrences(tags, k)
  {
    hide Text.SortedList;
    var keys := Text.SortedList(set x | x in tags);
    assert CountsOf(tags) == Counted(keys, tags);
    CountedIn(keys, tags, k);
    NoOccurrence(tags, k);
  }

  // ----- The counters of a ruleset ----------------------------------------------------------------------

  datatype Ruleset = Ruleset(
    rowCount: nat, statuses: seq<(string, nat)>, states: seq<(string, nat)>, evidenceCount: nat, rowsWithEvidence: nat,
    blockerCount: nat, rowsWithBlockers: nat, rows: seq<Row>)

  function Tags(rows: seq<Row>, tag: Row -> string): (r: seq<string>)
    ensures |r| == |rows|
    ensures forall i :: 0 <= i < |rows| ==> r[i] == tag(rows[i])
  {
    seq(|rows|, i requires 0 <= i < |rows| => tag(rows[i]))
  }

  function Sum(rows: seq<Row>, f: Row -> nat): nat {
    if rows == [] then 0 else Sum(rows[..|rows| - 1], f) + f(rows[|rows| - 1])
  }

  function StatusOf(r: Row): string { r.status }
  function StateOf(r: Row): string { r.uiState }
  function EvidenceOf(r: Row): nat { r.evidenceCount }
  function BlockersOf(r: Row): nat { r.blockerCount }
  function HasEvidence(r: Row): nat { if r.evidenceCount > 0 then 1 else 0 }
  function HasBlockers(r: Row): nat { if r.blockerCount > 0 then 1 else 0 }

  predicate RowSooner(a: Row, b: Row) {
    Text.Before(a.row, b.row)
  }

  function Summarised(rows: seq<Row>): Ruleset {
    Ruleset(|rows|, CountsOf(Tags(rows, StatusOf)), CountsOf(Tags(rows, StateOf)), Sum(rows, EvidenceOf), Sum(rows, HasEvidence),
            Sum(rows, BlockersOf), Sum(rows, HasBlockers), Sorted(rows, RowSooner))
  }

  method SummariseRuleset(rows: seq<Row>) returns (s: Ruleset)
    ensures s == Summarised(rows)
  {
    hide CountsOf, Sorted;
    var statuses := CountTags(Tags(rows, StatusOf));
    var states := CountTags(Tags(rows, StateOf));
    var evidence, withEvidence, blockers, withBlockers := 0, 0, 0, 0;
    for n := 0 to |rows|
      invariant evidence == Sum(rows[..n], EvidenceOf) && withEvidence == Sum(rows[..n], HasEvidence)
      invariant blockers == Sum(rows[..n], BlockersOf) && withBlockers == Sum(rows[..n], HasBlockers)
    {
      assert rows[..n + 1][..n] == rows[..n];
      evidence := evidence + rows[n].evidenceCount;
      blockers := blockers + rows[n].blockerCount;
      if rows[n].evidenceCount > 0 {
        withEvidence := withEvidence + 1;
      }
      if rows[n].blockerCount > 0 {
        withBlockers := withBlockers + 1;
      }
    }
    assert rows[..|rows|] == rows;
    s := Ruleset(|rows|, statuses, states, evidence, withEvidence, blockers, withBlockers, Sorted(rows, RowSooner));
  }

  /** The whole projection: every ruleset by name, with its counters. */
  datatype Overview = Overview(rulesetCount: nat, rowCount: nat, rulesets: seq<(string, Ruleset)>)

  function Views(names: seq<string>, rows: seq<(string, Row)>): (r: seq<(string, Ruleset)>)
    ensures |r| == |names|
    ensures forall i :: 0 <= i < |names| ==> r[i] == (names[i], Summarised(At(rows, names[i])))
  {
    seq(|names|, i requires 0 <= i < |names| => (names[i], Summarised(At(rows, names[i]))))
  }

  function OverviewOf(g: Graph): Overview {
    var names := Text.SortedSet(KeysOf(Projection(g)));
    Overview(|names|, |RowNodes(g.nodes)|, Views(names, Projection(g)))
  }

  method SummariseProjection(g: Graph) returns (o: Overview)
    ensures o == OverviewOf(g)
  {
    hide Grouped, Summarised, At, Projection, RowNodes, Text.SortedSet, Text.SortedList, Lookup;
    ghost var rows := Projection(g);
    var byRuleset := Project(g);
    RulesetNames(rows);
    var names := Text.SortedList(byRuleset.at.Keys);
    var views: seq<(string, Ruleset)> := [];
    for n := 0 to |names|
      invariant views == Views(names[..n], rows)
    {
      GroupedLookup(rows, names[n]);
      var s := SummariseRuleset(Lookup(byRuleset, names[n]));
      views := views + [(names[n], s)];
      assert Views(names[..n + 1], rows) == Views(names[..n], rows) + [(names[n], s)];
    }
    assert names[..|names|] == names;
    o := Overview(|names|, |RowNodes(g.nodes)|, views);
  }

  lemma RulesetNames(rows: seq<(string, Row)>)
    ensures Text.SortedList(Grouped(rows).at.Keys) == Text.SortedSet(KeysOf(rows))
  {
    hide Text.SortedList, Text.SortedSet, Text.Increasing;
    GroupedValid(rows);
    Text.SortedListIncreases(Grouped(rows).at.Keys);
    Text.SortedSetIncreases(KeysOf(rows));
    Text.IncreasingIsUnique(Text.SortedList(Grouped(rows).at.Keys), Text.SortedSet(KeysOf(rows)));
  }

  // ----- What the counters promise -----------------------------------------------------------------------

  predicate Any(s: string) { true }

  lemma {:induction false} AllOfThem(tags: seq<string>)
    ensures HowMany(tags, Any) == |tags|
  {
    if tags != [] {
      AllOfThem(tags[..|tags| - 1]);
    }
  }

  /** The status counts of a ruleset sum to its row count, and so do the counts by display
      state. */
  lemma CountersConserve(rows: seq<Row>)
    ensures
      var s := Summarised(rows);
      SumWhere(s.statuses, Any) == s.rowCount == SumWhere(s.states, Any)
  {
    hide CountsOf, Sorted;
    CountsAddUp(Tags(rows, StatusOf), Any);
    CountsAddUp(Tags(rows, StateOf), Any);
    AllOfThem(Tags(rows, StatusOf));
    AllOfThem(Tags(rows, StateOf));
  }

  /** The rulesets share out the rows: their row counts sum to the row count of the whole. */
  lemma OverviewConserves(g: Graph)
    ensures RowsIn(OverviewOf(g).rulesets) == OverviewOf(g).rowCount
  {
    hide Text.SortedSet, Summarised, Projection;
    RowCountsConserve(g);
    RowsInViews(Text.SortedSet(KeysOf(Projection(g))), Projection(g));
  }

  function RowsIn(views: seq<(string, Ruleset)>): nat {
    if views == [] then 0 else RowsIn(views[..|views| - 1]) + views[|views| - 1].1.rowCount
  }

  lemma {:induction false} RowsInViews(names: seq<string>, rows: seq<(string, Row)>)
    ensures RowsIn(Views(names, rows)) == Total(names, rows)
  {
    hide CountsOf, Sorted;
    if names != [] {
      RowsInViews(names[..|names| - 1], rows);
      assert Views(names, rows)[..|names| - 1] == Views(names[..|names| - 1], rows);
    }
  }

  /** A ruleset lists its rows by row name, each exactly as often as it has it. */
  lemma RowsAreListedInOrder(rows: seq<Row>)
    ensures multiset(Summarised(rows).rows) == multiset(rows)
    ensures InOrder(Summarised(rows).rows, RowSooner)
  {
    hide CountsOf;
    SortKeeps(rows, RowSooner);
    RowOrder();
    SortOrders(rows, RowSooner);
  }

  lemma RowOrder()
    ensures Order(RowSooner)
  {
    forall a, b ensures RowSooner(a, b) ==> !RowSooner(b, a) {
      Text.BeforeIsTotal(a.row, b.row);
    }
    forall a, b, c | !RowSooner(b, a) && !RowSooner(c, b) ensures !RowSooner(c, a) {
      Text.LexLaws(a.row, b.row, c.row);
    }
  }

  /** Blocker counts and the rows that have blockers tell the same. */
  lemma {:induction false} BlockersAndRows(rows: seq<Row>)
    ensures
      var s := Summarised(rows);
      && s.rowsWithBlockers <= s.rowCount && s.rowsWithBlockers <= s.blockerCount
      && (s.blockerCount == 0 <==> s.rowsWithBlockers == 0)
      && s.rowsWithEvidence <= s.rowCount && s.rowsWithEvidence <= s.evidenceCount
  {
    hide CountsOf, Sorted;
    if rows != [] {
      BlockersAndRows(rows[..|rows| - 1]);
    }
  }

  // ----- Display states and statuses ---------------------------------------------------------------------------

  function ShownAs(state: string): string -> bool {
    status => UiState(status) == state
  }

  lemma {:induction false} StatesOfRows(nodes: seq<Node>, found: seq<(string, Summary)>, ruleset: string, state: string)
    ensures
      var rows := At(Rows(nodes, found), ruleset);
      Occurrences(Tags(rows, StateOf), state) == HowMany(Tags(rows, StatusOf), ShownAs(state))
  {
    hide UiState, RowOf, RulesetOf, Rows, At, Occurrences, HowMany, Tags;
    if nodes == [] {
      NoRows(found, ruleset, state);
    } else {
      var front, n := nodes[..|nodes| - 1], nodes[|nodes| - 1];
      var before, r := At(Rows(front, found), ruleset), RowOf(n, At(found, n.id));
      StatesOfRows(front, found, ruleset, state);
      RowsSnoc(nodes, found, ruleset);
      OneMoreRow(before, r, StateOf, state);
      OneMoreRow(before, r, StatusOf, state);
      HowManySnoc(Tags(before, StatusOf), StatusOf(r), ShownAs(state));
      RowShows(n, At(found, n.id));
      assert before + [] == before;
    }
  }

  lemma NoRows(found: seq<(string, Summary)>, ruleset: string, state: string)
    ensures
      var rows := At(Rows([], found), ruleset);
      Tags(rows, StatusOf) == [] && Occurrences(Tags(rows, StateOf), state) == 0 == HowMany(Tags(rows, StatusOf), ShownAs(state))
  {
  }

  lemma RowShows(n: Node, evidence: seq<Summary>)
    ensures RowOf(n, evidence).uiState == UiState(RowOf(n, evidence).status)
  {
  }

  lemma RowsSnoc(nodes: seq<Node>, found: seq<(string, Summary)>, ruleset: string)
    requires nodes != []
    ensures
      var front, n := nodes[..|nodes| - 1], nodes[|nodes| - 1];
      At(Rows(nodes, found), ruleset) ==
        At(Rows(front, found), ruleset) + if RulesetOf(n) == ruleset then [RowOf(n, At(found, n.id))] else []
  {
    hide RowOf, RulesetOf;
    var front, n := nodes[..|nodes| - 1], nodes[|nodes| - 1];
    assert Rows(nodes, found) == Rows(front, found) + [(RulesetOf(n), RowOf(n, At(found, n.id)))];
    AtSnoc(Rows(front, found), (RulesetOf(n), RowOf(n, At(found, n.id))), ruleset);
  }

  lemma OneMoreRow(rows: seq<Row>, r: Row, tag: Row -> string, k: string)
    ensures Tags(rows + [r], tag) == Tags(rows, tag) + [tag(r)]
    ensures Occurrences(Tags(rows + [r], tag), k) == Occurrences(Tags(rows, tag), k) + if tag(r) == k then 1 else 0
  {
    OccurrencesSnoc(Tags(rows, tag), tag(r), k);
  }

  /** Each display state is counted as often as the statuses shown as it together. */
  lemma StatesGroupStatuses(g: Graph, ruleset: string, state: string)
    ensures
      var s := Summarised(At(Projection(g), ruleset));
      CountIn(s.states, state) == SumWhere(s.statuses, ShownAs(state))
  {
    hide CountsOf, Sorted, UiState, RowEvidence;
    var rows := At(Projection(g), ruleset);
    StatesOfRows(RowNodes(g.nodes), RowEvidence(g), ruleset, state);
    CountIsOccurrences(Tags(rows, StateOf), state);
    CountsAddUp(Tags(rows, StatusOf), ShownAs(state));
  }

  // ----- Statuses and nodes ------------------------------------------------------------------------------------

  function Given(n: Node): string {
    if n.status.Some? then n.status.value else "unaddressed"
  }

  /** The row is unresolved as given, and a blocking item is the first of its key. */
  ghost predicate Resolved(n: Node, found: seq<(string, Summary)>) {
    Given(n) in UNRESOLVED && exists i: nat :: CountsAt(ItemsOf(n, At(found, n.id)), i)
  }

  /** The nodes of a ruleset that end with a status: those given it, but for unresolved ones
      with a blocker that counts, which end as failed. */
  ghost function Ending(nodes: seq<Node>, found: seq<(string, Summary)>, ruleset: string, status: string): nat {
    if nodes == [] then 0
    else
      var n := nodes[|nodes| - 1];
      Ending(nodes[..|nodes| - 1], found, ruleset, status)
      + if RulesetOf(n) == ruleset && (if Resolved(n, found) then status == "failed" else status == Given(n)) then 1 else 0
  }

  lemma RowEnds(n: Node, found: seq<(string, Summary)>)
    ensures RowOf(n, At(found, n.id)).status == if Resolved(n, found) then "failed" else Given(n)
  {
    hide KeyOf, CountsAt, UiState, Sorted;
    BlockerCounts(ItemsOf(n, At(found, n.id)));
  }

  lemma NoRowCounts(k: string)
    ensures Occurrences([], k) == 0
  {
  }

  lemma {:induction false} StatusesOfRows(nodes: seq<Node>, found: seq<(string, Summary)>, ruleset: string, status: string)
    ensures Occurrences(Tags(At(Rows(nodes, found), ruleset), StatusOf), status) == Ending(nodes, found, ruleset, status)
  {
    hide RowOf, RulesetOf, Resolved, Given, Rows, At, Occurrences, Tags;
    if nodes == [] {
      NoRows(found, ruleset, status);
      NoRowCounts(status);
    } else {
      var front, n := nodes[..|nodes| - 1], nodes[|nodes| - 1];
      var before, r := At(Rows(front, found), ruleset), RowOf(n, At(found, n.id));
      StatusesOfRows(front, found, ruleset, status);
      RowsSnoc(nodes, found, ruleset);
      OneMoreRow(before, r, StatusOf, status);
      RowEnds(n, found);
      assert before + [] == before;
    }
  }

  /** The count of a status is exact: the row nodes of the ruleset that are given it, without
      the unresolved ones that a counting blocker turns into failed ones, and with those under
      `failed`. So no row with a counting blocker is counted as missing or unaddressed. */
  lemma StatusCountIsExact(g: Graph, ruleset: string, status: string)
    ensures
      CountIn(Summarised(At(Projection(g), ruleset)).statuses, status) ==
      Ending(RowNodes(g.nodes), RowEvidence(g), ruleset, status)
  {
    hide CountsOf, Sorted, RowEvidence;
    StatusesOfRows(RowNodes(g.nodes), RowEvidence(g), ruleset, status);
    CountIsOccurrences(Tags(At(Projection(g), ruleset), StatusOf), status);
  }
}
