/** The ruleset view of the runtime graph: scanner evidence per row, and row statuses. */
module RulesetProjection {
  import opened Wrappers
  import opened Sequences
  import opened Grouping
  import opened Sorting
  import Text

  /** The columns of a row that are copied from its node. */
  datatype Columns = Columns(chapter: string, frs: seq<string>, tbts: seq<string>, reasons: seq<string>)

  /** A graph node with its fields already looked up in the node and its metadata; `status`
      is absent when neither has it, and `printed` is the printed form of its evidence record. */
  datatype Node = Node(
    id: string, kind: string, hidden: bool, ruleset: string, row: string, status: Option<string>,
    evidenceType: string, scanner: string, tool: string, role: string, effect: string, level: string,
    mapping: string, locator: string, printed: string, blockers: seq<Option<Item>>, columns: Columns)

  datatype Edge = Edge(source: string, target: string)

  datatype Graph = Graph(nodes: seq<Node>, edges: seq<Edge>)

  /** Scanner evidence as a row shows it; `text` is the printed form of the whole record. */
  datatype Summary = Summary(id: string, mapping: string, locator: string, tool: string, blocks: bool, text: string)

  /** An item of a row's own blocker list, and whether it already is a scanner result. */
  datatype Item = Item(isResult: bool, summary: Summary)

  function Lower(s: string): string {
    seq(|s|, i requires 0 <= i < |s| => if 'A' <= s[i] <= 'Z' then s[i] + 32 as char else s[i])
  }

  predicate Contains(s: string, part: string) {
    exists i :: 0 <= i <= |s| && part <= s[i..]
  }

  predicate IsScanner(n: Node) {
    n.kind == "evidence"
    && (n.evidenceType == "scanner_result" || n.scanner != "" || n.tool != "" || "evidence:scanner" <= n.id)
  }

  predicate Blocks(n: Node) {
    n.status.Some? && Lower(n.status.value) == "failed"
    && (Contains(Lower(n.role), "blocking") || Contains(Lower(n.effect), "blocking") || Lower(n.level) == "compliance_row")
  }

  function SummaryOf(n: Node): Summary {
    Summary(n.id, n.mapping, n.locator, if n.scanner != "" then n.scanner else n.tool, Blocks(n), n.printed)
  }

  predicate IsRow(n: Node) {
    n.kind == "ruleset_row" && !n.hidden
  }

  function RowNodes(nodes: seq<Node>): seq<Node> {
    if nodes == [] then []
    else
      var rest, n := RowNodes(nodes[..|nodes| - 1]), nodes[|nodes| - 1];
      if IsRow(n) then rest + [n] else rest
  }

  // ----- Scanner evidence by row ------------------------------------------------------------------

  /** Evidence that names its row. */
  function NamedEvidence(nodes: seq<Node>): seq<(string, Summary)> {
    if nodes == [] then []
    else
      var rest, n := NamedEvidence(nodes[..|nodes| - 1]), nodes[|nodes| - 1];
      var ruleset, row := Text.Strip(n.ruleset), Text.Strip(n.row);
      if IsScanner(n) && ruleset != "" && row != "" then rest + [(ruleset + ":" + row, SummaryOf(n))] else rest
  }

  /** `node_by_id.get(id)`: the last node with the id. */
  function NodeFor(nodes: seq<Node>, id: string): Option<Node> {
    if nodes == [] then None
    else if nodes[|nodes| - 1].id == id then Some(nodes[|nodes| - 1])
    else NodeFor(nodes[..|nodes| - 1], id)
  }

  predicate IsRowId(nodes: seq<Node>, id: string) {
    id != "" && exists n :: n in RowNodes(nodes) && n.id == id
  }

  predicate IsScannerId(nodes: seq<Node>, id: string) {
    NodeFor(nodes, id).Some? && IsScanner(NodeFor(nodes, id).value)
  }

  /** Evidence that an edge ties to a row, in either direction. */
  function LinkedEvidence(nodes: seq<Node>, edges: seq<Edge>): seq<(string, Summary)> {
    if edges == [] then []
    else
      var rest, e := LinkedEvidence(nodes, edges[..|edges| - 1]), edges[|edges| - 1];
      if IsScannerId(nodes, e.source) && IsRowId(nodes, e.target) then
        rest + [(e.target, SummaryOf(NodeFor(nodes, e.source).value))]
      else if IsScannerId(nodes, e.target) && IsRowId(nodes, e.source) then
        rest + [(e.source, SummaryOf(NodeFor(nodes, e.target).value))]
      else rest
  }

  function RowEvidence(g: Graph): seq<(string, Summary)> {
    NamedEvidence(g.nodes) + LinkedEvidence(g.nodes, g.edges)
  }

  method GroupNamed(nodes: seq<Node>) returns (byRow: Dict<string, seq<Summary>>)
    ensures byRow == Grouped(NamedEvidence(nodes))
  {
    hide Grouped, Text.Strip, IsScanner, SummaryOf;
    byRow := Empty();
    GroupedNothing<string, Summary>();
    for i := 0 to |nodes|
      invariant byRow == Grouped(NamedEvidence(nodes[..i]))
    {
      var n := nodes[i];
      assert nodes[..i + 1][..i] == nodes[..i];
      var ruleset, row := Text.Strip(n.ruleset), Text.Strip(n.row);
      if IsScanner(n) && ruleset != "" && row != "" {
        GroupedStep(NamedEvidence(nodes[..i]), (ruleset + ":" + row, SummaryOf(n)));
        byRow := AppendTo(byRow, ruleset + ":" + row, SummaryOf(n));
      }
    }
    assert nodes[..|nodes|] == nodes;
  }

  method GroupEvidence(g: Graph) returns (byRow: Dict<string, seq<Summary>>)
    ensures byRow == Grouped(RowEvidence(g))
  {
    hide Grouped, NamedEvidence, SummaryOf, IsScannerId, IsRowId, NodeFor;
    byRow := GroupNamed(g.nodes);
    ghost var named := NamedEvidence(g.nodes);
    assert named + LinkedEvidence(g.nodes, g.edges[..0]) == named;
    for i := 0 to |g.edges|
      invariant byRow == Grouped(named + LinkedEvidence(g.nodes, g.edges[..i]))
    {
      var e := g.edges[i];
      ghost var before := LinkedEvidence(g.nodes, g.edges[..i]);
      assert g.edges[..i + 1][..i] == g.edges[..i];
      if IsScannerId(g.nodes, e.source) && IsRowId(g.nodes, e.target) {
        var s := SummaryOf(LinkedNode(g.nodes, e.source));
        GroupedStep(named + before, (e.target, s));
        assert named + (before + [(e.target, s)]) == (named + before) + [(e.target, s)];
        byRow := AppendTo(byRow, e.target, s);
      } else if IsScannerId(g.nodes, e.target) && IsRowId(g.nodes, e.source) {
        var s := SummaryOf(LinkedNode(g.nodes, e.target));
        GroupedStep(named + before, (e.source, s));
        assert named + (before + [(e.source, s)]) == (named + before) + [(e.source, s)];
        byRow := AppendTo(byRow, e.source, s);
      }
    }
    assert g.edges[..|g.edges|] == g.edges;
  }

  function LinkedNode(nodes: seq<Node>, id: string): (n: Node)
    requires IsScannerId(nodes, id)
    ensures NodeFor(nodes, id) == Some(n)
  {
    NodeFor(nodes, id).value
  }

  // ----- The evidence of one row ------------------------------------------------------------------

  /** An item that is no scanner result yet becomes a blocking one. */
  function Normalised(item: Item): Summary {
    if item.isResult then item.summary else item.summary.(blocks := true)
  }

  function KeyOf(s: Summary): string {
    if s.mapping != "" then s.mapping
    else if s.locator != "" then s.locator
    else if s.id != "" then s.id
    else s.text
  }

  function Objects(items: seq<Option<Item>>): seq<Summary> {
    if items == [] then []
    else
      var rest, item := Objects(items[..|items| - 1]), items[|items| - 1];
      if item.Some? then rest + [Normalised(item.value)] else rest
  }

  function Keys(s: seq<Summary>): (r: seq<string>)
    ensures |r| == |s|
    ensures forall i :: 0 <= i < |s| ==> r[i] == KeyOf(s[i])
  {
    seq(|s|, i requires 0 <= i < |s| => KeyOf(s[i]))
  }

  /** The first summary of each key. */
  function FirstOfEachKey(s: seq<Summary>): seq<Summary> {
    if s == [] then []
    else
      var rest, x := FirstOfEachKey(s[..|s| - 1]), s[|s| - 1];
      if KeyOf(x) in Keys(s[..|s| - 1]) then rest else rest + [x]
  }

  method CollectEvidence(items: seq<Option<Item>>) returns (evidence: seq<Summary>)
    ensures evidence == FirstOfEachKey(Objects(items))
  {
    hide KeyOf;
    evidence := [];
    var seen: set<string> := {};
    for i := 0 to |items|
      invariant evidence == FirstOfEachKey(Objects(items[..i]))
      invariant forall k :: k in seen <==> k in Keys(Objects(items[..i]))
    {
      assert items[..i + 1][..i] == items[..i];
      if items[i].None? {
        continue;
      }
      var summary := Normalised(items[i].value);
      ghost var before := Objects(items[..i]);
      assert (before + [summary])[..|before|] == before;
      assert Keys(before + [summary]) == Keys(before) + [KeyOf(summary)];
      if KeyOf(summary) in seen {
        continue;
      }
      seen := seen + {KeyOf(summary)};
      evidence := evidence + [summary];
    }
    assert items[..|items|] == items;
  }

  /** The listed evidence has every key of the row's items exactly once. */
  lemma {:induction false} EvidenceKeys(s: seq<Summary>)
    ensures Keys(FirstOfEachKey(s)) == Dedup(Keys(s))
  {
    hide KeyOf;
    if s == [] {
      assert Keys(FirstOfEachKey(s)) == [];
    } else {
      var front, x := s[..|s| - 1], s[|s| - 1];
      EvidenceKeys(front);
      assert Keys(s) == Keys(front) + [KeyOf(x)];
      DedupSnoc(Keys(front), KeyOf(x));
      if KeyOf(x) !in Keys(front) {
        assert Keys(FirstOfEachKey(front) + [x]) == Keys(FirstOfEachKey(front)) + [KeyOf(x)];
      }
    }
  }

  function Blockers(s: seq<Summary>): seq<Summary> {
    if s == [] then []
    else
      var rest, x := Blockers(s[..|s| - 1]), s[|s| - 1];
      if x.blocks then rest + [x] else rest
  }

  /** Item `i` blocks, and no earlier item has its key. */
  ghost predicate CountsAt(s: seq<Summary>, i: nat) {
    i < |s| && s[i].blocks && KeyOf(s[i]) !in Keys(s[..i])
  }

  lemma CountsInFront(s: seq<Summary>, n: nat, i: nat)
    requires i < n <= |s|
    ensures CountsAt(s[..n], i) == CountsAt(s, i)
  {
    assert s[..n][..i] == s[..i];
  }

  /** A blocking item counts exactly when no earlier item has its key. */
  lemma {:induction false} BlockerCounts(s: seq<Summary>)
    ensures Blockers(FirstOfEachKey(s)) != [] <==> exists i: nat :: CountsAt(s, i)
  {
    hide KeyOf;
    if s != [] {
      var n := |s| - 1;
      BlockerCounts(s[..n]);
      BlockersSnoc(FirstOfEachKey(s[..n]), s[n]);
      assert CountsAt(s, n) <==> s[n].blocks && KeyOf(s[n]) !in Keys(s[..n]);
      hide CountsAt, Blockers;
      if i: nat :| i < n && CountsAt(s[..n], i) {
        CountsInFront(s, n, i);
      }
      if i: nat :| i < n && CountsAt(s, i) {
        CountsInFront(s, n, i);
      }
      BeyondEnd(s);
      BeyondEnd(s[..n]);
    }
  }

  lemma BeyondEnd(s: seq<Summary>)
    ensures forall i: nat :: CountsAt(s, i) ==> i < |s|
  {
  }

  lemma BlockersSnoc(s: seq<Summary>, x: Summary)
    ensures Blockers(s + [x]) == if x.blocks then Blockers(s) + [x] else Blockers(s)
  {
    assert (s + [x])[..|s|] == s;
  }

  // ----- Sorting ------------------------------------------------------------------------------------

  /** Blockers first, then by tool, mapping and location. */
  predicate Sooner(a: Summary, b: Summary) {
    if a.blocks != b.blocks then a.blocks
    else if a.tool != b.tool then Text.Before(a.tool, b.tool)
    else if a.mapping != b.mapping then Text.Before(a.mapping, b.mapping)
    else Text.Before(a.locator, b.locator)
  }

  lemma NotSoonerIsTransitive(a: Summary, b: Summary, c: Summary)
    requires !Sooner(b, a) && !Sooner(c, b)
    ensures !Sooner(c, a)
  {
    Text.LexLaws(a.tool, b.tool, c.tool);
    Text.LexLaws(a.mapping, b.mapping, c.mapping);
    Text.LexLaws(a.locator, b.locator, c.locator);
  }

  lemma SoonerIsAsymmetric(a: Summary, b: Summary)
    ensures Sooner(a, b) ==> !Sooner(b, a)
  {
    Text.BeforeIsTotal(a.tool, b.tool);
    Text.BeforeIsTotal(a.mapping, b.mapping);
    Text.BeforeIsTotal(a.locator, b.locator);
  }

  lemma SoonerIsAnOrder()
    ensures Order(Sooner)
  {
    hide Sooner;
    forall a, b ensures Sooner(a, b) ==> !Sooner(b, a) {
      SoonerIsAsymmetric(a, b);
    }
    forall a, b, c | !Sooner(b, a) && !Sooner(c, b) ensures !Sooner(c, a) {
      NotSoonerIsTransitive(a, b, c);
    }
  }

  /** However few are shown, a non-blocker is among them only if every blocker is. */
  lemma BlockersAreShownFirst(s: seq<Summary>, n: nat, x: Summary, b: Summary)
    requires x in Take(Sorted(s, Sooner), n) && !x.blocks
    requires b in s && b.blocks
    ensures b in Take(Sorted(s, Sooner), n)
  {
    SoonerIsAnOrder();
    SoonerIsTaken(s, Sooner, n, x, b);
  }

  // ----- Rows and rulesets ----------------------------------------------------------------------------

  function UiState(status: string): string {
    if status in {"passed", "satisfied"} then "satisfied"
    else if status in {"partial", "manual_review", "waived", "compensating_control"} then "partial"
    else if status == "failed" then "failed"
    else if status in {"missing", "unaddressed", ""} then "unaddressed"
    else if status in {"out_of_scope", "filtered"} then "filtered"
    else if status in {"not_applicable", "na"} then "na"
    else status
  }

  datatype Row = Row(
    id: string, ruleset: string, row: string, status: string, uiState: string,
    evidenceCount: nat, evidence: seq<Summary>, blockerCount: nat, blockers: seq<Option<Item>>, columns: Columns)

  function AsItems(s: seq<Summary>): (r: seq<Option<Item>>)
    ensures |r| == |s|
    ensures forall i :: 0 <= i < |s| ==> r[i] == Some(Item(true, s[i]))
  {
    seq(|s|, i requires 0 <= i < |s| => Some(Item(true, s[i])))
  }

  function RulesetOf(n: Node): string {
    if Text.Strip(n.ruleset) != "" then Text.Strip(n.ruleset) else "unknown"
  }

  const UNRESOLVED := {"", "missing", "unaddressed", "not_observed"}

  function RowOf(n: Node, found: seq<Summary>): Row {
    var evidence := FirstOfEachKey(Objects(AsItems(found) + n.blockers));
    var derived := Blockers(evidence);
    var out := if derived != [] then AsItems(derived) else n.blockers;
    var given := if n.status.Some? then n.status.value else "unaddressed";
    var status := if derived != [] && given in UNRESOLVED then "failed" else given;
    Row(n.id, RulesetOf(n), n.row, status, UiState(status), |evidence|, Take(Sorted(evidence, Sooner), 8), |out|, Take(out, 5),
        n.columns.(reasons := Take(n.columns.reasons, 8)))
  }

  function Rows(nodes: seq<Node>, found: seq<(string, Summary)>): (r: seq<(string, Row)>)
    ensures |r| == |nodes|
    ensures forall i :: 0 <= i < |nodes| ==> r[i] == (RulesetOf(nodes[i]), RowOf(nodes[i], At(found, nodes[i].id)))
  {
    seq(|nodes|, i requires 0 <= i < |nodes| => (RulesetOf(nodes[i]), RowOf(nodes[i], At(found, nodes[i].id))))
  }

  method CollectBlockers(s: seq<Summary>) returns (r: seq<Summary>)
    ensures r == Blockers(s)
  {
    r := [];
    for i := 0 to |s|
      invariant r == Blockers(s[..i])
    {
      assert s[..i + 1][..i] == s[..i];
      if s[i].blocks {
        r := r + [s[i]];
      }
    }
    assert s[..|s|] == s;
  }

  /** The row loop. */
  method GroupRows(nodes: seq<Node>, byRow: Dict<string, seq<Summary>>, ghost found: seq<(string, Summary)>)
    returns (byRuleset: Dict<string, seq<Row>>)
    requires byRow == Grouped(found)
    ensures byRuleset == Grouped(Rows(nodes, found))
  {
    hide Grouped, At, Sorted, FirstOfEachKey, Blockers, RulesetOf, UiState, Objects, Lookup;
    byRuleset := Empty();
    GroupedNothing<string, Row>();
    assert Rows(nodes[..0], found) == [];
    for i := 0 to |nodes|
      invariant byRuleset == Grouped(Rows(nodes[..i], found))
    {
      var n := nodes[i];
      GroupedLookup(found, n.id);
      var evidence := CollectEvidence(AsItems(Lookup(byRow, n.id)) + n.blockers);
      var derived := CollectBlockers(evidence);
      var out := if derived != [] then AsItems(derived) else n.blockers;
      var status := if n.status.Some? then n.status.value else "unaddressed";
      if derived != [] && status in UNRESOLVED {
        status := "failed";
      }
      var row := Row(
        n.id, RulesetOf(n), n.row, status, UiState(status), |evidence|, Take(Sorted(evidence, Sooner), 8), |out|, Take(out, 5),
        n.columns.(reasons := Take(n.columns.reasons, 8)));
      assert row == RowOf(n, At(found, n.id));
      GroupedStep(Rows(nodes[..i], found), (RulesetOf(n), row));
      assert Rows(nodes[..i + 1], found) == Rows(nodes[..i], found) + [(RulesetOf(n), row)];
      byRuleset := AppendTo(byRuleset, RulesetOf(n), row);
    }
    assert nodes[..|nodes|] == nodes;
  }

  /** The rows of the projection, by ruleset. */
  function Projection(g: Graph): seq<(string, Row)> {
    Rows(RowNodes(g.nodes), RowEvidence(g))
  }

  method Project(g: Graph) returns (byRuleset: Dict<string, seq<Row>>)
    ensures byRuleset == Grouped(Projection(g))
  {
    hide Grouped, RowEvidence;
    var byRow := GroupEvidence(g);
    byRuleset := GroupRows(RowNodes(g.nodes), byRow, RowEvidence(g));
  }

  // ----- What the projection promises ---------------------------------------------------------------

  /** Whatever order the keys are taken in, the groups of all keys hold every pair once. */
  lemma {:induction false} TotalOfAllKeys<K(!new), V>(keys: seq<K>, pairs: seq<(K, V)>)
    requires Distinct(keys)
    requires forall k :: k in KeysOf(pairs) ==> k in keys
    ensures Total(keys, pairs) == |pairs|
  {
    if pairs == [] {
      TotalOfNothing<K, V>(keys);
    } else {
      var front, p := pairs[..|pairs| - 1], pairs[|pairs| - 1];
      assert KeysOf(pairs)[|front|] == p.0;
      forall k | k in KeysOf(front) ensures k in keys {
        var i :| 0 <= i < |front| && KeysOf(front)[i] == k;
        assert KeysOf(pairs)[i] == k;
      }
      TotalOfAllKeys(keys, front);
      TotalSnoc(keys, front, p);
      assert pairs == front + [p];
    }
  }

  lemma {:induction false} TotalOfNothing<K, V>(keys: seq<K>)
    ensures Total<K, V>(keys, []) == 0
  {
    if keys != [] {
      TotalOfNothing<K, V>(keys[..|keys| - 1]);
    }
  }

  /** The row counts of the rulesets, listed in name order, sum to the number of rows. */
  lemma RowCountsConserve(g: Graph)
    ensures
      var rows := Projection(g);
      Total(Text.SortedSet(KeysOf(rows)), rows) == |RowNodes(g.nodes)|
  {
    hide Text.SortedSet, Rows;
    var rows := Projection(g);
    Text.SortedSetIncreases(KeysOf(rows));
    TotalOfAllKeys(Text.SortedSet(KeysOf(rows)), rows);
  }

  /** Evidence that a row shows or counts. */
  function ItemsOf(n: Node, found: seq<Summary>): seq<Summary> {
    Objects(AsItems(found) + n.blockers)
  }

  /** A row counts each evidence key once, shows at most eight of them, and a non-blocker
      only beside every blocker. */
  lemma RowEvidenceIsFair(n: Node, found: seq<Summary>)
    ensures
      var r, items := RowOf(n, found), ItemsOf(n, found);
      && r.evidenceCount == |Dedup(Keys(items))|
      && |r.evidence| <= 8
      && (forall x, b :: x in r.evidence && !x.blocks && b in FirstOfEachKey(items) && b.blocks ==> b in r.evidence)
  {
    var r, evidence := RowOf(n, found), FirstOfEachKey(ItemsOf(n, found));
    EvidenceKeys(ItemsOf(n, found));
    forall x, b | x in r.evidence && !x.blocks && b in evidence && b.blocks ensures b in r.evidence {
      BlockersAreShownFirst(evidence, 8, x, b);
    }
  }

  /** No two shown items share a key. */
  lemma ShownKeysAreDistinct(n: Node, found: seq<Summary>)
    ensures Distinct(Keys(RowOf(n, found).evidence))
  {
    hide KeyOf;
    var items := ItemsOf(n, found);
    var evidence := FirstOfEachKey(items);
    EvidenceKeys(items);
    assert TagsDistinct(evidence, KeyOf) by {
      forall i, j | 0 <= i < j < |evidence| ensures KeyOf(evidence[i]) != KeyOf(evidence[j]) {
        assert Keys(evidence)[i] != Keys(evidence)[j];
      }
    }
    SortKeeps(evidence, Sooner);
    TagsSurvive(evidence, Sorted(evidence, Sooner), KeyOf);
  }

  /** A row whose evidence holds a blocker is never reported missing, unaddressed or not
      observed. Its items hold a blocker that counts exactly when a blocking item is the
      first of its key. */
  lemma BlockedRowIsNeverUnresolved(n: Node, found: seq<Summary>)
    ensures
      var r, items := RowOf(n, found), ItemsOf(n, found);
      (exists i: nat :: CountsAt(items, i)) ==>
      && r.status !in UNRESOLVED && r.uiState != "unaddressed" && r.blockerCount > 0
  {
    hide KeyOf, CountsAt;
    BlockerCounts(ItemsOf(n, found));
    UiStateUnaddressed(RowOf(n, found).status);
  }

  lemma UiStateUnaddressed(status: string)
    ensures UiState(status) == "unaddressed" <==> status in {"", "missing", "unaddressed"}
  {
    assert "unaddressed"[0] == 'u' && "satisfied"[0] == 's' && "partial"[0] == 'p' && "failed"[0] == 'f'
      && "filtered"[0] == 'f' && "na"[0] == 'n';
  }

  /** Otherwise the row keeps the status it was given. */
  lemma UnblockedRowKeepsItsStatus(n: Node, found: seq<Summary>)
    ensures
      var r, items := RowOf(n, found), ItemsOf(n, found);
      var given := if n.status.Some? then n.status.value else "unaddressed";
      r.status != given <==>
        given in UNRESOLVED && exists i: nat :: CountsAt(items, i)
  {
    hide KeyOf, CountsAt;
    BlockerCounts(ItemsOf(n, found));
    assert "failed"[0] == 'f' && "missing"[0] == 'm' && "unaddressed"[0] == 'u' && "not_observed"[0] == 'n';
  }

  /** Not every blocking item counts: behind a signal with the same mapping, a listed blocker
      is dropped, and the row stays missing. */
  lemma ShadowedBlockerLeavesTheRowMissing()
    ensures
      var signal := Summary("s", "M", "", "", false, "");
      var blocker := Some(Item(false, Summary("b", "M", "", "", false, "")));
      var n := Node("r", "ruleset_row", false, "asvs", "1", Some("missing"), "", "", "", "", "", "", "", "", "", [blocker], Columns("", [], [], []));
      RowOf(n, [signal]).status == "missing" && Normalised(blocker.value).blocks
  {
    hide Objects, FirstOfEachKey, Blockers, Sorted, UiState, KeyOf;
    var signal := Summary("s", "M", "", "", false, "");
    var item := Item(false, Summary("b", "M", "", "", false, ""));
    TwoObjects(Item(true, signal), item);
    assert AsItems([signal]) + [Some(item)] == [Some(Item(true, signal)), Some(item)];
    SecondOfAKeyIsDropped(signal, Normalised(item));
  }

  lemma TwoObjects(a: Item, b: Item)
    ensures Objects([Some(a), Some(b)]) == [Normalised(a), Normalised(b)]
  {
    assert [Some(a), Some(b)][..1] == [Some(a)] && [Some(a)][..0] == [];
    assert Objects([Some(a)]) == [Normalised(a)];
  }

  lemma SecondOfAKeyIsDropped(a: Summary, b: Summary)
    requires a.mapping == b.mapping != "" && !a.blocks
    ensures FirstOfEachKey([a, b]) == [a] && Blockers([a]) == []
  {
    assert [a, b][..1] == [a] && [a][..0] == [];
    assert FirstOfEachKey([a]) == [a];
    assert Keys([a])[0] == KeyOf(b);
  }
}
