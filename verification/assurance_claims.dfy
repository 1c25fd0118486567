/** Evaluating an assurance claim over the runtime graph. */
module AssuranceClaims {
  import opened Wrappers
  import opened Sequences
  import opened Grouping
  import Text

  /** A graph node with its fields looked up in the node and its metadata, a missing field
      being empty. `blockers` are the printed references of its scanner blockers and `names`
      the FR, TBT, reference and row of its metadata. */
  datatype Node = Node(
    id: string, kind: string, status: string, evidenceStatus: string, ref: string,
    names: seq<string>, blockers: seq<string>, reasons: seq<string>)

  datatype Edge = Edge(source: string, target: string)

  datatype Graph = Graph(nodes: seq<Node>, edges: seq<Edge>)

  const SATISFIED := {"passed", "satisfied", "waived", "compensating_control"}
  const UNSATISFIED := {"failed", "missing", "partial", "blocked", "manual_review", "unaddressed"}

  /** The lines of explanation, before they are worded. */
  datatype Reason =
    | ScopeClear | NotSatisfied(count: nat) | NodeIs(id: string, status: string) | BlockersRecorded | BlockedBy(blocker: string)
    | Given(text: string) | NoBlocking | Blocking | HasStatus(id: string, status: string) | NotFound(target: string)

  datatype Evaluation = Evaluation(
    targetId: string, status: string, satisfied: bool, reasons: seq<Reason>, evidence: seq<string>, blockers: seq<string>)

  // ----- Finding the target ----------------------------------------------------------------------

  /** The last node of each id, in the order in which the ids first occur. */
  function ById(nodes: seq<Node>): Dict<string, Node> {
    if nodes == [] then Empty()
    else ById(nodes[..|nodes| - 1]).Put(nodes[|nodes| - 1].id, nodes[|nodes| - 1])
  }

  lemma {:induction false} ByIdFacts(nodes: seq<Node>)
    ensures ById(nodes).Valid()
    ensures forall k :: k in ById(nodes).at ==> ById(nodes).at[k] in nodes && ById(nodes).at[k].id == k
  {
    if nodes != [] {
      ByIdFacts(nodes[..|nodes| - 1]);
      PutValid(ById(nodes[..|nodes| - 1]), nodes[|nodes| - 1].id, nodes[|nodes| - 1]);
    }
  }

  function WithPrefix(prefix: string, target: string): string {
    if prefix <= target then target else prefix + target
  }

  function CandidateIds(claim: string, target: string): seq<string> {
    if claim == "fr_satisfied" then [WithPrefix("fr:", target)]
    else if claim == "tbt_satisfied" then [WithPrefix("test:", target)]
    else if claim == "no_blocking_scanner_evidence" && "FR-" <= target then ["fr:" + target]
    else if claim == "no_blocking_scanner_evidence" && "TBT-" <= target then ["test:" + target]
    else if claim == "no_blocking_scanner_evidence" && ("fr:" <= target || "test:" <= target) then [target]
    else if claim == "compliance_row_satisfied" || claim == "no_blocking_scanner_evidence" then
      if ':' in target then [target]
      else ["ASVS:" + target, if "v" <= target then "ASVS:" + target else "ASVS:v" + target]
    else [target]
  }

  /** The prefix of an FR or TBT target may be left out. */
  lemma PrefixIsOptional(target: string)
    ensures !("fr:" <= target) ==> CandidateIds("fr_satisfied", target) == CandidateIds("fr_satisfied", "fr:" + target)
    ensures !("test:" <= target) ==> CandidateIds("tbt_satisfied", target) == CandidateIds("tbt_satisfied", "test:" + target)
    ensures CandidateIds("no_blocking_scanner_evidence", "FR-" + target) == CandidateIds("fr_satisfied", "FR-" + target)
    ensures CandidateIds("no_blocking_scanner_evidence", "TBT-" + target) == CandidateIds("tbt_satisfied", "TBT-" + target)
  {
    assert "fr_satisfied"[0] == 'f' && "tbt_satisfied"[0] == 't' && "no_blocking_scanner_evidence"[0] == 'n';
    assert ("FR-" + target)[0] == 'F' && "fr:"[0] == 'f' && ("TBT-" + target)[0] == 'T' && "test:"[0] == 't';
  }

  function FirstKnown(d: Dict<string, Node>, ids: seq<string>): Option<Node> {
    if ids == [] then None
    else if ids[0] in d.at then Some(d.at[ids[0]])
    else FirstKnown(d, ids[1..])
  }

  function FirstNamed(d: Dict<string, Node>, keys: seq<string>, target: string): Option<Node> {
    if keys == [] then None
    else if keys[0] in d.at && target in d.at[keys[0]].names then Some(d.at[keys[0]])
    else FirstNamed(d, keys[1..], target)
  }

  function TargetNode(g: Graph, claim: string, target: string): Option<Node> {
    var d := ById(g.nodes);
    var known := FirstKnown(d, CandidateIds(claim, target));
    if known.Some? then known else FirstNamed(d, d.keys, target)
  }

  method FindTargetNode(g: Graph, claim: string, target: string) returns (r: Option<Node>)
    ensures r == TargetNode(g, claim, target)
  {
    hide CandidateIds, ById;
    ByIdFacts(g.nodes);
    var d := ById(g.nodes);
    var ids := CandidateIds(claim, target);
    for n := 0 to |ids|
      invariant FirstKnown(d, ids) == FirstKnown(d, ids[n..])
    {
      if ids[n] in d.at {
        return Some(d.at[ids[n]]);
      }
      assert ids[n..][1..] == ids[n + 1..];
    }
    for n := 0 to |d.keys|
      invariant FirstNamed(d, d.keys, target) == FirstNamed(d, d.keys[n..], target)
    {
      assert d.keys[n] in d.keys;
      if target in d.at[d.keys[n]].names {
        return Some(d.at[d.keys[n]]);
      }
      assert d.keys[n..][1..] == d.keys[n + 1..];
    }
    r := None;
  }

  // ----- Evidence and blockers ----------------------------------------------------------------------

  function EndpointRefs(d: Dict<string, Node>, x: string): set<string> {
    if x in d.at && d.at[x].kind == "evidence" then {if d.at[x].ref != "" then d.at[x].ref else d.at[x].id} else {}
  }

  function RefSet(d: Dict<string, Node>, edges: seq<Edge>, id: string): set<string> {
    if edges == [] then {}
    else
      var e := edges[|edges| - 1];
      RefSet(d, edges[..|edges| - 1], id)
      + if e.source == id || e.target == id then EndpointRefs(d, e.source) + EndpointRefs(d, e.target) else {}
  }

  method EvidenceRefs(g: Graph, id: string) returns (r: seq<string>)
    ensures r == Text.SortedList(RefSet(ById(g.nodes), g.edges, id) - {""})
  {
    hide ById;
    var d := ById(g.nodes);
    var refs: set<string> := {};
    for n := 0 to |g.edges|
      invariant refs == RefSet(d, g.edges[..n], id)
    {
      var e := g.edges[n];
      assert g.edges[..n + 1][..n] == g.edges[..n];
      if e.source == id || e.target == id {
        refs := refs + (EndpointRefs(d, e.source) + EndpointRefs(d, e.target));
      }
    }
    assert g.edges[..|g.edges|] == g.edges;
    r := Text.SortedList(refs - {""});
  }

  predicate IsRow(n: Node) {
    n.kind == "compliance" || n.kind == "ruleset_row"
  }

  /** The rows that an edge ties to an FR. */
  function RowSet(d: Dict<string, Node>, edges: seq<Edge>, fr: string): set<string> {
    if edges == [] then {}
    else
      var e := edges[|edges| - 1];
      RowSet(d, edges[..|edges| - 1], fr)
      + if e.target == fr && e.source in d.at && IsRow(d.at[e.source]) then {e.source} else {}
  }

  method RowsForFr(g: Graph, fr: string) returns (rows: seq<string>)
    ensures rows == Text.SortedList(RowSet(ById(g.nodes), g.edges, fr))
  {
    hide ById;
    var d := ById(g.nodes);
    var found: set<string> := {};
    for n := 0 to |g.edges|
      invariant found == RowSet(d, g.edges[..n], fr)
    {
      var e := g.edges[n];
      assert g.edges[..n + 1][..n] == g.edges[..n];
      if e.target != fr {
        continue;
      }
      if e.source in d.at && IsRow(d.at[e.source]) {
        found := found + {e.source};
      }
    }
    assert g.edges[..|g.edges|] == g.edges;
    rows := Text.SortedList(found);
  }

  function WithRow(row: string, refs: seq<string>): (r: seq<string>)
    ensures |r| == |refs|
    ensures forall i :: 0 <= i < |refs| ==> r[i] == if row != "" && refs[i] != "" then row + ":" + refs[i] else refs[i]
  {
    seq(|refs|, i requires 0 <= i < |refs| => if row != "" && refs[i] != "" then row + ":" + refs[i] else refs[i])
  }

  function BlockersAt(d: Dict<string, Node>, id: string): seq<string> {
    if id in d.at then d.at[id].blockers else []
  }

  function RowBlockers(d: Dict<string, Node>, rows: seq<string>): seq<string> {
    if rows == [] then []
    else RowBlockers(d, rows[..|rows| - 1]) + WithRow(rows[|rows| - 1], BlockersAt(d, rows[|rows| - 1]))
  }

  function NonEmpty(s: seq<string>): seq<string> {
    if s == [] then []
    else NonEmpty(s[..|s| - 1]) + if s[|s| - 1] != "" then [s[|s| - 1]] else []
  }

  predicate LooksAtRows(claim: string, id: string) {
    (claim == "fr_satisfied" || claim == "no_blocking_scanner_evidence") && "fr:" <= id
  }

  function TargetBlockers(g: Graph, id: string, claim: string): seq<string> {
    var d := ById(g.nodes);
    var direct := Text.SortedSet(NonEmpty(BlockersAt(d, id)));
    var more := if LooksAtRows(claim, id) then RowBlockers(d, Text.SortedList(RowSet(d, g.edges, id))) else [];
    Text.SortedSet(NonEmpty(direct + more))
  }

  method ScannerBlockers(g: Graph, id: string, claim: string) returns (r: seq<string>)
    ensures r == TargetBlockers(g, id, claim)
  {
    hide ById, Text.SortedSet, Text.SortedList, RowSet, NonEmpty, WithRow, BlockersAt, LooksAtRows;
    var d := ById(g.nodes);
    var blockers := Text.SortedSet(NonEmpty(BlockersAt(d, id)));
    if LooksAtRows(claim, id) {
      var rows := RowsForFr(g, id);
      ghost var direct := blockers;
      assert direct + RowBlockers(d, rows[..0]) == direct;
      for n := 0 to |rows|
        invariant blockers == direct + RowBlockers(d, rows[..n])
      {
        assert rows[..n + 1][..n] == rows[..n];
        blockers := blockers + WithRow(rows[n], BlockersAt(d, rows[n]));
      }
      assert rows[..|rows|] == rows;
    } else {
      assert blockers + [] == blockers;
    }
    r := Text.SortedSet(NonEmpty(blockers));
  }

  function ScopeBlockers(nodes: seq<Node>): seq<string> {
    if nodes == [] then []
    else
      var n := nodes[|nodes| - 1];
      ScopeBlockers(nodes[..|nodes| - 1]) + if IsRow(n) then WithRow(n.id, n.blockers) else []
  }

  method SelectedScopeBlockers(nodes: seq<Node>) returns (r: seq<string>)
    ensures r == Text.SortedSet(ScopeBlockers(nodes))
  {
    hide Text.SortedSet;
    var blockers: seq<string> := [];
    for i := 0 to |nodes|
      invariant blockers == ScopeBlockers(nodes[..i])
    {
      assert nodes[..i + 1][..i] == nodes[..i];
      if !IsRow(nodes[i]) {
        continue;
      }
      blockers := blockers + WithRow(nodes[i].id, nodes[i].blockers);
    }
    assert nodes[..|nodes|] == nodes;
    r := Text.SortedSet(blockers);
  }

  // ----- Evaluation ------------------------------------------------------------------------------------

  predicate Fails(n: Node) {
    (n.kind == "fr" || IsRow(n)) && (n.evidenceStatus in UNSATISFIED || n.status in UNSATISFIED)
  }

  function Failing(nodes: seq<Node>): seq<Node> {
    if nodes == [] then []
    else Failing(nodes[..|nodes| - 1]) + if Fails(nodes[|nodes| - 1]) then [nodes[|nodes| - 1]] else []
  }

  function BlockerReasons(blockers: seq<string>): seq<Reason> {
    if blockers == [] then []
    else
      var ten := Take(blockers, 10);
      [BlockersRecorded] + seq(|ten|, i requires 0 <= i < |ten| => BlockedBy(ten[i]))
  }

  function FailingReasons(failing: seq<Node>): seq<Reason> {
    if failing == [] then []
    else
      var ten := Take(failing, 10);
      [NotSatisfied(|failing|)] +
      seq(|ten|, i requires 0 <= i < |ten| => NodeIs(ten[i].id, if ten[i].status != "" then ten[i].status else "unknown"))
  }

  function ScopeEvaluation(target: string, failing: seq<Node>, blockers: seq<string>): Evaluation {
    var clear := failing == [] && blockers == [];
    Evaluation(
      target, if clear then "satisfied" else "unsatisfied", clear,
      if clear then [ScopeClear] else FailingReasons(failing) + BlockerReasons(blockers), [], blockers)
  }

  function StatusOf(n: Node): string {
    if n.evidenceStatus != "" then n.evidenceStatus else n.status
  }

  function GivenReasons(texts: seq<string>): seq<Reason> {
    if texts == [] then []
    else
      GivenReasons(texts[..|texts| - 1]) + if Text.Strip(texts[|texts| - 1]) != "" then [Given(texts[|texts| - 1])] else []
  }

  function NodeEvaluation(claim: string, n: Node, evidence: seq<string>, blockers: seq<string>): Evaluation {
    var status, given := StatusOf(n), GivenReasons(n.reasons);
    var shown := if status != "" then status else "unknown";
    if claim == "no_blocking_scanner_evidence" then
      var satisfied := blockers == [] && status != "failed";
      var reasons := if given == [] then [if satisfied then NoBlocking else Blocking] else given + BlockerReasons(blockers);
      Evaluation(n.id, shown, satisfied, reasons, evidence, blockers)
    else
      var reasons := (if given == [] then [HasStatus(n.id, shown)] else given) + BlockerReasons(blockers);
      Evaluation(n.id, shown, status in SATISFIED && blockers == [], reasons, evidence, blockers)
  }

  const SCOPE := "selected_scope_satisfied"

  function Evaluate(g: Graph, claim: string, target: string): Evaluation {
    if claim == SCOPE then ScopeEvaluation(target, Failing(g.nodes), Text.SortedSet(ScopeBlockers(g.nodes)))
    else
      var node := TargetNode(g, claim, target);
      if node.None? then Evaluation("", "missing", false, [NotFound(target)], [], [])
      else
        var n := node.value;
        NodeEvaluation(claim, n, Text.SortedList(RefSet(ById(g.nodes), g.edges, n.id) - {""}), TargetBlockers(g, n.id, claim))
  }

  method CollectFailing(nodes: seq<Node>) returns (failing: seq<Node>)
    ensures failing == Failing(nodes)
  {
    failing := [];
    for i := 0 to |nodes|
      invariant failing == Failing(nodes[..i])
    {
      assert nodes[..i + 1][..i] == nodes[..i];
      if Fails(nodes[i]) {
        failing := failing + [nodes[i]];
      }
    }
    assert nodes[..|nodes|] == nodes;
  }

  method EvaluateClaim(g: Graph, claim: string, target: string) returns (e: Evaluation)
    ensures e == Evaluate(g, claim, target)
  {
    hide TargetNode, TargetBlockers, RefSet, NodeEvaluation, ScopeEvaluation, Text.SortedSet, Text.SortedList;
    if claim == SCOPE {
      var blockers := SelectedScopeBlockers(g.nodes);
      var failing := CollectFailing(g.nodes);
      return ScopeEvaluation(target, failing, blockers);
    }
    var node := FindTargetNode(g, claim, target);
    if node.None? {
      return Evaluation("", "missing", false, [NotFound(target)], [], []);
    }
    var blockers := ScannerBlockers(g, node.value.id, claim);
    var evidence := EvidenceRefs(g, node.value.id);
    e := NodeEvaluation(claim, node.value, evidence, blockers);
  }

  // ----- What a satisfied claim means ---------------------------------------------------------------------

  lemma {:induction false} NonEmptyMembers(s: seq<string>, x: string)
    ensures x in NonEmpty(s) <==> x in s && x != ""
  {
    if s != [] {
      NonEmptyMembers(s[..|s| - 1], x);
      assert s == s[..|s| - 1] + [s[|s| - 1]];
    }
  }

  lemma {:induction false} RowSetMembers(d: Dict<string, Node>, edges: seq<Edge>, fr: string, row: string)
    ensures row in RowSet(d, edges, fr) <==> Edge(row, fr) in edges && row in d.at && IsRow(d.at[row])
  {
    hide IsRow;
    if edges != [] {
      var front, last := edges[..|edges| - 1], edges[|edges| - 1];
      RowSetMembers(d, front, fr, row);
      assert edges == front + [last];
    }
  }

  /** A list of references blocks nothing when all of them are empty. */
  ghost predicate NoRefs(refs: seq<string>) {
    forall r :: r in refs ==> r == ""
  }

  lemma NoRefsInRow(row: string, refs: seq<string>)
    ensures NoRefs(WithRow(row, refs)) <==> NoRefs(refs)
  {
    var w := WithRow(row, refs);
    forall i | 0 <= i < |refs| ensures w[i] == "" <==> refs[i] == "" {
      assert |row + ":" + refs[i]| > 0;
    }
    forall i | 0 <= i < |refs| ensures w[i] in w && refs[i] in refs { }
  }

  lemma {:induction false} NoRefsInRows(d: Dict<string, Node>, rows: seq<string>)
    ensures NoRefs(RowBlockers(d, rows)) <==> forall row :: row in rows ==> NoRefs(BlockersAt(d, row))
  {
    hide BlockersAt;
    if rows != [] {
      var front, last := rows[..|rows| - 1], rows[|rows| - 1];
      NoRefsInRows(d, front);
      NoRefsInRow(last, BlockersAt(d, last));
      NoRefsInBoth(RowBlockers(d, front), WithRow(last, BlockersAt(d, last)));
      forall row ensures row in rows <==> row in front || row == last {
        assert rows == front + [last];
      }
    }
  }

  lemma NoRefsInBoth(a: seq<string>, b: seq<string>)
    ensures NoRefs(a + b) <==> NoRefs(a) && NoRefs(b)
  {
    assert forall r :: r in a + b <==> r in a || r in b;
  }

  lemma SortedNonEmpty(s: seq<string>)
    ensures Text.SortedSet(NonEmpty(s)) == [] <==> NoRefs(s)
    ensures NoRefs(Text.SortedSet(NonEmpty(s))) <==> NoRefs(s)
  {
    var r := Text.SortedSet(NonEmpty(s));
    forall x ensures x in r <==> x in s && x != "" {
      NonEmptyMembers(s, x);
    }
    if r != [] {
      assert r[0] in r;
    }
  }

  /** No blocker is recorded on the target, nor, where the claim looks at them, on any row
      that an edge ties to it. */
  ghost predicate Unblocked(g: Graph, id: string, claim: string) {
    var d := ById(g.nodes);
    && NoRefs(BlockersAt(d, id))
    && (LooksAtRows(claim, id) ==>
      forall row :: Edge(row, id) in g.edges && row in d.at && IsRow(d.at[row]) ==> NoRefs(BlockersAt(d, row)))
  }

  lemma UnblockedIff(g: Graph, id: string, claim: string)
    ensures TargetBlockers(g, id, claim) == [] <==> Unblocked(g, id, claim)
  {
    hide ById, Text.SortedSet, NonEmpty, RowSet, NoRefs, BlockersAt, IsRow, LooksAtRows;
    var d := ById(g.nodes);
    var rows := Text.SortedList(RowSet(d, g.edges, id));
    var direct := Text.SortedSet(NonEmpty(BlockersAt(d, id)));
    var more := if LooksAtRows(claim, id) then RowBlockers(d, rows) else [];
    SortedNonEmpty(BlockersAt(d, id));
    SortedNonEmpty(direct + more);
    NoRefsInBoth(direct, more);
    NoRefsInRows(d, rows);
    NoRefsInNothing();
    forall row ensures row in rows <==> Edge(row, id) in g.edges && row in d.at && IsRow(d.at[row]) {
      RowSetMembers(d, g.edges, id, row);
    }
  }

  lemma NoRefsInNothing()
    ensures NoRefs([])
  {
  }

  /** A claim about one target is satisfied exactly when the target is in the graph, nothing
      blocks it, and its status is satisfied, or, for a claim about scanner evidence only,
      is not failed. */
  lemma SatisfiedIff(g: Graph, claim: string, target: string)
    requires claim != SCOPE
    ensures
      Evaluate(g, claim, target).satisfied <==>
      && TargetNode(g, claim, target).Some?
      && var n := TargetNode(g, claim, target).value;
      && Unblocked(g, n.id, claim)
      && if claim == "no_blocking_scanner_evidence" then StatusOf(n) != "failed" else StatusOf(n) in SATISFIED
  {
    hide TargetNode, TargetBlockers, Unblocked, StatusOf, BlockerReasons, GivenReasons, RefSet;
    if TargetNode(g, claim, target).Some? {
      UnblockedIff(g, TargetNode(g, claim, target).value.id, claim);
    }
  }

  lemma {:induction false} ScopeMembers(nodes: seq<Node>)
    ensures ScopeBlockers(nodes) == [] <==> forall n :: n in nodes && IsRow(n) ==> n.blockers == []
    ensures Failing(nodes) == [] <==> forall n :: n in nodes ==> !Fails(n)
  {
    hide IsRow, Fails;
    if nodes != [] {
      var front, last := nodes[..|nodes| - 1], nodes[|nodes| - 1];
      ScopeMembers(front);
      forall n ensures n in nodes <==> n in front || n == last {
        assert nodes == front + [last];
      }
    }
  }

  /** The selected scope is satisfied exactly when no FR or row has an unsatisfied status and
      no row records a scanner blocker. */
  lemma ScopeSatisfiedIff(g: Graph, target: string)
    ensures
      Evaluate(g, SCOPE, target).satisfied <==>
      forall n :: n in g.nodes ==> !Fails(n) && (IsRow(n) ==> n.blockers == [])
  {
    hide Text.SortedSet, Fails, IsRow;
    ScopeMembers(g.nodes);
    var blockers := ScopeBlockers(g.nodes);
    assert Text.SortedSet(blockers) == [] <==> blockers == [] by {
      if blockers != [] {
        assert blockers[0] in Text.SortedSet(blockers);
      }
      if Text.SortedSet(blockers) != [] {
        assert Text.SortedSet(blockers)[0] in blockers;
      }
    }
  }

  predicate InScope(n: Node) {
    n.kind == "fr" || IsRow(n)
  }

  /** In a satisfied scope, a claim about an FR or a row needs little more: an FR must record
      no blocker of its own, which the scope does not ask, and, unless the claim is about
      scanner evidence only, the status must be a satisfied one and not merely no
      unsatisfied one. */
  lemma ScopeLeavesOnly(g: Graph, any: string, claim: string, target: string)
    requires claim != SCOPE && Evaluate(g, SCOPE, any).satisfied
    requires TargetNode(g, claim, target).Some? && InScope(TargetNode(g, claim, target).value)
    ensures
      var n := TargetNode(g, claim, target).value;
      Evaluate(g, claim, target).satisfied <==>
      && (IsRow(n) || NoRefs(n.blockers))
      && (claim == "no_blocking_scanner_evidence" || StatusOf(n) in SATISFIED)
  {
    hide ById, Evaluate, IsRow, LooksAtRows, NoRefs;
    var d, n := ById(g.nodes), TargetNode(g, claim, target).value;
    TargetIsKnown(g, claim, target);
    ByIdFacts(g.nodes);
    ScopeSatisfiedIff(g, any);
    SatisfiedIff(g, claim, target);
    NoRefsInNothing();
    assert "failed" in UNSATISFIED && !Fails(n);
    forall row | Edge(row, n.id) in g.edges && row in d.at && IsRow(d.at[row]) ensures NoRefs(BlockersAt(d, row)) {
      assert d.at[row] in g.nodes;
    }
  }

  /** The node that is found is the one the graph keeps under its id. */
  lemma TargetIsKnown(g: Graph, claim: string, target: string)
    requires TargetNode(g, claim, target).Some?
    ensures
      var d, n := ById(g.nodes), TargetNode(g, claim, target).value;
      n.id in d.at && d.at[n.id] == n && n in g.nodes
  {
    var d := ById(g.nodes);
    ByIdFacts(g.nodes);
    KnownIsFiled(d, CandidateIds(claim, target));
    NamedIsFiled(d, d.keys, target);
  }

  lemma {:induction false} KnownIsFiled(d: Dict<string, Node>, ids: seq<string>)
    ensures FirstKnown(d, ids).Some? ==> exists k :: k in d.at && d.at[k] == FirstKnown(d, ids).value
  {
    if ids != [] && ids[0] !in d.at {
      KnownIsFiled(d, ids[1..]);
    }
  }

  lemma {:induction false} NamedIsFiled(d: Dict<string, Node>, keys: seq<string>, target: string)
    ensures FirstNamed(d, keys, target).Some? ==> exists k :: k in d.at && d.at[k] == FirstNamed(d, keys, target).value
  {
    if keys != [] && !(keys[0] in d.at && target in d.at[keys[0]].names) {
      NamedIsFiled(d, keys[1..], target);
    }
  }

  /** The claim about one FR or row. */
  function OwnClaim(n: Node): string {
    if n.kind == "fr" then "fr_satisfied" else "compliance_row_satisfied"
  }

  /** Every FR and row is the target of its own claim, and that claim is satisfied. */
  ghost predicate EachSatisfied(g: Graph) {
    forall n :: n in g.nodes && InScope(n) ==>
      TargetNode(g, OwnClaim(n), n.id) == Some(n) && Evaluate(g, OwnClaim(n), n.id).satisfied
  }

  /** Claim by claim satisfaction is not yet satisfaction of the scope: the scope also looks
      at the status behind an evidence status, and counts blockers without a reference. */
  lemma EachSatisfiedIsScopeIff(g: Graph, any: string)
    requires EachSatisfied(g)
    ensures
      Evaluate(g, SCOPE, any).satisfied <==>
      forall n :: n in g.nodes && InScope(n) ==> n.status !in UNSATISFIED && (IsRow(n) ==> n.blockers == [])
  {
    hide Evaluate, TargetNode, IsRow, Unblocked;
    ScopeSatisfiedIff(g, any);
    forall n | n in g.nodes && InScope(n) ensures n.evidenceStatus !in UNSATISFIED {
      NotTheScope(n);
      SatisfiedIff(g, OwnClaim(n), n.id);
      SatisfiedIsNotUnsatisfied(StatusOf(n));
      SatisfiedIsNotUnsatisfied("");
    }
  }

  lemma NotTheScope(n: Node)
    ensures OwnClaim(n) != SCOPE && OwnClaim(n) != "no_blocking_scanner_evidence"
  {
    assert "fr_satisfied"[0] == 'f' && "compliance_row_satisfied"[0] == 'c' && SCOPE[0] == 's' && "no_blocking_scanner_evidence"[0] == 'n';
  }

  lemma SatisfiedIsNotUnsatisfied(s: string)
    ensures s in SATISFIED ==> s !in UNSATISFIED
    ensures "" !in UNSATISFIED
  {
    assert "passed"[3] == 's' && "satisfied"[0] == 's' && "waived"[0] == 'w' && "compensating_control"[0] == 'c';
    assert "failed"[0] == 'f' && "missing"[0] == 'm' && "partial"[0] == 'p' && "partial"[3] == 't' && "blocked"[0] == 'b'
      && "manual_review"[0] == 'm' && "unaddressed"[0] == 'u';
  }

  /** Neither gives the other: an FR that passes on its evidence behind a failed status
      satisfies its claim but not the scope, and one with a blocker of its own satisfies the
      scope but not its claim. */
  lemma ScopeAndClaimsDiffer()
    ensures
      var hidden := Graph([Node("fr:F", "fr", "failed", "passed", "", [], [], [])], []);
      Evaluate(hidden, "fr_satisfied", "fr:F").satisfied && !Evaluate(hidden, SCOPE, "").satisfied
    ensures
      var blocked := Graph([Node("fr:F", "fr", "passed", "", "", [], ["B"], [])], []);
      Evaluate(blocked, SCOPE, "").satisfied && !Evaluate(blocked, "fr_satisfied", "fr:F").satisfied
  {
    OneFr("failed", "passed", []);
    OneFr("passed", "", ["B"]);
    SatisfiedIsNotUnsatisfied("passed");
    SatisfiedIsNotUnsatisfied("");
    assert "B" in ["B"];
  }

  lemma OneFr(status: string, evidence: string, blockers: seq<string>)
    ensures
      var n := Node("fr:F", "fr", status, evidence, "", [], blockers, []);
      var g := Graph([n], []);
      && (Evaluate(g, "fr_satisfied", "fr:F").satisfied <==> NoRefs(blockers) && StatusOf(n) in SATISFIED)
      && (Evaluate(g, SCOPE, "").satisfied <==> evidence !in UNSATISFIED && status !in UNSATISFIED)
  {
    hide Evaluate, NoRefs, StatusOf;
    var n := Node("fr:F", "fr", status, evidence, "", [], blockers, []);
    var g := Graph([n], []);
    assert [n][..0] == [];
    assert ById(g.nodes).at["fr:F"] == n;
    assert "fr_satisfied"[0] == 'f' && SCOPE[0] == 's' && "no_blocking_scanner_evidence"[0] == 'n';
    assert "fr"[0] == 'f' && "compliance"[0] == 'c' && "ruleset_row"[0] == 'r';
    SatisfiedIff(g, "fr_satisfied", "fr:F");
    ScopeSatisfiedIff(g, "");
  }

  /** The evidence a claim refers to is that of the evidence nodes an edge ties to it. */
  lemma {:induction false} RefSetMembers(d: Dict<string, Node>, edges: seq<Edge>, id: string, r: string)
    ensures
      r in RefSet(d, edges, id) <==>
      exists e :: e in edges && (e.source == id || e.target == id) && r in EndpointRefs(d, e.source) + EndpointRefs(d, e.target)
  {
    hide EndpointRefs;
    if edges != [] {
      var front, last := edges[..|edges| - 1], edges[|edges| - 1];
      RefSetMembers(d, front, id, r);
      forall e ensures e in edges <==> e in front || e == last {
        assert edges == front + [last];
      }
    }
  }
}
