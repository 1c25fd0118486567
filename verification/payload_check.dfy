/** The artifact loader's checks for unique ids and for the graph of the dashboard payload. */
module PayloadCheck {
  import opened Wrappers
  import opened Sequences

  // ----- Unique ids ------------------------------------------------------------------------------

  /** The ids that are not empty. */
  function Named(ids: seq<string>): seq<string> {
    if ids == [] then []
    else Named(ids[..|ids| - 1]) + if ids[|ids| - 1] != "" then [ids[|ids| - 1]] else []
  }

  /** Each id that occurred before, as often as it is repeated. */
  function Repeats(ids: seq<string>): seq<string> {
    if ids == [] then []
    else
      var front, last := ids[..|ids| - 1], ids[|ids| - 1];
      Repeats(front) + if last != "" && last in front then [last] else []
  }

  method CheckUnique(ids: seq<string>) returns (repeated: seq<string>)
    ensures repeated == Repeats(ids)
  {
    repeated := [];
    var seen: set<string> := {};
    for n := 0 to |ids|
      invariant repeated == Repeats(ids[..n])
      invariant forall x :: x in seen <==> x in ids[..n] && x != ""
    {
      assert ids[..n + 1] == ids[..n] + [ids[n]] && ids[..n + 1][..n] == ids[..n];
      if ids[n] == "" {
        continue;
      }
      if ids[n] in seen {
        repeated := repeated + [ids[n]];
      }
      seen := seen + {ids[n]};
    }
    assert ids[..|ids|] == ids;
  }

  lemma {:induction false} NamedMembers(ids: seq<string>, x: string)
    ensures x in Named(ids) <==> x in ids && x != ""
  {
    if ids != [] {
      NamedMembers(ids[..|ids| - 1], x);
      assert ids == ids[..|ids| - 1] + [ids[|ids| - 1]];
    }
  }

  /** One report for every repetition: with the distinct ids they make up all the ids. */
  lemma {:induction false} RepeatsAreCounted(ids: seq<string>)
    ensures |Repeats(ids)| + |Dedup(Named(ids))| == |Named(ids)|
  {
    if ids != [] {
      var front, last := ids[..|ids| - 1], ids[|ids| - 1];
      RepeatsAreCounted(front);
      NamedMembers(front, last);
      DedupSnoc(Named(front), last);
      assert Named(front) + [] == Named(front);
    }
  }

  /** Nothing is reported exactly when the ids that are given are distinct. */
  lemma UniqueIff(ids: seq<string>)
    ensures Repeats(ids) == [] <==> Distinct(Named(ids))
  {
    RepeatsAreCounted(ids);
    DedupShorter(Named(ids));
  }

  lemma {:induction false} DedupShorter<T(!new)>(s: seq<T>)
    ensures |Dedup(s)| <= |s|
    ensures |Dedup(s)| == |s| <==> Distinct(s)
  {
    if s != [] {
      var front, last := s[..|s| - 1], s[|s| - 1];
      DedupShorter(front);
      assert s == front + [last];
      DedupSnoc(front, last);
      if Distinct(s) {
        DedupOfDistinct(s);
      } else if Distinct(front) {
        assert last in front;
      }
    }
  }

  // ----- The graph -------------------------------------------------------------------------------

  /** A missing id, end or type is the empty string. */
  datatype Node = Node(id: string, kind: string)

  datatype Edge = Edge(source: string, target: string, kind: string, responsibility: Option<string>)

  /** The graph vocabulary. */
  datatype Vocabulary = Vocabulary(nodes: set<string>, edges: set<string>, responsibilities: set<string>)

  datatype Error =
    | DuplicateNode(id: string) | NodeType(id: string, kind: string)
    | DuplicateEdge(e: (string, string, string)) | UnknownSource(id: string) | UnknownTarget(id: string)
    | EdgeType(e: (string, string, string)) | Responsibility(e: (string, string, string), r: string)

  function ErrorIf(bad: bool, e: Error): seq<Error> {
    if bad then [e] else []
  }

  function IdsOf(nodes: seq<Node>): (r: seq<string>)
    ensures |r| == |nodes|
    ensures forall i :: 0 <= i < |nodes| ==> r[i] == nodes[i].id
  {
    seq(|nodes|, i requires 0 <= i < |nodes| => nodes[i].id)
  }

  function KeyOf(e: Edge): (string, string, string) {
    (e.source, e.target, e.kind)
  }

  function KeysOf(edges: seq<Edge>): (r: seq<(string, string, string)>)
    ensures |r| == |edges|
    ensures forall i :: 0 <= i < |edges| ==> r[i] == KeyOf(edges[i])
  {
    seq(|edges|, i requires 0 <= i < |edges| => KeyOf(edges[i]))
  }

  function NodeErrors(nodes: seq<Node>, v: Vocabulary): seq<Error> {
    if nodes == [] then []
    else
      var front, n := nodes[..|nodes| - 1], nodes[|nodes| - 1];
      NodeErrors(front, v) + ErrorIf(n.id != "" && n.id in IdsOf(front), DuplicateNode(n.id))
      + ErrorIf(n.kind !in v.nodes, NodeType(n.id, n.kind))
  }

  function OneEdgeErrors(e: Edge, ids: set<string>, v: Vocabulary): seq<Error> {
    ErrorIf(e.source !in ids, UnknownSource(e.source)) + ErrorIf(e.target !in ids, UnknownTarget(e.target))
    + ErrorIf(e.kind !in v.edges, EdgeType(KeyOf(e)))
    + if e.responsibility.Some? then ErrorIf(e.responsibility.value !in v.responsibilities, Responsibility(KeyOf(e), e.responsibility.value)) else []
  }

  function EdgeErrors(edges: seq<Edge>, ids: set<string>, v: Vocabulary): seq<Error> {
    if edges == [] then []
    else
      var front, e := edges[..|edges| - 1], edges[|edges| - 1];
      EdgeErrors(front, ids, v) + ErrorIf(KeyOf(e) in KeysOf(front), DuplicateEdge(KeyOf(e))) + OneEdgeErrors(e, ids, v)
  }

  function NodeIds(nodes: seq<Node>): set<string> {
    set n | n in nodes && n.id != "" :: n.id
  }

  function Errors(nodes: seq<Node>, edges: seq<Edge>, v: Vocabulary): seq<Error> {
    NodeErrors(nodes, v) + EdgeErrors(edges, NodeIds(nodes), v)
  }

  method CheckNodes(nodes: seq<Node>, v: Vocabulary) returns (errors: seq<Error>, ids: set<string>)
    ensures errors == NodeErrors(nodes, v) && ids == NodeIds(nodes)
  {
    errors, ids := [], {};
    assert NodeErrors(nodes[..0], v) == [] && NodeIds(nodes[..0]) == {};
    hide NodeErrors, NodeIds;
    for i := 0 to |nodes|
      invariant errors == NodeErrors(nodes[..i], v)
      invariant ids == NodeIds(nodes[..i])
    {
      var n := nodes[i];
      assert nodes[..i + 1] == nodes[..i] + [n];
      OneMoreNode(nodes[..i], n, v);
      errors := errors + ErrorIf(n.id != "" && n.id in ids, DuplicateNode(n.id)) + ErrorIf(n.kind !in v.nodes, NodeType(n.id, n.kind));
      if n.id != "" {
        ids := ids + {n.id};
      }
    }
    assert nodes[..|nodes|] == nodes;
  }

  lemma OneMoreNode(nodes: seq<Node>, n: Node, v: Vocabulary)
    ensures
      NodeErrors(nodes + [n], v) ==
        NodeErrors(nodes, v) + ErrorIf(n.id != "" && n.id in NodeIds(nodes), DuplicateNode(n.id)) + ErrorIf(n.kind !in v.nodes, NodeType(n.id, n.kind))
    ensures NodeIds(nodes + [n]) == NodeIds(nodes) + if n.id != "" then {n.id} else {}
  {
    assert (nodes + [n])[..|nodes|] == nodes;
    if n.id != "" {
      IdsAreListed(nodes, n.id);
    }
    forall m ensures m in nodes + [n] <==> m in nodes || m == n { }
  }

  lemma IdsAreListed(nodes: seq<Node>, id: string)
    requires id != ""
    ensures id in NodeIds(nodes) <==> id in IdsOf(nodes)
  {
    if id in IdsOf(nodes) {
      var i :| 0 <= i < |nodes| && IdsOf(nodes)[i] == id;
      assert nodes[i] in nodes;
    }
    if id in NodeIds(nodes) {
      var n :| n in nodes && n.id == id;
      var i :| 0 <= i < |nodes| && nodes[i] == n;
      assert IdsOf(nodes)[i] == id;
    }
  }

  method CheckEdges(edges: seq<Edge>, ids: set<string>, v: Vocabulary) returns (errors: seq<Error>)
    ensures errors == EdgeErrors(edges, ids, v)
  {
    hide OneEdgeErrors;
    errors := [];
    var seen: set<(string, string, string)> := {};
    for i := 0 to |edges|
      invariant errors == EdgeErrors(edges[..i], ids, v)
      invariant forall k :: k in seen <==> k in KeysOf(edges[..i])
    {
      assert edges[..i + 1][..i] == edges[..i];
      assert KeysOf(edges[..i + 1]) == KeysOf(edges[..i]) + [KeyOf(edges[i])];
      if KeyOf(edges[i]) in seen {
        errors := errors + [DuplicateEdge(KeyOf(edges[i]))];
      }
      seen := seen + {KeyOf(edges[i])};
      errors := errors + OneEdgeErrors(edges[i], ids, v);
    }
    assert edges[..|edges|] == edges;
  }

  method CheckDashboardPayload(nodes: seq<Node>, edges: seq<Edge>, v: Vocabulary) returns (errors: seq<Error>)
    ensures errors == Errors(nodes, edges, v)
    ensures errors == [] <==> WellFormed(nodes, edges, v)
  {
    WellFormedIff(nodes, edges, v);
    hide WellFormed, NodeErrors, EdgeErrors;
    var ids;
    errors, ids := CheckNodes(nodes, v);
    var more := CheckEdges(edges, ids, v);
    errors := errors + more;
  }

  predicate EdgeFits(e: Edge, ids: set<string>, v: Vocabulary) {
    && e.source in ids && e.target in ids && e.kind in v.edges
    && (e.responsibility.Some? ==> e.responsibility.value in v.responsibilities)
  }

  /** Ids and edges do not repeat, everything is of a known kind, and edges run between
      nodes of the graph. */
  ghost predicate WellFormed(nodes: seq<Node>, edges: seq<Edge>, v: Vocabulary) {
    && Distinct(Named(IdsOf(nodes))) && (forall n :: n in nodes ==> n.kind in v.nodes)
    && Distinct(KeysOf(edges)) && (forall e :: e in edges ==> EdgeFits(e, NodeIds(nodes), v))
  }

  lemma {:induction false} NodesIff(nodes: seq<Node>, v: Vocabulary)
    ensures NodeErrors(nodes, v) == [] <==> Repeats(IdsOf(nodes)) == [] && forall n :: n in nodes ==> n.kind in v.nodes
  {
    if nodes != [] {
      var front, last := nodes[..|nodes| - 1], nodes[|nodes| - 1];
      NodesIff(front, v);
      assert IdsOf(nodes)[..|front|] == IdsOf(front) && IdsOf(nodes)[|front|] == last.id;
      forall n ensures n in nodes <==> n in front || n == last {
        assert nodes == front + [last];
      }
    }
  }

  lemma OneEdgeIff(e: Edge, ids: set<string>, v: Vocabulary)
    ensures OneEdgeErrors(e, ids, v) == [] <==> EdgeFits(e, ids, v)
  {
  }

  lemma {:induction false} EdgesIff(edges: seq<Edge>, ids: set<string>, v: Vocabulary)
    ensures EdgeErrors(edges, ids, v) == [] <==> Distinct(KeysOf(edges)) && forall e :: e in edges ==> EdgeFits(e, ids, v)
  {
    hide OneEdgeErrors, EdgeFits, KeyOf;
    if edges != [] {
      var front, last := edges[..|edges| - 1], edges[|edges| - 1];
      EdgesIff(front, ids, v);
      OneEdgeIff(last, ids, v);
      assert KeysOf(edges) == KeysOf(front) + [KeyOf(last)];
      DistinctSnoc(KeysOf(front), KeyOf(last));
      forall e ensures e in edges <==> e in front || e == last {
        assert edges == front + [last];
      }
    }
  }

  lemma DistinctSnoc<T>(s: seq<T>, x: T)
    ensures Distinct(s + [x]) <==> Distinct(s) && x !in s
  {
    var t := s + [x];
    if Distinct(t) {
      forall i | 0 <= i < |s| ensures s[i] != x {
        assert t[i] != t[|s|];
      }
      forall i, j | 0 <= i < j < |s| ensures s[i] != s[j] {
        assert t[i] != t[j];
      }
    }
  }

  /** The graph check is exact. */
  lemma WellFormedIff(nodes: seq<Node>, edges: seq<Edge>, v: Vocabulary)
    ensures Errors(nodes, edges, v) == [] <==> WellFormed(nodes, edges, v)
  {
    hide Repeats, Named, EdgeFits;
    NodesIff(nodes, v);
    UniqueIff(IdsOf(nodes));
    EdgesIff(edges, NodeIds(nodes), v);
  }
}
