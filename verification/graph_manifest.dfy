/** The graph manifest: the commitments the dashboard writes into it, and the independent
    check an artifact loader makes of it. */
module GraphManifest {
  import opened Hashing
  import opened Wrappers
  import opened Sequences
  import opened Sorting
  import opened Json
  import RS = ReviewSummary
  import Text

  /** An existing file: its SHA-256 in hexadecimal, its size and its content as JSON. */
  datatype File = File(hex: string, bytes: nat, json: Json)

  type Files = map<string, File>

  datatype Candidate = Candidate(path: string, role: string, caption: string)

  /** The printing and naming functions of the host. */
  datatype Env = Env(stem: string -> string, show: Json -> string)

  datatype Commitment = Commitment(
    id: string, role: string, caption: string, path: string, sha256: string, bytes: nat,
    freezeMode: string, immutable: Option<bool>, summary: Option<RS.Summary>)

  function SummaryOf(j: Json, show: Json -> string): Option<RS.Summary> {
    if !j.Obj? then None
    else
      var s := RS.Summarised(RS.FoundIn(RS.Objects(j), show));
      if s == RS.EMPTY then None else Some(s)
  }

  function CommitmentOf(kind: string, c: Candidate, files: Files, env: Env): Option<Commitment> {
    if c.path !in files then None
    else
      var f := files[c.path];
      Some(Commitment(
        kind + ":" + c.role + ":" + env.stem(c.path) + ":" + Take(f.hex, 16), c.role, c.caption, c.path, PREFIX + f.hex, f.bytes,
        "content_addressed", Some(true), SummaryOf(f.json, env.show)))
  }

  method MakeCommitment(kind: string, c: Candidate, files: Files, env: Env) returns (r: Option<Commitment>)
    ensures r == CommitmentOf(kind, c, files, env)
  {
    hide RS.Summarised, RS.FoundIn, RS.Objects;
    if c.path !in files {
      return None;
    }
    var f := files[c.path];
    var summary: Option<RS.Summary> := None;
    if f.json.Obj? {
      var s := RS.ConfigReviewSummary(f.json, env.show);
      if s != RS.EMPTY {
        summary := Some(s);
      }
    }
    r := Some(Commitment(
      kind + ":" + c.role + ":" + env.stem(c.path) + ":" + Take(f.hex, 16), c.role, c.caption, c.path, PREFIX + f.hex, f.bytes,
      "content_addressed", Some(true), summary));
  }

  // ----- Collecting commitments --------------------------------------------------------------------

  function KeyOf(c: Commitment): (string, string) {
    (c.role, c.sha256)
  }

  function Keys(cs: seq<Commitment>): (r: seq<(string, string)>)
    ensures |r| == |cs|
    ensures forall i :: 0 <= i < |cs| ==> r[i] == KeyOf(cs[i])
  {
    seq(|cs|, i requires 0 <= i < |cs| => KeyOf(cs[i]))
  }

  /** The commitment of each candidate that exists, the first of each role and content. */
  function Collected(kind: string, candidates: seq<Candidate>, files: Files, env: Env): seq<Commitment> {
    if candidates == [] then []
    else
      var rest := Collected(kind, candidates[..|candidates| - 1], files, env);
      var c := CommitmentOf(kind, candidates[|candidates| - 1], files, env);
      if c.None? || KeyOf(c.value) in Keys(rest) then rest else rest + [c.value]
  }

  /** By role, then path, then content. */
  predicate Sooner(a: Commitment, b: Commitment) {
    if a.role != b.role then Text.Before(a.role, b.role)
    else if a.path != b.path then Text.Before(a.path, b.path)
    else Text.Before(a.sha256, b.sha256)
  }

  method CollectCommitments(kind: string, candidates: seq<Candidate>, files: Files, env: Env) returns (r: seq<Commitment>)
    ensures r == Sorted(Collected(kind, candidates, files, env), Sooner)
  {
    hide CommitmentOf, Sorted;
    var found: seq<Commitment> := [];
    var seen: set<(string, string)> := {};
    for n := 0 to |candidates|
      invariant found == Collected(kind, candidates[..n], files, env)
      invariant forall k :: k in seen <==> k in Keys(found)
    {
      assert candidates[..n + 1][..n] == candidates[..n];
      var c := MakeCommitment(kind, candidates[n], files, env);
      if c.None? || KeyOf(c.value) in seen {
        continue;
      }
      assert Keys(found + [c.value]) == Keys(found) + [KeyOf(c.value)];
      seen := seen + {KeyOf(c.value)};
      found := found + [c.value];
    }
    assert candidates[..|candidates|] == candidates;
    r := Sorted(found, Sooner);
  }

  lemma SoonerIsAnOrder()
    ensures Order(Sooner)
  {
    hide Text.Before;
    forall a, b ensures Sooner(a, b) ==> !Sooner(b, a) {
      Text.BeforeIsTotal(a.role, b.role);
      Text.BeforeIsTotal(a.path, b.path);
      Text.BeforeIsTotal(a.sha256, b.sha256);
    }
    forall a, b, c | !Sooner(b, a) && !Sooner(c, b) ensures !Sooner(c, a) {
      Text.LexLaws(a.role, b.role, c.role);
      Text.LexLaws(a.path, b.path, c.path);
      Text.LexLaws(a.sha256, b.sha256, c.sha256);
    }
  }

  lemma {:induction false} CollectedFacts(kind: string, candidates: seq<Candidate>, files: Files, env: Env)
    ensures Distinct(Keys(Collected(kind, candidates, files, env)))
    ensures forall x :: x in Collected(kind, candidates, files, env) ==>
      exists c :: c in candidates && CommitmentOf(kind, c, files, env) == Some(x)
    ensures forall c :: c in candidates && c.path in files ==>
      (c.role, PREFIX + files[c.path].hex) in Keys(Collected(kind, candidates, files, env))
  {
    if candidates != [] {
      var front, last := candidates[..|candidates| - 1], candidates[|candidates| - 1];
      CollectedFacts(kind, front, files, env);
      assert candidates == front + [last] && last in candidates;
      forall c | c in front ensures c in candidates { }
      var made := CommitmentOf(kind, last, files, env);
      assert made.Some? ==> KeyOf(made.value) == (last.role, PREFIX + files[last.path].hex);
      hide CommitmentOf;
      var rest := Collected(kind, front, files, env);
      if made.Some? && KeyOf(made.value) !in Keys(rest) {
        assert Keys(rest + [made.value]) == Keys(rest) + [KeyOf(made.value)];
      }
    }
  }

  /** The committed list is in order, commits each role and content once, commits nothing but
      candidates, and misses no candidate that exists. */
  lemma CommitmentsAreExact(kind: string, candidates: seq<Candidate>, files: Files, env: Env)
    ensures
      var r := Sorted(Collected(kind, candidates, files, env), Sooner);
      && InOrder(r, Sooner) && TagsDistinct(r, KeyOf)
      && (forall x :: x in r ==> exists c :: c in candidates && CommitmentOf(kind, c, files, env) == Some(x))
      && (forall c :: c in candidates && c.path in files ==>
        exists x :: x in r && x.role == c.role && x.sha256 == PREFIX + files[c.path].hex)
  {
    hide CommitmentOf, Sooner, Collected;
    var found := Collected(kind, candidates, files, env);
    var r := Sorted(found, Sooner);
    CollectedFacts(kind, candidates, files, env);
    SoonerIsAnOrder();
    SortOrders(found, Sooner);
    SortKeeps(found, Sooner);
    SortMembers(found, Sooner);
    forall i, j | 0 <= i < j < |found| ensures KeyOf(found[i]) != KeyOf(found[j]) {
      assert Keys(found)[i] != Keys(found)[j];
    }
    TagsSurvive(found, r, KeyOf);
    forall c | c in candidates && c.path in files
      ensures exists x :: x in r && x.role == c.role && x.sha256 == PREFIX + files[c.path].hex {
      var i :| 0 <= i < |found| && Keys(found)[i] == (c.role, PREFIX + files[c.path].hex);
      assert found[i] in r && KeyOf(found[i]) == Keys(found)[i];
    }
  }

  // ----- Claim readiness --------------------------------------------------------------------------------

  const CLAIMS: seq<(string, set<string>)> := [
    ("fr_satisfied", {"fr_catalog"}),
    ("tbt_satisfied", {"fr_catalog"}),
    ("compliance_row_satisfied", {"fr_catalog", "compliance_regime"}),
    ("no_blocking_scanner_evidence", {"scanner_compliance_mapping_pack"}),
    ("selected_scope_satisfied", {"fr_catalog", "assurance_framework"})]

  datatype Readiness = Readiness(supported: seq<string>, unsupported: seq<(string, seq<string>)>)

  function Roles(cs: seq<Commitment>): set<string> {
    set c | c in cs :: c.role
  }

  function ReadinessOf(claims: seq<(string, set<string>)>, roles: set<string>): Readiness {
    if claims == [] then Readiness([], [])
    else
      var r, c := ReadinessOf(claims[..|claims| - 1], roles), claims[|claims| - 1];
      var missing := Text.SortedList(c.1 - roles);
      if missing != [] then r.(unsupported := r.unsupported + [(c.0, missing)])
      else r.(supported := r.supported + [c.0])
  }

  method ClaimReadiness(cs: seq<Commitment>) returns (r: Readiness)
    ensures r == ReadinessOf(CLAIMS, Roles(cs))
  {
    r := CheckClaims(CLAIMS, Roles(cs));
  }

  method CheckClaims(claims: seq<(string, set<string>)>, roles: set<string>) returns (r: Readiness)
    ensures r == ReadinessOf(claims, roles)
  {
    hide Text.SortedList;
    r := Readiness([], []);
    for n := 0 to |claims|
      invariant r == ReadinessOf(claims[..n], roles)
    {
      assert claims[..n + 1][..n] == claims[..n];
      var missing := Text.SortedList(claims[n].1 - roles);
      if missing != [] {
        r := r.(unsupported := r.unsupported + [(claims[n].0, missing)]);
      } else {
        r := r.(supported := r.supported + [claims[n].0]);
      }
    }
    assert claims[..|claims|] == claims;
  }

  lemma MissingNothing(required: set<string>, roles: set<string>)
    ensures Text.SortedList(required - roles) == [] <==> required <= roles
  {
    hide Text.SortedList;
    var missing := required - roles;
    assert |Text.SortedList(missing)| == |missing|;
    if required <= roles {
      assert missing == {};
    } else {
      var r :| r in required && r !in roles;
      assert r in missing;
    }
  }

  /** A claim is supported exactly when every configuration it needs is committed. */
  lemma {:induction false} SupportedIff(claims: seq<(string, set<string>)>, roles: set<string>, c: string)
    ensures c in ReadinessOf(claims, roles).supported <==> exists p :: p in claims && p.0 == c && p.1 <= roles
  {
    hide Text.SortedList;
    if claims != [] {
      var front, last := claims[..|claims| - 1], claims[|claims| - 1];
      SupportedIff(front, roles, c);
      MissingNothing(last.1, roles);
      forall p ensures p in claims <==> p in front || p == last {
        assert claims == front + [last];
      }
    }
  }

  /** Every other claim is listed, with just the roles it misses. */
  lemma {:induction false} UnsupportedSaysWhy(claims: seq<(string, set<string>)>, roles: set<string>, u: (string, seq<string>))
    ensures u in ReadinessOf(claims, roles).unsupported <==>
      u.1 != [] && exists p :: p in claims && p.0 == u.0 && u.1 == Text.SortedList(p.1 - roles)
    ensures |ReadinessOf(claims, roles).supported| + |ReadinessOf(claims, roles).unsupported| == |claims|
  {
    hide Text.SortedList;
    if claims != [] {
      var front, last := claims[..|claims| - 1], claims[|claims| - 1];
      UnsupportedSaysWhy(front, roles, u);
      forall p ensures p in claims <==> p in front || p == last {
        assert claims == front + [last];
      }
    }
  }

  // ----- The manifest ------------------------------------------------------------------------------------

  datatype Section = Section(policy: string, count: Option<int>, commitments: seq<Commitment>)

  /** A missing hash is the empty string. */
  datatype Hashes = Hashes(
    dashboard: string, bundle: string, evidence: string, accepted: string, planning: string, graphRoot: string)

  datatype Artifact = Artifact(path: string, sha256: string, bytes: nat)

  datatype Manifest = Manifest(
    mode: string, nodes: nat, edges: nat, rootHash: string,
    accepted: Option<Section>, planning: Option<Section>, readiness: Option<Readiness>, supported: seq<string>,
    hashes: Hashes, reportFiles: seq<Artifact>, configFiles: seq<Artifact>, planningFiles: seq<Artifact>,
    evidenceFiles: seq<Artifact>)

  /** The canonical hash of a section; `None` is the empty object. */
  type Canon = Option<Section> -> string

  function FileHash(files: Files, path: string): string {
    if path in files then PREFIX + files[path].hex else ""
  }

  function EntryOf(files: Files, path: string): Artifact {
    Artifact(path, FileHash(files, path), if path in files then files[path].bytes else 0)
  }

  function Entries(cs: seq<Commitment>): (r: seq<Artifact>)
    ensures |r| == |cs|
    ensures forall i :: 0 <= i < |cs| ==> r[i] == Artifact(cs[i].path, cs[i].sha256, cs[i].bytes)
  {
    seq(|cs|, i requires 0 <= i < |cs| => Artifact(cs[i].path, cs[i].sha256, cs[i].bytes))
  }

  /** The evidence files of the evidence manifest, the graph manifest itself left out. */
  function Evidence(listed: seq<Artifact>): seq<Artifact> {
    if listed == [] then []
    else
      var rest, a := Evidence(listed[..|listed| - 1]), listed[|listed| - 1];
      if a.path == "" || a.path == "graph-manifest.json" then rest
      else rest + [a.(sha256 := EnsurePrefix(a.sha256))]
  }

  /** What a dashboard run knows when it writes the manifest. */
  datatype Input = Input(
    config: seq<Candidate>, planning: seq<Candidate>, files: Files, report: string,
    nodes: nat, edges: nat, graphHash: string, listed: seq<Artifact>)

  function ReportPath(i: Input, name: string): string {
    i.report + "/" + name
  }

  function ReportEntry(i: Input, name: string): Artifact {
    EntryOf(i.files, ReportPath(i, name)).(path := name)
  }

  function Written(i: Input, env: Env, canon: Canon): Manifest {
    var config := Sorted(Collected("config", i.config, i.files, env), Sooner);
    var planning := Sorted(Collected("planning", i.planning, i.files, env), Sooner);
    var accepted := Some(Section("runtime_config_is_frozen_by_content_hash", Some(|config|), config));
    var plans := Some(Section("planning_artifacts_are_frozen_by_content_hash", Some(|planning|), planning));
    var readiness := ReadinessOf(CLAIMS, Roles(config));
    var board := "project-fr-board-state.json";
    Manifest(
      "graph_proof_manifest", i.nodes, i.edges, i.graphHash, accepted, plans, Some(readiness), readiness.supported,
      Hashes(FileHash(i.files, ReportPath(i, "dashboard-payload.json")), FileHash(i.files, ReportPath(i, "evidence-bundle.json")),
             FileHash(i.files, ReportPath(i, "evidence-manifest.json")), canon(accepted), canon(plans), i.graphHash),
      [ReportEntry(i, "dashboard-payload.json"), ReportEntry(i, "evidence-bundle.json"), ReportEntry(i, "evidence-manifest.json")]
      + (if ReportPath(i, board) in i.files then [ReportEntry(i, board)] else []),
      Entries(config), Entries(planning), Evidence(i.listed))
  }

  method ListEvidence(listed: seq<Artifact>) returns (r: seq<Artifact>)
    ensures r == Evidence(listed)
  {
    r := [];
    for n := 0 to |listed|
      invariant r == Evidence(listed[..n])
    {
      assert listed[..n + 1][..n] == listed[..n];
      if listed[n].path != "" && listed[n].path != "graph-manifest.json" {
        r := r + [listed[n].(sha256 := EnsurePrefix(listed[n].sha256))];
      }
    }
    assert listed[..|listed|] == listed;
  }

  method WriteGraphManifest(i: Input, env: Env, canon: Canon) returns (m: Manifest)
    ensures m == Written(i, env, canon)
  {
    hide Collected, Sorted, ReadinessOf, Evidence, ReportPath, FileHash;
    var config := CollectCommitments("config", i.config, i.files, env);
    var planning := CollectCommitments("planning", i.planning, i.files, env);
    var accepted := Some(Section("runtime_config_is_frozen_by_content_hash", Some(|config|), config));
    var plans := Some(Section("planning_artifacts_are_frozen_by_content_hash", Some(|planning|), planning));
    var readiness := ClaimReadiness(config);
    var evidence := ListEvidence(i.listed);
    var report := [ReportEntry(i, "dashboard-payload.json"), ReportEntry(i, "evidence-bundle.json"), ReportEntry(i, "evidence-manifest.json")];
    if ReportPath(i, "project-fr-board-state.json") in i.files {
      report := report + [ReportEntry(i, "project-fr-board-state.json")];
    }
    m := Manifest(
      "graph_proof_manifest", i.nodes, i.edges, i.graphHash, accepted, plans, Some(readiness), readiness.supported,
      Hashes(FileHash(i.files, ReportPath(i, "dashboard-payload.json")), FileHash(i.files, ReportPath(i, "evidence-bundle.json")),
             FileHash(i.files, ReportPath(i, "evidence-manifest.json")), canon(accepted), canon(plans), i.graphHash),
      report, Entries(config), Entries(planning), evidence);
  }

  // ----- The check --------------------------------------------------------------------------------------

  datatype Error =
    | WrongMode | RootHash | AcceptedCount | AcceptedHash | PlanningCount | PlanningHash | Supported
    | FreezeMode(id: string) | FreezeImmutable(id: string) | HashPrefix(id: string)
    | SummaryProblem(id: string, problem: RS.Problem) | ArtifactPrefix(bucket: string, path: string)

  function ErrorIf(bad: bool, e: Error): seq<Error> {
    if bad then [e] else []
  }

  function CommitmentsOf(s: Option<Section>): seq<Commitment> {
    if s.Some? then s.value.commitments else []
  }

  function CountOf(s: Option<Section>): Option<int> {
    if s.Some? then s.value.count else None
  }

  function Labelled(id: string, problems: seq<RS.Problem>): (r: seq<Error>)
    ensures |r| == |problems|
  {
    seq(|problems|, i requires 0 <= i < |problems| => SummaryProblem(id, problems[i]))
  }

  function CommitmentErrors(c: Commitment): seq<Error> {
    ErrorIf(c.freezeMode != "content_addressed", FreezeMode(c.id))
    + ErrorIf(c.immutable != Some(true), FreezeImmutable(c.id))
    + ErrorIf(c.sha256 != "" && !Prefixed(c.sha256), HashPrefix(c.id))
    + (if c.summary.Some? then Labelled(c.id, RS.Problems(c.summary.value)) else [])
  }

  function AllCommitmentErrors(cs: seq<Commitment>): seq<Error> {
    if cs == [] then [] else AllCommitmentErrors(cs[..|cs| - 1]) + CommitmentErrors(cs[|cs| - 1])
  }

  function ArtifactErrors(bucket: string, files: seq<Artifact>): seq<Error> {
    if files == [] then []
    else
      var a := files[|files| - 1];
      ArtifactErrors(bucket, files[..|files| - 1]) + ErrorIf(a.sha256 != "" && !Prefixed(a.sha256), ArtifactPrefix(bucket, a.path))
  }

  function HeadErrors(m: Manifest, canon: Canon): seq<Error> {
    ErrorIf(m.mode != "graph_proof_manifest", WrongMode)
    + ErrorIf(m.rootHash != "" && m.hashes.graphRoot != "" && m.hashes.graphRoot != m.rootHash, RootHash)
    + ErrorIf(CountOf(m.accepted) != Some(|CommitmentsOf(m.accepted)|), AcceptedCount)
    + ErrorIf(m.hashes.accepted != "" && m.hashes.accepted != canon(m.accepted), AcceptedHash)
    + ErrorIf(m.planning.Some? && CountOf(m.planning) != Some(|CommitmentsOf(m.planning)|), PlanningCount)
    + ErrorIf(m.hashes.planning != "" && m.hashes.planning != canon(m.planning), PlanningHash)
    + ErrorIf(m.readiness.Some? && m.supported != m.readiness.value.supported, Supported)
  }

  /** What the loader reports. */
  function Errors(m: Manifest, canon: Canon): seq<Error> {
    HeadErrors(m, canon) + AllCommitmentErrors(CommitmentsOf(m.accepted) + CommitmentsOf(m.planning))
    + ArtifactErrors("report", m.reportFiles) + ArtifactErrors("config", m.configFiles)
  }

  method CheckHead(m: Manifest, canon: Canon) returns (errors: seq<Error>)
    ensures errors == HeadErrors(m, canon)
  {
    errors := ErrorIf(m.mode != "graph_proof_manifest", WrongMode);
    errors := errors + ErrorIf(m.rootHash != "" && m.hashes.graphRoot != "" && m.hashes.graphRoot != m.rootHash, RootHash);
    errors := errors + ErrorIf(CountOf(m.accepted) != Some(|CommitmentsOf(m.accepted)|), AcceptedCount);
    errors := errors + ErrorIf(m.hashes.accepted != "" && m.hashes.accepted != canon(m.accepted), AcceptedHash);
    errors := errors + ErrorIf(m.planning.Some? && CountOf(m.planning) != Some(|CommitmentsOf(m.planning)|), PlanningCount);
    errors := errors + ErrorIf(m.hashes.planning != "" && m.hashes.planning != canon(m.planning), PlanningHash);
    errors := errors + ErrorIf(m.readiness.Some? && m.supported != m.readiness.value.supported, Supported);
  }

  method CheckCommitments(cs: seq<Commitment>) returns (errors: seq<Error>)
    ensures errors == AllCommitmentErrors(cs)
  {
    errors := [];
    for n := 0 to |cs|
      invariant errors == AllCommitmentErrors(cs[..n])
    {
      var c := cs[n];
      assert cs[..n + 1][..n] == cs[..n];
      var own := ErrorIf(c.freezeMode != "content_addressed", FreezeMode(c.id));
      own := own + ErrorIf(c.immutable != Some(true), FreezeImmutable(c.id));
      own := own + ErrorIf(c.sha256 != "" && !Prefixed(c.sha256), HashPrefix(c.id));
      if c.summary.Some? {
        var problems := RS.CheckReviewSummary(c.summary.value);
        own := own + Labelled(c.id, problems);
      }
      errors := errors + own;
    }
    assert cs[..|cs|] == cs;
  }

  method CheckArtifacts(bucket: string, files: seq<Artifact>) returns (errors: seq<Error>)
    ensures errors == ArtifactErrors(bucket, files)
  {
    errors := [];
    for n := 0 to |files|
      invariant errors == ArtifactErrors(bucket, files[..n])
    {
      assert files[..n + 1][..n] == files[..n];
      if files[n].sha256 != "" && !Prefixed(files[n].sha256) {
        errors := errors + [ArtifactPrefix(bucket, files[n].path)];
      }
    }
    assert files[..|files|] == files;
  }

  method CheckGraphManifest(m: Manifest, canon: Canon) returns (errors: seq<Error>)
    ensures errors == Errors(m, canon)
    ensures errors == [] <==> Consistent(m, canon)
  {
    ErrorsIff(m, canon);
    hide HeadErrors, AllCommitmentErrors, ArtifactErrors, Consistent;
    errors := CheckHead(m, canon);
    var more := CheckCommitments(CommitmentsOf(m.accepted) + CommitmentsOf(m.planning));
    errors := errors + more;
    more := CheckArtifacts("report", m.reportFiles);
    errors := errors + more;
    more := CheckArtifacts("config", m.configFiles);
    errors := errors + more;
  }

  // ----- What the check means -----------------------------------------------------------------------------

  ghost predicate Sound(c: Commitment) {
    && c.freezeMode == "content_addressed" && c.immutable == Some(true)
    && (c.sha256 == "" || Prefixed(c.sha256))
    && (c.summary.Some? ==> RS.Consistent(c.summary.value))
  }

  ghost predicate Counted(s: Option<Section>) {
    s.Some? && s.value.count == Some(|s.value.commitments|)
  }

  /** The manifest agrees with itself: hashes that are given are those of what is committed,
      counts are lengths, and every commitment is frozen with a prefixed hash and a
      consistent summary. */
  ghost predicate Consistent(m: Manifest, canon: Canon) {
    && m.mode == "graph_proof_manifest"
    && (m.rootHash == "" || m.hashes.graphRoot in ["", m.rootHash])
    && Counted(m.accepted) && (m.planning.None? || Counted(m.planning))
    && m.hashes.accepted in ["", canon(m.accepted)] && m.hashes.planning in ["", canon(m.planning)]
    && (m.readiness.Some? ==> m.supported == m.readiness.value.supported)
    && (forall c :: c in CommitmentsOf(m.accepted) || c in CommitmentsOf(m.planning) ==> Sound(c))
    && (forall a :: a in m.reportFiles || a in m.configFiles ==> a.sha256 == "" || Prefixed(a.sha256))
  }

  lemma CommitmentErrorsIff(c: Commitment)
    ensures CommitmentErrors(c) == [] <==> Sound(c)
  {
    hide RS.Problems, RS.Consistent;
    if c.summary.Some? {
      RS.ProblemsIff(c.summary.value);
    }
  }

  lemma {:induction false} AllCommitmentErrorsIff(cs: seq<Commitment>)
    ensures AllCommitmentErrors(cs) == [] <==> forall c :: c in cs ==> Sound(c)
  {
    hide CommitmentErrors, Sound;
    if cs != [] {
      var front, last := cs[..|cs| - 1], cs[|cs| - 1];
      AllCommitmentErrorsIff(front);
      CommitmentErrorsIff(last);
      assert cs == front + [last] && last in cs;
    }
  }

  lemma {:induction false} ArtifactErrorsIff(bucket: string, files: seq<Artifact>)
    ensures ArtifactErrors(bucket, files) == [] <==> forall a :: a in files ==> a.sha256 == "" || Prefixed(a.sha256)
  {
    hide Prefixed;
    if files != [] {
      var front, last := files[..|files| - 1], files[|files| - 1];
      ArtifactErrorsIff(bucket, front);
      assert files == front + [last] && last in files;
    }
  }

  lemma HeadErrorsIff(m: Manifest, canon: Canon)
    ensures
      HeadErrors(m, canon) == [] <==>
      && m.mode == "graph_proof_manifest"
      && (m.rootHash == "" || m.hashes.graphRoot in ["", m.rootHash])
      && Counted(m.accepted) && (m.planning.None? || Counted(m.planning))
      && m.hashes.accepted in ["", canon(m.accepted)] && m.hashes.planning in ["", canon(m.planning)]
      && (m.readiness.Some? ==> m.supported == m.readiness.value.supported)
  {
  }

  /** The check is exact. */
  lemma ErrorsIff(m: Manifest, canon: Canon)
    ensures Errors(m, canon) == [] <==> Consistent(m, canon)
  {
    hide HeadErrors, AllCommitmentErrors, ArtifactErrors, Sound, Counted, Prefixed, CommitmentsOf;
    var a, b := CommitmentsOf(m.accepted), CommitmentsOf(m.planning);
    HeadErrorsIff(m, canon);
    AllCommitmentErrorsIff(a + b);
    assert forall c :: c in a + b <==> c in a || c in b;
    ArtifactErrorsIff("report", m.reportFiles);
    ArtifactErrorsIff("config", m.configFiles);
  }

  // ----- The producer meets the checker -------------------------------------------------------------------

  lemma CommittedIsSound(kind: string, c: Candidate, files: Files, env: Env)
    ensures CommitmentOf(kind, c, files, env).Some? ==> Sound(CommitmentOf(kind, c, files, env).value)
    ensures CommitmentOf(kind, c, files, env).Some? ==> Prefixed(CommitmentOf(kind, c, files, env).value.sha256)
  {
    hide RS.Summarised, RS.FoundIn, RS.Objects, RS.Problems, RS.Consistent;
    if c.path in files {
      RS.SummaryIsConsistent(files[c.path].json, env.show);
    }
  }

  lemma CollectedIsSound(kind: string, candidates: seq<Candidate>, files: Files, env: Env)
    ensures
      var r := Sorted(Collected(kind, candidates, files, env), Sooner);
      forall x :: x in r ==> Sound(x) && Prefixed(x.sha256)
  {
    hide CommitmentOf, Sooner, Collected, Sound, Prefixed;
    var r := Sorted(Collected(kind, candidates, files, env), Sooner);
    CommitmentsAreExact(kind, candidates, files, env);
    forall x | x in r ensures Sound(x) && Prefixed(x.sha256) {
      var c :| c in candidates && CommitmentOf(kind, c, files, env) == Some(x);
      CommittedIsSound(kind, c, files, env);
    }
  }

  lemma FileHashIsPrefixed(files: Files, path: string)
    ensures FileHash(files, path) == "" || Prefixed(FileHash(files, path))
  {
  }

  /** For every set of files, every configuration tree in them and every hash function, the
      manifest that is written gives the checker nothing to report. */
  lemma WrittenManifestIsAccepted(i: Input, env: Env, canon: Canon)
    ensures Errors(Written(i, env, canon), canon) == []
  {
    hide Collected, ReadinessOf, Evidence, FileHash, Sound, Prefixed, Sorted, HeadErrors, AllCommitmentErrors, ArtifactErrors, ReportPath;
    var m := Written(i, env, canon);
    CollectedIsSound("config", i.config, i.files, env);
    CollectedIsSound("planning", i.planning, i.files, env);
    forall a | a in m.reportFiles ensures a.sha256 == "" || Prefixed(a.sha256) {
      FileHashIsPrefixed(i.files, ReportPath(i, a.path));
    }
    forall a | a in m.configFiles ensures Prefixed(a.sha256) {
      var n :| 0 <= n < |m.configFiles| && m.configFiles[n] == a;
      assert m.accepted.value.commitments[n] in m.accepted.value.commitments;
    }
    ErrorsIff(m, canon);
  }

  /** The entries are those of files that exist and were candidates, and the content of
      every candidate that exists is among them. */
  ghost predicate Lists(entries: seq<Artifact>, candidates: seq<Candidate>, files: Files) {
    && (forall a :: a in entries ==>
      a.path in files && a == EntryOf(files, a.path) && exists c :: c in candidates && c.path == a.path)
    && (forall c :: c in candidates && c.path in files ==>
      exists a :: a in entries && a.sha256 == FileHash(files, c.path))
  }

  lemma EntryIsCandidates(kind: string, c: Candidate, files: Files, env: Env)
    ensures CommitmentOf(kind, c, files, env).Some? ==>
      var x := CommitmentOf(kind, c, files, env).value;
      c.path in files && x.path == c.path && Artifact(x.path, x.sha256, x.bytes) == EntryOf(files, c.path)
  {
  }

  lemma EntriesOfCandidates(kind: string, r: seq<Commitment>, candidates: seq<Candidate>, files: Files, env: Env, a: Artifact)
    requires forall x :: x in r ==> exists c :: c in candidates && CommitmentOf(kind, c, files, env) == Some(x)
    requires a in Entries(r)
    ensures a.path in files && a == EntryOf(files, a.path) && exists c :: c in candidates && c.path == a.path
  {
    hide CommitmentOf, EntryOf;
    var n :| 0 <= n < |r| && Entries(r)[n] == a;
    assert r[n] in r;
    var c :| c in candidates && CommitmentOf(kind, c, files, env) == Some(r[n]);
    EntryIsCandidates(kind, c, files, env);
  }

  lemma EntryHasHash(r: seq<Commitment>, sha256: string)
    requires exists x :: x in r && x.sha256 == sha256
    ensures exists a :: a in Entries(r) && a.sha256 == sha256
  {
    var n :| 0 <= n < |r| && r[n].sha256 == sha256;
    assert Entries(r)[n] in Entries(r);
  }

  lemma EntriesList(kind: string, candidates: seq<Candidate>, files: Files, env: Env)
    ensures Lists(Entries(Sorted(Collected(kind, candidates, files, env), Sooner)), candidates, files)
  {
    hide Collected, Sorted, InOrder, TagsDistinct, CommitmentOf, EntryOf, Sooner, Entries;
    var r := Sorted(Collected(kind, candidates, files, env), Sooner);
    CommitmentsAreExact(kind, candidates, files, env);
    forall a | a in Entries(r)
      ensures a.path in files && a == EntryOf(files, a.path) && exists c :: c in candidates && c.path == a.path
    {
      EntriesOfCandidates(kind, r, candidates, files, env, a);
    }
    forall c | c in candidates && c.path in files ensures exists a :: a in Entries(r) && a.sha256 == FileHash(files, c.path) {
      EntryHasHash(r, FileHash(files, c.path));
    }
  }

  /** Some candidate of the role exists. */
  ghost predicate Present(candidates: seq<Candidate>, files: Files, role: string) {
    exists c :: c in candidates && c.role == role && c.path in files
  }

  lemma CommittedRolesArePresent(kind: string, candidates: seq<Candidate>, files: Files, env: Env, role: string)
    ensures role in Roles(Sorted(Collected(kind, candidates, files, env), Sooner)) <==> Present(candidates, files, role)
  {
    var r := Sorted(Collected(kind, candidates, files, env), Sooner);
    CommitmentsAreExact(kind, candidates, files, env);
    hide Collected, Sorted, InOrder, TagsDistinct;
    if x :| x in r && x.role == role {
      var c :| c in candidates && CommitmentOf(kind, c, files, env) == Some(x);
    }
  }

  /** The written manifest describes the files it was made from: each entry has the hash and
      size of an existing candidate, no existing candidate's content is missing, and a claim
      is offered exactly when a file of each role it needs exists. */
  lemma WrittenManifestDescribesTheFiles(i: Input, env: Env, canon: Canon)
    ensures
      var m := Written(i, env, canon);
      && Lists(m.configFiles, i.config, i.files) && Lists(m.planningFiles, i.planning, i.files)
      && forall claim :: claim in m.supported <==>
        exists p :: p in CLAIMS && p.0 == claim && forall role :: role in p.1 ==> Present(i.config, i.files, role)
  {
    hide Collected, ReadinessOf, Evidence, Sorted, Lists, Present, Roles, CLAIMS;
    EntriesList("config", i.config, i.files, env);
    EntriesList("planning", i.planning, i.files, env);
    var roles := Roles(Sorted(Collected("config", i.config, i.files, env), Sooner));
    forall role ensures role in roles <==> Present(i.config, i.files, role) {
      CommittedRolesArePresent("config", i.config, i.files, env, role);
    }
    forall claim ensures claim in Written(i, env, canon).supported <==>
      exists p :: p in CLAIMS && p.0 == claim && forall role :: role in p.1 ==> Present(i.config, i.files, role)
    {
      SupportedIff(CLAIMS, roles, claim);
    }
  }

  /** Replacing the committed configuration or planning of a written manifest by one with
      another hash is reported. */
  lemma ReplacedSectionIsReported(i: Input, env: Env, canon: Canon, other: Section)
    requires forall s :: canon(s) != ""
    ensures
      var m := Written(i, env, canon);
      && (canon(Some(other)) != canon(m.accepted) ==> Errors(m.(accepted := Some(other)), canon) != [])
      && (canon(Some(other)) != canon(m.planning) ==> Errors(m.(planning := Some(other)), canon) != [])
  {
    hide Collected, ReadinessOf, Evidence, FileHash, Sorted, AllCommitmentErrors, ArtifactErrors, HeadErrors, Counted, Sound, Prefixed, Errors;
    var m := Written(i, env, canon);
    ErrorsIff(m.(accepted := Some(other)), canon);
    ErrorsIff(m.(planning := Some(other)), canon);
  }
}
