/** Issuing assurance claims over a report, and packing and verifying proof bundles. */
module ProofBundles {
  import opened Hashing
  import opened Wrappers
  import opened Sequences
  import opened Sorting
  import AC = AssuranceClaims
  import B = Base64
  import Text

  type Files = map<string, B.Bytes>

  /** The commitments of a graph manifest; a missing key is `None`. */
  datatype Hashes = Hashes(
    graphRoot: Option<string>, accepted: Option<string>, planning: Option<string>,
    evidenceBundle: Option<string>, evidenceManifest: Option<string>, dashboard: Option<string>)

  datatype Manifest = Manifest(project: string, runId: string, supported: seq<string>, commitments: Hashes)

  datatype Payload = Payload(project: string, runId: string, graph: AC.Graph)

  datatype ArtifactRef = ArtifactRef(path: string, sha256: string, details: string)

  /** An evidence record; an artifact entry that is no object is `None`. */
  datatype Record = Record(
    id: string, kind: string, producedBy: string, status: string, artifacts: seq<Option<ArtifactRef>>)

  /** How a claim refers to the graph manifest it was made from. */
  datatype Link = Link(path: string, sha256: Option<string>, graphRoot: Option<string>, accepted: Option<string>)

  datatype Claim = Claim(
    claimType: string, target: string, result: string, generatedAt: string, project: string, runId: string,
    manifest: Link, inputs: Hashes, evaluation: AC.Evaluation)

  datatype Public = Public(
    graphManifest: Option<string>, graphRoot: Option<string>, accepted: Option<string>,
    evidenceBundle: Option<string>, evidenceManifest: Option<string>, dashboard: Option<string>)

  datatype EvidenceCommitment = EvidenceCommitment(
    id: string, kind: string, producedBy: string, status: string, recordHash: string, artifacts: seq<ArtifactRef>)

  datatype Opening = Opening(path: string, sha256: Option<string>, bytes: Option<int>, content: string)

  datatype Bundle = Bundle(
    mode: string, bundleType: string, claim: Claim, claimHash: Option<string>, hashes: Public,
    evidence: seq<EvidenceCommitment>, openings: seq<Opening>)

  /** SHA-256 in hexadecimal, the JSON readers, the canonical hashes, and what the JSON
      schemas report. */
  datatype Env = Env(
    sha: B.Bytes -> string, manifestOf: B.Bytes -> Manifest, payloadOf: B.Bytes -> Payload, recordsOf: B.Bytes -> seq<Record>,
    claimHash: Claim -> string, recordHash: Record -> string,
    claimSchema: Claim -> seq<string>, bundleSchema: Bundle -> seq<string>)

  /** What the scripts raise. */
  datatype Fault =
    | ManifestMissing | PayloadMissing | Unsupported | CommitmentMissing
    | ClaimRefused(errors: seq<ClaimError>) | OpeningMissing(path: string)

  const MANIFEST := "graph-manifest.json"
  const PAYLOAD := "dashboard-payload.json"
  const EVIDENCE := "evidence-bundle.json"

  function Hash(b: B.Bytes, env: Env): string {
    PREFIX + env.sha(b)
  }

  function ResultOf(e: AC.Evaluation): string {
    if e.satisfied then "satisfied" else "unsatisfied"
  }

  // ----- Building a claim ------------------------------------------------------------------------

  function Built(files: Files, claimType: string, target: string, now: string, env: Env): Result<Claim, Fault> {
    if MANIFEST !in files then Failure(ManifestMissing)
    else if PAYLOAD !in files then Failure(PayloadMissing)
    else
      var m, p := env.manifestOf(files[MANIFEST]), env.payloadOf(files[PAYLOAD]);
      if claimType !in m.supported then Failure(Unsupported)
      else if m.commitments.graphRoot.None? || m.commitments.accepted.None? then Failure(CommitmentMissing)
      else
        var e := AC.Evaluate(p.graph, claimType, target);
        Success(Claim(
          claimType, target, ResultOf(e), now, Or(m.project, p.project), Or(m.runId, p.runId),
          Link(MANIFEST, Some(Hash(files[MANIFEST], env)), m.commitments.graphRoot, m.commitments.accepted), m.commitments, e))
  }

  method BuildClaim(files: Files, claimType: string, target: string, now: string, env: Env) returns (r: Result<Claim, Fault>)
    ensures r == Built(files, claimType, target, now, env)
  {
    hide AC.Evaluate;
    if MANIFEST !in files {
      return Failure(ManifestMissing);
    }
    if PAYLOAD !in files {
      return Failure(PayloadMissing);
    }
    var m := env.manifestOf(files[MANIFEST]);
    if claimType !in m.supported {
      return Failure(Unsupported);
    }
    var p := env.payloadOf(files[PAYLOAD]);
    var e := AC.EvaluateClaim(p.graph, claimType, target);
    if m.commitments.graphRoot.None? || m.commitments.accepted.None? {
      return Failure(CommitmentMissing);
    }
    var at := Link(MANIFEST, Some(Hash(files[MANIFEST], env)), m.commitments.graphRoot, m.commitments.accepted);
    r := Success(Claim(claimType, target, ResultOf(e), now, Or(m.project, p.project), Or(m.runId, p.runId), at, m.commitments, e));
  }

  // ----- Verifying a claim --------------------------------------------------------------------------

  datatype ClaimError =
    | Schema(text: string) | NoManifest | NoPayload | ManifestHash | GraphRoot | AcceptedConfig | PublicInputs
    | NotSupported | ClaimResult | TargetId | TargetStatus | SatisfiedFlag | EvidenceRefs | BlockerRefs

  function ManifestPath(c: Claim): string {
    Or(c.manifest.path, MANIFEST)
  }

  function ClaimErrorIf(bad: bool, e: ClaimError): seq<ClaimError> {
    if bad then [e] else []
  }

  function SchemaErrors(texts: seq<string>): (r: seq<ClaimError>)
    ensures |r| == |texts|
  {
    seq(|texts|, i requires 0 <= i < |texts| => Schema(texts[i]))
  }

  function EvaluationErrors(c: Claim, e: AC.Evaluation): seq<ClaimError> {
    ClaimErrorIf(c.result != ResultOf(e), ClaimResult)
    + ClaimErrorIf(c.evaluation.targetId != e.targetId, TargetId)
    + ClaimErrorIf(c.evaluation.status != e.status, TargetStatus)
    + ClaimErrorIf(c.evaluation.satisfied != e.satisfied, SatisfiedFlag)
    + ClaimErrorIf(multiset(c.evaluation.evidence) != multiset(e.evidence), EvidenceRefs)
    + ClaimErrorIf(multiset(c.evaluation.blockers) != multiset(e.blockers), BlockerRefs)
  }

  /** What the claim verifier reports. */
  function ClaimErrors(c: Claim, files: Files, env: Env): seq<ClaimError> {
    if env.claimSchema(c) != [] then SchemaErrors(env.claimSchema(c))
    else if ManifestPath(c) !in files then [NoManifest]
    else if PAYLOAD !in files then [NoPayload]
    else
      var bytes := files[ManifestPath(c)];
      var m, p := env.manifestOf(bytes), env.payloadOf(files[PAYLOAD]);
      ClaimErrorIf(c.manifest.sha256 != Some(Hash(bytes, env)), ManifestHash)
      + ClaimErrorIf(c.manifest.graphRoot != m.commitments.graphRoot, GraphRoot)
      + ClaimErrorIf(c.manifest.accepted != m.commitments.accepted, AcceptedConfig)
      + ClaimErrorIf(c.inputs != m.commitments, PublicInputs)
      + ClaimErrorIf(c.claimType !in m.supported, NotSupported)
      + EvaluationErrors(c, AC.Evaluate(p.graph, c.claimType, c.target))
  }

  method VerifyClaim(c: Claim, files: Files, env: Env) returns (errors: seq<ClaimError>)
    ensures errors == ClaimErrors(c, files, env)
  {
    hide AC.Evaluate, EvaluationErrors;
    if env.claimSchema(c) != [] {
      return SchemaErrors(env.claimSchema(c));
    }
    if ManifestPath(c) !in files {
      return [NoManifest];
    }
    if PAYLOAD !in files {
      return [NoPayload];
    }
    var bytes := files[ManifestPath(c)];
    var m, p := env.manifestOf(bytes), env.payloadOf(files[PAYLOAD]);
    errors := ClaimErrorIf(c.manifest.sha256 != Some(Hash(bytes, env)), ManifestHash);
    errors := errors + ClaimErrorIf(c.manifest.graphRoot != m.commitments.graphRoot, GraphRoot);
    errors := errors + ClaimErrorIf(c.manifest.accepted != m.commitments.accepted, AcceptedConfig);
    errors := errors + ClaimErrorIf(c.inputs != m.commitments, PublicInputs);
    errors := errors + ClaimErrorIf(c.claimType !in m.supported, NotSupported);
    var e := AC.EvaluateClaim(p.graph, c.claimType, c.target);
    errors := errors + EvaluationErrors(c, e);
  }

  /** A claim that was built from a report verifies against it. */
  lemma BuiltClaimVerifies(files: Files, claimType: string, target: string, now: string, env: Env)
    requires Built(files, claimType, target, now, env).Success?
    requires env.claimSchema(Built(files, claimType, target, now, env).value) == []
    ensures ClaimErrors(Built(files, claimType, target, now, env).value, files, env) == []
  {
    hide AC.Evaluate;
  }

  // ----- Evidence commitments ---------------------------------------------------------------------------

  function Usable(artifacts: seq<Option<ArtifactRef>>): seq<ArtifactRef> {
    if artifacts == [] then []
    else
      var rest, a := Usable(artifacts[..|artifacts| - 1]), artifacts[|artifacts| - 1];
      if a.None? || a.value.path == "" || EnsurePrefix(a.value.sha256) == "" then rest
      else rest + [a.value.(sha256 := EnsurePrefix(a.value.sha256))]
  }

  predicate SoonerArtifact(a: ArtifactRef, b: ArtifactRef) {
    if a.path != b.path then Text.Before(a.path, b.path) else Text.Before(a.sha256, b.sha256)
  }

  method ArtifactCommitments(artifacts: seq<Option<ArtifactRef>>) returns (r: seq<ArtifactRef>)
    ensures r == Sorted(Usable(artifacts), SoonerArtifact)
  {
    hide Sorted;
    var found: seq<ArtifactRef> := [];
    for n := 0 to |artifacts|
      invariant found == Usable(artifacts[..n])
    {
      assert artifacts[..n + 1][..n] == artifacts[..n];
      if artifacts[n].None? {
        continue;
      }
      var item := artifacts[n].value.(sha256 := EnsurePrefix(artifacts[n].value.sha256));
      if item.path != "" && item.sha256 != "" {
        found := found + [item];
      }
    }
    assert artifacts[..|artifacts|] == artifacts;
    r := Sorted(found, SoonerArtifact);
  }

  function Wanted(c: Claim): set<string> {
    set r | r in c.evaluation.evidence
  }

  predicate Chosen(r: Record, wanted: set<string>) {
    wanted == {} || r.id in wanted || r.producedBy in wanted
  }

  function CommitmentOf(r: Record, env: Env): EvidenceCommitment {
    EvidenceCommitment(r.id, r.kind, r.producedBy, r.status, env.recordHash(r), Sorted(Usable(r.artifacts), SoonerArtifact))
  }

  function Committed(records: seq<Record>, wanted: set<string>, env: Env): seq<EvidenceCommitment> {
    if records == [] then []
    else
      var rest, r := Committed(records[..|records| - 1], wanted, env), records[|records| - 1];
      if Chosen(r, wanted) then rest + [CommitmentOf(r, env)] else rest
  }

  predicate SoonerId(a: EvidenceCommitment, b: EvidenceCommitment) {
    Text.Before(a.id, b.id)
  }

  function RecordsIn(files: Files, env: Env): seq<Record> {
    if EVIDENCE in files then env.recordsOf(files[EVIDENCE]) else []
  }

  function EvidenceFor(files: Files, c: Claim, env: Env): seq<EvidenceCommitment> {
    Sorted(Committed(RecordsIn(files, env), Wanted(c), env), SoonerId)
  }

  method EvidenceCommitments(files: Files, c: Claim, env: Env) returns (r: seq<EvidenceCommitment>)
    ensures r == EvidenceFor(files, c, env)
  {
    hide Sorted, Usable, Chosen, Wanted;
    var records, wanted := RecordsIn(files, env), Wanted(c);
    var found: seq<EvidenceCommitment> := [];
    for n := 0 to |records|
      invariant found == Committed(records[..n], wanted, env)
    {
      assert records[..n + 1][..n] == records[..n];
      if !Chosen(records[n], wanted) {
        continue;
      }
      var artifacts := ArtifactCommitments(records[n].artifacts);
      var one := records[n];
      found := found + [EvidenceCommitment(one.id, one.kind, one.producedBy, one.status, env.recordHash(one), artifacts)];
    }
    assert records[..|records|] == records;
    r := Sorted(found, SoonerId);
  }

  /** The committed evidence is that of the records the claim refers to, or of all records
      when it refers to none: none is missed and none is added. */
  lemma EvidenceIsExact(files: Files, c: Claim, env: Env, x: EvidenceCommitment)
    ensures
      x in EvidenceFor(files, c, env) <==>
      exists r :: r in RecordsIn(files, env) && Chosen(r, Wanted(c)) && CommitmentOf(r, env) == x
  {
    hide Sorted, Chosen, CommitmentOf;
    CommittedMembers(RecordsIn(files, env), Wanted(c), env, x);
    SortMembers(Committed(RecordsIn(files, env), Wanted(c), env), SoonerId);
  }

  lemma {:induction false} CommittedMembers(records: seq<Record>, wanted: set<string>, env: Env, x: EvidenceCommitment)
    ensures
      x in Committed(records, wanted, env) <==>
      exists r :: r in records && Chosen(r, wanted) && CommitmentOf(r, env) == x
  {
    hide Chosen, CommitmentOf;
    if records != [] {
      var front, last := records[..|records| - 1], records[|records| - 1];
      CommittedMembers(front, wanted, env, x);
      forall r ensures r in records <==> r in front || r == last {
        assert records == front + [last];
      }
    }
  }

  // ----- Building a bundle ------------------------------------------------------------------------------

  function OpeningOf(path: string, content: B.Bytes, env: Env): Opening {
    Opening(path, Some(Hash(content, env)), Some(|content|), B.Encode(content, false))
  }

  function Openings(files: Files, paths: seq<string>, env: Env): Result<seq<Opening>, Fault> {
    if paths == [] then Success([])
    else
      var rest :- Openings(files, paths[..|paths| - 1], env);
      var path := paths[|paths| - 1];
      if path !in files then Failure(OpeningMissing(path)) else Success(rest + [OpeningOf(path, files[path], env)])
  }

  function Given(hash: Option<string>): Option<string> {
    if hash.Some? then hash else Some("")
  }

  function Packed(files: Files, c: Claim, paths: seq<string>, env: Env): Result<Bundle, Fault> {
    var errors := ClaimErrors(c, files, env);
    if errors != [] then Failure(ClaimRefused(errors))
    else if ManifestPath(c) !in files then Failure(ManifestMissing)
    else
      var openings :- Openings(files, paths, env);
      var bytes := files[ManifestPath(c)];
      var h := env.manifestOf(bytes).commitments;
      Success(Bundle(
        "assurance_proof_bundle", "selective_disclosure_v1", c, Some(env.claimHash(c)),
        Public(Some(Hash(bytes, env)), Given(h.graphRoot), Given(h.accepted),
               Given(h.evidenceBundle), Given(h.evidenceManifest), Given(h.dashboard)),
        EvidenceFor(files, c, env), openings))
  }

  lemma {:induction false} FirstMissingOpening(files: Files, paths: seq<string>, n: nat, env: Env)
    requires n < |paths| && Openings(files, paths[..n + 1], env).Failure?
    ensures Openings(files, paths, env) == Openings(files, paths[..n + 1], env)
  {
    if n + 1 == |paths| {
      assert paths[..n + 1] == paths;
    } else {
      assert paths[..|paths| - 1][..n + 1] == paths[..n + 1];
      FirstMissingOpening(files, paths[..|paths| - 1], n, env);
    }
  }

  method OpenPaths(files: Files, paths: seq<string>, env: Env) returns (r: Result<seq<Opening>, Fault>)
    ensures r == Openings(files, paths, env)
  {
    var found: seq<Opening> := [];
    for n := 0 to |paths|
      invariant Openings(files, paths[..n], env) == Success(found)
    {
      assert paths[..n + 1][..n] == paths[..n];
      if paths[n] !in files {
        FirstMissingOpening(files, paths, n, env);
        return Failure(OpeningMissing(paths[n]));
      }
      found := found + [OpeningOf(paths[n], files[paths[n]], env)];
    }
    assert paths[..|paths|] == paths;
    r := Success(found);
  }

  method BuildProofBundle(files: Files, c: Claim, paths: seq<string>, env: Env) returns (r: Result<Bundle, Fault>)
    ensures r == Packed(files, c, paths, env)
  {
    hide ClaimErrors, Openings, EvidenceFor;
    var errors := VerifyClaim(c, files, env);
    if errors != [] {
      return Failure(ClaimRefused(errors));
    }
    if ManifestPath(c) !in files {
      return Failure(ManifestMissing);
    }
    var bytes := files[ManifestPath(c)];
    var h := env.manifestOf(bytes).commitments;
    var evidence := EvidenceCommitments(files, c, env);
    var openings := OpenPaths(files, paths, env);
    if openings.Failure? {
      return Failure(openings.error);
    }
    r := Success(Bundle(
      "assurance_proof_bundle", "selective_disclosure_v1", c, Some(env.claimHash(c)),
      Public(Some(Hash(bytes, env)), Given(h.graphRoot), Given(h.accepted),
             Given(h.evidenceBundle), Given(h.evidenceManifest), Given(h.dashboard)),
      evidence, openings.value));
  }

  // ----- Verifying a bundle --------------------------------------------------------------------------------

  datatype Error =
    | BundleSchema(text: string) | WrongMode | WrongType | ClaimHash
    | PublicManifest | PublicRoot | PublicConfig | PublicEvidence | PublicEvidenceManifest | PublicDashboard
    | NotBase64(path: string) | OpeningHash(path: string) | OpeningSize(path: string)
    | ReportManifestMissing | ReportManifestDiffers | FieldDiffers(field: string) | EvidenceDiffers

  function ErrorIf(bad: bool, e: Error): seq<Error> {
    if bad then [e] else []
  }

  function BundleSchemaErrors(texts: seq<string>): (r: seq<Error>)
    ensures |r| == |texts|
  {
    seq(|texts|, i requires 0 <= i < |texts| => BundleSchema(texts[i]))
  }

  /** What the public commitments must repeat from the embedded claim. */
  function PublicErrors(b: Bundle, env: Env): seq<Error> {
    ErrorIf(b.claimHash != Some(env.claimHash(b.claim)), ClaimHash)
    + ErrorIf(b.hashes.graphManifest != b.claim.manifest.sha256, PublicManifest)
    + ErrorIf(b.hashes.graphRoot != b.claim.manifest.graphRoot, PublicRoot)
    + ErrorIf(b.hashes.accepted != b.claim.manifest.accepted, PublicConfig)
    + ErrorIf(b.hashes.evidenceBundle != b.claim.inputs.evidenceBundle, PublicEvidence)
    + ErrorIf(b.hashes.evidenceManifest != b.claim.inputs.evidenceManifest, PublicEvidenceManifest)
    + ErrorIf(b.hashes.dashboard != b.claim.inputs.dashboard, PublicDashboard)
  }

  /** The strict load of the bundle: its schema and its own consistency. */
  function LoadErrors(b: Bundle, env: Env): seq<Error> {
    BundleSchemaErrors(env.bundleSchema(b))
    + ErrorIf(b.mode != "assurance_proof_bundle", WrongMode) + ErrorIf(b.bundleType != "selective_disclosure_v1", WrongType)
    + PublicErrors(b, env)
  }

  function OneOpeningErrors(o: Opening, env: Env): seq<Error> {
    var content := B.DecodeStrict(o.content);
    if content.None? then [NotBase64(o.path)]
    else ErrorIf(o.sha256 != Some(Hash(content.value, env)), OpeningHash(o.path)) + ErrorIf(o.bytes != Some(|content.value|), OpeningSize(o.path))
  }

  function OpeningErrors(openings: seq<Opening>, env: Env): seq<Error> {
    if openings == [] then []
    else OpeningErrors(openings[..|openings| - 1], env) + OneOpeningErrors(openings[|openings| - 1], env)
  }

  function ManifestErrors(c: Claim, files: Files, env: Env): seq<Error> {
    if ManifestPath(c) !in files then [ReportManifestMissing]
    else ErrorIf(c.manifest.sha256 != Some(Hash(files[ManifestPath(c)], env)), ReportManifestDiffers)
  }

  /** The first stable field in which two claims differ. */
  function Difference(rebuilt: Claim, c: Claim): seq<Error> {
    if rebuilt.claimType != c.claimType then [FieldDiffers("claim_type")]
    else if rebuilt.target != c.target then [FieldDiffers("target")]
    else if rebuilt.result != c.result then [FieldDiffers("claim_result")]
    else if rebuilt.project != c.project then [FieldDiffers("project")]
    else if rebuilt.runId != c.runId then [FieldDiffers("run_id")]
    else if rebuilt.manifest != c.manifest then [FieldDiffers("graph_manifest")]
    else if rebuilt.inputs != c.inputs then [FieldDiffers("public_inputs")]
    else if rebuilt.evaluation != c.evaluation then [FieldDiffers("evaluation")]
    else []
  }

  function RecomputedErrors(b: Bundle, files: Files, env: Env): Result<seq<Error>, Fault> {
    var rebuilt :- Built(files, b.claim.claimType, b.claim.target, "", env);
    Success(Difference(rebuilt, b.claim) + ErrorIf(EvidenceFor(files, b.claim, env) != b.evidence, EvidenceDiffers))
  }

  /** What the bundle verifier reports, or raises while it recomputes the claim. */
  function BundleErrors(b: Bundle, report: Option<Files>, env: Env): Result<seq<Error>, Fault> {
    if LoadErrors(b, env) != [] then Success(LoadErrors(b, env))
    else
      var errors := PublicErrors(b, env) + OpeningErrors(b.openings, env)
        + if report.Some? then ManifestErrors(b.claim, report.value, env) else [];
      if report.None? || errors != [] then Success(errors) else RecomputedErrors(b, report.value, env)
  }

  method CheckOpenings(openings: seq<Opening>, env: Env) returns (errors: seq<Error>)
    ensures errors == OpeningErrors(openings, env)
  {
    hide B.DecodeStrict;
    errors := [];
    for n := 0 to |openings|
      invariant errors == OpeningErrors(openings[..n], env)
    {
      assert openings[..n + 1][..n] == openings[..n];
      var o := openings[n];
      var content := B.DecodeStrict(o.content);
      if content.None? {
        errors := errors + [NotBase64(o.path)];
        continue;
      }
      var own := ErrorIf(o.sha256 != Some(Hash(content.value, env)), OpeningHash(o.path));
      own := own + ErrorIf(o.bytes != Some(|content.value|), OpeningSize(o.path));
      errors := errors + own;
    }
    assert openings[..|openings|] == openings;
  }

  method VerifyProofBundle(b: Bundle, report: Option<Files>, env: Env) returns (r: Result<seq<Error>, Fault>)
    ensures r == BundleErrors(b, report, env)
  {
    hide LoadErrors, PublicErrors, OpeningErrors, ManifestErrors, Built, EvidenceFor, Difference;
    if LoadErrors(b, env) != [] {
      return Success(LoadErrors(b, env));
    }
    var fromOpenings := CheckOpenings(b.openings, env);
    var errors := PublicErrors(b, env) + fromOpenings;
    if report.None? {
      assert errors + [] == errors;
      return Success(errors);
    }
    errors := errors + ManifestErrors(b.claim, report.value, env);
    if errors != [] {
      return Success(errors);
    }
    var rebuilt := BuildClaim(report.value, b.claim.claimType, b.claim.target, "", env);
    if rebuilt.Failure? {
      return Failure(rebuilt.error);
    }
    var evidence := EvidenceCommitments(report.value, b.claim, env);
    r := Success(Difference(rebuilt.value, b.claim) + ErrorIf(evidence != b.evidence, EvidenceDiffers));
  }

  // ----- Build, then verify ----------------------------------------------------------------------------------

  /** An opening that was built decodes to what it was built from. */
  lemma {:induction false} BuiltOpeningsVerify(files: Files, paths: seq<string>, env: Env)
    ensures Openings(files, paths, env).Success? <==> forall p :: p in paths ==> p in files
    ensures Openings(files, paths, env).Success? ==> OpeningErrors(Openings(files, paths, env).value, env) == []
  {
    if paths != [] {
      var front, last := paths[..|paths| - 1], paths[|paths| - 1];
      BuiltOpeningsVerify(files, front, env);
      assert paths == front + [last] && last in paths;
      if Openings(files, front, env).Success? && last in files {
        B.StrictRoundTrip(files[last]);
        var before := Openings(files, front, env).value;
        hide B.DecodeStrict, B.Encode;
        assert OneOpeningErrors(OpeningOf(last, files[last], env), env) == [];
        assert (before + [OpeningOf(last, files[last], env)])[..|before|] == before;
      }
    }
  }

  /** A bundle can be packed for a built claim exactly when every opening exists. */
  lemma BuiltClaimIsPacked(files: Files, claimType: string, target: string, now: string, paths: seq<string>, env: Env)
    requires Built(files, claimType, target, now, env).Success?
    requires env.claimSchema(Built(files, claimType, target, now, env).value) == []
    ensures
      var c := Built(files, claimType, target, now, env).value;
      Packed(files, c, paths, env).Success? <==> forall p :: p in paths ==> p in files
  {
    hide ClaimErrors, Openings, EvidenceFor, AC.Evaluate;
    BuiltClaimVerifies(files, claimType, target, now, env);
    BuiltOpeningsVerify(files, paths, env);
  }

  /** The manifest commits the three inputs that a bundle repeats. */
  predicate AllKeys(h: Hashes) {
    h.evidenceBundle.Some? && h.evidenceManifest.Some? && h.dashboard.Some?
  }

  lemma RebuiltIsTheSame(files: Files, claimType: string, target: string, now: string, env: Env)
    requires Built(files, claimType, target, now, env).Success?
    ensures Built(files, claimType, target, "", env).Success?
    ensures Difference(Built(files, claimType, target, "", env).value, Built(files, claimType, target, now, env).value) == []
  {
    hide AC.Evaluate;
  }

  lemma PackedPublicErrors(files: Files, claimType: string, target: string, now: string, paths: seq<string>, env: Env)
    requires Built(files, claimType, target, now, env).Success?
    requires Packed(files, Built(files, claimType, target, now, env).value, paths, env).Success?
    ensures
      var b := Packed(files, Built(files, claimType, target, now, env).value, paths, env).value;
      PublicErrors(b, env) == [] <==> AllKeys(env.manifestOf(files[MANIFEST]).commitments)
  {
    hide AC.Evaluate, ClaimErrors, Openings, EvidenceFor;
  }

  /** On an unchanged report a bundle built from a built claim verifies, against the report
      and by itself, exactly when the manifest has all the commitment keys. */
  lemma BuildThenVerify(files: Files, claimType: string, target: string, now: string, paths: seq<string>, env: Env)
    requires Built(files, claimType, target, now, env).Success?
    requires Packed(files, Built(files, claimType, target, now, env).value, paths, env).Success?
    requires env.bundleSchema(Packed(files, Built(files, claimType, target, now, env).value, paths, env).value) == []
    ensures
      var b := Packed(files, Built(files, claimType, target, now, env).value, paths, env).value;
      var keys := AllKeys(env.manifestOf(files[MANIFEST]).commitments);
      && (BundleErrors(b, Some(files), env) == Success([]) <==> keys)
      && (BundleErrors(b, None, env) == Success([]) <==> keys)
  {
    hide ClaimErrors, Openings, EvidenceFor, PublicErrors, OpeningErrors, ManifestErrors, Built, Difference, AllKeys, Packed, LoadErrors;
    var c := Built(files, claimType, target, now, env).value;
    BuiltFacts(files, claimType, target, now, env);
    PackedFacts(files, c, paths, env);
    PackedPublicErrors(files, claimType, target, now, paths, env);
    RebuiltIsTheSame(files, claimType, target, now, env);
  }

  lemma BuiltFacts(files: Files, claimType: string, target: string, now: string, env: Env)
    requires Built(files, claimType, target, now, env).Success?
    ensures
      var c := Built(files, claimType, target, now, env).value;
      c.claimType == claimType && c.target == target && ManifestErrors(c, files, env) == []
  {
    hide AC.Evaluate;
  }

  lemma PackedFacts(files: Files, c: Claim, paths: seq<string>, env: Env)
    requires Packed(files, c, paths, env).Success? && env.bundleSchema(Packed(files, c, paths, env).value) == []
    ensures
      var b := Packed(files, c, paths, env).value;
      && b.claim == c && b.evidence == EvidenceFor(files, c, env) && OpeningErrors(b.openings, env) == []
      && LoadErrors(b, env) == PublicErrors(b, env)
  {
    hide ClaimErrors, Openings, EvidenceFor, PublicErrors, OpeningErrors;
    BuiltOpeningsVerify(files, paths, env);
  }

  /** A report whose manifest commits none of the three inputs. */
  const SPARSE := Hashes(Some("g"), Some("a"), Some("p"), None, None, None)

  function SparseEnv(): Env {
    Env(b => "", b => Manifest("P", "R", ["fr_satisfied"], SPARSE), b => Payload("P", "R", AC.Graph([], [])), b => [],
        c => "", r => "", c => [], b => [])
  }

  const SPARSE_REPORT: Files := map[MANIFEST := [], PAYLOAD := []]

  /** A claim made from it verifies and can be packed, but its bundle does not verify. */
  lemma MissingInputHashesAreReported()
    ensures
      var c := Built(SPARSE_REPORT, "fr_satisfied", "FR-1", "", SparseEnv());
      && c.Success? && ClaimErrors(c.value, SPARSE_REPORT, SparseEnv()) == []
      && var b := Packed(SPARSE_REPORT, c.value, [], SparseEnv());
      && b.Success?
      && BundleErrors(b.value, None, SparseEnv()) == Success([PublicEvidence, PublicEvidenceManifest, PublicDashboard])
  {
    hide AC.Evaluate, ClaimErrors, EvidenceFor;
    var env := SparseEnv();
    assert MANIFEST in SPARSE_REPORT && PAYLOAD in SPARSE_REPORT;
    assert "fr_satisfied" in env.manifestOf([]).supported;
    var c := Built(SPARSE_REPORT, "fr_satisfied", "FR-1", "", env).value;
    BuiltClaimVerifies(SPARSE_REPORT, "fr_satisfied", "FR-1", "", env);
    var b := Packed(SPARSE_REPORT, c, [], env).value;
    assert PublicErrors(b, env) == [PublicEvidence, PublicEvidenceManifest, PublicDashboard];
    assert LoadErrors(b, env) == PublicErrors(b, env);
    assert BundleErrors(b, None, env) == Success(LoadErrors(b, env));
  }

  // ----- What a verified bundle carries ------------------------------------------------------------------------

  ghost predicate Opens(o: Opening, env: Env) {
    var content := B.DecodeStrict(o.content);
    content.Some? && o.sha256 == Some(Hash(content.value, env)) && o.bytes == Some(|content.value|)
  }

  lemma OneOpeningIff(o: Opening, env: Env)
    ensures OneOpeningErrors(o, env) == [] <==> Opens(o, env)
  {
    hide B.DecodeStrict;
  }

  lemma {:induction false} OpeningErrorsIff(openings: seq<Opening>, env: Env)
    ensures OpeningErrors(openings, env) == [] <==> forall o :: o in openings ==> Opens(o, env)
  {
    hide Opens, OneOpeningErrors;
    if openings != [] {
      var front, last := openings[..|openings| - 1], openings[|openings| - 1];
      OpeningErrorsIff(front, env);
      OneOpeningIff(last, env);
      forall o ensures o in openings <==> o in front || o == last {
        assert openings == front + [last];
      }
    }
  }

  /** The claim is what the report's own graph gives for its type and target. */
  ghost predicate Recomputed(c: Claim, files: Files, env: Env) {
    && MANIFEST in files && PAYLOAD in files
    && var m, p := env.manifestOf(files[MANIFEST]), env.payloadOf(files[PAYLOAD]);
    && c.claimType in m.supported
    && c.evaluation == AC.Evaluate(p.graph, c.claimType, c.target) && c.result == ResultOf(c.evaluation)
    && c.inputs == m.commitments && m.commitments.graphRoot.Some? && m.commitments.accepted.Some?
    && c.manifest == Link(MANIFEST, Some(Hash(files[MANIFEST], env)), m.commitments.graphRoot, m.commitments.accepted)
    && c.project == Or(m.project, p.project) && c.runId == Or(m.runId, p.runId)
  }

  lemma RecomputedIff(c: Claim, files: Files, env: Env)
    ensures
      var rebuilt := Built(files, c.claimType, c.target, "", env);
      rebuilt.Success? && Difference(rebuilt.value, c) == [] <==> Recomputed(c, files, env)
  {
    hide AC.Evaluate;
  }

  /** A bundle verifies against a report exactly when it is consistent in itself, each opening
      decodes to content of the stated hash and size, the claim is recomputed from the
      report's graph, and the evidence is that of the report. */
  lemma VerifiedIff(b: Bundle, files: Files, env: Env)
    ensures
      BundleErrors(b, Some(files), env) == Success([]) <==>
      && LoadErrors(b, env) == [] && (forall o :: o in b.openings ==> Opens(o, env))
      && Recomputed(b.claim, files, env) && EvidenceFor(files, b.claim, env) == b.evidence
  {
    OpeningErrorsIff(b.openings, env);
    RecomputedIff(b.claim, files, env);
    assert Recomputed(b.claim, files, env) ==> ManifestErrors(b.claim, files, env) == [];
    assert LoadErrors(b, env) == [] ==> PublicErrors(b, env) == [];
    hide LoadErrors, PublicErrors, OpeningErrors, ManifestErrors, Recomputed, Built, Difference, EvidenceFor, Opens;
  }

  /** One report, one verdict. Beside a bundle that verifies, another for the same claim type
      and target verifies exactly when it carries the same claim up to the time it was made
      and the same evidence, and is sound in itself; only the openings are its own. */
  lemma OneVerdictPerReport(a: Bundle, b: Bundle, files: Files, env: Env)
    requires a.claim.claimType == b.claim.claimType && a.claim.target == b.claim.target
    requires BundleErrors(a, Some(files), env) == Success([])
    ensures
      BundleErrors(b, Some(files), env) == Success([]) <==>
      && a.claim.(generatedAt := "") == b.claim.(generatedAt := "") && a.evidence == b.evidence
      && LoadErrors(b, env) == [] && forall o :: o in b.openings ==> Opens(o, env)
  {
    hide BundleErrors, LoadErrors, Opens, EvidenceFor, AC.Evaluate;
    VerifiedIff(a, files, env);
    VerifiedIff(b, files, env);
    if a.claim.(generatedAt := "") == b.claim.(generatedAt := "") {
      SameEvidence(files, a.claim, b.claim, env);
    }
    if Recomputed(b.claim, files, env) {
      SameEvidence(files, a.claim, b.claim, env);
    }
  }

  /** The evidence of a claim does not depend on when the claim was made. */
  lemma SameEvidence(files: Files, c: Claim, d: Claim, env: Env)
    requires c.(generatedAt := "") == d.(generatedAt := "")
    ensures EvidenceFor(files, c, env) == EvidenceFor(files, d, env)
  {
  }
}
