/** Reviewed manual evidence for an assurance instance: requirements of criteria and
    approvals of role assignments, edited through the same two dictionaries. */
module InstanceEvidence {
  import opened Wrappers
  import opened Sequences
  import opened Json
  import opened KeyedLists
  import opened InstanceUpdates
  import C = CatalogUpdates

  /** `update` carries the target, the proposed fields and the review. */
  datatype Evidence = Evidence(update: Update, evidenceType: string, paths: seq<string>)

  /** The two lists that manual evidence reaches. */
  datatype Lists = Lists(criteria: seq<Criterion>, roles: seq<Fields>)

  function FirstText(texts: seq<string>): string {
    if texts == [] then "" else if texts[0] != "" then texts[0] else FirstText(texts[1..])
  }

  function ManualRequirement(e: Evidence): Fields {
    var f, id := e.update.proposed.fields, e.update.target.id;
    if e.evidenceType == "approval" || TextOf(f, "approval_ref") != "" then
      map["type" := Str("approval"),
          "ref" := Str(FirstText([TextOf(f, "approval_ref"), TextOf(f, "ref"), TextOf(f, "evidence"), "APPROVAL-" + id]))]
    else
      var path := if e.paths == [] then "" else e.paths[0];
      var ref := FirstText([TextOf(f, "ref"), TextOf(f, "artifact"), TextOf(f, "artifact_id"), path, "MANUAL-" + id]);
      map["type" := Str("manual_artifact"), "ref" := Str(ref),
          "evidence" := Str(FirstText([TextOf(f, "evidence"), TextOf(f, "evidence_id"), ref]))]
  }

  /** Manual evidence always yields a complete requirement: it has a type and a reference,
      and an artifact also names its evidence. */
  lemma ManualRequirementIsComplete(e: Evidence)
    ensures
      var r := ManualRequirement(e);
      && Truthy(Get(r, "type")) && Truthy(Get(r, "ref"))
      && (Get(r, "type") == Str("approval") <==> e.evidenceType == "approval" || TextOf(e.update.proposed.fields, "approval_ref") != "")
      && (Get(r, "type") != Str("approval") ==> Truthy(Get(r, "evidence")))
  {
    hide FirstText;
    var f, id := e.update.proposed.fields, e.update.target.id;
    var path := if e.paths == [] then "" else e.paths[0];
    assert "approval"[0] != "manual_artifact"[0];
    FirstTextFound([TextOf(f, "approval_ref"), TextOf(f, "ref"), TextOf(f, "evidence"), "APPROVAL-" + id]);
    var refs := [TextOf(f, "ref"), TextOf(f, "artifact"), TextOf(f, "artifact_id"), path, "MANUAL-" + id];
    FirstTextFound(refs);
    FirstTextFound([TextOf(f, "evidence"), TextOf(f, "evidence_id"), FirstText(refs)]);
  }

  lemma {:induction false} FirstTextFound(texts: seq<string>)
    requires texts != [] && texts[|texts| - 1] != ""
    ensures FirstText(texts) != "" && FirstText(texts) in texts
  {
    if |texts| > 1 && texts[0] == "" {
      FirstTextFound(texts[1..]);
    }
  }

  function CriterionId(u: Update): Result<string, Error> {
    var id := Or(Or(u.proposed.criterion, u.proposed.criterionId), if u.target.kind == "criterion" then u.target.id else "");
    if id == "" then Failure(MissingField("criterion")) else Success(id)
  }

  function Supported(c: Criterion, e: Evidence, ctx: C.Context): Result<Criterion, Error> {
    var others :- Reviewed(c.others, e.update, ctx);
    Success(Criterion(c.criterion, AppendedUnique(c.requirements, ManualRequirement(e)), others))
  }

  function SupportCriterion(e: Evidence, ctx: C.Context): Criterion -> Result<Criterion, Error> {
    c => Supported(c, e, ctx)
  }

  function Otherwise(j: Json, other: Json): Json {
    if Truthy(j) then j else other
  }

  /** `f.get(key, fallback)`. */
  function GetOr(f: Fields, key: string, fallback: Json): Json {
    if key in f then f[key] else fallback
  }

  function Approved(f: Fields, e: Evidence, ctx: C.Context): Result<Fields, Error> {
    var p := e.update.proposed.fields;
    var a :=
      if e.evidenceType != "approval" then f
      else
        f["approval_ref" := Otherwise(Get(p, "approval_ref"), Otherwise(Get(p, "ref"), GetOr(f, "approval_ref", Str(""))))]
         ["approval_status" := GetOr(p, "approval_status", GetOr(f, "approval_status", Str("pending")))];
    var b := if Truthy(Get(p, "party")) then a["party" := p["party"]] else a;
    var c := if Truthy(Get(p, "notes")) then b["notes" := p["notes"]] else b;
    Reviewed(c, e.update, ctx)
  }

  function ApproveRole(e: Evidence, ctx: C.Context): Fields -> Result<Fields, Error> {
    f => Approved(f, e, ctx)
  }

  predicate ForCriterion(e: Evidence) {
    e.update.target.kind == "criterion" || e.update.target.kind == "gate"
  }

  function CriterionStep(vals: seq<Criterion>, e: Evidence, ctx: C.Context): Result<seq<Criterion>, Error> {
    var k :- CriterionId(e.update);
    Upserted(CriterionKey, vals, k, false, Success(Criterion(k, [], map[])), SupportCriterion(e, ctx))
  }

  function RoleStep(vals: seq<Fields>, e: Evidence, ctx: C.Context): Result<seq<Fields>, Error> {
    var k :- RoleOf(e.update);
    Upserted(RoleKey, vals, k, false, Success(BlankRole(e.update, k)), ApproveRole(e, ctx))
  }

  /** One update over linear scans. */
  function Step(v: Lists, e: Evidence, ctx: C.Context): Result<Lists, Error> {
    if ForCriterion(e) then
      var cs :- CriterionStep(v.criteria, e, ctx);
      Success(v.(criteria := cs))
    else if e.update.target.kind == "role" then
      var rs :- RoleStep(v.roles, e, ctx);
      Success(v.(roles := rs))
    else Failure(Unsupported)
  }

  function Run(v: Lists, updates: seq<Evidence>, ctx: C.Context): Result<Lists, Error> {
    if updates == [] then Success(v)
    else
      var before :- Run(v, updates[..|updates| - 1], ctx);
      Step(before, updates[|updates| - 1], ctx)
  }

  // ----- Through the dictionaries -------------------------------------------------------------------

  lemma EditsKeepKeys(e: Evidence, ctx: C.Context)
    ensures KeepsKey(CriterionKey, SupportCriterion(e, ctx))
    ensures KeepsKey(RoleKey, ApproveRole(e, ctx))
  {
    forall f | Approved(f, e, ctx).Success? ensures RoleKey(Approved(f, e, ctx).value) == RoleKey(f) {
      ApprovalKeepsRole(f, e, ctx);
    }
  }

  lemma ApprovalKeepsRole(f: Fields, e: Evidence, ctx: C.Context)
    requires Approved(f, e, ctx).Success?
    ensures RoleKey(Approved(f, e, ctx).value) == RoleKey(f)
  {
    NotRoleFields();
    assert ROLE_FIELDS[0] == "party" && ROLE_FIELDS[1] == "approval_status" && ROLE_FIELDS[2] == "approval_ref" && ROLE_FIELDS[3] == "notes";
    assert "gate" != "metadata" && "role" != "metadata" by {
      assert |"gate"| != |"metadata"| && |"role"| != |"metadata"|;
    }
  }

  method ApplyToCriterion(list: KeyedList<string, Criterion>, e: Evidence, ctx: C.Context) returns (r: Result<(), Error>)
    requires list.Rep() && list.keyOf == CriterionKey && list.Agrees()
    modifies list, list.Cells()
    ensures list.Rep() && list.Agrees() && fresh(list.Cells() - old(list.Cells()))
    ensures ListOutcome(CriterionStep(old(list.Values()), e, ctx), r, list.Values())
  {
    EditsKeepKeys(e, ctx);
    hide Scan, Upserted, Supported;
    var k := CriterionId(e.update);
    if k.Failure? {
      return Failure(k.error);
    }
    assert list.AgreesAt(k.value);
    r := Upsert(list, k.value, false, Success(Criterion(k.value, [], map[])), SupportCriterion(e, ctx));
  }

  method ApplyToRole(list: KeyedList<(string, string), Fields>, e: Evidence, ctx: C.Context) returns (r: Result<(), Error>)
    requires list.Rep() && list.keyOf == RoleKey && list.Agrees()
    modifies list, list.Cells()
    ensures list.Rep() && list.Agrees() && fresh(list.Cells() - old(list.Cells()))
    ensures ListOutcome(RoleStep(old(list.Values()), e, ctx), r, list.Values())
  {
    EditsKeepKeys(e, ctx);
    hide Scan, Upserted, Approved;
    var k := RoleOf(e.update);
    if k.Failure? {
      return Failure(k.error);
    }
    assert list.AgreesAt(k.value);
    r := Upsert(list, k.value, false, Success(BlankRole(e.update, k.value)), ApproveRole(e, ctx));
  }

  /** A whole proposal over copies of the two lists: each dictionary agrees with a linear
      scan of its list throughout, and the outcome is that of the run over scans. */
  method ApplyInstanceEvidence(start: Lists, updates: seq<Evidence>, ctx: C.Context) returns (r: Result<Lists, Error>)
    ensures r == Run(start, updates, ctx)
  {
    hide Scan, CriterionStep, RoleStep, KeyedList.Agrees, KeyedList.Rep, KeyedList.Values;
    var cs := new KeyedList(CriterionKey, start.criteria);
    var rs := new KeyedList(RoleKey, start.roles);
    for n := 0 to |updates|
      invariant cs.Rep() && rs.Rep() && cs.Agrees() && rs.Agrees()
      invariant fresh(cs) && fresh(rs) && fresh(cs.Cells()) && fresh(rs.Cells()) && cs.Cells() !! rs.Cells()
      invariant cs.keyOf == CriterionKey && rs.keyOf == RoleKey
      invariant Run(start, updates[..n], ctx) == Success(Lists(cs.Values(), rs.Values()))
    {
      var e := updates[n];
      assert updates[..n + 1][..n] == updates[..n];
      var one: Result<(), Error>;
      if ForCriterion(e) {
        one := ApplyToCriterion(cs, e, ctx);
      } else if e.update.target.kind == "role" {
        one := ApplyToRole(rs, e, ctx);
      } else {
        one := Failure(Unsupported);
      }
      if one.Failure? {
        RunFails(start, updates, n, ctx);
        return Failure(one.error);
      }
    }
    assert updates[..|updates|] == updates;
    r := Success(Lists(cs.Values(), rs.Values()));
  }

  lemma {:induction false} RunFails(v: Lists, updates: seq<Evidence>, n: nat, ctx: C.Context)
    requires n < |updates| && Run(v, updates[..n + 1], ctx).Failure?
    ensures Run(v, updates, ctx) == Run(v, updates[..n + 1], ctx)
  {
    hide Step;
    if n + 1 == |updates| {
      assert updates[..n + 1] == updates;
    } else {
      assert updates[..|updates| - 1][..n + 1] == updates[..n + 1];
      RunFails(v, updates[..|updates| - 1], n, ctx);
    }
  }

  // ----- What a run keeps -----------------------------------------------------------------------------

  /** Keys are distinct, and no criterion lists a requirement twice. */
  ghost predicate Tidy(v: Lists) {
    && DistinctKeys(CriterionKey, v.criteria) && DistinctKeys(RoleKey, v.roles)
    && forall c :: c in v.criteria ==> DistinctIdentities(c.requirements)
  }

  lemma RequirementsStayTidy(vals: seq<Criterion>, e: Evidence, ctx: C.Context)
    requires forall c :: c in vals ==> DistinctIdentities(c.requirements)
    ensures
      var r := CriterionStep(vals, e, ctx);
      r.Success? ==> forall c :: c in r.value ==> DistinctIdentities(c.requirements)
  {
    hide Scan, ManualRequirement, HasIdentity, Reviewed, DistinctIdentities;
    var k := CriterionId(e.update);
    if k.Success? {
      NoRequirements();
      AppendingOne([], ManualRequirement(e));
      forall c | c in vals ensures DistinctIdentities(AppendedUnique(c.requirements, ManualRequirement(e))) {
        AppendingOne(c.requirements, ManualRequirement(e));
      }
    }
  }

  lemma NoRequirements()
    ensures DistinctIdentities([])
  {
  }

  lemma AppendingOne(rs: seq<Fields>, r: Fields)
    requires DistinctIdentities(rs)
    ensures DistinctIdentities(AppendedUnique(rs, r))
  {
    AppendingKeepsIdentities(rs, [r]);
    assert [r][..0] == [];
    assert AppendedAll(rs, [r]) == AppendedUnique(rs, r);
  }

  lemma StepKeepsTidy(v: Lists, e: Evidence, ctx: C.Context)
    requires Tidy(v)
    ensures Step(v, e, ctx).Success? ==> Tidy(Step(v, e, ctx).value)
  {
    hide Upserted, DistinctKeys, DistinctIdentities, Supported, Approved, BlankRole;
    EditsKeepKeys(e, ctx);
    RequirementsStayTidy(v.criteria, e, ctx);
    var k := CriterionId(e.update);
    if k.Success? {
      UpsertKeepsKeys(CriterionKey, v.criteria, k.value, false, Success(Criterion(k.value, [], map[])), SupportCriterion(e, ctx));
    }
    var role := RoleOf(e.update);
    if role.Success? {
      BlankRoleKey(e.update, role.value);
      UpsertKeepsKeys(RoleKey, v.roles, role.value, false, Success(BlankRole(e.update, role.value)), ApproveRole(e, ctx));
    }
  }

  lemma BlankRoleKey(u: Update, key: (string, string))
    ensures RoleKey(BlankRole(u, key)) == Some(key) || RoleKey(BlankRole(u, key)) == None
  {
  }

  /** Over any accepted run keys stay distinct and no requirement identity is repeated. */
  lemma {:induction false} RunKeepsTidy(v: Lists, updates: seq<Evidence>, ctx: C.Context)
    requires Tidy(v)
    ensures Run(v, updates, ctx).Success? ==> Tidy(Run(v, updates, ctx).value)
  {
    hide Step, Tidy;
    if updates != [] {
      var front := updates[..|updates| - 1];
      RunKeepsTidy(v, front, ctx);
      if Run(v, front, ctx).Success? {
        StepKeepsTidy(Run(v, front, ctx).value, updates[|updates| - 1], ctx);
      }
    }
  }
}
