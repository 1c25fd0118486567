/** The requirements of criteria over a whole run of instance updates: when no criterion
    lists one requirement twice. */
module InstanceRequirements {
  import opened Wrappers
  import opened Json
  import opened KeyedLists
  import opened InstanceUpdates
  import opened InstanceEditors
  import C = CatalogUpdates

  // ----- One update ---------------------------------------------------------------------------------

  /** Appending never repeats a requirement; a replacement repeats what its own list repeats. */
  lemma NewRequirementsAreDistinctIff(rs: seq<Fields>, p: Proposed)
    requires NewRequirements(rs, p).Success?
    ensures
      DistinctIdentities(NewRequirements(rs, p).value) <==>
      match p.requirements
      case Some(items) => DistinctIdentities(RequirementsOf(items).value)
      case None => DistinctIdentities(rs)
  {
    hide RequirementsOf, AppendedAll, Identity;
    if p.requirements.None? {
      var now := NewRequirements(rs, p).value;
      AppendingKeepsIdentities(rs, RequirementsOf(p.appendRequirements).value);
      assert rs <= now;
      if DistinctIdentities(now) {
        forall i, j | 0 <= i < j < |rs| ensures Identity(rs[i]) != Identity(rs[j]) {
          assert rs[i] == now[i] && rs[j] == now[j];
        }
      }
    }
  }

  /** A replacement list that names a requirement twice is accepted, and repeats it. */
  lemma RepeatedItemsRepeat(item: Fields)
    requires RequirementOf(item).Success?
    ensures RequirementsOf([item, item]).Success? && !DistinctIdentities(RequirementsOf([item, item]).value)
  {
    hide RequirementOf;
    var x := RequirementOf(item).value;
    assert [item, item][..1] == [item] && [item][..0] == [];
    assert RequirementsOf([]) == Success([]) && [] + [x] == [x] && [x] + [x] == [x, x];
    assert RequirementsOf([item]) == Success([x]);
    assert RequirementsOf([item, item]) == Success([x, x]);
    assert Identity([x, x][0]) == Identity([x, x][1]);
  }

  /** The update replaces the requirements of criterion `k`. */
  predicate Replaces(u: Update, k: string) {
    PartOf(u) == CriterionPart && CriterionOf(u) == Success(k) && u.proposed.requirements.Some?
  }

  /** What a scan finds under criterion `k`; a criterion that is not there requires nothing. */
  function RequirementsUnder(vals: seq<Criterion>, k: string): seq<Fields> {
    var p := Scan(CriterionKey, vals, k);
    if p >= 0 then vals[p].requirements else []
  }

  ghost predicate Repeats(items: seq<Fields>) {
    RequirementsOf(items).Success? && !DistinctIdentities(RequirementsOf(items).value)
  }

  /** An edit at `p` shows at `p` only, and a new criterion starts without requirements. */
  lemma UnderAfterEdit(vals: seq<Criterion>, unnamed: Option<nat>, u: Update, ctx: C.Context, k: string)
    requires k != "" && (unnamed.Some? ==> unnamed.value < |vals| && vals[unnamed.value].criterion == "")
    requires CriterionStep(vals, unnamed, u, ctx).Success?
    ensures
      var now := CriterionStep(vals, unnamed, u, ctx).value.0;
      if CriterionOf(u) == Success(k) then
        Success(RequirementsUnder(now, k)) == NewRequirements(RequirementsUnder(vals, k), u.proposed)
      else RequirementsUnder(now, k) == RequirementsUnder(vals, k)
  {
    hide Reviewed, NewRequirements, CriterionOf;
    var name := CriterionOf(u).value;
    var p := CriterionAt(vals, unnamed, name);
    var now := CriterionStep(vals, unnamed, u, ctx).value.0;
    if p >= 0 {
      ScanSameKeys(CriterionKey, vals, now, k);
    } else {
      var made := EditedCriterion(Criterion(name, [], map[]), u, ctx).value;
      assert now == vals + [made];
      ScanSnoc(CriterionKey, vals, made, k);
    }
  }

  // ----- A whole run -----------------------------------------------------------------------------------

  /** The mapping kept under the empty name has no name of its own. */
  predicate UnnamedIsUnnamed(v: InstanceValue) {
    v.unnamed.Some? ==> v.unnamed.value < |v.criteria| && v.criteria[v.unnamed.value].criterion == ""
  }

  lemma StepKeepsUnnamed(v: InstanceValue, u: Update, ctx: C.Context)
    requires InRange(v) && UnnamedIsUnnamed(v)
    ensures Step(v, u, ctx).Success? ==> UnnamedIsUnnamed(Step(v, u, ctx).value)
  {
    hide Scan, Reviewed, NewRequirements, CriterionOf, RoleStep, DecisionStep, ExceptionStep;
  }

  /** The last list that replaces the requirements of criterion `k`. */
  function LastReplacement(updates: seq<Update>, k: string): Option<seq<Fields>> {
    if updates == [] then None
    else if Replaces(updates[|updates| - 1], k) then updates[|updates| - 1].proposed.requirements
    else LastReplacement(updates[..|updates| - 1], k)
  }

  lemma StepDistinctIff(v: InstanceValue, u: Update, ctx: C.Context, k: string)
    requires InRange(v) && UnnamedIsUnnamed(v) && k != "" && Step(v, u, ctx).Success?
    ensures
      DistinctIdentities(RequirementsUnder(Step(v, u, ctx).value.criteria, k)) <==>
      if Replaces(u, k) then !Repeats(u.proposed.requirements.value)
      else DistinctIdentities(RequirementsUnder(v.criteria, k))
  {
    hide RequirementsUnder, NewRequirements, CriterionStep, RoleStep, DecisionStep, ExceptionStep, DistinctIdentities, CriterionOf;
    if PartOf(u) == CriterionPart {
      UnderAfterEdit(v.criteria, v.unnamed, u, ctx, k);
      if CriterionOf(u) == Success(k) {
        ReplacementIsRead(RequirementsUnder(v.criteria, k), u.proposed);
        NewRequirementsAreDistinctIff(RequirementsUnder(v.criteria, k), u.proposed);
      }
    }
  }

  lemma ReplacementIsRead(rs: seq<Fields>, p: Proposed)
    ensures NewRequirements(rs, p).Success? && p.requirements.Some? ==> RequirementsOf(p.requirements.value).Success?
  {
  }

  /** After any accepted run the requirements of a criterion are distinct exactly when the
      last list that replaced them had no repetition or, if none did, when they were
      distinct to begin with: appending never adds a repetition. */
  lemma {:induction false} RunDistinctIff(v: InstanceValue, updates: seq<Update>, ctx: C.Context, k: string)
    requires InRange(v) && UnnamedIsUnnamed(v) && k != "" && Run(v, updates, ctx).Success?
    ensures UnnamedIsUnnamed(Run(v, updates, ctx).value)
    ensures
      DistinctIdentities(RequirementsUnder(Run(v, updates, ctx).value.criteria, k)) <==>
      match LastReplacement(updates, k)
      case Some(items) => !Repeats(items)
      case None => DistinctIdentities(RequirementsUnder(v.criteria, k))
  {
    hide Step, Replaces, Repeats, RequirementsUnder, DistinctIdentities, InRange, UnnamedIsUnnamed;
    if updates != [] {
      var front, last := updates[..|updates| - 1], updates[|updates| - 1];
      RunDistinctIff(v, front, ctx, k);
      StepKeepsUnnamed(Run(v, front, ctx).value, last, ctx);
      StepDistinctIff(Run(v, front, ctx).value, last, ctx, k);
      ReplacesHasList(last, k);
    }
  }

  lemma ReplacesHasList(u: Update, k: string)
    ensures Replaces(u, k) ==> u.proposed.requirements.Some?
  {
  }

  /** An empty instance, and a mapping of criterion `C` to one requirement named twice. */
  const BLANK := InstanceValue([], None, [], [], map[], [], [])
  const TWICE: seq<Fields> := [map["type" := Str("t"), "ref" := Str("r")], map["type" := Str("t"), "ref" := Str("r")]]

  function MapTwice(): Update {
    Update(AddMapping, Target("criterion", "C", "", ""),
           Proposed("", "", "", "", "", "", "", "", Some(TWICE), [], map[]), C.Review(Null, Null, Null))
  }

  /** The update is accepted and leaves the requirement twice. */
  lemma RepeatingRunIsAccepted(ctx: C.Context)
    ensures
      var r := Run(BLANK, [MapTwice()], ctx);
      && r.Success? && |r.value.criteria| == 1 && r.value.criteria[0].criterion == "C"
      && !DistinctIdentities(r.value.criteria[0].requirements)
  {
    hide RequirementsOf, DistinctIdentities, RequirementOf;
    TwiceIsRead();
    assert [MapTwice()][..0] == [];
    assert Run(BLANK, [], ctx) == Success(BLANK);
    assert PartOf(MapTwice()) == CriterionPart by {
      assert "criterion"[0] == 'c';
    }
    assert CriterionOf(MapTwice()) == Success("C");
  }

  lemma TwiceIsRead()
    ensures RequirementsOf(TWICE).Success? && !DistinctIdentities(RequirementsOf(TWICE).value)
  {
    var item: Fields := map["type" := Str("t"), "ref" := Str("r")];
    assert "type" != "ref" by { assert |"type"| != |"ref"|; }
    assert Truthy(Get(item, "type")) && Truthy(Get(item, "ref"));
    assert RequirementOf(item).Success?;
    RepeatedItemsRepeat(item);
    assert TWICE == [item, item];
  }

  // ----- Every criterion at once ---------------------------------------------------------------------------

  ghost predicate AllDistinct(vals: seq<Criterion>) {
    forall i :: 0 <= i < |vals| ==> DistinctIdentities(vals[i].requirements)
  }

  /** No list that replaces requirements repeats one. */
  ghost predicate NoRepeats(updates: seq<Update>) {
    forall u :: u in updates && PartOf(u) == CriterionPart && u.proposed.requirements.Some? ==>
      !Repeats(u.proposed.requirements.value)
  }

  lemma StepKeepsDistinct(v: InstanceValue, u: Update, ctx: C.Context)
    requires InRange(v) && AllDistinct(v.criteria)
    requires PartOf(u) == CriterionPart && u.proposed.requirements.Some? ==> !Repeats(u.proposed.requirements.value)
    ensures Step(v, u, ctx).Success? ==> AllDistinct(Step(v, u, ctx).value.criteria)
  {
    hide Scan, Reviewed, NewRequirements, CriterionOf, CriterionAt, RoleStep, DecisionStep, ExceptionStep, DistinctIdentities, Repeats;
    NothingRepeats();
    forall rs: seq<Fields> | PartOf(u) == CriterionPart && DistinctIdentities(rs) && NewRequirements(rs, u.proposed).Success?
      ensures DistinctIdentities(NewRequirements(rs, u.proposed).value)
    {
      ReplacementIsRead(rs, u.proposed);
      NewRequirementsAreDistinctIff(rs, u.proposed);
      RepeatsMeans(u.proposed);
    }
  }

  lemma RepeatsMeans(p: Proposed)
    ensures p.requirements.Some? && RequirementsOf(p.requirements.value).Success? ==>
      (Repeats(p.requirements.value) <==> !DistinctIdentities(RequirementsOf(p.requirements.value).value))
  {
  }

  lemma NothingRepeats()
    ensures DistinctIdentities([])
  {
  }

  /** So over any accepted run no criterion, named or not, comes to list a requirement twice
      unless it did before or a replacement list itself repeats one. */
  lemma {:induction false} RunKeepsDistinct(v: InstanceValue, updates: seq<Update>, ctx: C.Context)
    requires InRange(v) && AllDistinct(v.criteria) && NoRepeats(updates)
    ensures Run(v, updates, ctx).Success? ==> AllDistinct(Run(v, updates, ctx).value.criteria)
  {
    hide Step, AllDistinct, InRange, Repeats;
    if updates != [] {
      var front, last := updates[..|updates| - 1], updates[|updates| - 1];
      assert updates == front + [last] && last in updates;
      RunKeepsDistinct(v, front, ctx);
      if Run(v, front, ctx).Success? {
        StepKeepsDistinct(Run(v, front, ctx).value, last, ctx);
      }
    }
  }
}
