/** The instance as an object: five indexed lists updated in place, and the run of a
    whole proposal over a copy of it. */
module InstanceEditors {
  import opened Wrappers
  import opened Json
  import opened KeyedLists
  import opened InstanceUpdates
  import C = CatalogUpdates

  /** The lists of an instance, the position of the mapping that the criterion dictionary
      holds under the empty name, and the positions that the gate dictionary holds. */
  datatype InstanceValue = InstanceValue(
    criteria: seq<Criterion>,
    unnamed: Option<nat>,
    roles: seq<Fields>,
    decisions: seq<Fields>,
    gates: map<string, nat>,
    waivers: seq<Fields>,
    controls: seq<Fields>)

  // ----- One update, over linear scans ----------------------------------------------------

  /** Where the criterion dictionary looks: a scan finds a named criterion, while a mapping
      for the empty criterion is known only to the run that added it. */
  function CriterionAt(vals: seq<Criterion>, unnamed: Option<nat>, k: string): (p: int)
    requires unnamed.Some? ==> unnamed.value < |vals|
    ensures p < |vals|
  {
    if k != "" then Scan(CriterionKey, vals, k) else PositionOf(unnamed)
  }

  function PositionOf(p: Option<nat>): int {
    if p.Some? then p.value else -1
  }

  function CriterionStep(vals: seq<Criterion>, unnamed: Option<nat>, u: Update, ctx: C.Context)
    : Result<(seq<Criterion>, Option<nat>), Error>
    requires unnamed.Some? ==> unnamed.value < |vals|
  {
    var k :- CriterionOf(u);
    var r :- UpsertedAt(vals, CriterionAt(vals, unnamed, k), u.op.AddMapping?, Success(Criterion(k, [], map[])), EditCriterion(u, ctx));
    Success((r, if k == "" && unnamed.None? then Some(|vals|) else unnamed))
  }

  function RoleStep(vals: seq<Fields>, u: Update, ctx: C.Context): Result<seq<Fields>, Error> {
    var k :- RoleOf(u);
    Upserted(RoleKey, vals, k, u.op.AddMapping?, Success(BlankRole(u, k)), EditFields(u, ROLE_FIELDS, ctx))
  }

  /** Waivers and compensating controls differ in the id prefix and the fields copied. */
  datatype ExceptionKind = WaiverKind | ControlKind

  function FieldsOf(kind: ExceptionKind): seq<string> {
    if kind.WaiverKind? then WAIVER_FIELDS else CONTROL_FIELDS
  }

  function IdOf(kind: ExceptionKind, u: Update): Result<string, Error> {
    if kind.WaiverKind? then ExceptionId(u, "waiver", "WVR") else ExceptionId(u, "compensating_control", "CMP")
  }

  function ExceptionStep(kind: ExceptionKind, vals: seq<Fields>, u: Update, ctx: C.Context): Result<seq<Fields>, Error> {
    var k :- IdOf(kind, u);
    Upserted(IdKey, vals, k, u.op.AddWaiver? || u.op.AddControl?, BlankException(u, k), EditFields(u, FieldsOf(kind), ctx))
  }

  /** An update of a decision falls back on the gate when no decision has its id. */
  function DecisionStep(vals: seq<Fields>, gates: map<string, nat>, u: Update, ctx: C.Context)
    : Result<(seq<Fields>, map<string, nat>), Error>
    requires forall g :: g in gates ==> gates[g] < |vals|
  {
    var id :- DecisionId(u);
    if GateOf(u) == "" then Failure(MissingField("gate"))
    else DecisionAt(vals, gates, id, GateOf(u), u, ctx)
  }

  function DecisionAt(vals: seq<Fields>, gates: map<string, nat>, id: string, gate: string, u: Update, ctx: C.Context)
    : Result<(seq<Fields>, map<string, nat>), Error>
    requires forall g :: g in gates ==> gates[g] < |vals|
  {
    var p := Scan(IdKey, vals, id);
    var q := if p < 0 && u.op.UpdateDecision? && gate in gates then gates[gate] else p;
    if q >= 0 then
      if u.op.AddDecision? then Failure(AlreadyExists)
      else var v :- EditFields(u, DECISION_FIELDS, ctx)(vals[q]); Success((vals[q := v], gates))
    else
      var v :- NewDecisionFields(id, u, ctx);
      Success((vals + [v], gates[gate := |vals|]))
  }

  function NewDecisionFields(id: string, u: Update, ctx: C.Context): Result<Fields, Error> {
    var b :- BlankDecision(u, id);
    EditFields(u, DECISION_FIELDS, ctx)(b)
  }

  ghost predicate InRange(v: InstanceValue) {
    && (v.unnamed.Some? ==> v.unnamed.value < |v.criteria|)
    && forall g :: g in v.gates ==> v.gates[g] < |v.decisions|
  }

  datatype Part = CriterionPart | RolePart | DecisionPart | WaiverPart | ControlPart | NoPart

  /** The list an update is about. */
  function PartOf(u: Update): Part {
    if u.op.AddMapping? || u.op.UpdateMapping? then
      if u.target.kind == "criterion" || u.target.kind == "gate" then CriterionPart
      else if u.target.kind == "role" then RolePart
      else NoPart
    else if u.op.AddDecision? || u.op.UpdateDecision? then DecisionPart
    else if u.op.AddWaiver? || u.op.UpdateWaiver? then WaiverPart
    else if u.op.AddControl? || u.op.UpdateControl? then ControlPart
    else NoPart
  }

  function Step(v: InstanceValue, u: Update, ctx: C.Context): Result<InstanceValue, Error>
    requires InRange(v)
  {
    match PartOf(u)
    case CriterionPart =>
      var r :- CriterionStep(v.criteria, v.unnamed, u, ctx); Success(v.(criteria := r.0, unnamed := r.1))
    case RolePart => var r :- RoleStep(v.roles, u, ctx); Success(v.(roles := r))
    case DecisionPart =>
      var r :- DecisionStep(v.decisions, v.gates, u, ctx); Success(v.(decisions := r.0, gates := r.1))
    case WaiverPart => var r :- ExceptionStep(WaiverKind, v.waivers, u, ctx); Success(v.(waivers := r))
    case ControlPart => var r :- ExceptionStep(ControlKind, v.controls, u, ctx); Success(v.(controls := r))
    case NoPart => Failure(Unsupported)
  }

  // ----- One update, through the indexes ---------------------------------------------------

  /** The criterion index agrees with a scan at every criterion that has a name. */
  ghost predicate NamedAgree(list: KeyedList<string, Criterion>)
    reads list, list.items
  {
    forall k :: k != "" ==> list.AgreesAt(k)
  }

  lemma NamedAgreeIfAgrees(list: KeyedList<string, Criterion>)
    requires list.Agrees()
    ensures NamedAgree(list)
  {
  }

  ghost predicate CriterionOutcome(
    want: Result<(seq<Criterion>, Option<nat>), Error>, r: Result<(), Error>, now: seq<Criterion>, unnamed: Option<nat>)
  {
    match want
    case Failure(error) => r == Failure(error)
    case Success(p) => r == Success(()) && now == p.0 && unnamed == p.1
  }

  lemma NoEmptyName(list: KeyedList<string, Criterion>)
    requires list.keyOf == CriterionKey && list.Agrees()
    ensures "" !in list.index
  {
    assert list.AgreesAt("");
  }

  method ApplyCriterion(list: KeyedList<string, Criterion>, ghost unnamed: Option<nat>, u: Update, ctx: C.Context)
    returns (r: Result<(), Error>, ghost nextUnnamed: Option<nat>)
    requires list.Rep() && list.keyOf == CriterionKey && list.HoldsAt("", PositionOf(unnamed))
    modifies list, list.Cells()
    ensures list.Rep() && fresh(list.Cells() - old(list.Cells()))
    ensures list.HoldsAt("", PositionOf(nextUnnamed))
    ensures old(NamedAgree(list)) ==> NamedAgree(list)
    ensures old(NamedAgree(list)) ==>
      CriterionOutcome(CriterionStep(old(list.Values()), unnamed, u, ctx), r, list.Values(), nextUnnamed)
  {
    hide Scan, EditCriterion, UpsertedAt;
    nextUnnamed := unnamed;
    var k := CriterionOf(u);
    if k.Failure? {
      r := Failure(k.error);
      return;
    }
    EditsKeepCriterionKey(u, ctx);
    assert old(NamedAgree(list)) && k.value != "" ==> list.AgreesAt(k.value);
    r := Upsert(list, k.value, u.op.AddMapping?, Success(Criterion(k.value, [], map[])), EditCriterion(u, ctx));
    if r.Success? && k.value == "" && unnamed.None? {
      nextUnnamed := Some(|old(list.items)|);
    }
  }

  lemma EditsKeepCriterionKey(u: Update, ctx: C.Context)
    ensures KeepsKey(CriterionKey, EditCriterion(u, ctx))
  {
  }

  method ApplyRole(list: KeyedList<(string, string), Fields>, u: Update, ctx: C.Context) returns (r: Result<(), Error>)
    requires list.Rep() && list.keyOf == RoleKey
    modifies list, list.Cells()
    ensures list.Rep() && fresh(list.Cells() - old(list.Cells()))
    ensures old(list.Agrees()) ==> list.Agrees()
    ensures old(list.Agrees()) ==> ListOutcome(RoleStep(old(list.Values()), u, ctx), r, list.Values())
  {
    hide Scan, EditFields, Upserted;
    var k := RoleOf(u);
    if k.Failure? {
      return Failure(k.error);
    }
    EditsKeepRoleKey(u, ctx);
    assert old(list.Agrees()) ==> list.AgreesAt(k.value);
    r := Upsert(list, k.value, u.op.AddMapping?, Success(BlankRole(u, k.value)), EditFields(u, ROLE_FIELDS, ctx));
  }

  lemma ExceptionFacts(kind: ExceptionKind, u: Update, ctx: C.Context)
    ensures KeepsKey(IdKey, EditFields(u, FieldsOf(kind), ctx))
    ensures IdOf(kind, u).Success? ==> IdOf(kind, u).value != ""
    ensures
      forall id: string {:trigger BlankException(u, id)} :: id != "" && BlankException(u, id).Success? ==>
        IdKey(BlankException(u, id).value) == Some(id)
  {
    NotIdFields();
    EditsKeepIdKey(u, FieldsOf(kind), ctx);
  }

  method ApplyException(kind: ExceptionKind, list: KeyedList<string, Fields>, u: Update, ctx: C.Context)
    returns (r: Result<(), Error>)
    requires list.Rep() && list.keyOf == IdKey
    modifies list, list.Cells()
    ensures list.Rep() && fresh(list.Cells() - old(list.Cells()))
    ensures old(list.Agrees()) ==> list.Agrees()
    ensures old(list.Agrees()) ==> ListOutcome(ExceptionStep(kind, old(list.Values()), u, ctx), r, list.Values())
  {
    ExceptionFacts(kind, u, ctx);
    hide Scan, EditFields, Upserted, BlankException, IdOf;
    var k := IdOf(kind, u);
    if k.Failure? {
      return Failure(k.error);
    }
    assert old(list.Agrees()) ==> list.AgreesAt(k.value);
    r := Upsert(list, k.value, u.op.AddWaiver? || u.op.AddControl?, BlankException(u, k.value), EditFields(u, FieldsOf(kind), ctx));
  }

  /** Decisions: the id index stays exact; the gate dictionary is only a fallback. */
  method ApplyDecision(
    list: KeyedList<string, Fields>, byGate: map<string, Cell<Fields>>, ghost gates: map<string, nat>, u: Update, ctx: C.Context)
    returns (r: Result<(), Error>, nextGates: map<string, Cell<Fields>>, ghost nextPositions: map<string, nat>)
    requires list.Rep() && list.keyOf == IdKey && Positions(list.items, byGate, gates)
    modifies list, list.Cells()
    ensures list.Rep() && fresh(list.Cells() - old(list.Cells()))
    ensures Positions(list.items, nextGates, nextPositions)
    ensures old(list.Agrees()) ==> list.Agrees()
    ensures old(list.Agrees()) ==> DecisionOutcome(DecisionStep(old(list.Values()), gates, u, ctx), r, list.Values(), nextPositions)
  {
    DecisionIdIsNamed(u);
    hide Scan, DecisionAt, DecisionId, GateOf;
    var id := DecisionId(u);
    if id.Failure? {
      return Failure(id.error), byGate, gates;
    }
    if GateOf(u) == "" {
      return Failure(MissingField("gate")), byGate, gates;
    }
    r, nextGates, nextPositions := DecideAt(list, byGate, gates, id.value, GateOf(u), u, ctx);
  }

  ghost predicate DecisionOutcome(
    want: Result<(seq<Fields>, map<string, nat>), Error>, r: Result<(), Error>, now: seq<Fields>, gates: map<string, nat>)
  {
    match want
    case Failure(error) => r == Failure(error)
    case Success(p) => r == Success(()) && now == p.0 && gates == p.1
  }

  method DecideAt(
    list: KeyedList<string, Fields>, byGate: map<string, Cell<Fields>>, ghost gates: map<string, nat>,
    id: string, gate: string, u: Update, ctx: C.Context)
    returns (r: Result<(), Error>, nextGates: map<string, Cell<Fields>>, ghost nextPositions: map<string, nat>)
    requires list.Rep() && list.keyOf == IdKey && Positions(list.items, byGate, gates) && id != ""
    modifies list, list.Cells()
    ensures list.Rep() && fresh(list.Cells() - old(list.Cells()))
    ensures Positions(list.items, nextGates, nextPositions)
    ensures old(list.Agrees()) ==> list.Agrees()
    ensures old(list.Agrees()) ==> DecisionOutcome(DecisionAt(old(list.Values()), gates, id, gate, u, ctx), r, list.Values(), nextPositions)
  {
    hide Scan, EditFields, NewDecisionFields, IdKey, KeyedList.Values;
    nextGates, nextPositions := byGate, gates;
    assert old(list.Agrees()) ==> list.AgreesAt(id);
    var found := if id in list.index then Some(list.index[id])
                 else if u.op.UpdateDecision? && gate in byGate then Some(byGate[gate])
                 else None;
    if found.Some? {
      if u.op.AddDecision? {
        r := Failure(AlreadyExists);
        return;
      }
      ghost var at :| 0 <= at < |list.items| && list.items[at] == found.value;
      r := EditDecision(list, found.value, at, u, ctx);
    } else {
      var added := NewDecision(list, id, u, ctx);
      if added.Failure? {
        r := Failure(added.error);
        return;
      }
      r := Success(());
      nextGates := byGate[gate := added.value];
      nextPositions := gates[gate := |list.items| - 1];
    }
  }

  method EditDecision(list: KeyedList<string, Fields>, cell: Cell<Fields>, ghost at: nat, u: Update, ctx: C.Context)
    returns (r: Result<(), Error>)
    requires list.Rep() && list.keyOf == IdKey
    requires at < |list.items| && list.items[at] == cell
    modifies list.Cells()
    ensures list.Rep() && list.items == old(list.items)
    ensures old(list.Agrees()) ==> list.Agrees()
    ensures
      match EditFields(u, DECISION_FIELDS, ctx)(old(cell.value))
      case Failure(error) => r == Failure(error) && list.Values() == old(list.Values())
      case Success(v) => r == Success(()) && list.Values() == old(list.Values())[at := v]
  {
    DecisionFacts(u, ctx);
    hide Scan, EditFields;
    var v := EditFields(u, DECISION_FIELDS, ctx)(cell.value);
    if v.Failure? {
      return Failure(v.error);
    }
    list.Overwrite(cell, v.value, at);
    r := Success(());
  }

  method NewDecision(list: KeyedList<string, Fields>, id: string, u: Update, ctx: C.Context)
    returns (r: Result<Cell<Fields>, Error>)
    requires list.Rep() && list.keyOf == IdKey && id != ""
    modifies list
    ensures list.Rep() && fresh(list.Cells() - old(list.Cells()))
    ensures old(list.Agrees()) ==> list.Agrees()
    ensures old(list.items) <= list.items
    ensures
      match NewDecisionFields(id, u, ctx)
      case Failure(error) => r == Failure(error) && list.Values() == old(list.Values())
      case Success(v) => r.Success? && list.items == old(list.items) + [r.value] && list.Values() == old(list.Values()) + [v]
  {
    DecisionFacts(u, ctx);
    hide Scan, EditFields, BlankDecision;
    var v := NewDecisionFields(id, u, ctx);
    if v.Failure? {
      return Failure(v.error);
    }
    var c := list.Append(v.value, Some(id));
    r := Success(c);
  }

  ghost predicate Positions(items: seq<Cell<Fields>>, byGate: map<string, Cell<Fields>>, gates: map<string, nat>) {
    && byGate.Keys == gates.Keys
    && forall g :: g in gates ==> gates[g] < |items| && items[gates[g]] == byGate[g]
  }

  lemma DecisionIdIsNamed(u: Update)
    ensures DecisionId(u).Success? ==> DecisionId(u).value != ""
  {
  }

  lemma DecisionFacts(u: Update, ctx: C.Context)
    ensures KeepsKey(IdKey, EditFields(u, DECISION_FIELDS, ctx))
    ensures
      forall id: string {:trigger BlankDecision(u, id)} :: id != "" && BlankDecision(u, id).Success? ==>
        IdKey(BlankDecision(u, id).value) == Some(id)
  {
    NotIdFields();
    EditsKeepIdKey(u, DECISION_FIELDS, ctx);
  }

  // ----- The whole instance ------------------------------------------------------------------

  /** `{d["gate"]: d for d in decisions if d.get("gate")}`, by position. */
  function GatePositions(decisions: seq<Fields>): (r: map<string, nat>)
    ensures forall g :: g in r ==> r[g] < |decisions|
  {
    if decisions == [] then map[]
    else
      var r, g := GatePositions(decisions[..|decisions| - 1]), TextOf(decisions[|decisions| - 1], "gate");
      if g == "" then r else r[g := |decisions| - 1]
  }

  class Instance {
    const criteria: KeyedList<string, Criterion>
    const roles: KeyedList<(string, string), Fields>
    const decisions: KeyedList<string, Fields>
    const waivers: KeyedList<string, Fields>
    const controls: KeyedList<string, Fields>
    var byGate: map<string, Cell<Fields>>
    ghost var gates: map<string, nat>
    ghost var unnamed: Option<nat>

    /** Five lists that represent their contents and share no entry. */
    ghost predicate Apart()
      reads criteria, roles, decisions, waivers, controls
    {
      && criteria.Rep() && roles.Rep() && decisions.Rep() && waivers.Rep() && controls.Rep()
      && criteria.keyOf == CriterionKey && roles.keyOf == RoleKey
      && decisions.keyOf == IdKey && waivers.keyOf == IdKey && controls.keyOf == IdKey
      && decisions != waivers && decisions != controls && waivers != controls
      && criteria.Cells() !! roles.Cells() && decisions.Cells() !! waivers.Cells() !! controls.Cells()
      && criteria.Cells() + roles.Cells() !! decisions.Cells() + waivers.Cells() + controls.Cells()
    }

    ghost predicate Valid()
      reads this, criteria, roles, decisions, waivers, controls
    {
      Apart() && Positions(decisions.items, byGate, gates) && criteria.HoldsAt("", PositionOf(unnamed))
    }

    /** Every index agrees with a linear scan of its list. */
    ghost predicate Agrees()
      reads criteria, roles, decisions, waivers, controls
      reads criteria.items, roles.items, decisions.items, waivers.items, controls.items
    {
      NamedAgree(criteria) && roles.Agrees() && decisions.Agrees() && waivers.Agrees() && controls.Agrees()
    }

    ghost function Value(): InstanceValue
      reads this, criteria, roles, decisions, waivers, controls
      reads criteria.items, roles.items, decisions.items, waivers.items, controls.items
    {
      InstanceValue(criteria.Values(), unnamed, roles.Values(), decisions.Values(), gates, waivers.Values(), controls.Values())
    }

    lemma PositionsAreInRange()
      requires Valid()
      ensures InRange(Value())
    {
      hide KeyedList.Rep;
    }

    ghost function Footprint(): set<object>
      reads this, criteria, roles, decisions, waivers, controls
    {
      {this, criteria, roles, decisions, waivers, controls}
      + criteria.Cells() + roles.Cells() + decisions.Cells() + waivers.Cells() + controls.Cells()
    }

    /** An instance over five separate lists. */
    constructor (
      cs: KeyedList<string, Criterion>, rs: KeyedList<(string, string), Fields>, ds: KeyedList<string, Fields>,
      ws: KeyedList<string, Fields>, xs: KeyedList<string, Fields>)
      requires cs.Rep() && rs.Rep() && ds.Rep() && ws.Rep() && xs.Rep()
      requires cs.keyOf == CriterionKey && rs.keyOf == RoleKey && ds.keyOf == IdKey && ws.keyOf == IdKey && xs.keyOf == IdKey
      requires ds != ws && ds != xs && ws != xs
      requires cs.Cells() !! rs.Cells() && ds.Cells() !! ws.Cells() !! xs.Cells()
      requires cs.Cells() + rs.Cells() !! ds.Cells() + ws.Cells() + xs.Cells()
      requires "" !in cs.index
      ensures Valid()
      ensures criteria == cs && roles == rs && decisions == ds && waivers == ws && controls == xs
      ensures Value() == InstanceValue(cs.Values(), None, rs.Values(), ds.Values(), GatePositions(ds.Values()), ws.Values(), xs.Values())
    {
      hide KeyedList.Rep, GatePositions;
      criteria, roles, decisions, waivers, controls := cs, rs, ds, ws, xs;
      gates, unnamed := GatePositions(ds.Values()), None;
      byGate := map g | g in GatePositions(ds.Values()) :: ds.items[GatePositions(ds.Values())[g]];
    }

    method EditCriteria(u: Update, ctx: C.Context) returns (r: Result<(), Error>, ghost next: Option<nat>)
      requires Valid()
      modifies criteria, criteria.Cells()
      ensures Apart() && criteria.HoldsAt("", PositionOf(next)) && fresh(criteria.Cells() - old(criteria.Cells()))
      ensures old(Agrees()) ==> Agrees()
      ensures old(Agrees()) ==> CriterionOutcome(CriterionStep(old(criteria.Values()), unnamed, u, ctx), r, criteria.Values(), next)
      ensures Value() == old(Value()).(criteria := criteria.Values())
    {
      hide Scan, CriterionStep, CriterionOf, PositionOf, KeyedList.Agrees, NamedAgree, CriterionOutcome, KeyedList.HoldsAt;
      r, next := ApplyCriterion(criteria, unnamed, u, ctx);
    }

    method ApplyToCriteria(u: Update, ctx: C.Context) returns (r: Result<(), Error>)
      requires Valid()
      modifies this, criteria, criteria.Cells()
      ensures Valid() && fresh(criteria.Cells() - old(criteria.Cells()))
      ensures old(Agrees()) ==> Agrees()
      ensures old(Agrees()) ==>
        CriterionOutcome(CriterionStep(old(criteria.Values()), old(unnamed), u, ctx), r, criteria.Values(), unnamed)
      ensures Value() == old(Value()).(criteria := criteria.Values(), unnamed := unnamed)
    {
      hide Apart, Agrees, CriterionStep, PositionOf, KeyedList.Agrees, KeyedList.Rep, KeyedList.Values, NamedAgree, CriterionOutcome, KeyedList.HoldsAt, Positions;
      ghost var next;
      r, next := EditCriteria(u, ctx);
      unnamed := next;
    }

    method ApplyToRoles(u: Update, ctx: C.Context) returns (r: Result<(), Error>)
      requires Valid()
      modifies roles, roles.Cells()
      ensures Valid() && fresh(roles.Cells() - old(roles.Cells()))
      ensures old(Agrees()) ==> Agrees() && ListOutcome(RoleStep(old(roles.Values()), u, ctx), r, roles.Values())
      ensures Value() == old(Value()).(roles := roles.Values())
    {
      hide Scan, RoleStep, KeyedList.HoldsAt, KeyedList.Agrees, KeyedList.Rep, KeyedList.Values, NamedAgree, Positions, ListOutcome;
      r := ApplyRole(roles, u, ctx);
    }

    method EditDecisions(u: Update, ctx: C.Context)
      returns (r: Result<(), Error>, nextGates: map<string, Cell<Fields>>, ghost positions: map<string, nat>)
      requires Valid()
      modifies decisions, decisions.Cells()
      ensures Apart() && Positions(decisions.items, nextGates, positions) && fresh(decisions.Cells() - old(decisions.Cells()))
      ensures old(Agrees()) ==> Agrees()
      ensures old(Agrees()) ==> DecisionOutcome(DecisionStep(old(decisions.Values()), gates, u, ctx), r, decisions.Values(), positions)
      ensures Value() == old(Value()).(decisions := decisions.Values())
    {
      hide Scan, DecisionStep, PositionOf, KeyedList.HoldsAt, KeyedList.Agrees, KeyedList.Rep, KeyedList.Values, NamedAgree, Positions, DecisionOutcome;
      r, nextGates, positions := ApplyDecision(decisions, byGate, gates, u, ctx);
    }

    method ApplyToDecisions(u: Update, ctx: C.Context) returns (r: Result<(), Error>)
      requires Valid()
      modifies this, decisions, decisions.Cells()
      ensures Valid() && fresh(decisions.Cells() - old(decisions.Cells()))
      ensures old(Agrees()) ==> Agrees()
      ensures old(Agrees()) ==> DecisionOutcome(DecisionStep(old(decisions.Values()), old(gates), u, ctx), r, decisions.Values(), gates)
      ensures Value() == old(Value()).(decisions := decisions.Values(), gates := gates)
    {
      hide Apart, Agrees, DecisionStep, PositionOf, KeyedList.HoldsAt, KeyedList.Agrees, KeyedList.Rep, KeyedList.Values, NamedAgree, Positions, DecisionOutcome;
      ghost var positions;
      r, byGate, positions := EditDecisions(u, ctx);
      gates := positions;
    }

    method ApplyToWaivers(u: Update, ctx: C.Context) returns (r: Result<(), Error>)
      requires Valid()
      modifies waivers, waivers.Cells()
      ensures Valid() && fresh(waivers.Cells() - old(waivers.Cells()))
      ensures old(Agrees()) ==> Agrees() && ListOutcome(ExceptionStep(WaiverKind, old(waivers.Values()), u, ctx), r, waivers.Values())
      ensures Value() == old(Value()).(waivers := waivers.Values())
    {
      hide Scan, ExceptionStep, KeyedList.HoldsAt, KeyedList.Agrees, NamedAgree;
      r := ApplyException(WaiverKind, waivers, u, ctx);
    }

    method ApplyToControls(u: Update, ctx: C.Context) returns (r: Result<(), Error>)
      requires Valid()
      modifies controls, controls.Cells()
      ensures Valid() && fresh(controls.Cells() - old(controls.Cells()))
      ensures old(Agrees()) ==> Agrees() && ListOutcome(ExceptionStep(ControlKind, old(controls.Values()), u, ctx), r, controls.Values())
      ensures Value() == old(Value()).(controls := controls.Values())
    {
      hide Scan, ExceptionStep, KeyedList.HoldsAt, KeyedList.Agrees, NamedAgree;
      r := ApplyException(ControlKind, controls, u, ctx);
    }

    /** An update of the decisions or the exceptions. */
    method ApplyToGovernance(u: Update, ctx: C.Context) returns (r: Result<(), Error>)
      requires Valid() && PartOf(u) != CriterionPart && PartOf(u) != RolePart
      modifies Footprint()
      ensures Valid() && fresh(Footprint() - old(Footprint()))
      ensures old(Agrees()) ==> Agrees() && Outcome(Step(old(Value()), u, ctx), r, Value())
    {
      hide Valid, Apart, CriterionStep, RoleStep, DecisionStep, ExceptionStep, PartOf, CriterionOf, Agrees, Scan, Positions, GatePositions;
      hide KeyedList.Rep, KeyedList.Values, KeyedList.Agrees, KeyedList.HoldsAt, NamedAgree;
      match PartOf(u)
      case DecisionPart => r := ApplyToDecisions(u, ctx);
      case WaiverPart => r := ApplyToWaivers(u, ctx);
      case ControlPart => r := ApplyToControls(u, ctx);
      case _ => r := Failure(Unsupported);
    }

    /** One update. Agreement of every index is kept by every update, accepted or not, and
        the update does what the same update does over scans. */
    method Apply(u: Update, ctx: C.Context) returns (r: Result<(), Error>)
      requires Valid()
      modifies Footprint()
      ensures Valid() && fresh(Footprint() - old(Footprint()))
      ensures old(Agrees()) ==> Agrees()
      ensures old(Agrees()) ==> Outcome(Step(old(Value()), u, ctx), r, Value())
    {
      hide Valid, Apart, CriterionStep, RoleStep, DecisionStep, ExceptionStep, PartOf, CriterionOf, Agrees, Scan, Positions, GatePositions;
      hide KeyedList.Rep, KeyedList.Values, KeyedList.Agrees, KeyedList.HoldsAt, NamedAgree;
      match PartOf(u)
      case CriterionPart => r := ApplyToCriteria(u, ctx);
      case RolePart => r := ApplyToRoles(u, ctx);
      case _ => r := ApplyToGovernance(u, ctx);
    }
  }

  /** The instance ended as wanted, or the wanted error was reported. */
  ghost predicate Outcome(want: Result<InstanceValue, Error>, r: Result<(), Error>, now: InstanceValue) {
    match want
    case Failure(error) => r == Failure(error)
    case Success(v) => r == Success(()) && now == v
  }

  function Run(v: InstanceValue, updates: seq<Update>, ctx: C.Context): (r: Result<InstanceValue, Error>)
    requires InRange(v)
    ensures r.Success? ==> InRange(r.value)
  {
    if updates == [] then Success(v)
    else
      var w :- Run(v, updates[..|updates| - 1], ctx);
      StepKeepsPositions(w, updates[|updates| - 1], ctx);
      Step(w, updates[|updates| - 1], ctx)
  }

  lemma StepKeepsPositions(v: InstanceValue, u: Update, ctx: C.Context)
    requires InRange(v)
    ensures Step(v, u, ctx).Success? ==> InRange(Step(v, u, ctx).value)
  {
    hide Scan, EditFields, EditCriterion, NewDecisionFields, RoleStep, ExceptionStep;
  }

  /** The three lists that are keyed by id, copied. */
  method CopyIdLists(decisions: seq<Fields>, waivers: seq<Fields>, controls: seq<Fields>)
    returns (ds: KeyedList<string, Fields>, ws: KeyedList<string, Fields>, xs: KeyedList<string, Fields>)
    ensures fresh(ds) && fresh(ws) && fresh(xs) && ds != ws && ds != xs && ws != xs
    ensures fresh(ds.Cells()) && fresh(ws.Cells()) && fresh(xs.Cells()) && ds.Cells() !! ws.Cells() !! xs.Cells()
    ensures ds.Rep() && ds.keyOf == IdKey && ds.Agrees() && ds.Values() == decisions
    ensures ws.Rep() && ws.keyOf == IdKey && ws.Agrees() && ws.Values() == waivers
    ensures xs.Rep() && xs.keyOf == IdKey && xs.Agrees() && xs.Values() == controls
  {
    hide Scan, KeyedList.Agrees, KeyedList.Rep, KeyedList.Values;
    ds := new KeyedList(IdKey, decisions);
    ws := new KeyedList(IdKey, waivers);
    xs := new KeyedList(IdKey, controls);
  }

  method CopyMappings(criteria: seq<Criterion>, roles: seq<Fields>)
    returns (cs: KeyedList<string, Criterion>, rs: KeyedList<(string, string), Fields>)
    ensures fresh(cs) && fresh(rs) && fresh(cs.Cells()) && fresh(rs.Cells()) && cs.Cells() !! rs.Cells()
    ensures cs.Rep() && cs.keyOf == CriterionKey && NamedAgree(cs) && "" !in cs.index && cs.Values() == criteria
    ensures rs.Rep() && rs.keyOf == RoleKey && rs.Agrees() && rs.Values() == roles
  {
    hide Scan, KeyedList.Agrees, NamedAgree, KeyedList.Rep, KeyedList.Values;
    cs := new KeyedList(CriterionKey, criteria);
    NamedAgreeIfAgrees(cs);
    NoEmptyName(cs);
    rs := new KeyedList(RoleKey, roles);
  }

  /** All five lists, copied. */
  method CopyLists(source: InstanceValue)
    returns (cs: KeyedList<string, Criterion>, rs: KeyedList<(string, string), Fields>,
             ds: KeyedList<string, Fields>, ws: KeyedList<string, Fields>, xs: KeyedList<string, Fields>)
    ensures fresh(cs) && fresh(rs) && fresh(ds) && fresh(ws) && fresh(xs) && ds != ws && ds != xs && ws != xs
    ensures fresh(cs.Cells()) && fresh(rs.Cells()) && fresh(ds.Cells()) && fresh(ws.Cells()) && fresh(xs.Cells())
    ensures cs.Cells() !! rs.Cells() && ds.Cells() !! ws.Cells() !! xs.Cells()
    ensures cs.Cells() + rs.Cells() !! ds.Cells() + ws.Cells() + xs.Cells()
    ensures cs.Rep() && cs.keyOf == CriterionKey && NamedAgree(cs) && "" !in cs.index && cs.Values() == source.criteria
    ensures rs.Rep() && rs.keyOf == RoleKey && rs.Agrees() && rs.Values() == source.roles
    ensures ds.Rep() && ds.keyOf == IdKey && ds.Agrees() && ds.Values() == source.decisions
    ensures ws.Rep() && ws.keyOf == IdKey && ws.Agrees() && ws.Values() == source.waivers
    ensures xs.Rep() && xs.keyOf == IdKey && xs.Agrees() && xs.Values() == source.controls
  {
    hide Scan, KeyedList.Agrees, NamedAgree, KeyedList.Rep, KeyedList.Values;
    cs, rs := CopyMappings(source.criteria, source.roles);
    ghost var mappings := cs.Cells() + rs.Cells();
    ds, ws, xs := CopyIdLists(source.decisions, source.waivers, source.controls);
    assert mappings !! ds.Cells() + ws.Cells() + xs.Cells();
  }

  /** A copy of an instance, sharing nothing with it. */
  method CopyInstance(source: InstanceValue) returns (i: Instance)
    ensures i.Valid() && i.Agrees() && fresh(i.Footprint())
    ensures i.Value() == source.(gates := GatePositions(source.decisions), unnamed := None)
  {
    hide Scan, KeyedList.Agrees, NamedAgree, GatePositions, Positions, KeyedList.Rep, KeyedList.Values, Instance.Valid, Instance.Value, KeyedList.HoldsAt, Instance.Apart;
    var cs, rs, ds, ws, xs := CopyLists(source);
    hide KeyedList.Cells;
    i := new Instance(cs, rs, ds, ws, xs);
  }

  /** The loop over a proposal's updates, stopping at the first that is refused. */
  method ApplyAll(i: Instance, updates: seq<Update>, ctx: C.Context) returns (r: Result<(), Error>)
    requires i.Valid() && i.Agrees()
    modifies i.Footprint()
    ensures i.Valid() && i.Agrees() && fresh(i.Footprint() - old(i.Footprint()))
    ensures Outcome(Run(old(i.Value()), updates, ctx), r, i.Value())
  {
    hide Step, Run, InRange, Outcome, Instance.Agrees, Instance.Valid, Instance.Value, Instance.Apart, Instance.Footprint;
    ghost var start, owned := i.Value(), i.Footprint();
    i.PositionsAreInRange();
    RunNothing(start, ctx);
    for n := 0 to |updates|
      invariant i.Valid() && i.Agrees() && fresh(i.Footprint() - owned)
      invariant Run(start, updates[..n], ctx) == Success(i.Value())
    {
      ghost var before := i.Value();
      i.PositionsAreInRange();
      ghost var reached := i.Footprint();
      r := i.Apply(updates[n], ctx);
      assert forall o: object :: old(allocated(o)) && o in i.Footprint() ==> o in reached;
      RunOutcome(start, updates, n, before, r, i.Value(), ctx);
      if r.Failure? {
        return;
      }
    }
    assert updates[..|updates|] == updates;
    r := Success(());
    Accepted(i.Value());
  }

  lemma Accepted(v: InstanceValue)
    ensures Outcome(Success(v), Success(()), v)
  {
  }

  lemma RunOutcome(
    start: InstanceValue, updates: seq<Update>, n: nat, before: InstanceValue, r: Result<(), Error>, now: InstanceValue, ctx: C.Context)
    requires InRange(start) && InRange(before) && n < |updates|
    requires Run(start, updates[..n], ctx) == Success(before) && Outcome(Step(before, updates[n], ctx), r, now)
    ensures r.Success? ==> Run(start, updates[..n + 1], ctx) == Success(now)
    ensures r.Failure? ==> Outcome(Run(start, updates, ctx), r, now)
  {
    hide Step, Run, InRange;
    RunStep(start, updates, n, ctx);
  }

  lemma RunNothing(v: InstanceValue, ctx: C.Context)
    requires InRange(v)
    ensures Run(v, [], ctx) == Success(v)
  {
  }

  /** One more update: the run does the step, and a refused step ends the run. */
  lemma RunStep(v: InstanceValue, updates: seq<Update>, n: nat, ctx: C.Context)
    requires InRange(v) && n < |updates|
    ensures
      var before := Run(v, updates[..n], ctx);
      before.Success? ==>
        && Run(v, updates[..n + 1], ctx) == Step(before.value, updates[n], ctx)
        && (Step(before.value, updates[n], ctx).Failure? ==> Run(v, updates, ctx) == Step(before.value, updates[n], ctx))
  {
    hide Step;
    assert updates[..n + 1][..n] == updates[..n];
    if Run(v, updates[..n + 1], ctx).Failure? {
      RunFails(v, updates, n, ctx);
    }
  }

  /** A whole proposal over a copy of the instance: whatever the updates are, when the
      run is accepted every index still agrees with a linear scan of its list. */
  method ApplyInstanceUpdates(source: InstanceValue, updates: seq<Update>, ctx: C.Context) returns (r: Result<Instance, Error>)
    ensures r.Success? ==> r.value.Valid() && r.value.Agrees()
    ensures
      match Run(source.(gates := GatePositions(source.decisions), unnamed := None), updates, ctx)
      case Failure(error) => r == Failure(error)
      case Success(v) => r.Success? && r.value.Value() == v
  {
    hide Run, Instance.Agrees, Instance.Value, Instance.Valid, Instance.Footprint, GatePositions;
    var i := CopyInstance(source);
    var done := ApplyAll(i, updates, ctx);
    r := if done.Success? then Success(i) else Failure(done.error);
  }

  lemma {:induction false} RunFails(v: InstanceValue, updates: seq<Update>, n: nat, ctx: C.Context)
    requires InRange(v)
    requires n < |updates| && Run(v, updates[..n + 1], ctx).Failure?
    ensures Run(v, updates, ctx) == Run(v, updates[..n + 1], ctx)
  {
    if n + 1 == |updates| {
      assert updates[..n + 1] == updates;
    } else {
      var front := updates[..|updates| - 1];
      assert front[..n + 1] == updates[..n + 1];
      RunFails(v, front, n, ctx);
    }
  }

  // ----- Keys over a whole run ------------------------------------------------------------------

  ghost predicate AllKeysDistinct(v: InstanceValue) {
    && DistinctKeys(CriterionKey, v.criteria) && DistinctKeys(RoleKey, v.roles)
    && DistinctKeys(IdKey, v.decisions) && DistinctKeys(IdKey, v.waivers) && DistinctKeys(IdKey, v.controls)
  }

  lemma DecisionKeysStay(vals: seq<Fields>, gates: map<string, nat>, u: Update, ctx: C.Context)
    requires forall g :: g in gates ==> gates[g] < |vals|
    requires DistinctKeys(IdKey, vals)
    ensures DecisionStep(vals, gates, u, ctx).Success? ==> DistinctKeys(IdKey, DecisionStep(vals, gates, u, ctx).value.0)
  {
    hide Scan, EditFields, BlankDecision;
    DecisionFacts(u, ctx);
    DecisionIdIsNamed(u);
  }

  lemma CriterionKeysStay(vals: seq<Criterion>, unnamed: Option<nat>, u: Update, ctx: C.Context)
    requires unnamed.Some? ==> unnamed.value < |vals|
    requires DistinctKeys(CriterionKey, vals)
    ensures
      var r := CriterionStep(vals, unnamed, u, ctx);
      r.Success? ==> DistinctKeys(CriterionKey, r.value.0)
  {
    hide Scan, EditCriterion, UpsertedAt, CriterionOf;
    EditsKeepCriterionKey(u, ctx);
    var k := CriterionOf(u);
    if k.Success? {
      UpsertAtKeepsKeys(
        CriterionKey, vals, CriterionAt(vals, unnamed, k.value), u.op.AddMapping?,
        Success(Criterion(k.value, [], map[])), EditCriterion(u, ctx));
    }
  }

  lemma StepKeepsKeysDistinct(v: InstanceValue, u: Update, ctx: C.Context)
    requires InRange(v) && AllKeysDistinct(v)
    ensures Step(v, u, ctx).Success? ==> AllKeysDistinct(Step(v, u, ctx).value)
  {
    match PartOf(u)
    case CriterionPart => CriterionKeysStay(v.criteria, v.unnamed, u, ctx);
    case RolePart =>
      EditsKeepRoleKey(u, ctx);
      var k := RoleOf(u);
      if k.Success? {
        UpsertKeepsKeys(RoleKey, v.roles, k.value, u.op.AddMapping?, Success(BlankRole(u, k.value)), EditFields(u, ROLE_FIELDS, ctx));
      }
    case DecisionPart => DecisionKeysStay(v.decisions, v.gates, u, ctx);
    case WaiverPart => ExceptionKeysStay(WaiverKind, v.waivers, u, ctx);
    case ControlPart => ExceptionKeysStay(ControlKind, v.controls, u, ctx);
    case NoPart =>
  }

  lemma ExceptionKeysStay(kind: ExceptionKind, vals: seq<Fields>, u: Update, ctx: C.Context)
    requires DistinctKeys(IdKey, vals)
    ensures ExceptionStep(kind, vals, u, ctx).Success? ==> DistinctKeys(IdKey, ExceptionStep(kind, vals, u, ctx).value)
  {
    ExceptionFacts(kind, u, ctx);
    hide BlankException, EditFields, Upserted, IdKey;
    var k := IdOf(kind, u);
    if k.Success? {
      UpsertKeepsKeys(IdKey, vals, k.value, u.op.AddWaiver? || u.op.AddControl?, BlankException(u, k.value), EditFields(u, FieldsOf(kind), ctx));
    }
  }

  /** Keys that began distinct are distinct after any accepted run. */
  lemma {:induction false} RunKeepsKeysDistinct(v: InstanceValue, updates: seq<Update>, ctx: C.Context)
    requires InRange(v) && AllKeysDistinct(v)
    ensures Run(v, updates, ctx).Success? ==> AllKeysDistinct(Run(v, updates, ctx).value)
  {
    hide Step, AllKeysDistinct, InRange;
    if updates != [] {
      var front := updates[..|updates| - 1];
      RunKeepsKeysDistinct(v, front, ctx);
      if Run(v, front, ctx).Success? {
        StepKeepsKeysDistinct(Run(v, front, ctx).value, updates[|updates| - 1], ctx);
      }
    }
  }
}
