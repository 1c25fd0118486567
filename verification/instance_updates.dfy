/** Reviewed updates of an assurance instance: five lists, each edited through the
    dictionary that indexes it by its own key. */
module InstanceUpdates {
  import opened Wrappers
  import opened Sequences
  import opened Json
  import opened KeyedLists
  import C = CatalogUpdates

  datatype Error = AlreadyExists | MissingField(field: string) | BadMetadata | Unsupported

  // ----- Find or create, then edit --------------------------------------------------------

  /** No two entries with a key share it. */
  ghost predicate DistinctKeys<K(!new), T>(keyOf: T -> Option<K>, vals: seq<T>) {
    forall i, j :: 0 <= i < j < |vals| && keyOf(vals[i]).Some? ==> keyOf(vals[i]) != keyOf(vals[j])
  }

  /** Edit the entry at `p`, or append an edited blank one when `p` is negative. */
  function UpsertedAt<T>(vals: seq<T>, p: int, mustBeNew: bool, blank: Result<T, Error>, edit: T -> Result<T, Error>)
    : Result<seq<T>, Error>
    requires p < |vals|
  {
    if p >= 0 then
      if mustBeNew then Failure(AlreadyExists)
      else var v :- edit(vals[p]); Success(vals[p := v])
    else
      var b :- blank;
      var v :- edit(b);
      Success(vals + [v])
  }

  /** The same at the position where a linear scan finds key `k`. */
  function Upserted<K(==), T>(
    keyOf: T -> Option<K>, vals: seq<T>, k: K, mustBeNew: bool, blank: Result<T, Error>, edit: T -> Result<T, Error>)
    : Result<seq<T>, Error>
  {
    UpsertedAt(vals, Scan(keyOf, vals, k), mustBeNew, blank, edit)
  }

  ghost predicate KeepsKey<K(!new), T(!new)>(keyOf: T -> Option<K>, edit: T -> Result<T, Error>) {
    forall v :: edit(v).Success? ==> keyOf(edit(v).value) == keyOf(v)
  }

  /** The same through the index. Agreement survives at every key other than `k`, and
      at `k` too when the blank entry carries that key. */
  method Upsert<K(==, !new), T(!new)>(
    list: KeyedList<K, T>, k: K, mustBeNew: bool, blank: Result<T, Error>, edit: T -> Result<T, Error>)
    returns (r: Result<(), Error>)
    requires list.Rep() && KeepsKey(list.keyOf, edit)
    requires blank.Success? ==> list.keyOf(blank.value) == Some(k) || list.keyOf(blank.value) == None
    modifies list, list.Cells()
    ensures list.Rep() && fresh(list.Cells() - old(list.Cells()))
    ensures forall c :: c in old(list.items) ==> c in list.items
    ensures forall k' :: k' != k && old(list.AgreesAt(k')) ==> list.AgreesAt(k')
    ensures (blank.Success? ==> list.keyOf(blank.value) == Some(k)) && old(list.AgreesAt(k)) ==> list.AgreesAt(k)
    ensures old(list.AgreesAt(k)) ==>
      match Upserted(list.keyOf, old(list.Values()), k, mustBeNew, blank, edit)
      case Failure(error) => r == Failure(error) && list.Values() == old(list.Values())
      case Success(vals) => r == Success(()) && list.Values() == vals
    ensures forall p: int :: old(list.HoldsAt(k, p)) ==>
      && ListOutcome(UpsertedAt(old(list.Values()), p, mustBeNew, blank, edit), r, list.Values())
      && list.HoldsAt(k, if r.Success? && p < 0 then |old(list.items)| else p)
    ensures forall k', p: int :: k' != k && old(list.HoldsAt(k', p)) ==> list.HoldsAt(k', p)
  {
    hide Scan;
    if k in list.index {
      if mustBeNew {
        return Failure(AlreadyExists);
      }
      var cell := list.index[k];
      ghost var at :| 0 <= at < |list.items| && list.items[at] == cell;
      var v := edit(cell.value);
      if v.Failure? {
        return Failure(v.error);
      }
      list.Overwrite(cell, v.value, at);
    } else {
      if blank.Failure? {
        return Failure(blank.error);
      }
      var v := edit(blank.value);
      if v.Failure? {
        return Failure(v.error);
      }
      var _ := list.Append(v.value, Some(k));
    }
    r := Success(());
  }

  /** What an update reports and what it made of a list. */
  ghost predicate ListOutcome<T>(want: Result<seq<T>, Error>, r: Result<(), Error>, now: seq<T>) {
    match want
    case Failure(error) => r == Failure(error)
    case Success(vals) => r == Success(()) && now == vals
  }

  /** Wherever the entry is, keys that were distinct stay distinct, no entry is lost or
      moved, and only the entry at that position may change. */
  lemma UpsertAtKeepsKeys<K(!new), T(!new)>(
    keyOf: T -> Option<K>, vals: seq<T>, p: int, mustBeNew: bool, blank: Result<T, Error>, edit: T -> Result<T, Error>)
    requires p < |vals| && KeepsKey(keyOf, edit) && DistinctKeys(keyOf, vals)
    requires p < 0 && blank.Success? && keyOf(blank.value).Some? ==>
      forall i :: 0 <= i < |vals| ==> keyOf(vals[i]) != keyOf(blank.value)
    ensures
      match UpsertedAt(vals, p, mustBeNew, blank, edit)
      case Failure(_) => true
      case Success(ws) =>
        && DistinctKeys(keyOf, ws)
        && |vals| <= |ws| <= |vals| + 1
        && (forall i :: 0 <= i < |vals| ==> keyOf(ws[i]) == keyOf(vals[i]))
        && (forall i :: 0 <= i < |vals| && i != p ==> ws[i] == vals[i])
  {
  }

  /** Keys that were distinct stay distinct, no entry is lost or moved, and only the
      entry under `k` may change. */
  lemma UpsertKeepsKeys<K(!new), T(!new)>(
    keyOf: T -> Option<K>, vals: seq<T>, k: K, mustBeNew: bool, blank: Result<T, Error>, edit: T -> Result<T, Error>)
    requires KeepsKey(keyOf, edit) && DistinctKeys(keyOf, vals)
    requires blank.Success? ==> keyOf(blank.value) == Some(k) || keyOf(blank.value) == None
    ensures
      match Upserted(keyOf, vals, k, mustBeNew, blank, edit)
      case Failure(_) => true
      case Success(ws) =>
        && DistinctKeys(keyOf, ws)
        && |vals| <= |ws| <= |vals| + 1
        && (forall p :: 0 <= p < |vals| ==> keyOf(ws[p]) == keyOf(vals[p]))
        && (forall p :: 0 <= p < |vals| && keyOf(vals[p]) != Some(k) ==> ws[p] == vals[p])
  {
    hide Scan;
  }

  // ----- Requirements of a criterion ---------------------------------------------------------

  /** What makes two requirements the same. */
  function Identity(r: Fields): (Json, Json, Json, Json, Json) {
    (Get(r, "type"), Get(r, "ref"), Get(r, "ruleset"), Get(r, "row"), Get(r, "evidence"))
  }

  ghost predicate DistinctIdentities(rs: seq<Fields>) {
    forall i, j :: 0 <= i < j < |rs| ==> Identity(rs[i]) != Identity(rs[j])
  }

  predicate HasIdentity(rs: seq<Fields>, r: Fields) {
    exists i :: 0 <= i < |rs| && Identity(rs[i]) == Identity(r)
  }

  function AppendedUnique(rs: seq<Fields>, r: Fields): seq<Fields> {
    if HasIdentity(rs, r) then rs else rs + [r]
  }

  method AppendUniqueRequirement(rs: seq<Fields>, r: Fields) returns (out: seq<Fields>)
    ensures out == AppendedUnique(rs, r)
  {
    for n := 0 to |rs|
      invariant forall i :: 0 <= i < n ==> Identity(rs[i]) != Identity(r)
    {
      if Identity(rs[n]) == Identity(r) {
        return rs;
      }
    }
    out := rs + [r];
  }

  function AppendedAll(rs: seq<Fields>, more: seq<Fields>): seq<Fields> {
    if more == [] then rs
    else AppendedUnique(AppendedAll(rs, more[..|more| - 1]), more[|more| - 1])
  }

  /** Appending never duplicates an identity, keeps what was there in place, and leaves
      every requested identity present. */
  lemma {:induction false} AppendingKeepsIdentities(rs: seq<Fields>, more: seq<Fields>)
    ensures DistinctIdentities(rs) ==> DistinctIdentities(AppendedAll(rs, more))
    ensures rs <= AppendedAll(rs, more)
    ensures forall r :: r in more ==> HasIdentity(AppendedAll(rs, more), r)
  {
    if more != [] {
      var front, last := more[..|more| - 1], more[|more| - 1];
      assert more == front + [last];
      AppendingKeepsIdentities(rs, front);
      var mid, end := AppendedAll(rs, front), AppendedAll(rs, more);
      assert mid <= end;
      forall r | r in more ensures HasIdentity(end, r) {
        if r == last {
          if !HasIdentity(mid, last) {
            assert end[|mid|] == last;
          }
        }
        if HasIdentity(mid, r) {
          var i :| 0 <= i < |mid| && Identity(mid[i]) == Identity(r);
          assert end[i] == mid[i];
        }
      }
    }
  }

  /** Appending the same requirements again changes nothing. */
  lemma {:induction false} AppendingIsIdempotent(rs: seq<Fields>, more: seq<Fields>)
    requires forall r :: r in more ==> HasIdentity(rs, r)
    ensures AppendedAll(rs, more) == rs
  {
    if more != [] {
      assert more[|more| - 1] in more && forall r :: r in more[..|more| - 1] ==> r in more;
      AppendingIsIdempotent(rs, more[..|more| - 1]);
    }
  }

  /** A proposed requirement needs a type and something to refer to. */
  function RequirementOf(item: Fields): Result<Fields, Error> {
    var ref :=
      if Truthy(Get(item, "ref")) then Get(item, "ref")
      else if Truthy(Get(item, "id")) then Get(item, "id")
      else if Truthy(Get(item, "evidence")) then Get(item, "evidence")
      else Get(item, "row");
    if !Truthy(Get(item, "type")) then Failure(MissingField("type"))
    else if !Truthy(ref) then Failure(MissingField("ref"))
    else
      Success(map["type" := Get(item, "type"), "ref" := ref]
        + (map k | k in {"ruleset", "row", "evidence"} && Truthy(Get(item, k)) :: item[k]))
  }

  function RequirementsOf(items: seq<Fields>): Result<seq<Fields>, Error> {
    if items == [] then Success([])
    else
      var r :- RequirementsOf(items[..|items| - 1]);
      var x :- RequirementOf(items[|items| - 1]);
      Success(r + [x])
  }

  // ----- Updates ------------------------------------------------------------------------------

  datatype Operation =
    | AddMapping | UpdateMapping
    | AddDecision | UpdateDecision
    | AddWaiver | UpdateWaiver
    | AddControl | UpdateControl
    | OtherOperation

  /** `proposed_fields`: the identifying fields, "" when absent, and the fields to copy. */
  datatype Proposed = Proposed(
    id: string, criterion: string, criterionId: string,
    gate: string, gateId: string, role: string, roleId: string, target: string,
    requirements: Option<seq<Fields>>,
    appendRequirements: seq<Fields>,
    fields: Fields)

  datatype Target = Target(kind: string, id: string, ruleset: string, row: string)

  datatype Update = Update(op: Operation, target: Target, proposed: Proposed, review: C.Review)

  datatype Criterion = Criterion(criterion: string, requirements: seq<Fields>, others: Fields)

  function CriterionKey(c: Criterion): Option<string> {
    if c.criterion != "" then Some(c.criterion) else None
  }

  function TextOf(f: Fields, key: string): string {
    match Get(f, key) case Str(s) => s case _ => ""
  }

  function IdKey(f: Fields): Option<string> {
    if TextOf(f, "id") != "" then Some(TextOf(f, "id")) else None
  }

  function RoleKey(f: Fields): Option<(string, string)> {
    if TextOf(f, "gate") != "" && TextOf(f, "role") != "" then Some((TextOf(f, "gate"), TextOf(f, "role"))) else None
  }

  function CriterionOf(u: Update): Result<string, Error> {
    if u.proposed.criterion != "" then Success(u.proposed.criterion)
    else if u.target.kind == "criterion" then Success(u.target.id)
    else if u.proposed.criterionId != "" then Success(u.proposed.criterionId)
    else Failure(MissingField("criterion"))
  }

  function RoleOf(u: Update): Result<(string, string), Error> {
    var gate := Or(u.proposed.gate, u.proposed.gateId);
    var role := Or(u.proposed.role, u.proposed.roleId);
    var role' := if u.target.kind == "role" then Or(role, u.target.id) else role;
    var gate' := if u.target.kind == "gate" then Or(gate, u.target.id) else gate;
    if gate' == "" || role' == "" then Failure(MissingField("gate and role")) else Success((gate', role'))
  }

  function GateOf(u: Update): string {
    Or(Or(u.proposed.gate, u.proposed.gateId), if u.target.kind == "gate" then u.target.id else "")
  }

  function DecisionId(u: Update): Result<string, Error> {
    if u.proposed.id != "" then Success(u.proposed.id)
    else if u.target.kind == "decision" && u.target.id != "" then Success(u.target.id)
    else if GateOf(u) != "" then Success("DEC-" + GateOf(u))
    else Failure(MissingField("id"))
  }

  function Dashed(s: string): string {
    if s == "" then "" else [if s[0] == ':' || s[0] == '/' then '-' else s[0]] + Dashed(s[1..])
  }

  function ExceptionId(u: Update, kind: string, prefix: string): Result<string, Error> {
    if u.proposed.id != "" then Success(u.proposed.id)
    else if u.target.id == "" then Failure(MissingField("id"))
    else if u.target.kind == kind then Success(u.target.id)
    else Success(prefix + "-" + Dashed(u.target.id))
  }

  function ExceptionTarget(u: Update): Result<string, Error> {
    if u.proposed.target != "" then Success(u.proposed.target)
    else if u.target.kind == "ruleset_row" && u.target.ruleset != "" && u.target.row != "" then
      Success(u.target.ruleset + ":" + u.target.row)
    else if u.target.id != "" then Success(u.target.id)
    else Failure(MissingField("target"))
  }

  /** `for key in keys: if key in proposed: entry[key] = proposed[key]`. */
  function Copied(f: Fields, keys: seq<string>, proposed: Fields): (r: Fields)
    ensures forall k :: k !in keys ==> Get(r, k) == Get(f, k)
  {
    if keys == [] then f
    else
      var front, k := keys[..|keys| - 1], keys[|keys| - 1];
      assert keys == front + [k];
      var r := Copied(f, front, proposed);
      if k in proposed then r[k := proposed[k]] else r
  }

  const ROLE_FIELDS: seq<string> := ["party", "approval_status", "approval_ref", "notes"]
  const DECISION_FIELDS: seq<string> := ["gate", "readiness_status", "decided_by", "decided_at", "notes"]
  const WAIVER_FIELDS: seq<string> := [
    "target", "target_ref", "reason", "approval_status", "status_effect", "scope", "expires_at",
    "review_due_at", "approved_by", "approved_at", "signature_ref", "evidence_refs", "notes"]
  const CONTROL_FIELDS: seq<string> := [
    "target", "target_ref", "reason", "control_description", "approval_status", "status_effect", "scope",
    "expires_at", "review_due_at", "approved_by", "approved_at", "signature_ref", "evidence_refs", "notes"]

  function Reviewed(f: Fields, u: Update, ctx: C.Context): Result<Fields, Error> {
    match C.Stamp(f, u.review, ctx)
    case Success(g) => Success(g)
    case Failure(_) => Failure(BadMetadata)
  }

  function EditFields(u: Update, keys: seq<string>, ctx: C.Context): Fields -> Result<Fields, Error> {
    f => Reviewed(Copied(f, keys, u.proposed.fields), u, ctx)
  }

  /** The requirements an update leaves: a given list replaces, otherwise new ones are appended. */
  function NewRequirements(rs: seq<Fields>, p: Proposed): Result<seq<Fields>, Error> {
    match p.requirements
    case Some(items) => RequirementsOf(items)
    case None => var more :- RequirementsOf(p.appendRequirements); Success(AppendedAll(rs, more))
  }

  function EditedCriterion(c: Criterion, u: Update, ctx: C.Context): Result<Criterion, Error> {
    var rs :- NewRequirements(c.requirements, u.proposed);
    var others :- Reviewed(c.others, u, ctx);
    Success(Criterion(c.criterion, rs, others))
  }

  function EditCriterion(u: Update, ctx: C.Context): Criterion -> Result<Criterion, Error> {
    c => EditedCriterion(c, u, ctx)
  }

  function BlankRole(u: Update, key: (string, string)): Fields {
    map["gate" := Str(key.0), "role" := Str(key.1),
        "approval_status" := if "approval_status" in u.proposed.fields then u.proposed.fields["approval_status"] else Str("pending")]
  }

  function BlankDecision(u: Update, id: string): Result<Fields, Error> {
    if !Truthy(Get(u.proposed.fields, "readiness_status")) then Failure(MissingField("readiness_status"))
    else Success(map["id" := Str(id), "gate" := Str(GateOf(u)), "readiness_status" := u.proposed.fields["readiness_status"]])
  }

  function BlankException(u: Update, id: string): Result<Fields, Error> {
    var target :- ExceptionTarget(u);
    var reason := Get(u.proposed.fields, "reason");
    var status := Get(u.proposed.fields, "approval_status");
    Success(map[
      "id" := Str(id), "target" := Str(target),
      "reason" := if Truthy(reason) then reason else u.review.rationale,
      "approval_status" := if Truthy(status) then status else Str("pending")])
  }

  lemma ReviewKeeps(f: Fields, u: Update, ctx: C.Context, key: string)
    requires key != "metadata"
    ensures Reviewed(f, u, ctx).Success? ==> Get(Reviewed(f, u, ctx).value, key) == Get(f, key)
  {
  }

  lemma EditKeepsField(f: Fields, u: Update, keys: seq<string>, ctx: C.Context, key: string)
    requires key != "metadata" && key !in keys
    ensures
      var g := EditFields(u, keys, ctx)(f);
      g.Success? ==> Get(g.value, key) == Get(f, key)
  {
    hide Copied, Reviewed;
    ReviewKeeps(Copied(f, keys, u.proposed.fields), u, ctx, key);
  }

  lemma EditsKeepIdKey(u: Update, keys: seq<string>, ctx: C.Context)
    requires "id" !in keys
    ensures KeepsKey(IdKey, EditFields(u, keys, ctx))
  {
    hide EditFields;
    forall f | EditFields(u, keys, ctx)(f).Success? ensures IdKey(EditFields(u, keys, ctx)(f).value) == IdKey(f) {
      EditKeepsField(f, u, keys, ctx, "id");
    }
  }

  lemma EditsKeepRoleKey(u: Update, ctx: C.Context)
    ensures KeepsKey(RoleKey, EditFields(u, ROLE_FIELDS, ctx))
  {
    hide EditFields;
    NotRoleFields();
    forall f | EditFields(u, ROLE_FIELDS, ctx)(f).Success?
      ensures RoleKey(EditFields(u, ROLE_FIELDS, ctx)(f).value) == RoleKey(f)
    {
      EditKeepsField(f, u, ROLE_FIELDS, ctx, "gate");
      EditKeepsField(f, u, ROLE_FIELDS, ctx, "role");
    }
  }

  lemma NotRoleFields()
    ensures "gate" !in ROLE_FIELDS && "role" !in ROLE_FIELDS
  {
    assert |"gate"| == 4 && |"role"| == 4;
    assert forall i :: 0 <= i < |ROLE_FIELDS| ==> |ROLE_FIELDS[i]| > 4;
  }

  lemma NotIdFields()
    ensures "id" !in DECISION_FIELDS && "id" !in WAIVER_FIELDS && "id" !in CONTROL_FIELDS
  {
    assert |"id"| == 2;
    assert forall i :: 0 <= i < |DECISION_FIELDS| ==> |DECISION_FIELDS[i]| > 2;
    assert forall i :: 0 <= i < |WAIVER_FIELDS| ==> |WAIVER_FIELDS[i]| > 2;
    assert forall i :: 0 <= i < |CONTROL_FIELDS| ==> |CONTROL_FIELDS[i]| > 2;
  }
}
