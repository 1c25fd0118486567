/** Reviewed updates of an FR catalog or a compliance mapping pack: an in-place editor
    over lists of JSON objects and the id dictionaries that alias them. */
module CatalogUpdates {
  import opened Wrappers
  import opened Json
  import opened KeyedLists
  import opened Sequences
  import opened Grouping

  datatype Error = AlreadyExists(key: Json) | NotFound(key: Json) | NotAnObject | Unsupported

  datatype Review = Review(sourceBasis: Json, rationale: Json, confidence: Json)

  /** Who accepted the updates and when; `ownerOf` derives an FR's default owner. */
  datatype Context = Context(reviewer: string, reviewedAt: string, ownerOf: Fields -> string)

  function Id(f: Fields): Json {
    Get(f, "id")
  }

  /** `{entry.get("id"): entry for entry in list}` indexes every entry. */
  function IdKey(f: Fields): Option<Json> {
    Some(Id(f))
  }

  // ----- Edits of one entry ----------------------------------------------------------

  function Stamp(f: Fields, r: Review, ctx: Context): Result<Fields, Error> {
    var stamp := Obj([
      ("review_status", Str("accepted")),
      ("reviewed_by", Str(ctx.reviewer)),
      ("reviewed_at", Str(ctx.reviewedAt)),
      ("source_basis", r.sourceBasis),
      ("rationale", r.rationale),
      ("confidence", r.confidence)]);
    if "metadata" !in f then Success(f["metadata" := Obj([("config_update_review", stamp)])])
    else match f["metadata"]
      case Obj(members) => Success(f["metadata" := Obj(SetMember(members, "config_update_review", stamp))])
      case _ => Failure(NotAnObject)
  }

  datatype Kind = FrEntry | TbtEntry

  function Normalise(kind: Kind, f: Fields, ctx: Context): Fields {
    match kind
    case TbtEntry => if "compliance" in f then f else f["compliance" := Arr([])]
    case FrEntry =>
      var g := f - {"owner"};
      var h := if "lifecycle_status" in g then g else g["lifecycle_status" := Str("in_scope")];
      if Truthy(Get(h, "assignments")) then h
      else h["assignments" := Arr([Obj([
        ("party", Str(ctx.ownerOf(h))),
        ("responsibility", Str("owner")),
        ("source", Str("derived_from_category"))])])]
  }

  datatype Change =
    | Merge(kind: Kind, proposed: Fields, review: Review)
    | Retire(status: string, review: Review)
    | Replace(fields: Fields)
    | MarkStale(notes: Json)

  function Changed(c: Change, f: Fields, ctx: Context): Result<Fields, Error> {
    match c
    case Merge(kind, proposed, review) => Stamp(Normalise(kind, f + proposed, ctx), review, ctx)
    case Retire(status, review) => Stamp(f["lifecycle_status" := Str(status)], review, ctx)
    case Replace(fields) => Success(fields)
    case MarkStale(notes) => Success(f["review_status" := Str("stale")]["review_notes" := notes])
  }

  // ----- Edits of a list --------------------------------------------------------------

  datatype Edit =
    | Add(key: Json, entry: Result<Fields, Error>)
    | Update(key: Json, change: Change)

  /** What an edit makes of the list, found by a linear scan. An entry without any
      field counts as not found, as an empty dictionary is false. */
  function EditList(vals: seq<Fields>, e: Edit, ctx: Context): Result<seq<Fields>, Error> {
    var p := Scan(IdKey, vals, e.key);
    match e
    case Add(key, entry) =>
      if p >= 0 then Failure(AlreadyExists(key))
      else var f :- entry; Success(vals + [f])
    case Update(key, change) =>
      if p < 0 || vals[p] == map[] then Failure(NotFound(key))
      else var f :- Changed(change, vals[p], ctx); Success(vals[p := f])
  }

  /** The edit leaves the entry it touches under the id it was addressed by. */
  ghost predicate KeepsId(e: Edit) {
    match e
    case Add(key, entry) => entry.Success? ==> Id(entry.value) == key
    case Update(key, Merge(_, proposed, _)) => "id" in proposed ==> proposed["id"] == key
    case Update(key, Replace(fields)) => Id(fields) == key
    case Update(_, _) => true
  }

  lemma ChangedId(c: Change, f: Fields, key: Json, ctx: Context)
    requires Id(f) == key && f != map[]
    ensures Changed(c, f, ctx).Success? ==> (Id(Changed(c, f, ctx).value) == key <==> KeepsId(Update(key, c)))
  {
    match c
    case Merge(kind, proposed, review) =>
      var g := Normalise(kind, f + proposed, ctx);
      assert Id(g) == Id(f + proposed);
      assert Id(f + proposed) == if "id" in proposed then proposed["id"] else Id(f);
    case _ =>
  }

  /** The result of an edit, the values it leaves, and whether the index still agrees. */
  ghost predicate EditOutcome(was: seq<Fields>, e: Edit, ctx: Context, r: Result<(), Error>, now: seq<Fields>, agrees: bool) {
    match EditList(was, e, ctx)
    case Failure(error) => r == Failure(error)
    case Success(vals) => r == Success(()) && now == vals && (agrees <==> KeepsId(e))
  }

  // ----- Edits through a dictionary that may have fallen behind ------------------------------

  /** A list with the place that the dictionary holds for each of its keys. */
  datatype Placed = Placed(vals: seq<Fields>, places: map<Json, nat>)

  ghost predicate InPlace(l: Placed) {
    forall k :: k in l.places ==> l.places[k] < |l.vals|
  }

  /** What an edit makes of the list when the dictionary, right or wrong, says where. */
  function EditPlaced(l: Placed, e: Edit, ctx: Context): (r: Result<Placed, Error>)
    requires InPlace(l)
    ensures r.Success? ==> InPlace(r.value)
  {
    match e
    case Add(key, entry) =>
      if key in l.places then Failure(AlreadyExists(key))
      else var f :- entry; Success(Placed(l.vals + [f], l.places[key := |l.vals|]))
    case Update(key, change) =>
      if key !in l.places || l.vals[l.places[key]] == map[] then Failure(NotFound(key))
      else var f :- Changed(change, l.vals[l.places[key]], ctx); Success(l.(vals := l.vals[l.places[key] := f]))
  }

  ghost predicate PlacedOutcome(want: Result<Placed, Error>, r: Result<(), Error>, list: KeyedList<Json, Fields>)
    reads list, list.items
  {
    match want
    case Failure(error) => r == Failure(error)
    case Success(l) => r == Success(()) && list.Values() == l.vals && list.PlacedBy(l.places)
  }

  method AddEntry(list: KeyedList<Json, Fields>, key: Json, entry: Result<Fields, Error>, ctx: Context) returns (r: Result<(), Error>)
    requires list.Rep() && list.keyOf == IdKey
    modifies list
    ensures list.Rep() && fresh(list.Cells() - old(list.Cells()))
    ensures old(list.Agrees()) ==> EditOutcome(old(list.Values()), Add(key, entry), ctx, r, list.Values(), list.Agrees())
    ensures forall places :: old(list.PlacedBy(places)) ==>
      PlacedOutcome(EditPlaced(Placed(old(list.Values()), places), Add(key, entry), ctx), r, list)
  {
    hide Scan, PlacedIn;
    ghost var agreed := list.Agrees();
    assert agreed ==> list.AgreesAt(key);
    forall places | PlacedIn(list.items, list.index, places) ensures key in places <==> key in list.index {
      PlaceIsUnique(list.items, list.index, places, key);
    }
    ghost var items, index := list.items, list.index;
    if key in list.index {
      return Failure(AlreadyExists(key));
    }
    if entry.Failure? {
      return Failure(entry.error);
    }
    var c := list.Append(entry.value, Some(key));
    assert agreed && Id(entry.value) != key ==> !list.AgreesAt(key);
    forall places | PlacedIn(items, index, places) ensures PlacedIn(list.items, list.index, places[key := |items|]) {
      PlacesGrow(items, index, places, key, c);
    }
    r := Success(());
  }

  method ChangeEntry(list: KeyedList<Json, Fields>, key: Json, change: Change, ctx: Context) returns (r: Result<(), Error>)
    requires list.Rep() && list.keyOf == IdKey
    modifies list.Cells()
    ensures list.Rep() && list.Cells() == old(list.Cells())
    ensures old(list.Agrees()) ==> EditOutcome(old(list.Values()), Update(key, change), ctx, r, list.Values(), list.Agrees())
    ensures forall places :: old(list.PlacedBy(places)) ==>
      PlacedOutcome(EditPlaced(Placed(old(list.Values()), places), Update(key, change), ctx), r, list)
  {
    hide Scan, Changed, PlacedIn;
    ghost var agreed := list.Agrees();
    assert agreed ==> list.AgreesAt(key);
    forall places | PlacedIn(list.items, list.index, places)
      ensures key in places <==> key in list.index
      ensures key in list.index ==> places[key] < |list.items| && list.items[places[key]] == list.index[key]
    {
      PlaceIsUnique(list.items, list.index, places, key);
    }
    if key !in list.index || list.index[key].value == map[] {
      return Failure(NotFound(key));
    }
    var cell := list.index[key];
    ghost var at :| 0 <= at < |list.items| && list.items[at] == cell;
    var f := Changed(change, cell.value, ctx);
    if f.Failure? {
      return Failure(f.error);
    }
    if agreed {
      ChangedId(change, cell.value, key, ctx);
    }
    list.Overwrite(cell, f.value, at);
    assert agreed && Id(f.value) != key ==> !list.AgreesAt(key);
    r := Success(());
  }

  /** One edit carried out through the index. */
  method ApplyEdit(list: KeyedList<Json, Fields>, e: Edit, ctx: Context) returns (r: Result<(), Error>)
    requires list.Rep() && list.keyOf == IdKey
    modifies list, list.Cells()
    ensures list.Rep() && fresh(list.Cells() - old(list.Cells()))
    ensures old(list.Agrees()) ==> EditOutcome(old(list.Values()), e, ctx, r, list.Values(), list.Agrees())
    ensures forall places :: old(list.PlacedBy(places)) ==>
      PlacedOutcome(EditPlaced(Placed(old(list.Values()), places), e, ctx), r, list)
  {
    hide Scan, Changed, EditOutcome, PlacedOutcome, EditPlaced, KeyedList.Agrees, KeyedList.Values;
    match e {
      case Add(key, entry) => r := AddEntry(list, key, entry, ctx);
      case Update(key, change) => r := ChangeEntry(list, key, change, ctx);
    }
  }

  // ----- FR catalog updates -------------------------------------------------------------

  datatype FrOperation = AddFr | UpdateFr | DeprecateFr | AddTbt | UpdateTbt | DeprecateTbt | OtherOperation

  datatype FrUpdate = FrUpdate(op: FrOperation, frId: Json, tbtId: Json, proposed: Fields, review: Review)

  datatype CatalogValue = CatalogValue(frs: seq<Fields>, tbts: seq<Fields>)

  function NewTbt(u: FrUpdate): Fields {
    var f := map["id" := u.tbtId] + u.proposed;
    if "proves" in f then f else f["proves" := Arr([u.frId])]
  }

  /** Which list an update edits, and how. */
  function EditOf(u: FrUpdate, ctx: Context): Option<(Kind, Edit)> {
    match u.op
    case AddFr =>
      Some((FrEntry, Add(u.frId, Stamp(Normalise(FrEntry, map["id" := u.frId] + u.proposed, ctx), u.review, ctx))))
    case UpdateFr => Some((FrEntry, Update(u.frId, Merge(FrEntry, u.proposed, u.review))))
    case DeprecateFr => Some((FrEntry, Update(u.frId, Retire("retired", u.review))))
    case AddTbt =>
      Some((TbtEntry, Add(u.tbtId, Stamp(Normalise(TbtEntry, NewTbt(u), ctx), u.review, ctx))))
    case UpdateTbt => Some((TbtEntry, Update(u.tbtId, Merge(TbtEntry, u.proposed, u.review))))
    case DeprecateTbt => Some((TbtEntry, Update(u.tbtId, Retire("deprecated", u.review))))
    case OtherOperation => None
  }

  function Step(c: CatalogValue, u: FrUpdate, ctx: Context): Result<CatalogValue, Error> {
    match EditOf(u, ctx)
    case None => Failure(Unsupported)
    case Some((FrEntry, e)) => var frs :- EditList(c.frs, e, ctx); Success(c.(frs := frs))
    case Some((TbtEntry, e)) => var tbts :- EditList(c.tbts, e, ctx); Success(c.(tbts := tbts))
  }

  /** The first failing update decides; otherwise all of them apply in order. */
  function Run(c: CatalogValue, updates: seq<FrUpdate>, ctx: Context): Result<CatalogValue, Error> {
    if updates == [] then Success(c)
    else
      var d :- Run(c, updates[..|updates| - 1], ctx);
      Step(d, updates[|updates| - 1], ctx)
  }

  /** A catalog with the places its two id dictionaries hold. */
  datatype PlacedCatalog = PlacedCatalog(frs: Placed, tbts: Placed)

  ghost predicate AllInPlace(c: PlacedCatalog) {
    InPlace(c.frs) && InPlace(c.tbts)
  }

  function PlacedStep(c: PlacedCatalog, u: FrUpdate, ctx: Context): (r: Result<PlacedCatalog, Error>)
    requires AllInPlace(c)
    ensures r.Success? ==> AllInPlace(r.value)
  {
    match EditOf(u, ctx)
    case None => Failure(Unsupported)
    case Some((FrEntry, e)) => var frs :- EditPlaced(c.frs, e, ctx); Success(c.(frs := frs))
    case Some((TbtEntry, e)) => var tbts :- EditPlaced(c.tbts, e, ctx); Success(c.(tbts := tbts))
  }

  function PlacedRun(c: PlacedCatalog, updates: seq<FrUpdate>, ctx: Context): (r: Result<PlacedCatalog, Error>)
    requires AllInPlace(c)
    ensures r.Success? ==> AllInPlace(r.value)
  {
    if updates == [] then Success(c)
    else
      var d :- PlacedRun(c, updates[..|updates| - 1], ctx);
      PlacedStep(d, updates[|updates| - 1], ctx)
  }

  /** `{entry.get("id"): entry for entry in entries}`, by place. */
  function LastPlaces(vals: seq<Fields>): (r: map<Json, nat>)
    ensures forall k :: k in r ==> r[k] < |vals|
  {
    if vals == [] then map[]
    else LastPlaces(vals[..|vals| - 1])[Id(vals[|vals| - 1]) := |vals| - 1]
  }

  /** A catalog as it is read: every id dictionary holds the last entry of each id. */
  function PlacedAt(c: CatalogValue): (r: PlacedCatalog)
    ensures AllInPlace(r)
  {
    PlacedCatalog(Placed(c.frs, LastPlaces(c.frs)), Placed(c.tbts, LastPlaces(c.tbts)))
  }

  lemma {:induction false} LastPlacesScan(vals: seq<Fields>, key: Json)
    ensures key in LastPlaces(vals) <==> Scan(IdKey, vals, key) >= 0
    ensures key in LastPlaces(vals) ==> LastPlaces(vals)[key] == Scan(IdKey, vals, key)
  {
    if vals != [] {
      LastPlacesScan(vals[..|vals| - 1], key);
    }
  }

  lemma AgreementPlaces(list: KeyedList<Json, Fields>)
    requires list.keyOf == IdKey && list.Agrees()
    ensures list.PlacedBy(LastPlaces(list.Values()))
  {
    hide Scan, LastPlaces;
    forall k ensures k in LastPlaces(list.Values()) <==> k in list.index {
      LastPlacesScan(list.Values(), k);
      assert list.AgreesAt(k);
    }
    forall k | k in LastPlaces(list.Values())
      ensures LastPlaces(list.Values())[k] < |list.items| && list.items[LastPlaces(list.Values())[k]] == list.index[k]
    {
      LastPlacesScan(list.Values(), k);
      assert list.AgreesAt(k);
    }
  }

  /** The proposed fields of the update carry no `id` other than the addressed one. */
  predicate NoForeignId(u: FrUpdate) {
    match u.op
    case AddFr => "id" in u.proposed ==> u.proposed["id"] == u.frId
    case UpdateFr => "id" in u.proposed ==> u.proposed["id"] == u.frId
    case AddTbt => "id" in u.proposed ==> u.proposed["id"] == u.tbtId
    case UpdateTbt => "id" in u.proposed ==> u.proposed["id"] == u.tbtId
    case _ => true
  }

  lemma StampKeepsId(f: Fields, r: Review, ctx: Context)
    ensures Stamp(f, r, ctx).Success? ==> Id(Stamp(f, r, ctx).value) == Id(f)
  {
  }

  lemma EditKeepsId(u: FrUpdate, ctx: Context)
    requires EditOf(u, ctx).Some?
    ensures NoForeignId(u) ==> KeepsId(EditOf(u, ctx).value.1)
    ensures !NoForeignId(u) && (u.op.AddFr? || u.op.AddTbt? ==> EditOf(u, ctx).value.1.entry.Success?) ==>
      !KeepsId(EditOf(u, ctx).value.1)
  {
    if u.op.AddFr? {
      StampKeepsId(Normalise(FrEntry, map["id" := u.frId] + u.proposed, ctx), u.review, ctx);
    } else if u.op.AddTbt? {
      StampKeepsId(Normalise(TbtEntry, NewTbt(u), ctx), u.review, ctx);
    }
  }

  class FrCatalog {
    const frs: KeyedList<Json, Fields>
    const tbts: KeyedList<Json, Fields>

    ghost predicate Valid()
      reads frs, tbts
    {
      && frs != tbts && frs.Rep() && tbts.Rep() && frs.keyOf == IdKey && tbts.keyOf == IdKey
      && frs.Cells() !! tbts.Cells()
    }

    /** The id dictionaries and the lists denote the same entries. */
    ghost predicate Agrees()
      reads frs, tbts, frs.items, tbts.items
    {
      frs.Agrees() && tbts.Agrees()
    }

    /** The lists hold these entries, and the dictionaries hold them at these places. */
    ghost predicate Stands(c: PlacedCatalog)
      reads frs, tbts, frs.items, tbts.items
    {
      && frs.Values() == c.frs.vals && frs.PlacedBy(c.frs.places)
      && tbts.Values() == c.tbts.vals && tbts.PlacedBy(c.tbts.places)
    }

    lemma StandsInPlace(c: PlacedCatalog)
      requires Stands(c)
      ensures AllInPlace(c)
    {
    }

    function Value(): CatalogValue
      reads frs, tbts, frs.items, tbts.items
    {
      CatalogValue(frs.Values(), tbts.Values())
    }

    constructor (source: CatalogValue)
      ensures Valid() && Value() == source && Agrees()
      ensures fresh(frs) && fresh(tbts) && fresh(frs.Cells()) && fresh(tbts.Cells())
    {
      var fs := new KeyedList(IdKey, source.frs);
      var ts := new KeyedList(IdKey, source.tbts);
      frs := fs;
      tbts := ts;
    }

    /** An edit of the list of FRs; the list of TBTs is a separate one. */
    method ApplyToFrs(e: Edit, ctx: Context) returns (r: Result<(), Error>)
      requires Valid()
      modifies frs, frs.Cells()
      ensures Valid() && fresh(frs.Cells() - old(frs.Cells()))
      ensures tbts.Values() == old(tbts.Values()) && (old(tbts.Agrees()) ==> tbts.Agrees())
      ensures old(frs.Agrees()) ==> EditOutcome(old(frs.Values()), e, ctx, r, frs.Values(), frs.Agrees())
      ensures forall places :: old(tbts.PlacedBy(places)) ==> tbts.PlacedBy(places)
      ensures forall places :: old(frs.PlacedBy(places)) ==>
        PlacedOutcome(EditPlaced(Placed(old(frs.Values()), places), e, ctx), r, frs)
    {
      hide Scan, EditList, KeepsId, EditPlaced, PlacedOutcome;
      r := ApplyEdit(frs, e, ctx);
    }

    method ApplyToTbts(e: Edit, ctx: Context) returns (r: Result<(), Error>)
      requires Valid()
      modifies tbts, tbts.Cells()
      ensures Valid() && fresh(tbts.Cells() - old(tbts.Cells()))
      ensures frs.Values() == old(frs.Values()) && (old(frs.Agrees()) ==> frs.Agrees())
      ensures old(tbts.Agrees()) ==> EditOutcome(old(tbts.Values()), e, ctx, r, tbts.Values(), tbts.Agrees())
      ensures forall places :: old(frs.PlacedBy(places)) ==> frs.PlacedBy(places)
      ensures forall places :: old(tbts.PlacedBy(places)) ==>
        PlacedOutcome(EditPlaced(Placed(old(tbts.Values()), places), e, ctx), r, tbts)
    {
      hide Scan, EditList, KeepsId, EditPlaced, PlacedOutcome;
      r := ApplyEdit(tbts, e, ctx);
    }

    ghost predicate StandsAfter(want: Result<PlacedCatalog, Error>, r: Result<(), Error>)
      reads frs, tbts, frs.items, tbts.items
    {
      match want
      case Failure(error) => r == Failure(error)
      case Success(c) => r == Success(()) && Stands(c)
    }

    method Apply(u: FrUpdate, ctx: Context) returns (r: Result<(), Error>)
      requires Valid()
      modifies frs, tbts, frs.Cells(), tbts.Cells()
      ensures Valid()
      ensures fresh(frs.Cells() - old(frs.Cells())) && fresh(tbts.Cells() - old(tbts.Cells()))
      ensures old(Agrees()) ==>
        match Step(old(Value()), u, ctx)
        case Failure(error) => r == Failure(error)
        case Success(v) => r == Success(()) && Value() == v && (Agrees() <==> NoForeignId(u))
      ensures forall c :: old(Stands(c)) ==> StandsAfter(PlacedStep(c, u, ctx), r)
    {
      var edit := EditOf(u, ctx);
      if edit.None? {
        return Failure(Unsupported);
      }
      EditKeepsId(u, ctx);
      hide EditOf, EditList, KeepsId, NoForeignId, Scan;
      var (kind, e) := edit.value;
      if kind == FrEntry {
        r := ApplyToFrs(e, ctx);
      } else {
        r := ApplyToTbts(e, ctx);
      }
    }
  }

  /** Applies a proposal to a copy of the catalog. Nothing of `catalog` is modified and
      the result shares no entry with it. Whatever the updates carry, the result is the
      fold of the updates over lists and dictionary places; without foreign ids it is the
      fold over the lists alone, and the dictionaries still denote them. */
  method ApplyFrUpdates(catalog: FrCatalog, updates: seq<FrUpdate>, ctx: Context) returns (r: Result<FrCatalog, Error>)
    requires catalog.Valid()
    ensures r.Success? ==> r.value.Valid() && fresh(r.value) && fresh(r.value.frs) && fresh(r.value.tbts)
    ensures r.Success? ==> fresh(r.value.frs.Cells()) && fresh(r.value.tbts.Cells())
    ensures
      match PlacedRun(PlacedAt(catalog.Value()), updates, ctx)
      case Failure(error) => r == Failure(error)
      case Success(c) => r.Success? && r.value.Stands(c)
    ensures (forall u :: u in updates ==> NoForeignId(u)) ==>
      match Run(catalog.Value(), updates, ctx)
      case Failure(error) => r == Failure(error)
      case Success(v) => r.Success? && r.value.Value() == v && r.value.Agrees()
  {
    hide Step, NoForeignId, PlacedStep, PlacedAt, AllInPlace, FrCatalog.Stands, FrCatalog.Agrees, FrCatalog.Value, FrCatalog.Valid;
    var next := Copied(catalog);
    ghost var start, at := PlacedAt(catalog.Value()), PlacedAt(catalog.Value());
    RunsOfNothing(catalog.Value(), start, ctx);
    for n := 0 to |updates|
      invariant next.Valid() && fresh(next.frs) && fresh(next.tbts)
      invariant fresh(next.frs.Cells()) && fresh(next.tbts.Cells())
      invariant next.Stands(at) && PlacedRun(start, updates[..n], ctx) == Success(at)
      invariant (forall u :: u in updates ==> NoForeignId(u)) ==>
        Run(catalog.Value(), updates[..n], ctx) == Success(next.Value()) && next.Agrees()
    {
      next.StandsInPlace(at);
      RunsStep(catalog.Value(), start, updates, n, ctx);
      var step := next.Apply(updates[n], ctx);
      if step.Failure? {
        return Failure(step.error);
      }
      at := PlacedStep(at, updates[n], ctx).value;
    }
    assert updates[..|updates|] == updates;
    r := Success(next);
  }

  /** `deepcopy` and the two id dictionaries. */
  method Copied(catalog: FrCatalog) returns (next: FrCatalog)
    requires catalog.Valid()
    ensures next.Valid() && fresh(next) && fresh(next.frs) && fresh(next.tbts)
    ensures fresh(next.frs.Cells()) && fresh(next.tbts.Cells())
    ensures next.Value() == catalog.Value() && next.Agrees() && next.Stands(PlacedAt(catalog.Value()))
  {
    hide Scan, LastPlaces, KeyedList.Agrees, KeyedList.PlacedBy;
    next := new FrCatalog(catalog.Value());
    AgreementPlaces(next.frs);
    AgreementPlaces(next.tbts);
  }

  lemma RunsOfNothing(v: CatalogValue, c: PlacedCatalog, ctx: Context)
    requires AllInPlace(c)
    ensures Run(v, [], ctx) == Success(v) && PlacedRun(c, [], ctx) == Success(c)
  {
  }

  /** One more update: each run does its step, and a refused step ends the run. */
  lemma RunsStep(v: CatalogValue, c: PlacedCatalog, updates: seq<FrUpdate>, n: nat, ctx: Context)
    requires n < |updates| && AllInPlace(c)
    ensures updates[n] in updates
    ensures
      var before := Run(v, updates[..n], ctx);
      before.Success? ==>
        && Run(v, updates[..n + 1], ctx) == Step(before.value, updates[n], ctx)
        && (Step(before.value, updates[n], ctx).Failure? ==>
              Run(v, updates, ctx).Failure? && Run(v, updates, ctx).error == Step(before.value, updates[n], ctx).error)
    ensures
      var before := PlacedRun(c, updates[..n], ctx);
      before.Success? ==>
        && PlacedRun(c, updates[..n + 1], ctx) == PlacedStep(before.value, updates[n], ctx)
        && (PlacedStep(before.value, updates[n], ctx).Failure? ==>
              PlacedRun(c, updates, ctx).Failure? && PlacedRun(c, updates, ctx).error == PlacedStep(before.value, updates[n], ctx).error)
  {
    hide Step, PlacedStep, AllInPlace;
    assert updates[..n + 1][..n] == updates[..n];
    if Run(v, updates[..n + 1], ctx).Failure? {
      RunFails(v, updates, n, ctx);
    }
    if PlacedRun(c, updates[..n + 1], ctx).Failure? {
      PlacedRunFails(c, updates, n, ctx);
    }
  }

  lemma {:induction false} PlacedRunFails(c: PlacedCatalog, updates: seq<FrUpdate>, n: nat, ctx: Context)
    requires n < |updates| && AllInPlace(c) && PlacedRun(c, updates[..n + 1], ctx).Failure?
    ensures PlacedRun(c, updates, ctx) == PlacedRun(c, updates[..n + 1], ctx)
  {
    hide PlacedStep, AllInPlace;
    if n + 1 == |updates| {
      assert updates[..n + 1] == updates;
    } else {
      var front := updates[..|updates| - 1];
      assert front[..n + 1] == updates[..n + 1];
      PlacedRunFails(c, front, n, ctx);
    }
  }

  /** Once a prefix fails, so does the whole run, and with the same error. */
  lemma {:induction false} RunFails(c: CatalogValue, updates: seq<FrUpdate>, n: nat, ctx: Context)
    requires n < |updates| && Run(c, updates[..n + 1], ctx).Failure?
    ensures Run(c, updates, ctx) == Run(c, updates[..n + 1], ctx)
  {
    if n + 1 == |updates| {
      assert updates[..n + 1] == updates;
    } else {
      var front := updates[..|updates| - 1];
      assert front[..n + 1] == updates[..n + 1];
      RunFails(c, front, n, ctx);
    }
  }

  // ----- Dictionaries that keep up, and one that does not ------------------------------------

  lemma {:induction false} SameIdsSamePlaces(a: seq<Fields>, b: seq<Fields>)
    requires |a| == |b| && forall i :: 0 <= i < |a| ==> Id(a[i]) == Id(b[i])
    ensures LastPlaces(a) == LastPlaces(b)
  {
    if a != [] {
      SameIdsSamePlaces(a[..|a| - 1], b[..|b| - 1]);
    }
  }

  lemma LastPlacesSnoc(vals: seq<Fields>, f: Fields)
    ensures LastPlaces(vals + [f]) == LastPlaces(vals)[Id(f) := |vals|]
  {
    assert (vals + [f])[..|vals|] == vals;
  }

  /** While the dictionary holds the last entry of each id, editing through it is editing by
      a linear scan, and it goes on doing so exactly when the edit keeps the id. */
  lemma PlacedEditIsEdit(vals: seq<Fields>, e: Edit, ctx: Context)
    ensures
      var r := EditPlaced(Placed(vals, LastPlaces(vals)), e, ctx);
      match EditList(vals, e, ctx)
      case Failure(error) => r == Failure(error)
      case Success(ws) => r.Success? && r.value.vals == ws && (r.value.places == LastPlaces(ws) <==> KeepsId(e))
  {
    hide Scan, LastPlaces, Changed;
    LastPlacesScan(vals, e.key);
    var p := Scan(IdKey, vals, e.key);
    match e
    case Add(key, entry) =>
      if entry.Success? {
        LastPlacesSnoc(vals, entry.value);
        assert p < 0 ==> (key in LastPlaces(vals + [entry.value]) <==> Id(entry.value) == key);
      }
    case Update(key, change) =>
      if p >= 0 && vals[p] != map[] && Changed(change, vals[p], ctx).Success? {
        var f := Changed(change, vals[p], ctx).value;
        ChangedId(change, vals[p], key, ctx);
        LastPlacesScan(vals[p := f], key);
        if Id(f) == key {
          SameIdsSamePlaces(vals, vals[p := f]);
        }
      }
  }

  /** So without foreign ids the fold over lists and places is the fold over the lists. */
  lemma {:induction false} PlacedRunIsRun(c: CatalogValue, updates: seq<FrUpdate>, ctx: Context)
    requires forall u :: u in updates ==> NoForeignId(u)
    ensures
      match Run(c, updates, ctx)
      case Failure(error) => PlacedRun(PlacedAt(c), updates, ctx) == Failure(error)
      case Success(d) => PlacedRun(PlacedAt(c), updates, ctx) == Success(PlacedAt(d))
  {
    hide NoForeignId, EditOf, EditList, EditPlaced, LastPlaces, KeepsId;
    if updates != [] {
      var front, u := updates[..|updates| - 1], updates[|updates| - 1];
      assert updates == front + [u];
      PlacedRunIsRun(c, front, ctx);
      if Run(c, front, ctx).Success? && EditOf(u, ctx).Some? {
        var d, e := Run(c, front, ctx).value, EditOf(u, ctx).value.1;
        EditKeepsId(u, ctx);
        PlacedEditIsEdit(d.frs, e, ctx);
        PlacedEditIsEdit(d.tbts, e, ctx);
      }
    }
  }

  /** An entry that an update renames stays filed under its old id: that id still leads to
      it and its new one to nothing, so an update of the new id is refused, and adding an
      entry under the new id is accepted and leaves the id twice in the list. */
  lemma RenamedEntryKeepsItsOldPlace(
    vals: seq<Fields>, key: Json, change: Change, later: Change, entry: Fields, ctx: Context)
    requires EditList(vals, Update(key, change), ctx).Success?
    requires
      var p := Scan(IdKey, vals, key);
      var renamed := Id(EditList(vals, Update(key, change), ctx).value[p]);
      renamed !in Ids(vals) && Id(entry) == renamed
    ensures
      var p := Scan(IdKey, vals, key);
      var l := EditPlaced(Placed(vals, LastPlaces(vals)), Update(key, change), ctx);
      && l.Success?
      && var renamed := Id(l.value.vals[p]);
      && key in l.value.places && l.value.places[key] == p
      && EditPlaced(l.value, Update(renamed, later), ctx) == Failure(NotFound(renamed))
      && EditPlaced(l.value, Add(renamed, Success(entry)), ctx).Success?
      && !Distinct(Ids(EditPlaced(l.value, Add(renamed, Success(entry)), ctx).value.vals))
  {
    hide Scan, LastPlaces, Changed;
    var p := Scan(IdKey, vals, key);
    PlacedEditIsEdit(vals, Update(key, change), ctx);
    LastPlacesScan(vals, key);
    var ws := EditList(vals, Update(key, change), ctx).value;
    var renamed := Id(ws[p]);
    LastPlacesScan(vals, renamed);
    ScanIds(vals, renamed);
    var both := Ids(ws + [entry]);
    assert both[p] == renamed == both[|ws|];
  }

  const LISTED_A: seq<Fields> := [map["id" := Str("a")]]
  const A_TO_B := Merge(TbtEntry, map["id" := Str("b")], Review(Null, Null, Null))

  /** For a TBT `a` and an update of `a` that proposes the id `b`: the entry is `b`, an update
      of `b` is refused, and another update of `a` still edits it. */
  lemma RenamingHappens(later: Change, ctx: Context)
    ensures
      var l := EditPlaced(Placed(LISTED_A, LastPlaces(LISTED_A)), Update(Str("a"), A_TO_B), ctx);
      && l.Success? && |l.value.vals| == 1 && Id(l.value.vals[0]) == Str("b")
      && EditPlaced(l.value, Update(Str("b"), later), ctx) == Failure(NotFound(Str("b")))
      && Str("a") in l.value.places && l.value.places[Str("a")] == 0
  {
    var vals, f := LISTED_A, LISTED_A[0];
    assert "b" != "a" && "id" != "compliance" && "id" != "metadata" && "compliance" != "metadata" by {
      assert "b"[0] != "a"[0] && |"id"| == 2 && |"compliance"| == 10 && |"metadata"| == 8;
    }
    assert vals[..0] == [] && LastPlaces([]) == map[];
    assert LastPlaces(vals) == map[Str("a") := 0];
    var g := Normalise(TbtEntry, f + map["id" := Str("b")], ctx);
    assert "metadata" !in g && Id(g) == Str("b");
    StampKeepsId(g, Review(Null, Null, Null), ctx);
  }

  // ----- What a run of edits keeps ---------------------------------------------------------

  function RunList(vals: seq<Fields>, edits: seq<Edit>, ctx: Context): Result<seq<Fields>, Error> {
    if edits == [] then Success(vals)
    else
      var ws :- RunList(vals, edits[..|edits| - 1], ctx);
      EditList(ws, edits[|edits| - 1], ctx)
  }

  /** The edits of one of the two lists, in order. */
  function EditsOf(kind: Kind, updates: seq<FrUpdate>, ctx: Context): seq<Edit> {
    if updates == [] then []
    else
      var r := EditsOf(kind, updates[..|updates| - 1], ctx);
      match EditOf(updates[|updates| - 1], ctx)
      case None => r
      case Some((k, e)) => if k == kind then r + [e] else r
  }

  lemma RunListSnoc(vals: seq<Fields>, edits: seq<Edit>, e: Edit, ctx: Context)
    requires RunList(vals, edits, ctx).Success?
    ensures RunList(vals, edits + [e], ctx) == EditList(RunList(vals, edits, ctx).value, e, ctx)
  {
    hide EditList;
    assert (edits + [e])[..|edits|] == edits;
  }

  /** An accepted proposal runs each list's own edits on that list and no others. */
  lemma {:induction false} RunSplits(c: CatalogValue, updates: seq<FrUpdate>, ctx: Context)
    requires Run(c, updates, ctx).Success?
    ensures RunList(c.frs, EditsOf(FrEntry, updates, ctx), ctx) == Success(Run(c, updates, ctx).value.frs)
    ensures RunList(c.tbts, EditsOf(TbtEntry, updates, ctx), ctx) == Success(Run(c, updates, ctx).value.tbts)
  {
    hide EditOf, EditList, RunList;
    if updates == [] {
      RunNothing(c.frs, ctx);
      RunNothing(c.tbts, ctx);
    } else {
      var front, u := updates[..|updates| - 1], updates[|updates| - 1];
      RunSplits(c, front, ctx);
      var e := EditOf(u, ctx).value.1;
      RunListSnoc(c.frs, EditsOf(FrEntry, front, ctx), e, ctx);
      RunListSnoc(c.tbts, EditsOf(TbtEntry, front, ctx), e, ctx);
    }
  }

  lemma RunNothing(vals: seq<Fields>, ctx: Context)
    ensures RunList(vals, [], ctx) == Success(vals)
  {
  }

  lemma {:induction false} EditsKeepIds(kind: Kind, updates: seq<FrUpdate>, ctx: Context)
    requires forall u :: u in updates ==> NoForeignId(u)
    ensures forall e :: e in EditsOf(kind, updates, ctx) ==> KeepsId(e)
  {
    hide NoForeignId, EditOf, KeepsId;
    if updates != [] {
      var front, u := updates[..|updates| - 1], updates[|updates| - 1];
      assert updates == front + [u];
      EditsKeepIds(kind, front, ctx);
      if EditOf(u, ctx).Some? {
        EditKeepsId(u, ctx);
      }
    }
  }

  function Ids(vals: seq<Fields>): (r: seq<Json>)
    ensures |r| == |vals|
    ensures forall i :: 0 <= i < |r| ==> r[i] == Id(vals[i])
  {
    seq(|vals|, i requires 0 <= i < |vals| => Id(vals[i]))
  }

  /** The keys that the edits add, in order. */
  function AddedKeys(edits: seq<Edit>): seq<Json> {
    if edits == [] then []
    else
      var r, e := AddedKeys(edits[..|edits| - 1]), edits[|edits| - 1];
      if e.Add? then r + [e.key] else r
  }

  ghost predicate Addressed(edits: seq<Edit>, key: Json) {
    exists e :: e in edits && e.key == key
  }

  lemma {:induction false} ScanIds(vals: seq<Fields>, key: Json)
    ensures Scan(IdKey, vals, key) >= 0 <==> key in Ids(vals)
  {
    var p := Scan(IdKey, vals, key);
    if p >= 0 {
      assert Ids(vals)[p] == key;
    }
    if key in Ids(vals) {
      var j :| 0 <= j < |vals| && Ids(vals)[j] == key;
      assert IdKey(vals[j]) == Some(key);
    }
  }

  lemma OneEdit(vals: seq<Fields>, e: Edit, ctx: Context)
    requires Distinct(Ids(vals)) && KeepsId(e) && EditList(vals, e, ctx).Success?
    ensures
      var ws := EditList(vals, e, ctx).value;
      && Ids(ws) == Ids(vals) + (if e.Add? then [e.key] else [])
      && Distinct(Ids(ws))
      && forall p :: 0 <= p < |vals| && Id(vals[p]) != e.key ==> ws[p] == vals[p]
  {
    ScanIds(vals, e.key);
    if e.Update? {
      ChangedId(e.change, vals[Scan(IdKey, vals, e.key)], e.key, ctx);
    }
  }

  lemma Untouched(vals: seq<Fields>, ws: seq<Fields>, xs: seq<Fields>, front: seq<Edit>, e: Edit)
    requires |vals| <= |ws| <= |xs|
    requires forall p :: 0 <= p < |vals| && !Addressed(front, Id(vals[p])) ==> ws[p] == vals[p]
    requires forall p :: 0 <= p < |ws| && Id(ws[p]) != e.key ==> xs[p] == ws[p]
    ensures forall p :: 0 <= p < |vals| && !Addressed(front + [e], Id(vals[p])) ==> xs[p] == vals[p]
  {
    forall p | 0 <= p < |vals| && !Addressed(front + [e], Id(vals[p])) ensures xs[p] == vals[p] {
      assert e in front + [e] && forall d :: d in front ==> d in front + [e];
      assert !Addressed(front, Id(vals[p]));
    }
  }

  /** Over any accepted run whose edits keep ids: nothing is deleted or reordered, added
      entries go last in the order they were added, ids stay distinct, and an entry that
      no edit addresses is unchanged. */
  lemma {:induction false} RunKeepsTheList(vals: seq<Fields>, edits: seq<Edit>, ctx: Context)
    requires Distinct(Ids(vals)) && RunList(vals, edits, ctx).Success?
    requires forall e :: e in edits ==> KeepsId(e)
    ensures
      var ws := RunList(vals, edits, ctx).value;
      && Ids(ws) == Ids(vals) + AddedKeys(edits)
      && Distinct(Ids(ws))
      && forall p :: 0 <= p < |vals| && !Addressed(edits, Id(vals[p])) ==> ws[p] == vals[p]
  {
    hide EditList, KeepsId, Distinct, Addressed, Ids, Id;
    if edits == [] {
      assert Ids(vals) + [] == Ids(vals);
    } else {
      var front, e := edits[..|edits| - 1], edits[|edits| - 1];
      assert edits == front + [e];
      RunKeepsTheList(vals, front, ctx);
      var ws, xs := RunList(vals, front, ctx).value, RunList(vals, edits, ctx).value;
      OneEdit(ws, e, ctx);
      var more := if e.Add? then [e.key] else [];
      assert AddedKeys(front) + [] == AddedKeys(front) && AddedKeys(edits) == AddedKeys(front) + more;
      assert Ids(xs) == Ids(vals) + (AddedKeys(front) + more);
      hide RunList, AddedKeys;
      Untouched(vals, ws, xs, front, e);
    }
  }

  // ----- Refinement to an ordered map ----------------------------------------------------------

  /** The list as an ordered map from id to entry. */
  function AsDict(vals: seq<Fields>): Dict<Json, Fields> {
    if vals == [] then Empty()
    else AsDict(vals[..|vals| - 1]).Put(Id(vals[|vals| - 1]), vals[|vals| - 1])
  }

  function EditDict(d: Dict<Json, Fields>, e: Edit, ctx: Context): Result<Dict<Json, Fields>, Error> {
    match e
    case Add(key, entry) =>
      if key in d.at then Failure(AlreadyExists(key))
      else var f :- entry; Success(d.Put(key, f))
    case Update(key, change) =>
      if key !in d.at || d.at[key] == map[] then Failure(NotFound(key))
      else var f :- Changed(change, d.at[key], ctx); Success(d.Put(key, f))
  }

  function RunDict(d: Dict<Json, Fields>, edits: seq<Edit>, ctx: Context): Result<Dict<Json, Fields>, Error> {
    if edits == [] then Success(d)
    else
      var e :- RunDict(d, edits[..|edits| - 1], ctx);
      EditDict(e, edits[|edits| - 1], ctx)
  }

  lemma {:induction false} DictOfList(vals: seq<Fields>)
    requires Distinct(Ids(vals))
    ensures AsDict(vals).keys == Ids(vals)
    ensures forall k :: k in AsDict(vals).at <==> k in Ids(vals)
    ensures forall p :: 0 <= p < |vals| ==> AsDict(vals).at[Id(vals[p])] == vals[p]
  {
    if vals != [] {
      var front, last := vals[..|vals| - 1], vals[|vals| - 1];
      assert Ids(vals) == Ids(front) + [Id(last)];
      DictOfList(front);
    }
  }

  lemma AppendRefines(vals: seq<Fields>, f: Fields)
    ensures AsDict(vals + [f]) == AsDict(vals).Put(Id(f), f)
  {
    assert (vals + [f])[..|vals|] == vals;
  }

  lemma OverwriteRefines(vals: seq<Fields>, p: nat, f: Fields)
    requires Distinct(Ids(vals)) && p < |vals| && Id(f) == Id(vals[p])
    ensures AsDict(vals[p := f]) == AsDict(vals).Put(Id(f), f)
  {
    var ws := vals[p := f];
    assert Ids(ws) == Ids(vals);
    DictOfList(vals);
    DictOfList(ws);
    var want := AsDict(vals).Put(Id(f), f);
    assert Ids(vals)[p] == Id(f);
    forall k | k in want.keys ensures AsDict(ws).at[k] == want.at[k] {
      var j :| 0 <= j < |vals| && Ids(vals)[j] == k;
      assert AsDict(ws).at[Id(ws[j])] == ws[j];
    }
    DictEqual(AsDict(ws), want);
  }

  lemma EditRefines(vals: seq<Fields>, e: Edit, ctx: Context)
    requires Distinct(Ids(vals)) && KeepsId(e)
    ensures
      match EditList(vals, e, ctx)
      case Failure(error) => EditDict(AsDict(vals), e, ctx) == Failure(error)
      case Success(ws) => EditDict(AsDict(vals), e, ctx) == Success(AsDict(ws))
  {
    hide AsDict, Changed, Distinct;
    ScanIds(vals, e.key);
    DictOfList(vals);
    var p := Scan(IdKey, vals, e.key);
    match e
    case Add(key, entry) =>
      if entry.Success? {
        AppendRefines(vals, entry.value);
      }
    case Update(key, change) =>
      if p >= 0 && vals[p] != map[] && Changed(change, vals[p], ctx).Success? {
        ChangedId(change, vals[p], key, ctx);
        OverwriteRefines(vals, p, Changed(change, vals[p], ctx).value);
      }
  }

  /** Running edits on the list and its id dictionary is running them on one ordered
      map: the same runs are accepted, with the same errors, and the results correspond. */
  lemma {:induction false} RunRefines(vals: seq<Fields>, edits: seq<Edit>, ctx: Context)
    requires Distinct(Ids(vals))
    requires forall e :: e in edits ==> KeepsId(e)
    ensures
      match RunList(vals, edits, ctx)
      case Failure(error) => RunDict(AsDict(vals), edits, ctx) == Failure(error)
      case Success(ws) => RunDict(AsDict(vals), edits, ctx) == Success(AsDict(ws))
  {
    hide EditList, EditDict, KeepsId, Distinct, AsDict;
    if edits != [] {
      var front, e := edits[..|edits| - 1], edits[|edits| - 1];
      assert edits == front + [e];
      RunRefines(vals, front, ctx);
      if RunList(vals, front, ctx).Success? {
        RunKeepsTheList(vals, front, ctx);
        EditRefines(RunList(vals, front, ctx).value, e, ctx);
      }
    }
  }

  // ----- Compliance mapping packs --------------------------------------------------------------

  datatype MappingOperation = AddMapping | UpdateMapping | DeprecateMapping | OtherMapping

  datatype MappingUpdate = MappingUpdate(
    op: MappingOperation,
    mappingId: string,
    ruleset: string,
    rowId: string,
    frRefs: seq<string>,
    fields: Fields,
    rationale: Json)

  function Joined(parts: seq<string>): string {
    if parts == [] then ""
    else if |parts| == 1 then parts[0]
    else Joined(parts[..|parts| - 1]) + "-" + parts[|parts| - 1]
  }

  function Underscored(s: string): string {
    if s == "" then "" else [if s[0] == '.' then '_' else s[0]] + Underscored(s[1..])
  }

  function MappingId(u: MappingUpdate): string {
    if u.mappingId != "" then u.mappingId
    else "MAP-" + u.ruleset + "-" + Underscored(u.rowId) + "-" + Joined(if u.frRefs == [] then ["NO-FR"] else u.frRefs)
  }

  /** A mapping is always written under the id it is addressed by. */
  function MappingEdit(u: MappingUpdate): Option<Edit> {
    var key := Str(MappingId(u));
    match u.op
    case AddMapping => Some(Add(key, Success(u.fields["id" := key])))
    case UpdateMapping => Some(Update(key, Replace(u.fields["id" := key])))
    case DeprecateMapping => Some(Update(key, MarkStale(u.rationale)))
    case OtherMapping => None
  }

  lemma MappingEditsKeepIds(u: MappingUpdate)
    ensures MappingEdit(u).Some? ==> KeepsId(MappingEdit(u).value)
  {
  }

  function MappingStep(vals: seq<Fields>, u: MappingUpdate, ctx: Context): Result<seq<Fields>, Error> {
    match MappingEdit(u)
    case None => Failure(Unsupported)
    case Some(e) => EditList(vals, e, ctx)
  }

  function MappingRun(vals: seq<Fields>, updates: seq<MappingUpdate>, ctx: Context): Result<seq<Fields>, Error> {
    if updates == [] then Success(vals)
    else
      var ws :- MappingRun(vals, updates[..|updates| - 1], ctx);
      MappingStep(ws, updates[|updates| - 1], ctx)
  }

  /** Compliance updates keep the dictionary and the list together unconditionally. */
  method ApplyComplianceUpdates(pack: KeyedList<Json, Fields>, updates: seq<MappingUpdate>, ctx: Context)
    returns (r: Result<KeyedList<Json, Fields>, Error>)
    requires pack.Rep() && pack.keyOf == IdKey
    ensures r.Success? ==> fresh(r.value) && fresh(r.value.Cells()) && r.value.Rep() && r.value.Agrees()
    ensures
      match MappingRun(pack.Values(), updates, ctx)
      case Failure(error) => r == Failure(error)
      case Success(vals) => r.Success? && r.value.Values() == vals
  {
    hide Scan, EditList, EditPlaced, PlacedOutcome, KeepsId, KeyedList.PlacedBy, KeyedList.Agrees;
    var next := new KeyedList(IdKey, pack.Values());
    for n := 0 to |updates|
      invariant next.Rep() && next.keyOf == IdKey && next.Agrees()
      invariant fresh(next) && fresh(next.Cells())
      invariant MappingRun(pack.Values(), updates[..n], ctx) == Success(next.Values())
    {
      assert updates[..n + 1][..n] == updates[..n];
      var e := MappingEdit(updates[n]);
      var step := Failure(Unsupported);
      if e.Some? {
        MappingEditsKeepIds(updates[n]);
        step := ApplyEdit(next, e.value, ctx);
      }
      if step.Failure? {
        MappingRunFails(pack.Values(), updates, n, ctx);
        return Failure(step.error);
      }
    }
    assert updates[..|updates|] == updates;
    r := Success(next);
  }

  lemma {:induction false} MappingRunFails(vals: seq<Fields>, updates: seq<MappingUpdate>, n: nat, ctx: Context)
    requires n < |updates| && MappingRun(vals, updates[..n + 1], ctx).Failure?
    ensures MappingRun(vals, updates, ctx) == MappingRun(vals, updates[..n + 1], ctx)
  {
    if n + 1 == |updates| {
      assert updates[..n + 1] == updates;
    } else {
      var front := updates[..|updates| - 1];
      assert front[..n + 1] == updates[..n + 1];
      MappingRunFails(vals, front, n, ctx);
    }
  }

  function MappingEdits(updates: seq<MappingUpdate>): seq<Edit> {
    if updates == [] then []
    else
      var r, e := MappingEdits(updates[..|updates| - 1]), MappingEdit(updates[|updates| - 1]);
      if e.Some? then r + [e.value] else r
  }

  /** So an accepted pack update is a run of id-keeping edits, and keeps the list as
      any such run does. */
  lemma {:induction false} MappingRunIsARun(vals: seq<Fields>, updates: seq<MappingUpdate>, ctx: Context)
    requires MappingRun(vals, updates, ctx).Success?
    ensures RunList(vals, MappingEdits(updates), ctx) == MappingRun(vals, updates, ctx)
    ensures forall e :: e in MappingEdits(updates) ==> KeepsId(e)
  {
    hide EditList, KeepsId, RunList;
    if updates == [] {
      RunNothing(vals, ctx);
    } else {
      var front, u := updates[..|updates| - 1], updates[|updates| - 1];
      MappingRunIsARun(vals, front, ctx);
      MappingEditsKeepIds(u);
      RunListSnoc(vals, MappingEdits(front), MappingEdit(u).value, ctx);
    }
  }
}
