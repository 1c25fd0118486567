/** The status pipeline: evidence records decide each technical building-block
    test (TBT), TBTs decide functional requirements (FR) and compliance rows, and
    reviewed waivers, compensating controls and scanner blockers are laid on top. */
module StatusResolver {
  import opened Wrappers
  import opened Sequences
  import opened Grouping

  // ----- Statuses and their precedence ---------------------------------------

  datatype Status =
    | Failed | Missing | ManualReview | CompensatingControl | Waived
    | Partial | Passed | OutOfScope
    | NotObserved
    | Other(name: string)

  /** The precedence table; a status outside it ranks 99, above `Passed`. */
  function Rank(s: Status): nat {
    match s
    case Failed => 0
    case Missing => 1
    case ManualReview => 2
    case CompensatingControl => 3
    case Waived => 4
    case Partial => 5
    case Passed => 6
    case OutOfScope => 7
    case NotObserved => 99
    case Other(_) => 99
  }

  predicate Known(s: Status) {
    Rank(s) < 99
  }

  /** The first status of least rank; no status at all is `Missing`. */
  function WorseStatus(ss: seq<Status>): (r: Status)
    ensures ss != [] ==> r in ss
    ensures forall s :: s in ss ==> Rank(r) <= Rank(s)
    ensures ss == [] ==> r == Missing
  {
    if ss == [] then Missing
    else
      var front, last := ss[..|ss| - 1], ss[|ss| - 1];
      var m := WorseStatus(front);
      assert ss == front + [last];
      if front == [] || Rank(last) < Rank(m) then last else m
  }

  // ----- Inputs -----------------------------------------------------------------

  /** A reference to a compliance row; an absent key is the empty string. */
  datatype RowRef = RowRef(ruleset: string, row: string)

  datatype Evidence = Evidence(
    id: string,
    kind: string,
    observed: Option<bool>,
    resultStatus: Option<Status>,
    strength: string,
    producedBy: string,
    rulesetRefs: seq<RowRef>,
    mappingRefs: seq<RowRef>)

  datatype Expectation = Expectation(required: Option<bool>)

  datatype Tbt = Tbt(
    id: string,
    proves: seq<string>,
    expected: seq<Expectation>,
    compliance: seq<RowRef>)

  datatype Fr = Fr(id: string)

  datatype Catalog = Catalog(tbts: seq<Tbt>, frs: seq<Fr>)

  datatype TargetRef = TargetRef(kind: string, ref: string, ruleset: string, row: string)

  /** A waiver or compensating control as the assurance instance records it. */
  datatype Control = Control(
    id: string,
    targetRef: Option<TargetRef>,
    target: string,
    statusEffect: Option<Status>,
    approval: Option<string>)

  datatype Instance = Instance(waivers: seq<Control>, controls: seq<Control>)

  /** A reviewed rule of a scanner pack, with the findings its selectors match. */
  datatype ScannerMapping = ScannerMapping(
    id: string,
    reviewStatus: string,
    level: string,
    traceability: string,
    matched: seq<string>,
    rows: seq<RowRef>)

  datatype Pack = Pack(scanner: string, mappings: seq<ScannerMapping>)

  datatype Input = Input(catalog: Catalog, evidence: seq<Evidence>, instance: Instance, packs: seq<Pack>)

  function EvidenceStatus(r: Evidence): Status {
    if r.observed == Some(false) then Missing
    else match r.resultStatus
      case None => Missing
      case Some(NotObserved) => Missing
      case Some(s) => s
  }

  // ----- Controls ---------------------------------------------------------------

  datatype Effect = Effect(id: string, kind: string, status: Status, approval: string)

  function RowKey(ruleset: string, row: string): string {
    "row:" + ruleset + ":" + row
  }

  /** The text before and after the first colon, if there is one. */
  function Partition(s: string): Option<(string, string)> {
    if s == [] then None
    else if s[0] == ':' then Some(("", s[1..]))
    else match Partition(s[1..])
      case None => None
      case Some(p) => Some(([s[0]] + p.0, p.1))
  }

  function RowKeyOfRef(ref: string): Option<string> {
    match Partition(ref)
    case None => None
    case Some(p) => if p.0 != "" && p.1 != "" then Some(RowKey(p.0, p.1)) else None
  }

  function TargetKey(kind: string, ref: string, ruleset: string, row: string): Option<string> {
    if kind == "ruleset_row" then
      var rowRef := if row != "" then row else ref;
      if ruleset == "" then RowKeyOfRef(rowRef)
      else if rowRef != "" then Some(RowKey(ruleset, rowRef)) else None
    else if kind in ["tbt", "fr", "evidence", "criterion", "gate"] && ref != "" then Some(kind + ":" + ref)
    else if kind == "" && ref != "" then
      if "TBT-" <= ref then Some("tbt:" + ref)
      else if "FR-" <= ref then Some("fr:" + ref)
      else RowKeyOfRef(ref)
    else None
  }

  function ControlKey(c: Control): Option<string> {
    match c.targetRef
    case Some(t) => TargetKey(t.kind, t.ref, t.ruleset, t.row)
    case None => TargetKey("", c.target, "", "")
  }

  function EffectOf(c: Control, kind: string, fallback: Status): Effect {
    Effect(
      c.id,
      kind,
      match c.statusEffect case Some(s) => s case None => fallback,
      match c.approval case Some(a) => a case None => "pending")
  }

  /** What one list of records files, in order; records without a key file nothing. */
  function EffectPairs(cs: seq<Control>, kind: string, fallback: Status): seq<(string, Effect)>
  {
    if cs == [] then []
    else
      var front, c := cs[..|cs| - 1], cs[|cs| - 1];
      var r := EffectPairs(front, kind, fallback);
      match ControlKey(c)
      case None => r
      case Some(k) => r + [(k, EffectOf(c, kind, fallback))]
  }

  function AllEffectPairs(i: Instance): seq<(string, Effect)> {
    EffectPairs(i.waivers, "waiver", Waived) + EffectPairs(i.controls, "compensating_control", CompensatingControl)
  }

  /** The effects recorded for a target, waivers before compensating controls. */
  function EffectsAt(i: Instance, key: string): seq<Effect> {
    At(AllEffectPairs(i), key)
  }

  method AssuranceControlEffects(i: Instance) returns (effects: Dict<string, seq<Effect>>)
    ensures effects == Grouped(AllEffectPairs(i))
  {
    ghost var waived := EffectPairs(i.waivers, "waiver", Waived);
    effects := FileEffects(Empty(), [], i.waivers, "waiver", Waived);
    assert [] + waived == waived;
    effects := FileEffects(effects, waived, i.controls, "compensating_control", CompensatingControl);
  }

  method FileEffects(
    before: Dict<string, seq<Effect>>, ghost done: seq<(string, Effect)>,
    cs: seq<Control>, kind: string, fallback: Status)
    returns (effects: Dict<string, seq<Effect>>)
    requires before == Grouped(done)
    ensures effects == Grouped(done + EffectPairs(cs, kind, fallback))
  {
    hide Grouped, ControlKey;
    effects := before;
    ghost var filed := done;
    assert done + [] == done;
    for n := 0 to |cs|
      invariant filed == done + EffectPairs(cs[..n], kind, fallback)
      invariant effects == Grouped(filed)
    {
      var c := cs[n];
      assert cs[..n + 1][..n] == cs[..n];
      var key := ControlKey(c);
      if key.Some? {
        var p := (key.value, EffectOf(c, kind, fallback));
        GroupedStep(filed, p);
        assert done + (EffectPairs(cs[..n], kind, fallback) + [p]) == filed + [p];
        effects := AppendTo(effects, p.0, p.1);
        filed := filed + [p];
      }
    }
    assert cs[..|cs|] == cs;
  }

  predicate Approved(e: Effect) {
    e.approval == "approved" || e.approval == "waived"
  }

  /** The first approved compensating control, else the first approved effect:
      what the stable sort on "compensating control first" puts at the front. */
  function ApprovedControlEffect(effects: seq<Effect>): (r: Option<Effect>)
    ensures r.None? <==> forall e :: e in effects ==> !Approved(e)
    ensures r.Some? ==> r.value in effects && Approved(r.value)
    ensures r.Some? && r.value.status != CompensatingControl ==>
      forall e :: e in effects && Approved(e) ==> e.status != CompensatingControl
  {
    if effects == [] then None
    else
      var front, e := effects[..|effects| - 1], effects[|effects| - 1];
      assert effects == front + [e];
      var r := ApprovedControlEffect(front);
      if !Approved(e) then r
      else match r
        case None => Some(e)
        case Some(f) => if f.status != CompensatingControl && e.status == CompensatingControl then Some(e) else r
  }

  function ApplyControlEffect(s: Status, effects: seq<Effect>): Status {
    match ApprovedControlEffect(effects)
    case None => s
    case Some(e) => e.status
  }

  // ----- TBTs -------------------------------------------------------------------

  function ProducerPairs(evidence: seq<Evidence>): (r: seq<(string, Evidence)>)
    ensures |r| == |evidence|
    ensures forall i :: 0 <= i < |r| ==> r[i] == (evidence[i].producedBy, evidence[i])
  {
    seq(|evidence|, i requires 0 <= i < |evidence| => (evidence[i].producedBy, evidence[i]))
  }

  function RecordsFor(evidence: seq<Evidence>, tbt: string): seq<Evidence> {
    At(ProducerPairs(evidence), tbt)
  }

  function Statuses(records: seq<Evidence>): (r: seq<Status>)
    ensures |r| == |records|
    ensures forall i :: 0 <= i < |r| ==> r[i] == EvidenceStatus(records[i])
  {
    seq(|records|, i requires 0 <= i < |records| => EvidenceStatus(records[i]))
  }

  predicate Required(e: Expectation) {
    e.required != Some(false)
  }

  /** The catalog's expectations, or the inferred one when it declares none. */
  function ExpectedEvidence(t: Tbt): seq<Expectation> {
    if t.expected == [] then [Expectation(Some(true))] else t.expected
  }

  /** The status the records alone justify. */
  function EvidenceVerdict(t: Tbt, records: seq<Evidence>): Status {
    if records == [] then
      if ExpectedEvidence(t) != [] then Missing else ManualReview
    else
      var s := WorseStatus(Statuses(records));
      if s == Passed
        && !(exists r :: r in records && r.strength == "strong")
        && (exists e :: e in ExpectedEvidence(t) && Required(e))
      then Partial
      else s
  }

  function TbtStatus(t: Tbt, evidence: seq<Evidence>, i: Instance): Status {
    ApplyControlEffect(EvidenceVerdict(t, RecordsFor(evidence, t.id)), EffectsAt(i, "tbt:" + t.id))
  }

  datatype TbtResult = TbtResult(id: string, proves: seq<string>, status: Status)

  function ResolveTbt(t: Tbt, evidence: seq<Evidence>, i: Instance): TbtResult {
    TbtResult(t.id, t.proves, TbtStatus(t, evidence, i))
  }

  /** `{tbt["id"]: resolve_tbt_status(tbt) for tbt in tbts}`. */
  function TbtTable(tbts: seq<Tbt>, evidence: seq<Evidence>, i: Instance): (d: Dict<string, TbtResult>)
    ensures d.Valid()
  {
    if tbts == [] then Empty()
    else
      var d := TbtTable(tbts[..|tbts| - 1], evidence, i);
      var t := tbts[|tbts| - 1];
      PutValid(d, t.id, ResolveTbt(t, evidence, i));
      d.Put(t.id, ResolveTbt(t, evidence, i))
  }

  // ----- FRs ----------------------------------------------------------------------

  /** The results, in table order, of the TBTs that prove `fr`. */
  function LinkedToFr(keys: seq<string>, at: map<string, TbtResult>, fr: string): seq<Status>
    requires forall k :: k in keys ==> k in at
  {
    if keys == [] then []
    else
      var front, k := keys[..|keys| - 1], keys[|keys| - 1];
      var r := LinkedToFr(front, at, fr);
      if fr in at[k].proves then r + [at[k].status] else r
  }

  function FrStatus(fr: string, table: Dict<string, TbtResult>, i: Instance): Status
    requires table.Valid()
  {
    ApplyControlEffect(WorseStatus(LinkedToFr(table.keys, table.at, fr)), EffectsAt(i, "fr:" + fr))
  }

  // ----- The index of compliance rows ---------------------------------------------

  /** One accepted declaration: this TBT claims this row. */
  datatype Declaration = Declaration(row: RowRef, tbt: string)

  predicate Usable(r: RowRef) {
    r.ruleset != "" && r.row != ""
  }

  function DeclarationsOf(tbt: string, rows: seq<RowRef>): seq<Declaration>
  {
    if rows == [] then []
    else
      var r, row := DeclarationsOf(tbt, rows[..|rows| - 1]), rows[|rows| - 1];
      if Usable(row) then r + [Declaration(row, tbt)] else r
  }

  function Declarations(tbts: seq<Tbt>): seq<Declaration>
  {
    if tbts == [] then []
    else
      var r, t := Declarations(tbts[..|tbts| - 1]), tbts[|tbts| - 1];
      if t.id == "" then r else r + DeclarationsOf(t.id, t.compliance)
  }

  function DeclaredRows(ds: seq<Declaration>): (r: seq<RowRef>)
    ensures |r| == |ds|
    ensures forall i :: 0 <= i < |r| ==> r[i] == ds[i].row
  {
    seq(|ds|, i requires 0 <= i < |ds| => ds[i].row)
  }

  function Declarers(ds: seq<Declaration>, row: RowRef): seq<string>
  {
    if ds == [] then []
    else
      var r, d := Declarers(ds[..|ds| - 1], row), ds[|ds| - 1];
      if d.row == row then r + [d.tbt] else r
  }

  /** `{tbt["id"]: tbt["proves"]}`: the last TBT of that id decides. */
  function ProvesOf(tbts: seq<Tbt>, id: string): seq<string> {
    if tbts == [] then []
    else if tbts[|tbts| - 1].id == id then tbts[|tbts| - 1].proves
    else ProvesOf(tbts[..|tbts| - 1], id)
  }

  function Proved(tbts: seq<Tbt>, ids: seq<string>): seq<string>
  {
    if ids == [] then [] else Proved(tbts, ids[..|ids| - 1]) + ProvesOf(tbts, ids[|ids| - 1])
  }

  datatype RowEntry = RowEntry(frRefs: seq<string>, tbtRefs: seq<string>)

  function EntryOf(tbts: seq<Tbt>, ds: seq<Declaration>, row: RowRef): RowEntry {
    RowEntry(Dedup(Proved(tbts, Declarers(ds, row))), Dedup(Declarers(ds, row)))
  }

  /** The row index: rows in order of first declaration, and what each refers to. */
  function IndexOf(tbts: seq<Tbt>, ds: seq<Declaration>): Dict<RowRef, RowEntry>
  {
    var keys := Dedup(DeclaredRows(ds));
    Dict(keys, map r | r in keys :: EntryOf(tbts, ds, r))
  }

  function RowIndex(c: Catalog): Dict<RowRef, RowEntry> {
    IndexOf(c.tbts, Declarations(c.tbts))
  }

  /** The entry `setdefault` finds or starts from. */
  function EntryAt(d: Dict<RowRef, RowEntry>, row: RowRef): RowEntry {
    if row in d.at then d.at[row] else RowEntry([], [])
  }

  lemma {:induction false} DeclarersMember(ds: seq<Declaration>, row: RowRef, x: string)
    ensures x in Declarers(ds, row) <==> Declaration(row, x) in ds
  {
    if ds != [] {
      DeclarersMember(ds[..|ds| - 1], row, x);
      assert ds == ds[..|ds| - 1] + [ds[|ds| - 1]];
    }
  }

  lemma RowIsDeclared(ds: seq<Declaration>, row: RowRef, x: string)
    requires Declaration(row, x) in ds
    ensures row in DeclaredRows(ds)
  {
    var j :| 0 <= j < |ds| && ds[j] == Declaration(row, x);
    assert DeclaredRows(ds)[j] == row;
  }

  lemma EntryAtIsEntryOf(tbts: seq<Tbt>, ds: seq<Declaration>, row: RowRef)
    ensures EntryAt(IndexOf(tbts, ds), row) == EntryOf(tbts, ds, row)
  {
    if row !in DeclaredRows(ds) && Declarers(ds, row) != [] {
      var x := Declarers(ds, row)[0];
      DeclarersMember(ds, row, x);
      RowIsDeclared(ds, row, x);
      assert false;
    }
  }

  lemma EntryStep(tbts: seq<Tbt>, ds: seq<Declaration>, d: Declaration)
    ensures
      var was := EntryOf(tbts, ds, d.row);
      EntryOf(tbts, ds + [d], d.row) == RowEntry(
        Dedup(was.frRefs + ProvesOf(tbts, d.tbt)),
        if d.tbt in was.tbtRefs then was.tbtRefs else was.tbtRefs + [d.tbt])
  {
    var ids := Declarers(ds, d.row);
    assert (ds + [d])[..|ds|] == ds;
    assert (ids + [d.tbt])[..|ids|] == ids;
    DedupSnoc(ids, d.tbt);
    DedupAppend(Proved(tbts, ids), ProvesOf(tbts, d.tbt));
  }

  lemma OtherEntries(tbts: seq<Tbt>, ds: seq<Declaration>, d: Declaration, row: RowRef)
    requires row != d.row
    ensures EntryOf(tbts, ds + [d], row) == EntryOf(tbts, ds, row)
  {
    assert (ds + [d])[..|ds|] == ds;
  }

  lemma IndexFacts(tbts: seq<Tbt>, ds: seq<Declaration>)
    ensures IndexOf(tbts, ds).Valid()
    ensures IndexOf(tbts, ds).keys == Dedup(DeclaredRows(ds))
    ensures forall r :: r in IndexOf(tbts, ds).keys ==> IndexOf(tbts, ds).at[r] == EntryOf(tbts, ds, r)
  {
    hide EntryOf;
  }

  /** One pass of the inner loop body keeps the index exact. */
  lemma IndexStep(tbts: seq<Tbt>, ds: seq<Declaration>, d: Declaration)
    ensures IndexOf(tbts, ds + [d]) == IndexOf(tbts, ds).Put(d.row, EntryOf(tbts, ds + [d], d.row))
  {
    hide EntryOf, IndexOf, Dedup;
    var before, after := IndexOf(tbts, ds), IndexOf(tbts, ds + [d]);
    assert DeclaredRows(ds + [d]) == DeclaredRows(ds) + [d.row];
    DedupSnoc(DeclaredRows(ds), d.row);
    IndexFacts(tbts, ds);
    IndexFacts(tbts, ds + [d]);
    var entry := EntryOf(tbts, ds + [d], d.row);
    PutValid(before, d.row, entry);
    forall r | r in after.keys ensures after.at[r] == before.Put(d.row, entry).at[r] {
      if r != d.row {
        OtherEntries(tbts, ds, d, r);
      }
    }
    DictEqual(after, before.Put(d.row, entry));
  }

  method BuildRowIndex(c: Catalog) returns (mappings: Dict<RowRef, RowEntry>)
    ensures mappings == RowIndex(c)
  {
    hide IndexOf, EntryOf, EntryAt;
    mappings := Empty();
    ghost var seen: seq<Declaration> := [];
    EmptyIndex(c.tbts);
    for n := 0 to |c.tbts|
      invariant seen == Declarations(c.tbts[..n])
      invariant mappings == IndexOf(c.tbts, seen)
    {
      assert c.tbts[..n + 1][..n] == c.tbts[..n];
      var t := c.tbts[n];
      if t.id != "" {
        mappings := IndexRows(c.tbts, t.id, t.compliance, mappings, seen);
        seen := seen + DeclarationsOf(t.id, t.compliance);
      }
    }
    assert c.tbts[..|c.tbts|] == c.tbts;
  }

  lemma EmptyIndex(tbts: seq<Tbt>)
    ensures IndexOf(tbts, []) == Empty()
  {
    assert IndexOf(tbts, []).at == map[];
  }

  /** The inner loop: file every usable row that one TBT declares. */
  method IndexRows(
    tbts: seq<Tbt>, id: string, rows: seq<RowRef>, before: Dict<RowRef, RowEntry>, ghost done: seq<Declaration>)
    returns (mappings: Dict<RowRef, RowEntry>)
    requires before == IndexOf(tbts, done)
    ensures mappings == IndexOf(tbts, done + DeclarationsOf(id, rows))
  {
    hide IndexOf, EntryAt;
    mappings := before;
    ghost var seen := done;
    assert done + [] == done;
    for m := 0 to |rows|
      invariant seen == done + DeclarationsOf(id, rows[..m])
      invariant mappings == IndexOf(tbts, seen)
    {
      assert rows[..m + 1][..m] == rows[..m];
      var row := rows[m];
      if Usable(row) {
        var entry := EntryAt(mappings, row);
        EntryAtIsEntryOf(tbts, seen, row);
        ghost var d := Declaration(row, id);
        EntryStep(tbts, seen, d);
        IndexStep(tbts, seen, d);
        assert done + (DeclarationsOf(id, rows[..m]) + [d]) == seen + [d];
        var frs := AppendMissing(entry.frRefs, ProvesOf(tbts, id));
        var refs := if id in entry.tbtRefs then entry.tbtRefs else entry.tbtRefs + [id];
        mappings := mappings.Put(row, RowEntry(frs, refs));
        seen := seen + [d];
      }
    }
    assert rows[..|rows|] == rows;
  }

  /** Appends each value that is not there yet. */
  method AppendMissing(start: seq<string>, values: seq<string>) returns (r: seq<string>)
    ensures Distinct(start) ==> r == Dedup(start + values)
  {
    r := start;
    assert start + [] == start;
    if Distinct(start) { DedupOfDistinct(start); }
    for n := 0 to |values|
      invariant Distinct(start) ==> r == Dedup(start + values[..n])
    {
      assert start + values[..n + 1] == (start + values[..n]) + [values[n]];
      DedupSnoc(start + values[..n], values[n]);
      if values[n] !in r {
        r := r + [values[n]];
      }
    }
    assert values[..|values|] == values;
  }

  // ----- Scanner blockers ---------------------------------------------------------

  datatype Blocker = Blocker(id: string, tool: string, finding: string)

  /** What tells two blockers of one row apart: the id, or the whole record without one. */
  datatype Marker = ById(id: string) | ByContent(blocker: Blocker)

  function MarkerOf(b: Blocker): Marker {
    if b.id != "" then ById(b.id) else ByContent(b)
  }

  predicate FailedScan(r: Evidence) {
    r.kind == "scanner_result" && EvidenceStatus(r) == Failed
  }

  function UsableRows(rows: seq<RowRef>): seq<RowRef> {
    if rows == [] then []
    else
      var r, row := UsableRows(rows[..|rows| - 1]), rows[|rows| - 1];
      if Usable(row) then r + [row] else r
  }

  /** Files one blocker under every row. */
  function FileUnder(rows: seq<RowRef>, b: Blocker): (r: seq<(string, Blocker)>)
    ensures |r| == |rows|
    ensures forall i :: 0 <= i < |r| ==> r[i] == (RowKey(rows[i].ruleset, rows[i].row), b)
  {
    seq(|rows|, i requires 0 <= i < |rows| => (RowKey(rows[i].ruleset, rows[i].row), b))
  }

  function RecordBlockers(r: Evidence): seq<(string, Blocker)> {
    if FailedScan(r) then
      FileUnder(UsableRows(r.rulesetRefs + UsableRows(r.mappingRefs)), Blocker(r.id, "", ""))
    else []
  }

  function EvidenceBlockers(evidence: seq<Evidence>): seq<(string, Blocker)> {
    if evidence == [] then []
    else EvidenceBlockers(evidence[..|evidence| - 1]) + RecordBlockers(evidence[|evidence| - 1])
  }

  predicate Blocks(m: ScannerMapping) {
    m.reviewStatus == "accepted" && m.level == "compliance_row" && m.traceability == "direct" && m.matched != []
  }

  /** At most twenty findings of a mapping are reported against each of its rows. */
  function FindingBlockers(scanner: string, m: ScannerMapping, key: string): (r: seq<(string, Blocker)>)
    ensures |r| == if |m.matched| < 20 then |m.matched| else 20
    ensures forall i :: 0 <= i < |r| ==>
      r[i] == (key, Blocker(scanner + ":" + m.id + ":" + m.matched[i], scanner, m.matched[i]))
  {
    var n := if |m.matched| < 20 then |m.matched| else 20;
    seq(n, i requires 0 <= i < n =>
      (key, Blocker(scanner + ":" + m.id + ":" + m.matched[i], scanner, m.matched[i])))
  }

  function RowsOfMapping(scanner: string, m: ScannerMapping, rows: seq<RowRef>): seq<(string, Blocker)> {
    if rows == [] then []
    else
      var r, row := RowsOfMapping(scanner, m, rows[..|rows| - 1]), rows[|rows| - 1];
      if Usable(row) then r + FindingBlockers(scanner, m, RowKey(row.ruleset, row.row)) else r
  }

  function MappingBlockers(scanner: string, ms: seq<ScannerMapping>): seq<(string, Blocker)> {
    if ms == [] then []
    else
      var r, m := MappingBlockers(scanner, ms[..|ms| - 1]), ms[|ms| - 1];
      if Blocks(m) then r + RowsOfMapping(scanner, m, m.rows) else r
  }

  function PackBlockers(packs: seq<Pack>): seq<(string, Blocker)> {
    if packs == [] then []
    else PackBlockers(packs[..|packs| - 1]) + MappingBlockers(packs[|packs| - 1].scanner, packs[|packs| - 1].mappings)
  }

  /** Files the pairs of one source, in order. */
  method FilePairs(before: Dict<string, seq<Blocker>>, ghost done: seq<(string, Blocker)>, pairs: seq<(string, Blocker)>)
    returns (blockers: Dict<string, seq<Blocker>>)
    requires before == Grouped(done)
    ensures blockers == Grouped(done + pairs)
  {
    hide Grouped;
    blockers := before;
    assert done + [] == done;
    for n := 0 to |pairs|
      invariant blockers == Grouped(done + pairs[..n])
    {
      GroupedStep(done + pairs[..n], pairs[n]);
      assert done + pairs[..n + 1] == (done + pairs[..n]) + [pairs[n]];
      blockers := AppendTo(blockers, pairs[n].0, pairs[n].1);
    }
    assert pairs[..|pairs|] == pairs;
  }

  method ScannerBlockersByRow(evidence: seq<Evidence>) returns (blockers: Dict<string, seq<Blocker>>)
    ensures blockers == Grouped(EvidenceBlockers(evidence))
  {
    hide Grouped, RecordBlockers;
    blockers := Empty();
    GroupedNothing<string, Blocker>();
    for n := 0 to |evidence|
      invariant blockers == Grouped(EvidenceBlockers(evidence[..n]))
    {
      assert evidence[..n + 1][..n] == evidence[..n];
      blockers := FilePairs(blockers, EvidenceBlockers(evidence[..n]), RecordBlockers(evidence[n]));
    }
    assert evidence[..|evidence|] == evidence;
  }

  method MappingBlockersByRow(packs: seq<Pack>) returns (blockers: Dict<string, seq<Blocker>>)
    ensures blockers == Grouped(PackBlockers(packs))
  {
    hide Grouped, RowsOfMapping;
    blockers := Empty();
    GroupedNothing<string, Blocker>();
    for n := 0 to |packs|
      invariant blockers == Grouped(PackBlockers(packs[..n]))
    {
      assert packs[..n + 1][..n] == packs[..n];
      var pack := packs[n];
      ghost var done := PackBlockers(packs[..n]);
      assert done + [] == done;
      for m := 0 to |pack.mappings|
        invariant blockers == Grouped(done + MappingBlockers(pack.scanner, pack.mappings[..m]))
      {
        assert pack.mappings[..m + 1][..m] == pack.mappings[..m];
        var mapping := pack.mappings[m];
        if Blocks(mapping) {
          ghost var filed := done + MappingBlockers(pack.scanner, pack.mappings[..m]);
          blockers := FilePairs(blockers, filed, RowsOfMapping(pack.scanner, mapping, mapping.rows));
          assert done + (MappingBlockers(pack.scanner, pack.mappings[..m]) + RowsOfMapping(pack.scanner, mapping, mapping.rows))
              == filed + RowsOfMapping(pack.scanner, mapping, mapping.rows);
        }
      }
      assert pack.mappings[..|pack.mappings|] == pack.mappings;
    }
    assert packs[..|packs|] == packs;
  }

  function Tagged(key: string, bs: seq<Blocker>): (r: seq<(string, Blocker)>)
    ensures |r| == |bs|
    ensures forall i :: 0 <= i < |r| ==> r[i] == (key, bs[i])
  {
    seq(|bs|, i requires 0 <= i < |bs| => (key, bs[i]))
  }

  /** The pairs met when walking a dictionary of lists key by key. */
  function Walk(d: Dict<string, seq<Blocker>>, keys: seq<string>): seq<(string, Blocker)>
  {
    if keys == [] then []
    else Walk(d, keys[..|keys| - 1]) + Tagged(keys[|keys| - 1], Lookup(d, keys[|keys| - 1]))
  }

  function Marks(pairs: seq<(string, Blocker)>): (r: seq<(string, Marker)>)
    ensures |r| == |pairs|
    ensures forall i :: 0 <= i < |r| ==> r[i] == (pairs[i].0, MarkerOf(pairs[i].1))
  {
    seq(|pairs|, i requires 0 <= i < |pairs| => (pairs[i].0, MarkerOf(pairs[i].1)))
  }

  /** The first pair of every (row, marker). */
  function Unseen(pairs: seq<(string, Blocker)>): seq<(string, Blocker)> {
    if pairs == [] then []
    else
      var front, p := pairs[..|pairs| - 1], pairs[|pairs| - 1];
      if (p.0, MarkerOf(p.1)) in Marks(front) then Unseen(front) else Unseen(front) + [p]
  }

  function MergedPairs(first: Dict<string, seq<Blocker>>, second: Dict<string, seq<Blocker>>): seq<(string, Blocker)> {
    Unseen(Walk(first, first.keys) + Walk(second, second.keys))
  }

  method MergeBlockers(first: Dict<string, seq<Blocker>>, second: Dict<string, seq<Blocker>>)
    returns (merged: Dict<string, seq<Blocker>>)
    ensures merged == Grouped(MergedPairs(first, second))
  {
    hide Grouped;
    var seen: set<(string, Marker)> := {};
    merged := Empty();
    GroupedNothing<string, Blocker>();
    var pairs := Walk(first, first.keys) + Walk(second, second.keys);
    for n := 0 to |pairs|
      invariant seen == set m | m in Marks(pairs[..n])
      invariant merged == Grouped(Unseen(pairs[..n]))
    {
      assert pairs[..n + 1][..n] == pairs[..n];
      assert Marks(pairs[..n + 1]) == Marks(pairs[..n]) + [(pairs[n].0, MarkerOf(pairs[n].1))];
      var mark := (pairs[n].0, MarkerOf(pairs[n].1));
      if mark !in seen {
        GroupedStep(Unseen(pairs[..n]), pairs[n]);
        seen := seen + {mark};
        merged := AppendTo(merged, pairs[n].0, pairs[n].1);
      }
    }
    assert pairs[..|pairs|] == pairs;
  }

  function AllBlockers(evidence: seq<Evidence>, packs: seq<Pack>): Dict<string, seq<Blocker>> {
    Grouped(MergedPairs(Grouped(EvidenceBlockers(evidence)), Grouped(PackBlockers(packs))))
  }

  // ----- Compliance rows and the whole pipeline --------------------------------------

  datatype RowResult = RowResult(row: RowRef, status: Status, frRefs: seq<string>, tbtRefs: seq<string>)

  function LinkedToRow(refs: seq<string>, at: map<string, TbtResult>): seq<Status> {
    if refs == [] then []
    else
      var r, ref := LinkedToRow(refs[..|refs| - 1], at), refs[|refs| - 1];
      if ref in at then r + [at[ref].status] else r
  }

  function RowStatus(row: RowRef, refs: seq<string>, at: map<string, TbtResult>, blocked: bool, i: Instance): Status {
    var s := WorseStatus(LinkedToRow(refs, at));
    ApplyControlEffect(if blocked then Failed else s, EffectsAt(i, RowKey(row.ruleset, row.row)))
  }

  function ResolveRow(
    row: RowRef, entry: RowEntry, table: Dict<string, TbtResult>, blockers: Dict<string, seq<Blocker>>, i: Instance): RowResult
  {
    var blocked := Lookup(blockers, RowKey(row.ruleset, row.row)) != [];
    RowResult(row, RowStatus(row, entry.tbtRefs, table.at, blocked, i), entry.frRefs, entry.tbtRefs)
  }

  function ResolveRows(
    keys: seq<RowRef>, index: Dict<RowRef, RowEntry>, table: Dict<string, TbtResult>,
    blockers: Dict<string, seq<Blocker>>, i: Instance): (r: seq<RowResult>)
    ensures |r| == |keys|
    ensures forall j :: 0 <= j < |r| ==> r[j] == ResolveRow(keys[j], EntryAt(index, keys[j]), table, blockers, i)
  {
    seq(|keys|, j requires 0 <= j < |keys| => ResolveRow(keys[j], EntryAt(index, keys[j]), table, blockers, i))
  }

  function FrTable(frs: seq<Fr>, table: Dict<string, TbtResult>, i: Instance): Dict<string, Status>
    requires table.Valid()
  {
    if frs == [] then Empty()
    else
      var d, fr := FrTable(frs[..|frs| - 1], table, i), frs[|frs| - 1];
      d.Put(fr.id, FrStatus(fr.id, table, i))
  }

  datatype Resolution = Resolution(tbts: Dict<string, TbtResult>, frs: Dict<string, Status>, rows: seq<RowResult>)

  /** What the resolver reports. */
  function Resolve(input: Input): Resolution {
    var table := TbtTable(input.catalog.tbts, input.evidence, input.instance);
    var index := RowIndex(input.catalog);
    Resolution(
      table,
      FrTable(input.catalog.frs, table, input.instance),
      ResolveRows(index.keys, index, table, AllBlockers(input.evidence, input.packs), input.instance))
  }

  method GroupByProducer(evidence: seq<Evidence>) returns (byTbt: Dict<string, seq<Evidence>>)
    ensures byTbt == Grouped(ProducerPairs(evidence))
  {
    hide Grouped;
    byTbt := Empty();
    GroupedNothing<string, Evidence>();
    for n := 0 to |evidence|
      invariant byTbt == Grouped(ProducerPairs(evidence[..n]))
    {
      assert ProducerPairs(evidence[..n + 1]) == ProducerPairs(evidence[..n]) + [(evidence[n].producedBy, evidence[n])];
      GroupedStep(ProducerPairs(evidence[..n]), (evidence[n].producedBy, evidence[n]));
      byTbt := AppendTo(byTbt, evidence[n].producedBy, evidence[n]);
    }
    assert evidence[..|evidence|] == evidence;
  }

  method ResolveTbts(
    tbts: seq<Tbt>, byTbt: Dict<string, seq<Evidence>>, effects: Dict<string, seq<Effect>>,
    ghost evidence: seq<Evidence>, ghost i: Instance) returns (table: Dict<string, TbtResult>)
    requires byTbt == Grouped(ProducerPairs(evidence))
    requires effects == Grouped(AllEffectPairs(i))
    ensures table == TbtTable(tbts, evidence, i)
  {
    hide Grouped, ApplyControlEffect, EvidenceVerdict;
    table := Empty();
    for n := 0 to |tbts|
      invariant table == TbtTable(tbts[..n], evidence, i)
    {
      assert tbts[..n + 1][..n] == tbts[..n];
      var t := tbts[n];
      GroupedLookup(ProducerPairs(evidence), t.id);
      GroupedLookup(AllEffectPairs(i), "tbt:" + t.id);
      var verdict := EvidenceVerdict(t, Lookup(byTbt, t.id));
      table := table.Put(t.id, TbtResult(t.id, t.proves, ApplyControlEffect(verdict, Lookup(effects, "tbt:" + t.id))));
    }
    assert tbts[..|tbts|] == tbts;
  }

  method ResolveFrs(
    frs: seq<Fr>, table: Dict<string, TbtResult>, effects: Dict<string, seq<Effect>>, ghost i: Instance)
    returns (statuses: Dict<string, Status>)
    requires table.Valid()
    requires effects == Grouped(AllEffectPairs(i))
    ensures statuses == FrTable(frs, table, i)
  {
    hide Grouped, ApplyControlEffect;
    statuses := Empty();
    for n := 0 to |frs|
      invariant statuses == FrTable(frs[..n], table, i)
    {
      assert frs[..n + 1][..n] == frs[..n];
      var id := frs[n].id;
      GroupedLookup(AllEffectPairs(i), "fr:" + id);
      var worst := WorseStatus(LinkedToFr(table.keys, table.at, id));
      statuses := statuses.Put(id, ApplyControlEffect(worst, Lookup(effects, "fr:" + id)));
    }
    assert frs[..|frs|] == frs;
  }

  method ResolveCompliance(
    mappings: Dict<RowRef, RowEntry>, table: Dict<string, TbtResult>, blockers: Dict<string, seq<Blocker>>,
    effects: Dict<string, seq<Effect>>, ghost i: Instance) returns (rows: seq<RowResult>)
    requires effects == Grouped(AllEffectPairs(i))
    ensures rows == ResolveRows(mappings.keys, mappings, table, blockers, i)
  {
    hide Grouped, ResolveRow;
    rows := [];
    for n := 0 to |mappings.keys|
      invariant rows == ResolveRows(mappings.keys[..n], mappings, table, blockers, i)
    {
      var row := mappings.keys[n];
      var next := RowFromDicts(row, EntryAt(mappings, row), table, blockers, effects, i);
      rows := rows + [next];
    }
    assert mappings.keys[..|mappings.keys|] == mappings.keys;
  }

  /** The resolver as the source runs it, over dictionaries filled in loops. */
  method RunResolver(input: Input) returns (r: Resolution)
    ensures r == Resolve(input)
  {
    hide Grouped, IndexOf;
    var effects := AssuranceControlEffects(input.instance);
    var fromEvidence := ScannerBlockersByRow(input.evidence);
    var fromPacks := MappingBlockersByRow(input.packs);
    var blockers := MergeBlockers(fromEvidence, fromPacks);
    var byTbt := GroupByProducer(input.evidence);
    var table := ResolveTbts(input.catalog.tbts, byTbt, effects, input.evidence, input.instance);
    var statuses := ResolveFrs(input.catalog.frs, table, effects, input.instance);
    var mappings := BuildRowIndex(input.catalog);
    var rows := ResolveCompliance(mappings, table, blockers, effects, input.instance);
    r := Resolution(table, statuses, rows);
  }

  /** The body of the loop over the row index. */
  method RowFromDicts(
    row: RowRef, entry: RowEntry, table: Dict<string, TbtResult>, blockers: Dict<string, seq<Blocker>>,
    effects: Dict<string, seq<Effect>>, ghost i: Instance) returns (r: RowResult)
    requires effects == Grouped(AllEffectPairs(i))
    ensures r == ResolveRow(row, entry, table, blockers, i)
  {
    hide Grouped, ApplyControlEffect;
    var key := RowKey(row.ruleset, row.row);
    var status := WorseStatus(LinkedToRow(entry.tbtRefs, table.at));
    if Lookup(blockers, key) != [] {
      status := Failed;
    }
    GroupedLookup(AllEffectPairs(i), key);
    status := ApplyControlEffect(status, Lookup(effects, key));
    r := RowResult(row, status, entry.frRefs, entry.tbtRefs);
  }
}
