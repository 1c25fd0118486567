/** Monotonicity and order-independence of the status pipeline. */
module StatusOrder {
  import opened Wrappers
  import opened Sequences
  import opened Grouping
  import opened StatusResolver
  import opened StatusTheorems

  lemma RecordsMember(evidence: seq<Evidence>, tbt: string, r: Evidence)
    ensures r in RecordsFor(evidence, tbt) <==> r in evidence && r.producedBy == tbt
  {
    var pairs := ProducerPairs(evidence);
    if r in RecordsFor(evidence, tbt) {
      AtFiled(pairs, tbt, r);
    }
    if r in evidence && r.producedBy == tbt {
      var j :| 0 <= j < |evidence| && evidence[j] == r;
      assert pairs[j] == (tbt, r);
      AtMember(pairs, tbt, r);
    }
  }

  lemma StatusesMember(records: seq<Evidence>, r: Evidence)
    requires r in records
    ensures EvidenceStatus(r) in Statuses(records)
  {
    var j :| 0 <= j < |records| && records[j] == r;
    assert Statuses(records)[j] == EvidenceStatus(r);
  }

  /** `Passed` is the only status of its rank. */
  lemma OnlyPassedRanksSix(s: Status)
    ensures Rank(s) == Rank(Passed) ==> s == Passed
  {
  }

  // ----- Bad evidence never helps ------------------------------------------------------

  /** `after` holds every record of `before`, and what it adds failed or is missing. */
  ghost predicate AddsOnlyBad(before: seq<Evidence>, after: seq<Evidence>) {
    && (forall r :: r in before ==> r in after)
    && (forall r :: r in after ==> r in before || Rank(EvidenceStatus(r)) <= Rank(Missing))
  }

  /** No status of `b` outranks its counterpart in `a`. */
  ghost predicate NotRaised(a: Resolution, b: Resolution) {
    && a.tbts.keys == b.tbts.keys
    && (forall k :: k in a.tbts.at && k in b.tbts.at ==> Rank(b.tbts.at[k].status) <= Rank(a.tbts.at[k].status))
    && a.frs.keys == b.frs.keys
    && (forall k :: k in a.frs.at && k in b.frs.at ==> Rank(b.frs.at[k]) <= Rank(a.frs.at[k]))
    && |a.rows| == |b.rows|
    && (forall j :: 0 <= j < |a.rows| ==> b.rows[j].row == a.rows[j].row && Rank(b.rows[j].status) <= Rank(a.rows[j].status))
  }

  lemma NothingToHold<T(!new)>(part: seq<T>, whole: seq<T>)
    requires forall x :: x in part ==> x in whole
    ensures part != [] ==> whole != []
  {
    if part != [] {
      assert part[0] in whole;
    }
  }

  lemma WorstOfMore(rs: seq<Evidence>, more: seq<Evidence>)
    requires rs != []
    requires forall r :: r in rs ==> r in more
    ensures Rank(WorseStatus(Statuses(more))) <= Rank(WorseStatus(Statuses(rs)))
  {
    hide WorseStatus;
    var w := WorseStatus(Statuses(rs));
    var j :| 0 <= j < |rs| && Statuses(rs)[j] == w;
    assert rs[j] in rs;
    StatusesMember(more, rs[j]);
  }

  lemma VerdictNotRaised(t: Tbt, rs: seq<Evidence>, more: seq<Evidence>)
    requires AddsOnlyBad(rs, more)
    ensures Rank(EvidenceVerdict(t, more)) <= Rank(EvidenceVerdict(t, rs))
  {
    hide WorseStatus;
    if more == [] {
      NothingToHold(rs, more);
    } else {
      var w := WorseStatus(Statuses(more));
      if bad :| bad in more && bad !in rs {
        StatusesMember(more, bad);
        assert Rank(w) <= Rank(Missing);
        if rs != [] {
          WorstOfMore(rs, more);
        }
      } else {
        assert more[0] in rs;
        WorstOfMore(rs, more);
        WorstOfMore(more, rs);
        OnlyPassedRanksSix(w);
        OnlyPassedRanksSix(WorseStatus(Statuses(rs)));
      }
    }
  }

  lemma TbtNotRaised(t: Tbt, before: seq<Evidence>, after: seq<Evidence>, i: Instance)
    requires AddsOnlyBad(before, after)
    ensures Rank(TbtStatus(t, after, i)) <= Rank(TbtStatus(t, before, i))
  {
    hide RecordsFor, EffectsAt, EvidenceVerdict;
    forall r
      ensures r in RecordsFor(before, t.id) <==> r in before && r.producedBy == t.id
      ensures r in RecordsFor(after, t.id) <==> r in after && r.producedBy == t.id
    {
      RecordsMember(before, t.id, r);
      RecordsMember(after, t.id, r);
    }
    VerdictNotRaised(t, RecordsFor(before, t.id), RecordsFor(after, t.id));
  }

  ghost predicate Lower(a: Dict<string, TbtResult>, b: Dict<string, TbtResult>) {
    && a.Valid() && b.Valid() && a.keys == b.keys
    && forall k :: k in a.keys ==> a.at[k].proves == b.at[k].proves && Rank(b.at[k].status) <= Rank(a.at[k].status)
  }

  lemma {:induction false} TableNotRaised(tbts: seq<Tbt>, before: seq<Evidence>, after: seq<Evidence>, i: Instance)
    requires AddsOnlyBad(before, after)
    ensures Lower(TbtTable(tbts, before, i), TbtTable(tbts, after, i))
  {
    hide TbtStatus, AddsOnlyBad;
    if tbts != [] {
      var front, t := tbts[..|tbts| - 1], tbts[|tbts| - 1];
      TableNotRaised(front, before, after, i);
      TbtNotRaised(t, before, after, i);
      PutLower(TbtTable(front, before, i), TbtTable(front, after, i), ResolveTbt(t, before, i), ResolveTbt(t, after, i));
    }
  }

  lemma PutLower(a: Dict<string, TbtResult>, b: Dict<string, TbtResult>, x: TbtResult, y: TbtResult)
    requires Lower(a, b)
    requires x.id == y.id && x.proves == y.proves && Rank(y.status) <= Rank(x.status)
    ensures Lower(a.Put(x.id, x), b.Put(y.id, y))
  {
    PutValid(a, x.id, x);
    PutValid(b, y.id, y);
  }

  ghost predicate PointwiseLower(a: seq<Status>, b: seq<Status>) {
    |a| == |b| && forall j :: 0 <= j < |a| ==> Rank(b[j]) <= Rank(a[j])
  }

  lemma WorstOfLower(a: seq<Status>, b: seq<Status>)
    requires PointwiseLower(a, b)
    ensures Rank(WorseStatus(b)) <= Rank(WorseStatus(a))
  {
    hide WorseStatus;
    if a != [] {
      var j :| 0 <= j < |a| && a[j] == WorseStatus(a);
      assert b[j] in b;
    }
  }

  lemma {:induction false} FrLinksLower(keys: seq<string>, a: Dict<string, TbtResult>, b: Dict<string, TbtResult>, fr: string)
    requires Lower(a, b) && forall k :: k in keys ==> k in a.keys
    ensures PointwiseLower(LinkedToFr(keys, a.at, fr), LinkedToFr(keys, b.at, fr))
  {
    if keys != [] {
      assert keys == keys[..|keys| - 1] + [keys[|keys| - 1]];
      FrLinksLower(keys[..|keys| - 1], a, b, fr);
    }
  }

  lemma {:induction false} RowLinksLower(refs: seq<string>, a: Dict<string, TbtResult>, b: Dict<string, TbtResult>)
    requires Lower(a, b)
    ensures PointwiseLower(LinkedToRow(refs, a.at), LinkedToRow(refs, b.at))
  {
    if refs != [] {
      RowLinksLower(refs[..|refs| - 1], a, b);
    }
  }

  lemma {:induction false} FrTableNotRaised(frs: seq<Fr>, a: Dict<string, TbtResult>, b: Dict<string, TbtResult>, i: Instance)
    requires Lower(a, b)
    ensures
      var p, q := FrTable(frs, a, i), FrTable(frs, b, i);
      p.keys == q.keys && (forall k :: k in p.at <==> k in q.at) && forall k :: k in p.at ==> Rank(q.at[k]) <= Rank(p.at[k])
  {
    hide LinkedToFr, EffectsAt, ApplyControlEffect;
    if frs != [] {
      var front, fr := frs[..|frs| - 1], frs[|frs| - 1];
      FrTableNotRaised(front, a, b, i);
      FrLinksLower(a.keys, a, b, fr.id);
      var l, m := LinkedToFr(a.keys, a.at, fr.id), LinkedToFr(b.keys, b.at, fr.id);
      WorstOfLower(l, m);
      EffectKeepsOrder(WorseStatus(l), WorseStatus(m), EffectsAt(i, "fr:" + fr.id));
      assert FrTable(frs, a, i) == FrTable(front, a, i).Put(fr.id, FrStatus(fr.id, a, i));
      assert FrTable(frs, b, i) == FrTable(front, b, i).Put(fr.id, FrStatus(fr.id, b, i));
    }
  }

  lemma EffectKeepsOrder(s: Status, t: Status, effects: seq<Effect>)
    requires Rank(t) <= Rank(s)
    ensures Rank(ApplyControlEffect(t, effects)) <= Rank(ApplyControlEffect(s, effects))
  {
  }

  lemma RowNotRaised(
    row: RowRef, entry: RowEntry, a: Dict<string, TbtResult>, b: Dict<string, TbtResult>,
    before: seq<Evidence>, after: seq<Evidence>, packs: seq<Pack>, i: Instance)
    requires Lower(a, b) && AddsOnlyBad(before, after)
    ensures Rank(ResolveRow(row, entry, b, AllBlockers(after, packs), i).status)
         <= Rank(ResolveRow(row, entry, a, AllBlockers(before, packs), i).status)
  {
    hide AllBlockers, Lookup, LinkedToRow, EffectsAt, ApplyControlEffect, RecordNames, MappingNames, Lower;
    var key := RowKey(row.ruleset, row.row);
    BlockersIffBlocked(before, packs, key);
    BlockersIffBlocked(after, packs, key);
    RowLinksLower(entry.tbtRefs, a, b);
    WorstOfLower(LinkedToRow(entry.tbtRefs, a.at), LinkedToRow(entry.tbtRefs, b.at));
    var s := if Lookup(AllBlockers(before, packs), key) != [] then Failed else WorseStatus(LinkedToRow(entry.tbtRefs, a.at));
    var t := if Lookup(AllBlockers(after, packs), key) != [] then Failed else WorseStatus(LinkedToRow(entry.tbtRefs, b.at));
    EffectKeepsOrder(s, t, EffectsAt(i, key));
  }

  /** Adding failed or missing records, anywhere and in any number, raises no TBT,
      no FR and no compliance row. */
  lemma BadEvidenceNeverHelps(input: Input, after: seq<Evidence>)
    requires AddsOnlyBad(input.evidence, after)
    ensures NotRaised(Resolve(input), Resolve(input.(evidence := after)))
  {
    hide AddsOnlyBad, AllBlockers, RowIndex, ResolveRow, FrTable, TbtTable;
    var i := input.instance;
    var a, b := TbtTable(input.catalog.tbts, input.evidence, i), TbtTable(input.catalog.tbts, after, i);
    TableNotRaised(input.catalog.tbts, input.evidence, after, i);
    FrTableNotRaised(input.catalog.frs, a, b, i);
    var index := RowIndex(input.catalog);
    var p, q := Resolve(input), Resolve(input.(evidence := after));
    assert p.tbts == a && q.tbts == b;
    assert p.frs == FrTable(input.catalog.frs, a, i) && q.frs == FrTable(input.catalog.frs, b, i);
    assert p.rows == ResolveRows(index.keys, index, a, AllBlockers(input.evidence, input.packs), i);
    assert q.rows == ResolveRows(index.keys, index, b, AllBlockers(after, input.packs), i);
    forall j | 0 <= j < |index.keys|
      ensures q.rows[j].row == p.rows[j].row && Rank(q.rows[j].status) <= Rank(p.rows[j].status)
    {
      RowNotRaised(index.keys[j], EntryAt(index, index.keys[j]), a, b, input.evidence, after, input.packs, i);
      RowOfRow(index.keys[j], EntryAt(index, index.keys[j]), a, AllBlockers(input.evidence, input.packs), i);
      RowOfRow(index.keys[j], EntryAt(index, index.keys[j]), b, AllBlockers(after, input.packs), i);
    }
  }

  lemma RowOfRow(row: RowRef, entry: RowEntry, table: Dict<string, TbtResult>, blockers: Dict<string, seq<Blocker>>, i: Instance)
    ensures ResolveRow(row, entry, table, blockers, i).row == row
  {
  }

  // ----- Order and repetition do not matter ---------------------------------------------

  ghost predicate SameMembers<T(!new)>(a: seq<T>, b: seq<T>) {
    forall x :: x in a <==> x in b
  }

  ghost predicate KnownEvidence(evidence: seq<Evidence>) {
    forall r :: r in evidence ==> Known(EvidenceStatus(r))
  }

  /** Approved effects are the two that the source's defaults produce. */
  ghost predicate DefaultEffects(i: Instance) {
    forall p :: p in AllEffectPairs(i) && Approved(p.1) ==> p.1.status == Waived || p.1.status == CompensatingControl
  }

  lemma KnownRankDecides(s: Status, t: Status)
    requires Known(s) && Rank(s) == Rank(t)
    ensures s == t
  {
  }

  lemma VerdictOfSameRecords(t: Tbt, a: seq<Evidence>, b: seq<Evidence>)
    requires SameMembers(a, b) && KnownEvidence(a)
    ensures EvidenceVerdict(t, a) == EvidenceVerdict(t, b)
  {
    hide WorseStatus;
    if a == [] {
      NothingToHold(b, a);
    } else {
      assert a[0] in b;
      WorstOfMore(a, b);
      WorstOfMore(b, a);
      var w := WorseStatus(Statuses(a));
      var j :| 0 <= j < |a| && Statuses(a)[j] == w;
      assert a[j] in a;
      KnownRankDecides(w, WorseStatus(Statuses(b)));
      StrongInBoth(a, b);
    }
  }

  lemma StrongInBoth(a: seq<Evidence>, b: seq<Evidence>)
    requires SameMembers(a, b)
    ensures (exists r :: r in a && r.strength == "strong") <==> (exists r :: r in b && r.strength == "strong")
  {
  }

  lemma EffectsDecideTogether(s: Status, a: seq<Effect>, b: seq<Effect>)
    requires SameMembers(a, b)
    requires forall e :: e in a && Approved(e) ==> e.status == Waived || e.status == CompensatingControl
    ensures ApplyControlEffect(s, a) == ApplyControlEffect(s, b)
  {
  }

  lemma {:induction false} EffectPairsMember(cs: seq<Control>, kind: string, fallback: Status, p: (string, Effect))
    ensures p in EffectPairs(cs, kind, fallback) <==>
      exists c :: c in cs && ControlKey(c) == Some(p.0) && EffectOf(c, kind, fallback) == p.1
  {
    hide ControlKey, EffectOf;
    if cs != [] {
      EffectPairsMember(cs[..|cs| - 1], kind, fallback, p);
      assert cs == cs[..|cs| - 1] + [cs[|cs| - 1]];
    }
  }

  lemma EffectsMember(i: Instance, key: string, e: Effect)
    ensures e in EffectsAt(i, key) <==> (key, e) in AllEffectPairs(i)
  {
    hide AllEffectPairs;
    if (key, e) in AllEffectPairs(i) {
      AtMember(AllEffectPairs(i), key, e);
    }
    if e in EffectsAt(i, key) {
      AtFiled(AllEffectPairs(i), key, e);
    }
  }

  lemma SamePairs(i: Instance, j: Instance)
    requires SameMembers(i.waivers, j.waivers) && SameMembers(i.controls, j.controls)
    ensures SameMembers(AllEffectPairs(i), AllEffectPairs(j))
  {
    hide EffectPairs, ControlKey, EffectOf;
    forall p ensures p in AllEffectPairs(i) <==> p in AllEffectPairs(j) {
      EffectPairsMember(i.waivers, "waiver", Waived, p);
      EffectPairsMember(j.waivers, "waiver", Waived, p);
      EffectPairsMember(i.controls, "compensating_control", CompensatingControl, p);
      EffectPairsMember(j.controls, "compensating_control", CompensatingControl, p);
    }
  }

  lemma SameEffect(s: Status, i: Instance, j: Instance, key: string)
    requires SameMembers(AllEffectPairs(i), AllEffectPairs(j)) && DefaultEffects(i)
    ensures ApplyControlEffect(s, EffectsAt(i, key)) == ApplyControlEffect(s, EffectsAt(j, key))
  {
    hide AllEffectPairs, EffectsAt;
    forall e ensures e in EffectsAt(i, key) <==> e in EffectsAt(j, key) {
      EffectsMember(i, key, e);
      EffectsMember(j, key, e);
    }
    forall e | e in EffectsAt(i, key) && Approved(e) ensures e.status == Waived || e.status == CompensatingControl {
      EffectsMember(i, key, e);
      assert (key, e) in AllEffectPairs(i);
    }
    EffectsDecideTogether(s, EffectsAt(i, key), EffectsAt(j, key));
  }

  lemma SameTbt(t: Tbt, a: seq<Evidence>, b: seq<Evidence>, i: Instance, j: Instance)
    requires SameMembers(a, b) && KnownEvidence(a)
    requires SameMembers(AllEffectPairs(i), AllEffectPairs(j)) && DefaultEffects(i)
    ensures TbtStatus(t, a, i) == TbtStatus(t, b, j)
  {
    hide RecordsFor, EffectsAt, EvidenceVerdict, AllEffectPairs, ApplyControlEffect, DefaultEffects;
    forall r
      ensures r in RecordsFor(a, t.id) <==> r in a && r.producedBy == t.id
      ensures r in RecordsFor(b, t.id) <==> r in b && r.producedBy == t.id
    {
      RecordsMember(a, t.id, r);
      RecordsMember(b, t.id, r);
    }
    VerdictOfSameRecords(t, RecordsFor(a, t.id), RecordsFor(b, t.id));
    SameEffect(EvidenceVerdict(t, RecordsFor(a, t.id)), i, j, "tbt:" + t.id);
  }

  lemma {:induction false} SameTable(tbts: seq<Tbt>, a: seq<Evidence>, b: seq<Evidence>, i: Instance, j: Instance)
    requires SameMembers(a, b) && KnownEvidence(a)
    requires SameMembers(AllEffectPairs(i), AllEffectPairs(j)) && DefaultEffects(i)
    ensures TbtTable(tbts, a, i) == TbtTable(tbts, b, j)
  {
    hide TbtStatus, SameMembers, KnownEvidence, DefaultEffects;
    if tbts != [] {
      SameTable(tbts[..|tbts| - 1], a, b, i, j);
      SameTbt(tbts[|tbts| - 1], a, b, i, j);
    }
  }

  lemma {:induction false} SameFrTable(frs: seq<Fr>, table: Dict<string, TbtResult>, i: Instance, j: Instance)
    requires table.Valid()
    requires SameMembers(AllEffectPairs(i), AllEffectPairs(j)) && DefaultEffects(i)
    ensures FrTable(frs, table, i) == FrTable(frs, table, j)
  {
    hide EffectsAt, SameMembers, DefaultEffects, ApplyControlEffect;
    if frs != [] {
      SameFrTable(frs[..|frs| - 1], table, i, j);
      var id := frs[|frs| - 1].id;
      SameEffect(WorseStatus(LinkedToFr(table.keys, table.at, id)), i, j, "fr:" + id);
    }
  }

  lemma SameRow(
    row: RowRef, entry: RowEntry, table: Dict<string, TbtResult>, a: seq<Evidence>, b: seq<Evidence>, packs: seq<Pack>,
    i: Instance, j: Instance)
    requires SameMembers(a, b)
    requires SameMembers(AllEffectPairs(i), AllEffectPairs(j)) && DefaultEffects(i)
    ensures ResolveRow(row, entry, table, AllBlockers(a, packs), i) == ResolveRow(row, entry, table, AllBlockers(b, packs), j)
  {
    hide AllBlockers, EffectsAt, Lookup, ApplyControlEffect, DefaultEffects, RecordNames, MappingNames, AllEffectPairs;
    var key := RowKey(row.ruleset, row.row);
    BlockersIffBlocked(a, packs, key);
    BlockersIffBlocked(b, packs, key);
    var blocked := Lookup(AllBlockers(a, packs), key) != [];
    SameEffect(if blocked then Failed else WorseStatus(LinkedToRow(entry.tbtRefs, table.at)), i, j, key);
  }

  /** The report is a function of the sets of records and controls: their order, and
      how often each is repeated, changes no status. */
  lemma OrderDoesNotMatter(input: Input, evidence: seq<Evidence>, waivers: seq<Control>, controls: seq<Control>)
    requires KnownEvidence(input.evidence) && DefaultEffects(input.instance)
    requires SameMembers(input.evidence, evidence)
    requires SameMembers(input.instance.waivers, waivers) && SameMembers(input.instance.controls, controls)
    ensures Resolve(input) == Resolve(input.(evidence := evidence, instance := Instance(waivers, controls)))
  {
    hide SameMembers, KnownEvidence, DefaultEffects, AllBlockers, RowIndex, TbtTable, FrTable, ResolveRow, EntryAt, AllEffectPairs;
    var i, j := input.instance, Instance(waivers, controls);
    SamePairs(i, j);
    SameTable(input.catalog.tbts, input.evidence, evidence, i, j);
    var table := TbtTable(input.catalog.tbts, input.evidence, i);
    SameFrTable(input.catalog.frs, table, i, j);
    var index := RowIndex(input.catalog);
    var p := ResolveRows(index.keys, index, table, AllBlockers(input.evidence, input.packs), i);
    var q := ResolveRows(index.keys, index, table, AllBlockers(evidence, input.packs), j);
    forall n | 0 <= n < |p| ensures p[n] == q[n] {
      SameRow(index.keys[n], EntryAt(index, index.keys[n]), table, input.evidence, evidence, input.packs, i, j);
    }
    assert p == q;
  }

  /** In particular for permutations. */
  lemma PermutingEvidenceAndControls(input: Input, evidence: seq<Evidence>, waivers: seq<Control>, controls: seq<Control>)
    requires KnownEvidence(input.evidence) && DefaultEffects(input.instance)
    requires multiset(input.evidence) == multiset(evidence)
    requires multiset(input.instance.waivers) == multiset(waivers) && multiset(input.instance.controls) == multiset(controls)
    ensures Resolve(input) == Resolve(input.(evidence := evidence, instance := Instance(waivers, controls)))
  {
    hide KnownEvidence, DefaultEffects, Resolve;
    SameMultisetSameMembers(input.evidence, evidence);
    SameMultisetSameMembers(input.instance.waivers, waivers);
    SameMultisetSameMembers(input.instance.controls, controls);
    OrderDoesNotMatter(input, evidence, waivers, controls);
  }

  lemma SameMultisetSameMembers<T(!new)>(a: seq<T>, b: seq<T>)
    requires multiset(a) == multiset(b)
    ensures SameMembers(a, b)
  {
    forall x ensures x in a <==> x in b {
      assert x in multiset(a) <==> x in multiset(b);
    }
  }
}
