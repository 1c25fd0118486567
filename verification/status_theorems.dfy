/** What the status pipeline guarantees as a whole. */
module StatusTheorems {
  import opened Wrappers
  import opened Sequences
  import opened Grouping
  import opened StatusResolver

  // ----- Controls never manufacture a pass ---------------------------------------

  function WithoutControls(input: Input): Input {
    input.(instance := Instance([], []))
  }

  /** Every pass reported in `a` is also reported in `b`. */
  ghost predicate PassesKept(a: Resolution, b: Resolution) {
    && (forall k :: k in a.tbts.at && a.tbts.at[k].status == Passed ==>
          k in b.tbts.at && b.tbts.at[k].status == Passed)
    && (forall k :: k in a.frs.at && a.frs.at[k] == Passed ==> k in b.frs.at && b.frs.at[k] == Passed)
    && |a.rows| == |b.rows|
    && (forall j :: 0 <= j < |a.rows| && a.rows[j].status == Passed ==>
          b.rows[j].row == a.rows[j].row && b.rows[j].status == Passed)
  }

  /** Every approved effect ranks below `Passed`; waived and compensating_control do. */
  ghost predicate EffectsBelowPass(i: Instance) {
    forall p :: p in AllEffectPairs(i) && Approved(p.1) ==> Rank(p.1.status) < Rank(Passed)
  }

  lemma NoControls(key: string)
    ensures EffectsAt(Instance([], []), key) == []
  {
    assert AllEffectPairs(Instance([], [])) == [];
  }

  lemma EffectsComeFromPairs(i: Instance, key: string)
    requires EffectsBelowPass(i)
    ensures forall e :: e in EffectsAt(i, key) && Approved(e) ==> Rank(e.status) < Rank(Passed)
  {
    hide AllEffectPairs, At;
    forall e | e in EffectsAt(i, key) && Approved(e) ensures Rank(e.status) < Rank(Passed) {
      AtFiled(AllEffectPairs(i), key, e);
    }
  }

  /** A status that survives at rank `Passed` or above was not given by a control. */
  lemma HighStatusIsUncontrolled(i: Instance, key: string, s: Status)
    requires EffectsBelowPass(i)
    ensures Rank(ApplyControlEffect(s, EffectsAt(i, key))) >= Rank(Passed) ==> ApplyControlEffect(s, EffectsAt(i, key)) == s
    ensures ApplyControlEffect(s, EffectsAt(Instance([], []), key)) == s
  {
    hide EffectsAt, EffectsBelowPass;
    EffectsComeFromPairs(i, key);
    NoControls(key);
  }

  /** Same keys, same links, and high statuses agree. */
  ghost predicate HighAgree(a: Dict<string, TbtResult>, b: Dict<string, TbtResult>) {
    && a.Valid() && b.Valid() && a.keys == b.keys
    && forall k :: k in a.keys ==>
         a.at[k].proves == b.at[k].proves
         && (Rank(a.at[k].status) >= Rank(Passed) ==> b.at[k].status == a.at[k].status)
  }

  lemma PutHighAgree(a: Dict<string, TbtResult>, b: Dict<string, TbtResult>, x: TbtResult, y: TbtResult)
    requires HighAgree(a, b)
    requires x.id == y.id && x.proves == y.proves && (Rank(x.status) >= Rank(Passed) ==> y.status == x.status)
    ensures HighAgree(a.Put(x.id, x), b.Put(y.id, y))
  {
    PutValid(a, x.id, x);
    PutValid(b, y.id, y);
  }

  lemma {:induction false} TablesAgree(tbts: seq<Tbt>, evidence: seq<Evidence>, i: Instance)
    requires EffectsBelowPass(i)
    ensures HighAgree(TbtTable(tbts, evidence, i), TbtTable(tbts, evidence, Instance([], [])))
  {
    hide EffectsBelowPass, EffectsAt, ApplyControlEffect, EvidenceVerdict;
    if tbts != [] {
      var front, t := tbts[..|tbts| - 1], tbts[|tbts| - 1];
      var none := Instance([], []);
      TablesAgree(front, evidence, i);
      HighStatusIsUncontrolled(i, "tbt:" + t.id, EvidenceVerdict(t, RecordsFor(evidence, t.id)));
      PutHighAgree(TbtTable(front, evidence, i), TbtTable(front, evidence, none),
        ResolveTbt(t, evidence, i), ResolveTbt(t, evidence, none));
    }
  }

  lemma {:induction false} FrLinksAgree(keys: seq<string>, a: Dict<string, TbtResult>, b: Dict<string, TbtResult>, fr: string)
    requires HighAgree(a, b)
    requires forall k :: k in keys ==> k in a.keys
    ensures
      var l := LinkedToFr(keys, a.at, fr);
      (forall s :: s in l ==> Rank(s) >= Rank(Passed)) ==> LinkedToFr(keys, b.at, fr) == l
  {
    if keys != [] {
      var front, k := keys[..|keys| - 1], keys[|keys| - 1];
      assert keys == front + [k];
      FrLinksAgree(front, a, b, fr);
      var l := LinkedToFr(keys, a.at, fr);
      if forall s :: s in l ==> Rank(s) >= Rank(Passed) {
        assert forall s :: s in LinkedToFr(front, a.at, fr) ==> s in l;
        if fr in a.at[k].proves {
          assert l[|l| - 1] == a.at[k].status;
        }
      }
    }
  }

  lemma {:induction false} RowLinksAgree(refs: seq<string>, a: Dict<string, TbtResult>, b: Dict<string, TbtResult>)
    requires HighAgree(a, b)
    ensures
      var l := LinkedToRow(refs, a.at);
      (forall s :: s in l ==> Rank(s) >= Rank(Passed)) ==> LinkedToRow(refs, b.at) == l
  {
    if refs != [] {
      var front, k := refs[..|refs| - 1], refs[|refs| - 1];
      RowLinksAgree(front, a, b);
      var l := LinkedToRow(refs, a.at);
      if forall s :: s in l ==> Rank(s) >= Rank(Passed) {
        assert forall s :: s in LinkedToRow(front, a.at) ==> s in l;
        if k in a.at {
          assert l[|l| - 1] == a.at[k].status;
        }
      }
    }
  }

  lemma FrPassKept(fr: string, a: Dict<string, TbtResult>, b: Dict<string, TbtResult>, i: Instance)
    requires HighAgree(a, b) && EffectsBelowPass(i)
    ensures FrStatus(fr, a, i) == Passed ==> FrStatus(fr, b, Instance([], [])) == Passed
  {
    hide EffectsBelowPass, EffectsAt, ApplyControlEffect, LinkedToFr;
    HighStatusIsUncontrolled(i, "fr:" + fr, WorseStatus(LinkedToFr(a.keys, a.at, fr)));
    HighStatusIsUncontrolled(i, "fr:" + fr, WorseStatus(LinkedToFr(b.keys, b.at, fr)));
    FrLinksAgree(a.keys, a, b, fr);
  }

  lemma RowPassKept(row: RowRef, refs: seq<string>, a: Dict<string, TbtResult>, b: Dict<string, TbtResult>, blocked: bool, i: Instance)
    requires HighAgree(a, b) && EffectsBelowPass(i)
    ensures RowStatus(row, refs, a.at, blocked, i) == Passed ==>
      RowStatus(row, refs, b.at, blocked, Instance([], [])) == Passed
  {
    hide EffectsBelowPass, EffectsAt, ApplyControlEffect, LinkedToRow;
    var key := RowKey(row.ruleset, row.row);
    HighStatusIsUncontrolled(i, key, if blocked then Failed else WorseStatus(LinkedToRow(refs, a.at)));
    HighStatusIsUncontrolled(i, key, if blocked then Failed else WorseStatus(LinkedToRow(refs, b.at)));
    RowLinksAgree(refs, a, b);
  }

  lemma {:induction false} FrTablePassesKept(frs: seq<Fr>, a: Dict<string, TbtResult>, b: Dict<string, TbtResult>, i: Instance)
    requires HighAgree(a, b) && EffectsBelowPass(i)
    ensures
      var p, q := FrTable(frs, a, i), FrTable(frs, b, Instance([], []));
      forall k :: k in p.at && p.at[k] == Passed ==> k in q.at && q.at[k] == Passed
  {
    hide EffectsBelowPass, FrStatus;
    if frs != [] {
      var front, fr := frs[..|frs| - 1], frs[|frs| - 1];
      FrTablePassesKept(front, a, b, i);
      FrPassKept(fr.id, a, b, i);
      var none := Instance([], []);
      assert FrTable(frs, a, i) == FrTable(front, a, i).Put(fr.id, FrStatus(fr.id, a, i));
      assert FrTable(frs, b, none) == FrTable(front, b, none).Put(fr.id, FrStatus(fr.id, b, none));
    }
  }

  lemma RowsPassKept(
    keys: seq<RowRef>, index: Dict<RowRef, RowEntry>, a: Dict<string, TbtResult>, b: Dict<string, TbtResult>,
    blockers: Dict<string, seq<Blocker>>, i: Instance)
    requires HighAgree(a, b) && EffectsBelowPass(i)
    ensures
      var p, q := ResolveRows(keys, index, a, blockers, i), ResolveRows(keys, index, b, blockers, Instance([], []));
      forall j :: 0 <= j < |p| && p[j].status == Passed ==> q[j].row == p[j].row && q[j].status == Passed
  {
    hide HighAgree, EffectsBelowPass, RowStatus;
    forall j | 0 <= j < |keys|
      ensures ResolveRow(keys[j], EntryAt(index, keys[j]), a, blockers, i).status == Passed ==>
        ResolveRow(keys[j], EntryAt(index, keys[j]), b, blockers, Instance([], [])).status == Passed
    {
      var blocked := Lookup(blockers, RowKey(keys[j].ruleset, keys[j].row)) != [];
      RowPassKept(keys[j], EntryAt(index, keys[j]).tbtRefs, a, b, blocked, i);
    }
  }

  /** Removing every waiver and compensating control loses no pass: what is reported
      as passed rests on evidence alone. */
  lemma ControlsNeverManufactureAPass(input: Input)
    requires EffectsBelowPass(input.instance)
    ensures PassesKept(Resolve(input), Resolve(WithoutControls(input)))
  {
    hide EffectsBelowPass, RowIndex, AllBlockers, HighAgree, ResolveRows, FrTable, TbtTable, ResolveRow;
    var none := Instance([], []);
    var a := TbtTable(input.catalog.tbts, input.evidence, input.instance);
    var b := TbtTable(input.catalog.tbts, input.evidence, none);
    TablesAgree(input.catalog.tbts, input.evidence, input.instance);
    TbtPassKept(a, b);
    FrTablePassesKept(input.catalog.frs, a, b, input.instance);
    var index := RowIndex(input.catalog);
    RowsPassKept(index.keys, index, a, b, AllBlockers(input.evidence, input.packs), input.instance);
    var p, q := Resolve(input), Resolve(WithoutControls(input));
    assert p.tbts == a && q.tbts == b;
    assert p.frs == FrTable(input.catalog.frs, a, input.instance);
    assert q.frs == FrTable(input.catalog.frs, b, none);
    assert p.rows == ResolveRows(index.keys, index, a, AllBlockers(input.evidence, input.packs), input.instance);
    assert q.rows == ResolveRows(index.keys, index, b, AllBlockers(input.evidence, input.packs), none);
  }

  lemma TbtPassKept(a: Dict<string, TbtResult>, b: Dict<string, TbtResult>)
    requires HighAgree(a, b)
    ensures forall k :: k in a.at && a.at[k].status == Passed ==> k in b.at && b.at[k].status == Passed
  {
  }

  /** Every approved effect of the instance is `e`. */
  ghost predicate OnlyEffect(i: Instance, e: Status) {
    forall p :: p in AllEffectPairs(i) && Approved(p.1) ==> p.1.status == e
  }

  ghost predicate NeverManufactures(e: Status) {
    forall input: Input :: OnlyEffect(input.instance, e) ==> PassesKept(Resolve(input), Resolve(WithoutControls(input)))
  }

  /** One TBT without evidence under an approved waiver, one that passes, one FR over both. */
  function Witness(e: Status): Input {
    Input(
      Catalog([Tbt("A", ["F"], [], []), Tbt("B", ["F"], [], [])], [Fr("F")]),
      [Evidence("E", "test_result", None, Some(Passed), "strong", "B", [], [])],
      Instance([Control("W", Some(TargetRef("tbt", "A", "", "")), "", Some(e), Some("approved"))], []),
      [])
  }

  lemma WitnessEffects(e: Status)
    ensures AllEffectPairs(Witness(e).instance) == [("tbt:A", Effect("W", "waiver", e, "approved"))]
  {
    var c := Witness(e).instance.waivers[0];
    assert Witness(e).instance.waivers == [c] && [c][..0] == [];
    assert "tbt" + ":" + "A" == "tbt:A";
    assert ControlKey(c) == Some("tbt:A");
    assert EffectPairs([c], "waiver", Waived) == [("tbt:A", EffectOf(c, "waiver", Waived))];
  }

  lemma WitnessLookups(e: Status)
    ensures EffectsAt(Witness(e).instance, "tbt:A") == [Effect("W", "waiver", e, "approved")]
    ensures EffectsAt(Witness(e).instance, "tbt:B") == []
    ensures EffectsAt(Witness(e).instance, "fr:F") == []
    ensures RecordsFor(Witness(e).evidence, "A") == []
    ensures RecordsFor(Witness(e).evidence, "B") == Witness(e).evidence
  {
    WitnessEffects(e);
    var pair := ("tbt:A", Effect("W", "waiver", e, "approved"));
    assert AllEffectPairs(Witness(e).instance) == [pair];
    AtOne(pair, "tbt:A");
    AtOne(pair, "tbt:B");
    AtOne(pair, "fr:F");
    assert "tbt:A"[4] != "tbt:B"[4] && "tbt:A"[0] != "fr:F"[0];
    assert "tbt:A" != "tbt:B" && "tbt:A" != "fr:F";
    var record := ("B", Witness(e).evidence[0]);
    assert ProducerPairs(Witness(e).evidence) == [record];
    AtOne(record, "A");
    AtOne(record, "B");
    assert "A"[0] != "B"[0];
  }

  lemma WitnessTable(e: Status, i: Instance, a: Status)
    requires i == Witness(e).instance || i == Instance([], [])
    requires a == if i == Witness(e).instance then e else Missing
    ensures TbtTable(Witness(e).catalog.tbts, Witness(e).evidence, i)
         == Dict(["A", "B"], map["A" := TbtResult("A", ["F"], a), "B" := TbtResult("B", ["F"], Passed)])
  {
    hide TbtStatus;
    WitnessFails(e, i, a);
    WitnessPasses(e, i);
    TableOfTwo(Witness(e).catalog.tbts, Witness(e).evidence, i);
    assert "A"[0] != "B"[0];
  }

  lemma TableOfTwo(tbts: seq<Tbt>, evidence: seq<Evidence>, i: Instance)
    requires |tbts| == 2 && tbts[0].id != tbts[1].id
    ensures
      var s, t := tbts[0], tbts[1];
      TbtTable(tbts, evidence, i)
        == Dict([s.id, t.id], map[s.id := ResolveTbt(s, evidence, i), t.id := ResolveTbt(t, evidence, i)])
  {
    hide ResolveTbt;
    assert tbts[..1] == [tbts[0]] && [tbts[0]][..0] == [];
    assert TbtTable([], evidence, i) == Empty();
    assert TbtTable([tbts[0]], evidence, i) == Empty<string, TbtResult>().Put(tbts[0].id, ResolveTbt(tbts[0], evidence, i));
  }

  lemma WitnessFails(e: Status, i: Instance, a: Status)
    requires i == Witness(e).instance || i == Instance([], [])
    requires a == if i == Witness(e).instance then e else Missing
    ensures TbtStatus(Witness(e).catalog.tbts[0], Witness(e).evidence, i) == a
  {
    hide EffectsAt, RecordsFor;
    WitnessLookups(e);
    NoControls("tbt:A");
    assert "tbt:" + "A" == "tbt:A";
    var x := Effect("W", "waiver", e, "approved");
    assert [x][..0] == [];
    assert ApprovedControlEffect([x]) == Some(x);
  }

  lemma WitnessPasses(e: Status, i: Instance)
    requires i == Witness(e).instance || i == Instance([], [])
    ensures TbtStatus(Witness(e).catalog.tbts[1], Witness(e).evidence, i) == Passed
  {
    hide EffectsAt, RecordsFor;
    WitnessLookups(e);
    NoControls("tbt:B");
    assert "tbt:" + "B" == "tbt:B";
    var r := Witness(e).evidence[0];
    assert Statuses([r]) == [Passed] && [Passed][..0] == [];
    assert r in [r] && r.strength == "strong";
  }

  lemma WitnessFr(e: Status, i: Instance, a: Status)
    requires i == Witness(e).instance || i == Instance([], [])
    ensures
      var t := Dict(["A", "B"], map["A" := TbtResult("A", ["F"], a), "B" := TbtResult("B", ["F"], Passed)]);
      t.Valid() && FrStatus("F", t, i) == WorseStatus([a, Passed])
  {
    hide EffectsAt;
    WitnessLookups(e);
    NoControls("fr:F");
    assert "fr:" + "F" == "fr:F" && "A"[0] != "B"[0];
    var t := Dict(["A", "B"], map["A" := TbtResult("A", ["F"], a), "B" := TbtResult("B", ["F"], Passed)]);
    assert ["A", "B"][..1] == ["A"] && ["A"][..0] == [];
    assert LinkedToFr(["A"], t.at, "F") == [a];
    assert LinkedToFr(["A", "B"], t.at, "F") == [a, Passed];
  }

  lemma HighEffectManufactures(e: Status)
    requires Rank(e) >= Rank(Passed)
    ensures OnlyEffect(Witness(e).instance, e)
    ensures !PassesKept(Resolve(Witness(e)), Resolve(WithoutControls(Witness(e))))
  {
    hide EffectsAt, FrStatus, TbtTable, AllBlockers, RowIndex, AllEffectPairs;
    var input := Witness(e);
    var none := Instance([], []);
    WitnessEffects(e);
    WitnessTable(e, input.instance, e);
    WitnessTable(e, none, Missing);
    WitnessFr(e, input.instance, e);
    WitnessFr(e, none, Missing);
    assert [e, Passed][..1] == [e] && [Missing, Passed][..1] == [Missing] && [e][..0] == [];
    assert WorseStatus([e, Passed]) == Passed;
    assert WorseStatus([Missing, Passed]) == Missing;
    assert input.catalog.frs[..0] == [];
    assert Resolve(input).frs.at["F"] == Passed;
    assert Resolve(WithoutControls(input)).frs.at["F"] == Missing;
  }

  /** Exactly the effects that rank below `Passed` can never create a pass: the
      defaults `waived` and `compensating_control` cannot; a record that declares
      `passed`, `out_of_scope` or a status outside the table can. */
  lemma EffectIsSafeIffBelowPassed(e: Status)
    ensures NeverManufactures(e) <==> Rank(e) < Rank(Passed)
  {
    if Rank(e) < Rank(Passed) {
      forall input: Input | OnlyEffect(input.instance, e)
        ensures PassesKept(Resolve(input), Resolve(WithoutControls(input)))
      {
        hide Resolve, PassesKept;
        assert EffectsBelowPass(input.instance);
        ControlsNeverManufactureAPass(input);
      }
    } else {
      hide PassesKept, Resolve, Witness, OnlyEffect;
      HighEffectManufactures(e);
    }
  }

  // ----- Blocked rows ----------------------------------------------------------------

  /** A failed scanner record names a row that is filed under `key`. */
  ghost predicate RecordNames(r: Evidence, key: string) {
    FailedScan(r) && exists ref :: ref in r.rulesetRefs + r.mappingRefs && Usable(ref) && RowKey(ref.ruleset, ref.row) == key
  }

  ghost predicate MappingNames(m: ScannerMapping, key: string) {
    Blocks(m) && exists ref :: ref in m.rows && Usable(ref) && RowKey(ref.ruleset, ref.row) == key
  }

  /** Direct scanner evidence stands against the row filed under `key`. */
  ghost predicate Blocked(evidence: seq<Evidence>, packs: seq<Pack>, key: string) {
    || (exists r :: r in evidence && RecordNames(r, key))
    || (exists p, m :: p in packs && m in p.mappings && MappingNames(m, key))
  }

  ghost predicate Filed<V>(pairs: seq<(string, V)>, key: string) {
    exists i :: 0 <= i < |pairs| && pairs[i].0 == key
  }

  lemma {:induction false} FiledIffAt<V>(pairs: seq<(string, V)>, key: string)
    ensures Filed(pairs, key) <==> At(pairs, key) != []
  {
    if pairs != [] {
      var front := pairs[..|pairs| - 1];
      FiledIffAt(front, key);
      if Filed(pairs, key) {
        var i :| 0 <= i < |pairs| && pairs[i].0 == key;
        if i < |front| {
          assert front[i].0 == key;
        }
      }
      if Filed(front, key) {
        var i :| 0 <= i < |front| && front[i].0 == key;
        assert pairs[i].0 == key;
      }
    }
  }

  lemma FiledAppend<V>(p: seq<(string, V)>, q: seq<(string, V)>, key: string)
    ensures Filed(p + q, key) <==> Filed(p, key) || Filed(q, key)
  {
    if Filed(p, key) {
      var i :| 0 <= i < |p| && p[i].0 == key;
      assert (p + q)[i].0 == key;
    }
    if Filed(q, key) {
      var i :| 0 <= i < |q| && q[i].0 == key;
      assert (p + q)[|p| + i].0 == key;
    }
  }

  lemma {:induction false} UsableRowsMember(rows: seq<RowRef>, row: RowRef)
    ensures row in UsableRows(rows) <==> row in rows && Usable(row)
  {
    if rows != [] {
      UsableRowsMember(rows[..|rows| - 1], row);
      assert rows == rows[..|rows| - 1] + [rows[|rows| - 1]];
    }
  }

  lemma RecordFiles(r: Evidence, key: string)
    ensures Filed(RecordBlockers(r), key) <==> RecordNames(r, key)
  {
    hide UsableRows;
    if FailedScan(r) {
      var rows := UsableRows(r.rulesetRefs + UsableRows(r.mappingRefs));
      forall ref ensures ref in rows <==> ref in r.rulesetRefs + r.mappingRefs && Usable(ref) {
        UsableRowsMember(r.rulesetRefs + UsableRows(r.mappingRefs), ref);
        UsableRowsMember(r.mappingRefs, ref);
      }
      if Filed(RecordBlockers(r), key) {
        var i :| 0 <= i < |rows| && RecordBlockers(r)[i].0 == key;
        assert rows[i] in rows;
      }
      if RecordNames(r, key) {
        var ref :| ref in r.rulesetRefs + r.mappingRefs && Usable(ref) && RowKey(ref.ruleset, ref.row) == key;
        var i :| 0 <= i < |rows| && rows[i] == ref;
        assert RecordBlockers(r)[i].0 == key;
      }
    }
  }

  lemma {:induction false} EvidenceFiles(evidence: seq<Evidence>, key: string)
    ensures Filed(EvidenceBlockers(evidence), key) <==> exists r :: r in evidence && RecordNames(r, key)
  {
    hide Filed, RecordNames, RecordBlockers;
    if evidence == [] {
      NothingFiled<Blocker>(key);
    } else {
      var front, r := evidence[..|evidence| - 1], evidence[|evidence| - 1];
      assert evidence == front + [r];
      EvidenceFiles(front, key);
      RecordFiles(r, key);
      FiledAppend(EvidenceBlockers(front), RecordBlockers(r), key);
    }
  }

  lemma NothingFiled<V>(key: string)
    ensures !Filed<V>([], key)
  {
  }

  lemma FindingsFile(scanner: string, m: ScannerMapping, at: string, key: string)
    requires m.matched != []
    ensures Filed(FindingBlockers(scanner, m, at), key) <==> at == key
  {
    var r := FindingBlockers(scanner, m, at);
    assert |r| > 0 && r[0].0 == at;
  }

  lemma {:induction false} RowsFile(scanner: string, m: ScannerMapping, rows: seq<RowRef>, key: string)
    requires m.matched != []
    ensures Filed(RowsOfMapping(scanner, m, rows), key) <==>
      exists ref :: ref in rows && Usable(ref) && RowKey(ref.ruleset, ref.row) == key
  {
    hide Filed, FindingBlockers, RowKey;
    if rows == [] {
      NothingFiled<Blocker>(key);
    } else {
      var front, row := rows[..|rows| - 1], rows[|rows| - 1];
      assert rows == front + [row];
      RowsFile(scanner, m, front, key);
      var at := RowKey(row.ruleset, row.row);
      FindingsFile(scanner, m, at, key);
      FiledAppend(RowsOfMapping(scanner, m, front), FindingBlockers(scanner, m, at), key);
    }
  }

  lemma {:induction false} MappingsFile(scanner: string, ms: seq<ScannerMapping>, key: string)
    ensures Filed(MappingBlockers(scanner, ms), key) <==> exists m :: m in ms && MappingNames(m, key)
  {
    hide Filed, RowsOfMapping, MappingNames;
    if ms == [] {
      NothingFiled<Blocker>(key);
    } else {
      var front, m := ms[..|ms| - 1], ms[|ms| - 1];
      assert ms == front + [m];
      MappingsFile(scanner, front, key);
      MappingFiles(scanner, m, key);
      FiledAppend(MappingBlockers(scanner, front), RowsOfMapping(scanner, m, m.rows), key);
    }
  }

  lemma MappingFiles(scanner: string, m: ScannerMapping, key: string)
    ensures MappingNames(m, key) <==> Blocks(m) && Filed(RowsOfMapping(scanner, m, m.rows), key)
  {
    hide Filed, RowsOfMapping;
    if Blocks(m) {
      RowsFile(scanner, m, m.rows, key);
    }
  }

  lemma {:induction false} PacksFile(packs: seq<Pack>, key: string)
    ensures Filed(PackBlockers(packs), key) <==> exists p, m :: p in packs && m in p.mappings && MappingNames(m, key)
  {
    hide Filed, MappingBlockers, MappingNames;
    if packs == [] {
      NothingFiled<Blocker>(key);
    } else {
      var front, p := packs[..|packs| - 1], packs[|packs| - 1];
      assert packs == front + [p];
      PacksFile(front, key);
      MappingsFile(p.scanner, p.mappings, key);
      FiledAppend(PackBlockers(front), MappingBlockers(p.scanner, p.mappings), key);
    }
  }

  lemma {:induction false} WalkFiles(d: Dict<string, seq<Blocker>>, keys: seq<string>, key: string)
    ensures Filed(Walk(d, keys), key) <==> key in keys && Lookup(d, key) != []
  {
    hide Filed, Lookup;
    if keys == [] {
      NothingFiled<Blocker>(key);
    } else {
      var front, k := keys[..|keys| - 1], keys[|keys| - 1];
      assert keys == front + [k];
      WalkFiles(d, front, key);
      TagsFile(k, Lookup(d, k), key);
      FiledAppend(Walk(d, front), Tagged(k, Lookup(d, k)), key);
    }
  }

  lemma TagsFile(k: string, bs: seq<Blocker>, key: string)
    ensures Filed(Tagged(k, bs), key) <==> k == key && bs != []
  {
    if bs != [] {
      assert Tagged(k, bs)[0].0 == k;
    }
  }

  /** Walking the dictionary a loop built meets exactly the keys the loop filed. */
  lemma WalkOfGrouped(pairs: seq<(string, Blocker)>, key: string)
    ensures Filed(Walk(Grouped(pairs), Grouped(pairs).keys), key) <==> Filed(pairs, key)
  {
    var d := Grouped(pairs);
    GroupedValid(pairs);
    GroupedLookup(pairs, key);
    hide Grouped, At, Walk;
    WalkFiles(d, d.keys, key);
    FiledIffAt(pairs, key);
  }

  lemma {:induction false} UnseenFiles(pairs: seq<(string, Blocker)>, key: string)
    ensures Filed(Unseen(pairs), key) <==> Filed(pairs, key)
  {
    if pairs != [] {
      var front, p := pairs[..|pairs| - 1], pairs[|pairs| - 1];
      assert pairs == front + [p];
      UnseenFiles(front, key);
      FiledAppend(front, [p], key);
      FiledAppend(Unseen(front), [p], key);
      assert [p][0] == p;
      if (p.0, MarkerOf(p.1)) in Marks(front) && p.0 == key {
        var i :| 0 <= i < |front| && Marks(front)[i] == (p.0, MarkerOf(p.1));
        assert front[i].0 == key;
      }
    }
  }

  lemma BlockersIffBlocked(evidence: seq<Evidence>, packs: seq<Pack>, key: string)
    ensures Lookup(AllBlockers(evidence, packs), key) != [] <==> Blocked(evidence, packs, key)
  {
    hide Grouped, Filed, RecordNames, MappingNames, Walk, Unseen, At, EvidenceBlockers, PackBlockers;
    var p, q := EvidenceBlockers(evidence), PackBlockers(packs);
    var first, second := Grouped(p), Grouped(q);
    var merged := MergedPairs(first, second);
    GroupedLookup(merged, key);
    FiledIffAt(merged, key);
    UnseenFiles(Walk(first, first.keys) + Walk(second, second.keys), key);
    FiledAppend(Walk(first, first.keys), Walk(second, second.keys), key);
    WalkOfGrouped(p, key);
    WalkOfGrouped(q, key);
    EvidenceFiles(evidence, key);
    PacksFile(packs, key);
  }

  /** No row keeps two blockers with one marker. */
  lemma {:induction false} MergedBlockersAreDistinct(pairs: seq<(string, Blocker)>)
    ensures Distinct(Marks(Unseen(pairs)))
    ensures forall m :: m in Marks(Unseen(pairs)) <==> m in Marks(pairs)
  {
    if pairs != [] {
      var front, p := pairs[..|pairs| - 1], pairs[|pairs| - 1];
      var mark := (p.0, MarkerOf(p.1));
      MergedBlockersAreDistinct(front);
      assert Marks(pairs) == Marks(front) + [mark];
      assert Marks(Unseen(front) + [p]) == Marks(Unseen(front)) + [mark];
    }
  }
}
