/** Planning a pack from the FR catalog, promoting planned tests to scaffolds, and what is
    left of a promoted test after any number of rebuilds. */
module TestPackLifecycle {
  import opened Wrappers
  import opened Sequences
  import opened Grouping
  import opened TestPack
  import Text

  datatype Fr = Fr(id: string, lifecycle: Option<string>, status: Option<string>, title: string, gates: seq<string>)

  datatype Tbt = Tbt(id: string, title: string, kind: string, proves: seq<string>, compliance: seq<(string, string)>)

  datatype Catalog = Catalog(frs: seq<Fr>, tbts: seq<Tbt>)

  /** Which files the target has, and the two text renderings the scripts use. */
  datatype Env = Env(exists_: string -> bool, suggest: (Catalog, Tbt) -> string, slug: string -> string)

  // ----- Planned entries -----------------------------------------------------------------------

  predicate InScope(fr: Fr) {
    if fr.lifecycle.Some? then fr.lifecycle.value == "in_scope"
    else if fr.status.Some? then fr.status.value == "in_scope"
    else true
  }

  function ScopedIds(frs: seq<Fr>): set<string> {
    set f | f in frs && InScope(f) && f.id != "" :: f.id
  }

  function OnlyIn(ids: seq<string>, allowed: set<string>): seq<string> {
    if ids == [] then []
    else
      var rest, id := OnlyIn(ids[..|ids| - 1], allowed), ids[|ids| - 1];
      if id in allowed then rest + [id] else rest
  }

  function UsableRows(rows: seq<(string, string)>): seq<(string, string)> {
    if rows == [] then []
    else
      var rest, r := UsableRows(rows[..|rows| - 1]), rows[|rows| - 1];
      if r.0 == "" || r.1 == "" then rest else rest + [r]
  }

  /** The complete rows, each once, in order of first mention. */
  method CollectRows(rows: seq<(string, string)>) returns (r: seq<(string, string)>)
    ensures r == Dedup(UsableRows(rows))
  {
    r := [];
    var seen: set<(string, string)> := {};
    for n := 0 to |rows|
      invariant r == Dedup(UsableRows(rows[..n]))
      invariant forall x :: x in seen <==> x in r
    {
      assert rows[..n + 1][..n] == rows[..n];
      DedupSnoc(UsableRows(rows[..n]), rows[n]);
      if rows[n].0 == "" || rows[n].1 == "" || rows[n] in seen {
        continue;
      }
      seen := seen + {rows[n]};
      r := r + [rows[n]];
    }
    assert rows[..|rows|] == rows;
  }

  function SuggestedPath(t: Tbt): string {
    "tests/asvs/" + (if t.kind in {"unit", "integration", "e2e", "load"} then t.kind else "planned")
    + "/" + t.id + ".assurance." + (if t.kind in {"unit", "integration", "e2e", "test"} then "test.js" else "spec")
  }

  function PlannedEntry(c: Catalog, t: Tbt, env: Env): Option<Entry> {
    var proved := OnlyIn(t.proves, ScopedIds(c.frs));
    var title := Or(t.title, t.id);
    var rows := Dedup(UsableRows(t.compliance));
    if t.id == "" || proved == [] then None
    else if env.exists_(SuggestedPath(t)) then
      Some(Entry("EXISTING-" + t.id, t.id, "", SuggestedPath(t), t.kind, "existing_asvs", "existing",
                 "needs_review", "review_required", title, proved, rows, [], env.suggest(c, t)))
    else
      Some(Entry(t.id, t.id, "", SuggestedPath(t), t.kind, "planned_tbt", "planned",
                 "needs_design", "non_destructive", title, proved, rows, [], env.suggest(c, t)))
  }

  function PlannedOf(c: Catalog, tbts: seq<Tbt>, env: Env): seq<Entry> {
    if tbts == [] then []
    else
      var rest, e := PlannedOf(c, tbts[..|tbts| - 1], env), PlannedEntry(c, tbts[|tbts| - 1], env);
      if e.Some? then rest + [e.value] else rest
  }

  method ProvedFrs(ids: seq<string>, allowed: set<string>) returns (r: seq<string>)
    ensures r == OnlyIn(ids, allowed)
  {
    r := [];
    for n := 0 to |ids|
      invariant r == OnlyIn(ids[..n], allowed)
    {
      assert ids[..n + 1][..n] == ids[..n];
      if ids[n] in allowed {
        r := r + [ids[n]];
      }
    }
    assert ids[..|ids|] == ids;
  }

  method PlannedEntries(c: Catalog, env: Env) returns (entries: seq<Entry>)
    ensures entries == PlannedOf(c, c.tbts, env)
  {
    var scoped := ScopedIds(c.frs);
    entries := [];
    for n := 0 to |c.tbts|
      invariant entries == PlannedOf(c, c.tbts[..n], env)
    {
      var t := c.tbts[n];
      assert c.tbts[..n + 1][..n] == c.tbts[..n];
      if t.id == "" {
        continue;
      }
      var proved := ProvedFrs(t.proves, scoped);
      if proved == [] {
        continue;
      }
      var rows := CollectRows(t.compliance);
      var path := SuggestedPath(t);
      var e := Entry(t.id, t.id, "", path, t.kind, "planned_tbt", "planned", "needs_design", "non_destructive",
                     Or(t.title, t.id), proved, rows, [], env.suggest(c, t));
      if env.exists_(path) {
        e := e.(packId := "EXISTING-" + t.id, source := "existing_asvs", status := "existing",
                assessment := "needs_review", safety := "review_required");
      }
      entries := entries + [e];
    }
    assert c.tbts[..|c.tbts|] == c.tbts;
  }

  /** The planned entries are exactly one for each TBT that has an id and proves some FR in
      scope, filed under that TBT. */
  lemma {:induction false} PlannedExactly(c: Catalog, tbts: seq<Tbt>, env: Env, e: Entry)
    ensures e in PlannedOf(c, tbts, env) <==> exists t :: t in tbts && PlannedEntry(c, t, env) == Some(e)
    ensures e in PlannedOf(c, tbts, env) && Text.Strip(e.tbt) != "" ==> KeyOf(e) == TbtKey(Text.Strip(e.tbt))
    ensures e in PlannedOf(c, tbts, env) ==>
      exists t :: t in tbts && t.id == e.tbt != "" && exists id :: id in t.proves && id in ScopedIds(c.frs)
  {
    hide SuggestedPath, ScopedIds, UsableRows, OnlyIn;
    if tbts != [] {
      var front, last := tbts[..|tbts| - 1], tbts[|tbts| - 1];
      assert tbts == front + [last];
      PlannedExactly(c, front, env, e);
      if PlannedEntry(c, last, env) == Some(e) {
        var proved := OnlyIn(last.proves, ScopedIds(c.frs));
        OnlyInMember(last.proves, ScopedIds(c.frs), proved[0]);
      }
    }
  }

  lemma {:induction false} OnlyInMember(ids: seq<string>, allowed: set<string>, id: string)
    ensures id in OnlyIn(ids, allowed) <==> id in ids && id in allowed
  {
    if ids != [] {
      OnlyInMember(ids[..|ids| - 1], allowed, id);
      assert ids == ids[..|ids| - 1] + [ids[|ids| - 1]];
    }
  }

  // ----- Promotion -----------------------------------------------------------------------------

  /** `{t["id"]: t for t in tbts if t.get("id")}.get(id)`. */
  function LastTbt(tbts: seq<Tbt>, id: string): (r: Option<Tbt>)
    ensures r.Some? ==> r.value.id == id != ""
  {
    if tbts == [] then None
    else
      var t := tbts[|tbts| - 1];
      if t.id != "" && t.id == id then Some(t) else LastTbt(tbts[..|tbts| - 1], id)
  }

  function LastFr(frs: seq<Fr>, id: string): Option<Fr> {
    if frs == [] then None
    else
      var f := frs[|frs| - 1];
      if f.id != "" && f.id == id then Some(f) else LastFr(frs[..|frs| - 1], id)
  }

  function FrsOf(frs: seq<Fr>, ids: seq<string>): seq<Fr> {
    if ids == [] then []
    else
      var rest, f := FrsOf(frs, ids[..|ids| - 1]), LastFr(frs, ids[|ids| - 1]);
      if f.Some? then rest + [f.value] else rest
  }

  function GatesOf(frs: seq<Fr>): seq<string> {
    if frs == [] then [] else GatesOf(frs[..|frs| - 1]) + frs[|frs| - 1].gates
  }

  function IdsOf(frs: seq<Fr>): seq<string> {
    seq(|frs|, i requires 0 <= i < |frs| => frs[i].id)
  }

  function ScaffoldId(id: string): string {
    "GENERATED-" + id
  }

  function Scaffold(c: Catalog, t: Tbt, env: Env): Entry {
    var frs := FrsOf(c.frs, t.proves);
    Entry(ScaffoldId(t.id), t.id, "", "tests/asvs/" + t.kind + "/" + env.slug(t.id) + ".assurance.test.js", t.kind,
          "generated", "generated", "needs_design", "review_required",
          Or(t.title, if frs != [] then frs[0].title else t.id), IdsOf(frs),
          Dedup(UsableRows(t.compliance)), Dedup(GatesOf(frs)),
          "Implement " + t.id + " in a disposable test environment and export observed JUnit evidence.")
  }

  function Scaffolds(c: Catalog, selected: seq<string>, env: Env): seq<Entry> {
    if selected == [] then []
    else
      var rest, t := Scaffolds(c, selected[..|selected| - 1], env), LastTbt(c.tbts, selected[|selected| - 1]);
      if t.Some? then rest + [Scaffold(c, t.value, env)] else rest
  }

  function TbtsOf(entries: seq<Entry>): set<string> {
    set e | e in entries :: e.tbt
  }

  /** A planned or generated entry of a TBT that is being promoted gives way. */
  predicate Superseded(e: Entry, promoted: set<string>) {
    e.tbt in promoted && e.status in {"planned", "generated"} && e.source in {"planned_tbt", "generated"}
  }

  function Kept(tests: seq<Entry>, promoted: set<string>): seq<Entry> {
    if tests == [] then []
    else
      var rest, e := Kept(tests[..|tests| - 1], promoted), tests[|tests| - 1];
      if e.packId != "" && !Superseded(e, promoted) then rest + [e] else rest
  }

  function ByPack(entries: seq<Entry>): (r: seq<(string, Entry)>)
    ensures |r| == |entries|
    ensures forall i :: 0 <= i < |entries| ==> r[i] == (entries[i].packId, entries[i])
  {
    seq(|entries|, i requires 0 <= i < |entries| => (entries[i].packId, entries[i]))
  }

  /** The last entry of each of the given pack ids. */
  function Latest(ids: seq<string>, pairs: seq<(string, Entry)>): seq<Entry> {
    if ids == [] then []
    else
      var rest, at := Latest(ids[..|ids| - 1], pairs), At(pairs, ids[|ids| - 1]);
      if at == [] then rest else rest + [at[|at| - 1]]
  }

  function SortedByPack(entries: seq<Entry>): seq<Entry> {
    Latest(Text.SortedSet(KeysOf(ByPack(entries))), ByPack(entries))
  }

  datatype PromoteError = ManifestMissing | NothingSelected

  /** The tests of the manifest after a promotion. */
  function Promoted(manifest: Option<seq<Entry>>, c: Catalog, selected: seq<string>, env: Env): Result<seq<Entry>, PromoteError> {
    var scaffolds := Scaffolds(c, selected, env);
    if manifest.None? then Failure(ManifestMissing)
    else if scaffolds == [] then Failure(NothingSelected)
    else Success(SortedByPack(Kept(manifest.value, TbtsOf(scaffolds)) + scaffolds))
  }

  /** The dictionary by pack id holds the last entry of every id. */
  ghost predicate HoldsLatest(d: Dict<string, Entry>, pairs: seq<(string, Entry)>) {
    && d.Valid()
    && (forall k :: k in d.at <==> k in KeysOf(pairs))
    && forall k :: k in d.at ==> At(pairs, k) != [] && d.at[k] == At(pairs, k)[|At(pairs, k)| - 1]
  }

  lemma HoldsLatestStep(d: Dict<string, Entry>, entries: seq<Entry>, e: Entry)
    requires HoldsLatest(d, ByPack(entries))
    ensures HoldsLatest(d.Put(e.packId, e), ByPack(entries + [e]))
  {
    hide At;
    var pairs, p := ByPack(entries), (e.packId, e);
    assert ByPack(entries + [e]) == pairs + [p];
    assert KeysOf(pairs + [p]) == KeysOf(pairs) + [e.packId];
    PutValid(d, e.packId, e);
    forall k | k in d.Put(e.packId, e).at
      ensures At(pairs + [p], k) != [] && d.Put(e.packId, e).at[k] == At(pairs + [p], k)[|At(pairs + [p], k)| - 1] {
      AtSnoc(pairs, p, k);
    }
  }

  method KeepTests(tests: seq<Entry>, promoted: set<string>) returns (existing: Dict<string, Entry>)
    ensures HoldsLatest(existing, ByPack(Kept(tests, promoted)))
  {
    existing := Empty();
    assert HoldsLatest(existing, ByPack(Kept(tests[..0], promoted)));
    hide HoldsLatest;
    for n := 0 to |tests|
      invariant HoldsLatest(existing, ByPack(Kept(tests[..n], promoted)))
    {
      var item := tests[n];
      assert tests[..n + 1][..n] == tests[..n];
      if item.packId != "" && !Superseded(item, promoted) {
        HoldsLatestStep(existing, Kept(tests[..n], promoted), item);
        existing := existing.Put(item.packId, item);
      }
    }
    assert tests[..|tests|] == tests;
  }

  method AddScaffolds(start: Dict<string, Entry>, ghost kept: seq<Entry>, scaffolds: seq<Entry>)
    returns (existing: Dict<string, Entry>)
    requires HoldsLatest(start, ByPack(kept))
    ensures HoldsLatest(existing, ByPack(kept + scaffolds))
  {
    existing := start;
    assert kept + scaffolds[..0] == kept;
    hide HoldsLatest, Dict.Put;
    for n := 0 to |scaffolds|
      invariant HoldsLatest(existing, ByPack(kept + scaffolds[..n]))
    {
      ghost var before := kept + scaffolds[..n];
      HoldsLatestStep(existing, before, scaffolds[n]);
      assert kept + scaffolds[..n + 1] == before + [scaffolds[n]];
      existing := existing.Put(scaffolds[n].packId, scaffolds[n]);
    }
    assert scaffolds[..|scaffolds|] == scaffolds;
  }

  method CollectGates(frs: seq<Fr>) returns (gates: seq<string>)
    ensures gates == Dedup(GatesOf(frs))
  {
    gates := [];
    for n := 0 to |frs|
      invariant gates == Dedup(GatesOf(frs[..n]))
    {
      var more := frs[n].gates;
      ghost var before := GatesOf(frs[..n]);
      assert before + more[..0] == before;
      for m := 0 to |more|
        invariant gates == Dedup(before + more[..m])
      {
        assert before + more[..m + 1] == (before + more[..m]) + [more[m]];
        DedupSnoc(before + more[..m], more[m]);
        if more[m] !in gates {
          gates := gates + [more[m]];
        }
      }
      assert more[..|more|] == more;
      assert frs[..n + 1][..n] == frs[..n];
    }
    assert frs[..|frs|] == frs;
  }

  method MakeScaffolds(c: Catalog, selected: seq<string>, env: Env) returns (promoted: seq<Entry>)
    ensures promoted == Scaffolds(c, selected, env)
  {
    promoted := [];
    for n := 0 to |selected|
      invariant promoted == Scaffolds(c, selected[..n], env)
    {
      assert selected[..n + 1][..n] == selected[..n];
      var found := LastTbt(c.tbts, selected[n]);
      if found.None? {
        continue;
      }
      var t := found.value;
      var frs := FrsOf(c.frs, t.proves);
      var rows := CollectRows(t.compliance);
      var gates := CollectGates(frs);
      promoted := promoted + [Scaffold(c, t, env).(rows := rows, gates := gates)];
    }
    assert selected[..|selected|] == selected;
  }

  method Promote(manifest: Option<seq<Entry>>, c: Catalog, selected: seq<string>, env: Env)
    returns (r: Result<seq<Entry>, PromoteError>)
    ensures r == Promoted(manifest, c, selected, env)
  {
    hide Scaffolds, Kept, HoldsLatest, Text.SortedSet;
    if manifest.None? {
      return Failure(ManifestMissing);
    }
    var scaffolds := MakeScaffolds(c, selected, env);
    if scaffolds == [] {
      return Failure(NothingSelected);
    }
    var existing := KeepTests(manifest.value, TbtsOf(scaffolds));
    ghost var kept := Kept(manifest.value, TbtsOf(scaffolds));
    existing := AddScaffolds(existing, kept, scaffolds);
    var tests := InOrder(existing, kept + scaffolds);
    r := Success(tests);
  }

  method InOrder(existing: Dict<string, Entry>, ghost entries: seq<Entry>) returns (tests: seq<Entry>)
    requires HoldsLatest(existing, ByPack(entries))
    ensures tests == SortedByPack(entries)
  {
    hide At, Text.SortedSet;
    var ids := Text.SortedSet(existing.keys);
    ghost var pairs := ByPack(entries);
    Text.SortedSetIncreases(existing.keys);
    Text.SortedSetIncreases(KeysOf(pairs));
    Text.IncreasingIsUnique(ids, Text.SortedSet(KeysOf(pairs)));
    tests := [];
    for n := 0 to |ids|
      invariant tests == Latest(ids[..n], pairs)
    {
      assert ids[..n + 1][..n] == ids[..n];
      assert ids[n] in ids;
      tests := tests + [existing.at[ids[n]]];
    }
    assert ids[..|ids|] == ids;
  }

  // ----- What promotion and rebuilding promise ---------------------------------------------------

  lemma {:induction false} LatestMember(ids: seq<string>, pairs: seq<(string, Entry)>, e: Entry)
    ensures e in Latest(ids, pairs) <==> exists k :: k in ids && At(pairs, k) != [] && e == At(pairs, k)[|At(pairs, k)| - 1]
  {
    hide At;
    if ids != [] {
      var front, last := ids[..|ids| - 1], ids[|ids| - 1];
      LatestMember(front, pairs, e);
      assert ids == front + [last] && last in ids;
      forall k | k in ids ensures k in front || k == last { }
      forall k | k in front ensures k in ids { }
    }
  }

  /** Every test of the new manifest is the last entry of its pack id. */
  lemma SortedByPackMember(entries: seq<Entry>, e: Entry)
    ensures e in SortedByPack(entries) <==>
      var at := At(ByPack(entries), e.packId);
      at != [] && e == at[|at| - 1]
  {
    hide At, Text.SortedSet;
    var pairs := ByPack(entries);
    var ids := Text.SortedSet(KeysOf(pairs));
    LatestMember(ids, pairs, e);
    if e in SortedByPack(entries) {
      var k :| k in ids && At(pairs, k) != [] && e == At(pairs, k)[|At(pairs, k)| - 1];
      AtFiled(pairs, k, e);
    }
    if At(pairs, e.packId) != [] && e.packId !in KeysOf(pairs) {
      AbsentKey(pairs, e.packId);
    }
  }

  /** The pack ids are distinct and in code-point order. */
  lemma {:induction false} PackIdsIncrease(ids: seq<string>, pairs: seq<(string, Entry)>)
    requires forall k :: k in ids ==> k in KeysOf(pairs)
    requires forall i :: 0 <= i < |pairs| ==> pairs[i].0 == pairs[i].1.packId
    ensures |Latest(ids, pairs)| == |ids|
    ensures forall i :: 0 <= i < |ids| ==> Latest(ids, pairs)[i].packId == ids[i]
  {
    hide At;
    if ids != [] {
      PackIdsIncrease(ids[..|ids| - 1], pairs);
      var k := ids[|ids| - 1];
      assert k in ids;
      var n :| 0 <= n < |pairs| && KeysOf(pairs)[n] == k;
      AtMember(pairs, k, pairs[n].1);
      AtFiled(pairs, k, At(pairs, k)[|At(pairs, k)| - 1]);
    }
  }

  lemma PromotedInOrder(manifest: seq<Entry>, c: Catalog, selected: seq<string>, env: Env)
    requires Promoted(Some(manifest), c, selected, env).Success?
    ensures
      var tests := Promoted(Some(manifest), c, selected, env).value;
      forall i, j :: 0 <= i < j < |tests| ==> Text.Before(tests[i].packId, tests[j].packId)
  {
    hide Kept, Scaffolds, Text.SortedSet, Text.Before;
    var scaffolds := Scaffolds(c, selected, env);
    var pairs := ByPack(Kept(manifest, TbtsOf(scaffolds)) + scaffolds);
    var ids := Text.SortedSet(KeysOf(pairs));
    Text.SortedSetIncreases(KeysOf(pairs));
    PackIdsIncrease(ids, pairs);
    var tests := Latest(ids, pairs);
    forall i, j | 0 <= i < j < |tests| ensures Text.Before(tests[i].packId, tests[j].packId) {
      assert Text.Before(ids[i], ids[j]);
    }
  }

  lemma {:induction false} ScaffoldsMember(c: Catalog, selected: seq<string>, env: Env, e: Entry)
    ensures e in Scaffolds(c, selected, env) <==>
      exists id :: id in selected && LastTbt(c.tbts, id).Some? && e == Scaffold(c, LastTbt(c.tbts, id).value, env)
  {
    hide Scaffold, LastTbt;
    if selected != [] {
      var front, last := selected[..|selected| - 1], selected[|selected| - 1];
      ScaffoldsMember(c, front, env, e);
      assert selected == front + [last] && last in selected;
      forall id | id in selected ensures id in front || id == last { }
      forall id | id in front ensures id in selected { }
    }
  }

  lemma {:induction false} KeptMember(tests: seq<Entry>, promoted: set<string>, e: Entry)
    ensures e in Kept(tests, promoted) <==> e in tests && e.packId != "" && !Superseded(e, promoted)
  {
    hide Superseded;
    if tests != [] {
      KeptMember(tests[..|tests| - 1], promoted, e);
      assert tests == tests[..|tests| - 1] + [tests[|tests| - 1]];
    }
  }

  /** Only the scaffold of a TBT carries its generated pack id. */
  lemma OneScaffoldPerId(c: Catalog, selected: seq<string>, env: Env, x: Tbt, e: Entry)
    requires LastTbt(c.tbts, x.id) == Some(x)
    requires e in Scaffolds(c, selected, env) && e.packId == ScaffoldId(x.id)
    ensures e == Scaffold(c, x, env)
  {
    hide LastTbt;
    ScaffoldsMember(c, selected, env, e);
    var id :| id in selected && LastTbt(c.tbts, id).Some? && e == Scaffold(c, LastTbt(c.tbts, id).value, env);
    assert e.tbt == e.packId[10..] && x.id == ScaffoldId(x.id)[10..];
  }

  /** `x` was asked for and the catalog has it. */
  predicate Selected(c: Catalog, selected: seq<string>, x: Tbt) {
    x.id in selected && LastTbt(c.tbts, x.id) == Some(x)
  }

  /** After a promotion the scaffold is in the manifest and alone under its pack id, and no
      planned or generated entry of its TBT is left beside it. */
  lemma PromotionLeavesTheScaffold(manifest: seq<Entry>, c: Catalog, selected: seq<string>, env: Env, x: Tbt)
    requires Selected(c, selected, x)
    ensures Promoted(Some(manifest), c, selected, env).Success?
    ensures
      var tests := Promoted(Some(manifest), c, selected, env).value;
      && Scaffold(c, x, env) in tests
      && (forall e :: e in tests && e.packId == ScaffoldId(x.id) ==> e == Scaffold(c, x, env))
      && (forall e :: e in tests && Superseded(e, {x.id}) ==> e == Scaffold(c, x, env))
  {
    hide Kept, Scaffolds, LastTbt, At, SortedByPack, Scaffold;
    var scaffolds := Scaffolds(c, selected, env);
    var s := Scaffold(c, x, env);
    ScaffoldsMember(c, selected, env, s);
    var kept := Kept(manifest, TbtsOf(scaffolds));
    var all := kept + scaffolds;
    var tests := SortedByPack(all);
    ScaffoldOnTop(c, selected, env, x, kept);
    SortedByPackMember(all, s);
    forall e | e in tests ensures e.packId == ScaffoldId(x.id) ==> e == s {
      SortedByPackMember(all, e);
    }
    forall e | e in tests && Superseded(e, {x.id}) ensures e == s {
      SortedByPackMember(all, e);
      AtFiled(ByPack(all), e.packId, e);
      KeptMember(manifest, TbtsOf(scaffolds), e);
      ScaffoldTbt(c, selected, env, x, e);
    }
  }

  lemma ScaffoldTbt(c: Catalog, selected: seq<string>, env: Env, x: Tbt, e: Entry)
    requires Selected(c, selected, x) && e.tbt == x.id
    ensures x.id in TbtsOf(Scaffolds(c, selected, env))
    ensures e in Scaffolds(c, selected, env) ==> e == Scaffold(c, x, env)
  {
    hide LastTbt;
    ScaffoldsMember(c, selected, env, Scaffold(c, x, env));
    ScaffoldsMember(c, selected, env, e);
    assert Scaffold(c, x, env).tbt == x.id;
  }

  lemma ScaffoldOnTop(c: Catalog, selected: seq<string>, env: Env, x: Tbt, kept: seq<Entry>)
    requires Selected(c, selected, x)
    ensures
      var at := At(ByPack(kept + Scaffolds(c, selected, env)), ScaffoldId(x.id));
      at != [] && at[|at| - 1] == Scaffold(c, x, env) && Scaffold(c, x, env).packId == ScaffoldId(x.id)
  {
    hide LastTbt, At;
    var scaffolds, k, s := Scaffolds(c, selected, env), ScaffoldId(x.id), Scaffold(c, x, env);
    assert ByPack(kept + scaffolds) == ByPack(kept) + ByPack(scaffolds);
    AtAppend(ByPack(kept), ByPack(scaffolds), k);
    ScaffoldsMember(c, selected, env, s);
    var n :| 0 <= n < |scaffolds| && scaffolds[n] == s;
    assert ByPack(scaffolds)[n] == (k, s);
    AtMember(ByPack(scaffolds), k, s);
    var at := At(ByPack(scaffolds), k);
    AtFiled(ByPack(scaffolds), k, at[|at| - 1]);
    OneScaffoldPerId(c, selected, env, x, at[|at| - 1]);
  }

  /** Before the promotion, whatever would be carried forward under the TBT is replaced by
      its scaffold, and no other selected TBT shares its stripped id. */
  ghost predicate NothingElseCarried(manifest: seq<Entry>, c: Catalog, selected: seq<string>, x: Tbt) {
    && (forall e :: e in manifest && KeyOf(e) == TbtKey(Text.Strip(x.id)) && CarryForward(e) ==>
      e.packId == "" || e.packId == ScaffoldId(x.id) || Superseded(e, {x.id}))
    && (forall id :: id in selected && LastTbt(c.tbts, id).Some? && Text.Strip(id) == Text.Strip(x.id) ==> id == x.id)
  }

  lemma ScaffoldAloneCarried(manifest: seq<Entry>, c: Catalog, selected: seq<string>, env: Env, x: Tbt)
    requires Selected(c, selected, x) && Text.Strip(x.id) != ""
    requires NothingElseCarried(manifest, c, selected, x)
    ensures Promoted(Some(manifest), c, selected, env).Success?
    ensures OnlyEntryCarried(Promoted(Some(manifest), c, selected, env).value, Scaffold(c, x, env))
  {
    hide Kept, Scaffolds, LastTbt, At, SortedByPack, Text.Strip;
    var scaffolds, s := Scaffolds(c, selected, env), Scaffold(c, x, env);
    var all := Kept(manifest, TbtsOf(scaffolds)) + scaffolds;
    PromotionLeavesTheScaffold(manifest, c, selected, env, x);
    var tests := SortedByPack(all);
    assert Promoted(Some(manifest), c, selected, env).value == tests;
    forall e | e in tests && KeyOf(e) == KeyOf(s) && CarryForward(e) ensures e == s {
      SortedByPackMember(all, e);
      AtFiled(ByPack(all), e.packId, e);
      KeptMember(manifest, TbtsOf(scaffolds), e);
      ScaffoldsMember(c, selected, env, e);
      ScaffoldTbt(c, selected, env, x, s);
    }
  }

  /** The life cycle: after a promotion, over any run of at least one rebuild, whatever those
      builds plan, the pack holds exactly one entry for the promoted TBT. It is the generated
      scaffold, up to fields that were empty, and no planned entry stands beside it. */
  lemma PromotedTestSurvivesRebuilds(
    manifest: seq<Entry>, c: Catalog, selected: seq<string>, env: Env, x: Tbt, builds: seq<seq<Entry>>) returns (e: Entry)
    requires Selected(c, selected, x) && Text.Strip(x.id) != ""
    requires NothingElseCarried(manifest, c, selected, x) && builds != []
    ensures Promoted(Some(manifest), c, selected, env).Success?
    ensures
      var pack := Rebuild(Promoted(Some(manifest), c, selected, env).value, builds);
      && OnlyEntry(pack, e) && KeyOf(e) == TbtKey(Text.Strip(x.id))
      && SameUpToFill(e, Scaffold(c, x, env))
      && e.packId == ScaffoldId(x.id) && e.tbt == x.id && e.source == "generated" && e.status == "generated"
      && forall y :: y in pack && y.tbt == x.id ==> y.source != "planned_tbt"
  {
    hide Kept, Scaffolds, LastTbt, SortedByPack, Text.Strip, Rebuild, CarryForward;
    ScaffoldAloneCarried(manifest, c, selected, env, x);
    PromotionLeavesTheScaffold(manifest, c, selected, env, x);
    var tests := Promoted(Some(manifest), c, selected, env).value;
    e := RunsKeepCarriedEntries(tests, builds, Scaffold(c, x, env));
    var filler :| e == Fill(Scaffold(c, x, env), filler);
  }
}
