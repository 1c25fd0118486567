/** Which scanner findings the selectors of a compliance mapping match, and so which rows
    the findings block. */
module ScannerSelectors {
  import opened Wrappers
  import opened Sequences
  import opened Grouping
  import opened Glob
  import M = IgnoreMatcher
  import S = StatusResolver
  import T = StatusTheorems
  import O = StatusOrder

  /** A finding: its scanner and its printed fields, a missing value being empty. */
  datatype Finding = Finding(scanner: string, fields: seq<(string, string)>)

  datatype Selector = Selector(kind: string, value: string, field: string)

  datatype Mapping = Mapping(
    id: string, reviewStatus: string, level: string, traceability: string, selectors: seq<Selector>, rows: seq<S.RowRef>)

  datatype Pack = Pack(scanner: string, mappings: seq<Mapping>)

  /** Lower-casing and the character classes of the host. */
  datatype Env = Env(fold: string -> string, classes: Classes)

  // ----- One selector -----------------------------------------------------------------------------

  /** The last value whose key `same` accepts. */
  function LastValue(fields: seq<(string, string)>, same: string -> bool): Option<string> {
    if fields == [] then None
    else if same(fields[|fields| - 1].0) then Some(fields[|fields| - 1].1)
    else LastValue(fields[..|fields| - 1], same)
  }

  /** A field by its name, or failing that by its name in lower case. */
  function FieldOf(f: Finding, name: string, env: Env): string {
    var exact := LastValue(f.fields, k => k == name);
    if exact.Some? then exact.value
    else
      var folded := LastValue(f.fields, k => env.fold(k) == env.fold(name));
      if folded.Some? then folded.value else ""
  }

  /** Both texts are in lower case already. */
  predicate KindMatches(kind: string, actual: string, value: string, classes: Classes) {
    if kind == "exact" then actual == value
    else if kind == "prefix" then value <= actual
    else if kind == "glob" then Shell(actual, value, classes)
    else if kind in {"category", "cve"} then exists at :: 0 <= at <= |actual| && value <= actual[at..]
    else false
  }

  predicate Matches(s: Selector, f: Finding, env: Env) {
    var actual := FieldOf(f, Or(s.field, "rule_id"), env);
    s.value != "" && actual != "" && KindMatches(s.kind, env.fold(actual), env.fold(s.value), env.classes)
  }

  predicate Selected(scanner: string, selectors: seq<Selector>, f: Finding, env: Env) {
    f.scanner == scanner && exists i :: 0 <= i < |selectors| && Matches(selectors[i], f, env)
  }

  function FirstGiven(f: Finding, names: seq<string>): string {
    if names == [] then "finding"
    else
      var v := LastValue(f.fields, k => k == names[0]);
      if v.Some? && v.value != "" then v.value else FirstGiven(f, names[1..])
  }

  /** How a blocker names the finding. */
  function RuleOf(f: Finding): string {
    FirstGiven(f, ["rule_id", "id", "ruleId", "RuleID"])
  }

  function Found(scanner: string, selectors: seq<Selector>, findings: seq<Finding>, env: Env): seq<string> {
    if findings == [] then []
    else
      var rest, f := Found(scanner, selectors, findings[..|findings| - 1], env), findings[|findings| - 1];
      if Selected(scanner, selectors, f, env) then rest + [RuleOf(f)] else rest
  }

  method FindingsForMapping(scanner: string, selectors: seq<Selector>, findings: seq<Finding>, env: Env) returns (r: seq<string>)
    ensures r == Found(scanner, selectors, findings, env)
  {
    hide RuleOf, Matches;
    r := [];
    for n := 0 to |findings|
      invariant r == Found(scanner, selectors, findings[..n], env)
    {
      var f := findings[n];
      assert findings[..n + 1][..n] == findings[..n];
      if f.scanner != scanner {
        continue;
      }
      var any := false;
      for i := 0 to |selectors|
        invariant any <==> exists j :: 0 <= j < i && Matches(selectors[j], f, env)
      {
        if Matches(selectors[i], f, env) {
          any := true;
        }
      }
      if any {
        r := r + [RuleOf(f)];
      }
    }
    assert findings[..|findings|] == findings;
  }

  // ----- Packs and findings ------------------------------------------------------------------------

  function MappingOf(scanner: string, m: Mapping, findings: seq<Finding>, env: Env): S.ScannerMapping {
    S.ScannerMapping(m.id, m.reviewStatus, m.level, m.traceability, Found(scanner, m.selectors, findings, env), m.rows)
  }

  function PackOf(p: Pack, findings: seq<Finding>, env: Env): S.Pack {
    S.Pack(p.scanner, seq(|p.mappings|, i requires 0 <= i < |p.mappings| => MappingOf(p.scanner, p.mappings[i], findings, env)))
  }

  function PacksOf(packs: seq<Pack>, findings: seq<Finding>, env: Env): (r: seq<S.Pack>)
    ensures |r| == |packs|
    ensures forall i :: 0 <= i < |packs| ==> r[i] == PackOf(packs[i], findings, env)
  {
    seq(|packs|, i requires 0 <= i < |packs| => PackOf(packs[i], findings, env))
  }

  method MatchPack(p: Pack, findings: seq<Finding>, env: Env) returns (r: S.Pack)
    ensures r == PackOf(p, findings, env)
  {
    hide Found;
    var mappings: seq<S.ScannerMapping> := [];
    for n := 0 to |p.mappings|
      invariant |mappings| == n
      invariant forall i :: 0 <= i < n ==> mappings[i] == MappingOf(p.scanner, p.mappings[i], findings, env)
    {
      var m := p.mappings[n];
      var matched := FindingsForMapping(p.scanner, m.selectors, findings, env);
      mappings := mappings + [S.ScannerMapping(m.id, m.reviewStatus, m.level, m.traceability, matched, m.rows)];
    }
    assert mappings == PackOf(p, findings, env).mappings;
    r := S.Pack(p.scanner, mappings);
  }

  method MatchPacks(packs: seq<Pack>, findings: seq<Finding>, env: Env) returns (matched: seq<S.Pack>)
    ensures matched == PacksOf(packs, findings, env)
  {
    hide PackOf;
    matched := [];
    for n := 0 to |packs|
      invariant matched == PacksOf(packs[..n], findings, env)
    {
      var one := MatchPack(packs[n], findings, env);
      matched := matched + [one];
      assert PacksOf(packs[..n + 1], findings, env) == PacksOf(packs[..n], findings, env) + [one];
    }
    assert packs[..|packs|] == packs;
  }

  /** The blockers that the findings raise through the reviewed packs, by row. */
  method BlockersOfFindings(packs: seq<Pack>, findings: seq<Finding>, env: Env) returns (blockers: Dict<string, seq<S.Blocker>>)
    ensures blockers == Grouped(S.PackBlockers(PacksOf(packs, findings, env)))
  {
    hide PacksOf, Grouped, S.PackBlockers;
    var matched := MatchPacks(packs, findings, env);
    blockers := S.MappingBlockersByRow(matched);
  }

  /** What the resolver is given, with the packs as they are written and raw findings. */
  function InputOf(rest: S.Input, packs: seq<Pack>, findings: seq<Finding>, env: Env): S.Input {
    rest.(packs := PacksOf(packs, findings, env))
  }

  /** The whole run from raw findings; `rest` gives the catalog, the evidence and the instance. */
  method RunFromFindings(rest: S.Input, packs: seq<Pack>, findings: seq<Finding>, env: Env) returns (r: S.Resolution)
    ensures r == S.Resolve(InputOf(rest, packs, findings, env))
  {
    hide PacksOf, S.Resolve;
    var matched := MatchPacks(packs, findings, env);
    r := S.RunResolver(rest.(packs := matched));
  }

  // ----- Which rows are blocked ----------------------------------------------------------------------

  lemma {:induction false} FoundIff(scanner: string, selectors: seq<Selector>, findings: seq<Finding>, env: Env)
    ensures Found(scanner, selectors, findings, env) != [] <==> exists f :: f in findings && Selected(scanner, selectors, f, env)
  {
    hide Selected, RuleOf;
    if findings != [] {
      var front, last := findings[..|findings| - 1], findings[|findings| - 1];
      FoundIff(scanner, selectors, front, env);
      forall f ensures f in findings <==> f in front || f == last {
        assert findings == front + [last];
      }
    }
  }

  /** The mapping is reviewed, direct and about rows, and names the row. */
  ghost predicate Names(m: Mapping, key: string) {
    && m.reviewStatus == "accepted" && m.level == "compliance_row" && m.traceability == "direct"
    && exists ref :: ref in m.rows && S.Usable(ref) && S.RowKey(ref.ruleset, ref.row) == key
  }

  lemma MappingNamesIff(scanner: string, m: Mapping, findings: seq<Finding>, env: Env, key: string)
    ensures
      T.MappingNames(MappingOf(scanner, m, findings, env), key) <==>
      Names(m, key) && exists f :: f in findings && Selected(scanner, m.selectors, f, env)
  {
    hide Found, Selected, S.RowKey;
    FoundIff(scanner, m.selectors, findings, env);
  }

  /** The findings block the row: some reviewed mapping of a pack names it, and a finding of
      the pack's scanner matches one of its selectors. */
  ghost predicate BlockedBy(packs: seq<Pack>, findings: seq<Finding>, env: Env, key: string) {
    exists p, m, f :: p in packs && m in p.mappings && f in findings && Names(m, key) && Selected(p.scanner, m.selectors, f, env)
  }

  /** A row gets a blocker from the packs exactly when the findings block it. */
  lemma FindingsBlockIff(packs: seq<Pack>, findings: seq<Finding>, env: Env, key: string)
    ensures T.Filed(S.PackBlockers(PacksOf(packs, findings, env)), key) <==> BlockedBy(packs, findings, env, key)
  {
    hide T.Filed, S.PackBlockers, T.MappingNames, MappingOf, Names, Selected;
    var all := PacksOf(packs, findings, env);
    T.PacksFile(all, key);
    if q, n :| q in all && n in q.mappings && T.MappingNames(n, key) {
      var i :| 0 <= i < |all| && all[i] == q;
      var j :| 0 <= j < |q.mappings| && q.mappings[j] == n;
      var p, m := packs[i], packs[i].mappings[j];
      MappingNamesIff(p.scanner, m, findings, env, key);
      assert p in packs && m in p.mappings;
    }
    if p, m, f :| p in packs && m in p.mappings && f in findings && Names(m, key) && Selected(p.scanner, m.selectors, f, env) {
      var i :| 0 <= i < |packs| && packs[i] == p;
      var j :| 0 <= j < |p.mappings| && p.mappings[j] == m;
      MappingNamesIff(p.scanner, m, findings, env, key);
      assert all[i].mappings[j] == MappingOf(p.scanner, m, findings, env);
      assert all[i] in all && all[i].mappings[j] in all[i].mappings;
    }
  }

  /** More findings never free a row. */
  lemma MoreFindingsBlockMore(packs: seq<Pack>, fewer: seq<Finding>, more: seq<Finding>, env: Env, key: string)
    requires forall f :: f in fewer ==> f in more
    ensures
      T.Filed(S.PackBlockers(PacksOf(packs, fewer, env)), key) ==> T.Filed(S.PackBlockers(PacksOf(packs, more, env)), key)
  {
    hide T.Filed, S.PackBlockers, Names, Selected;
    FindingsBlockIff(packs, fewer, env, key);
    FindingsBlockIff(packs, more, env, key);
  }

  /** Nor do they raise the status of anything: TBTs and FRs stay as they are, and no row
      outranks what it was. */
  lemma MoreFindingsNeverHelp(rest: S.Input, packs: seq<Pack>, fewer: seq<Finding>, more: seq<Finding>, env: Env)
    requires forall f :: f in fewer ==> f in more
    ensures
      var a, b := S.Resolve(InputOf(rest, packs, fewer, env)), S.Resolve(InputOf(rest, packs, more, env));
      O.NotRaised(a, b) && b.tbts == a.tbts && b.frs == a.frs
  {
    hide S.AllBlockers, S.RowIndex, S.ResolveRow, S.FrTable, S.TbtTable, PacksOf;
    var i, table := rest.instance, S.TbtTable(rest.catalog.tbts, rest.evidence, rest.instance);
    var index := S.RowIndex(rest.catalog);
    var a, b := S.Resolve(InputOf(rest, packs, fewer, env)), S.Resolve(InputOf(rest, packs, more, env));
    forall j | 0 <= j < |index.keys|
      ensures b.rows[j].row == a.rows[j].row && S.Rank(b.rows[j].status) <= S.Rank(a.rows[j].status)
    {
      RowNotRaised(index.keys[j], S.EntryAt(index, index.keys[j]), table, rest, packs, fewer, more, env);
    }
  }

  lemma RowNotRaised(
    row: S.RowRef, entry: S.RowEntry, table: Dict<string, S.TbtResult>, rest: S.Input, packs: seq<Pack>,
    fewer: seq<Finding>, more: seq<Finding>, env: Env)
    requires forall f :: f in fewer ==> f in more
    ensures
      var before := S.AllBlockers(rest.evidence, PacksOf(packs, fewer, env));
      var after := S.AllBlockers(rest.evidence, PacksOf(packs, more, env));
      && S.ResolveRow(row, entry, table, after, rest.instance).row == S.ResolveRow(row, entry, table, before, rest.instance).row
      && S.Rank(S.ResolveRow(row, entry, table, after, rest.instance).status)
         <= S.Rank(S.ResolveRow(row, entry, table, before, rest.instance).status)
  {
    hide S.AllBlockers, Lookup, S.LinkedToRow, S.EffectsAt, S.ApplyControlEffect, T.RecordNames, T.MappingNames, PacksOf, T.Filed;
    var key := S.RowKey(row.ruleset, row.row);
    var before, after := PacksOf(packs, fewer, env), PacksOf(packs, more, env);
    T.BlockersIffBlocked(rest.evidence, before, key);
    T.BlockersIffBlocked(rest.evidence, after, key);
    T.PacksFile(before, key);
    T.PacksFile(after, key);
    MoreFindingsBlockMore(packs, fewer, more, env, key);
    var w := S.WorseStatus(S.LinkedToRow(entry.tbtRefs, table.at));
    O.EffectKeepsOrder(w, S.Failed, S.EffectsAt(rest.instance, key));
  }

  // ----- How the kinds of selectors compare ---------------------------------------------------------------

  /** For one value, `exact` is stricter than `prefix`, and `prefix` than `category`. */
  lemma KindsAreOrdered(actual: string, value: string, classes: Classes)
    ensures KindMatches("exact", actual, value, classes) ==> KindMatches("prefix", actual, value, classes)
    ensures KindMatches("prefix", actual, value, classes) ==> KindMatches("category", actual, value, classes)
  {
    assert "prefix"[0] == 'p' && "exact"[0] == 'e' && "glob"[0] == 'g' && "category"[0] == 'c';
    assert actual[0..] == actual;
  }

  /** A glob of literal characters is an exact selector; with a star behind it a prefix, and
      with a star on either side a category. */
  lemma GlobsOfLiterals(actual: string, value: string, classes: Classes)
    requires M.Plain(value)
    ensures KindMatches("glob", actual, value, classes) <==> KindMatches("exact", actual, value, classes)
    ensures KindMatches("glob", actual, value + "*", classes) <==> KindMatches("prefix", actual, value, classes)
    ensures KindMatches("glob", actual, "*" + (value + "*"), classes) <==> KindMatches("category", actual, value, classes)
  {
    hide ShellTokens, M.Plain;
    assert "prefix"[0] == 'p' && "exact"[0] == 'e' && "glob"[0] == 'g' && "category"[0] == 'c';
    M.NoTokens();
    M.PlainTokens(value, "");
    assert value + "" == value && M.Literals(value) + [] == M.Literals(value);
    M.LiteralsMatch(value, [], actual, classes);
    M.PlainTokens(value, "*");
    M.ShellTokensCons('*', "");
    assert "*" == ['*'] + "";
    var open := M.Literals(value) + [Many(AnyChar)];
    assert ShellTokens(value + "*") == open;
    forall s ensures Match(open, s, classes) <==> value <= s {
      M.LiteralsMatch(value, [Many(AnyChar)], s, classes);
      if value <= s {
        M.StarMatchesAll(s[|value|..], classes);
      }
    }
    assert "*" + (value + "*") == ['*'] + (value + "*");
    M.ShellTokensCons('*', value + "*");
    M.StarThen(open, actual, classes);
  }
}
