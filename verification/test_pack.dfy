/** The assurance test pack: its entries, and the merge of a freshly built pack with the
    manifest of the previous one. */
module TestPack {
  import opened Wrappers
  import opened Sequences
  import opened Grouping
  import Text

  datatype Entry = Entry(
    packId: string, tbt: string, nativePath: string, packPath: string, kind: string,
    source: string, status: string, assessment: string, safety: string,
    title: string, frs: seq<string>, rows: seq<(string, string)>, gates: seq<string>, suggested: string)

  /** `tbt:...`, `native:...` or `pack:...`; the prefix keeps the three kinds apart. */
  datatype Key = TbtKey(id: string) | NativeKey(path: string) | PackKey(pack: string)

  const NO_KEY := PackKey("")

  function KeyOf(e: Entry): Key {
    if Text.Strip(e.tbt) != "" then TbtKey(Text.Strip(e.tbt))
    else if Text.Strip(e.nativePath) != "" then NativeKey(Text.Strip(e.nativePath))
    else PackKey(Text.Strip(e.packId))
  }

  predicate CarryForward(e: Entry) {
    || e.status in {"generated", "ready_to_run", "executed", "blocked"}
    || e.source in {"generated", "existing_asvs"}
    || e.safety == "review_required"
    || "blocked_" <= e.assessment
  }

  /** A carried entry takes five fields from the entry it replaces, where its own are empty. */
  function Fill(previous: Entry, current: Entry): Entry {
    previous.(
      title := Or(previous.title, current.title),
      frs := Or(previous.frs, current.frs),
      rows := Or(previous.rows, current.rows),
      gates := Or(previous.gates, current.gates),
      suggested := Or(previous.suggested, current.suggested))
  }

  lemma FillFacts(x: Entry, y: Entry, z: Entry)
    ensures KeyOf(Fill(x, y)) == KeyOf(x)
    ensures Fill(x, Fill(y, z)) == Fill(Fill(x, y), z)
    ensures Fill(x, x) == x
  {
  }

  /** The entries with a usable key, each with its key. */
  function Keyed(entries: seq<Entry>): (r: seq<(Key, Entry)>)
  {
    if entries == [] then []
    else
      var rest, e := Keyed(entries[..|entries| - 1]), entries[|entries| - 1];
      if KeyOf(e) == NO_KEY then rest else rest + [(KeyOf(e), e)]
  }

  /** The carried-forward tests of a previous manifest; an item that is no object is skipped. */
  function CarriedEntries(previous: seq<Option<Entry>>): seq<Entry> {
    if previous == [] then []
    else
      var rest, p := CarriedEntries(previous[..|previous| - 1]), previous[|previous| - 1];
      if p.Some? && CarryForward(p.value) then rest + [p.value] else rest
  }

  function Carried(previous: seq<Option<Entry>>): seq<(Key, Entry)> {
    Keyed(CarriedEntries(previous))
  }

  /** The carried entries of one key folded over what the key held before them. */
  function FillAll(base: Option<Entry>, carried: seq<Entry>): (r: Option<Entry>)
  {
    if carried == [] then base
    else
      var acc, p := FillAll(base, carried[..|carried| - 1]), carried[|carried| - 1];
      Some(if acc.Some? then Fill(p, acc.value) else p)
  }

  function LastOf(s: seq<Entry>): Option<Entry> {
    if s == [] then None else Some(s[|s| - 1])
  }

  /** What the key holds once every carried entry has been merged in. */
  function Merged(cur: seq<(Key, Entry)>, car: seq<(Key, Entry)>, k: Key): Option<Entry> {
    FillAll(LastOf(At(cur, k)), At(car, k))
  }

  /** A key of the current build shows its merged entry; a key that only the previous pack
      has shows the first entry carried under it, as it was. */
  function Shown(cur: seq<(Key, Entry)>, car: seq<(Key, Entry)>, k: Key): Option<Entry> {
    if k in KeysOf(cur) then Merged(cur, car, k)
    else if At(car, k) == [] then None
    else Some(At(car, k)[0])
  }

  function ShownAll(keys: seq<Key>, cur: seq<(Key, Entry)>, car: seq<(Key, Entry)>): seq<Entry> {
    if keys == [] then []
    else
      var rest, e := ShownAll(keys[..|keys| - 1], cur, car), Shown(cur, car, keys[|keys| - 1]);
      if e.Some? then rest + [e.value] else rest
  }

  /** The keys of the merged pack: those of the current build, then the carried ones. */
  function MergedKeys(entries: seq<Entry>, previous: seq<Option<Entry>>): seq<Key> {
    Dedup(KeysOf(Keyed(entries)) + KeysOf(Carried(previous)))
  }

  /** The merged pack. Without a previous manifest the entries are left as they are. */
  function Merge(entries: seq<Entry>, previous: Option<seq<Option<Entry>>>): seq<Entry> {
    if previous.None? then entries
    else ShownAll(MergedKeys(entries, previous.value), Keyed(entries), Carried(previous.value))
  }

  // ----- The loops ---------------------------------------------------------------------------

  function Find(m: map<Key, Entry>, k: Key): Option<Entry> {
    if k in m then Some(m[k]) else None
  }

  ghost predicate Holds(byKey: map<Key, Entry>, cur: seq<(Key, Entry)>, car: seq<(Key, Entry)>) {
    forall k :: Find(byKey, k) == Merged(cur, car, k)
  }

  lemma HoldsCurrent(byKey: map<Key, Entry>, cur: seq<(Key, Entry)>, k: Key, e: Entry)
    requires Holds(byKey, cur, [])
    ensures Holds(byKey[k := e], cur + [(k, e)], [])
  {
    forall x ensures Find(byKey[k := e], x) == Merged(cur + [(k, e)], [], x) {
      AtSnoc(cur, (k, e), x);
      assert Find(byKey, x) == Merged(cur, [], x);
    }
  }

  lemma HoldsCarried(byKey: map<Key, Entry>, cur: seq<(Key, Entry)>, car: seq<(Key, Entry)>, k: Key, e: Entry)
    requires Holds(byKey, cur, car)
    ensures
      var merged := if k in byKey then Fill(e, byKey[k]) else e;
      Holds(byKey[k := merged], cur, car + [(k, e)])
  {
    var merged := if k in byKey then Fill(e, byKey[k]) else e;
    forall x ensures Find(byKey[k := merged], x) == Merged(cur, car + [(k, e)], x) {
      AtSnoc(car, (k, e), x);
      assert Find(byKey, x) == Merged(cur, car, x);
      assert (At(car, k) + [e])[..|At(car, k)|] == At(car, k);
    }
  }

  /** The first loop: every entry by key, the last one winning. */
  method IndexCurrent(entries: seq<Entry>) returns (byKey: map<Key, Entry>)
    ensures Holds(byKey, Keyed(entries), [])
  {
    byKey := map[];
    assert Holds(byKey, Keyed([]), []);
    for n := 0 to |entries|
      invariant Holds(byKey, Keyed(entries[..n]), [])
    {
      var e := entries[n];
      assert entries[..n + 1][..n] == entries[..n];
      if KeyOf(e) != NO_KEY {
        HoldsCurrent(byKey, Keyed(entries[..n]), KeyOf(e), e);
        byKey := byKey[KeyOf(e) := e];
      }
    }
    assert entries[..|entries|] == entries;
  }

  lemma CarriedStep(previous: seq<Option<Entry>>, n: nat)
    requires n < |previous|
    ensures
      var p := previous[n];
      Carried(previous[..n + 1]) ==
        if p.Some? && CarryForward(p.value) && KeyOf(p.value) != NO_KEY then Carried(previous[..n]) + [(KeyOf(p.value), p.value)]
        else Carried(previous[..n])
  {
    assert previous[..n + 1][..n] == previous[..n];
    var p, rest := previous[n], CarriedEntries(previous[..n]);
    if p.Some? && CarryForward(p.value) {
      assert (rest + [p.value])[..|rest|] == rest;
    }
  }

  /** The second loop: every carried entry over what its key holds. */
  method MergeCarried(start: map<Key, Entry>, ghost cur: seq<(Key, Entry)>, previous: seq<Option<Entry>>)
    returns (byKey: map<Key, Entry>)
    requires Holds(start, cur, [])
    ensures Holds(byKey, cur, Carried(previous))
  {
    byKey := start;
    for n := 0 to |previous|
      invariant Holds(byKey, cur, Carried(previous[..n]))
    {
      CarriedStep(previous, n);
      var item := previous[n];
      if item.None? || !CarryForward(item.value) || KeyOf(item.value) == NO_KEY {
        continue;
      }
      var merged := item.value;
      var key := KeyOf(merged);
      HoldsCarried(byKey, cur, Carried(previous[..n]), key, merged);
      if key in byKey {
        merged := Fill(merged, byKey[key]);
      }
      byKey := byKey[key := merged];
    }
    assert previous[..|previous|] == previous;
  }

  lemma ShownSnoc(keys: seq<Key>, k: Key, cur: seq<(Key, Entry)>, car: seq<(Key, Entry)>)
    ensures ShownAll(keys + [k], cur, car) ==
      ShownAll(keys, cur, car) + if Shown(cur, car, k).Some? then [Shown(cur, car, k).value] else []
  {
    assert (keys + [k])[..|keys|] == keys;
  }

  /** A key that is filed holds at least one entry. */
  lemma KeyHolds(pairs: seq<(Key, Entry)>, k: Key)
    requires k in KeysOf(pairs)
    ensures At(pairs, k) != []
  {
    var i :| 0 <= i < |pairs| && KeysOf(pairs)[i] == k;
    assert (k, pairs[i].1) in pairs;
    AtMember(pairs, k, pairs[i].1);
  }

  lemma MergedHolds(cur: seq<(Key, Entry)>, car: seq<(Key, Entry)>, k: Key)
    requires k in KeysOf(cur)
    ensures Merged(cur, car, k).Some? && Shown(cur, car, k) == Merged(cur, car, k)
  {
    KeyHolds(cur, k);
  }

  lemma KeyedAppend(entries: seq<Entry>, n: nat)
    requires n < |entries|
    ensures Keyed(entries[..n + 1]) ==
      if KeyOf(entries[n]) == NO_KEY then Keyed(entries[..n]) else Keyed(entries[..n]) + [(KeyOf(entries[n]), entries[n])]
  {
    assert entries[..n + 1][..n] == entries[..n];
  }

  lemma {:induction false} KeyedPrefix(entries: seq<Entry>, n: nat)
    requires n <= |entries|
    ensures Keyed(entries[..n]) <= Keyed(entries)
    decreases |entries| - n
  {
    if n == |entries| {
      assert entries[..n] == entries;
    } else {
      KeyedAppend(entries, n);
      KeyedPrefix(entries, n + 1);
    }
  }

  lemma ShowCurrentStep(entries: seq<Entry>, car: seq<(Key, Entry)>, n: nat)
    requires n < |entries| && KeyOf(entries[n]) != NO_KEY
    ensures
      var k, done, cur := KeyOf(entries[n]), KeysOf(Keyed(entries[..n])), Keyed(entries);
      && KeysOf(Keyed(entries[..n + 1])) == done + [k]
      && Merged(cur, car, k).Some?
      && ShownAll(Dedup(done + [k]), cur, car) ==
        ShownAll(Dedup(done), cur, car) + if k in done then [] else [Merged(cur, car, k).value]
  {
    hide At, ShownAll, Dedup, Keyed, KeyOf, Merged, Shown;
    var k, done, cur := KeyOf(entries[n]), KeysOf(Keyed(entries[..n])), Keyed(entries);
    KeyedAppend(entries, n);
    assert KeysOf(Keyed(entries[..n + 1])) == done + [k];
    DedupSnoc(done, k);
    ShownSnoc(Dedup(done), k, cur, car);
    KeyedPrefix(entries, n + 1);
    assert KeysOf(cur)[|done|] == k;
    MergedHolds(cur, car, k);
  }

  /** The third loop: one entry for each key of the current build, in order. */
  method ShowCurrent(entries: seq<Entry>, byKey: map<Key, Entry>, ghost car: seq<(Key, Entry)>)
    returns (ordered: seq<Entry>, seen: set<Key>)
    requires Holds(byKey, Keyed(entries), car)
    ensures ordered == ShownAll(Dedup(KeysOf(Keyed(entries))), Keyed(entries), car)
    ensures forall k :: k in seen <==> k in KeysOf(Keyed(entries))
  {
    ordered, seen := [], {};
    assert Keyed(entries[..0]) == [];
    hide At, ShownAll, Dedup, Keyed, KeyOf, Merged, Shown;
    for n := 0 to |entries|
      invariant ordered == ShownAll(Dedup(KeysOf(Keyed(entries[..n]))), Keyed(entries), car)
      invariant forall k :: k in seen <==> k in KeysOf(Keyed(entries[..n]))
    {
      var key := KeyOf(entries[n]);
      KeyedAppend(entries, n);
      if key == NO_KEY {
        continue;
      }
      ShowCurrentStep(entries, car, n);
      if key in seen {
        continue;
      }
      assert Find(byKey, key) == Merged(Keyed(entries), car, key);
      ordered := ordered + [byKey[key]];
      seen := seen + {key};
    }
    assert entries[..|entries|] == entries;
  }

  lemma {:induction false} CarriedPrefix(previous: seq<Option<Entry>>, n: nat)
    requires n <= |previous|
    ensures Carried(previous[..n]) <= Carried(previous)
    decreases |previous| - n
  {
    if n == |previous| {
      assert previous[..n] == previous;
    } else {
      CarriedStep(previous, n);
      CarriedPrefix(previous, n + 1);
    }
  }

  /** The first entry filed under a key is the one whose key was not there before. */
  lemma FirstFiled(pairs: seq<(Key, Entry)>, n: nat)
    requires n < |pairs| && pairs[n].0 !in KeysOf(pairs[..n])
    ensures At(pairs, pairs[n].0) != [] && At(pairs, pairs[n].0)[0] == pairs[n].1
  {
    hide At;
    AbsentKey(pairs[..n], pairs[n].0);
    AtSplit(pairs, n);
  }

  lemma NotElsewhere(pairs: seq<(Key, Entry)>, n: nat)
    requires Distinct(KeysOf(pairs)) && n < |pairs|
    ensures pairs[n].0 !in KeysOf(pairs[..n]) && pairs[n].0 !in KeysOf(pairs[n + 1..])
  {
    var keys := KeysOf(pairs);
    assert KeysOf(pairs[..n]) == keys[..n];
    assert KeysOf(pairs[n + 1..]) == keys[n + 1..];
    assert keys[n] == pairs[n].0;
  }

  lemma ShowCarriedStep(cur: seq<(Key, Entry)>, previous: seq<Option<Entry>>, n: nat)
    requires n < |previous| && previous[n].Some? && CarryForward(previous[n].value) && KeyOf(previous[n].value) != NO_KEY
    ensures
      var e, done := previous[n].value, KeysOf(cur) + KeysOf(Carried(previous[..n]));
      && KeysOf(cur) + KeysOf(Carried(previous[..n + 1])) == done + [KeyOf(e)]
      && ShownAll(Dedup(done + [KeyOf(e)]), cur, Carried(previous)) ==
        ShownAll(Dedup(done), cur, Carried(previous)) + if KeyOf(e) in done then [] else [e]
  {
    hide At, ShownAll, Shown, Dedup, Carried, KeysOf;
    var e, done := previous[n].value, KeysOf(cur) + KeysOf(Carried(previous[..n]));
    CarriedKeysGrow(cur, previous, n);
    if KeyOf(e) !in done {
      NewCarriedKey(cur, previous, n);
    }
    ShowStep(done, KeyOf(e), e, cur, Carried(previous));
  }

  lemma CarriedKeysGrow(cur: seq<(Key, Entry)>, previous: seq<Option<Entry>>, n: nat)
    requires n < |previous| && previous[n].Some? && CarryForward(previous[n].value) && KeyOf(previous[n].value) != NO_KEY
    ensures KeysOf(cur) + KeysOf(Carried(previous[..n + 1])) == (KeysOf(cur) + KeysOf(Carried(previous[..n]))) + [KeyOf(previous[n].value)]
  {
    hide Carried;
    var e, car := previous[n].value, Carried(previous[..n]);
    CarriedStep(previous, n);
    assert KeysOf(car + [(KeyOf(e), e)]) == KeysOf(car) + [KeyOf(e)];
  }

  lemma NewCarriedKey(cur: seq<(Key, Entry)>, previous: seq<Option<Entry>>, n: nat)
    requires n < |previous| && previous[n].Some? && CarryForward(previous[n].value) && KeyOf(previous[n].value) != NO_KEY
    requires KeyOf(previous[n].value) !in KeysOf(cur) && KeyOf(previous[n].value) !in KeysOf(Carried(previous[..n]))
    ensures Shown(cur, Carried(previous), KeyOf(previous[n].value)) == Some(previous[n].value)
  {
    hide Carried, KeysOf, Shown;
    var e, car := previous[n].value, Carried(previous[..n]);
    CarriedStep(previous, n);
    CarriedPrefix(previous, n + 1);
    assert Carried(previous)[|car|] == (KeyOf(e), e);
    assert Carried(previous)[..|car|] == car;
    NewKeyShowsItself(cur, Carried(previous), |car|);
  }

  lemma ShowStep(done: seq<Key>, k: Key, e: Entry, cur: seq<(Key, Entry)>, car: seq<(Key, Entry)>)
    requires k !in done ==> Shown(cur, car, k) == Some(e)
    ensures ShownAll(Dedup(done + [k]), cur, car) == ShownAll(Dedup(done), cur, car) + if k in done then [] else [e]
  {
    hide ShownAll, Shown, Dedup;
    DedupSnoc(done, k);
    ShownSnoc(Dedup(done), k, cur, car);
  }

  lemma NewKeyShowsItself(cur: seq<(Key, Entry)>, car: seq<(Key, Entry)>, n: nat)
    requires n < |car| && car[n].0 !in KeysOf(cur) && car[n].0 !in KeysOf(car[..n])
    ensures Shown(cur, car, car[n].0) == Some(car[n].1)
  {
    hide At;
    FirstFiled(car, n);
  }

  /** The fourth loop: the carried entries whose key is still missing. */
  method ShowCarried(
    start: seq<Entry>, startSeen: set<Key>, ghost cur: seq<(Key, Entry)>, previous: seq<Option<Entry>>)
    returns (ordered: seq<Entry>)
    requires start == ShownAll(Dedup(KeysOf(cur)), cur, Carried(previous))
    requires forall k :: k in startSeen <==> k in KeysOf(cur)
    ensures ordered == ShownAll(Dedup(KeysOf(cur) + KeysOf(Carried(previous))), cur, Carried(previous))
  {
    assert Carried(previous[..0]) == [];
    hide At, ShownAll, Dedup, Carried, CarryForward, KeyOf;
    var seen := startSeen;
    ordered := start;
    assert KeysOf(cur) + KeysOf(Carried(previous[..0])) == KeysOf(cur);
    for n := 0 to |previous|
      invariant ordered == ShownAll(Dedup(KeysOf(cur) + KeysOf(Carried(previous[..n]))), cur, Carried(previous))
      invariant forall k :: k in seen <==> k in KeysOf(cur) + KeysOf(Carried(previous[..n]))
    {
      CarriedStep(previous, n);
      var item := previous[n];
      if item.None? || !CarryForward(item.value) || KeyOf(item.value) == NO_KEY {
        continue;
      }
      var key := KeyOf(item.value);
      ShowCarriedStep(cur, previous, n);
      if key in seen {
        continue;
      }
      ordered := ordered + [item.value];
      seen := seen + {key};
    }
    assert previous[..|previous|] == previous;
  }

  method MergePrevious(entries: seq<Entry>, previous: Option<seq<Option<Entry>>>) returns (ordered: seq<Entry>)
    ensures ordered == Merge(entries, previous)
  {
    if previous.None? {
      return entries;
    }
    var byKey := IndexCurrent(entries);
    byKey := MergeCarried(byKey, Keyed(entries), previous.value);
    var seen;
    ordered, seen := ShowCurrent(entries, byKey, Carried(previous.value));
    ordered := ShowCarried(ordered, seen, Keyed(entries), previous.value);
  }

  // ----- What the merge promises ---------------------------------------------------------------

  ghost predicate KeysMatch(pairs: seq<(Key, Entry)>) {
    forall i :: 0 <= i < |pairs| ==> pairs[i].0 == KeyOf(pairs[i].1) && pairs[i].0 != NO_KEY
  }

  lemma {:induction false} KeyedMatches(entries: seq<Entry>)
    ensures KeysMatch(Keyed(entries))
  {
    if entries != [] {
      KeyedMatches(entries[..|entries| - 1]);
    }
  }

  lemma {:induction false} FillAllKeepsKey(base: Option<Entry>, carried: seq<Entry>, k: Key)
    requires base.Some? ==> KeyOf(base.value) == k
    requires forall i :: 0 <= i < |carried| ==> KeyOf(carried[i]) == k
    ensures FillAll(base, carried).Some? ==> KeyOf(FillAll(base, carried).value) == k
  {
    if carried != [] {
      FillAllKeepsKey(base, carried[..|carried| - 1], k);
      var acc := FillAll(base, carried[..|carried| - 1]);
      if acc.Some? {
        FillFacts(carried[|carried| - 1], acc.value, acc.value);
      }
    }
  }

  lemma ShownKeepsKey(cur: seq<(Key, Entry)>, car: seq<(Key, Entry)>, k: Key)
    requires KeysMatch(cur) && KeysMatch(car)
    requires k in KeysOf(cur) || k in KeysOf(car)
    ensures Shown(cur, car, k).Some? && KeyOf(Shown(cur, car, k).value) == k && k != NO_KEY
  {
    hide At, KeyOf, FillAll;
    AtHasKey(car, k);
    if k in KeysOf(cur) {
      MergedHolds(cur, car, k);
      KeyHolds(cur, k);
      AtHasKey(cur, k);
      FillAllKeepsKey(LastOf(At(cur, k)), At(car, k), k);
    } else {
      KeyHolds(car, k);
    }
  }

  lemma AtHasKey(pairs: seq<(Key, Entry)>, k: Key)
    requires KeysMatch(pairs)
    ensures forall i :: 0 <= i < |At(pairs, k)| ==> KeyOf(At(pairs, k)[i]) == k
    ensures At(pairs, k) != [] ==> k != NO_KEY
  {
    hide At, KeyOf;
    forall i | 0 <= i < |At(pairs, k)| ensures KeyOf(At(pairs, k)[i]) == k && k != NO_KEY {
      AtFiled(pairs, k, At(pairs, k)[i]);
    }
    assert At(pairs, k) != [] ==> KeyOf(At(pairs, k)[0]) == k;
  }

  lemma {:induction false} ShownAllHasKeys(keys: seq<Key>, cur: seq<(Key, Entry)>, car: seq<(Key, Entry)>)
    requires KeysMatch(cur) && KeysMatch(car)
    requires forall k :: k in keys ==> k in KeysOf(cur) || k in KeysOf(car)
    ensures |ShownAll(keys, cur, car)| == |keys|
    ensures forall i :: 0 <= i < |keys| ==> Some(ShownAll(keys, cur, car)[i]) == Shown(cur, car, keys[i])
    ensures forall i :: 0 <= i < |keys| ==> KeyOf(ShownAll(keys, cur, car)[i]) == keys[i] && keys[i] != NO_KEY
  {
    hide At, Shown, KeyOf;
    if keys != [] {
      ShownAllHasKeys(keys[..|keys| - 1], cur, car);
      ShownKeepsKey(cur, car, keys[|keys| - 1]);
    }
  }

  function PackKeys(pack: seq<Entry>): (r: seq<Key>)
    ensures |r| == |pack|
    ensures forall i :: 0 <= i < |pack| ==> r[i] == KeyOf(pack[i])
  {
    seq(|pack|, i requires 0 <= i < |pack| => KeyOf(pack[i]))
  }

  /** The merged pack lists exactly the keys of the current entries and of the carried ones,
      each once, none of them empty, those of the current build first and in the order of
      their first occurrence. */
  lemma MergedKeysAreExact(entries: seq<Entry>, previous: seq<Option<Entry>>)
    ensures
      var keys := PackKeys(Merge(entries, Some(previous)));
      && keys == MergedKeys(entries, previous)
      && Distinct(keys) && NO_KEY !in keys
      && (forall k :: k in keys <==> k in KeysOf(Keyed(entries)) || k in KeysOf(Carried(previous)))
      && Dedup(KeysOf(Keyed(entries))) <= keys
  {
    var cur, car := Keyed(entries), Carried(previous);
    KeyedMatches(entries);
    KeyedMatches(CarriedEntries(previous));
    ShownAllHasKeys(MergedKeys(entries, previous), cur, car);
    DedupGrows(KeysOf(cur), KeysOf(car));
  }

  lemma {:induction false} DedupGrows<T(!new)>(s: seq<T>, t: seq<T>)
    ensures Dedup(s) <= Dedup(s + t)
  {
    if t == [] {
      assert s + t == s;
    } else {
      DedupGrows(s, t[..|t| - 1]);
      assert s + t == (s + t[..|t| - 1]) + [t[|t| - 1]];
      DedupSnoc(s + t[..|t| - 1], t[|t| - 1]);
    }
  }

  /** What the merged pack shows under each of its keys. */
  lemma MergedEntry(entries: seq<Entry>, previous: seq<Option<Entry>>, i: nat)
    requires i < |Merge(entries, Some(previous))|
    ensures
      var e := Merge(entries, Some(previous))[i];
      Some(e) == Shown(Keyed(entries), Carried(previous), KeyOf(e))
  {
    KeyedMatches(entries);
    KeyedMatches(CarriedEntries(previous));
    ShownAllHasKeys(MergedKeys(entries, previous), Keyed(entries), Carried(previous));
  }

  /** A pack whose keys are distinct and usable is its own keyed list. */
  lemma {:induction false} KeyedOfPack(pack: seq<Entry>)
    requires NO_KEY !in PackKeys(pack)
    ensures |Keyed(pack)| == |pack|
    ensures forall i :: 0 <= i < |pack| ==> Keyed(pack)[i] == (KeyOf(pack[i]), pack[i])
  {
    if pack != [] {
      var rest := pack[..|pack| - 1];
      forall i | 0 <= i < |rest| ensures PackKeys(rest)[i] == PackKeys(pack)[i] { }
      assert PackKeys(pack)[|pack| - 1] == KeyOf(pack[|pack| - 1]);
      KeyedOfPack(rest);
    }
  }

  /** Under distinct keys, each key holds just its own entry. */
  lemma AtDistinct(pairs: seq<(Key, Entry)>, n: nat)
    requires Distinct(KeysOf(pairs)) && n < |pairs|
    ensures At(pairs, pairs[n].0) == [pairs[n].1]
  {
    hide At;
    var k := pairs[n].0;
    NotElsewhere(pairs, n);
    AbsentKey(pairs[..n], k);
    AbsentKey(pairs[n + 1..], k);
    AtSplit(pairs, n);
  }

  /** Folding carried entries over a base fills the base into their own fold. */
  lemma {:induction false} FillAllOverBase(base: Entry, carried: seq<Entry>)
    requires carried != []
    ensures FillAll(None, carried).Some?
    ensures FillAll(Some(base), carried) == Some(Fill(FillAll(None, carried).value, base))
  {
    var front, p := carried[..|carried| - 1], carried[|carried| - 1];
    if front != [] {
      FillAllOverBase(base, front);
      FillFacts(p, FillAll(None, front).value, base);
    }
  }

  /** Folding the same carried entries again changes nothing. */
  lemma FillAllTwice(base: Option<Entry>, carried: seq<Entry>)
    requires base.Some? || carried != []
    ensures FillAll(FillAll(base, carried), carried) == FillAll(base, carried)
  {
    if carried != [] {
      FillAllOverBase(FillAll(base, carried).value, carried);
      var top := FillAll(None, carried).value;
      FillFacts(top, top, top);
      if base.Some? {
        FillAllOverBase(base.value, carried);
        FillFacts(top, top, base.value);
      }
    }
  }

  lemma FillAllFromFirst(carried: seq<Entry>)
    requires carried != []
    ensures FillAll(Some(carried[0]), carried) == FillAll(None, carried)
  {
    FillAllOverBase(carried[0], carried);
    FillsFirst(carried);
  }

  lemma {:induction false} FillsFirst(carried: seq<Entry>)
    requires carried != []
    ensures FillAll(None, carried).Some?
    ensures Fill(FillAll(None, carried).value, carried[0]) == FillAll(None, carried).value
  {
    if |carried| > 1 {
      var front, p := carried[..|carried| - 1], carried[|carried| - 1];
      FillsFirst(front);
      FillFacts(p, FillAll(None, front).value, carried[0]);
    }
  }

  /** Merging a merged pack again replaces the entry of each key by the fold over it. */
  lemma MergeAgain(pack: seq<Entry>, previous: seq<Option<Entry>>)
    requires Distinct(PackKeys(pack)) && NO_KEY !in PackKeys(pack)
    requires forall k :: k in KeysOf(Carried(previous)) ==> k in PackKeys(pack)
    ensures |Merge(pack, Some(previous))| == |pack|
    ensures
      forall i :: 0 <= i < |pack| ==>
        Some(Merge(pack, Some(previous))[i]) == FillAll(Some(pack[i]), At(Carried(previous), KeyOf(pack[i])))
  {
    var cur, car := Keyed(pack), Carried(previous);
    KeyedOfPack(pack);
    assert KeysOf(cur) == PackKeys(pack);
    KeyedMatches(pack);
    KeyedMatches(CarriedEntries(previous));
    DedupOfKnown(KeysOf(cur), KeysOf(car));
    ShownAllHasKeys(MergedKeys(pack, previous), cur, car);
    forall i | 0 <= i < |pack|
      ensures Some(Merge(pack, Some(previous))[i]) == FillAll(Some(pack[i]), At(car, KeyOf(pack[i]))) {
      AtDistinct(cur, i);
      assert KeysOf(cur)[i] == KeyOf(pack[i]);
      MergedHolds(cur, car, KeyOf(pack[i]));
    }
  }

  /** Keys that are already there are not added. */
  lemma {:induction false} DedupOfKnown<T(!new)>(s: seq<T>, t: seq<T>)
    requires Distinct(s)
    requires forall x :: x in t ==> x in s
    ensures Dedup(s + t) == s
  {
    if t == [] {
      assert s + t == s;
      DedupOfDistinct(s);
    } else {
      DedupOfKnown(s, t[..|t| - 1]);
      assert s + t == (s + t[..|t| - 1]) + [t[|t| - 1]];
      DedupSnoc(s + t[..|t| - 1], t[|t| - 1]);
    }
  }

  /** Under one key, the first of the carried entries already is what they merge into. */
  predicate FirstAbsorbs(carried: seq<Entry>) {
    carried == [] || FillAll(None, carried) == Some(carried[0])
  }

  /** Merging the merged pack with the same previous manifest once more changes nothing
      exactly when, under each key the current build does not have, the first carried entry
      absorbs the others. */
  lemma MergingAgainChangesNothingIff(entries: seq<Entry>, previous: seq<Option<Entry>>)
    ensures
      var once := Merge(entries, Some(previous));
      Merge(once, Some(previous)) == once <==>
      forall k :: k in KeysOf(Carried(previous)) && k !in KeysOf(Keyed(entries)) ==> FirstAbsorbs(At(Carried(previous), k))
  {
    hide Carried, Keyed, KeyOf, FillAll;
    var once, car := Merge(entries, Some(previous)), Carried(previous);
    var twice := Merge(once, Some(previous));
    MergedKeysAreExact(entries, previous);
    MergeAgain(once, previous);
    forall i | 0 <= i < |once|
      ensures twice[i] == once[i] <==> (KeyOf(once[i]) in KeysOf(Keyed(entries)) || FirstAbsorbs(At(car, KeyOf(once[i])))) {
      EntryAgain(entries, previous, i);
    }
    if twice == once {
      forall k | k in KeysOf(car) && k !in KeysOf(Keyed(entries)) ensures FirstAbsorbs(At(car, k)) {
        var i :| 0 <= i < |once| && PackKeys(once)[i] == k;
      }
    } else {
      var i :| 0 <= i < |once| && twice[i] != once[i];
      assert PackKeys(once)[i] == KeyOf(once[i]);
      assert KeyOf(once[i]) in KeysOf(car);
    }
  }

  lemma EntryAgain(entries: seq<Entry>, previous: seq<Option<Entry>>, i: nat)
    requires i < |Merge(entries, Some(previous))|
    ensures
      var e := Merge(entries, Some(previous))[i];
      var carried := At(Carried(previous), KeyOf(e));
      FillAll(Some(e), carried) == Some(e) <==> (KeyOf(e) in KeysOf(Keyed(entries)) || FirstAbsorbs(carried))
  {
    var e := Merge(entries, Some(previous))[i];
    var cur, carried := Keyed(entries), At(Carried(previous), KeyOf(e));
    MergedEntry(entries, previous, i);
    if KeyOf(e) in KeysOf(cur) {
      KeyHolds(cur, KeyOf(e));
      FillAllTwice(LastOf(At(cur, KeyOf(e))), carried);
    } else {
      FillAllFromFirst(carried);
    }
  }

  /** A generated test of TBT `T`. */
  function GeneratedTest(title: string): Entry {
    Entry("", "T", "", "", "", "", "generated", "", "", title, [], [], [], "")
  }

  /** A key carried twice that the build lacks: the first merge shows the first entry, and
      the second merge changes it. */
  lemma MergingAgainCanChange()
    ensures
      var previous := [Some(GeneratedTest("A")), Some(GeneratedTest("B"))];
      var once := Merge([], Some(previous));
      once == [GeneratedTest("A")] && Merge(once, Some(previous)) != once
  {
    var a, b, k := GeneratedTest("A"), GeneratedTest("B"), TbtKey("T");
    assert KeyOf(a) == KeyOf(b) == k && CarryForward(a) && CarryForward(b);
    SecondIsNotAbsorbed(a, b);
    hide Carried, GeneratedTest, KeyOf, CarryForward, FirstAbsorbs, Merge, Keyed;
    CarriedTwice(a, b, k);
    FirstIsShown(a, b, k);
    MergingAgainChangesNothingIff([], [Some(a), Some(b)]);
    assert k in KeysOf(Carried([Some(a), Some(b)])) && k !in KeysOf(Keyed([])) by {
      NothingKeyed();
    }
  }

  lemma NothingKeyed()
    ensures Keyed([]) == []
  {
  }

  lemma SecondIsNotAbsorbed(a: Entry, b: Entry)
    requires a == GeneratedTest("A") && b == GeneratedTest("B")
    ensures !FirstAbsorbs([a, b])
  {
    assert [a, b][..1] == [a] && [a][..0] == [];
    assert FillAll(None, [a]) == Some(a);
    assert Fill(b, a).title[0] == 'B' && a.title[0] == 'A';
  }

  lemma FirstIsShown(a: Entry, b: Entry, k: Key)
    requires Carried([Some(a), Some(b)]) == [(k, a), (k, b)] && At([(k, a), (k, b)], k) == [a, b]
    ensures Merge([], Some([Some(a), Some(b)])) == [a]
  {
    hide Carried, At, FillAll;
    var previous := [Some(a), Some(b)];
    NothingKeyed();
    assert MergedKeys([], previous) == [k] by {
      assert KeysOf([(k, a), (k, b)]) == [k, k] == [k] + [k];
      assert KeysOf<Key, Entry>([]) + [k, k] == [k, k];
      DedupSnoc([k], k);
      DedupOfDistinct([k]);
    }
    assert [k][..0] == [];
    assert ShownAll([], [], Carried(previous)) == [];
  }

  lemma CarriedTwice(a: Entry, b: Entry, k: Key)
    requires KeyOf(a) == KeyOf(b) == k != NO_KEY && CarryForward(a) && CarryForward(b)
    ensures Carried([Some(a), Some(b)]) == [(k, a), (k, b)]
    ensures At([(k, a), (k, b)], k) == [a, b]
  {
    hide KeyOf, CarryForward, Carried, At;
    var previous := [Some(a), Some(b)];
    assert previous[..2] == previous && previous[..1] == [Some(a)] && previous[..0] == [];
    CarriedStep(previous, 0);
    CarriedStep(previous, 1);
    CarriedNothing();
    AtSnoc([(k, a)], (k, b), k);
    AtOne((k, a), k);
    assert [(k, a)] + [(k, b)] == [(k, a), (k, b)] && [] + [(k, a)] == [(k, a)];
  }

  /** With distinct carried keys merging is idempotent. */
  lemma MergingIsIdempotent(entries: seq<Entry>, previous: seq<Option<Entry>>)
    requires Distinct(KeysOf(Carried(previous)))
    ensures
      var once := Merge(entries, Some(previous));
      Merge(once, Some(previous)) == once
  {
    var car := Carried(previous);
    forall k | k in KeysOf(car) ensures FirstAbsorbs(At(car, k)) {
      var i :| 0 <= i < |car| && KeysOf(car)[i] == k;
      AtDistinct(car, i);
      assert FillAll(None, [car[i].1][..0]) == None;
    }
    MergingAgainChangesNothingIff(entries, previous);
  }

  /** Whatever the previous manifest repeats, the second merge is the last one to change
      anything. */
  lemma MergingSettlesInTwo(entries: seq<Entry>, previous: seq<Option<Entry>>)
    ensures
      var twice := Merge(Merge(entries, Some(previous)), Some(previous));
      Merge(twice, Some(previous)) == twice
  {
    var once := Merge(entries, Some(previous));
    MergedKeysAreExact(entries, previous);
    KeyedOfPack(once);
    assert KeysOf(Keyed(once)) == PackKeys(once);
    MergingAgainChangesNothingIff(once, previous);
  }

  // ----- Runs of builds --------------------------------------------------------------------------

  function AllObjects(pack: seq<Entry>): (r: seq<Option<Entry>>)
    ensures |r| == |pack|
    ensures forall i :: 0 <= i < |pack| ==> r[i] == Some(pack[i])
  {
    seq(|pack|, i requires 0 <= i < |pack| => Some(pack[i]))
  }

  /** Each build merges its own entries with the manifest the build before it wrote. */
  function Rebuild(pack: seq<Entry>, builds: seq<seq<Entry>>): seq<Entry> {
    if builds == [] then pack
    else Merge(builds[|builds| - 1], Some(AllObjects(Rebuild(pack, builds[..|builds| - 1]))))
  }

  /** Equal but for the five fields that a merge may fill, and those only where empty. */
  ghost predicate SameUpToFill(e: Entry, p: Entry) {
    exists x :: e == Fill(p, x)
  }

  ghost predicate OnlyEntry(pack: seq<Entry>, e: Entry) {
    e in pack && forall x :: x in pack && KeyOf(x) == KeyOf(e) ==> x == e
  }

  lemma CarriedNothing()
    ensures Carried([]) == [] && forall k :: At<Key, Entry>([], k) == []
  {
  }

  lemma {:induction false} CarriedOfPack(pack: seq<Entry>, p: Entry)
    requires OnlyEntryCarried(pack, p)
    ensures forall x :: x in At(Carried(AllObjects(pack)), KeyOf(p)) ==> x == p
    ensures p in pack ==> p in At(Carried(AllObjects(pack)), KeyOf(p))
  {
    hide At, KeyOf, CarryForward, Carried;
    if pack == [] {
      assert AllObjects(pack) == [];
      CarriedNothing();
    } else {
      var rest := pack[..|pack| - 1];
      CarriedOfPack(rest, p);
      var prev := AllObjects(pack);
      assert prev[..|rest|] == AllObjects(rest) && prev[..|pack|] == prev;
      CarriedStep(prev, |rest|);
      var last := pack[|rest|];
      assert pack == rest + [last] && last in pack;
      AtSnoc(Carried(AllObjects(rest)), (KeyOf(last), last), KeyOf(p));
    }
  }

  /** `p` is carried forward, and no other entry is carried forward under its key. */
  ghost predicate OnlyEntryCarried(pack: seq<Entry>, p: Entry) {
    CarryForward(p) && KeyOf(p) != NO_KEY &&
    forall x :: x in pack && KeyOf(x) == KeyOf(p) && CarryForward(x) ==> x == p
  }

  lemma {:induction false} FillAllSame(base: Option<Entry>, carried: seq<Entry>, p: Entry)
    requires carried != [] && forall x :: x in carried ==> x == p
    ensures FillAll(base, carried) == Some(if base.Some? then Fill(p, base.value) else p)
  {
    var front, last := carried[..|carried| - 1], carried[|carried| - 1];
    assert last in carried;
    if front != [] {
      forall x | x in front ensures x == p {
        assert carried == front + [last];
        assert x in carried;
      }
      FillAllSame(base, front, p);
      if base.Some? {
        FillFacts(p, p, base.value);
      } else {
        FillFacts(p, p, p);
      }
    }
  }

  lemma FillKeeps(p: Entry, x: Entry)
    ensures KeyOf(Fill(p, x)) == KeyOf(p) && CarryForward(Fill(p, x)) == CarryForward(p)
  {
  }

  lemma CarriedIsFiled(car: seq<(Key, Entry)>, k: Key)
    requires At(car, k) != []
    ensures k in KeysOf(car)
  {
    if k !in KeysOf(car) {
      AbsentKey(car, k);
    }
  }

  lemma ShownOverCarried(cur: seq<(Key, Entry)>, car: seq<(Key, Entry)>, k: Key, p: Entry, e: Entry)
    requires At(car, k) != [] && forall x :: x in At(car, k) ==> x == p
    requires Shown(cur, car, k) == Some(e) && CarryForward(p)
    ensures SameUpToFill(e, p) && CarryForward(e)
  {
    hide At, KeyOf, FillAll, Fill, CarryForward;
    var base := if k in KeysOf(cur) then LastOf(At(cur, k)) else None;
    FillAllSame(base, At(car, k), p);
    FillFacts(p, p, p);
    var filler := if base.Some? then base.value else p;
    assert At(car, k)[0] in At(car, k);
    if k in KeysOf(cur) {
      KeyHolds(cur, k);
    }
    assert e == Fill(p, filler);
    FillKeeps(p, filler);
  }

  /** The only entry carried forward under a key is the only entry of the next pack under
      that key, up to the fields it gets filled in; it is carried forward again. */
  lemma CarriedEntrySurvives(pack: seq<Entry>, entries: seq<Entry>, p: Entry) returns (e: Entry)
    requires p in pack && OnlyEntryCarried(pack, p)
    ensures SameUpToFill(e, p) && KeyOf(e) == KeyOf(p) && CarryForward(e)
    ensures OnlyEntry(Merge(entries, Some(AllObjects(pack))), e)
  {
    assert CarryForward(p);
    hide At, KeyOf, CarryForward, Carried, Keyed, Merge, FillAll, Fill, Dedup, Shown, OnlyEntryCarried;
    var previous := AllObjects(pack);
    var out, k, car := Merge(entries, Some(previous)), KeyOf(p), Carried(previous);
    MergedKeysAreExact(entries, previous);
    CarriedOfPack(pack, p);
    CarriedIsFiled(car, k);
    var i :| 0 <= i < |out| && PackKeys(out)[i] == k;
    e := out[i];
    MergedEntry(entries, previous, i);
    ShownOverCarried(Keyed(entries), car, k, p, e);
    OnlyUnderItsKey(out, i);
  }

  lemma OnlyUnderItsKey(pack: seq<Entry>, i: nat)
    requires Distinct(PackKeys(pack)) && i < |pack|
    ensures OnlyEntry(pack, pack[i])
  {
    hide KeyOf;
    forall x | x in pack && KeyOf(x) == KeyOf(pack[i]) ensures x == pack[i] {
      var j :| 0 <= j < |pack| && pack[j] == x;
      assert PackKeys(pack)[j] == PackKeys(pack)[i];
    }
  }

  /** Over any run of builds a carried entry stays the only entry under its key, and only
      its empty fields are ever filled. */
  lemma {:induction false} RunsKeepCarriedEntries(pack: seq<Entry>, builds: seq<seq<Entry>>, p: Entry) returns (e: Entry)
    requires p in pack && OnlyEntryCarried(pack, p)
    ensures SameUpToFill(e, p) && KeyOf(e) == KeyOf(p) && CarryForward(e) && e in Rebuild(pack, builds)
    ensures builds != [] ==> OnlyEntry(Rebuild(pack, builds), e)
    ensures OnlyEntryCarried(Rebuild(pack, builds), e)
  {
    if builds == [] {
      e := p;
      FillFacts(p, p, p);
      assert e == Fill(p, p);
    } else {
      var before := Rebuild(pack, builds[..|builds| - 1]);
      var m := RunsKeepCarriedEntries(pack, builds[..|builds| - 1], p);
      e := CarriedEntrySurvives(before, builds[|builds| - 1], m);
      FillsCompose(e, m, p);
    }
  }

  lemma FillsCompose(e: Entry, m: Entry, p: Entry)
    requires SameUpToFill(e, m) && SameUpToFill(m, p)
    ensures SameUpToFill(e, p)
  {
    var x :| e == Fill(m, x);
    var y :| m == Fill(p, y);
    FillFacts(p, y, x);
    assert e == Fill(p, Fill(y, x));
  }
}
