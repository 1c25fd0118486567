/** The review board: merging persisted review decisions into freshly derived cards, and
    writing the board back. */
module BoardState {
  import opened Wrappers
  import opened Sequences

  const LANES := ["map", "recommended", "reviewed_not_evidence", "bespoke_project_only", "specify", "review", "import", "blocked"]

  const DECISIONS := [
    "", "accept_recommendation", "remap_as_orphan", "leave_unmapped", "mark_not_assurance_relevant",
    "mark_project_specific_only", "needs_new_tbt_fr", "approve_for_implementation", "approve_to_run",
    "send_back_to_review", "blocked"]

  /** A card; a missing field reads as the empty string, `details` stands for the rest. */
  datatype Card = Card(
    id: string, tbt: string, nativePath: string, status: string, safety: string, details: string,
    lane: string, target: string, decision: string, note: string, testPath: string)

  /** A card of the board file: its reviewable fields may be absent. */
  datatype Saved = Saved(
    id: string, tbt: string, nativePath: string,
    lane: Option<string>, target: Option<string>, decision: Option<string>, note: Option<string>, testPath: Option<string>)

  /** What is written for a card. */
  function Stored(c: Card): Card {
    c.(lane := if c.lane in LANES then c.lane else "blocked",
       decision := if c.decision in DECISIONS then c.decision else "")
  }

  /** How a written card reads back. */
  function ReadBack(c: Card): Saved {
    Saved(c.id, c.tbt, c.nativePath, Some(c.lane), Some(c.target), Some(c.decision), Some(c.note), Some(c.testPath))
  }

  // ----- Loading ---------------------------------------------------------------------------------

  function SetDefault(m: map<string, Saved>, k: string, v: Saved): map<string, Saved> {
    if k in m then m else m[k := v]
  }

  function Index(m: map<string, Saved>, s: Saved): map<string, Saved> {
    var a := if s.id != "" then m[s.id := s] else m;
    var b := if s.tbt != "" then SetDefault(a, "tbt:" + s.tbt, s) else a;
    if s.nativePath != "" then SetDefault(b, "native:" + s.nativePath, s) else b
  }

  /** The cards of a board file by id, by TBT and by native path; an item of the file that is
      no object is skipped. */
  function Loaded(file: seq<Option<Saved>>): map<string, Saved> {
    if file == [] then map[]
    else
      var m, s := Loaded(file[..|file| - 1]), file[|file| - 1];
      if s.None? then m else Index(m, s.value)
  }

  method Load(file: seq<Option<Saved>>) returns (out: map<string, Saved>)
    ensures out == Loaded(file)
  {
    out := map[];
    for n := 0 to |file|
      invariant out == Loaded(file[..n])
    {
      assert file[..n + 1][..n] == file[..n];
      if file[n].None? {
        continue;
      }
      var card := file[n].value;
      if card.id != "" {
        out := out[card.id := card];
      }
      if card.tbt != "" && "tbt:" + card.tbt !in out {
        out := out["tbt:" + card.tbt := card];
      }
      if card.nativePath != "" && "native:" + card.nativePath !in out {
        out := out["native:" + card.nativePath := card];
      }
    }
    assert file[..|file|] == file;
  }

  // ----- Merging ---------------------------------------------------------------------------------

  function SavedFor(c: Card, m: map<string, Saved>): Option<Saved> {
    if c.id in m then Some(m[c.id])
    else if "tbt:" + c.tbt in m then Some(m["tbt:" + c.tbt])
    else if "native:" + c.nativePath in m then Some(m["native:" + c.nativePath])
    else None
  }

  predicate ManifestReady(c: Card) {
    c.status in {"ready_to_run", "executed"} && c.safety == "non_destructive"
  }

  function MergedLane(c: Card, value: Option<string>): string {
    if value.None? || value.value !in LANES then c.lane
    else if ManifestReady(c) then c.lane
    else if c.lane == "recommended" && value.value == "map" then c.lane
    else value.value
  }

  function Else(value: Option<string>, other: string): string {
    if value.Some? then value.value else other
  }

  function MergeCard(c: Card, m: map<string, Saved>): Card {
    var saved := SavedFor(c, m);
    if saved.None? then c
    else
      var s := saved.value;
      c.(lane := MergedLane(c, s.lane),
         target := Else(s.target, c.target),
         decision := if s.decision.Some? && s.decision.value in DECISIONS then s.decision.value else c.decision,
         note := Else(s.note, c.note),
         testPath := Else(s.testPath, c.testPath))
  }

  function MergeAll(cards: seq<Card>, m: map<string, Saved>): (r: seq<Card>)
    ensures |r| == |cards|
    ensures forall i :: 0 <= i < |cards| ==> r[i] == MergeCard(cards[i], m)
  {
    seq(|cards|, i requires 0 <= i < |cards| => MergeCard(cards[i], m))
  }

  method Merge(cards: seq<Card>, persisted: map<string, Saved>) returns (merged: seq<Card>)
    ensures merged == MergeAll(cards, persisted)
  {
    merged := [];
    for n := 0 to |cards|
      invariant merged == MergeAll(cards[..n], persisted)
    {
      var card := cards[n];
      var next := card;
      var saved := SavedFor(card, persisted);
      if saved.Some? {
        var s := saved.value;
        if s.lane.Some? && s.lane.value in LANES {
          var value := s.lane.value;
          if ManifestReady(card) || (card.lane == "recommended" && value == "map") {
            value := card.lane;
          }
          next := next.(lane := value);
        }
        if s.decision.Some? && s.decision.value in DECISIONS {
          next := next.(decision := s.decision.value);
        }
        next := next.(target := Else(s.target, card.target), note := Else(s.note, card.note), testPath := Else(s.testPath, card.testPath));
      }
      merged := merged + [next];
    }
    assert cards[..|cards|] == cards;
  }

  /** The written board. */
  function Board(cards: seq<Card>): (r: seq<Card>)
    ensures |r| == |cards|
    ensures forall i :: 0 <= i < |cards| ==> r[i] == Stored(cards[i])
  {
    seq(|cards|, i requires 0 <= i < |cards| => Stored(cards[i]))
  }

  function FileOf(board: seq<Card>): (r: seq<Option<Saved>>)
    ensures |r| == |board|
    ensures forall i :: 0 <= i < |board| ==> r[i] == Some(ReadBack(board[i]))
  {
    seq(|board|, i requires 0 <= i < |board| => Some(ReadBack(board[i])))
  }

  /** One dashboard run: load the board file, merge it into the derived cards, write. */
  function Run(cards: seq<Card>, file: seq<Option<Saved>>): seq<Card> {
    Board(MergeAll(cards, Loaded(file)))
  }

  /** A run after each of `n` runs over the same derived cards. */
  function Runs(cards: seq<Card>, file: seq<Option<Saved>>, n: nat): seq<Card> {
    if n == 0 then Run(cards, file) else Run(cards, FileOf(Runs(cards, file, n - 1)))
  }

  // ----- What persistence promises ------------------------------------------------------------------

  function Ids(cards: seq<Card>): (r: seq<string>)
    ensures |r| == |cards|
    ensures forall i :: 0 <= i < |cards| ==> r[i] == cards[i].id
  {
    seq(|cards|, i requires 0 <= i < |cards| => cards[i].id)
  }

  /** An id names the last card of the file that has it, whatever TBT or native keys say. */
  lemma {:induction false} LastWithId(file: seq<Option<Saved>>, n: nat)
    requires n < |file| && file[n].Some? && file[n].value.id != ""
    requires forall j :: n < j < |file| && file[j].Some? ==> file[j].value.id != file[n].value.id
    ensures file[n].value.id in Loaded(file) && Loaded(file)[file[n].value.id] == file[n].value
  {
    if n < |file| - 1 {
      LastWithId(file[..|file| - 1], n);
    }
  }

  /** With distinct non-empty ids a card finds exactly what was written for it. */
  lemma FindsItself(cards: seq<Card>, board: seq<Card>, i: nat)
    requires i < |cards| == |board| && Distinct(Ids(cards)) && "" !in Ids(cards)
    requires forall j :: 0 <= j < |cards| ==> board[j].id == cards[j].id
    ensures SavedFor(cards[i], Loaded(FileOf(board))) == Some(ReadBack(board[i]))
  {
    var file, ids := FileOf(board), Ids(cards);
    assert ids[i] == cards[i].id;
    forall j | i < j < |file| && file[j].Some? ensures file[j].value.id != file[i].value.id {
      assert ids[j] == cards[j].id;
    }
    LastWithId(file, i);
  }

  /** Reading back what a merge wrote and merging again writes the same. */
  lemma MergeOfStored(c: Card, m: map<string, Saved>, again: map<string, Saved>)
    requires SavedFor(c, again) == Some(ReadBack(Stored(MergeCard(c, m))))
    ensures Stored(MergeCard(c, again)) == Stored(MergeCard(c, m))
  {
    hide SavedFor;
    assert LANES[7] == "blocked" && DECISIONS[0] == "" && LANES[0] == "map" && LANES[1] == "recommended";
    assert "blocked"[0] != "map"[0];
  }

  /** The fixpoint: with distinct non-empty card ids, whatever the board file held, loading
      and merging again writes the same board. */
  lemma BoardIsAFixpoint(cards: seq<Card>, file: seq<Option<Saved>>)
    requires Distinct(Ids(cards)) && "" !in Ids(cards)
    ensures Run(cards, FileOf(Run(cards, file))) == Run(cards, file)
  {
    hide Loaded, MergeCard, Stored, ReadBack, SavedFor;
    var board := Run(cards, file);
    forall i | 0 <= i < |cards| ensures Run(cards, FileOf(board))[i] == board[i] {
      forall j | 0 <= j < |cards| ensures board[j].id == cards[j].id {
        MergeKeepsId(cards[j], Loaded(file));
      }
      FindsItself(cards, board, i);
      MergeOfStored(cards[i], Loaded(file), Loaded(FileOf(board)));
    }
  }

  lemma MergeKeepsId(c: Card, m: map<string, Saved>)
    ensures Stored(MergeCard(c, m)).id == c.id
  {
  }

  lemma {:induction false} EveryRunWritesTheSame(cards: seq<Card>, file: seq<Option<Saved>>, n: nat)
    requires Distinct(Ids(cards)) && "" !in Ids(cards)
    ensures Runs(cards, file, n) == Run(cards, file)
  {
    hide Run;
    if n > 0 {
      EveryRunWritesTheSame(cards, file, n - 1);
      BoardIsAFixpoint(cards, file);
    }
  }

  /** The merge changes nothing but the five reviewable fields. A card that is ready to run
      and non-destructive keeps its derived lane, and a recommended one is never put back
      to mapping; any other valid saved lane is kept. */
  lemma MergeRespectsTheManifest(c: Card, m: map<string, Saved>)
    ensures
      var r := MergeCard(c, m);
      && c == r.(lane := c.lane, target := c.target, decision := c.decision, note := c.note, testPath := c.testPath)
      && (ManifestReady(c) ==> r.lane == c.lane)
      && (c.lane == "recommended" ==> r.lane != "map")
      && (SavedFor(c, m).Some? && !ManifestReady(c) && c.lane != "recommended" ==>
        forall lane :: lane in LANES && SavedFor(c, m).value.lane == Some(lane) ==> r.lane == lane)
  {
    assert "recommended"[0] != "map"[0];
  }

  /** No card of the file claims the key as its id. */
  ghost predicate NotAnId(file: seq<Option<Saved>>, k: string) {
    forall i :: 0 <= i < |file| && file[i].Some? ==> file[i].value.id != k
  }

  /** A TBT key names the first card of the file that proves the TBT. */
  lemma {:induction false} FirstWithTbt(file: seq<Option<Saved>>, tbt: string, n: nat)
    requires tbt != "" && NotAnId(file, "tbt:" + tbt)
    requires n < |file| && file[n].Some? && file[n].value.tbt == tbt
    requires forall j :: 0 <= j < n && file[j].Some? ==> file[j].value.tbt != tbt
    ensures "tbt:" + tbt in Loaded(file) && Loaded(file)["tbt:" + tbt] == file[n].value
  {
    KeysApart(tbt);
    var front := file[..|file| - 1];
    assert NotAnId(front, "tbt:" + tbt);
    if n < |front| {
      FirstWithTbt(front, tbt, n);
    } else {
      NoTbtKey(front, tbt);
    }
  }

  lemma KeysApart(tbt: string)
    ensures forall path: string :: "native:" + path != "tbt:" + tbt
    ensures forall other: string :: "tbt:" + other == "tbt:" + tbt ==> other == tbt
  {
    forall path: string ensures "native:" + path != "tbt:" + tbt {
      assert ("native:" + path)[0] == 'n' && ("tbt:" + tbt)[0] == 't';
    }
    forall other: string | "tbt:" + other == "tbt:" + tbt ensures other == tbt {
      assert other == ("tbt:" + other)[4..] && tbt == ("tbt:" + tbt)[4..];
    }
  }

  lemma {:induction false} NoTbtKey(file: seq<Option<Saved>>, tbt: string)
    requires NotAnId(file, "tbt:" + tbt)
    requires forall j :: 0 <= j < |file| && file[j].Some? ==> file[j].value.tbt != tbt
    ensures "tbt:" + tbt !in Loaded(file)
  {
    KeysApart(tbt);
    if file != [] {
      assert NotAnId(file[..|file| - 1], "tbt:" + tbt);
      NoTbtKey(file[..|file| - 1], tbt);
    }
  }

  /** A card whose id the board does not know takes over the review of the first card that
      was written for its TBT. */
  lemma RenamedCardKeepsItsReview(c: Card, file: seq<Option<Saved>>, n: nat)
    requires c.tbt != "" && c.id !in Loaded(file) && NotAnId(file, "tbt:" + c.tbt)
    requires n < |file| && file[n].Some? && file[n].value.tbt == c.tbt
    requires forall j :: 0 <= j < n && file[j].Some? ==> file[j].value.tbt != c.tbt
    ensures SavedFor(c, Loaded(file)) == Some(file[n].value)
    ensures file[n].value.note.Some? ==> MergeCard(c, Loaded(file)).note == file[n].value.note.value
  {
    hide Loaded;
    FirstWithTbt(file, c.tbt, n);
  }
}
