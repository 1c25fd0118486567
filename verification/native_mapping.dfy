/** Reviewed mappings of native tests: edits to the entries of a test pack in place, and the
    counters that summarise them. */
module NativeMapping {
  import opened Wrappers

  /** An entry; a missing field is the empty string. `review` is the printed review record. */
  datatype Entry = Entry(
    packId: string, nativePath: string, tbt: string, frs: seq<string>, assessment: string, safety: string,
    rationale: string, disposition: string, review: string)

  datatype Operation = MapToTbt | NotRelevant | ProjectSpecific | LeaveUnmapped | ChangesCatalog | Other

  datatype Update = Update(
    op: Operation, packId: string, nativePath: string, fr: string, tbt: string, rationale: Option<string>,
    needsReview: bool, review: string)

  datatype Error = NotFound | TargetMissing | CatalogFirst | Unsupported

  // ----- One update --------------------------------------------------------------------------------

  function FirstPackId(tests: seq<Entry>, id: string, n: nat): (p: Option<nat>)
    requires n <= |tests|
    ensures p.Some? ==> n <= p.value < |tests|
    decreases |tests| - n
  {
    if n == |tests| then None
    else if tests[n].packId == id then Some(n)
    else FirstPackId(tests, id, n + 1)
  }

  function FirstPath(tests: seq<Entry>, path: string, n: nat): (p: Option<nat>)
    requires n <= |tests|
    ensures p.Some? ==> n <= p.value < |tests|
    decreases |tests| - n
  {
    if n == |tests| then None
    else if tests[n].nativePath == path then Some(n)
    else FirstPath(tests, path, n + 1)
  }

  /** The entry an update names: by pack id if any has it, otherwise by native path. */
  function Position(tests: seq<Entry>, u: Update): (p: Option<nat>)
    ensures p.Some? ==> p.value < |tests|
  {
    var byId := if u.packId != "" then FirstPackId(tests, u.packId, 0) else None;
    if byId.Some? then byId
    else if u.nativePath != "" then FirstPath(tests, u.nativePath, 0)
    else None
  }

  function Reason(e: Entry, u: Update): string {
    if u.rationale.Some? then u.rationale.value else e.rationale
  }

  function Edited(e: Entry, u: Update): Result<Entry, Error> {
    var r := e.(review := u.review);
    match u.op
    case MapToTbt =>
      if u.fr == "" || u.tbt == "" then Failure(TargetMissing)
      else Success(r.(
        tbt := u.tbt,
        frs := if u.fr in e.frs then e.frs else e.frs + [u.fr],
        assessment := if e.assessment in {"candidate_inspiration", "needs_design"} then "useful_with_wrapper" else e.assessment,
        safety := if e.safety == "review_required" then "non_destructive" else e.safety,
        rationale := Reason(e, u)))
    case NotRelevant =>
      Success(r.(tbt := "", frs := [], assessment := "not_assurance_relevant", disposition := "reviewed_not_evidence",
                 safety := "non_destructive", rationale := Reason(e, u)))
    case ProjectSpecific =>
      Success(r.(tbt := "", frs := [], assessment := "bespoke_project_only", disposition := "bespoke_project_only",
                 safety := "review_required", rationale := Reason(e, u)))
    case LeaveUnmapped =>
      Success(r.(tbt := "", frs := [], disposition := if u.needsReview then "needs_mapping_review" else "left_unmapped",
                 safety := "review_required", rationale := Reason(e, u)))
    case ChangesCatalog => Failure(CatalogFirst)
    case Other => Failure(Unsupported)
  }

  function Step(tests: seq<Entry>, u: Update): Result<seq<Entry>, Error> {
    var p := Position(tests, u);
    if p.None? then Failure(NotFound)
    else
      var e :- Edited(tests[p.value], u);
      Success(tests[p.value := e])
  }

  function Run(tests: seq<Entry>, updates: seq<Update>): Result<seq<Entry>, Error> {
    if updates == [] then Success(tests)
    else
      var before :- Run(tests, updates[..|updates| - 1]);
      Step(before, updates[|updates| - 1])
  }

  method FindEntry(tests: array<Entry>, u: Update) returns (p: Option<nat>)
    ensures p == Position(tests[..], u)
  {
    if u.packId != "" {
      for n := 0 to tests.Length
        invariant FirstPackId(tests[..], u.packId, 0) == FirstPackId(tests[..], u.packId, n)
      {
        if tests[n].packId == u.packId {
          return Some(n);
        }
      }
    }
    if u.nativePath != "" {
      for n := 0 to tests.Length
        invariant FirstPath(tests[..], u.nativePath, 0) == FirstPath(tests[..], u.nativePath, n)
      {
        if tests[n].nativePath == u.nativePath {
          return Some(n);
        }
      }
    }
    p := None;
  }

  /** One update of the pack in place; a refused update leaves the entries as they were. */
  method ApplyUpdate(tests: array<Entry>, u: Update) returns (r: Result<(), Error>)
    modifies tests
    ensures
      match Step(old(tests[..]), u)
      case Failure(error) => r == Failure(error) && tests[..] == old(tests[..])
      case Success(now) => r == Success(()) && tests[..] == now
  {
    var p := FindEntry(tests, u);
    if p.None? {
      return Failure(NotFound);
    }
    var e := Edited(tests[p.value], u);
    if e.Failure? {
      return Failure(e.error);
    }
    tests[p.value] := e.value;
    r := Success(());
  }

  // ----- The summary -------------------------------------------------------------------------------

  datatype Counters = Counters(mapped: nat, unmapped: nat, notRelevant: nat, bespoke: nat)

  predicate Native(e: Entry) {
    e.nativePath != ""
  }

  predicate Marked(e: Entry) {
    e.assessment == "not_assurance_relevant" || e.assessment == "bespoke_project_only"
  }

  function Count(tests: seq<Entry>, keep: Entry -> bool): nat {
    if tests == [] then 0
    else Count(tests[..|tests| - 1], keep) + if keep(tests[|tests| - 1]) then 1 else 0
  }

  function Summary(tests: seq<Entry>): Counters {
    Counters(
      Count(tests, (e: Entry) => Native(e) && e.tbt != ""),
      Count(tests, (e: Entry) => Native(e) && e.tbt == "" && !Marked(e)),
      Count(tests, (e: Entry) => Native(e) && e.assessment == "not_assurance_relevant"),
      Count(tests, (e: Entry) => Native(e) && e.assessment == "bespoke_project_only"))
  }

  method ApplyNativeMappings(tests: seq<Entry>, updates: seq<Update>) returns (r: Result<(seq<Entry>, Counters), Error>)
    ensures
      match Run(tests, updates)
      case Failure(error) => r == Failure(error)
      case Success(now) => r == Success((now, Summary(now)))
  {
    hide Step, Summary;
    var next := new Entry[|tests|](i requires 0 <= i < |tests| => tests[i]);
    assert next[..] == tests;
    for n := 0 to |updates|
      invariant Run(tests, updates[..n]) == Success(next[..])
    {
      assert updates[..n + 1][..n] == updates[..n];
      var one := ApplyUpdate(next, updates[n]);
      if one.Failure? {
        RunFails(tests, updates, n);
        return Failure(one.error);
      }
    }
    assert updates[..|updates|] == updates;
    r := Success((next[..], Summary(next[..])));
  }

  lemma {:induction false} RunFails(tests: seq<Entry>, updates: seq<Update>, n: nat)
    requires n < |updates| && Run(tests, updates[..n + 1]).Failure?
    ensures Run(tests, updates) == Run(tests, updates[..n + 1])
  {
    hide Step;
    if n + 1 == |updates| {
      assert updates[..n + 1] == updates;
    } else {
      assert updates[..|updates| - 1][..n + 1] == updates[..n + 1];
      RunFails(tests, updates[..|updates| - 1], n);
    }
  }

  // ----- What a run keeps --------------------------------------------------------------------------------

  /** The same pack ids and native paths at the same places. */
  ghost predicate SameNames(a: seq<Entry>, b: seq<Entry>) {
    |a| == |b| && forall i :: 0 <= i < |a| ==> a[i].packId == b[i].packId && a[i].nativePath == b[i].nativePath
  }

  lemma {:induction false} SamePosition(a: seq<Entry>, b: seq<Entry>, u: Update)
    requires SameNames(a, b)
    ensures Position(a, u) == Position(b, u)
  {
    SameFirsts(a, b, u, 0);
  }

  lemma {:induction false} SameFirsts(a: seq<Entry>, b: seq<Entry>, u: Update, n: nat)
    requires SameNames(a, b) && n <= |a|
    ensures FirstPackId(a, u.packId, n) == FirstPackId(b, u.packId, n)
    ensures FirstPath(a, u.nativePath, n) == FirstPath(b, u.nativePath, n)
    decreases |a| - n
  {
    if n < |a| {
      SameFirsts(a, b, u, n + 1);
    }
  }

  /** No run adds, drops or reorders an entry or changes what names it, so an update means
      the same entry wherever it stands in the run. */
  lemma {:induction false} RunKeepsNames(tests: seq<Entry>, updates: seq<Update>)
    requires Run(tests, updates).Success?
    ensures SameNames(Run(tests, updates).value, tests)
  {
    if updates != [] {
      RunKeepsNames(tests, updates[..|updates| - 1]);
    }
  }

  /** An entry no update names is left as it was. */
  lemma {:induction false} UnnamedEntryStays(tests: seq<Entry>, updates: seq<Update>, i: nat)
    requires Run(tests, updates).Success? && i < |tests|
    requires forall u :: u in updates ==> Position(tests, u) != Some(i)
    ensures i < |Run(tests, updates).value| && Run(tests, updates).value[i] == tests[i]
  {
    hide Edited, Position;
    RunKeepsNames(tests, updates);
    if updates != [] {
      var front, last := updates[..|updates| - 1], updates[|updates| - 1];
      assert updates == front + [last] && last in updates;
      RunKeepsNames(tests, front);
      UnnamedEntryStays(tests, front, i);
      SamePosition(Run(tests, front).value, tests, last);
    }
  }

  /** The entry stands as the update says: mapped to its TBT with its FR and no longer a
      candidate under review, or not mapped at all and marked accordingly. */
  ghost predicate Follows(e: Entry, u: Update) {
    && e.review == u.review
    && (u.op == MapToTbt ==>
      && e.tbt == u.tbt != "" && u.fr in e.frs
      && e.assessment !in {"candidate_inspiration", "needs_design"} && e.safety != "review_required")
    && (u.op != MapToTbt ==> e.tbt == "" && e.frs == [])
    && (u.op == NotRelevant ==> e.assessment == "not_assurance_relevant" && e.safety == "non_destructive")
    && (u.op == ProjectSpecific ==> e.assessment == "bespoke_project_only" && e.safety == "review_required")
    && (u.op == LeaveUnmapped ==> e.safety == "review_required")
  }

  lemma EditFollows(e: Entry, u: Update)
    ensures Edited(e, u).Success? ==> Follows(Edited(e, u).value, u)
  {
    assert "useful_with_wrapper"[0] == 'u' && "candidate_inspiration"[0] == 'c' && "needs_design"[0] == 'n';
    assert "non_destructive"[0] == 'n' && "review_required"[0] == 'r';
  }

  /** The last update that names an entry decides how it stands. */
  lemma {:induction false} LastUpdateDecides(tests: seq<Entry>, updates: seq<Update>, i: nat, n: nat)
    requires Run(tests, updates).Success? && i < |tests| && n < |updates|
    requires Position(tests, updates[n]) == Some(i)
    requires forall j :: n < j < |updates| ==> Position(tests, updates[j]) != Some(i)
    ensures i < |Run(tests, updates).value| && Follows(Run(tests, updates).value[i], updates[n])
  {
    hide Edited, Follows, Position;
    var front, last := updates[..|updates| - 1], updates[|updates| - 1];
    RunKeepsNames(tests, front);
    SamePosition(Run(tests, front).value, tests, last);
    if n < |front| {
      LastUpdateDecides(tests, front, i, n);
    } else {
      EditFollows(Run(tests, front).value[i], last);
    }
  }

  /** A native entry that is mapped although it is marked as no evidence. */
  predicate MappedAndMarked(e: Entry) {
    Native(e) && e.tbt != "" && Marked(e)
  }

  /** The four counters count every native test once, and once more each one that is both
      mapped and marked. */
  lemma {:induction false} CountersCover(tests: seq<Entry>)
    ensures
      var c := Summary(tests);
      c.mapped + c.unmapped + c.notRelevant + c.bespoke == Count(tests, Native) + Count(tests, MappedAndMarked)
  {
    if tests != [] {
      CountersCover(tests[..|tests| - 1]);
      assert "not_assurance_relevant" != "bespoke_project_only" by {
        assert "not_assurance_relevant"[0] != "bespoke_project_only"[0];
      }
    }
  }

  lemma {:induction false} CountIsZero(tests: seq<Entry>, keep: Entry -> bool)
    ensures Count(tests, keep) == 0 <==> forall e :: e in tests ==> !keep(e)
  {
    if tests != [] {
      CountIsZero(tests[..|tests| - 1], keep);
      assert tests == tests[..|tests| - 1] + [tests[|tests| - 1]];
    }
  }

  /** The last update that names entry `i`. */
  function LastOn(tests: seq<Entry>, updates: seq<Update>, i: nat): Option<Update> {
    if updates == [] then None
    else if Position(tests, updates[|updates| - 1]) == Some(i) then Some(updates[|updates| - 1])
    else LastOn(tests, updates[..|updates| - 1], i)
  }

  /** The last update that names entry `i` maps it, or none names it and it was mapped. */
  predicate EndsMapped(tests: seq<Entry>, updates: seq<Update>, i: nat)
    requires i < |tests|
  {
    match LastOn(tests, updates, i)
    case Some(u) => u.op == MapToTbt
    case None => tests[i].tbt != ""
  }

  predicate Marks(u: Update) {
    u.op == NotRelevant || u.op == ProjectSpecific
  }

  /** Entry `i` was marked as no evidence, or some update marks it. */
  predicate EverMarked(tests: seq<Entry>, updates: seq<Update>, i: nat)
    requires i < |tests|
  {
    Marked(tests[i]) || exists u :: u in updates && Marks(u) && Position(tests, u) == Some(i)
  }

  /** An edit maps exactly when it is a mapping; it marks or leaves the mark as it is. */
  lemma EditMapsOrMarks(e: Entry, u: Update)
    requires Edited(e, u).Success?
    ensures Edited(e, u).value.tbt != "" <==> u.op == MapToTbt
    ensures Marked(Edited(e, u).value) <==> Marked(e) || Marks(u)
  {
    assert "useful_with_wrapper"[0] == 'u' && "not_assurance_relevant"[0] == 'n' && "bespoke_project_only"[0] == 'b';
    assert "not_assurance_relevant"[1] == 'o' && "candidate_inspiration"[0] == 'c' && "needs_design"[1] == 'e';
  }

  lemma OneMoreUpdate(tests: seq<Entry>, updates: seq<Update>, u: Update, i: nat)
    requires i < |tests|
    ensures
      var names := Position(tests, u) == Some(i);
      && (EndsMapped(tests, updates + [u], i) <==> if names then u.op == MapToTbt else EndsMapped(tests, updates, i))
      && (EverMarked(tests, updates + [u], i) <==> EverMarked(tests, updates, i) || (names && Marks(u)))
  {
    hide Position, Marked, Marks;
    assert (updates + [u])[..|updates|] == updates;
    assert forall x :: x in updates + [u] <==> x in updates || x == u;
  }

  /** After an accepted run an entry is mapped when its last update maps it, but marked when
      any update ever marked it: no update takes a mark away. */
  lemma {:induction false} RunMapsAndMarks(tests: seq<Entry>, updates: seq<Update>, i: nat)
    requires Run(tests, updates).Success? && i < |tests|
    ensures i < |Run(tests, updates).value|
    ensures Run(tests, updates).value[i].tbt != "" <==> EndsMapped(tests, updates, i)
    ensures Marked(Run(tests, updates).value[i]) <==> EverMarked(tests, updates, i)
  {
    RunKeepsNames(tests, updates);
    if updates != [] {
      var front, last := updates[..|updates| - 1], updates[|updates| - 1];
      assert updates == front + [last];
      OneMoreUpdate(tests, front, last, i);
      hide Edited, Position, Marked, Marks, EndsMapped, EverMarked;
      var before := Run(tests, front).value;
      RunKeepsNames(tests, front);
      SamePosition(before, tests, last);
      RunMapsAndMarks(tests, front, i);
      EditMapsOrMarks(before[Position(tests, last).value], last);
    }
  }

  lemma {:induction false} SameNatives(a: seq<Entry>, b: seq<Entry>)
    requires SameNames(a, b)
    ensures Count(a, Native) == Count(b, Native)
  {
    if a != [] {
      SameNatives(a[..|a| - 1], b[..|b| - 1]);
    }
  }

  /** After an accepted run the counters partition the native tests exactly when the
      updates leave no native test mapped that was marked, before the run or during it. */
  lemma CountersPartitionIff(tests: seq<Entry>, updates: seq<Update>)
    requires Run(tests, updates).Success?
    ensures
      var c := Summary(Run(tests, updates).value);
      c.mapped + c.unmapped + c.notRelevant + c.bespoke == Count(tests, Native) <==>
      !exists i :: 0 <= i < |tests| && Native(tests[i]) && EndsMapped(tests, updates, i) && EverMarked(tests, updates, i)
  {
    hide Run, EndsMapped, EverMarked, Marked, Summary;
    var now := Run(tests, updates).value;
    RunKeepsNames(tests, updates);
    CountersCover(now);
    CountIsZero(now, MappedAndMarked);
    SameNatives(now, tests);
    forall i | 0 <= i < |tests|
      ensures MappedAndMarked(now[i]) <==>
        Native(tests[i]) && EndsMapped(tests, updates, i) && EverMarked(tests, updates, i)
    {
      RunMapsAndMarks(tests, updates, i);
    }
  }

  /** Marking a test as not relevant and mapping it later leaves it counted twice. */
  lemma MappingAMarkedTestCountsItTwice()
    ensures
      var e := Entry("P", "a.py", "", [], "candidate_inspiration", "", "", "", "");
      var mark := Update(NotRelevant, "P", "", "", "", None, false, "");
      var remap := Update(MapToTbt, "P", "", "FR-1", "TBT-1", None, false, "");
      && Run([e], [mark, remap]).Success?
      && MappedAndMarked(Run([e], [mark, remap]).value[0])
  {
    var e := Entry("P", "a.py", "", [], "candidate_inspiration", "", "", "", "");
    var mark := Update(NotRelevant, "P", "", "", "", None, false, "");
    var remap := Update(MapToTbt, "P", "", "FR-1", "TBT-1", None, false, "");
    assert [mark, remap][..1] == [mark] && [mark][..0] == [];
    assert Run([e], []) == Success([e]);
    var marked := Edited(e, mark).value;
    assert [e][0 := marked] == [marked];
    assert Run([e], [mark]) == Success([marked]);
    assert marked.assessment == "not_assurance_relevant";
    NotACandidate();
  }

  lemma NotACandidate()
    ensures "not_assurance_relevant" !in {"candidate_inspiration", "needs_design"}
  {
    assert "not_assurance_relevant"[1] == 'o' && "candidate_inspiration"[1] == 'a' && "needs_design"[1] == 'e';
  }
}
