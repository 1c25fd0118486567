/** Committing a batch of files: write and validate every output under a temporary
    name, then rename them into place. Any file-system step may fail. */
module TwoPhaseCommit {
  import opened Wrappers

  type Files = map<string, string>

  /** The disk, with every state it has been through. */
  class Disk {
    var files: Files
    ghost var history: seq<Files>

    ghost predicate Recorded()
      reads this
    {
      history != [] && history[|history| - 1] == files
    }

    method Put(path: string, content: string)
      requires Recorded()
      modifies this
      ensures Recorded() && files == old(files)[path := content] && history == old(history) + [files]
    {
      files := files[path := content];
      history := history + [files];
    }

    /** Renaming replaces the destination in one step. */
    method Rename(from: string, to: string)
      requires Recorded() && from in files && from != to
      modifies this
      ensures Recorded() && history == old(history) + [files]
      ensures files == old(files)[to := old(files)[from]] - {from}
    {
      files := files[to := files[from]] - {from};
      history := history + [files];
    }

    method Remove(path: string)
      requires Recorded()
      modifies this
      ensures Recorded() && files == old(files) - {path} && history == old(history) + [files]
    {
      files := files - {path};
      history := history + [files];
    }
  }

  datatype Write = Write(path: string, content: string, kind: string)

  /** Which steps fail, by the number of the write; `partial` is what a failed write
      of the temporary file leaves behind. */
  datatype Faults = Faults(
    mkdir: nat -> bool,
    create: nat -> bool,
    write: nat -> bool,
    partial: nat -> string,
    replace: nat -> bool,
    unlink: nat -> bool)

  /** The files after the first renames: each path holds what was last planned for it. */
  function Committed(files: Files, writes: seq<Write>): Files {
    if writes == [] then files
    else
      var w := writes[|writes| - 1];
      Committed(files, writes[..|writes| - 1])[w.path := w.content]
  }

  /** After a commit each path holds the content of the last write planned for it, and
      a path that no write names holds what it held before. */
  lemma {:induction false} CommittedHoldsTheLastPlan(files: Files, writes: seq<Write>, p: string)
    ensures p in Committed(files, writes) <==> p in files || Planned(writes, p).Some?
    ensures p in Committed(files, writes) ==>
      Committed(files, writes)[p] == match Planned(writes, p) case Some(content) => content case None => files[p]
  {
    if writes != [] {
      CommittedHoldsTheLastPlan(files, writes[..|writes| - 1], p);
    }
  }

  /** What the last write for `p` plans, if any write is for it. */
  function Planned(writes: seq<Write>, p: string): (r: Option<string>)
    ensures r.None? <==> forall w :: w in writes ==> w.path != p
    ensures r.Some? ==> exists i :: (
      && 0 <= i < |writes| && writes[i].path == p && writes[i].content == r.value
      && forall j :: i < j < |writes| ==> writes[j].path != p)
  {
    if writes == [] then None
    else
      var front, last := writes[..|writes| - 1], writes[|writes| - 1];
      assert writes == front + [last];
      if last.path == p then Some(last.content) else Planned(front, p)
  }

  /** The temporary names of the first `n` writes. */
  ghost function Temps(names: nat -> string, n: nat): set<string> {
    set i: nat | i < n :: names(i)
  }

  /** Temporary names are new, pairwise different, and none is a target. */
  ghost predicate FreshNames(names: nat -> string, files: Files, writes: seq<Write>) {
    && (forall i: nat :: i < |writes| ==> names(i) !in files)
    && (forall i: nat, j: nat :: i < j < |writes| ==> names(i) != names(j))
    && (forall i: nat, w :: i < |writes| && w in writes ==> names(i) != w.path)
  }

  /** Every output is on disk under its temporary name and has been validated. */
  ghost predicate Staged(files: Files, writes: seq<Write>, names: nat -> string, valid: (string, string) -> bool, n: nat)
    requires n <= |writes|
  {
    forall i: nat :: i < n ==>
      names(i) in files && files[names(i)] == writes[i].content && valid(writes[i].content, writes[i].kind)
  }

  /** No step of phase one fails for write `i`. */
  predicate Stages(writes: seq<Write>, valid: (string, string) -> bool, faults: Faults, i: nat)
    requires i < |writes|
  {
    && !faults.mkdir(i) && !faults.create(i) && !faults.write(i)
    && valid(writes[i].content, writes[i].kind)
  }

  /** `n` is the first write that phase one fails on, or the number of writes. */
  ghost predicate StagesUpTo(writes: seq<Write>, valid: (string, string) -> bool, faults: Faults, n: nat) {
    && n <= |writes|
    && (forall i: nat :: i < n ==> Stages(writes, valid, faults, i))
    && (n < |writes| ==> !Stages(writes, valid, faults, n))
  }

  /** `n` is the first of `count` renames that fails, or `count`. */
  ghost predicate RenamesUpTo(faults: Faults, count: nat, n: nat) {
    && n <= count
    && (forall i: nat :: i < n ==> !faults.replace(i))
    && (n < count ==> faults.replace(n))
  }

  /** What a run that began with `start` may leave after `renamed` renames. */
  ghost predicate Stands(files: Files, start: Files, writes: seq<Write>, names: nat -> string, renamed: nat) {
    renamed <= |writes| && files - Temps(names, |writes|) == Committed(start, writes[..renamed])
  }

  /** The states before the first rename show no target touched; when there is a first
      rename, every output had been written and validated by then. */
  ghost predicate NothingEarly(
    history: seq<Files>, from: nat, renames: nat, start: Files, writes: seq<Write>, names: nat -> string,
    valid: (string, string) -> bool)
  {
    && from <= renames <= |history|
    && (forall h: nat :: from <= h < renames ==> history[h] - Temps(names, |writes|) == start)
    && (renames < |history| ==> 0 < renames && Staged(history[renames - 1], writes, names, valid, |writes|))
  }

  method Unlink(disk: Disk, ghost start: Files, writes: seq<Write>, names: nat -> string, count: nat, faults: Faults, ghost renamed: nat)
    requires disk.Recorded() && count <= |writes| && Stands(disk.files, start, writes, names, renamed)
    modifies disk
    ensures disk.Recorded() && Stands(disk.files, start, writes, names, renamed)
    ensures old(disk.history) <= disk.history
    ensures forall h: nat :: |old(disk.history)| <= h < |disk.history| ==> Stands(disk.history[h], start, writes, names, renamed)
    ensures (forall i: nat :: !faults.unlink(i)) ==> disk.files == old(disk.files) - Temps(names, count)
  {
    assert disk.files - Temps(names, 0) == disk.files;
    for i := 0 to count
      invariant disk.Recorded() && Stands(disk.files, start, writes, names, renamed)
      invariant old(disk.history) <= disk.history
      invariant forall h: nat :: |old(disk.history)| <= h < |disk.history| ==> Stands(disk.history[h], start, writes, names, renamed)
      invariant disk.files == old(disk.files) - Temps(names, i)
    {
      if faults.unlink(i) {
        return;
      }
      assert names(i) in Temps(names, |writes|);
      assert Temps(names, i + 1) == Temps(names, i) + {names(i)};
      assert disk.files - {names(i)} - Temps(names, |writes|) == disk.files - Temps(names, |writes|);
      disk.Remove(names(i));
    }
  }

  /** The states recorded from `from` on show only `start` beside temporary files. */
  ghost predicate OnlyTemps(history: seq<Files>, from: nat, start: Files, writes: seq<Write>, names: nat -> string) {
    from <= |history| && forall h: nat :: from <= h < |history| ==> history[h] - Temps(names, |writes|) == start
  }

  lemma TempIn(names: nat -> string, n: nat, i: nat)
    requires i < n
    ensures names(i) in Temps(names, n)
  {
  }

  lemma TempWritten(
    files: Files, start: Files, writes: seq<Write>, names: nat -> string, valid: (string, string) -> bool, i: nat, content: string)
    requires i < |writes| && FreshNames(names, start, writes)
    requires files - Temps(names, |writes|) == start && Staged(files, writes, names, valid, i)
    ensures
      var next := files[names(i) := content];
      && next - Temps(names, |writes|) == start
      && Staged(next, writes, names, valid, i)
      && (content == writes[i].content && valid(content, writes[i].kind) ==> Staged(next, writes, names, valid, i + 1))
  {
    TempIn(names, |writes|, i);
    var t := Temps(names, |writes|);
    assert (files[names(i) := content] - t).Keys == (files - t).Keys;
  }

  lemma OnlyTempsSoFar(history: seq<Files>, from: nat, files: Files, start: Files, writes: seq<Write>, names: nat -> string)
    requires OnlyTemps(history, from, start, writes, names) && files - Temps(names, |writes|) == start
    ensures OnlyTemps(history + [files], from, start, writes, names)
  {
  }

  lemma NothingStaged(files: Files, writes: seq<Write>, names: nat -> string, valid: (string, string) -> bool)
    ensures Staged(files, writes, names, valid, 0)
  {
  }

  lemma NothingRecorded(history: seq<Files>, start: Files, writes: seq<Write>, names: nat -> string)
    ensures OnlyTemps(history, |history|, start, writes, names)
  {
  }

  /** Phase one: write every output under a temporary name and validate it, up to the first
      step that fails. */
  method Stage(disk: Disk, writes: seq<Write>, names: nat -> string, valid: (string, string) -> bool, faults: Faults)
    returns (ok: bool, staged: nat)
    requires disk.Recorded() && FreshNames(names, disk.files, writes)
    modifies disk
    ensures disk.Recorded() && old(disk.history) <= disk.history
    ensures OnlyTemps(disk.history, |old(disk.history)|, old(disk.files), writes, names)
    ensures disk.files - Temps(names, |writes|) == old(disk.files)
    ensures StagesUpTo(writes, valid, faults, staged) && (ok <==> staged == |writes|)
    ensures Staged(disk.files, writes, names, valid, staged)
    ensures disk.files.Keys <= old(disk.files).Keys + Temps(names, if ok then staged else staged + 1)
  {
    NoTempsYet(disk.files, writes, names);
    NothingStaged(disk.files, writes, names, valid);
    hide FreshNames, Staged, OnlyTemps;
    ghost var start, from := disk.files, |disk.history|;
    NothingRecorded(disk.history, start, writes, names);
    staged := 0;
    while staged < |writes|
      invariant staged <= |writes| && forall i: nat :: i < staged ==> Stages(writes, valid, faults, i)
      invariant disk.Recorded() && old(disk.history) <= disk.history
      invariant OnlyTemps(disk.history, |old(disk.history)|, start, writes, names)
      invariant disk.files - Temps(names, |writes|) == start
      invariant Staged(disk.files, writes, names, valid, staged)
      invariant disk.files.Keys <= start.Keys + Temps(names, staged)
    {
      var w := writes[staged];
      assert Temps(names, staged) <= Temps(names, staged + 1);
      if faults.mkdir(staged) || faults.create(staged) {
        return false, staged;
      }
      TempIn(names, staged + 1, staged);
      TempWritten(disk.files, start, writes, names, valid, staged, "");
      OnlyTempsSoFar(disk.history, from, disk.files[names(staged) := ""], start, writes, names);
      disk.Put(names(staged), "");
      if faults.write(staged) {
        TempWritten(disk.files, start, writes, names, valid, staged, faults.partial(staged));
        OnlyTempsSoFar(disk.history, from, disk.files[names(staged) := faults.partial(staged)], start, writes, names);
        disk.Put(names(staged), faults.partial(staged));
        return false, staged;
      }
      TempWritten(disk.files, start, writes, names, valid, staged, w.content);
      OnlyTempsSoFar(disk.history, from, disk.files[names(staged) := w.content], start, writes, names);
      disk.Put(names(staged), w.content);
      if !valid(w.content, w.kind) {
        return false, staged;
      }
      staged := staged + 1;
    }
    ok := true;
  }

  lemma NoTempsYet(files: Files, writes: seq<Write>, names: nat -> string)
    requires FreshNames(names, files, writes)
    ensures files - Temps(names, |writes|) == files
    ensures Temps(names, 0) == {}
  {
  }

  /** The temporary files that are still to be renamed hold their outputs. */
  ghost predicate Waiting(files: Files, writes: seq<Write>, names: nat -> string, from: nat) {
    forall i: nat :: from <= i < |writes| ==> names(i) in files && files[names(i)] == writes[i].content
  }

  /** The temporary files already renamed are gone. */
  ghost predicate Gone(files: Files, names: nat -> string, count: nat) {
    forall i: nat :: i < count ==> names(i) !in files
  }

  lemma RenameStands(files: Files, start: Files, writes: seq<Write>, names: nat -> string, k: nat)
    requires k < |writes| && FreshNames(names, start, writes)
    requires Stands(files, start, writes, names, k) && Waiting(files, writes, names, k) && Gone(files, names, k)
    ensures
      var next := files[writes[k].path := writes[k].content] - {names(k)};
      Stands(next, start, writes, names, k + 1) && Waiting(next, writes, names, k + 1) && Gone(next, names, k + 1)
    ensures names(k) != writes[k].path && files[names(k)] == writes[k].content
  {
    var w := writes[k];
    var t := Temps(names, |writes|);
    TempIn(names, |writes|, k);
    assert w in writes && w.path !in t;
    var next := files[w.path := w.content] - {names(k)};
    assert next - t == (files - t)[w.path := w.content];
    assert writes[..k + 1][..k] == writes[..k];
    assert forall i: nat :: k < i < |writes| ==> names(i) != names(k) && names(i) != w.path;
    assert forall i: nat :: i < k ==> names(i) != w.path;
  }

  lemma AllGone(files: Files, names: nat -> string, count: nat)
    requires Gone(files, names, count)
    ensures files - Temps(names, count) == files
  {
  }

  /** Phase two: rename the staged outputs into place, one by one, up to the first rename
      that fails. */
  method RenameAll(disk: Disk, ghost start: Files, writes: seq<Write>, names: nat -> string, faults: Faults)
    returns (ok: bool, ghost renamed: nat)
    requires disk.Recorded() && FreshNames(names, start, writes)
    requires disk.files - Temps(names, |writes|) == start && Waiting(disk.files, writes, names, 0)
    modifies disk
    ensures disk.Recorded() && old(disk.history) <= disk.history
    ensures Stands(disk.files, start, writes, names, renamed)
    ensures RenamesUpTo(faults, |writes|, renamed) && (ok <==> renamed == |writes|)
    ensures ok ==> disk.files == Committed(start, writes)
    ensures |old(disk.history)| + renamed == |disk.history|
  {
    hide Stands, Waiting, Gone, FreshNames, Committed;
    RenamesStart(disk.files, start, writes, names);
    renamed := 0;
    var k := 0;
    while k < |writes|
      invariant k <= |writes| && renamed == k && forall i: nat :: i < k ==> !faults.replace(i)
      invariant disk.Recorded() && old(disk.history) <= disk.history && |old(disk.history)| + k == |disk.history|
      invariant Stands(disk.files, start, writes, names, k)
      invariant Waiting(disk.files, writes, names, k) && Gone(disk.files, names, k)
    {
      if faults.replace(k) {
        return false, k;
      }
      RenameStands(disk.files, start, writes, names, k);
      WaitingHas(disk.files, writes, names, k);
      disk.Rename(names(k), writes[k].path);
      k, renamed := k + 1, k + 1;
    }
    ok := true;
    RenamesEnd(disk.files, start, writes, names);
  }

  lemma RenamesStart(files: Files, start: Files, writes: seq<Write>, names: nat -> string)
    requires files - Temps(names, |writes|) == start
    ensures Stands(files, start, writes, names, 0) && Gone(files, names, 0)
  {
  }

  lemma WaitingHas(files: Files, writes: seq<Write>, names: nat -> string, k: nat)
    requires k < |writes| && Waiting(files, writes, names, k)
    ensures names(k) in files
  {
  }

  lemma RenamesEnd(files: Files, start: Files, writes: seq<Write>, names: nat -> string)
    requires Stands(files, start, writes, names, |writes|) && Gone(files, names, |writes|)
    ensures files == Committed(start, writes)
  {
    AllGone(files, names, |writes|);
    assert writes[..|writes|] == writes;
  }

  /** The whole commit.
      - It succeeds exactly when no step of either phase fails. `staged` is the first write
        that phase one fails on and `renamed` the first rename that fails, if any does.
      - Until every output has been written and validated no target changes.
      - On success each target holds what was last planned for it and nothing else changed.
      - On failure exactly the first `renamed` outputs are in place; a failure of phase
        one leaves none. When removing temporary files does not itself fail, at most the
        temporary file that was being written or validated stays behind. */
  method Commit(disk: Disk, writes: seq<Write>, names: nat -> string, valid: (string, string) -> bool, faults: Faults)
    returns (ok: bool, staged: nat, ghost renamed: nat, ghost renames: nat)
    requires disk.Recorded() && FreshNames(names, disk.files, writes)
    modifies disk
    ensures old(disk.history) <= disk.history
    ensures ok <==> forall i: nat :: i < |writes| ==> Stages(writes, valid, faults, i) && !faults.replace(i)
    ensures StagesUpTo(writes, valid, faults, staged)
    ensures if staged < |writes| then renamed == 0 else RenamesUpTo(faults, |writes|, renamed)
    ensures ok ==> disk.files == Committed(old(disk.files), writes)
    ensures Stands(disk.files, old(disk.files), writes, names, renamed)
    ensures NothingEarly(disk.history, |old(disk.history)| - 1, renames, old(disk.files), writes, names, valid)
    ensures !ok && (forall i: nat :: !faults.unlink(i)) ==>
      forall i: nat :: i < |writes| && names(i) in disk.files ==> i == staged
  {
    hide Stands, FreshNames, Committed, Staged;
    ghost var start, first := disk.files, |disk.history| - 1;
    NoTempsYet(start, writes, names);
    ok, staged := Stage(disk, writes, names, valid, faults);
    renamed, renames := 0, |disk.history|;
    ghost var written := disk.files;
    RenamesStart(disk.files, start, writes, names);
    assert OnlyTemps(disk.history, first, start, writes, names);
    if ok {
      StagedWaits(disk.files, writes, names, valid);
      ok, renamed := RenameAll(disk, start, writes, names, faults);
    }
    if !ok {
      ghost var placed, seen := disk.files, disk.history;
      Unlink(disk, start, writes, names, staged, faults, renamed);
      if renamed == 0 {
        EarlyStates(disk.history, first, |seen|, start, writes, names);
        renames := |disk.history|;
      }
      if forall i: nat :: !faults.unlink(i) {
        Leftovers(placed, start, writes, names, staged);
      }
    } else if renamed == 0 {
      renames := |disk.history|;
    }
  }

  lemma EarlyStates(history: seq<Files>, first: nat, mid: nat, start: Files, writes: seq<Write>, names: nat -> string)
    requires first <= mid <= |history| && OnlyTemps(history[..mid], first, start, writes, names)
    requires forall h: nat :: mid <= h < |history| ==> Stands(history[h], start, writes, names, 0)
    ensures OnlyTemps(history, first, start, writes, names)
  {
    forall h: nat | first <= h < |history| ensures history[h] - Temps(names, |writes|) == start {
      if h < mid {
        assert history[..mid][h] == history[h];
      } else {
        assert Stands(history[h], start, writes, names, 0);
      }
    }
  }

  lemma Leftovers(placed: Files, start: Files, writes: seq<Write>, names: nat -> string, staged: nat)
    requires FreshNames(names, start, writes) && staged <= |writes|
    requires staged < |writes| ==> placed.Keys <= start.Keys + Temps(names, staged + 1)
    ensures forall i: nat :: i < |writes| && names(i) in placed - Temps(names, staged) ==> i == staged
  {
    forall i: nat | i < |writes| && names(i) in placed - Temps(names, staged) ensures i == staged {
      if i < staged {
        TempIn(names, staged, i);
      }
    }
  }

  lemma StagedWaits(files: Files, writes: seq<Write>, names: nat -> string, valid: (string, string) -> bool)
    requires Staged(files, writes, names, valid, |writes|)
    ensures Waiting(files, writes, names, 0)
  {
  }
}
