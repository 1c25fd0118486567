/** Exactness of the compliance rows the pipeline reports. */
module StatusRows {
  import opened Wrappers
  import opened Sequences
  import opened Grouping
  import opened StatusResolver
  import opened StatusTheorems

  predicate Declares(t: Tbt, r: RowRef) {
    t.id != "" && Usable(r) && r in t.compliance
  }

  ghost predicate Declared(tbts: seq<Tbt>, row: RowRef) {
    exists t :: t in tbts && Declares(t, row)
  }

  ghost predicate Reported(rows: seq<RowResult>, row: RowRef) {
    exists i :: 0 <= i < |rows| && rows[i].row == row
  }

  ghost predicate DistinctIds(tbts: seq<Tbt>) {
    forall i, j :: 0 <= i < j < |tbts| ==> tbts[i].id != tbts[j].id
  }

  /** The ids of the TBTs that declare `row`, in catalog order. */
  function DeclaringIds(tbts: seq<Tbt>, row: RowRef): (r: seq<string>)
    ensures forall x :: x in r ==> exists t :: t in tbts && t.id == x && Declares(t, row)
  {
    if tbts == [] then []
    else
      var front, t := tbts[..|tbts| - 1], tbts[|tbts| - 1];
      assert tbts == front + [t];
      if Declares(t, row) then DeclaringIds(front, row) + [t.id] else DeclaringIds(front, row)
  }

  lemma {:induction false} DeclaringIdsMember(tbts: seq<Tbt>, row: RowRef, t: Tbt)
    requires t in tbts && Declares(t, row)
    ensures t.id in DeclaringIds(tbts, row)
  {
    var front, last := tbts[..|tbts| - 1], tbts[|tbts| - 1];
    assert tbts == front + [last];
    if t != last {
      DeclaringIdsMember(front, row, t);
    }
  }

  lemma {:induction false} DeclarersAppend(a: seq<Declaration>, b: seq<Declaration>, row: RowRef)
    ensures Declarers(a + b, row) == Declarers(a, row) + Declarers(b, row)
  {
    if b == [] {
      assert a + b == a;
    } else {
      assert (a + b)[..|a + b| - 1] == a + b[..|b| - 1];
      DeclarersAppend(a, b[..|b| - 1], row);
    }
  }

  lemma DeclarersSnoc(ds: seq<Declaration>, d: Declaration, row: RowRef)
    ensures Declarers(ds + [d], row) == if d.row == row then Declarers(ds, row) + [d.tbt] else Declarers(ds, row)
  {
    assert (ds + [d])[..|ds|] == ds;
  }

  /** One TBT contributes its own id, once per repetition of the row. */
  lemma {:induction false} DeclarersOfOne(id: string, rows: seq<RowRef>, row: RowRef)
    ensures forall x :: x in Declarers(DeclarationsOf(id, rows), row) ==> x == id
    ensures Declarers(DeclarationsOf(id, rows), row) != [] <==> row in rows && Usable(row)
  {
    hide Declarers;
    if rows == [] {
      NoDeclarers(row);
    } else {
      var front, last := rows[..|rows| - 1], rows[|rows| - 1];
      assert rows == front + [last];
      DeclarersOfOne(id, front, row);
      DeclarersSnoc(DeclarationsOf(id, front), Declaration(last, id), row);
    }
  }

  lemma NoDeclarers(row: RowRef)
    ensures Declarers([], row) == []
  {
  }

  lemma {:induction false} DedupOfRepeats(s: seq<string>, repeats: seq<string>, id: string)
    requires id !in s && forall x :: x in repeats ==> x == id
    ensures Dedup(s + repeats) == if repeats == [] then Dedup(s) else Dedup(s) + [id]
  {
    hide Dedup;
    if repeats == [] {
      assert s + repeats == s;
    } else {
      var front, last := repeats[..|repeats| - 1], repeats[|repeats| - 1];
      assert last in repeats && forall x :: x in front ==> x in repeats;
      DedupOfRepeats(s, front, id);
      assert s + repeats == (s + front) + [id];
      DedupSnoc(s + front, id);
      assert id in s + front <==> id in front;
      if front != [] {
        assert front[0] in front;
      }
    }
  }

  lemma {:induction false} TbtRefsAreDeclaringIds(tbts: seq<Tbt>, row: RowRef)
    requires DistinctIds(tbts)
    ensures Dedup(Declarers(Declarations(tbts), row)) == DeclaringIds(tbts, row)
    ensures Distinct(DeclaringIds(tbts, row))
  {
    if tbts != [] {
      var front, t := tbts[..|tbts| - 1], tbts[|tbts| - 1];
      assert tbts == front + [t];
      TbtRefsAreDeclaringIds(front, row);
      var ds := Declarations(front);
      if t.id != "" {
        DeclarersAppend(ds, DeclarationsOf(t.id, t.compliance), row);
        DeclarersOfOne(t.id, t.compliance, row);
        assert t.id !in Dedup(Declarers(ds, row));
        DedupOfRepeats(Declarers(ds, row), Declarers(DeclarationsOf(t.id, t.compliance), row), t.id);
      }
    }
  }

  lemma {:induction false} DeclaredRowsMember(tbts: seq<Tbt>, row: RowRef)
    ensures row in DeclaredRows(Declarations(tbts)) <==> Declared(tbts, row)
  {
    hide DeclarationsOf;
    if tbts != [] {
      var front, t := tbts[..|tbts| - 1], tbts[|tbts| - 1];
      assert tbts == front + [t];
      DeclaredRowsMember(front, row);
      assert Declared(tbts, row) <==> Declared(front, row) || Declares(t, row);
      if t.id != "" {
        RowsOfOne(t.id, t.compliance, row);
        var ds, more := Declarations(front), DeclarationsOf(t.id, t.compliance);
        assert DeclaredRows(ds + more) == DeclaredRows(ds) + DeclaredRows(more);
      }
    }
  }

  lemma {:induction false} RowsOfOne(id: string, rows: seq<RowRef>, row: RowRef)
    ensures row in DeclaredRows(DeclarationsOf(id, rows)) <==> row in rows && Usable(row)
  {
    if rows != [] {
      var front, last := rows[..|rows| - 1], rows[|rows| - 1];
      assert rows == front + [last];
      RowsOfOne(id, front, row);
      var ds := DeclarationsOf(id, front);
      assert DeclaredRows(ds + [Declaration(last, id)]) == DeclaredRows(ds) + [last];
    }
  }

  lemma {:induction false} ProvesOfId(tbts: seq<Tbt>, t: Tbt)
    requires DistinctIds(tbts) && t in tbts
    ensures ProvesOf(tbts, t.id) == t.proves
  {
    var front, last := tbts[..|tbts| - 1], tbts[|tbts| - 1];
    assert tbts == front + [last];
    if t != last {
      ProvesOfId(front, t);
    }
  }

  lemma {:induction false} ProvedMember(tbts: seq<Tbt>, ids: seq<string>, f: string)
    ensures f in Proved(tbts, ids) <==> exists id :: id in ids && f in ProvesOf(tbts, id)
  {
    hide ProvesOf;
    if ids != [] {
      var front, id := ids[..|ids| - 1], ids[|ids| - 1];
      assert ids == front + [id];
      ProvedMember(tbts, front, f);
      assert Proved(tbts, ids) == Proved(tbts, front) + ProvesOf(tbts, id);
    }
  }

  lemma FrRefsMember(tbts: seq<Tbt>, row: RowRef, f: string)
    requires DistinctIds(tbts)
    ensures f in EntryOf(tbts, Declarations(tbts), row).frRefs <==> exists t :: t in tbts && Declares(t, row) && f in t.proves
  {
    hide ProvesOf, Declarations, Declares, Proved;
    var ids := Declarers(Declarations(tbts), row);
    ProvedMember(tbts, ids, f);
    TbtRefsAreDeclaringIds(tbts, row);
    assert forall x :: x in ids <==> x in DeclaringIds(tbts, row);
    if f in Proved(tbts, ids) {
      var id :| id in ids && f in ProvesOf(tbts, id);
      var t :| t in tbts && t.id == id && Declares(t, row);
      ProvesOfId(tbts, t);
    }
    if t :| t in tbts && Declares(t, row) && f in t.proves {
      DeclaringIdsMember(tbts, row, t);
      ProvesOfId(tbts, t);
    }
  }

  /** With distinct TBT ids: every declared row is reported exactly once and no other
      row is; its TBT references are its declarers in catalog order, without
      repetition; its FR references are, without repetition, what they prove. */
  lemma RowIndexIsExact(input: Input)
    requires DistinctIds(input.catalog.tbts)
    ensures
      var tbts, rows := input.catalog.tbts, Resolve(input).rows;
      && (forall i, j :: 0 <= i < j < |rows| ==> rows[i].row != rows[j].row)
      && (forall row :: Reported(rows, row) <==> Declared(tbts, row))
      && (forall i :: 0 <= i < |rows| ==>
            && rows[i].tbtRefs == DeclaringIds(tbts, rows[i].row)
            && Distinct(rows[i].tbtRefs)
            && Distinct(rows[i].frRefs)
            && forall f :: f in rows[i].frRefs <==> exists t :: t in tbts && Declares(t, rows[i].row) && f in t.proves)
  {
    hide TbtTable, FrTable, RowStatus, AllBlockers, Declares, EntryOf, Declarations, DeclaringIds, DistinctIds;
    var tbts, rows := input.catalog.tbts, Resolve(input).rows;
    var keys := RowIndex(input.catalog).keys;
    assert |rows| == |keys| && forall i :: 0 <= i < |rows| ==> rows[i].row == keys[i];
    forall row ensures Reported(rows, row) <==> Declared(tbts, row) {
      DeclaredRowsMember(tbts, row);
      assert Reported(rows, row) <==> row in keys;
    }
    forall i | 0 <= i < |rows|
      ensures rows[i].tbtRefs == DeclaringIds(tbts, rows[i].row)
      ensures Distinct(rows[i].tbtRefs) && Distinct(rows[i].frRefs)
      ensures forall f :: f in rows[i].frRefs <==> exists t :: t in tbts && Declares(t, rows[i].row) && f in t.proves
    {
      RowRefs(input, i);
    }
  }

  lemma RowRefs(input: Input, i: nat)
    requires DistinctIds(input.catalog.tbts) && i < |Resolve(input).rows|
    ensures
      var tbts, r := input.catalog.tbts, Resolve(input).rows[i];
      && r.tbtRefs == DeclaringIds(tbts, r.row)
      && Distinct(r.tbtRefs) && Distinct(r.frRefs)
      && forall f :: f in r.frRefs <==> exists t :: t in tbts && Declares(t, r.row) && f in t.proves
  {
    hide TbtTable, FrTable, RowStatus, AllBlockers, Declares, Declarations, DeclaringIds, DistinctIds, Proved, Declarers;
    var tbts := input.catalog.tbts;
    var row := RowIndex(input.catalog).keys[i];
    TbtRefsAreDeclaringIds(tbts, row);
    forall f ensures f in EntryOf(tbts, Declarations(tbts), row).frRefs <==> exists t :: t in tbts && Declares(t, row) && f in t.proves {
      FrRefsMember(tbts, row, f);
    }
  }

  /** Direct scanner evidence fails its row whatever the TBTs say, unless an approved
      control covers the row; an unblocked row takes the worst of its TBTs. */
  lemma BlockedRowIsFailed(input: Input, i: nat)
    requires i < |Resolve(input).rows|
    ensures
      var r := Resolve(input).rows[i];
      var key := RowKey(r.row.ruleset, r.row.row);
      var table := TbtTable(input.catalog.tbts, input.evidence, input.instance);
      match ApprovedControlEffect(EffectsAt(input.instance, key))
      case Some(e) => r.status == e.status
      case None =>
        if Blocked(input.evidence, input.packs, key) then r.status == Failed
        else r.status == WorseStatus(LinkedToRow(r.tbtRefs, table.at))
  {
    hide TbtTable, FrTable, AllBlockers, Lookup, EffectsAt, ApprovedControlEffect, LinkedToRow, Blocked, RowIndex, WorseStatus;
    var row := RowIndex(input.catalog).keys[i];
    BlockersIffBlocked(input.evidence, input.packs, RowKey(row.ruleset, row.row));
  }
}
