/** Capacity is never exceeded, and a transfer neither makes nor loses a unit. */
module CapacityTheorems {
  import opened Common
  import opened ChildProtocol
  import opened Capacity

  ghost predicate UniqueIds(rows: seq<Run>) { forall i, j :: 0 <= i < j < |rows| ==> rows[i].id != rows[j].id }

  /** No two children have the same place below one parent. */
  ghost predicate UniqueSteps(rows: seq<Run>) {
    forall i, j :: 0 <= i < j < |rows| ==>
        rows[i].parent == None || rows[i].parent != rows[j].parent || rows[i].step != rows[j].step
  }

  /** A child has weight one, and a stored top-level parent that has given its second unit away, or never had one. */
  ghost predicate LineageOk(rows: seq<Run>, r: Run) {
    r.parent.Some? ==>
      r.weight == 1 && exists p ::
          0 <= p < |rows| && rows[p].id == r.parent.value && rows[p].parent == None && rows[p].weight == 1
  }

  ghost predicate TableOk(rows: seq<Run>) {
    && UniqueIds(rows) && UniqueSteps(rows)
    && (forall i :: 0 <= i < |rows| ==>
          1 <= rows[i].weight <= 2 && rows[i].instance == rows[i].id && LineageOk(rows, rows[i]))
    && Units(rows) <= RUN_CAPACITY_LIMIT
  }

  /** Identities and lineage are forever; a weight never grows; an outcome never returns to `queued`. */
  ghost predicate Grows(rows: seq<Run>, later: seq<Run>) {
    && |rows| <= |later|
    && forall i :: 0 <= i < |rows| ==>
         && later[i] == rows[i].(weight := later[i].weight, outcome := later[i].outcome)
         && later[i].weight <= rows[i].weight
         && (later[i].outcome == Queued ==> rows[i].outcome == Queued)
         && (!Unfinished(rows[i].outcome) ==> later[i].outcome == rows[i].outcome)
  }

  lemma {:induction false} UnitsUpdate(rows: seq<Run>, i: nat, r: Run)
    requires i < |rows|
    ensures Units(rows[i := r]) == Units(rows) - Weight(rows[i]) + Weight(r)
    ensures Units(rows) >= Weight(rows[i])
  {
    var n := |rows| - 1;
    var next := rows[i := r];
    if i == n {
      assert next[..n] == rows[..n];
    } else {
      assert next[..n] == rows[..n][i := r];
      UnitsUpdate(rows[..n], i, r);
    }
  }

  lemma UnitsInsert(rows: seq<Run>, r: Run)
    ensures Units(rows + [r]) == Units(rows) + Weight(r)
  {
    assert (rows + [r])[..|rows|] == rows;
  }

  lemma IndexIs(rows: seq<Run>, i: nat)
    requires UniqueIds(rows) && i < |rows|
    ensures IndexOf(rows, rows[i].id) == i
  {
  }

  lemma InsertKeeps(rows: seq<Run>, r: Run)
    requires TableOk(rows) && !Conflicts(rows, r) && 1 <= r.weight <= 2 && r.instance == r.id && LineageOk(rows, r)
    requires Units(rows) + Weight(r) <= RUN_CAPACITY_LIMIT
    ensures TableOk(rows + [r])
  {
    UnitsInsert(rows, r);
    var next := rows + [r];
    forall i, j | 0 <= i < j < |next| ensures next[i].id != next[j].id {
      if j == |rows| { assert !Clash(r, rows[i]); }
    }
    forall i | 0 <= i < |next| ensures LineageOk(next, next[i]) {
      if next[i].parent.Some? {
        assert LineageOk(rows, next[i]);
        var p :| 0 <= p < |rows| && rows[p].id == next[i].parent.value && rows[p].parent == None && rows[p].weight == 1;
        assert next[p] == rows[p];
      }
    }
  }

  lemma AdmitKeeps(rows: seq<Run>, r: Run, c: Catalog)
    requires TableOk(rows) && Admissible(r)
    ensures TableOk(AdmitRows(rows, r, c)) && Grows(rows, AdmitRows(rows, r, c))
  {
    if AdmitRows(rows, r, c) != rows { InsertKeeps(rows, r); }
  }

  lemma DetachKeeps(rows: seq<Run>, a: Reservation, c: Catalog)
    requires TableOk(rows)
    ensures TableOk(DetachRows(rows, a, c)) && Grows(rows, DetachRows(rows, a, c))
  {
    if DetachRows(rows, a, c) != rows {
      assert rows[IndexOf(rows, a.parent)].id == a.parent;
      InsertKeeps(rows, ChildRow(a));
    }
  }

  lemma OutcomeKeeps(rows: seq<Run>, id: string, o: Outcome)
    requires TableOk(rows)
    ensures TableOk(OutcomeRows(rows, id, o)) && Grows(rows, OutcomeRows(rows, id, o))
  {
    var next := OutcomeRows(rows, id, o);
    var k := IndexOf(rows, id);
    if next != rows {
      UnitsUpdate(rows, k, rows[k].(outcome := o));
      forall i | 0 <= i < |next| ensures LineageOk(next, next[i]) {
        if next[i].parent.Some? {
          assert LineageOk(rows, rows[i]);
          var p :| 0 <= p < |rows| && rows[p].id == rows[i].parent.value && rows[p].parent == None &&
              rows[p].weight == 1;
          assert next[p].id == rows[p].id && next[p].parent == None && next[p].weight == 1;
        }
      }
    }
  }

  /** A transfer changes the table exactly when its parent may reserve and no row is in the way; it then appends
    the child and takes one unit from the parent, all at once. */
  lemma TransferExact(rows: seq<Run>, a: Reservation, c: Catalog)
    requires TableOk(rows) && ValidReservation(a)
    ensures var p := IndexOf(rows, a.parent);
            if ParentMayReserve(rows, a, c, 2) && !Conflicts(rows, ChildRow(a))
            then TransferRows(rows, a, c) == rows[p := rows[p].(weight := 1)] + [ChildRow(a)]
            else TransferRows(rows, a, c) == rows
  {
    var p := IndexOf(rows, a.parent);
    var middle := InsertAwaited(rows, a, c);
    if ParentMayReserve(rows, a, c, 2) && !Conflicts(rows, ChildRow(a)) {
      assert middle == rows + [ChildRow(a)];
      forall i | 0 <= i < |rows| ensures rows[i].id != a.child { assert !Clash(ChildRow(a), rows[i]); }
      assert UniqueIds(middle);
      assert middle[p] == rows[p] && middle[|rows|] == ChildRow(a);
      IndexIs(middle, p);
      IndexIs(middle, |rows|);
      assert middle[p := rows[p].(weight := 1)] == rows[p := rows[p].(weight := 1)] + [ChildRow(a)];
    } else {
      assert middle == rows;
      if IsReserved(rows, a) {
        var i := IndexOf(rows, a.child);
        assert LineageOk(rows, rows[i]);
        var q :| 0 <= q < |rows| && rows[q].id == a.parent && rows[q].parent == None && rows[q].weight == 1;
        IndexIs(rows, q);
      }
    }
  }

  /** A transfer conserves the units in use: the child's unit is the parent's. */
  lemma TransferConserves(rows: seq<Run>, a: Reservation, c: Catalog)
    requires TableOk(rows) && ValidReservation(a)
    ensures TableOk(TransferRows(rows, a, c)) && Units(TransferRows(rows, a, c)) == Units(rows)
  {
    TransferExact(rows, a, c);
    var p := IndexOf(rows, a.parent);
    if ParentMayReserve(rows, a, c, 2) && !Conflicts(rows, ChildRow(a)) {
      var lighter := rows[p := rows[p].(weight := 1)];
      UnitsInsert(lighter, ChildRow(a));
      LighterOk(rows, p);
      assert !Conflicts(lighter, ChildRow(a)) by {
        forall i | 0 <= i < |lighter| ensures !Clash(ChildRow(a), lighter[i]) { assert !Clash(ChildRow(a), rows[i]); }
      }
      assert lighter[p].id == a.parent && lighter[p].parent == None && lighter[p].weight == 1;
      InsertKeeps(lighter, ChildRow(a));
    }
  }

  lemma ParentGivesUnit(rows: seq<Run>, p: nat, i: nat)
    requires p < |rows| && i < |rows| && rows[p].parent == None && LineageOk(rows, rows[i])
    ensures var lighter := rows[p := rows[p].(weight := 1)]; LineageOk(lighter, lighter[i])
  {
    var lighter := rows[p := rows[p].(weight := 1)];
    if rows[i].parent.Some? {
      var q :| 0 <= q < |rows| && rows[q].id == rows[i].parent.value && rows[q].parent == None && rows[q].weight == 1;
      assert lighter[q].id == rows[q].id && lighter[q].parent == None && lighter[q].weight == 1;
    }
  }

  lemma LighterOk(rows: seq<Run>, p: nat)
    requires TableOk(rows) && p < |rows| && rows[p].outcome == Running && rows[p].weight == 2 && rows[p].parent == None
    ensures var lighter := rows[p := rows[p].(weight := 1)]; TableOk(lighter) && Units(lighter) == Units(rows) - 1
  {
    var lighter := rows[p := rows[p].(weight := 1)];
    UnitsUpdate(rows, p, rows[p].(weight := 1));
    forall i | 0 <= i < |lighter| ensures LineageOk(lighter, lighter[i]) { ParentGivesUnit(rows, p, i); }
  }

  lemma TransferGrows(rows: seq<Run>, a: Reservation, c: Catalog)
    requires TableOk(rows) && ValidReservation(a)
    ensures Grows(rows, TransferRows(rows, a, c))
  {
    TransferExact(rows, a, c);
  }

  lemma PerformKeeps(rows: seq<Run>, ch: Change)
    requires TableOk(rows)
    ensures TableOk(Perform(rows, ch)) && Grows(rows, Perform(rows, ch))
  {
    match ch
    case Admit(r, c) => if Admissible(r) { AdmitKeeps(rows, r, c); }
    case Transfer(a, c) => if ValidReservation(a) { TransferConserves(rows, a, c); TransferGrows(rows, a, c); }
    case Detach(a, c) => DetachKeeps(rows, a, c);
    case SetOutcome(id, o) => OutcomeKeeps(rows, id, o);
  }

  lemma {:induction false} RunKeeps(rows: seq<Run>, changes: seq<Change>)
    requires TableOk(rows)
    ensures TableOk(Table(rows, changes)) && Grows(rows, Table(rows, changes))
  {
    if changes != [] {
      RunKeeps(rows, changes[..|changes| - 1]);
      PerformKeeps(Table(rows, changes[..|changes| - 1]), changes[|changes| - 1]);
    }
  }

  function Active(rows: seq<Run>): nat {
    if rows == [] then 0 else Active(rows[..|rows| - 1]) + (if Unfinished(rows[|rows| - 1].outcome) then 1 else 0)
  }

  lemma {:induction false} ActiveWithinUnits(rows: seq<Run>)
    requires forall i :: 0 <= i < |rows| ==> rows[i].weight >= 1
    ensures Active(rows) <= Units(rows)
  {
    if rows != [] { ActiveWithinUnits(rows[..|rows| - 1]); }
  }

  /** In every run from an empty table at most eight units, and so at most eight runs, are active. */
  lemma CapacityNeverExceeded(changes: seq<Change>)
    ensures var rows := Table([], changes);
            Units(rows) <= 8 && Active(rows) <= 8
  {
    RunKeeps([], changes);
    ActiveWithinUnits(Table([], changes));
  }

  /** A child has a stored parent that is not itself a child: reservations never nest. */
  lemma ChildrenHaveTopLevelParents(changes: seq<Change>, i: nat)
    requires i < |Table([], changes)| && Table([], changes)[i].parent.Some?
    ensures var rows := Table([], changes);
            var p := IndexOf(rows, rows[i].parent.value);
            p < |rows| && rows[p].parent == None && rows[p].weight == 1
  {
    RunKeeps([], changes);
    var rows := Table([], changes);
    assert LineageOk(rows, rows[i]);
    var q :| 0 <= q < |rows| && rows[q].id == rows[i].parent.value && rows[q].parent == None && rows[q].weight == 1;
    IndexIs(rows, q);
  }

  lemma IndexStays(rows: seq<Run>, later: seq<Run>, id: string)
    requires TableOk(rows) && TableOk(later) && Grows(rows, later) && IndexOf(rows, id) < |rows|
    ensures IndexOf(later, id) == IndexOf(rows, id)
  {
    var i := IndexOf(rows, id);
    assert later[i].id == id;
    IndexIs(later, i);
  }

  /** A parent that has transferred its unit never transfers again, whatever the arguments and however late:
    it has one awaited child at most, and a replay of the same transfer changes nothing. */
  lemma OneTransferPerParent(rows: seq<Run>, a: Reservation, c: Catalog, changes: seq<Change>, b: Reservation,
                             d: Catalog)
    requires TableOk(rows) && ValidReservation(a) && ValidReservation(b) && a.parent == b.parent
    requires TransferRows(rows, a, c) != rows
    ensures var later := Table(TransferRows(rows, a, c), changes); TransferRows(later, b, d) == later
  {
    TransferExact(rows, a, c);
    TransferConserves(rows, a, c);
    var first := TransferRows(rows, a, c);
    var p := IndexOf(rows, a.parent);
    assert first[p].id == a.parent && first[p].weight == 1;
    IndexIs(first, p);
    RunKeeps(first, changes);
    var later := Table(first, changes);
    IndexStays(first, later, a.parent);
    TransferExact(later, b, d);
  }

  /** Ordinary admission is exact: a published run that clashes with no row gets in just when its weight still fits. */
  lemma AdmissionExact(rows: seq<Run>, r: Run, c: Catalog)
    requires Admissible(r)
    ensures AdmitRows(rows, r, c) == rows + [r] <==>
              Published(c, r.workflow, r.version) && !Conflicts(rows, r) && Units(rows) + r.weight <= RUN_CAPACITY_LIMIT
    ensures AdmitRows(rows, r, c) != rows ==> Units(AdmitRows(rows, r, c)) == Units(rows) + r.weight
  {
    UnitsInsert(rows, r);
    assert rows + [r] != rows;
  }
}
