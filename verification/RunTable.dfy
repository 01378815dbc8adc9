/** The reservation functions as they are written, over the table they update in place. */
module RunTable {
  import opened Common
  import opened ChildProtocol
  import opened Capacity
  import opened CapacityTheorems

  datatype Answer = Granted(alreadyReserved: bool) | InvalidRequest | Rejected

  /** The row has everything the caller asked for; only its outcome is its own. */
  predicate Matches(r: Run, a: Reservation) { r == ChildRow(a).(outcome := r.outcome) }

  /** What the functions compare after reading the row back: every column but outcome and instance. */
  predicate Agrees(r: Run, a: Reservation) { r == ChildRow(a).(outcome := r.outcome, instance := r.instance) }

  /** `rows` holds the child exactly as asked for, below a top-level parent that keeps one unit. */
  predicate Holds(rows: seq<Run>, a: Reservation) {
    var i := IndexOf(rows, a.child);
    var p := IndexOf(rows, a.parent);
    i < |rows| && Matches(rows[i], a) && p < |rows| && rows[p].parent == None && rows[p].weight == 1
  }

  predicate ParentRuns(rows: seq<Run>, a: Reservation) {
    var p := IndexOf(rows, a.parent); p < |rows| && rows[p].outcome == Running
  }

  /** What was held is held ever after. */
  lemma HeldStays(rows: seq<Run>, later: seq<Run>, a: Reservation)
    requires TableOk(rows) && TableOk(later) && Grows(rows, later) && Holds(rows, a)
    ensures Holds(later, a)
  {
    var i, p := IndexOf(rows, a.child), IndexOf(rows, a.parent);
    IndexStays(rows, later, a.child);
    IndexStays(rows, later, a.parent);
    assert 1 <= later[i].weight <= 2 && 1 <= later[p].weight <= 2;
  }

  /** A child that is held is what the place below its parent is read as. */
  lemma HeldIsFound(rows: seq<Run>, a: Reservation, k: nat)
    requires TableOk(rows)
    requires k <= |rows| && (k < |rows| ==> rows[k].parent == Some(a.parent) && rows[k].step == a.step)
    requires forall j :: 0 <= j < k ==> rows[j].parent != Some(a.parent) || rows[j].step != a.step
    ensures Holds(rows, a) <==> k < |rows| && Agrees(rows[k], a)
  {
    if k < |rows| && Agrees(rows[k], a) { AgreesHolds(rows, k, a); }
    if Holds(rows, a) {
      var i := IndexOf(rows, a.child);
      assert rows[i].parent == Some(a.parent) && rows[i].step == a.step;
    }
  }

  lemma AgreesHolds(rows: seq<Run>, k: nat, a: Reservation)
    requires TableOk(rows) && k < |rows| && Agrees(rows[k], a)
    ensures Holds(rows, a)
  {
    IndexIs(rows, k);
    assert LineageOk(rows, rows[k]);
    var q :| 0 <= q < |rows| && rows[q].id == a.parent && rows[q].parent == None && rows[q].weight == 1;
    IndexIs(rows, q);
  }

  /** The last change of this log is `change`. */
  predicate EndsWith(log: seq<Change>, change: Change) { |log| > 0 && log[|log| - 1] == change }

  /** The last change of this log changed the table. */
  predicate Effective(log: seq<Change>) { |log| > 0 && Table([], log) != Table([], log[..|log| - 1]) }

  lemma EffectiveIs(before: seq<Change>, change: Change)
    ensures EndsWith(before + [change], change)
    ensures Effective(before + [change]) <==> Table([], before + [change]) != Table([], before)
  {
    assert (before + [change])[..|before|] == before;
  }

  class Runs {
    var rows: seq<Run>
    ghost var log: seq<Change>

    constructor ()
      ensures Valid() && rows == []
    {
      rows, log := [], [];
    }

    ghost predicate Valid() reads this { rows == Table([], log) }

    /** Other callers run for a while. */
    method Await()
      requires Valid()
      modifies this
      ensures Valid() && old(log) <= log && TableOk(rows) && Grows(old(rows), rows)
    {
      RunKeeps([], log);
      RunKeeps(rows, []);
    }

    ghost method Record(before: seq<Run>, change: Change)
      requires before == Table([], log) && rows == Perform(before, change)
      modifies this`log
      ensures Valid() && log == old(log) + [change] && TableOk(rows) && TableOk(before) && Grows(before, rows)
    {
      RunKeeps([], log);
      PerformKeeps(before, change);
      log := log + [change];
      assert log[..|log| - 1] == old(log);
    }

    // ---- queries ----

    method Find(id: string) returns (i: nat)
      ensures i == IndexOf(rows, id)
    {
      i := 0;
      while i < |rows| && rows[i].id != id
        invariant i <= |rows| && forall j :: 0 <= j < i ==> rows[j].id != id
      {
        i := i + 1;
      }
    }

    method FindChild(parent: string, step: string) returns (i: nat)
      ensures i <= |rows| && (i < |rows| ==> rows[i].parent == Some(parent) && rows[i].step == step)
      ensures forall j :: 0 <= j < i ==> rows[j].parent != Some(parent) || rows[j].step != step
    {
      i := 0;
      while i < |rows| && (rows[i].parent != Some(parent) || rows[i].step != step)
        invariant i <= |rows| && forall j :: 0 <= j < i ==> rows[j].parent != Some(parent) || rows[j].step != step
      {
        i := i + 1;
      }
    }

    method ActiveUnits() returns (units: nat)
      ensures units == Units(rows)
    {
      units := 0;
      for i := 0 to |rows|
        invariant units == Units(rows[..i])
      {
        assert rows[..i + 1][..i] == rows[..i];
        units := units + Weight(rows[i]);
      }
      assert rows[..|rows|] == rows;
    }

    /** INSERT OR IGNORE */
    method InsertOrIgnore(r: Run) returns (changes: bool)
      modifies this`rows
      ensures rows == Insert(old(rows), r) && (changes <==> !Conflicts(old(rows), r))
    {
      changes := true;
      for i := 0 to |rows|
        invariant changes <==> forall j :: 0 <= j < i ==> !Clash(r, rows[j])
      {
        if Clash(r, rows[i]) { changes := false; }
      }
      if changes { rows := rows + [r]; }
    }

    // ---- transferAwaitedChildCapacity ----

    /** Its atomic batch. */
    method TransferBatch(a: Reservation, c: Catalog) returns (inserted: bool)
      requires Valid() && ValidReservation(a)
      modifies this
      ensures Valid() && log == old(log) + [Transfer(a, c)]
      ensures TableOk(old(rows)) && TableOk(rows) && rows == TransferRows(old(rows), a, c) &&
              Units(rows) == Units(old(rows))
      ensures inserted <==> rows != old(rows)
    {
      ghost var before := rows;
      var p := Find(a.parent);
      inserted := false;
      if p < |rows| && rows[p].outcome == Running && rows[p].weight == 2 && rows[p].parent == None &&
         rows[p].workflow != a.workflow && Published(c, a.workflow, a.version) {
        inserted := InsertOrIgnore(ChildRow(a));
      }
      GiveUnit(a);
      Record(before, Transfer(a, c));
      TransferExact(before, a, c);
      TransferConserves(before, a, c);
    }

    /** Its second statement: the parent of the stored child gives a unit away. */
    method GiveUnit(a: Reservation)
      modifies this`rows
      ensures rows == ReleaseUnit(old(rows), a)
    {
      var i := Find(a.child);
      var p := Find(a.parent);
      if p < |rows| && rows[p].outcome == Running && rows[p].weight == 2 && i < |rows| &&
         rows[i].parent == Some(a.parent) && rows[i].step == a.step && rows[i].version == a.version &&
         rows[i].workflow == a.workflow && rows[i].digest == a.digest && rows[i].inputs == a.inputs {
        rows := rows[p := rows[p].(weight := 1)];
      }
    }

    /** The exported function. `at` is the log up to its own batch: the answer says whether that inserted the child;
      the transfer is granted exactly if the child is there as it is read (`read`), which it is if it was there behind
      the batch, and if its parent runs at the end. */
    method TransferAwaitedChildCapacity(a: Reservation, c: Catalog)
      returns (answer: Answer, ghost at: seq<Change>, ghost read: seq<Change>)
      requires Valid()
      modifies this
      ensures Valid() && old(log) <= at <= read <= log && TableOk(rows)
      ensures answer == InvalidRequest <==> !ValidReservation(a)
      ensures answer.Granted? <==> answer != InvalidRequest && Holds(Table([], read), a) && ParentRuns(rows, a)
      ensures answer.Granted? ==> Holds(rows, a)
      ensures answer != InvalidRequest ==> EndsWith(at, Transfer(a, c))
      ensures answer.Granted? ==> answer.alreadyReserved == !Effective(at)
      ensures answer != InvalidRequest && Holds(Table([], at), a) ==> Holds(Table([], read), a)
    {
      at, read := log, log;
      if !ValidReservation(a) { RunKeeps([], log); return InvalidRequest, at, read; }
      Await();
      ghost var before := log;
      var inserted := TransferBatch(a, c);
      at := log;
      EffectiveIs(before, Transfer(a, c));
      answer, read := ConfirmTransfer(a, inserted);
    }

    /** Reads the child (`read`) and the parent back, each at a moment of its own. */
    method ConfirmTransfer(a: Reservation, inserted: bool) returns (answer: Answer, ghost read: seq<Change>)
      requires Valid() && ValidReservation(a)
      modifies this
      ensures Valid() && old(log) <= read <= log && TableOk(rows) && answer != InvalidRequest
      ensures answer.Granted? <==> Holds(Table([], read), a) && ParentRuns(rows, a)
      ensures answer.Granted? ==> Holds(rows, a) && answer.alreadyReserved == !inserted
      ensures Holds(old(rows), a) ==> Holds(Table([], read), a)
    {
      RunKeeps([], log);
      Await();
      read := log;
      if Holds(old(rows), a) { HeldStays(old(rows), rows, a); }
      var k := FindChild(a.parent, a.step);
      HeldIsFound(rows, a, k);
      if k == |rows| || !Agrees(rows[k], a) { return Rejected, read; }
      ghost var held := rows;
      Await();
      HeldStays(held, rows, a);
      var p := Find(a.parent);
      if p == |rows| || rows[p].outcome != Running || rows[p].weight != 1 { return Rejected, read; }
      return Granted(!inserted), read;
    }

    // ---- admitDetachedChild ----

    method DetachInsert(a: Reservation, c: Catalog) returns (inserted: bool)
      requires Valid() && ValidReservation(a)
      modifies this
      ensures Valid() && log == old(log) + [Detach(a, c)] && TableOk(rows)
      ensures rows == DetachRows(old(rows), a, c) && Units(rows) == Units(old(rows)) + (if inserted then 1 else 0)
      ensures inserted <==> rows != old(rows)
    {
      ghost var before := rows;
      inserted := DetachRow(a, c);
      UnitsInsert(before, ChildRow(a));
      Record(before, Detach(a, c));
    }

    method DetachRow(a: Reservation, c: Catalog) returns (inserted: bool)
      modifies this`rows
      ensures rows == DetachRows(old(rows), a, c) && rows == if inserted then old(rows) + [ChildRow(a)] else old(rows)
    {
      var p := Find(a.parent);
      var units := ActiveUnits();
      inserted := false;
      if p < |rows| && rows[p].outcome == Running && rows[p].weight == 1 && rows[p].parent == None &&
         rows[p].workflow != a.workflow && Published(c, a.workflow, a.version) && units <= RUN_CAPACITY_LIMIT - 1 {
        inserted := InsertOrIgnore(ChildRow(a));
      }
    }

    /** The exported function. `at` is the log up to its own insert, as above. */
    method AdmitDetachedChild(a: Reservation, c: Catalog) returns (answer: Answer, ghost at: seq<Change>)
      requires Valid()
      modifies this
      ensures Valid() && old(log) <= at <= log && TableOk(rows)
      ensures answer == InvalidRequest <==> !ValidReservation(a)
      ensures answer.Granted? <==> answer != InvalidRequest && Holds(rows, a)
      ensures answer != InvalidRequest ==> EndsWith(at, Detach(a, c))
      ensures answer.Granted? ==> answer.alreadyReserved == !Effective(at)
      ensures answer != InvalidRequest && Holds(Table([], at), a) ==> answer.Granted?
    {
      at := log;
      if !ValidReservation(a) { RunKeeps([], log); return InvalidRequest, at; }
      Await();
      ghost var before := log;
      var inserted := DetachInsert(a, c);
      at := log;
      EffectiveIs(before, Detach(a, c));
      answer := ConfirmDetached(a, inserted);
    }

    /** Reads the child back. */
    method ConfirmDetached(a: Reservation, inserted: bool) returns (answer: Answer)
      requires Valid() && ValidReservation(a)
      modifies this
      ensures Valid() && old(log) <= log && TableOk(rows) && answer != InvalidRequest
      ensures answer.Granted? <==> Holds(rows, a)
      ensures answer.Granted? ==> answer.alreadyReserved == !inserted
      ensures Holds(old(rows), a) ==> answer.Granted?
    {
      RunKeeps([], log);
      Await();
      if Holds(old(rows), a) { HeldStays(old(rows), rows, a); }
      var k := FindChild(a.parent, a.step);
      HeldIsFound(rows, a, k);
      if k == |rows| || !Agrees(rows[k], a) { return Rejected; }
      return Granted(!inserted);
    }
  }
}
