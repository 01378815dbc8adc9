/** What each statement on the table of runs does, told by the rows that are there. */
module CapacityAnswers {
  import opened Common
  import opened ChildProtocol
  import opened Capacity
  import opened CapacityTheorems

  /** The units of the rows that are queued or running. */
  lemma UnitsAreActive(rows: seq<Run>, r: Run)
    ensures Units([]) == 0
    ensures Units(rows + [r]) == Units(rows) + if r.outcome in {Queued, Running} then r.weight else 0
  {
    UnitsInsert(rows, r);
  }

  /** Row `p` is a running top-level run of this weight and of another workflow than the published target. */
  predicate Reserves(p: Run, a: Reservation, c: Catalog, weight: nat) {
    && p.id == a.parent && p.outcome == Running && p.weight == weight && p.parent == None && p.workflow != a.workflow
    && a.workflow in c && c[a.workflow] == a.version
  }

  lemma ParentMayReserveExact(rows: seq<Run>, a: Reservation, c: Catalog, weight: nat)
    requires UniqueIds(rows)
    ensures ParentMayReserve(rows, a, c, weight) <==> exists i :: 0 <= i < |rows| && Reserves(rows[i], a, c, weight)
  {
    if i :| 0 <= i < |rows| && Reserves(rows[i], a, c, weight) { IndexIs(rows, i); }
  }

  /** A row may not be inserted beside this one: it has the id or the instance of the other, the admission key of the
    same workflow, or the place below the same parent. */
  predicate Excludes(other: Run, r: Run) {
    || r.id == other.id || r.instance == other.instance
    || (r.admissionKey != None && r.admissionKey == other.admissionKey && r.workflow == other.workflow)
    || (r.parent != None && r.parent == other.parent && r.step == other.step)
  }

  lemma ConflictsExact(rows: seq<Run>, r: Run)
    ensures Conflicts(rows, r) <==> exists i :: 0 <= i < |rows| && Excludes(rows[i], r)
    ensures Insert(rows, r) == if exists i :: 0 <= i < |rows| && Excludes(rows[i], r) then rows else rows + [r]
  {
    forall i | 0 <= i < |rows| ensures Clash(r, rows[i]) <==> Excludes(rows[i], r) {}
  }

  /** The child of a reservation, as it is stored: reserved by the parent, with one unit, and queued. */
  function Child(a: Reservation): Run {
    Run(a.child, a.workflow, a.version, a.child, Some(a.admissionKey), a.digest, a.inputs, Queued, 1, Some(a.parent),
        a.step)
  }

  /** All the names of a reservation are given, parent and child differ, and the time is a safe integer. */
  lemma ValidReservationExact(a: Reservation)
    ensures ValidReservation(a) <==>
              && "" !in {a.parent, a.step, a.child, a.workflow, a.version, a.admissionKey, a.digest, a.inputs}
              && a.parent != a.child && -9007199254740991 <= a.timestamp <= 9007199254740991
  {
  }

  /** There is a place for the child and its parent may give it one. */
  ghost predicate Placed(rows: seq<Run>, a: Reservation, c: Catalog, weight: nat) {
    && (exists i :: 0 <= i < |rows| && Reserves(rows[i], a, c, weight))
    && forall i :: 0 <= i < |rows| ==> !Excludes(rows[i], Child(a))
  }

  /** A transfer: the parent of two units gives one to the child, and nothing else is different; or nothing is. */
  lemma TransferTells(rows: seq<Run>, a: Reservation, c: Catalog)
    requires TableOk(rows) && ValidReservation(a)
    ensures var t := Perform(rows, Transfer(a, c));
            if Placed(rows, a, c, 2)
            then |t| == |rows| + 1 && t[|rows|] == Child(a) &&
                 forall i :: 0 <= i < |rows| ==>
                     t[i] == if rows[i].id == a.parent then rows[i].(weight := 1) else rows[i]
            else t == rows
  {
    TransferExact(rows, a, c);
    ParentMayReserveExact(rows, a, c, 2);
    ConflictsExact(rows, ChildRow(a));
    if Placed(rows, a, c, 2) {
      var p := IndexOf(rows, a.parent);
      forall i | 0 <= i < |rows| ensures rows[i].id == a.parent <==> i == p {}
    }
  }

  /** A reservation that is not valid changes nothing. */
  lemma InvalidChangesNothing(rows: seq<Run>, a: Reservation, c: Catalog)
    requires !ValidReservation(a)
    ensures Perform(rows, Transfer(a, c)) == rows && Perform(rows, Detach(a, c)) == rows
  {
  }

  /** The second statement of a transfer by itself: the unit goes exactly if the parent runs with two and the child of
    the reservation is stored below it, whatever its outcome, its weight and its instance are. */
  lemma UnitGivenTells(rows: seq<Run>, a: Reservation, p: nat)
    requires UniqueIds(rows) && p < |rows| && rows[p].id == a.parent
    ensures ReleaseUnit(rows, a) ==
            if rows[p].outcome == Running && rows[p].weight == 2 && exists i :: 0 <= i < |rows| && Reserved(rows[i], a)
            then rows[p := rows[p].(weight := 1)] else rows
  {
    IndexIs(rows, p);
    if i :| 0 <= i < |rows| && Reserved(rows[i], a) { IndexIs(rows, i); }
    if IsReserved(rows, a) { assert Reserved(rows[IndexOf(rows, a.child)], a); }
  }

  ghost predicate Reserved(r: Run, a: Reservation) {
    r == Child(a).(instance := r.instance, admissionKey := r.admissionKey, outcome := r.outcome, weight := r.weight)
  }

  /** A detached child has a unit of its own, while fewer than eight are taken; its parent keeps its one. */
  lemma DetachTells(rows: seq<Run>, a: Reservation, c: Catalog)
    requires TableOk(rows) && ValidReservation(a)
    ensures Perform(rows, Detach(a, c)) ==
            if Placed(rows, a, c, 1) && Units(rows) < 8 then rows + [Child(a)] else rows
  {
    ParentMayReserveExact(rows, a, c, 1);
    ConflictsExact(rows, ChildRow(a));
  }

  /** An admission: of a top-level run with one or two units, as long as they fit below eight. */
  lemma AdmitTells(rows: seq<Run>, r: Run, c: Catalog)
    ensures Perform(rows, Admit(r, c)) ==
            if r.outcome == Queued && r.parent == None && r.weight in {1, 2} && r.instance == r.id &&
               r.workflow in c && c[r.workflow] == r.version && Units(rows) + r.weight <= 8 &&
               forall i :: 0 <= i < |rows| ==> !Excludes(rows[i], r)
            then rows + [r] else rows
  {
    ConflictsExact(rows, r);
  }

  /** An outcome is written to an unfinished run, a run begins only from the queue, and no run returns there. */
  lemma OutcomeTells(rows: seq<Run>, i: nat, o: Outcome)
    requires UniqueIds(rows) && i < |rows|
    ensures Perform(rows, SetOutcome(rows[i].id, o)) ==
            if (rows[i].outcome == Queued && o != Queued) || (rows[i].outcome == Running && o !in {Queued, Running})
            then rows[i := rows[i].(outcome := o)] else rows
  {
    IndexIs(rows, i);
  }
}
