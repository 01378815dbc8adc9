/** `startReservedDetachedChild` as it is written, over the stored row that it updates in place.

  As in the awaited case, the ghost `log` records every step and `Valid` says that the stored row is what the
  state machine reaches by it; `Await` lets everyone else take any number of steps.
*/
module DetachedWorkers {
  import opened ChildProtocol
  import opened DetachedChild

  class DetachedStore {
    const child: Child
    var start: StartState
    var outcome: Outcome
    var rejected: bool
    var parentRunning: bool
    var native: Native
    ghost var log: seq<Event>

    constructor (child: Child)
      ensures Valid() && this.child == child && log == []
    {
      this.child := child;
      start, outcome, rejected, parentRunning, native, log := Reserved, Queued, false, true, Absent, [];
    }

    function Current(): Row reads this { Row(start, outcome, rejected, parentRunning) }

    ghost function Now(): System reads this { History(Reservation(child), log) }

    ghost predicate Valid() reads this { Now().child == child && Now().row == Current() && Now().native == native }

    ghost predicate IsAt(w: nat, p: Point) reads this { w in Now().workers && Now().workers[w] == p }

    method Await(ghost w: nat, ghost p: Point)
      requires Valid() && IsAt(w, p)
      modifies this
      ensures Valid() && IsAt(w, p) && old(log) <= log
    {
    }

    /** Records the step that worker `w` has just taken. */
    ghost method Record(w: nat, p: Point, reply: Reply, before: System)
      requires before == Now() && IsAt(w, p)
      requires var s := WorkerStep(before, w, p, reply); s.child == child && s.row == Current() && s.native == native
      modifies this`log
      ensures Valid() && old(log) <= log && Now() == WorkerStep(before, w, p, reply)
    {
      log := log + [Step(w, reply)];
      assert log[..|log| - 1] == old(log);
    }

    /** A SELECT of the row, or of what an UPDATE that changed nothing left there. */
    method Select(ghost w: nat, ghost p: Point) returns (row: Row)
      requires Valid() && IsAt(w, p) && (p.Read? || p.Persisted?)
      modifies this
      ensures Valid() && old(log) <= log
      ensures IsAt(w, if p.Read? then AfterRead(child, row, p.now) else Returned(PersistedResult(row)))
    {
      Await(w, p);
      row := Current();
      Record(w, p, Silent, Now());
    }

    /** `persistedStart` */
    method PersistedStart(ghost w: nat) returns (result: Result)
      requires Valid() && IsAt(w, Persisted)
      modifies this
      ensures Valid() && old(log) <= log && IsAt(w, Returned(result))
    {
      var latest := Select(w, Persisted);
      if latest.start == Started && Confirmable(latest.outcome) { return StartedResult; }
      if latest.start == Reserved && latest.outcome == Failed && latest.rejected { return RejectedResult; }
      if latest.outcome == Indeterminate || latest.outcome == Cancelled { return IndeterminateResult; }
      return UnknownResult;
    }

    method ExpireOrPersisted(ghost w: nat) returns (result: Result)
      requires Valid() && IsAt(w, ExpireRow)
      modifies this
      ensures Valid() && old(log) <= log && IsAt(w, Returned(result))
    {
      Await(w, ExpireRow);
      ghost var before := Now();
      var changes := InFlight(start) && outcome == Queued;
      if changes { outcome := Indeterminate; }
      Record(w, ExpireRow, Silent, before);
      if changes { return IndeterminateResult; }
      result := PersistedStart(w);
    }

    method MarkStartedOrPersisted(ghost w: nat) returns (result: Result)
      requires Valid() && IsAt(w, Mark)
      modifies this
      ensures Valid() && old(log) <= log && IsAt(w, Returned(result))
    {
      Await(w, Mark);
      ghost var before := Now();
      var changes := InFlight(start) && Confirmable(outcome);
      if changes { start := Started; }
      Record(w, Mark, Silent, before);
      if changes { return StartedResult; }
      result := PersistedStart(w);
    }

    method AbandonOrPersisted(ghost w: nat) returns (result: Result)
      requires Valid() && IsAt(w, AbandonRow)
      modifies this
      ensures Valid() && old(log) <= log && IsAt(w, Returned(result))
    {
      Await(w, AbandonRow);
      ghost var before := Now();
      var changes := start == Reserved && outcome == Queued;
      if changes { outcome, rejected := Failed, true; }
      Record(w, AbandonRow, Silent, before);
      if changes { return RejectedResult; }
      result := PersistedStart(w);
    }

    method ClaimDispatching(ghost w: nat) returns (changes: bool)
      requires Valid() && IsAt(w, Claim)
      modifies this
      ensures Valid() && old(log) <= log && IsAt(w, if changes then Create else Returned(UnknownResult))
    {
      Await(w, Claim);
      ghost var before := Now();
      changes := start == Reserved && outcome == Queued && parentRunning;
      if changes { start := Dispatching; }
      Record(w, Claim, Silent, before);
    }

    /** `create()`: issued, then acknowledged or thrown, whatever became of it. */
    method CreateInstance(ghost w: nat) returns (acknowledged: bool)
      requires Valid() && IsAt(w, Create)
      modifies this
      ensures Valid() && old(log) <= log && IsAt(w, if acknowledged then Mark else Catch)
    {
      Record(w, Create, Silent, Now());
      Await(w, Wait);
      acknowledged := *;
      if native == Absent { acknowledged := false; }
      Record(w, Wait, if acknowledged then Ok else Throws, Now());
    }

    method Observe(ghost w: nat, ghost p: Point) returns (found: bool)
      requires Valid() && IsAt(w, p) && (p.Look? || p == LookAgain)
      modifies this
      ensures Valid() && old(log) <= log
      ensures found ==> IsAt(w, Mark)
      ensures !found ==>
                IsAt(w, if p.Look? && p.now - child.createdAt >= TEN_MINUTES then ExpireRow
                     else Returned(UnknownResult))
    {
      Await(w, p);
      found := *;
      if native == Absent { found := false; }
      Record(w, p, if found then Found else Missing, Now());
    }

    method UpdateToStartUnknown(ghost w: nat)
      requires Valid() && IsAt(w, Catch)
      modifies this
      ensures Valid() && old(log) <= log && IsAt(w, LookAgain)
    {
      Await(w, Catch);
      ghost var before := Now();
      if start == Dispatching && Unfinished(outcome) { start := StartUnknown; }
      Record(w, Catch, Silent, before);
    }

    /** The dispatch of a child that is still reserved. */
    method DispatchReserved(ghost w: nat) returns (result: Result)
      requires Valid() && IsAt(w, Claim)
      modifies this
      ensures Valid() && old(log) <= log && IsAt(w, Returned(result))
    {
      var claim := ClaimDispatching(w);
      if !claim { return UnknownResult; }
      var acknowledged := CreateInstance(w);
      if !acknowledged {
        UpdateToStartUnknown(w);
        var found := Observe(w, LookAgain);
        if !found { return UnknownResult; }
      }
      result := MarkStartedOrPersisted(w);
    }

    /** The exported function. `started` is about an instance that exists, `rejected` about one that was never created,
      and whatever it answers, there was at most one native create. */
    method StartReservedDetachedChild(ghost w: nat, now: int) returns (result: Result)
      requires Valid() && IsAt(w, Read(now))
      modifies this
      ensures Valid() && old(log) <= log && IsAt(w, Returned(result))
      ensures |Now().creates| <= 1 && (native != Absent ==> |Now().creates| == 1)
      ensures result == StartedResult ==> native != Absent
      ensures result == RejectedResult ==> native == Absent && Now().creates == []
      ensures result == IndeterminateResult ==> outcome in {Indeterminate, Cancelled}
      ensures result == Refused <==> !child.instanceMatches || !child.unitWeight
    {
      result := Start(w, now);
      CreateAtMostOnce(child, log);
      AnswersAreTrue(child, log, w, []);
    }

    method Start(ghost w: nat, now: int) returns (result: Result)
      requires Valid() && IsAt(w, Read(now))
      modifies this
      ensures Valid() && old(log) <= log && IsAt(w, Returned(result))
    {
      var row := Select(w, Read(now));
      if !child.instanceMatches || !child.unitWeight { return Refused; }
      if row.start == Started { return StartedResult; }
      if row.start != Reserved {
        if !InFlight(row.start) || !Confirmable(row.outcome) { return IndeterminateResult; }
        result := Resume(w, now);
        return;
      }
      if !row.parentRunning { result := AbandonOrPersisted(w); } else { result := DispatchReserved(w); }
    }

    /** An undecided dispatch is observed, never repeated. */
    method Resume(ghost w: nat, now: int) returns (result: Result)
      requires Valid() && IsAt(w, Look(now))
      modifies this
      ensures Valid() && old(log) <= log && IsAt(w, Returned(result))
    {
      var found := Observe(w, Look(now));
      if found { result := MarkStartedOrPersisted(w); return; }
      if now - child.createdAt >= TEN_MINUTES { result := ExpireOrPersisted(w); return; }
      return UnknownResult;
    }
  }
}
