/** The two functions as they are written, over the stored row they update in place.

  Each guarded UPDATE or INSERT is a method on the stored fields; `Await` stands at every `await`
  and lets everything else in the system take any number of steps. The ghost `log` records every
  step, and `Valid` says that the stored fields are what the state machine reaches by that log:
  so every execution of this code is a run, and what is proved of runs holds of it.
*/
module ChildWorkers {
  import opened ChildProtocol
  import opened ChildSafety
  import opened ChildTheorems
  import opened ChildMisreports

  class ChildStore {
    const child: Child
    var start: StartState
    var outcome: Outcome
    var intent: Intent
    var parentRunning: bool
    var native: Native
    ghost var log: seq<Action>

    constructor (child: Child)
      ensures Valid() && this.child == child && log == []
    {
      this.child := child;
      start, outcome, intent, parentRunning, native := Reserved, Queued, NoIntent, true, Absent;
      log := [];
    }

    function Row(): Db reads this { Db(start, outcome, intent, parentRunning) }

    ghost function Now(): World reads this { Exec(Init(child), log) }

    ghost predicate Valid() reads this {
      Now().child == child && Now().db == Row() && Now().native == native
    }

    ghost predicate IsAt(w: nat, pc: Pc) reads this { At(Now(), w, pc) }

    /** Everything but worker `w` runs for a while. */
    method Await(ghost w: nat, ghost pc: Pc)
      requires Valid() && IsAt(w, pc)
      modifies this
      ensures Valid() && IsAt(w, pc) && old(log) <= log
    {
    }

    /** Worker `w` reads, or is answered: nothing stored changes. */
    ghost method Advance(w: nat, pc: Pc, reply: Reply)
      requires Valid() && IsAt(w, pc) && ReadsOnly(pc)
      modifies this`log
      ensures Valid() && old(log) <= log && IsAt(w, AfterReading(child, Row(), native, pc, reply))
    {
      log := Extend(Init(child), log, Work(w, reply));
    }

    /** Records the statement that `w` has just executed on the fields. */
    ghost method Record(w: nat, pc: Pc, before: World)
      requires before == Now() && IsAt(w, pc) && !ReadsOnly(pc)
      requires Statement(before, w, pc).child == child && Statement(before, w, pc).native == native
      requires Statement(before, w, pc).db == Row()
      modifies this`log
      ensures Valid() && old(log) <= log && Now() == Statement(before, w, pc)
    {
      log := Extend(Init(child), log, Work(w, Silent));
    }

    /** What the answer of a call says of the child at that moment. */
    lemma AnswerHolds(w: nat, answer: Answer)
      requires Valid() && IsAt(w, Done(answer))
      ensures answer == SaysStarted ==> native != Absent || outcome !in {Queued, Running}
      ensures answer == SaysCancelledBeforeStart ==> outcome == Cancelled
      ensures answer == NotAuthorized ==> !parentRunning || !child.unitWeight || !child.instanceMatches
      ensures answer == CancelNotFound ==> !child.awaitedInPlan || !child.instanceMatches
      ensures answer == AlreadyTerminal ==> outcome !in {Queued, Running} || native in {Completed, Errored}
      ensures answer == WasCancelledBeforeStart ==>
                start == CancelledBeforeStart && native == Absent && Now().creates == []
      ensures answer == TerminalConfirmed && (start == NativeCancelled || !Now().foreignCancel) ==> native == Terminated
    {
      AnswerIsOk(child, log, w);
    }

    // ---- statements ----

    predicate ReadsDatabase(pc: Pc) {
      pc.ReadRow? || pc.ReadAfterLostClaim? || pc.ReadAfterLostDispatch? || pc.CheckIntent? || pc.CancelRead? ||
      pc.ReadIntent? || pc.ReadWithoutIntent? || pc.ReadSaved?
    }

    /** A SELECT: what was stored at some moment of the await. */
    method Select(ghost w: nat, ghost pc: Pc) returns (row: Db)
      requires Valid() && IsAt(w, pc) && ReadsDatabase(pc)
      modifies this
      ensures Valid() && old(log) <= log && IsAt(w, AfterReading(child, row, Absent, pc, Silent))
    {
      Await(w, pc);
      row := Row();
      Advance(w, pc, Silent);
    }

    method UpdateReservedToCreating(ghost w: nat, ghost now: int) returns (changes: bool)
      requires Valid() && IsAt(w, ClaimCreating(now))
      modifies this
      ensures Valid() && old(log) <= log
      ensures IsAt(w, if changes then ClaimDispatch else ReadAfterLostClaim)
    {
      Await(w, ClaimCreating(now));
      ghost var before := Now();
      changes := start == Reserved && outcome == Queued && parentRunning;
      if changes { start := Creating; }
      Record(w, ClaimCreating(now), before);
    }

    method UpdateToIndeterminate(ghost w: nat, ghost now: int, unknown: bool)
      requires Valid() && IsAt(w, Expire(now, unknown))
      modifies this
      ensures Valid() && old(log) <= log && IsAt(w, Done(SaysIndeterminate))
    {
      Await(w, Expire(now, unknown));
      ghost var before := Now();
      if outcome == Queued && (if unknown then start == StartUnknown else start == Creating || start == Dispatching) {
        outcome := Indeterminate;
      }
      Record(w, Expire(now, unknown), before);
    }

    method UpdateToDispatching(ghost w: nat) returns (changes: bool)
      requires Valid() && IsAt(w, ClaimDispatch)
      modifies this
      ensures Valid() && old(log) <= log
      ensures IsAt(w, if changes then IssueCreate else ReadAfterLostDispatch)
    {
      Await(w, ClaimDispatch);
      ghost var before := Now();
      changes := (start == Creating || start == StartUnknown) && outcome == Queued && intent == NoIntent &&
        parentRunning;
      if changes { start := Dispatching; }
      Record(w, ClaimDispatch, before);
    }

    method UpdateCreatingToCancelled(ghost w: nat) returns (changes: bool)
      requires Valid() && IsAt(w, Abandon)
      modifies this
      ensures Valid() && old(log) <= log
      ensures IsAt(w, Done(if changes then SaysCancelledBeforeStart else SaysStartUnknown))
    {
      Await(w, Abandon);
      ghost var before := Now();
      changes := start == Creating && outcome == Queued && intent != NoIntent;
      if changes { start, outcome := CancelledBeforeStart, Cancelled; }
      Record(w, Abandon, before);
    }

    method UpdateToStartUnknown(ghost w: nat)
      requires Valid() && IsAt(w, CatchCreate)
      modifies this
      ensures Valid() && old(log) <= log && IsAt(w, ObserveAfterCatch)
    {
      Await(w, CatchCreate);
      ghost var before := Now();
      if start == Dispatching && Unfinished(outcome) { start := StartUnknown; }
      Record(w, CatchCreate, before);
    }

    method UpdateToStarted(ghost w: nat)
      requires Valid() && IsAt(w, MarkStarted)
      modifies this
      ensures Valid() && old(log) <= log && IsAt(w, CheckIntent)
    {
      Await(w, MarkStarted);
      ghost var before := Now();
      if (start == Creating || start == Dispatching || start == StartUnknown) && Unfinished(outcome) {
        start := Started;
      }
      Record(w, MarkStarted, before);
    }

    method UpdateToCancelledBeforeStart(ghost w: nat, ghost nested: bool) returns (changes: bool)
      requires Valid() && IsAt(w, CancelEarly(nested))
      modifies this
      ensures Valid() && old(log) <= log
      ensures IsAt(w, if changes then Return(nested, WasCancelledBeforeStart) else RecordIntent(nested))
    {
      Await(w, CancelEarly(nested));
      ghost var before := Now();
      changes := (start == Reserved || start == Creating) && outcome == Queued;
      if changes { start, outcome := CancelledBeforeStart, Cancelled; }
      Record(w, CancelEarly(nested), before);
    }

    method InsertIntent(ghost w: nat, ghost nested: bool)
      requires Valid() && IsAt(w, RecordIntent(nested))
      modifies this
      ensures Valid() && old(log) <= log && IsAt(w, ReadIntent(nested))
    {
      Await(w, RecordIntent(nested));
      ghost var before := Now();
      if intent == NoIntent && (start == Dispatching || start == StartUnknown || start == Started) &&
        Unfinished(outcome) {
        intent := Requested;
      }
      Record(w, RecordIntent(nested), before);
    }

    method UpdateToCancelled(ghost w: nat, ghost pc: Pc)
      requires Valid() && IsAt(w, pc) && (pc.SaveTerminated? || pc.SaveTerminatedAfter?)
      modifies this
      ensures Valid() && old(log) <= log
      ensures IsAt(w, if pc.SaveTerminated? then ReadSaved(pc.nested) else Return(pc.nested, TerminalConfirmed))
    {
      Await(w, pc);
      ghost var before := Now();
      if Unfinished(outcome) && intent != NoIntent { start, outcome := NativeCancelled, Cancelled; }
      Record(w, pc, before);
    }

    method UpdateTerminationAttempted(ghost w: nat, ghost nested: bool) returns (changes: bool)
      requires Valid() && IsAt(w, ClaimTerminate(nested))
      modifies this
      ensures Valid() && old(log) <= log
      ensures IsAt(w, if changes then IssueTerminate(nested) else StatusAfter(nested))
    {
      Await(w, ClaimTerminate(nested));
      ghost var before := Now();
      changes := intent == Requested;
      if changes { intent := TerminateClaimed; }
      Record(w, ClaimTerminate(nested), before);
    }

    // ---- calls of the native engine ----

    method ObserveInstance(ghost w: nat, ghost pc: Pc) returns (observed: Reply)
      requires Valid() && IsAt(w, pc) && (pc.Observe? || pc.ObserveAfterCatch?)
      modifies this
      ensures Valid() && old(log) <= log && (observed == Found ==> native != Absent)
      ensures IsAt(w, AfterReading(child, Row(), native, pc, observed))
    {
      Await(w, pc);
      observed := *;
      if observed == Found && native == Absent { observed := Throws; }
      Advance(w, pc, observed);
    }

    method Status(ghost w: nat, ghost pc: Pc) returns (status: Reply)
      requires Valid() && IsAt(w, pc) && (pc.GetStatus? || pc.StatusAfter?)
      modifies this
      ensures Valid() && old(log) <= log && PossibleStatus(native, status)
      ensures IsAt(w, AfterReading(child, Row(), native, pc, status))
    {
      Await(w, pc);
      status := *;
      if !PossibleStatus(native, status) { status := Throws; }
      Advance(w, pc, status);
    }

    /** `create()`: issued, then acknowledged or thrown, whatever became of it. */
    method CreateInstance(ghost w: nat) returns (acknowledged: bool)
      requires Valid() && IsAt(w, IssueCreate)
      modifies this
      ensures Valid() && old(log) <= log && IsAt(w, if acknowledged then MarkStarted else CatchCreate)
    {
      Record(w, IssueCreate, Now());
      Await(w, AwaitCreate);
      acknowledged := CreateReturns(w);
    }

    /** The acknowledgement comes only of an instance that exists; anything may throw. */
    method CreateReturns(ghost w: nat) returns (acknowledged: bool)
      requires Valid() && IsAt(w, AwaitCreate)
      modifies this`log
      ensures Valid() && old(log) <= log && IsAt(w, if acknowledged then MarkStarted else CatchCreate)
    {
      acknowledged := *;
      if native == Absent { acknowledged := false; }
      Advance(w, AwaitCreate, if acknowledged then Ok else Throws);
    }

    method TerminateInstance(ghost w: nat, ghost nested: bool)
      requires Valid() && IsAt(w, IssueTerminate(nested))
      modifies this
      ensures Valid() && old(log) <= log && IsAt(w, StatusAfter(nested))
    {
      PostTerminate(w, nested);
      Await(w, AwaitTerminate(nested));
      TerminateReturns(w, nested);
    }

    ghost method TerminateReturns(w: nat, nested: bool)
      requires Valid() && IsAt(w, AwaitTerminate(nested))
      modifies this`log
      ensures Valid() && old(log) <= log && IsAt(w, StatusAfter(nested))
    {
      Advance(w, AwaitTerminate(nested), Ok);
    }

    ghost method PostTerminate(w: nat, nested: bool)
      requires Valid() && IsAt(w, IssueTerminate(nested))
      modifies this`log
      ensures Valid() && old(log) <= log && IsAt(w, AwaitTerminate(nested))
    {
      Record(w, IssueTerminate(nested), Now());
    }

    // ---- cancelAwaitedChild ----

    /** The instance was found terminated: store it, and answer by what is stored. */
    method SaveAndConfirm(ghost w: nat, ghost nested: bool) returns (answer: Answer)
      requires Valid() && IsAt(w, SaveTerminated(nested))
      modifies this
      ensures Valid() && old(log) <= log && IsAt(w, Return(nested, answer))
    {
      UpdateToCancelled(w, SaveTerminated(nested));
      var saved := Select(w, ReadSaved(nested));
      return if saved.outcome == Cancelled then TerminalConfirmed else RequestedUnverified;
    }

    /** After the intent was stored: inspect the instance, and terminate it once. */
    method CancelNative(ghost w: nat, ghost nested: bool) returns (answer: Answer)
      requires Valid() && IsAt(w, GetStatus(nested))
      modifies this
      ensures Valid() && old(log) <= log && IsAt(w, Return(nested, answer))
    {
      var before := Status(w, GetStatus(nested));
      if before == IsTerminated { answer := SaveAndConfirm(w, nested); return; }
      if before == IsEnded { return AlreadyTerminal; }
      if before != IsActive { return RequestedUnverified; }
      answer := TerminateAndConfirm(w, nested);
    }

    /** Only the winner of the termination claim posts `terminate()`; every contender looks at the result. */
    method TerminateAndConfirm(ghost w: nat, ghost nested: bool) returns (answer: Answer)
      requires Valid() && IsAt(w, ClaimTerminate(nested))
      modifies this
      ensures Valid() && old(log) <= log && IsAt(w, Return(nested, answer))
    {
      var claim := UpdateTerminationAttempted(w, nested);
      if claim { TerminateInstance(w, nested); }
      answer := ConfirmAfter(w, nested);
    }

    method ConfirmAfter(ghost w: nat, ghost nested: bool) returns (answer: Answer)
      requires Valid() && IsAt(w, StatusAfter(nested))
      modifies this
      ensures Valid() && old(log) <= log && IsAt(w, Return(nested, answer))
    {
      var after := Status(w, StatusAfter(nested));
      if after == IsTerminated {
        UpdateToCancelled(w, SaveTerminatedAfter(nested));
        return TerminalConfirmed;
      }
      return RequestedUnverified;
    }

    method AnswerWithoutIntent(ghost w: nat, ghost nested: bool) returns (answer: Answer)
      requires Valid() && IsAt(w, ReadWithoutIntent(nested))
      modifies this
      ensures Valid() && old(log) <= log && IsAt(w, Return(nested, answer))
    {
      var current := Select(w, ReadWithoutIntent(nested));
      if current.outcome == Cancelled && current.start == CancelledBeforeStart { return WasCancelledBeforeStart; }
      if !Unfinished(current.outcome) { return AlreadyTerminal; }
      return RequestedUnverified;
    }

    /** From the recording of the intent on. */
    method CancelClaimed(ghost w: nat, ghost nested: bool) returns (answer: Answer)
      requires Valid() && IsAt(w, RecordIntent(nested))
      modifies this
      ensures Valid() && old(log) <= log && IsAt(w, Return(nested, answer))
    {
      InsertIntent(w, nested);
      var stored := HasIntent(w, nested);
      if stored { answer := CancelNative(w, nested); } else { answer := AnswerWithoutIntent(w, nested); }
    }

    method HasIntent(ghost w: nat, ghost nested: bool) returns (stored: bool)
      requires Valid() && IsAt(w, ReadIntent(nested))
      modifies this
      ensures Valid() && old(log) <= log && IsAt(w, if stored then GetStatus(nested) else ReadWithoutIntent(nested))
    {
      var row := Select(w, ReadIntent(nested));
      stored := row.intent != NoIntent;
    }

    method Cancel(ghost w: nat, ghost nested: bool) returns (answer: Answer)
      requires Valid() && IsAt(w, CancelRead(nested))
      modifies this
      ensures Valid() && old(log) <= log && IsAt(w, Return(nested, answer))
    {
      var row := Select(w, CancelRead(nested));
      if !child.awaitedInPlan { return CancelNotFound; }
      if row.outcome == Cancelled {
        return if row.start == CancelledBeforeStart then WasCancelledBeforeStart else TerminalConfirmed;
      }
      if !Unfinished(row.outcome) { return AlreadyTerminal; }
      if !child.instanceMatches { return CancelNotFound; }
      if row.start == Reserved || row.start == Creating { answer := CancelUnstarted(w, nested); }
      else { answer := CancelClaimed(w, nested); }
    }

    method CancelUnstarted(ghost w: nat, ghost nested: bool) returns (answer: Answer)
      requires Valid() && IsAt(w, CancelEarly(nested))
      modifies this
      ensures Valid() && old(log) <= log && IsAt(w, Return(nested, answer))
    {
      var stopped := UpdateToCancelledBeforeStart(w, nested);
      if stopped { return WasCancelledBeforeStart; }
      answer := CancelClaimed(w, nested);
    }

    /** The exported function. What it answers is true of the child at that moment. */
    method CancelAwaitedChild(ghost w: nat) returns (answer: Answer)
      requires Valid() && IsAt(w, CancelRead(false))
      modifies this
      ensures Valid() && old(log) <= log && IsAt(w, Done(answer))
      ensures answer == CancelNotFound ==> !child.awaitedInPlan || !child.instanceMatches
      ensures answer == AlreadyTerminal ==> outcome !in {Queued, Running} || native in {Completed, Errored}
      ensures answer == WasCancelledBeforeStart ==>
                start == CancelledBeforeStart && native == Absent && Now().creates == []
      ensures answer == TerminalConfirmed && (start == NativeCancelled || !Now().foreignCancel) ==> native == Terminated
    {
      answer := Cancel(w, false);
      AnswerHolds(w, answer);
    }

    // ---- startReservedAwaitedChild ----

    function StartAnswers(): set<Answer> {
      {SaysStarted, SaysStartUnknown, SaysIndeterminate, SaysCancelledBeforeStart, NotAuthorized}
    }

    method ReconcileCancellation(ghost w: nat) returns (answer: Answer)
      requires Valid() && IsAt(w, CheckIntent)
      modifies this
      ensures Valid() && old(log) <= log && answer == SaysStarted && IsAt(w, Done(answer))
    {
      var row := Select(w, CheckIntent);
      if row.intent != NoIntent { var ignored := Cancel(w, true); }
      answer := SaysStarted;
    }

    method MarkAndReconcile(ghost w: nat) returns (answer: Answer)
      requires Valid() && IsAt(w, MarkStarted)
      modifies this
      ensures Valid() && old(log) <= log && answer == SaysStarted && IsAt(w, Done(answer))
    {
      UpdateToStarted(w);
      answer := ReconcileCancellation(w);
    }

    /** From the dispatch claim on. */
    method DispatchAndCreate(ghost w: nat) returns (answer: Answer)
      requires Valid() && IsAt(w, ClaimDispatch)
      modifies this
      ensures Valid() && old(log) <= log && IsAt(w, Done(answer))
      ensures answer in {SaysStarted, SaysStartUnknown, SaysCancelledBeforeStart}
    {
      var dispatch := UpdateToDispatching(w);
      if !dispatch {
        var stopped := Select(w, ReadAfterLostDispatch);
        if stopped.outcome == Cancelled && stopped.start == CancelledBeforeStart { return SaysCancelledBeforeStart; }
        if stopped.start == Creating {
          var abandoned := UpdateCreatingToCancelled(w);
          if abandoned { return SaysCancelledBeforeStart; }
        }
        return SaysStartUnknown;
      }
      answer := CreateClaimed(w);
    }

    /** With the dispatch claim won: create the instance, and store what became of it. */
    method CreateClaimed(ghost w: nat) returns (answer: Answer)
      requires Valid() && IsAt(w, IssueCreate)
      modifies this
      ensures Valid() && old(log) <= log && IsAt(w, Done(answer))
      ensures answer in {SaysStarted, SaysStartUnknown, SaysCancelledBeforeStart}
    {
      var acknowledged := CreateInstance(w);
      if acknowledged { answer := MarkAndReconcile(w); } else { answer := RecoverCreate(w); }
    }

    /** The `catch` of the native create: its effect is unknown, so look once more. */
    method RecoverCreate(ghost w: nat) returns (answer: Answer)
      requires Valid() && IsAt(w, CatchCreate)
      modifies this
      ensures Valid() && old(log) <= log && IsAt(w, Done(answer))
      ensures answer in {SaysStarted, SaysStartUnknown, SaysCancelledBeforeStart}
    {
      UpdateToStartUnknown(w);
      var observed := ObserveInstance(w, ObserveAfterCatch);
      if observed == Found { answer := MarkAndReconcile(w); return; }
      return SaysStartUnknown;
    }

    /** The branch for a row that some earlier worker has already moved on. */
    method ResumeClaimed(ghost w: nat, now: int, seen: StartState) returns (answer: Answer)
      requires Valid() && IsAt(w, Observe(now, seen))
      requires seen == Creating || seen == Dispatching || seen == StartUnknown
      modifies this
      ensures Valid() && old(log) <= log && IsAt(w, Done(answer))
      ensures answer in StartAnswers() && (answer == SaysIndeterminate ==> now - child.createdAt >= TEN_MINUTES)
    {
      var observed := ObserveInstance(w, Observe(now, seen));
      if observed == Found { answer := MarkAndReconcile(w); return; }
      if observed != Missing { return SaysStartUnknown; }
      if now - child.createdAt >= TEN_MINUTES {
        UpdateToIndeterminate(w, now, seen == StartUnknown);
        return SaysIndeterminate;
      }
      if seen == Creating || seen == Dispatching { return SaysStartUnknown; }
      answer := DispatchAndCreate(w);
    }

    /** The exported function. What it answers is true of the child at that moment. */
    method StartReservedAwaitedChild(ghost w: nat, now: int) returns (answer: Answer)
      requires Valid() && IsAt(w, ReadRow(now))
      modifies this
      ensures Valid() && old(log) <= log && IsAt(w, Done(answer))
      ensures answer in {SaysStarted, SaysStartUnknown, SaysIndeterminate, SaysCancelledBeforeStart, NotAuthorized}
      ensures answer == SaysStarted ==> native != Absent || outcome !in {Queued, Running}
      ensures answer == SaysCancelledBeforeStart ==> outcome == Cancelled
      ensures answer == SaysIndeterminate ==> now - child.createdAt >= 600000
      ensures answer == NotAuthorized ==> !parentRunning || !child.unitWeight || !child.instanceMatches
    {
      answer := Start(w, now);
      AnswerHolds(w, answer);
    }

    method Start(ghost w: nat, now: int) returns (answer: Answer)
      requires Valid() && IsAt(w, ReadRow(now))
      modifies this
      ensures Valid() && old(log) <= log && IsAt(w, Done(answer))
      ensures answer in StartAnswers() && (answer == SaysIndeterminate ==> now - child.createdAt >= TEN_MINUTES)
    {
      var row := Select(w, ReadRow(now));
      if row.outcome == Cancelled && row.start == CancelledBeforeStart { return SaysCancelledBeforeStart; }
      if !Unfinished(row.outcome) { return SaysStarted; }
      if !row.parentRunning || !child.unitWeight || !child.instanceMatches ||
         row.start == CancelledBeforeStart || row.start == NativeCancelled { return NotAuthorized; }
      if row.start == Started { answer := ReconcileCancellation(w); return; }
      if row.start != Reserved { answer := ResumeClaimed(w, now, row.start); return; }
      answer := StartReserved(w, now);
    }

    /** The branch for a row that was read as `reserved`. */
    method StartReserved(ghost w: nat, ghost now: int) returns (answer: Answer)
      requires Valid() && IsAt(w, ClaimCreating(now))
      modifies this
      ensures Valid() && old(log) <= log && IsAt(w, Done(answer))
      ensures answer in {SaysStarted, SaysStartUnknown, SaysCancelledBeforeStart}
    {
      var claim := UpdateReservedToCreating(w, now);
      if !claim {
        var stopped := Select(w, ReadAfterLostClaim);
        return if stopped.outcome == Cancelled then SaysCancelledBeforeStart else SaysStartUnknown;
      }
      answer := DispatchAndCreate(w);
    }
  }
}
