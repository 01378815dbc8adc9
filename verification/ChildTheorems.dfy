/** What the awaited-child protocol promises, stated over whole runs from the reservation on. */
module ChildTheorems {
  import opened ChildProtocol
  import opened ChildSafety

  /** What can be relied on about a later state of the same child. */
  ghost predicate Later(s: World, t: World) {
    && t.child == s.child
    && s.claims <= t.claims && s.creates <= t.creates && s.terminates <= t.terminates
    && (!BeforeFence(s.db.start) ==> !BeforeFence(t.db.start))
    && (s.db.start == CancelledBeforeStart ==> t.db.start == CancelledBeforeStart)
    && (s.db.start != Reserved ==> t.db.start != Reserved)
    && (s.db.outcome != Queued ==> t.db.outcome != Queued && t.claims == s.claims)
    && (!Unfinished(s.db.outcome) ==> t.db.outcome == s.db.outcome)
    && (s.db.intent != NoIntent ==> t.db.intent != NoIntent && t.claims == s.claims)
    && (s.db.intent != NoIntent && s.db.outcome != Running ==> t.db.outcome != Running)
    && (s.terminates != [] ==> t.terminates == s.terminates)
    && (s.native != Absent ==> t.native != Absent)
    && (s.native in {Terminated, Completed, Errored} ==> t.native == s.native)
    && (!s.db.parentRunning ==> !t.db.parentRunning && t.claims == s.claims)
  }

  lemma RowUpdateIsLater(s: World, w: nat, pc: Pc)
    requires RowOk(s) && WorkerOk(s, w, pc) && UpdatesRow(pc)
    ensures Later(s, Statement(s, w, pc))
  {
    RowUpdateMoves(s, w, pc);
  }

  lemma StatementIsLater(s: World, w: nat, pc: Pc)
    requires RowOk(s) && WorkerOk(s, w, pc)
    ensures Later(s, Statement(s, w, pc))
  {
    if UpdatesRow(pc) { RowUpdateIsLater(s, w, pc); }
  }

  lemma StepIsLater(s: World, a: Action)
    requires Inv(s)
    ensures Later(s, Apply(s, a))
  {
    if a.Work? {
      if a.worker in s.workers {
        assert WorkerOk(s, a.worker, s.workers[a.worker]);
        StatementIsLater(s, a.worker, s.workers[a.worker]);
      }
    } else if !a.Spawn? {
      EnvironmentIsLater(s, a);
    }
  }

  lemma EnvironmentIsLater(s: World, a: Action)
    requires RowOk(s)
    ensures Later(s, Environment(s, a))
  {
  }

  lemma {:induction false} RunIsLater(s: World, run: seq<Action>)
    requires Inv(s)
    ensures Inv(Exec(s, run)) && Later(s, Exec(s, run))
  {
    RunKeepsInv(s, run);
    if run != [] {
      var before := run[..|run| - 1];
      RunIsLater(s, before);
      StepIsLater(Exec(s, before), run[|run| - 1]);
    }
  }

  /** A child stored as `cancelled_before_start` never had a native create, and never will have one. */
  lemma CancelledBeforeStartIsFinal(child: Child, run: seq<Action>, later: seq<Action>)
    requires Exec(Init(child), run).db.start == CancelledBeforeStart
    ensures var t := Exec(Exec(Init(child), run), later);
            && t.db.start == CancelledBeforeStart && t.db.outcome == Cancelled
            && t.creates == [] && t.native == Absent && t.db.intent == NoIntent
            && (forall w :: w in t.workers ==> t.workers[w] != IssueCreate)
  {
    RunIsLater(Init(child), run);
    var s := Exec(Init(child), run);
    RunIsLater(s, later);
    var t := Exec(s, later);
    forall w | w in t.workers ensures t.workers[w] != IssueCreate { assert WorkerOk(t, w, t.workers[w]); }
  }

  /** Once the dispatch fence was passed the row is never `reserved`, `creating` or `cancelled_before_start` again. */
  lemma FenceNeverReopens(child: Child, run: seq<Action>, later: seq<Action>)
    ensures var s := Exec(Init(child), run); var t := Exec(s, later);
            && (s.claims != [] ==>
                  t.db.start != Reserved && t.db.start != Creating && t.db.start != CancelledBeforeStart)
            && (s.db.start == Creating ==> t.db.start != Reserved)
  {
    RunIsLater(Init(child), run);
    RunIsLater(Exec(Init(child), run), later);
  }

  /** No two workers are ever both between winning the dispatch claim and their `create()` returning. */
  lemma OneDispatcherAtATime(child: Child, run: seq<Action>, v: nat, w: nat)
    requires var s := Exec(Init(child), run);
             v in s.workers && w in s.workers && Holding(s.workers[v]) && Holding(s.workers[w])
    ensures v == w && var s := Exec(Init(child), run);
            s.db.start != Reserved && s.db.start != Creating && s.db.start != StartUnknown
  {
    RunIsLater(Init(child), run);
    var s := Exec(Init(child), run);
    assert WorkerOk(s, v, s.workers[v]);
  }

  /** Each native create uses the child's own identity and spends a dispatch claim of its own. */
  lemma CreatesSpendClaims(child: Child, run: seq<Action>)
    ensures var s := Exec(Init(child), run);
            && Distinct(s.claims) && Distinct(Callers(s.creates))
            && (forall c :: c in s.creates ==> c.worker in s.claims && c.instance == child.id)
            && (s.native != Absent ==> s.creates != [])
  {
    RunIsLater(Init(child), run);
  }

  /** No dispatch claim is won once the outcome has left `queued`, nor once a cancellation intent is stored:
    every create of the whole future then belongs to a claim that is already there. */
  lemma NoNewClaims(child: Child, run: seq<Action>, later: seq<Action>)
    requires var s := Exec(Init(child), run); s.db.outcome != Queued || s.db.intent != NoIntent
    ensures var s := Exec(Init(child), run); var t := Exec(s, later);
            t.claims == s.claims && forall c :: c in t.creates ==> c.worker in s.claims
  {
    RunIsLater(Init(child), run);
    RunIsLater(Exec(Init(child), run), later);
  }

  /** A cancellation intent stored while the child is queued keeps it from ever running a business step. */
  lemma IntentStopsTheRunner(child: Child, run: seq<Action>, later: seq<Action>)
    requires var s := Exec(Init(child), run); s.db.intent != NoIntent && s.db.outcome == Queued
    ensures Exec(Exec(Init(child), run), later).db.outcome != Running
  {
    RunIsLater(Init(child), run);
    RunIsLater(Exec(Init(child), run), later);
  }

  /** `cancelAwaitedChild` issues `terminate()` at most once, in all its calls together, and only after the intent
    claimed it. */
  lemma TerminateOnce(child: Child, run: seq<Action>, later: seq<Action>)
    ensures var s := Exec(Init(child), run); var t := Exec(s, later);
            && |t.terminates| <= 1
            && (s.terminates != [] ==> t.terminates == s.terminates)
            && (t.terminates != [] ==> t.db.intent == TerminateClaimed)
  {
    RunIsLater(Init(child), run);
    RunIsLater(Exec(Init(child), run), later);
  }

  /** A stored cancellation is true: of a child that was never created, or of one whose instance terminated on
    request. */
  lemma StoredCancellationIsTrue(child: Child, run: seq<Action>)
    requires var s := Exec(Init(child), run); s.db.outcome == Cancelled && !s.foreignCancel
    ensures var s := Exec(Init(child), run);
            || (s.db.start == CancelledBeforeStart && s.creates == [] && s.native == Absent)
            || (s.db.start == NativeCancelled && s.db.intent != NoIntent && s.native == Terminated &&
                |s.terminates| == 1)
  {
    RunIsLater(Init(child), run);
  }

  /** An answer of any run says of the child what `AnswerOk` says. */
  lemma AnswerIsOk(child: Child, run: seq<Action>, w: nat)
    requires w in Exec(Init(child), run).workers && Exec(Init(child), run).workers[w].Done?
    ensures var s := Exec(Init(child), run); AnswerOk(s, s.workers[w].answer) && Inv(s) && s.child == child
  {
    RunIsLater(Init(child), run);
    var s := Exec(Init(child), run);
    assert WorkerOk(s, w, s.workers[w]);
  }

  lemma AnswerStays(s: World, t: World, answer: Answer)
    requires Later(s, t) && AnswerOk(s, answer) && (answer == TerminalConfirmed ==> s.native == Terminated)
    ensures AnswerOk(t, answer)
  {
  }

  /** The answers of `startReservedAwaitedChild` hold when given and ever after: a child that was answered to be started
    was created, or is over; `child_start_not_authorized` is about a parent that runs no more, or a row that is not an
    awaited child's, and nothing is claimed for either from then on. */
  lemma StartAnswersAreTrue(child: Child, run: seq<Action>, w: nat, later: seq<Action>)
    requires w in Exec(Init(child), run).workers
    ensures var s := Exec(Init(child), run); var t := Exec(s, later); var pc := s.workers[w];
            && (pc == Done(SaysStarted) ==> t.native != Absent || t.db.outcome !in {Queued, Running})
            && (pc == Done(SaysCancelledBeforeStart) ==> t.db.outcome == Cancelled)
            && (pc == Done(NotAuthorized) ==>
                  (!t.db.parentRunning || !child.unitWeight || !child.instanceMatches) && t.claims == s.claims)
  {
    var s := Exec(Init(child), run);
    if s.workers[w].Done? {
      AnswerIsOk(child, run, w);
      RunIsLater(s, later);
      if s.workers[w].answer != TerminalConfirmed { AnswerStays(s, Exec(s, later), s.workers[w].answer); }
    }
  }

  /** A row that is not an awaited child's is never created; and no claim is won once the parent runs no more. */
  lemma UnauthorizedNeverCreated(child: Child, run: seq<Action>, later: seq<Action>)
    ensures var s := Exec(Init(child), run); var t := Exec(s, later);
            && (!child.unitWeight || !child.instanceMatches ==> t.claims == [] && t.creates == [] && t.native == Absent)
            && (!s.db.parentRunning ==> t.claims == s.claims)
  {
    RunIsLater(Init(child), run);
    RunIsLater(Exec(Init(child), run), later);
  }

  /** The answers of `cancelAwaitedChild` hold when given and ever after. */
  lemma CancelAnswersAreTrue(child: Child, run: seq<Action>, w: nat, later: seq<Action>)
    requires var s := Exec(Init(child), run); w in s.workers
    ensures var s := Exec(Init(child), run); var t := Exec(s, later);
            && (s.workers[w] == Done(CancelNotFound) ==> !child.awaitedInPlan || !child.instanceMatches)
            && (s.workers[w] == Done(AlreadyTerminal) ==>
                  t.db.outcome !in {Queued, Running} || t.native in {Completed, Errored})
            && (s.workers[w] == Done(WasCancelledBeforeStart) ==> t.creates == [] && t.db.start == CancelledBeforeStart)
            && (s.workers[w] == Done(TerminalConfirmed) && (s.db.start == NativeCancelled || !s.foreignCancel) ==>
                  t.native == Terminated)
  {
    var s := Exec(Init(child), run);
    if s.workers[w].Done? {
      AnswerIsOk(child, run, w);
      RunIsLater(s, later);
      if s.workers[w].answer != TerminalConfirmed || s.native == Terminated {
        AnswerStays(s, Exec(s, later), s.workers[w].answer);
      }
    }
  }

  /** A stored `start_state` of `cancelled` says by itself that the instance terminated, whoever else cancelled the
    run. */
  lemma NativeCancelledIsTrue(child: Child, run: seq<Action>, later: seq<Action>)
    requires Exec(Init(child), run).db.start == NativeCancelled
    ensures Exec(Exec(Init(child), run), later).native == Terminated
  {
    RunIsLater(Init(child), run);
    RunIsLater(Exec(Init(child), run), later);
  }

  /** The branch that turns `creating` plus a stored intent into `cancelled_before_start` never changes a row. */
  lemma AbandonNeverFires(child: Child, run: seq<Action>)
    ensures var d := Exec(Init(child), run).db; SqlAbandon(d) == d && (d.intent != NoIntent ==> d.start != Creating)
  {
    RunIsLater(Init(child), run);
  }

  /** No dispatch claim was won and no create issued, now or in any future. */
  ghost predicate NeverDispatched(s: World) {
    forall later :: Exec(s, later).claims == [] && Exec(s, later).creates == []
  }

  /** A starter that lost its first claim and reads outcome `cancelled` answers `cancelled_before_start`
    without reading `start_state`. The answer is right, now and for good, exactly when the stored
    `start_state` is still on the near side of the dispatch fence. */
  lemma LostClaimAnswerExact(child: Child, run: seq<Action>)
    requires Exec(Init(child), run).db.outcome == Cancelled
    ensures var s := Exec(Init(child), run);
            BeforeFence(s.db.start) <==> NeverDispatched(s)
  {
    RunIsLater(Init(child), run);
    var s := Exec(Init(child), run);
    if BeforeFence(s.db.start) {
      forall later ensures Exec(s, later).claims == [] && Exec(s, later).creates == [] { RunIsLater(s, later); }
    }
    if NeverDispatched(s) {
      var none: seq<Action> := [];
      assert Exec(s, none) == s;
    }
  }
}
