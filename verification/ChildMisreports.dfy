/** Two answers of the awaited-child protocol that a run can make wrong. */
module ChildMisreports {
  import opened ChildProtocol
  import opened ChildSafety
  import opened ChildTheorems

  lemma Extend(s: World, run: seq<Action>, a: Action) returns (longer: seq<Action>)
    ensures longer == run + [a] && Exec(s, longer) == Apply(Exec(s, run), a)
  {
    longer := run + [a];
    assert longer[..|longer| - 1] == run;
  }

  predicate Ordinary(child: Child) { child.unitWeight && child.instanceMatches && child.awaitedInPlan }

  predicate At(s: World, w: nat, pc: Pc) { w in s.workers && s.workers[w] == pc }

  /** Worker 1 has read a reserved row; worker 2 then wins the claim of `creating`. */
  lemma Claimed(child: Child) returns (run: seq<Action>)
    requires Ordinary(child)
    ensures var s := Exec(Init(child), run);
            && s == World(child, Db(Creating, Queued, NoIntent, true), Absent, s.workers, [], [], [], false)
            && At(s, 1, ClaimCreating(0)) && At(s, 2, ClaimDispatch) && 3 !in s.workers
  {
    var s := Init(child);
    run := [];
    run := Extend(s, run, Spawn(1, ReadRow(0)));
    run := Extend(s, run, Work(1, Silent));
    run := Extend(s, run, Spawn(2, ReadRow(0)));
    run := Extend(s, run, Work(2, Silent));
    run := Extend(s, run, Work(2, Silent));
  }

  /** Worker 2 goes on to its dispatch claim and creates the instance. */
  lemma Dispatched(child: Child) returns (run: seq<Action>)
    requires Ordinary(child)
    ensures var s := Exec(Init(child), run);
            && s == World(child, Db(Dispatching, Queued, NoIntent, true), Live, s.workers, [2], [Call(2, child.id)], [],
                          false)
            && At(s, 1, ClaimCreating(0)) && At(s, 2, AwaitCreate) && 3 !in s.workers
  {
    var s := Init(child);
    run := Claimed(child);
    run := Extend(s, run, Work(2, Silent));
    run := Extend(s, run, Work(2, Silent));
    run := Extend(s, run, CreateLands(2));
  }

  /** Worker 2 stores `started`. */
  lemma StartedStored(child: Child) returns (run: seq<Action>)
    requires Ordinary(child)
    ensures var s := Exec(Init(child), run);
            && s.child == child && s.db == Db(Started, Queued, NoIntent, true) && s.native == Live && !s.foreignCancel
            && s.creates == [Call(2, child.id)] && s.terminates == [] && At(s, 1, ClaimCreating(0)) && 3 !in s.workers
  {
    run := Dispatched(child);
    run := Extend(Init(child), run, Work(2, Ok));
    run := Extend(Init(child), run, Work(2, Silent));
  }

  /** Worker 3 stores a cancellation intent. */
  lemma IntentStored(child: Child) returns (run: seq<Action>)
    requires Ordinary(child)
    ensures var s := Exec(Init(child), run);
            && s.child == child && s.db == Db(Started, Queued, Requested, true) && s.native == Live && !s.foreignCancel
            && s.creates == [Call(2, child.id)] && s.terminates == []
            && At(s, 1, ClaimCreating(0)) && At(s, 3, ReadIntent(false))
  {
    var s := Init(child);
    run := StartedStored(child);
    run := Extend(s, run, Spawn(3, CancelRead(false)));
    run := Extend(s, run, Work(3, Silent));
    run := Extend(s, run, Work(3, Silent));
  }

  /** Worker 3 sees a live instance and wins the termination claim. */
  lemma TerminateClaimedBy3(child: Child) returns (run: seq<Action>)
    requires Ordinary(child)
    ensures var s := Exec(Init(child), run);
            && s.child == child && s.db == Db(Started, Queued, TerminateClaimed, true) && s.native == Live
            && s.creates == [Call(2, child.id)] && s.terminates == [] && !s.foreignCancel
            && At(s, 1, ClaimCreating(0)) && At(s, 3, IssueTerminate(false))
  {
    run := LiveSeenBy3(child);
    run := Extend(Init(child), run, Work(3, Silent));
  }

  lemma LiveSeenBy3(child: Child) returns (run: seq<Action>)
    requires Ordinary(child)
    ensures var s := Exec(Init(child), run);
            && s.child == child && s.db == Db(Started, Queued, Requested, true) && s.native == Live
            && s.creates == [Call(2, child.id)] && s.terminates == [] && !s.foreignCancel
            && At(s, 1, ClaimCreating(0)) && At(s, 3, ClaimTerminate(false))
  {
    run := IntentStored(child);
    run := Extend(Init(child), run, Work(3, Silent));
    run := Extend(Init(child), run, Work(3, IsActive));
  }

  lemma TerminateIssuedBy3(child: Child) returns (run: seq<Action>)
    requires Ordinary(child)
    ensures var s := Exec(Init(child), run);
            && s.child == child && s.db == Db(Started, Queued, TerminateClaimed, true) && s.native == Live
            && s.creates == [Call(2, child.id)] && s.terminates == [Call(3, child.id)] && !s.foreignCancel
            && At(s, 1, ClaimCreating(0)) && At(s, 3, AwaitTerminate(false))
  {
    run := TerminateClaimedBy3(child);
    run := Extend(Init(child), run, Work(3, Silent));
  }

  /** `terminate()` takes effect, and worker 3 sees it. */
  lemma InstanceTerminated(child: Child) returns (run: seq<Action>)
    requires Ordinary(child)
    ensures var s := Exec(Init(child), run);
            && s.child == child && s.db == Db(Started, Queued, TerminateClaimed, true) && s.native == Terminated
            && s.creates == [Call(2, child.id)] && !s.foreignCancel
            && At(s, 1, ClaimCreating(0)) && At(s, 3, SaveTerminatedAfter(false))
  {
    var s := Init(child);
    run := TerminateIssuedBy3(child);
    run := Extend(s, run, TerminateLands(3));
    run := Extend(s, run, Work(3, Ok));
    run := Extend(s, run, Work(3, IsTerminated));
  }

  /** `startReservedAwaitedChild` answers `cancelled_before_start` for a child that was created and terminated:
    the claim of a worker with an old view fails, and the outcome it then reads is `cancelled`. */
  lemma StaleStarterMisreports(child: Child) returns (run: seq<Action>)
    requires Ordinary(child)
    ensures var s := Exec(Init(child), run);
            && At(s, 1, Done(SaysCancelledBeforeStart)) && !s.foreignCancel
            && s.creates == [Call(2, child.id)] && s.native == Terminated && s.db.start == NativeCancelled
  {
    var s := Init(child);
    run := InstanceTerminated(child);
    run := Extend(s, run, Work(3, Silent));
    run := Extend(s, run, Work(1, Silent));
    run := Extend(s, run, Work(1, Silent));
  }

  /** `cancelAwaitedChild` answers `terminal_confirmed` for a live instance once another entry point has written
    outcome `cancelled`; its first read does not ask for `start_state` `cancelled`. */
  lemma ForeignCancelMisreported(child: Child) returns (run: seq<Action>)
    requires Ordinary(child)
    ensures var s := Exec(Init(child), run);
            && At(s, 3, Done(TerminalConfirmed))
            && s.native == Live && s.db.intent == NoIntent && s.db.start == Dispatching
  {
    var s := Init(child);
    run := CancelledElsewhere(child);
    run := Extend(s, run, Spawn(3, CancelRead(false)));
    run := Extend(s, run, Work(3, Silent));
  }

  lemma CancelledElsewhere(child: Child) returns (run: seq<Action>)
    requires Ordinary(child)
    ensures var s := Exec(Init(child), run);
            s.child == child && s.db == Db(Dispatching, Cancelled, NoIntent, true) && s.native == Live &&
              3 !in s.workers
  {
    run := Dispatched(child);
    run := Extend(Init(child), run, ForeignCancel);
  }

  // ---- terminal_confirmed, exactly ----

  /** A run after which the first read of `cancelAwaitedChild` answers `terminal_confirmed`, on a row with this
    `start_state`. */
  ghost predicate ConfirmsAt(child: Child, run: seq<Action>, start: StartState) {
    var s := Exec(Init(child), run);
    s.db.start == start && AfterCancelRead(child, s.db, false) == Done(TerminalConfirmed)
  }

  ghost predicate TerminatedForGood(s: World) { forall later :: Exec(s, later).native == Terminated }

  /** For every other `start_state` there is a run in which the instance, if there is one, is not terminated. */
  lemma UnterminatedAt(child: Child, start: StartState) returns (run: seq<Action>)
    requires Ordinary(child) && start != NativeCancelled && start != CancelledBeforeStart
    ensures ConfirmsAt(child, run, start) && Exec(Init(child), run).native != Terminated
  {
    match start
    case Reserved => run := Extend(Init(child), [], ForeignCancel);
    case Creating =>
      run := Claimed(child);
      run := Extend(Init(child), run, ForeignCancel);
    case Dispatching => run := CancelledElsewhere(child);
    case StartUnknown => run := UnknownElsewhere(child);
    case Started =>
      run := StartedStored(child);
      run := Extend(Init(child), run, ForeignCancel);
  }

  lemma UnknownElsewhere(child: Child) returns (run: seq<Action>)
    requires Ordinary(child)
    ensures ConfirmsAt(child, run, StartUnknown) && Exec(Init(child), run).native == Live
  {
    run := Dispatched(child);
    run := Extend(Init(child), run, Work(2, Throws));
    run := Extend(Init(child), run, Work(2, Silent));
    run := Extend(Init(child), run, ForeignCancel);
  }

  /** The first read answers `terminal_confirmed` for outcome `cancelled` without looking further at `start_state`.
    The answer is right in every run, now and for good, exactly when the stored `start_state` is `cancelled`. */
  lemma ConfirmedExactly(child: Child, start: StartState)
    requires Ordinary(child) && start != CancelledBeforeStart
    ensures (forall run :: ConfirmsAt(child, run, start) ==> TerminatedForGood(Exec(Init(child), run))) <==>
              start == NativeCancelled
  {
    if start == NativeCancelled {
      forall run | ConfirmsAt(child, run, start) ensures TerminatedForGood(Exec(Init(child), run)) {
        forall later ensures Exec(Exec(Init(child), run), later).native == Terminated {
          NativeCancelledIsTrue(child, run, later);
        }
      }
    } else {
      var run := UnterminatedAt(child, start);
      var none: seq<Action> := [];
      assert Exec(Exec(Init(child), run), none) == Exec(Init(child), run);
    }
  }
}
