/** Safety of the awaited-child protocol over every run of any number of workers. */
module ChildSafety {
  import opened ChildProtocol

  /** Between winning the dispatch claim and leaving the `catch` of its `create()`. */
  predicate Holding(pc: Pc) { pc == IssueCreate || pc == AwaitCreate || pc == CatchCreate }

  /** Has not yet reached the dispatch claim, or will never reach it. */
  predicate Unclaimed(pc: Pc) {
    pc.ReadRow? || pc.ClaimCreating? || pc.ReadAfterLostClaim? || pc.Observe? || pc.Expire? || pc.ClaimDispatch? ||
    pc.ReadAfterLostDispatch? || pc.Abandon?
  }

  predicate SawTerminated(pc: Pc) { pc.SaveTerminated? || pc.ReadSaved? || pc.SaveTerminatedAfter? }

  /** Has read the stored intent. */
  predicate KnowsIntent(pc: Pc) {
    SawTerminated(pc) || pc.GetStatus? || pc.ClaimTerminate? || pc.IssueTerminate? || pc.AwaitTerminate? ||
      pc.StatusAfter?
  }

  /** A cancellation on behalf of a starter, which answers `started`. */
  predicate Nested(pc: Pc) {
    (pc.CancelRead? || pc.CancelEarly? || pc.RecordIntent? || pc.ReadIntent? || pc.ReadWithoutIntent? ||
     KnowsIntent(pc))
    && pc.nested
  }

  /** Past the check of the row that was read. */
  predicate Admitted(pc: Pc) { (Unclaimed(pc) && !pc.ReadRow?) || Holding(pc) }

  predicate Regular(c: Child) { c.unitWeight && c.instanceMatches }

  /** What an answer says of the child. */
  ghost predicate AnswerOk(s: World, answer: Answer) {
    match answer
    case SaysStarted => s.native != Absent || !Unfinished(s.db.outcome)
    case SaysCancelledBeforeStart => s.db.outcome == Cancelled
    case NotAuthorized => !s.db.parentRunning || !Regular(s.child)
    case CancelNotFound => !s.child.awaitedInPlan || !s.child.instanceMatches
    case AlreadyTerminal => !Unfinished(s.db.outcome) || s.native == Completed || s.native == Errored
    case WasCancelledBeforeStart => s.db.start == CancelledBeforeStart
    case TerminalConfirmed => s.native == Terminated || s.foreignCancel
    case _ => true
  }

  function Callers(calls: seq<Call>): (ws: seq<nat>)
    ensures |ws| == |calls| && forall i :: 0 <= i < |calls| ==> ws[i] == calls[i].worker
  {
    seq(|calls|, i requires 0 <= i < |calls| => calls[i].worker)
  }

  ghost predicate Distinct(ws: seq<nat>) { forall i, j :: 0 <= i < j < |ws| ==> ws[i] != ws[j] }

  /** What one worker's program counter says about the shared state. */
  ghost predicate WorkerOk(s: World, w: nat, pc: Pc) {
    && (Holding(pc) ==> w in s.claims && s.db.start != Reserved && s.db.start != Creating && s.db.start != StartUnknown)
    && (pc == IssueCreate ==> forall c :: c in s.creates ==> c.worker != w)
    && (Unclaimed(pc) ==> w !in s.claims)
    && (pc == MarkStarted || pc == CheckIntent || Nested(pc) ==> s.native != Absent)
    && (Admitted(pc) ==> Regular(s.child))
    && (pc.Expire? ==> pc.now - s.child.createdAt >= TEN_MINUTES)
    && (SawTerminated(pc) ==> s.native == Terminated)
    && (KnowsIntent(pc) ==> s.db.intent != NoIntent)
    && (pc.IssueTerminate? ==> s.terminates == [] && s.db.intent == TerminateClaimed)
    && (pc.Done? ==> AnswerOk(s, pc.answer))
  }

  ghost predicate RowOk(s: World) {
    && (BeforeFence(s.db.start) <==> s.claims == [])
    && (s.claims != [] ==> Regular(s.child))
    && (s.db.start == CancelledBeforeStart ==> s.db.outcome == Cancelled)
    && (s.db.start == NativeCancelled ==>
          s.native == Terminated && s.db.intent != NoIntent && s.db.outcome == Cancelled)
    && (s.db.start == Started ==> s.native != Absent)
    && (s.db.outcome == Running ==> s.native != Absent)
    && (s.db.outcome == Cancelled && !s.foreignCancel ==>
          s.db.start == CancelledBeforeStart || s.db.start == NativeCancelled)
    && (s.db.intent != NoIntent ==> s.claims != [])
    && (s.native != Absent ==> s.creates != [])
    && (s.creates != [] ==> s.claims != [])
    && (s.native == Terminated ==> s.terminates != [] || s.foreignCancel)
    && (s.db.intent != TerminateClaimed ==> s.terminates == [])
  }

  ghost predicate HistoryOk(s: World) {
    && Distinct(s.claims)
    && Distinct(Callers(s.creates))
    && (forall w :: w in s.claims ==> w in s.workers)
    && (forall c :: c in s.creates ==> c.worker in s.claims && c.instance == s.child.id)
    && |s.terminates| <= 1
  }

  ghost predicate Inv(s: World) {
    && RowOk(s)
    && HistoryOk(s)
    && (forall w :: w in s.workers ==> WorkerOk(s, w, s.workers[w]))
    && (forall v, w :: v in s.workers && w in s.workers && Holding(s.workers[v]) && Holding(s.workers[w]) ==> v == w)
    && (forall v, w :: v in s.workers && w in s.workers && s.workers[v].IssueTerminate? && s.workers[w].IssueTerminate?
          ==> v == w)
  }

  /** Where the other workers are says nothing about one of them. */
  lemma OthersMove(s: World, workers: map<nat, Pc>, v: nat, pc: Pc)
    requires WorkerOk(s, v, pc)
    ensures WorkerOk(s.(workers := workers), v, pc)
  {
  }

  lemma SpawnKeepsInv(s: World, w: nat, pc: Pc)
    requires Inv(s)
    ensures Inv(Apply(s, Spawn(w, pc)))
  {
    var t := Apply(s, Spawn(w, pc));
    if t != s {
      forall v | v in t.workers ensures WorkerOk(t, v, t.workers[v]) {
        if v != w { OthersMove(s, t.workers, v, s.workers[v]); }
      }
    }
  }

  lemma EnvironmentKeepsRow(s: World, a: Action)
    requires RowOk(s)
    ensures var t := Environment(s, a);
            RowOk(t) && t == s.(db := t.db, native := t.native, foreignCancel := t.foreignCancel)
  {
  }

  lemma EnvironmentKeepsWorker(s: World, a: Action, w: nat, pc: Pc)
    requires WorkerOk(s, w, pc)
    ensures WorkerOk(Environment(s, a), w, pc)
  {
  }

  lemma EnvironmentKeepsInv(s: World, a: Action)
    requires Inv(s)
    ensures Inv(Environment(s, a))
  {
    EnvironmentKeepsRow(s, a);
    forall w | w in s.workers ensures WorkerOk(Environment(s, a), w, s.workers[w]) {
      EnvironmentKeepsWorker(s, a, w, s.workers[w]);
    }
  }

  /** A worker's step keeps the invariant when it keeps every part of it. */
  lemma MoveKeepsInv(s: World, t: World, w: nat)
    requires Inv(s) && w in s.workers && w in t.workers && t.workers == s.workers[w := t.workers[w]]
    requires RowOk(t) && HistoryOk(t) && WorkerOk(t, w, t.workers[w])
    requires forall v :: v in s.workers && v != w ==> WorkerOk(t, v, s.workers[v])
    requires Holding(t.workers[w]) && !Holding(s.workers[w]) ==>
               forall v :: v in s.workers && v != w ==> !Holding(s.workers[v])
    requires t.workers[w].IssueTerminate? && !s.workers[w].IssueTerminate? ==>
               forall v :: v in s.workers && v != w ==> !s.workers[v].IssueTerminate?
    ensures Inv(t)
  {
  }

  lemma ReadMoves(s: World, w: nat, pc: Pc, r: Reply)
    requires RowOk(s) && WorkerOk(s, w, pc) && ReadsOnly(pc)
    ensures var next := AfterReading(s.child, s.db, s.native, pc, r);
            WorkerOk(s, w, next) && (Holding(next) ==> Holding(pc)) && !next.IssueTerminate?
  {
    ReadLeads(s, w, pc, r);
    ReadTells(s, w, pc, r);
  }

  /** No read leads to a claim, and none to a point that only a claim leads to. */
  lemma ReadLeads(s: World, w: nat, pc: Pc, r: Reply)
    requires WorkerOk(s, w, pc) && ReadsOnly(pc)
    ensures var next := AfterReading(s.child, s.db, s.native, pc, r);
            && (Holding(next) ==> pc.AwaitCreate? && Holding(pc) && next != IssueCreate) && !next.IssueTerminate?
            && (Unclaimed(next) ==> Unclaimed(pc))
  {
  }

  /** What a worker holds true after a read, the read has told it. */
  lemma ReadTells(s: World, w: nat, pc: Pc, r: Reply)
    requires RowOk(s) && WorkerOk(s, w, pc) && ReadsOnly(pc)
    ensures var next := AfterReading(s.child, s.db, s.native, pc, r);
            && (next == MarkStarted || next == CheckIntent ==> s.native != Absent)
            && (SawTerminated(next) ==> s.native == Terminated)
            && (KnowsIntent(next) ==> s.db.intent != NoIntent)
            && (next.Done? ==> AnswerOk(s, next.answer))
  {
    var next := AfterReading(s.child, s.db, s.native, pc, r);
    assert next == Done(WasCancelledBeforeStart) ==> pc.CancelRead? || pc.ReadWithoutIntent?;
    assert next == Done(TerminalConfirmed) ==> pc.CancelRead? || pc.ReadSaved?;
    assert KnowsIntent(next) ==> KnowsIntent(pc) || pc.ReadIntent?;
  }

  lemma ReadKeepsInv(s: World, w: nat, r: Reply)
    requires Inv(s) && w in s.workers && ReadsOnly(s.workers[w])
    ensures Inv(Apply(s, Work(w, r)))
  {
    ReadMoves(s, w, s.workers[w], r);
    var next := AfterReading(s.child, s.db, s.native, s.workers[w], r);
    var t := Go(s, w, next);
    OthersMove(s, t.workers, w, next);
    forall v | v in s.workers && v != w ensures WorkerOk(t, v, s.workers[v]) {
      OthersMove(s, t.workers, v, s.workers[v]);
    }
    MoveKeepsInv(s, t, w);
  }

  /** The statements that write the row of `runs`, apart from the dispatch claim. */
  predicate UpdatesRow(pc: Pc) {
    pc.ClaimCreating? || pc.Expire? || pc.Abandon? || pc.CatchCreate? || pc.MarkStarted? || pc.CancelEarly? ||
    pc.RecordIntent? || pc.SaveTerminated? || pc.SaveTerminatedAfter?
  }

  lemma RowUpdateKeepsRow(s: World, w: nat, pc: Pc)
    requires RowOk(s) && WorkerOk(s, w, pc) && UpdatesRow(pc)
    ensures RowOk(Statement(s, w, pc))
  {
  }

  lemma RowUpdateMoves(s: World, w: nat, pc: Pc)
    requires UpdatesRow(pc)
    ensures var t := Statement(s, w, pc);
            && w in t.workers && t == Go(s.(db := t.db), w, t.workers[w])
            && !Holding(t.workers[w]) && !t.workers[w].IssueTerminate?
  {
  }

  /** None of these statements leads to a state that only a dispatch claim or a termination claim allows. */
  lemma RowUpdateLeavesWorkerOk(s: World, w: nat, pc: Pc)
    requires RowOk(s) && WorkerOk(s, w, pc) && UpdatesRow(pc)
    ensures var t := Statement(s, w, pc); WorkerOk(t, w, t.workers[w])
  {
    RowUpdateLeads(s, w, pc);
    RowUpdateAnswers(s, w, pc);
  }

  lemma RowUpdateLeads(s: World, w: nat, pc: Pc)
    requires UpdatesRow(pc)
    ensures var next := Statement(s, w, pc).workers[w];
            && !Holding(next) && !next.IssueTerminate? && (KnowsIntent(next) ==> SawTerminated(next))
            && (SawTerminated(next) ==> SawTerminated(pc)) && (Unclaimed(next) ==> pc.ClaimCreating?)
            && (next == MarkStarted || next == CheckIntent ==> pc == MarkStarted)
  {
  }

  lemma RowUpdateAnswers(s: World, w: nat, pc: Pc)
    requires RowOk(s) && WorkerOk(s, w, pc) && UpdatesRow(pc)
    ensures var t := Statement(s, w, pc);
            && (t.workers[w].Done? ==> AnswerOk(t, t.workers[w].answer))
  {
    var next := Statement(s, w, pc).workers[w];
    assert next == Done(WasCancelledBeforeStart) ==> pc.CancelEarly?;
    assert next == Done(TerminalConfirmed) ==> pc.SaveTerminatedAfter?;
  }

  lemma RowUpdateKeepsOthers(s: World, w: nat, v: nat)
    requires Inv(s) && w in s.workers && UpdatesRow(s.workers[w]) && v in s.workers && v != w
    ensures WorkerOk(Statement(s, w, s.workers[w]), v, s.workers[v])
  {
    assert WorkerOk(s, w, s.workers[w]);
    assert WorkerOk(s, v, s.workers[v]);
  }

  lemma RowUpdateKeepsInv(s: World, w: nat)
    requires Inv(s) && w in s.workers && UpdatesRow(s.workers[w])
    ensures Inv(Statement(s, w, s.workers[w]))
  {
    var t := Statement(s, w, s.workers[w]);
    RowUpdateKeepsRow(s, w, s.workers[w]);
    RowUpdateMoves(s, w, s.workers[w]);
    RowUpdateLeavesWorkerOk(s, w, s.workers[w]);
    forall v | v in s.workers && v != w ensures WorkerOk(t, v, s.workers[v]) { RowUpdateKeepsOthers(s, w, v); }
    MoveKeepsInv(s, t, w);
  }

  lemma ClaimDispatchKeepsOthers(s: World, w: nat, v: nat, pc: Pc)
    requires WorkerOk(s, v, pc) && v != w
    ensures WorkerOk(Statement(s, w, ClaimDispatch), v, pc) && (DispatchAllowed(s.db) ==> !Holding(pc))
  {
  }

  lemma ClaimDispatchMoves(s: World, w: nat)
    requires RowOk(s) && HistoryOk(s) && WorkerOk(s, w, ClaimDispatch) && w in s.workers
    ensures var t := Statement(s, w, ClaimDispatch);
            && RowOk(t) && HistoryOk(t) && WorkerOk(t, w, t.workers[w]) && !t.workers[w].IssueTerminate?
            && (Holding(t.workers[w]) ==> DispatchAllowed(s.db))
  {
  }

  lemma ClaimDispatchKeepsInv(s: World, w: nat)
    requires Inv(s) && w in s.workers && s.workers[w].ClaimDispatch?
    ensures Inv(Statement(s, w, s.workers[w]))
  {
    var t := Statement(s, w, ClaimDispatch);
    ClaimDispatchMoves(s, w);
    forall v | v in s.workers && v != w
      ensures WorkerOk(t, v, s.workers[v]) && (DispatchAllowed(s.db) ==> !Holding(s.workers[v]))
    { ClaimDispatchKeepsOthers(s, w, v, s.workers[v]); }
    MoveKeepsInv(s, t, w);
  }

  lemma IssueCreateKeepsInv(s: World, w: nat)
    requires Inv(s) && w in s.workers && s.workers[w].IssueCreate?
    ensures Inv(Statement(s, w, s.workers[w]))
  {
    var t := Statement(s, w, s.workers[w]);
    assert WorkerOk(s, w, s.workers[w]);
    forall v | v in s.workers && v != w ensures WorkerOk(t, v, s.workers[v]) { assert WorkerOk(s, v, s.workers[v]); }
    MoveKeepsInv(s, t, w);
  }

  lemma ClaimTerminateKeepsOthers(s: World, w: nat, nested: bool, v: nat, pc: Pc)
    requires RowOk(s) && WorkerOk(s, v, pc)
    ensures var t := Statement(s, w, ClaimTerminate(nested));
            && RowOk(t) && WorkerOk(t, v, pc) && (s.db.intent == Requested ==> !pc.IssueTerminate?)
  {
  }

  lemma ClaimTerminateKeepsInv(s: World, w: nat)
    requires Inv(s) && w in s.workers && s.workers[w].ClaimTerminate?
    ensures Inv(Statement(s, w, s.workers[w]))
  {
    var t := Statement(s, w, s.workers[w]);
    var nested := s.workers[w].nested;
    forall v | v in s.workers
      ensures RowOk(t) && WorkerOk(t, v, s.workers[v]) && (s.db.intent == Requested ==> !s.workers[v].IssueTerminate?)
    { ClaimTerminateKeepsOthers(s, w, nested, v, s.workers[v]); }
    ClaimTerminateMoves(s, w, nested);
    MoveKeepsInv(s, t, w);
  }

  lemma ClaimTerminateMoves(s: World, w: nat, nested: bool)
    requires RowOk(s) && WorkerOk(s, w, ClaimTerminate(nested))
    ensures var t := Statement(s, w, ClaimTerminate(nested));
            && WorkerOk(t, w, t.workers[w]) && !Holding(t.workers[w])
            && (t.workers[w].IssueTerminate? ==> s.db.intent == Requested)
  {
  }

  lemma IssueTerminateKeepsOthers(s: World, w: nat, nested: bool, v: nat, pc: Pc)
    requires WorkerOk(s, v, pc) && !pc.IssueTerminate?
    ensures WorkerOk(Statement(s, w, IssueTerminate(nested)), v, pc)
  {
  }

  lemma IssueTerminateMoves(s: World, w: nat, nested: bool)
    requires RowOk(s) && HistoryOk(s) && WorkerOk(s, w, IssueTerminate(nested)) && w in s.workers
    ensures var t := Statement(s, w, IssueTerminate(nested));
            && RowOk(t) && HistoryOk(t) && WorkerOk(t, w, t.workers[w])
            && !Holding(t.workers[w]) && !t.workers[w].IssueTerminate?
  {
  }

  lemma IssueTerminateKeepsInv(s: World, w: nat)
    requires Inv(s) && w in s.workers && s.workers[w].IssueTerminate?
    ensures Inv(Statement(s, w, s.workers[w]))
  {
    var nested := s.workers[w].nested;
    var t := Statement(s, w, IssueTerminate(nested));
    IssueTerminateMoves(s, w, nested);
    forall v | v in s.workers && v != w ensures WorkerOk(t, v, s.workers[v]) {
      IssueTerminateKeepsOthers(s, w, nested, v, s.workers[v]);
    }
    MoveKeepsInv(s, t, w);
  }

  /** Every step of every worker, of the engine and of the rest of the system keeps the invariant. */
  lemma StepKeepsInv(s: World, a: Action)
    requires Inv(s)
    ensures Inv(Apply(s, a))
  {
    match a
    case Spawn(w, pc) => SpawnKeepsInv(s, w, pc);
    case Work(w, r) =>
      if w in s.workers {
        var pc := s.workers[w];
        if ReadsOnly(pc) { ReadKeepsInv(s, w, r); }
        else if UpdatesRow(pc) { RowUpdateKeepsInv(s, w); }
        else if pc.ClaimDispatch? { ClaimDispatchKeepsInv(s, w); }
        else if pc.IssueCreate? { IssueCreateKeepsInv(s, w); }
        else if pc.ClaimTerminate? { ClaimTerminateKeepsInv(s, w); }
        else if pc.IssueTerminate? { IssueTerminateKeepsInv(s, w); }
      }
    case _ => EnvironmentKeepsInv(s, a);
  }

  lemma {:induction false} RunKeepsInv(s: World, run: seq<Action>)
    requires Inv(s)
    ensures Inv(Exec(s, run))
  {
    if run != [] {
      RunKeepsInv(s, run[..|run| - 1]);
      StepKeepsInv(Exec(s, run[..|run| - 1]), run[|run| - 1]);
    }
  }
}
