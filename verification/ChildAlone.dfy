/** What a call comes to that is left alone: a reference for the two functions, by the row that they find.

  However many others have moved before, from some await on everyone but worker `w` rests, the engine answers
  truthfully, and what is issued lands. The tables below are written from the row and the instance, without a word of
  the program's own decisions; the lemmas say that the program, wherever it was overtaken, ends as they say.
*/
module ChildAlone {
  import opened ChildProtocol
  import opened ChildSafety
  import opened ChildTheorems
  import opened ChildMisreports

  /** The engine's truthful reply to what a worker waits for. */
  function Honest(n: Native, pc: Pc): Reply {
    match pc
    case Observe(_, _) => if n == Absent then Missing else Found
    case ObserveAfterCatch => if n == Absent then Missing else Found
    case AwaitCreate => if n == Absent then Throws else Ok
    case GetStatus(_) => HonestStatus(n)
    case StatusAfter(_) => HonestStatus(n)
    case _ => Silent
  }

  function HonestStatus(n: Native): Reply {
    match n
    case Absent => Throws
    case Live => IsActive
    case Terminated => IsTerminated
    case _ => IsEnded
  }

  /** One step of `w`, and the landing of what it issues. */
  function Turn(s: World, w: nat): World
    requires w in s.workers
  {
    var t := Apply(s, Work(w, Honest(s.native, s.workers[w])));
    if s.workers[w].IssueCreate? then Apply(t, CreateLands(w))
    else if s.workers[w].IssueTerminate? then Apply(t, TerminateLands(w))
    else t
  }

  function Alone(s: World, w: nat, n: nat): World
    requires w in s.workers
    decreases n
  {
    if n == 0 then s else Alone(Turn(s, w), w, n - 1)
  }

  // ---- the reference ----

  /** The answer, and the row and instance that remain. */
  datatype End = End(answer: Answer, db: Db, native: Native)

  ghost predicate EndsAs(s: World, w: nat, n: nat, end: End) {
    w in s.workers && var t := Alone(s, w, n); At(t, w, Done(end.answer)) && t.db == end.db && t.native == end.native
  }

  /** `cancelAwaitedChild` on a row past the dispatch fence, or on one that a starter has just stored as started. */
  function Requests(d: Db, n: Native): End {
    var intent := if d.intent == NoIntent then Requested else d.intent;
    match n
    case Absent => End(RequestedUnverified, d.(intent := intent), n)
    case Terminated => End(TerminalConfirmed, Db(NativeCancelled, Cancelled, intent, d.parentRunning), n)
    case Live =>
      if intent == Requested
      then End(TerminalConfirmed, Db(NativeCancelled, Cancelled, TerminateClaimed, d.parentRunning), Terminated)
      else End(RequestedUnverified, d, n)
    case _ => End(AlreadyTerminal, d.(intent := intent), n)
  }

  /** The whole of `cancelAwaitedChild`. */
  function Cancels(c: Child, d: Db, n: Native): End {
    if !c.awaitedInPlan then End(CancelNotFound, d, n)
    else if d.outcome == Cancelled then
      End(if d.start == CancelledBeforeStart then WasCancelledBeforeStart else TerminalConfirmed, d, n)
    else if d.outcome in {Succeeded, Failed, Indeterminate} then End(AlreadyTerminal, d, n)
    else if !c.instanceMatches then End(CancelNotFound, d, n)
    else if d.start in {Reserved, Creating}
    then End(WasCancelledBeforeStart, d.(start := CancelledBeforeStart, outcome := Cancelled), n)
    else Requests(d, n)
  }

  /** The row of a child that is there: a stored intent is carried out. */
  function Reconciles(c: Child, d: Db, n: Native): End {
    if d.intent == NoIntent then End(SaysStarted, d, n) else Cancels(c, d, n).(answer := SaysStarted)
  }

  function Creates(d: Db): End { End(SaysStarted, d.(start := Started), Live) }

  /** The whole of `startReservedAwaitedChild`. */
  function Starts(c: Child, d: Db, n: Native, now: int): End {
    if d.outcome in {Succeeded, Failed, Cancelled, Indeterminate}
    then End(if d.start == CancelledBeforeStart then SaysCancelledBeforeStart else SaysStarted, d, n)
    else if !d.parentRunning || !c.unitWeight || !c.instanceMatches then End(NotAuthorized, d, n)
    else if n != Absent then Reconciles(c, d.(start := Started), n)
    else if d.start == Reserved then Creates(d)
    else if now - c.createdAt >= 600000 then End(SaysIndeterminate, d.(outcome := Indeterminate), n)
    else if d.start == StartUnknown && d.intent == NoIntent then Creates(d)
    else End(SaysStartUnknown, d, n)
  }

  predicate Dispatchable(d: Db) {
    d.start in {Creating, StartUnknown} && d.outcome == Queued && d.intent == NoIntent && d.parentRunning
  }

  /** The dispatch claim was lost. */
  function Lost(d: Db, n: Native): End {
    End(if d.start == CancelledBeforeStart then SaysCancelledBeforeStart else SaysStartUnknown, d, n)
  }

  /** A starter that was overtaken before its dispatch claim. */
  function Dispatches(d: Db, n: Native): End {
    if Dispatchable(d) then End(SaysStarted, d.(start := Started), if n == Absent then Live else n) else Lost(d, n)
  }

  /** A starter that was overtaken before its first claim. */
  function Claims(d: Db, n: Native): End {
    if d.start == Reserved && d.outcome == Queued && d.parentRunning then Creates(d)
    else End(if d.outcome == Cancelled then SaysCancelledBeforeStart else SaysStartUnknown, d, n)
  }

  // ---- one turn after the other ----

  /** What a nested cancellation comes to: its caller answers `started`. */
  function Within(nested: bool, end: End): End { if nested then end.(answer := SaysStarted) else end }

  lemma LandingOk(s: World, a: Action)
    requires Inv(s) && (a.CreateLands? || a.TerminateLands?)
    ensures Inv(Apply(s, a)) && Apply(s, a).child == s.child && Apply(s, a).workers == s.workers
  {
    StepKeepsInv(s, a);
  }

  lemma StatementStays(s: World, w: nat, pc: Pc)
    requires w in s.workers
    ensures Statement(s, w, pc).child == s.child && w in Statement(s, w, pc).workers
  {
  }

  lemma WorkStays(s: World, w: nat, reply: Reply)
    requires w in s.workers
    ensures var t := Apply(s, Work(w, reply)); t.child == s.child && w in t.workers
  {
    if !ReadsOnly(s.workers[w]) { StatementStays(s, w, s.workers[w]); }
  }

  lemma WorkOk(s: World, w: nat, a: Action)
    requires Inv(s) && w in s.workers && a.Work? && a.worker == w
    ensures var t := Apply(s, a); Inv(t) && t.child == s.child && w in t.workers
  {
    StepKeepsInv(s, a);
    WorkStays(s, w, a.reply);
  }

  lemma TurnOk(s: World, w: nat)
    requires Inv(s) && w in s.workers
    ensures Inv(Turn(s, w)) && w in Turn(s, w).workers && Turn(s, w).child == s.child
  {
    var t := Apply(s, Work(w, Honest(s.native, s.workers[w])));
    WorkOk(s, w, Work(w, Honest(s.native, s.workers[w])));
    if s.workers[w].IssueCreate? { LandingOk(t, CreateLands(w)); }
    else if s.workers[w].IssueTerminate? { LandingOk(t, TerminateLands(w)); }
  }

  /** `w` is at `pc`, with this row and this instance. */
  ghost predicate Stands(s: World, w: nat, c: Child, pc: Pc, d: Db, n: Native) {
    s.child == c && At(s, w, pc) && s.db == d && s.native == n
  }

  ghost predicate Leads(s: World, w: nat, pc: Pc, d: Db, n: Native)
    requires w in s.workers
  {
    Stands(Turn(s, w), w, s.child, pc, d, n)
  }

  lemma Step(s: World, w: nat, n: nat, end: End)
    requires w in s.workers && w in Turn(s, w).workers && EndsAs(Turn(s, w), w, n, end)
    ensures EndsAs(s, w, n + 1, end)
  {
  }

  lemma LastStep(s: World, w: nat, end: End)
    requires w in s.workers && Leads(s, w, Done(end.answer), end.db, end.native)
    ensures EndsAs(s, w, 1, end)
  {
    assert Alone(Turn(s, w), w, 0) == Turn(s, w);
    Step(s, w, 0, end);
  }

  /** From `t` the call ends as from `s`, one turn sooner. */
  ghost predicate Follows(s: World, w: nat, t: World) {
    forall n: nat, end: End :: EndsAs(t, w, n, end) ==> EndsAs(s, w, n + 1, end)
  }

  lemma TurnFollows(s: World, w: nat)
    requires Inv(s) && w in s.workers
    ensures Inv(Turn(s, w)) && Follows(s, w, Turn(s, w))
  {
    TurnOk(s, w);
    var t := Turn(s, w);
    forall m: nat, end: End | EndsAs(t, w, m, end) ensures EndsAs(s, w, m + 1, end) { Step(s, w, m, end); }
  }

  lemma Turns(s: World, w: nat, pc: Pc, d: Db, n: Native) returns (t: World)
    requires Inv(s) && w in s.workers && Leads(s, w, pc, d, n)
    ensures Inv(t) && Stands(t, w, s.child, pc, d, n) && Follows(s, w, t)
  {
    TurnFollows(s, w);
    t := Turn(s, w);
  }

  // ---- cancelAwaitedChild ----

  lemma ReadsSaved(s: World, w: nat, nested: bool) returns (n: nat)
    requires Inv(s) && At(s, w, ReadSaved(nested))
    ensures EndsAs(s, w, n, Within(nested,
              End(if s.db.outcome == Cancelled then TerminalConfirmed else RequestedUnverified, s.db, Terminated)))
  {
    assert WorkerOk(s, w, s.workers[w]);
    LastStep(s, w, Within(nested,
      End(if s.db.outcome == Cancelled then TerminalConfirmed else RequestedUnverified, s.db, Terminated)));
    n := 1;
  }

  /** The row once the instance was seen terminated. */
  function Terminates(d: Db): Db {
    if d.outcome in {Queued, Running} then d.(start := NativeCancelled, outcome := Cancelled) else d
  }

  lemma SavesTerminated(s: World, w: nat, nested: bool) returns (n: nat)
    requires Inv(s) && At(s, w, SaveTerminated(nested))
    ensures EndsAs(s, w, n, Within(nested,
              End(if Terminates(s.db).outcome == Cancelled then TerminalConfirmed else RequestedUnverified,
                  Terminates(s.db), Terminated)))
  {
    assert WorkerOk(s, w, s.workers[w]);
    var t := Turns(s, w, ReadSaved(nested), Terminates(s.db), Terminated);
    n := ReadsSaved(t, w, nested);
    n := n + 1;
  }

  lemma SavesAfter(s: World, w: nat, nested: bool) returns (n: nat)
    requires Inv(s) && At(s, w, SaveTerminatedAfter(nested))
    ensures EndsAs(s, w, n, Within(nested, End(TerminalConfirmed, Terminates(s.db), Terminated)))
  {
    assert WorkerOk(s, w, s.workers[w]);
    LastStep(s, w, Within(nested, End(TerminalConfirmed, Terminates(s.db), Terminated)));
    n := 1;
  }

  /** Behind the termination claim. */
  function Looks(d: Db, n: Native): End {
    if n == Terminated then End(TerminalConfirmed, Terminates(d), n) else End(RequestedUnverified, d, n)
  }

  lemma LooksAfter(s: World, w: nat, nested: bool) returns (n: nat)
    requires Inv(s) && At(s, w, StatusAfter(nested))
    ensures EndsAs(s, w, n, Within(nested, Looks(s.db, s.native)))
  {
    if s.native == Terminated { n := LooksTerminated(s, w, nested); }
    else {
      LastStep(s, w, Within(nested, Looks(s.db, s.native)));
      n := 1;
    }
  }

  lemma LooksTerminated(s: World, w: nat, nested: bool) returns (n: nat)
    requires Inv(s) && At(s, w, StatusAfter(nested)) && s.native == Terminated
    ensures EndsAs(s, w, n, Within(nested, Looks(s.db, s.native)))
  {
    var t := Turns(s, w, SaveTerminatedAfter(nested), s.db, Terminated);
    n := SavesAfter(t, w, nested);
    n := n + 1;
  }

  lemma Awaits(s: World, w: nat, nested: bool) returns (n: nat)
    requires Inv(s) && At(s, w, AwaitTerminate(nested))
    ensures EndsAs(s, w, n, Within(nested, Looks(s.db, s.native)))
  {
    var t := Turns(s, w, StatusAfter(nested), s.db, s.native);
    n := LooksAfter(t, w, nested);
    n := n + 1;
  }

  /** The winner of the termination claim: a live instance terminates. */
  function Ended(n: Native): Native { if n == Live then Terminated else n }

  lemma IssueLeads(s: World, w: nat, nested: bool)
    requires Inv(s) && At(s, w, IssueTerminate(nested))
    ensures Leads(s, w, AwaitTerminate(nested), s.db, Ended(s.native))
  {
  }

  lemma Issues(s: World, w: nat, nested: bool) returns (n: nat)
    requires Inv(s) && At(s, w, IssueTerminate(nested))
    ensures EndsAs(s, w, n, Within(nested, Looks(s.db, Ended(s.native))))
  {
    IssueLeads(s, w, nested);
    var t := Turns(s, w, AwaitTerminate(nested), s.db, Ended(s.native));
    n := Awaits(t, w, nested);
    n := n + 1;
  }

  /** From the termination claim on. */
  function Claimed(d: Db, n: Native): End {
    if d.intent == Requested then Looks(d.(intent := TerminateClaimed), Ended(n))
    else Looks(d, n)
  }

  lemma WinsTermination(s: World, w: nat, nested: bool) returns (n: nat)
    requires Inv(s) && At(s, w, ClaimTerminate(nested)) && s.db.intent == Requested
    ensures EndsAs(s, w, n, Within(nested, Claimed(s.db, s.native)))
  {
    var t := Turns(s, w, IssueTerminate(nested), s.db.(intent := TerminateClaimed), s.native);
    n := Issues(t, w, nested);
    n := n + 1;
  }

  lemma LosesTermination(s: World, w: nat, nested: bool) returns (n: nat)
    requires Inv(s) && At(s, w, ClaimTerminate(nested)) && s.db.intent != Requested
    ensures EndsAs(s, w, n, Within(nested, Claimed(s.db, s.native)))
  {
    var t := Turns(s, w, StatusAfter(nested), s.db, s.native);
    n := LooksAfter(t, w, nested);
    n := n + 1;
  }

  lemma ClaimsTermination(s: World, w: nat, nested: bool) returns (n: nat)
    requires Inv(s) && At(s, w, ClaimTerminate(nested))
    ensures EndsAs(s, w, n, Within(nested, Claimed(s.db, s.native)))
  {
    if s.db.intent == Requested { n := WinsTermination(s, w, nested); } else { n := LosesTermination(s, w, nested); }
  }

  /** With the intent stored, on a row that may have become final meanwhile. */
  function Inspects(d: Db, n: Native): End {
    match n
    case Absent => End(RequestedUnverified, d, n)
    case Terminated =>
      End(if Terminates(d).outcome == Cancelled then TerminalConfirmed else RequestedUnverified, Terminates(d), n)
    case Live => Claimed(d, n)
    case _ => End(AlreadyTerminal, d, n)
  }

  lemma StatusTerminated(s: World, w: nat, nested: bool) returns (n: nat)
    requires Inv(s) && At(s, w, GetStatus(nested)) && s.native == Terminated
    ensures EndsAs(s, w, n, Within(nested, Inspects(s.db, s.native)))
  {
    var t := Turns(s, w, SaveTerminated(nested), s.db, s.native);
    n := SavesTerminated(t, w, nested);
    n := n + 1;
  }

  lemma StatusLive(s: World, w: nat, nested: bool) returns (n: nat)
    requires Inv(s) && At(s, w, GetStatus(nested)) && s.native == Live
    ensures EndsAs(s, w, n, Within(nested, Claimed(s.db, s.native)))
  {
    var t := Turns(s, w, ClaimTerminate(nested), s.db, s.native);
    n := ClaimsTermination(t, w, nested);
    n := n + 1;
  }

  lemma GetsStatus(s: World, w: nat, nested: bool) returns (n: nat)
    requires Inv(s) && At(s, w, GetStatus(nested))
    ensures EndsAs(s, w, n, Within(nested, Inspects(s.db, s.native)))
  {
    if s.native == Terminated { n := StatusTerminated(s, w, nested); }
    else if s.native == Live { n := StatusLive(s, w, nested); }
    else {
      LastStep(s, w, Within(nested, Inspects(s.db, s.native)));
      n := 1;
    }
  }

  /** Behind the insertion of the intent. */
  function Resolves(d: Db, n: Native): End {
    if d.intent != NoIntent then Inspects(d, n)
    else if d.start == CancelledBeforeStart then End(WasCancelledBeforeStart, d, n)
    else if d.outcome in {Queued, Running} then End(RequestedUnverified, d, n)
    else End(AlreadyTerminal, d, n)
  }

  lemma ReadsIntent(s: World, w: nat, nested: bool) returns (n: nat)
    requires Inv(s) && At(s, w, ReadIntent(nested))
    ensures EndsAs(s, w, n, Within(nested, Resolves(s.db, s.native)))
  {
    if s.db.intent != NoIntent { n := FindsIntent(s, w, nested); } else { n := FindsNone(s, w, nested); }
  }

  lemma FindsIntent(s: World, w: nat, nested: bool) returns (n: nat)
    requires Inv(s) && At(s, w, ReadIntent(nested)) && s.db.intent != NoIntent
    ensures EndsAs(s, w, n, Within(nested, Inspects(s.db, s.native)))
  {
    var t := Turns(s, w, GetStatus(nested), s.db, s.native);
    n := GetsStatus(t, w, nested);
    n := n + 1;
  }

  lemma FindsNone(s: World, w: nat, nested: bool) returns (n: nat)
    requires Inv(s) && At(s, w, ReadIntent(nested)) && s.db.intent == NoIntent
    ensures EndsAs(s, w, n, Within(nested, Resolves(s.db, s.native)))
  {
    var t := Turns(s, w, ReadWithoutIntent(nested), s.db, s.native);
    n := ReadsAgain(t, w, nested);
    n := n + 1;
  }

  lemma ReadsAgain(s: World, w: nat, nested: bool) returns (n: nat)
    requires Inv(s) && At(s, w, ReadWithoutIntent(nested)) && s.db.intent == NoIntent
    ensures EndsAs(s, w, n, Within(nested, Resolves(s.db, s.native)))
  {
    LastStep(s, w, Within(nested, Resolves(s.db, s.native)));
    n := 1;
  }

  /** An intent is stored for a child that may have been created and is not over. */
  function Stored(d: Db): Db {
    if d.intent == NoIntent && d.start in {Dispatching, StartUnknown, Started} && d.outcome in {Queued, Running}
    then d.(intent := Requested) else d
  }

  lemma RecordsIntent(s: World, w: nat, nested: bool) returns (n: nat)
    requires Inv(s) && At(s, w, RecordIntent(nested))
    ensures EndsAs(s, w, n, Within(nested, Resolves(Stored(s.db), s.native)))
  {
    var t := Turns(s, w, ReadIntent(nested), Stored(s.db), s.native);
    n := ReadsIntent(t, w, nested);
    n := n + 1;
  }

  /** A cancellation that read the row before the dispatch fence. */
  function Stops(d: Db, n: Native): End {
    if d.start in {Reserved, Creating} && d.outcome == Queued
    then End(WasCancelledBeforeStart, d.(start := CancelledBeforeStart, outcome := Cancelled), n)
    else Resolves(Stored(d), n)
  }

  lemma StopsEarly(s: World, w: nat, nested: bool)
    requires Inv(s) && At(s, w, CancelEarly(nested)) && s.db.start in {Reserved, Creating} && s.db.outcome == Queued
    ensures EndsAs(s, w, 1, Within(nested, Stops(s.db, s.native)))
  {
    LastStep(s, w, Within(nested, Stops(s.db, s.native)));
  }

  lemma ComesLate(s: World, w: nat, nested: bool) returns (n: nat)
    requires Inv(s) && At(s, w, CancelEarly(nested)) && !(s.db.start in {Reserved, Creating} && s.db.outcome == Queued)
    ensures EndsAs(s, w, n, Within(nested, Stops(s.db, s.native)))
  {
    var t := Turns(s, w, RecordIntent(nested), s.db, s.native);
    n := RecordsIntent(t, w, nested);
    n := n + 1;
  }

  lemma CancelsEarly(s: World, w: nat, nested: bool) returns (n: nat)
    requires Inv(s) && At(s, w, CancelEarly(nested))
    ensures EndsAs(s, w, n, Within(nested, Stops(s.db, s.native)))
  {
    if s.db.start in {Reserved, Creating} && s.db.outcome == Queued {
      StopsEarly(s, w, nested);
      n := 1;
    } else { n := ComesLate(s, w, nested); }
  }

  lemma CancelFenced(s: World, w: nat, nested: bool) returns (n: nat)
    requires Inv(s) && At(s, w, CancelRead(nested)) && s.child.awaitedInPlan && s.child.instanceMatches
    requires s.db.outcome in {Queued, Running} && s.db.start !in {Reserved, Creating}
    ensures EndsAs(s, w, n, Within(nested, Requests(s.db, s.native)))
  {
    var t := Turns(s, w, RecordIntent(nested), s.db, s.native);
    n := RecordsIntent(t, w, nested);
    RequestsResolve(s.db, s.native);
    n := n + 1;
  }

  lemma CancelUnfenced(s: World, w: nat, nested: bool) returns (n: nat)
    requires Inv(s) && At(s, w, CancelRead(nested)) && s.child.awaitedInPlan && s.child.instanceMatches
    requires s.db.outcome in {Queued, Running} && s.db.start in {Reserved, Creating}
    ensures EndsAs(s, w, n, Within(nested, Stops(s.db, s.native))) && s.db.outcome == Queued
  {
    var t := Turns(s, w, CancelEarly(nested), s.db, s.native);
    n := CancelsEarly(t, w, nested);
    n := n + 1;
  }

  lemma CancelEnds(s: World, w: nat, nested: bool)
    requires At(s, w, CancelRead(nested))
    requires !s.child.awaitedInPlan || !s.child.instanceMatches || s.db.outcome !in {Queued, Running}
    ensures EndsAs(s, w, 1, Within(nested, Cancels(s.child, s.db, s.native)))
  {
    LastStep(s, w, Within(nested, Cancels(s.child, s.db, s.native)));
  }

  /** `cancelAwaitedChild`, on any row that a run reaches. */
  lemma CancelAlone(s: World, w: nat, nested: bool) returns (n: nat)
    requires Inv(s) && At(s, w, CancelRead(nested))
    ensures EndsAs(s, w, n, Within(nested, Cancels(s.child, s.db, s.native)))
  {
    if !s.child.awaitedInPlan || !s.child.instanceMatches || s.db.outcome !in {Queued, Running} {
      CancelEnds(s, w, nested);
      n := 1;
    }
    else if s.db.start in {Reserved, Creating} { n := CancelUnfenced(s, w, nested); }
    else { n := CancelFenced(s, w, nested); }
  }

  lemma RequestsResolve(d: Db, n: Native)
    requires d.outcome in {Queued, Running} && d.start in {Dispatching, StartUnknown, Started}
    ensures Resolves(Stored(d), n) == Requests(d, n)
  {
  }

  // ---- startReservedAwaitedChild ----

  lemma ChecksIntent(s: World, w: nat) returns (n: nat)
    requires Inv(s) && At(s, w, CheckIntent)
    ensures EndsAs(s, w, n, Reconciles(s.child, s.db, s.native))
  {
    if s.db.intent == NoIntent {
      LastStep(s, w, Reconciles(s.child, s.db, s.native));
      n := 1;
    } else {
      var t := Turns(s, w, CancelRead(true), s.db, s.native);
      n := CancelAlone(t, w, true);
      n := n + 1;
    }
  }

  function MarksStarted(d: Db): Db {
    if d.start in {Creating, Dispatching, StartUnknown} && d.outcome in {Queued, Running} then d.(start := Started)
    else d
  }

  lemma Marks(s: World, w: nat) returns (n: nat)
    requires Inv(s) && At(s, w, MarkStarted)
    ensures EndsAs(s, w, n, Reconciles(s.child, MarksStarted(s.db), s.native))
  {
    var t := Turns(s, w, CheckIntent, MarksStarted(s.db), s.native);
    n := ChecksIntent(t, w);
    n := n + 1;
  }

  /** The look behind a `create()` that threw. */
  lemma LooksOnce(s: World, w: nat) returns (n: nat)
    requires Inv(s) && At(s, w, ObserveAfterCatch)
    ensures EndsAs(s, w, n, if s.native == Absent then End(SaysStartUnknown, s.db, s.native)
                            else Reconciles(s.child, MarksStarted(s.db), s.native))
  {
    if s.native == Absent {
      LastStep(s, w, End(SaysStartUnknown, s.db, s.native));
      n := 1;
    } else {
      var t := Turns(s, w, MarkStarted, s.db, s.native);
      n := Marks(t, w);
      n := n + 1;
    }
  }

  /** A `create()` that threw: what it came to is looked up, and the start stored as unknown till then. */
  lemma Catches(s: World, w: nat) returns (n: nat)
    requires Inv(s) && At(s, w, CatchCreate)
    ensures var d := if s.db.start == Dispatching && s.db.outcome in {Queued, Running} then s.db.(start := StartUnknown)
                     else s.db;
            EndsAs(s, w, n, if s.native == Absent then End(SaysStartUnknown, d, s.native)
                            else Reconciles(s.child, MarksStarted(d), s.native))
  {
    var d := if s.db.start == Dispatching && s.db.outcome in {Queued, Running} then s.db.(start := StartUnknown)
             else s.db;
    var t := Turns(s, w, ObserveAfterCatch, d, s.native);
    n := LooksOnce(t, w);
    n := n + 1;
  }

  lemma AwaitsCreate(s: World, w: nat) returns (n: nat)
    requires Inv(s) && At(s, w, AwaitCreate) && s.native != Absent
    ensures EndsAs(s, w, n, Reconciles(s.child, MarksStarted(s.db), s.native))
  {
    var t := Turns(s, w, MarkStarted, s.db, s.native);
    n := Marks(t, w);
    n := n + 1;
  }

  lemma CreatesInstance(s: World, w: nat) returns (n: nat)
    requires Inv(s) && At(s, w, IssueCreate)
    ensures EndsAs(s, w, n, Reconciles(s.child, MarksStarted(s.db), if s.native == Absent then Live else s.native))
  {
    var after := if s.native == Absent then Live else s.native;
    var t := Turns(s, w, AwaitCreate, s.db, after);
    n := AwaitsCreate(t, w);
    n := n + 1;
  }

  lemma WinsDispatch(s: World, w: nat) returns (n: nat)
    requires Inv(s) && At(s, w, ClaimDispatch) && Dispatchable(s.db)
    ensures EndsAs(s, w, n, Dispatches(s.db, s.native))
  {
    var t := Turns(s, w, IssueCreate, s.db.(start := Dispatching), s.native);
    n := CreatesInstance(t, w);
    n := n + 1;
  }

  lemma LosesDispatch(s: World, w: nat) returns (n: nat)
    requires Inv(s) && At(s, w, ClaimDispatch) && !Dispatchable(s.db)
    ensures EndsAs(s, w, n, Lost(s.db, s.native))
  {
    var t := Turns(s, w, ReadAfterLostDispatch, s.db, s.native);
    n := ReadsLost(t, w);
    n := n + 1;
  }

  /** A starter overtaken before its dispatch claim, by whatever there is. */
  lemma DispatchAlone(s: World, w: nat) returns (n: nat)
    requires Inv(s) && At(s, w, ClaimDispatch)
    ensures EndsAs(s, w, n, Dispatches(s.db, s.native))
  {
    if Dispatchable(s.db) { n := WinsDispatch(s, w); } else { n := LosesDispatch(s, w); }
  }

  lemma ReadsLost(s: World, w: nat) returns (n: nat)
    requires Inv(s) && At(s, w, ReadAfterLostDispatch)
    ensures EndsAs(s, w, n, Lost(s.db, s.native))
  {
    if s.db.start == Creating {
      var t := Turns(s, w, Abandon, s.db, s.native);
      AbandonsNothing(t, w);
      Step(s, w, 1, Lost(s.db, s.native));
      n := 2;
    } else {
      LastStep(s, w, Lost(s.db, s.native));
      n := 1;
    }
  }

  lemma AbandonsNothing(s: World, w: nat)
    requires Inv(s) && At(s, w, Abandon) && s.db.start == Creating
    ensures EndsAs(s, w, 1, Lost(s.db, s.native))
  {
    LastStep(s, w, Lost(s.db, s.native));
  }

  lemma ReadsOutcome(s: World, w: nat) returns (n: nat)
    requires Inv(s) && At(s, w, ReadAfterLostClaim)
    ensures EndsAs(s, w, n,
                   End(if s.db.outcome == Cancelled then SaysCancelledBeforeStart else SaysStartUnknown,
                       s.db, s.native))
  {
    LastStep(s, w, End(if s.db.outcome == Cancelled then SaysCancelledBeforeStart else SaysStartUnknown,
                       s.db, s.native));
    n := 1;
  }

  /** A starter overtaken before its first claim. */
  lemma ClaimAlone(s: World, w: nat, now: int) returns (n: nat)
    requires Inv(s) && At(s, w, ClaimCreating(now))
    ensures EndsAs(s, w, n, Claims(s.db, s.native))
  {
    if s.db.start == Reserved && s.db.outcome == Queued && s.db.parentRunning { n := WinsClaim(s, w, now); }
    else { n := LosesClaim(s, w, now); }
  }

  lemma WinsClaim(s: World, w: nat, now: int) returns (n: nat)
    requires Inv(s) && At(s, w, ClaimCreating(now))
    requires s.db.start == Reserved && s.db.outcome == Queued && s.db.parentRunning
    ensures EndsAs(s, w, n, Creates(s.db))
  {
    var t := Turns(s, w, ClaimDispatch, s.db.(start := Creating), s.native);
    n := DispatchAlone(t, w);
    n := n + 1;
  }

  lemma LosesClaim(s: World, w: nat, now: int) returns (n: nat)
    requires Inv(s) && At(s, w, ClaimCreating(now))
    requires s.db.start != Reserved || s.db.outcome != Queued || !s.db.parentRunning
    ensures EndsAs(s, w, n, Claims(s.db, s.native))
  {
    var t := Turns(s, w, ReadAfterLostClaim, s.db, s.native);
    n := ReadsOutcome(t, w);
    n := n + 1;
  }

  /** After ten minutes without an instance. */
  function Expires(d: Db, n: Native, unknown: bool): End {
    End(SaysIndeterminate,
        if d.outcome == Queued && (if unknown then d.start == StartUnknown else d.start in {Creating, Dispatching})
        then d.(outcome := Indeterminate) else d, n)
  }

  lemma ExpiresAlone(s: World, w: nat, now: int, unknown: bool) returns (n: nat)
    requires Inv(s) && At(s, w, Expire(now, unknown))
    ensures EndsAs(s, w, n, Expires(s.db, s.native, unknown))
  {
    LastStep(s, w, Expires(s.db, s.native, unknown));
    n := 1;
  }

  /** A start that was read as undecided, and is looked up. */
  function Resumes(c: Child, d: Db, n: Native, now: int, seen: StartState): End {
    if n != Absent then Reconciles(c, MarksStarted(d), n)
    else if now - c.createdAt >= 600000 then Expires(d, n, seen == StartUnknown)
    else if seen == StartUnknown then Dispatches(d, n)
    else End(SaysStartUnknown, d, n)
  }

  lemma ResumeFound(s: World, w: nat, now: int, seen: StartState) returns (n: nat)
    requires Inv(s) && At(s, w, Observe(now, seen)) && s.native != Absent
    ensures EndsAs(s, w, n, Reconciles(s.child, MarksStarted(s.db), s.native))
  {
    var t := Turns(s, w, MarkStarted, s.db, s.native);
    n := Marks(t, w);
    n := n + 1;
  }

  lemma ResumeExpired(s: World, w: nat, now: int, seen: StartState) returns (n: nat)
    requires Inv(s) && At(s, w, Observe(now, seen)) && seen in {Creating, Dispatching, StartUnknown}
    requires s.native == Absent && now - s.child.createdAt >= 600000
    ensures EndsAs(s, w, n, Expires(s.db, s.native, seen == StartUnknown))
  {
    var t := Turns(s, w, Expire(now, seen == StartUnknown), s.db, s.native);
    n := ExpiresAlone(t, w, now, seen == StartUnknown);
    n := n + 1;
  }

  lemma ResumeUnknown(s: World, w: nat, now: int) returns (n: nat)
    requires Inv(s) && At(s, w, Observe(now, StartUnknown)) && s.native == Absent && now - s.child.createdAt < 600000
    ensures EndsAs(s, w, n, Dispatches(s.db, s.native))
  {
    var t := Turns(s, w, ClaimDispatch, s.db, s.native);
    n := DispatchAlone(t, w);
    n := n + 1;
  }

  lemma ResumeUndecided(s: World, w: nat, now: int, seen: StartState) returns (n: nat)
    requires Inv(s) && At(s, w, Observe(now, seen)) && (seen == Creating || seen == Dispatching)
    requires s.native == Absent && now - s.child.createdAt < 600000
    ensures EndsAs(s, w, n, End(SaysStartUnknown, s.db, s.native))
  {
    LastStep(s, w, End(SaysStartUnknown, s.db, s.native));
    n := 1;
  }

  lemma ResumeAlone(s: World, w: nat, now: int, seen: StartState) returns (n: nat)
    requires Inv(s) && At(s, w, Observe(now, seen)) && seen in {Creating, Dispatching, StartUnknown}
    ensures EndsAs(s, w, n, Resumes(s.child, s.db, s.native, now, seen))
  {
    if s.native != Absent { n := ResumeFound(s, w, now, seen); }
    else if now - s.child.createdAt >= 600000 { n := ResumeExpired(s, w, now, seen); }
    else if seen == StartUnknown { n := ResumeUnknown(s, w, now); }
    else { n := ResumeUndecided(s, w, now, seen); }
  }

  predicate Open(s: World) {
    s.db.outcome in {Queued, Running} && s.db.parentRunning && s.child.unitWeight && s.child.instanceMatches
  }

  lemma OpenReserved(s: World, w: nat, now: int) returns (n: nat)
    requires Inv(s) && At(s, w, ReadRow(now)) && Open(s) && s.db.start == Reserved
    ensures EndsAs(s, w, n, Claims(s.db, s.native))
  {
    var t := Turns(s, w, ClaimCreating(now), s.db, s.native);
    n := ClaimAlone(t, w, now);
    n := n + 1;
  }

  lemma OpenStarted(s: World, w: nat, now: int) returns (n: nat)
    requires Inv(s) && At(s, w, ReadRow(now)) && Open(s) && s.db.start == Started
    ensures EndsAs(s, w, n, Reconciles(s.child, s.db, s.native))
  {
    var t := Turns(s, w, CheckIntent, s.db, s.native);
    n := ChecksIntent(t, w);
    n := n + 1;
  }

  lemma OpenUndecided(s: World, w: nat, now: int) returns (n: nat)
    requires Inv(s) && At(s, w, ReadRow(now)) && Open(s) && s.db.start in {Creating, Dispatching, StartUnknown}
    ensures EndsAs(s, w, n, Resumes(s.child, s.db, s.native, now, s.db.start))
  {
    var t := Turns(s, w, Observe(now, s.db.start), s.db, s.native);
    n := ResumeAlone(t, w, now, s.db.start);
    n := n + 1;
  }

  lemma ReadsOpen(s: World, w: nat, now: int) returns (n: nat)
    requires Inv(s) && At(s, w, ReadRow(now)) && Open(s)
    ensures EndsAs(s, w, n, Starts(s.child, s.db, s.native, now))
  {
    StartsOpen(s, now);
    if s.db.start == Reserved { n := OpenReserved(s, w, now); }
    else if s.db.start == Started { n := OpenStarted(s, w, now); }
    else { n := OpenUndecided(s, w, now); }
  }

  /** On an open row the reference follows the point that the row leads to. */
  lemma StartsOpen(s: World, now: int)
    requires RowOk(s)
    requires Open(s)
    ensures Starts(s.child, s.db, s.native, now) ==
            match s.db.start
            case Reserved => Claims(s.db, s.native)
            case Started => Reconciles(s.child, s.db, s.native)
            case _ => Resumes(s.child, s.db, s.native, now, s.db.start)
  {
  }

  /** `startReservedAwaitedChild`, on any row that a run reaches. */
  lemma StartAlone(s: World, w: nat, now: int) returns (n: nat)
    requires Inv(s) && At(s, w, ReadRow(now))
    ensures EndsAs(s, w, n, Starts(s.child, s.db, s.native, now))
  {
    if Open(s) {
      n := ReadsOpen(s, w, now);
    } else {
      LastStep(s, w, Starts(s.child, s.db, s.native, now));
      n := 1;
    }
  }
}
