/** The start of a detached child run: one claim, one native create, in any run of any number of workers. */
module DetachedChild {
  import opened ChildProtocol

  /** The child's row. `rejected` says that its error code is `detached_parent_not_active`. */
  datatype Row = Row(start: StartState, outcome: Outcome, rejected: bool, parentRunning: bool)

  datatype Result = StartedResult | UnknownResult | IndeterminateResult | RejectedResult | Refused

  datatype Point =
    | Read(now: int)
    | Look(now: int)
    | ExpireRow
    | AbandonRow
    | Claim
    | Create
    | Wait
    | Catch
    | LookAgain
    | Mark
    | Persisted
    | Returned(result: Result)

  datatype System = System(
    child: Child,
    row: Row,
    native: Native,
    workers: map<nat, Point>,
    claims: seq<nat>,
    creates: seq<nat>)

  datatype Event =
    | Call(worker: nat, now: int)
    | Step(worker: nat, reply: Reply)
    | Lands
    | Begins
    | Ends(outcome: Outcome)
    | Settles
    | CancelledElsewhere
    | ParentStops

  function Reservation(child: Child): System {
    System(child, Row(Reserved, Queued, false, true), Absent, map[], [], [])
  }

  predicate InFlight(s: StartState) { s == Dispatching || s == StartUnknown }

  /** Outcomes with which a start may still be confirmed. */
  predicate Confirmable(o: Outcome) { o == Queued || o == Running || o == Succeeded || o == Failed }

  function SqlClaim(r: Row): Row {
    if r.start == Reserved && r.outcome == Queued && r.parentRunning then r.(start := Dispatching) else r
  }

  function SqlAbandonReserved(r: Row): Row {
    if r.start == Reserved && r.outcome == Queued then r.(outcome := Failed, rejected := true) else r
  }

  function SqlExpireRow(r: Row): Row {
    if InFlight(r.start) && r.outcome == Queued then r.(outcome := Indeterminate) else r
  }

  function SqlMark(r: Row): Row {
    if InFlight(r.start) && Confirmable(r.outcome) then r.(start := Started) else r
  }

  function SqlCatch(r: Row): Row {
    if r.start == Dispatching && Unfinished(r.outcome) then r.(start := StartUnknown) else r
  }

  function AfterRead(c: Child, r: Row, now: int): Point {
    if !c.instanceMatches || !c.unitWeight then Returned(Refused)
    else if r.start == Started then Returned(StartedResult)
    else if r.start != Reserved then
      if !InFlight(r.start) || !Confirmable(r.outcome) then Returned(IndeterminateResult) else Look(now)
    else if !r.parentRunning then AbandonRow
    else Claim
  }

  /** `persistedStart`: what a worker answers whose own UPDATE changed nothing. */
  function PersistedResult(r: Row): Result {
    if r.start == Started && Confirmable(r.outcome) then StartedResult
    else if r.start == Reserved && r.outcome == Failed && r.rejected then RejectedResult
    else if r.outcome == Indeterminate || r.outcome == Cancelled then IndeterminateResult
    else UnknownResult
  }

  function Move(s: System, w: nat, p: Point): System { s.(workers := s.workers[w := p]) }

  function Update(s: System, w: nat, row: Row, changed: Point, missed: Point): System {
    Move(s.(row := row), w, if row != s.row then changed else missed)
  }

  function WorkerStep(s: System, w: nat, p: Point, reply: Reply): System {
    match p
    case Read(now) => Move(s, w, AfterRead(s.child, s.row, now))
    case Look(now) =>
      if reply == Found then if s.native == Absent then s else Move(s, w, Mark)
      else Move(s, w, if now - s.child.createdAt >= TEN_MINUTES then ExpireRow else Returned(UnknownResult))
    case ExpireRow => Update(s, w, SqlExpireRow(s.row), Returned(IndeterminateResult), Persisted)
    case AbandonRow => Update(s, w, SqlAbandonReserved(s.row), Returned(RejectedResult), Persisted)
    case Claim =>
      if SqlClaim(s.row) != s.row then Move(s.(row := SqlClaim(s.row), claims := s.claims + [w]), w, Create)
      else Move(s, w, Returned(UnknownResult))
    case Create => Move(s.(creates := s.creates + [w]), w, Wait)
    case Wait =>
      if reply == Throws then Move(s, w, Catch)
      else if reply == Ok && s.native != Absent then Move(s, w, Mark)
      else s
    case Catch => Move(s.(row := SqlCatch(s.row)), w, LookAgain)
    case LookAgain =>
      if reply == Found then if s.native == Absent then s else Move(s, w, Mark)
      else Move(s, w, Returned(UnknownResult))
    case Mark => Update(s, w, SqlMark(s.row), Returned(StartedResult), Persisted)
    case Persisted => Move(s, w, Returned(PersistedResult(s.row)))
    case Returned(_) => s
  }

  function Happen(s: System, e: Event): System {
    match e
    case Call(w, now) => if w in s.workers then s else Move(s, w, Read(now))
    case Step(w, reply) => if w in s.workers then WorkerStep(s, w, s.workers[w], reply) else s
    case Lands => if s.native == Absent && s.creates != [] then s.(native := Live) else s
    case Begins =>
      if s.native != Absent && s.row.outcome == Queued then s.(row := s.row.(outcome := Running)) else s
    case Ends(o) =>
      if s.row.outcome == Running && (o == Succeeded || o == Failed || o == Indeterminate)
      then s.(row := s.row.(outcome := o)) else s
    case Settles =>
      if s.row.start == Started && Unfinished(s.row.outcome) then s.(row := s.row.(outcome := Indeterminate)) else s
    case CancelledElsewhere => if Unfinished(s.row.outcome) then s.(row := s.row.(outcome := Cancelled)) else s
    case ParentStops => s.(row := s.row.(parentRunning := false))
  }

  function History(s: System, events: seq<Event>): System {
    if events == [] then s else Happen(History(s, events[..|events| - 1]), events[|events| - 1])
  }

  ghost predicate PointOk(s: System, w: nat, p: Point) {
    && (p == Create ==> s.claims == [w] && s.creates == [])
    && (p == Mark || p == Returned(StartedResult) ==> s.native != Absent)
    && (p == Returned(RejectedResult) ==> s.row.start == Reserved && s.row.outcome == Failed)
    && (p == Returned(IndeterminateResult) ==> s.row.outcome == Indeterminate || s.row.outcome == Cancelled)
    && (p == Returned(Refused) ==> !s.child.instanceMatches || !s.child.unitWeight)
    && (!p.Read? && p != Returned(Refused) ==> s.child.instanceMatches && s.child.unitWeight)
  }

  predicate StoreOk(s: System) {
    && (s.row.start == Reserved || s.row.start == Dispatching || s.row.start == StartUnknown || s.row.start == Started)
    && (s.row.start == Reserved <==> s.claims == [])
    && |s.claims| <= 1 && s.creates <= s.claims
    && (s.native != Absent ==> s.creates != [])
    && (s.row.start == Started ==> s.native != Absent)
    && (s.row.outcome == Running ==> s.native != Absent)
  }

  ghost predicate Consistent(s: System) {
    && StoreOk(s)
    && (forall w :: w in s.workers ==> PointOk(s, w, s.workers[w]))
  }

  /** What a later state keeps of an earlier one. */
  ghost predicate Kept(s: System, t: System) {
    && t.child == s.child && s.claims <= t.claims && s.creates <= t.creates
    && (!Unfinished(s.row.outcome) ==> t.row.outcome == s.row.outcome && t.claims == s.claims)
    && (s.row.outcome != Queued ==> t.row.outcome != Queued && t.claims == s.claims)
  }

  lemma StepKeepsStore(s: System, w: nat, p: Point, reply: Reply)
    requires StoreOk(s) && PointOk(s, w, p) && w in s.workers && s.workers[w] == p
    ensures var t := WorkerStep(s, w, p, reply);
            StoreOk(t) && Kept(s, t) && w in t.workers && t.workers == s.workers[w := t.workers[w]] &&
              PointOk(t, w, t.workers[w])
  {
  }

  lemma StepKeepsOther(s: System, w: nat, p: Point, reply: Reply, v: nat, q: Point)
    requires StoreOk(s) && PointOk(s, w, p) && PointOk(s, v, q) && v != w
    ensures PointOk(WorkerStep(s, w, p, reply), v, q)
  {
  }

  lemma WorkerStepOk(s: System, w: nat, reply: Reply)
    requires Consistent(s) && w in s.workers
    ensures var t := WorkerStep(s, w, s.workers[w], reply); Consistent(t) && Kept(s, t)
  {
    var t := WorkerStep(s, w, s.workers[w], reply);
    StepKeepsStore(s, w, s.workers[w], reply);
    forall v | v in s.workers && v != w ensures PointOk(t, v, s.workers[v]) {
      StepKeepsOther(s, w, s.workers[w], reply, v, s.workers[v]);
    }
  }

  lemma {:induction false} HistoryOk(s: System, events: seq<Event>)
    requires Consistent(s)
    ensures Consistent(History(s, events)) && Kept(s, History(s, events))
  {
    if events != [] {
      HistoryOk(s, events[..|events| - 1]);
      var last := History(s, events[..|events| - 1]);
      match events[|events| - 1]
      case Step(w, reply) => if w in last.workers { WorkerStepOk(last, w, reply); }
      case _ =>
    }
  }

  /** `create()` is called at most once in any run, by the winner of the only claim there ever is. */
  lemma CreateAtMostOnce(child: Child, events: seq<Event>)
    ensures var s := History(Reservation(child), events);
            |s.creates| <= |s.claims| <= 1 && s.creates <= s.claims && (s.native != Absent ==> |s.creates| == 1)
  {
    HistoryOk(Reservation(child), events);
  }

  /** Every `started` answer is about an instance that exists; every `rejected` answer is about a child that was never
    created and, in every future, never will be; `indeterminate` is about a row that says so, or was cancelled; and a
    call is refused exactly for a row that is not a detached child's. */
  lemma AnswersAreTrue(child: Child, events: seq<Event>, w: nat, later: seq<Event>)
    requires w in History(Reservation(child), events).workers
    ensures var s := History(Reservation(child), events); var t := History(s, later);
            && (s.workers[w] == Returned(StartedResult) ==> s.native != Absent)
            && (s.workers[w] == Returned(RejectedResult) ==>
                  t.creates == [] && t.native == Absent && t.row.outcome == Failed)
            && (s.workers[w] == Returned(IndeterminateResult) ==> t.row.outcome in {Indeterminate, Cancelled})
            && (s.workers[w].Returned? ==>
                  (s.workers[w].result == Refused <==> !child.instanceMatches || !child.unitWeight))
  {
    HistoryOk(Reservation(child), events);
    var s := History(Reservation(child), events);
    assert PointOk(s, w, s.workers[w]);
    HistoryOk(s, later);
  }

  /** No claim is won, and so nothing is created anew, once the outcome has left `queued`. */
  lemma NoClaimAfterQueued(child: Child, events: seq<Event>, later: seq<Event>)
    requires History(Reservation(child), events).row.outcome != Queued
    ensures var s := History(Reservation(child), events); History(s, later).claims == s.claims
  {
    HistoryOk(Reservation(child), events);
    HistoryOk(History(Reservation(child), events), later);
  }
}
