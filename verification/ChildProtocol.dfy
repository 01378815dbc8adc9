/** The start and cancellation protocol of one awaited child run, as a state machine.

  The durable state is the child's row of `runs`, its parent's outcome and its row of
  `child_cancellations`. Any number of workers execute `startReservedAwaitedChild` and
  `cancelAwaitedChild`; one step of a worker is one SQL statement, one call to the native
  workflow engine, or the return of such a call. A worker that crashes, or whose statement
  loses its acknowledgement, is a worker that takes no further step. A native call may take
  effect at any time after it was issued, also after its caller saw it throw.
*/
module ChildProtocol {

  datatype StartState = Reserved | Creating | Dispatching | StartUnknown | Started
                      | CancelledBeforeStart | NativeCancelled

  datatype Outcome = Queued | Running | Succeeded | Failed | Cancelled | Indeterminate

  /** The row of `child_cancellations`: absent, present, or present with `termination_attempted_at` set. */
  datatype Intent = NoIntent | Requested | TerminateClaimed

  datatype Db = Db(
    start: StartState,
    outcome: Outcome,
    intent: Intent,
    parentRunning: bool)

  /** What no statement of the protocol changes. */
  datatype Child = Child(id: string, createdAt: int, instanceMatches: bool, unitWeight: bool, awaitedInPlan: bool)

  datatype Native = Absent | Live | Completed | Errored | Terminated

  datatype Answer =
    // startReservedAwaitedChild
    | SaysStarted | SaysStartUnknown | SaysIndeterminate | SaysCancelledBeforeStart | NotAuthorized
    // cancelAwaitedChild
    | CancelNotFound | AlreadyTerminal | RequestedUnverified | TerminalConfirmed | WasCancelledBeforeStart

  /** Program counters. `nested` marks a cancellation called from `reconcileCancellation`. */
  datatype Pc =
    | ReadRow(now: int)
    | ClaimCreating(now: int)
    | ReadAfterLostClaim
    | Observe(now: int, seen: StartState)
    | Expire(now: int, unknown: bool)
    | ClaimDispatch
    | ReadAfterLostDispatch
    | Abandon
    | IssueCreate
    | AwaitCreate
    | CatchCreate
    | ObserveAfterCatch
    | MarkStarted
    | CheckIntent
    | CancelRead(nested: bool)
    | CancelEarly(nested: bool)
    | RecordIntent(nested: bool)
    | ReadIntent(nested: bool)
    | ReadWithoutIntent(nested: bool)
    | GetStatus(nested: bool)
    | SaveTerminated(nested: bool)
    | ReadSaved(nested: bool)
    | ClaimTerminate(nested: bool)
    | IssueTerminate(nested: bool)
    | AwaitTerminate(nested: bool)
    | StatusAfter(nested: bool)
    | SaveTerminatedAfter(nested: bool)
    | Done(answer: Answer)

  /** A native call that was issued: by which worker, for which instance. */
  datatype Call = Call(worker: nat, instance: string)

  datatype World = World(
    child: Child,
    db: Db,
    native: Native,
    workers: map<nat, Pc>,
    claims: seq<nat>,       // winners of the dispatch claim, in order
    creates: seq<Call>,     // native create() calls issued, in order
    terminates: seq<Call>,  // native terminate() calls issued by cancelAwaitedChild, in order
    foreignCancel: bool)    // some other entry point wrote outcome 'cancelled', and may go on to terminate()

  /** What the engine replies to a worker. Ignored at steps that do not consult the engine. */
  datatype Reply = Silent | Ok | Throws | Found | Missing | IsTerminated | IsEnded | IsActive | CannotTerminate

  datatype Action =
    | Spawn(worker: nat, pc: Pc)
    | Work(worker: nat, reply: Reply)
    | CreateLands(worker: nat)
    | TerminateLands(worker: nat)
    | InstanceEnds(errored: bool)
    | RunnerBegins
    | RunnerRefuses
    | RunnerFinishes(outcome: Outcome)
    | Settle
    | ForeignCancel
    | ForeignTerminate
    | ParentEnds

  const TEN_MINUTES := 600000

  predicate Unfinished(o: Outcome) { o == Queued || o == Running }

  /** No statement has yet passed the native dispatch fence. */
  predicate BeforeFence(s: StartState) { s == Reserved || s == Creating || s == CancelledBeforeStart }

  function Init(child: Child): World {
    World(child, Db(Reserved, Queued, NoIntent, true), Absent, map[], [], [], [], false)
  }

  function Go(s: World, w: nat, pc: Pc): World { s.(workers := s.workers[w := pc]) }

  /** Where a cancellation returns to: its caller, or `reconcileCancellation`, which ignores the answer. */
  function Return(nested: bool, answer: Answer): Pc { if nested then Done(SaysStarted) else Done(answer) }

  // ---- SQL statements of the two functions ----

  function SqlClaimCreating(d: Db): Db {
    if d.start == Reserved && d.outcome == Queued && d.parentRunning then d.(start := Creating) else d
  }

  function SqlExpire(d: Db, unknown: bool): Db {
    if d.outcome == Queued &&
      (if unknown then d.start == StartUnknown else d.start == Creating || d.start == Dispatching)
    then d.(outcome := Indeterminate) else d
  }

  predicate DispatchAllowed(d: Db) {
    (d.start == Creating || d.start == StartUnknown) && d.outcome == Queued && d.intent == NoIntent && d.parentRunning
  }

  function SqlClaimDispatch(d: Db): Db {
    if DispatchAllowed(d) then d.(start := Dispatching) else d
  }

  function SqlAbandon(d: Db): Db {
    if d.start == Creating && d.outcome == Queued && d.intent != NoIntent
    then d.(start := CancelledBeforeStart, outcome := Cancelled) else d
  }

  function SqlStartUnknown(d: Db): Db {
    if d.start == Dispatching && Unfinished(d.outcome) then d.(start := StartUnknown) else d
  }

  function SqlMarkStarted(d: Db): Db {
    if (d.start == Creating || d.start == Dispatching || d.start == StartUnknown) && Unfinished(d.outcome)
    then d.(start := Started) else d
  }

  function SqlCancelEarly(d: Db): Db {
    if (d.start == Reserved || d.start == Creating) && d.outcome == Queued
    then d.(start := CancelledBeforeStart, outcome := Cancelled) else d
  }

  function SqlRecordIntent(d: Db): Db {
    if d.intent == NoIntent && (d.start == Dispatching || d.start == StartUnknown || d.start == Started) &&
       Unfinished(d.outcome)
    then d.(intent := Requested) else d
  }

  function SqlSaveTerminated(d: Db): Db {
    if Unfinished(d.outcome) && d.intent != NoIntent
    then d.(outcome := Cancelled, start := NativeCancelled) else d
  }

  function SqlClaimTerminate(d: Db): Db {
    if d.intent == Requested then d.(intent := TerminateClaimed) else d
  }

  // ---- decisions of startReservedAwaitedChild ----

  /** The joined read of child and parent, and the decisions taken on it. */
  function AfterReadRow(c: Child, d: Db, now: int): Pc {
    if d.outcome == Cancelled && d.start == CancelledBeforeStart then Done(SaysCancelledBeforeStart)
    else if !Unfinished(d.outcome) then Done(SaysStarted)
    else if !d.parentRunning || !c.unitWeight || !c.instanceMatches ||
            d.start == CancelledBeforeStart || d.start == NativeCancelled then Done(NotAuthorized)
    else if d.start == Started then CheckIntent
    else if d.start == Reserved then ClaimCreating(now)
    else Observe(now, d.start)
  }

  function AfterObserve(c: Child, now: int, seen: StartState, reply: Reply): Pc {
    if reply == Found then MarkStarted
    else if reply != Missing then Done(SaysStartUnknown)
    else if seen == Creating || seen == Dispatching then
      if now - c.createdAt >= TEN_MINUTES then Expire(now, false) else Done(SaysStartUnknown)
    else if now - c.createdAt >= TEN_MINUTES then Expire(now, true)
    else ClaimDispatch
  }

  function AfterLostDispatch(d: Db): Pc {
    if d.outcome == Cancelled && d.start == CancelledBeforeStart then Done(SaysCancelledBeforeStart)
    else if d.start == Creating then Abandon
    else Done(SaysStartUnknown)
  }

  // ---- decisions of cancelAwaitedChild ----

  function AfterCancelRead(c: Child, d: Db, nested: bool): Pc {
    if !c.awaitedInPlan then Return(nested, CancelNotFound)
    else if d.outcome == Cancelled then
      Return(nested, if d.start == CancelledBeforeStart then WasCancelledBeforeStart else TerminalConfirmed)
    else if !Unfinished(d.outcome) then Return(nested, AlreadyTerminal)
    else if !c.instanceMatches then Return(nested, CancelNotFound)
    else if d.start == Reserved || d.start == Creating then CancelEarly(nested)
    else RecordIntent(nested)
  }

  function AfterReadWithoutIntent(d: Db, nested: bool): Pc {
    if d.outcome == Cancelled && d.start == CancelledBeforeStart then Return(nested, WasCancelledBeforeStart)
    else if !Unfinished(d.outcome) then Return(nested, AlreadyTerminal)
    else Return(nested, RequestedUnverified)
  }

  /** A status reply that the engine can give: an answered lookup means the instance exists. */
  predicate PossibleStatus(n: Native, reply: Reply) {
    match reply
    case IsTerminated => n == Terminated
    case IsEnded => n == Completed || n == Errored
    case IsActive => n != Absent
    case CannotTerminate => n != Absent
    case _ => true
  }

  function AfterGetStatus(nested: bool, reply: Reply): Pc {
    match reply
    case IsTerminated => SaveTerminated(nested)
    case IsEnded => Return(nested, AlreadyTerminal)
    case IsActive => ClaimTerminate(nested)
    case _ => Return(nested, RequestedUnverified)
  }

  // ---- one step of a worker ----

  /** Steps that read the database or hear from the engine, and change nothing but the worker. */
  predicate ReadsOnly(pc: Pc) {
    pc.ReadRow? || pc.ReadAfterLostClaim? || pc.Observe? || pc.ReadAfterLostDispatch? || pc.AwaitCreate? ||
    pc.ObserveAfterCatch? || pc.CheckIntent? || pc.CancelRead? || pc.ReadIntent? || pc.ReadWithoutIntent? ||
    pc.GetStatus? || pc.ReadSaved? || pc.AwaitTerminate? || pc.StatusAfter?
  }

  /** Where a read leads. A reply the engine cannot give leaves the worker waiting. */
  function AfterReading(c: Child, d: Db, n: Native, pc: Pc, reply: Reply): Pc {
    match pc
    case ReadRow(now) => AfterReadRow(c, d, now)
    case ReadAfterLostClaim => Done(if d.outcome == Cancelled then SaysCancelledBeforeStart else SaysStartUnknown)
    case Observe(now, seen) => if reply == Found && n == Absent then pc else AfterObserve(c, now, seen, reply)
    case ReadAfterLostDispatch => AfterLostDispatch(d)
    case AwaitCreate =>
      if reply == Throws then CatchCreate else if reply == Ok && n != Absent then MarkStarted else pc
    case ObserveAfterCatch =>
      if reply == Found && n == Absent then pc
      else if reply == Found then MarkStarted else Done(SaysStartUnknown)
    case CheckIntent => if d.intent != NoIntent then CancelRead(true) else Done(SaysStarted)
    case CancelRead(nested) => AfterCancelRead(c, d, nested)
    case ReadIntent(nested) => if d.intent == NoIntent then ReadWithoutIntent(nested) else GetStatus(nested)
    case ReadWithoutIntent(nested) => AfterReadWithoutIntent(d, nested)
    case GetStatus(nested) => if PossibleStatus(n, reply) then AfterGetStatus(nested, reply) else pc
    case ReadSaved(nested) => Return(nested, if d.outcome == Cancelled then TerminalConfirmed else RequestedUnverified)
    case AwaitTerminate(nested) => StatusAfter(nested)
    case StatusAfter(nested) =>
      if !PossibleStatus(n, reply) then pc
      else if reply == IsTerminated then SaveTerminatedAfter(nested) else Return(nested, RequestedUnverified)
    case _ => pc
  }

  /** A guarded UPDATE or INSERT, or the issuing of a native call. */
  function Statement(s: World, w: nat, pc: Pc): World {
    var d := s.db;
    match pc
    case ClaimCreating(now) =>
      Go(s.(db := SqlClaimCreating(d)), w, if SqlClaimCreating(d) != d then ClaimDispatch else ReadAfterLostClaim)
    case Expire(_, unknown) => Go(s.(db := SqlExpire(d, unknown)), w, Done(SaysIndeterminate))
    case ClaimDispatch =>
      if DispatchAllowed(d) then Go(s.(db := SqlClaimDispatch(d), claims := s.claims + [w]), w, IssueCreate)
      else Go(s, w, ReadAfterLostDispatch)
    case Abandon =>
      Go(s.(db := SqlAbandon(d)), w, Done(if SqlAbandon(d) != d then SaysCancelledBeforeStart else SaysStartUnknown))
    case IssueCreate => Go(s.(creates := s.creates + [Call(w, s.child.id)]), w, AwaitCreate)
    case CatchCreate => Go(s.(db := SqlStartUnknown(d)), w, ObserveAfterCatch)
    case MarkStarted => Go(s.(db := SqlMarkStarted(d)), w, CheckIntent)
    case CancelEarly(nested) =>
      Go(s.(db := SqlCancelEarly(d)), w,
         if SqlCancelEarly(d) != d then Return(nested, WasCancelledBeforeStart) else RecordIntent(nested))
    case RecordIntent(nested) => Go(s.(db := SqlRecordIntent(d)), w, ReadIntent(nested))
    case SaveTerminated(nested) => Go(s.(db := SqlSaveTerminated(d)), w, ReadSaved(nested))
    case ClaimTerminate(nested) =>
      Go(s.(db := SqlClaimTerminate(d)), w,
         if SqlClaimTerminate(d) != d then IssueTerminate(nested) else StatusAfter(nested))
    case IssueTerminate(nested) =>
      Go(s.(terminates := s.terminates + [Call(w, s.child.id)]), w, AwaitTerminate(nested))
    case SaveTerminatedAfter(nested) => Go(s.(db := SqlSaveTerminated(d)), w, Return(nested, TerminalConfirmed))
    case _ => s
  }

  // ---- the environment ----

  /** Steps of everything that is not a worker: the engine, the native runner, and other entry points. */
  function Environment(s: World, a: Action): World {
    var d := s.db;
    match a
    case CreateLands(w) =>
      if s.native == Absent && Call(w, s.child.id) in s.creates then s.(native := Live) else s
    case TerminateLands(w) =>
      if s.native == Live && Call(w, s.child.id) in s.terminates then s.(native := Terminated) else s
    case InstanceEnds(errored) =>
      if s.native == Live then s.(native := if errored then Errored else Completed) else s
    case RunnerBegins =>
      if s.native != Absent && d.outcome == Queued && d.intent == NoIntent then s.(db := d.(outcome := Running)) else s
    case RunnerRefuses =>
      if s.native != Absent && d.outcome == Queued && d.intent != NoIntent then s.(db := d.(outcome := Failed)) else s
    case RunnerFinishes(o) =>
      if d.outcome == Running && (o == Succeeded || o == Failed || o == Indeterminate)
      then s.(db := d.(outcome := o)) else s
    case Settle =>
      if d.start == Started && Unfinished(d.outcome) then s.(db := d.(outcome := Indeterminate)) else s
    case ForeignCancel =>
      if Unfinished(d.outcome) then s.(db := d.(outcome := Cancelled), foreignCancel := true) else s
    case ForeignTerminate => if s.foreignCancel && s.native == Live then s.(native := Terminated) else s
    case ParentEnds => s.(db := d.(parentRunning := false))
    case _ => s
  }

  function Apply(s: World, a: Action): World {
    match a
    case Spawn(w, pc) =>
      if w !in s.workers && (pc.ReadRow? || pc == CancelRead(false)) then Go(s, w, pc) else s
    case Work(w, reply) =>
      if w !in s.workers then s
      else if ReadsOnly(s.workers[w]) then Go(s, w, AfterReading(s.child, s.db, s.native, s.workers[w], reply))
      else Statement(s, w, s.workers[w])
    case _ => Environment(s, a)
  }

  /** The state after a run; every sequence of actions is a run, an action that cannot happen does nothing. */
  function Exec(s: World, run: seq<Action>): World {
    if run == [] then s else Apply(Exec(s, run[..|run| - 1]), run[|run| - 1])
  }
}
