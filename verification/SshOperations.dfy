/** Receipts and connection leases of the SSH worker, as a state machine.

  A step is a stretch of code between two awaits. The claim of an operation, the marking of its row as running and the
  start of its dispatch are one such stretch, for a command, a change by SFTP and the start of a managed session
  alike; what the dispatch came to is another. A started session keeps the lease of its operation. Any storage
  statement may fail, and the object may be restarted at any moment.
*/
module SshOperations {
  import opened Common

  datatype Status = Admitted | Running | Completed | Failed | Unknown

  /** What a dispatch came to, and what is stored of it. */
  datatype Reply = Reply(status: Status, code: int)

  datatype Operation = Operation(digest: string, host: string, status: Status, result: Option<Reply>, created: int)

  /** A lease carries the id of an operation, or a random one. */
  datatype LeaseId = ForOperation(id: string) | ForRead(serial: nat)

  datatype Dispatch = Dispatch(id: string, time: int)

  datatype Answer =
    | StoreUnavailable
    | CapacityReached
    | ReceiptConflict
    | Replied(reply: Reply)
    | Pending(status: Status)
    | UnknownOutcome

  /** Who asks decides how an operation that has a row already is answered. */
  datatype Call = Command(legacy: string) | Change | Start

  /** `Scheduling`: the session is stored and live, and its alarm is not set yet. */
  datatype Pc =
    | Dispatching(id: string, digest: string)
    | Scheduling(id: string, digest: string)
    | Reading(lease: LeaseId)
    | Done(answer: Answer)

  datatype Desk = Desk(
    clock: int,
    operations: map<string, Operation>,
    leases: map<LeaseId, string>,
    sessions: set<string>,        // the operations whose sessions are connected
    unresolved: set<string>,      // operations whose outcome could not be stored at all
    workers: map<nat, Pc>,
    supply: nat,
    dispatches: seq<Dispatch>)

  datatype Fault = NoFault | ClaimFails | MarkFails(releaseFails: bool)

  /** What is stored after a dispatch: the reply; or, when that failed, that the outcome is unknown, or the state
    `unknown` alone, or nothing but a note in memory; or nothing. */
  datatype Receipt = Stored | Uncertain | StateOnly | Noted | Lost

  datatype Action =
    | Tick(ms: nat)
    | Execute(worker: nat, id: string, host: string, digest: string, call: Call, purge: set<string>, fault: Fault)
    | Finish(worker: nat, reply: Reply, receipt: Receipt, releaseFails: bool)
    | Establish(worker: nat, reply: Reply)
    | Scheduled(worker: nat, reply: Reply)
    | ScheduleFails(worker: nat, reply: Reply, receipt: Receipt, releaseFails: bool)
    | Settle(id: string, releaseFails: bool)
    | DropLease(lease: LeaseId)
    | Reserve(worker: nat, host: string)
    | EndRead(worker: nat, releaseFails: bool)
    | Restart

  const RETENTION := 2592000000
  const CLEANUP_BATCH := 50
  const HOST_LIMIT := 2
  const TOTAL_LIMIT := 4

  function Go(s: Desk, w: nat, pc: Pc): Desk { s.(workers := s.workers[w := pc]) }

  // ---- statements ----

  /** A row that a claim may prune. */
  predicate Prunable(o: Operation, now: int) {
    (o.status == Completed || o.status == Failed) && o.created <= now - RETENTION
  }

  /** Which of them go, and how many up to the limit, is left open. */
  predicate PrunedBatch(operations: map<string, Operation>, now: int, purge: set<string>) {
    |purge| <= CLEANUP_BATCH && forall k :: k in purge ==> k in operations && Prunable(operations[k], now)
  }

  function LeasesOn(leases: map<LeaseId, string>, host: string): set<LeaseId> {
    set l | l in leases && leases[l] == host
  }

  predicate HasRoom(leases: map<LeaseId, string>, host: string) {
    |leases| < TOTAL_LIMIT && |LeasesOn(leases, host)| < HOST_LIMIT
  }

  function Recovered(o: Operation): Operation {
    if o.status == Admitted || o.status == Running then o.(status := Unknown, result := None) else o
  }

  // ---- execute ----

  /** The answer to a call whose operation has a row already. */
  function AnswerExisting(o: Operation, digest: string, call: Call, unresolved: bool): Answer {
    match call
    case Command(legacy) =>
      if o.digest != digest && o.digest != legacy then ReceiptConflict
      else if o.result.Some? then Replied(o.result.value)
      else Pending(if o.status == Admitted then Unknown else o.status)
    case _ =>
      if o.digest != digest then ReceiptConflict
      else if unresolved || o.status == Unknown || o.status == Admitted then UnknownOutcome
      else if o.result.Some? then Replied(o.result.value)
      else if o.status == Running && call == Change then UnknownOutcome
      else Pending(o.status)
  }

  function Release(s: Desk, lease: LeaseId, fails: bool): Desk {
    if fails then s else s.(leases := s.leases - {lease})
  }

  /** The claim was granted: insert, mark, dispatch. */
  function Granted(s: Desk, w: nat, id: string, host: string, digest: string, fault: Fault): Desk {
    var row := Operation(digest, host, Admitted, None, s.clock);
    var claimed := s.(operations := s.operations[id := row], leases := s.leases[ForOperation(id) := host]);
    if fault.MarkFails? then Go(Release(claimed, ForOperation(id), fault.releaseFails), w, Done(StoreUnavailable))
    else Go(claimed.(operations := s.operations[id := row.(status := Running)],
                     dispatches := s.dispatches + [Dispatch(id, s.clock)]),
            w, Dispatching(id, digest))
  }

  function ExecuteStep(s: Desk, w: nat, id: string, host: string, digest: string, call: Call, purge: set<string>,
                       fault: Fault): Desk {
    var pruned := s.(operations := s.operations - purge);
    if fault.ClaimFails? then Go(s, w, Done(StoreUnavailable))
    else if id in pruned.operations
    then Go(pruned, w, Done(AnswerExisting(pruned.operations[id], digest, call, id in s.unresolved)))
    else if !HasRoom(s.leases, host) then Go(pruned, w, Done(CapacityReached))
    else if ForOperation(id) in s.leases then Go(s, w, Done(StoreUnavailable))
    else Granted(pruned, w, id, host, digest, fault)
  }

  predicate Reportable(st: Status) { st == Completed || st == Failed || st == Unknown }

  function Store(s: Desk, id: string, reply: Reply, receipt: Receipt): Desk {
    match receipt
    case Stored => SetRow(s, id, reply.status, Some(reply))
    case Uncertain => SetRow(s, id, Unknown, Some(Reply(Unknown, 0))).(unresolved := s.unresolved - {id})
    case StateOnly => SetRow(s, id, Unknown, ResultOf(s, id)).(unresolved := s.unresolved - {id})
    case Noted => s.(unresolved := s.unresolved + {id})
    case Lost => s
  }

  function ResultOf(s: Desk, id: string): Option<Reply> { if id in s.operations then s.operations[id].result else None }

  function SetRow(s: Desk, id: string, status: Status, result: Option<Reply>): Desk {
    if id !in s.operations then s
    else s.(operations := s.operations[id := s.operations[id].(status := status, result := result)])
  }

  /** The receipt and the lease, after the dispatch came back. */
  function FinishStep(s: Desk, w: nat, id: string, reply: Reply, receipt: Receipt, releaseFails: bool): Desk {
    Go(Release(Store(s, id, reply, receipt), ForOperation(id), releaseFails), w,
       Done(if receipt == Stored then Replied(reply) else UnknownOutcome))
  }

  // ---- managed sessions ----

  /** The session's row and the receipt are stored at once; the session is live, and keeps the lease. */
  function EstablishStep(s: Desk, w: nat, id: string, digest: string, reply: Reply): Desk {
    Go(SetRow(s, id, Completed, Some(reply)).(sessions := s.sessions + {id}), w, Scheduling(id, digest))
  }

  /** The alarm could not be set: the shell is closed, and the receipt is written once more. */
  function ScheduleFailsStep(s: Desk, w: nat, id: string, reply: Reply, receipt: Receipt, releaseFails: bool): Desk {
    FinishStep(s.(sessions := s.sessions - {id}), w, id, reply, receipt, releaseFails)
  }

  predicate Holds(pc: Pc, lease: LeaseId) { pc == Reading(lease) || (pc.Dispatching? && lease == ForOperation(pc.id)) }

  /** No connection has the lease: it was left behind. */
  ghost predicate Unheld(s: Desk, lease: LeaseId) {
    && (forall w :: w in s.workers ==> !Holds(s.workers[w], lease))
    && (lease.ForOperation? ==> lease.id !in s.sessions)
  }

  /** A receipt is younger than its retention. */
  predicate Young(s: Desk, id: string, ms: nat) {
    id in s.operations ==> s.clock + ms < s.operations[id].created + RETENTION
  }

  /** Alarms are set within thirty days of the claim. */
  ghost predicate InTime(s: Desk, ms: nat) {
    forall w :: w in s.workers && s.workers[w].Scheduling? ==> Young(s, s.workers[w].id, ms)
  }

  // ---- steps ----

  ghost function Apply(s: Desk, a: Action): Desk {
    match a
    case Tick(ms) => if InTime(s, ms) then s.(clock := s.clock + ms) else s
    case Execute(w, id, host, digest, call, purge, fault) =>
      if w in s.workers || !PrunedBatch(s.operations, s.clock, purge) then s
      else ExecuteStep(s, w, id, host, digest, call, purge, fault)
    case Finish(w, reply, receipt, releaseFails) =>
      if w in s.workers && s.workers[w].Dispatching? && Reportable(reply.status)
      then FinishStep(s, w, s.workers[w].id, reply, receipt, releaseFails) else s
    case Establish(w, reply) =>
      if w in s.workers && s.workers[w].Dispatching? && reply.status == Completed && Young(s, s.workers[w].id, 0)
      then EstablishStep(s, w, s.workers[w].id, s.workers[w].digest, reply) else s
    case Scheduled(w, reply) => if w in s.workers && s.workers[w].Scheduling? then Go(s, w, Done(Replied(reply))) else s
    case ScheduleFails(w, reply, receipt, releaseFails) =>
      if w in s.workers && s.workers[w].Scheduling? && reply.status == Failed
      then ScheduleFailsStep(s, w, s.workers[w].id, reply, receipt, releaseFails) else s
    case Settle(id, releaseFails) =>
      if id in s.sessions then Release(s.(sessions := s.sessions - {id}), ForOperation(id), releaseFails) else s
    case DropLease(lease) => if Unheld(s, lease) then Release(s, lease, false) else s
    case Reserve(w, host) =>
      if w in s.workers then s
      else if !HasRoom(s.leases, host) then Go(s, w, Done(CapacityReached))
      else Go(s.(leases := s.leases[ForRead(s.supply) := host], supply := s.supply + 1), w, Reading(ForRead(s.supply)))
    case EndRead(w, releaseFails) =>
      if w in s.workers && s.workers[w].Reading?
      then Go(Release(s, s.workers[w].lease, releaseFails), w, Done(Replied(Reply(Completed, 0)))) else s
    case Restart =>
      s.(operations := map k | k in s.operations :: Recovered(s.operations[k]), leases := map[], workers := map[],
         sessions := {}, unresolved := {})
  }

  ghost function Exec(s: Desk, run: seq<Action>): Desk {
    if run == [] then s else Apply(Exec(s, run[..|run| - 1]), run[|run| - 1])
  }

  function Empty(clock: int): Desk { Desk(clock, map[], map[], {}, {}, map[], 0, []) }
}
