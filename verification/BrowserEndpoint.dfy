/** Authorization of one browser endpoint: activation, Stop and Revoke, and the path from an admitted mutation to the
  execute request, as a state machine.

  A step is a stretch of code between two awaits. What depends on hashes, clocks, leases and the alarm is a
  nondeterministic argument of the step; `BrowserDispatch` has the ledger's part of it. Stop, Revoke and expiry write
  the row by its id alone, so they are steps of their own that may come at any time.
*/
module BrowserEndpoint {
  import opened Common
  import opened EndpointState
  import opened IntentKeys

  datatype Phase = Preparing | Dispatched

  /** A mutation that waits in memory for its prepare result, or for its receipt. */
  datatype Pending = Pending(key: Key, generation: nat, revision: nat, socket: nat, phase: Phase)

  /** The durable part: the row of the ledger, bound at admission. `mark` says when that was. */
  datatype Prepared = Prepared(key: Key, generation: nat, revision: nat, mark: nat)

  /** A row of `activation_attempts`. `serial` counts insertions: an id may be used again after its row was deleted. */
  datatype Attempt = Attempt(serial: nat, existing: bool, stopEpoch: nat, verified: bool, consumed: bool)

  /** An `execute_request`: what it was admitted with, and the moment it went out. */
  datatype Send = Send(operation: nat, admitted: Prepared, state: Authorization, generation: nat, revision: nat,
                       mark: nat)

  /** An enabling commit: whose proof, which row it consumed, and what it found. */
  datatype Commit = Commit(proof: Attempt, consumed: nat, found: Authorization, stopEpoch: nat)

  datatype Pc =
    | MutateWaits(key: Key, generation: nat, revision: nat, socket: nat, mark: nat)
    | ExecuteWaits(operation: nat, key: Key, generation: nat, revision: nat)
    | BeginWaits(attempt: nat, existing: bool, stopEpoch: nat)
    | ProofWaits(attempt: nat, row: Attempt)
    | CredentialWaits(attempt: nat, row: Attempt, revision: nat)
    | AlarmWaits(attempt: nat, row: Attempt, revision: nat)
    | NewCredentialWaits(attempt: nat, row: Attempt)
    | Done

  datatype World = World(
    state: Authorization,
    generation: nat,
    revision: nat,
    stopEpoch: nat,
    changes: nat,                 // authorization changes so far
    sockets: map<nat, nat>,       // authenticated sockets and their generations
    admitting: Option<nat>,       // the caller that holds the admission reservation
    pending: map<nat, Pending>,
    prepared: map<nat, Prepared>,
    attempts: map<nat, Attempt>,
    workers: map<nat, Pc>,
    supply: nat,
    serials: nat,
    sends: seq<Send>,
    commits: seq<Commit>,
    created: nat)                 // endpoints that activation attempts created

  datatype Action =
    | CallMutate(worker: nat, key: Key, socket: nat, busy: bool)
    | CallPrepareResult(worker: nat, operation: nat, key: Key, socket: nat, recent: bool, accepted: bool)
    | Execute(worker: nat, token: bool, open: bool)
    | CallBegin(worker: nat, attempt: nat, existing: bool)
    | CallComplete(worker: nat, attempt: nat)
    | Resume(worker: nat, yes: bool)
    | Authorize(attempt: nat)
    | CancelAttempt(attempt: nat)
    | DropAttempt(attempt: nat)
    | Authenticate(socket: nat)
    | StopEnabled
    | StopAgain
    | Revoke
    | RevokeOnAlarmFailure
    | TerminateMutation(operation: nat)
    | Recreate

  function Go(s: World, w: nat, pc: Pc): World { s.(workers := s.workers[w := pc]) }

  // ---- mutate ----

  /** The checks of `/mutate` up to the admission; the reservation is taken. `busy` stands for an open read, or for a
    dispatching intent in the ledger. */
  function MutateCall(s: World, w: nat, key: Key, socket: nat, busy: bool): World {
    if s.state == Enabled && s.pending.Keys == {} && s.admitting == None && !busy &&
       socket in s.sockets && s.sockets[socket] == s.generation
    then Go(s.(admitting := Some(w)), w, MutateWaits(key, s.generation, s.revision, socket, s.changes))
    else Go(s, w, Done)
  }

  /** Behind the admission: recheck, bind, track, and send the prepare request. */
  function MutateStep(s: World, w: nat, key: Key, generation: nat, revision: nat, socket: nat, mark: nat,
                      accepted: bool): World {
    var released := s.(admitting := None);
    if accepted && s.state == Enabled && s.generation == generation && s.revision == revision
    then Go(released.(pending := s.pending[s.supply := Pending(key, generation, revision, socket, Preparing)],
                      prepared := s.prepared[s.supply := Prepared(key, generation, revision, mark)],
                      supply := s.supply + 1), w, Done)
    else Go(released, w, Done)
  }

  // ---- prepare_result and execute_request ----

  predicate MatchesPrepare(s: World, operation: nat, key: Key) {
    operation in s.prepared && s.prepared[operation].key == key &&
    s.prepared[operation].generation == s.generation && s.prepared[operation].revision == s.revision
  }

  /** A prepare result that is about a mutation which waits for it, on the current socket. */
  predicate Awaited(s: World, operation: nat, key: Key, socket: nat) {
    && s.state == Enabled && socket in s.sockets && s.sockets[socket] == s.generation
    && operation in s.pending && s.pending[operation].socket == socket &&
       s.pending[operation].generation == s.generation
    && s.pending[operation].phase == Preparing && s.pending[operation].key == key
  }

  /** `recent`: the binding is at most eight seconds old; `accepted`: the extension agreed, in the current form. */
  function PrepareResult(s: World, w: nat, operation: nat, key: Key, socket: nat, recent: bool, accepted: bool): World {
    if !Awaited(s, operation, key, socket) then Go(s, w, Done)
    else if !recent || !MatchesPrepare(s, operation, key) || !accepted
    then Go(s.(pending := s.pending - {operation}), w, Done)
    else Go(s, w, ExecuteWaits(operation, key, s.generation, s.revision))
  }

  function MarkDispatched(pending: map<nat, Pending>, operation: nat): (after: map<nat, Pending>)
    ensures after.Keys == pending.Keys
  {
    if operation in pending then pending[operation := pending[operation].(phase := Dispatched)] else pending
  }

  /** Behind the ledger's dispatch: with a token, the grant is checked once more before the request goes out. `open`
    is false when the socket is not, or its send throws. */
  function ExecuteStep(s: World, w: nat, operation: nat, generation: nat, revision: nat, token: bool,
                       open: bool): World {
    if !token || operation !in s.prepared || s.state != Enabled || s.generation != generation ||
      s.revision != revision || !open
    then Go(s.(pending := s.pending - {operation}), w, Done)
    else Go(s.(pending := MarkDispatched(s.pending, operation),
               sends := s.sends
                 + [Send(operation, s.prepared[operation], s.state, s.generation, s.revision, s.changes)]),
            w, Done)
  }

  // ---- activation ----

  /** `/activate-begin`: the stop epoch is read before the credential is hashed. */
  function AfterBegin(s: World, attempt: nat, existing: bool): Pc {
    if existing && s.state == Revoked then Done else BeginWaits(attempt, existing, s.stopEpoch)
  }

  function BeginStep(s: World, w: nat, attempt: nat, existing: bool, stopEpoch: nat, yes: bool): World {
    if yes && attempt !in s.attempts
    then Go(s.(attempts := s.attempts[attempt := Attempt(s.serials, existing, stopEpoch, false, false)],
               serials := s.serials + 1), w, Done)
    else Go(s, w, Done)
  }

  /** `/activate-complete` up to the hash of the proof. */
  function AfterRow(s: World, attempt: nat): Pc {
    if attempt in s.attempts && !s.attempts[attempt].consumed then ProofWaits(attempt, s.attempts[attempt]) else Done
  }

  /** Behind the hash of the proof: the row read before it decides, and the endpoint as it is now. */
  function AfterProof(s: World, attempt: nat, row: Attempt, yes: bool): Pc {
    if !yes || !row.verified then Done
    else if !row.existing then NewCredentialWaits(attempt, row)
    else if s.state == Revoked || s.stopEpoch != row.stopEpoch then Done
    else CredentialWaits(attempt, row, s.revision)
  }

  /** Behind the hash of the credential: the endpoint is read again. */
  function AfterCredential(s: World, attempt: nat, row: Attempt, revision: nat, yes: bool): Pc {
    if !yes || s.state == Revoked || s.stopEpoch != row.stopEpoch || s.revision != revision then Done
    else AlarmWaits(attempt, row, revision)
  }

  predicate Consumable(s: World, attempt: nat) {
    attempt in s.attempts && !s.attempts[attempt].consumed && s.attempts[attempt].verified
  }

  function Consume(s: World, attempt: nat): World
    requires attempt in s.attempts
  {
    s.(attempts := s.attempts[attempt := s.attempts[attempt].(consumed := true)])
  }

  /** Behind the alarm: consume the attempt, read the endpoint a third time, and enable it under its guard. */
  function CommitStep(s: World, w: nat, attempt: nat, row: Attempt, revision: nat, yes: bool): World {
    if !yes || !Consumable(s, attempt) then Go(s, w, Done)
    else
      var consumed := Consume(s, attempt);
      if s.state == Revoked || s.stopEpoch != row.stopEpoch || s.revision != revision then Go(consumed, w, Done)
      else Go(consumed.(state := Enabled, revision := s.revision + 1, changes := s.changes + 1,
                        commits := s.commits + [Commit(row, s.attempts[attempt].serial, s.state, s.stopEpoch)]), w,
                          Done)
  }

  /** Behind the hash of a new credential: consume the attempt and insert an enabled endpoint. */
  function CreateStep(s: World, w: nat, attempt: nat, row: Attempt, yes: bool): World {
    if !yes || !Consumable(s, attempt) then Go(s, w, Done)
    else Go(Consume(s, attempt).(created := s.created + 1,
              commits := s.commits + [Commit(row, s.attempts[attempt].serial, Enabled, 0)]), w, Done)
  }

  // ---- steps ----

  function ResumeStep(s: World, w: nat, pc: Pc, yes: bool): World {
    match pc
    case MutateWaits(key, generation, revision, socket, mark) =>
      MutateStep(s, w, key, generation, revision, socket, mark, yes)
    case BeginWaits(attempt, existing, stopEpoch) => BeginStep(s, w, attempt, existing, stopEpoch, yes)
    case ProofWaits(attempt, row) => Go(s, w, AfterProof(s, attempt, row, yes))
    case CredentialWaits(attempt, row, revision) => Go(s, w, AfterCredential(s, attempt, row, revision, yes))
    case AlarmWaits(attempt, row, revision) => CommitStep(s, w, attempt, row, revision, yes)
    case NewCredentialWaits(attempt, row) => CreateStep(s, w, attempt, row, yes)
    case _ => s
  }

  function Change(s: World, state: Authorization): World {
    s.(state := state, revision := s.revision + 1, changes := s.changes + 1)
  }

  /** The steps that are not about one caller. */
  function Other(s: World, a: Action): World {
    match a
    case Authorize(i) =>
      if i in s.attempts && !s.attempts[i].verified && !s.attempts[i].consumed
      then s.(attempts := s.attempts[i := s.attempts[i].(verified := true)]) else s
    case CancelAttempt(i) => if i in s.attempts then Consume(s, i) else s
    case DropAttempt(i) => s.(attempts := s.attempts - {i})
    case Authenticate(socket) =>
      if s.state == Enabled
      then s.(generation := s.generation + 1, sockets := map[socket := s.generation + 1], pending := map[]) else s
    case StopEnabled => Change(s, Stopped).(stopEpoch := s.stopEpoch + 1, pending := map[])
    case StopAgain => s.(stopEpoch := s.stopEpoch + 1, pending := map[])
    case Revoke => Change(s, Revoked).(pending := map[])
    case RevokeOnAlarmFailure => Change(s, Revoked).(stopEpoch := s.stopEpoch + 1, pending := map[])
    case TerminateMutation(o) => s.(pending := s.pending - {o})
    case Recreate => s.(pending := map[], workers := map[], admitting := None)
    case _ => s
  }

  function Apply(s: World, a: Action): World {
    match a
    case CallMutate(w, key, socket, busy) => if w in s.workers then s else MutateCall(s, w, key, socket, busy)
    case CallPrepareResult(w, operation, key, socket, recent, accepted) =>
      if w in s.workers then s else PrepareResult(s, w, operation, key, socket, recent, accepted)
    case Execute(w, token, open) =>
      if w in s.workers && s.workers[w].ExecuteWaits?
      then ExecuteStep(s, w, s.workers[w].operation, s.workers[w].generation, s.workers[w].revision, token, open) else s
    case CallBegin(w, attempt, existing) => if w in s.workers then s else Go(s, w, AfterBegin(s, attempt, existing))
    case CallComplete(w, attempt) => if w in s.workers then s else Go(s, w, AfterRow(s, attempt))
    case Resume(w, yes) => if w in s.workers then ResumeStep(s, w, s.workers[w], yes) else s
    case _ => Other(s, a)
  }

  function Exec(s: World, run: seq<Action>): World {
    if run == [] then s else Apply(Exec(s, run[..|run| - 1]), run[|run| - 1])
  }

  /** An endpoint as its activation inserts it. */
  function Inserted(): World {
    World(Enabled, 0, 1, 0, 0, map[], None, map[], map[], map[], map[], 0, 0, [], [], 0)
  }
}
