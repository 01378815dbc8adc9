/** The durable ledger of browser intents, as a state machine.

  A step is a stretch of code between two awaits: its reads and writes of the table are atomic.
  Every `await` is followed by a step of its own, and until then anything else may happen, the
  recreation of the Durable Object included. The clock never runs backwards; a caller's `now` may be
  older than the clock by the awaits since it was taken, at most by `slack`.
*/
module IntentLedger {
  import opened Common
  import opened IntentKeys

  datatype State = Admitted | PendingApproval | Denied | Dispatching | Unknown | OwnerResolved
                 | Completed | Failed | Expired

  /** SHA-256, as an injection. */
  datatype Digest = Sha(token: nat)

  datatype Row = Row(
    operation: nat,
    commitment: nat,
    state: State,
    generation: Option<int>,
    revision: Option<int>,
    hash: Option<Digest>,
    created: int,
    updated: int,
    tab: Option<int>)

  type Table = map<Key, Row>

  const SEVEN_DAYS := 604800000
  const FIVE_MINUTES := 300000
  const HALF_MINUTE := 30000
  const EIGHT_SECONDS := 8000
  const MAX_UNKNOWN := 100

  // ---- statements ----

  predicate Terminal(st: State) { st == Completed || st == Failed || st == Expired || st == Denied }

  /** The deletion of `sweep`. */
  predicate Deletable(r: Row, now: int) { Terminal(r.state) && r.updated < now - SEVEN_DAYS }

  function ExpireRow(r: Row, now: int): Row {
    if r.state == Admitted && r.created < now - FIVE_MINUTES then r.(state := Expired, updated := now) else r
  }

  function SweepRows(rows: Table, now: int): Table {
    map k | k in rows && !Deletable(rows[k], now) :: ExpireRow(rows[k], now)
  }

  function ReconcileRow(r: Row, now: int): Row {
    if r.state == Dispatching && r.updated < now - EIGHT_SECONDS then r.(state := Unknown, updated := now)
    else if r.state == Admitted && r.generation.Some? && r.updated < now - EIGHT_SECONDS
    then r.(state := Failed, updated := now)
    else r
  }

  function ReconcileRows(rows: Table, now: int): Table { map k | k in rows :: ReconcileRow(rows[k], now) }

  /** `recoverUnknown` and `retirePendingApprovals`. */
  function RecoverRow(r: Row, now: int): Row {
    if r.state == Dispatching then r.(state := Unknown, updated := now)
    else if r.state == PendingApproval then r.(state := Expired, updated := now)
    else r
  }

  function RecoverRows(rows: Table, now: int): Table { map k | k in rows :: RecoverRow(rows[k], now) }

  function BindRow(r: Row, generation: int, revision: int, now: int): Row {
    if r.state == Admitted && r.generation == None
    then r.(generation := Some(generation), revision := Some(revision), updated := now) else r
  }

  function AbortRow(r: Row, now: int): Row { if r.state == Admitted then r.(state := Failed, updated := now) else r }

  function MarkUnknownRow(r: Row, now: int): Row {
    if r.state == Dispatching then r.(state := Unknown, updated := now) else r
  }

  function OwnerReportRow(r: Row): Row { if r.state == Unknown then r.(state := OwnerResolved) else r }

  function DispatchRow(r: Row, generation: int, token: nat, now: int): Row {
    r.(state := Dispatching, generation := Some(generation), hash := Some(Sha(token)), updated := now)
  }

  predicate Finalizable(st: State) { st == Dispatching || st == Unknown || st == OwnerResolved }

  function FinalizeRow(r: Row, result: State, tab: Option<int>, now: int): Row {
    if Finalizable(r.state) then r.(state := result, updated := now, tab := tab) else r
  }

  predicate Busy(rows: Table, endpoint: string) {
    exists k :: k in rows && k.endpoint == endpoint && rows[k].state == Dispatching
  }

  function RecentUnknowns(rows: Table, now: int): nat {
    |set k | k in rows && rows[k].state == Unknown && rows[k].created >= now - SEVEN_DAYS|
  }

  // ---- the machine ----

  datatype Answer =
    | Accepted(operation: nat)
    | Existing(state: State)
    | IntentConflict | InvalidKey | InvalidArguments | ClockSkew | ExpiredKey | UnknownCapacity
    | Token(key: Key, token: nat)
    | NotFound | AlreadyDispatched | InvalidGeneration | IsBusy
    | NotDispatching | ReceiptMismatch
    | Stored(result: State)

  /** A call inside one of its awaits, or its answer. */
  datatype Pc =
    | AdmitWaits(key: Key, commitment: nat, now: int)
    | DispatchWaits(key: Key, generation: int, token: nat, now: int)
    | FinalizeWaits(key: Key, token: nat, hash: Option<Digest>, generation: int, result: State, tab: Option<int>,
                    now: int)
    | Done(answer: Answer)

  /** An execute token that was handed out. */
  datatype Issue = Issue(worker: nat, key: Key, token: nat, generation: int)

  /** A receipt that was written by `finalize`. */
  datatype Receipt = Receipt(key: Key, token: nat, generation: int, result: State)

  datatype Ledger = Ledger(
    slack: nat,
    clock: int,
    rows: Table,
    workers: map<nat, Pc>,
    supply: nat,
    issued: seq<Issue>,
    receipts: seq<Receipt>)

  datatype Action =
    | Tick(ms: nat)
    | CallAdmit(worker: nat, endpoint: string, intent: string, valid: bool, commitment: nat, now: int)
    | CallDispatch(worker: nat, key: Key, generation: int)
    | CallFinalize(worker: nat, key: Key, token: nat, generation: int, result: State, tab: Option<int>)
    | Resume(worker: nat)
    | Bind(key: Key, generation: int, revision: int)
    | Abort(key: Key)
    | MarkUnknown(key: Key)
    | Reconcile(now: int)
    | OwnerReports(key: Key)
    | Recreate

  /** A `now` that some caller may still hold. */
  predicate Recent(s: Ledger, now: int) { s.clock - s.slack <= now <= s.clock }

  function Go(s: Ledger, w: nat, pc: Pc): Ledger { s.(workers := s.workers[w := pc]) }

  function Set(s: Ledger, k: Key, r: Row): Ledger { s.(rows := s.rows[k := r]) }

  // ---- admit ----

  function AnswerExisting(r: Row, commitment: nat): Answer {
    if r.commitment == commitment then Existing(r.state) else IntentConflict
  }

  /** `admit` up to the HMAC of the command. */
  function AdmitCall(key: Option<Key>, valid: bool, commitment: nat, now: int): Pc {
    if key == None then Done(InvalidKey) else if !valid then Done(InvalidArguments)
    else AdmitWaits(key.value, commitment, now)
  }

  /** `admit` behind its HMAC: look up, check the key's time window, sweep, count, insert. */
  function AdmitStep(s: Ledger, w: nat, k: Key, commitment: nat, now: int): Ledger {
    if k in s.rows then Go(s, w, Done(AnswerExisting(s.rows[k], commitment)))
    else if k.stamp > now + HALF_MINUTE then Go(s, w, Done(ClockSkew))
    else if k.stamp < now - FIVE_MINUTES then Go(s, w, Done(ExpiredKey))
    else AdmitNew(s.(rows := SweepRows(s.rows, now)), w, k, commitment, now)
  }

  function AdmitNew(s: Ledger, w: nat, k: Key, commitment: nat, now: int): Ledger {
    if RecentUnknowns(s.rows, now) >= MAX_UNKNOWN then Go(s, w, Done(UnknownCapacity))
    else
      var row := Row(s.supply, commitment, Admitted, None, None, None, now, now, None);
      Go(s.(rows := s.rows[k := row], supply := s.supply + 1), w, Done(Accepted(s.supply)))
  }

  // ---- dispatch ----

  /** `dispatch` up to the hashing of the token. */
  function DispatchCall(s: Ledger, w: nat, k: Key, generation: int): Ledger {
    if k !in s.rows then Go(s, w, Done(NotFound))
    else if s.rows[k].state != Admitted then Go(s, w, Done(AlreadyDispatched))
    else if generation < 1 then Go(s, w, Done(InvalidGeneration))
    else if Busy(s.rows, k.endpoint) then Go(s, w, Done(IsBusy))
    else Go(s.(supply := s.supply + 1), w, DispatchWaits(k, generation, s.supply, s.clock))
  }

  /** The guarded UPDATE under the one-dispatch index, and the re-read that decides whether the token goes out. */
  function DispatchStep(s: Ledger, w: nat, k: Key, generation: int, token: nat, now: int): Ledger {
    if k in s.rows && s.rows[k].state == Admitted then
      if Busy(s.rows, k.endpoint) then Go(s, w, Done(IsBusy))
      else Go(Set(s, k, DispatchRow(s.rows[k], generation, token, now))
                .(issued := s.issued + [Issue(w, k, token, generation)]), w, Done(Token(k, token)))
    else Go(s, w, Done(AlreadyDispatched))
  }

  // ---- finalize ----

  predicate ReceiptState(st: State) { st == Completed || st == Failed || st == Unknown }

  predicate ValidReceipt(result: State, tab: Option<int>) {
    ReceiptState(result) && (result == Completed ==> tab.Some?) && (tab.Some? ==> tab.value >= 0)
  }

  /** `finalize` up to the hashing of the token it was given. */
  function FinalizeCall(s: Ledger, w: nat, k: Key, token: nat, generation: int, result: State,
                        tab: Option<int>): Ledger {
    if k !in s.rows then Go(s, w, Done(NotFound))
    else
      var r := s.rows[k];
      if !(r.state == Dispatching || r.state == Unknown || (r.state == OwnerResolved && result != Unknown))
      then Go(s, w, Done(NotDispatching))
      else if r.generation != Some(generation) then Go(s, w, Done(ReceiptMismatch))
      else Go(s, w, FinalizeWaits(k, token, r.hash, generation, result, tab, s.clock))
  }

  function FinalizeStep(s: Ledger, w: nat, pc: Pc): Ledger
    requires pc.FinalizeWaits?
  {
    if Some(Sha(pc.token)) != pc.hash then Go(s, w, Done(ReceiptMismatch))
    else if !ValidReceipt(pc.result, pc.tab) then Go(s, w, Done(InvalidArguments))
    else if pc.key !in s.rows then Go(s, w, Done(NotDispatching))
    else
      var r := s.rows[pc.key];
      var t := if Finalizable(r.state)
               then Set(s, pc.key, FinalizeRow(r, pc.result, pc.tab, pc.now))
                      .(receipts := s.receipts + [Receipt(pc.key, pc.token, pc.generation, pc.result)])
               else s;
      var stored := t.rows[pc.key];
      Go(t, w, if stored.state != pc.result || stored.updated != pc.now || stored.tab != pc.tab
               then Done(NotDispatching) else Done(Stored(pc.result)))
  }

  // ---- steps ----

  function ResumeStep(s: Ledger, w: nat, pc: Pc): Ledger {
    match pc
    case AdmitWaits(k, commitment, now) => if Recent(s, now) then AdmitStep(s, w, k, commitment, now) else s
    case DispatchWaits(k, generation, token, now) => DispatchStep(s, w, k, generation, token, now)
    case FinalizeWaits(_, _, _, _, _, _, _) => FinalizeStep(s, w, pc)
    case Done(_) => s
  }

  function Apply(s: Ledger, a: Action): Ledger {
    match a
    case Tick(ms) => s.(clock := s.clock + ms)
    case CallAdmit(w, endpoint, intent, valid, commitment, now) =>
      if w in s.workers || !Recent(s, now) then s
      else Go(s, w, AdmitCall(ParseKey(endpoint, intent), valid, commitment, now))
    case CallDispatch(w, k, generation) => if w in s.workers then s else DispatchCall(s, w, k, generation)
    case CallFinalize(w, k, token, generation, result, tab) =>
      if w in s.workers then s else FinalizeCall(s, w, k, token, generation, result, tab)
    case Resume(w) => if w in s.workers then ResumeStep(s, w, s.workers[w]) else s
    case Bind(k, generation, revision) =>
      if k in s.rows && generation >= 1 && revision >= 0
      then Set(s, k, BindRow(s.rows[k], generation, revision, s.clock)) else s
    case Abort(k) => if k in s.rows then Set(s, k, AbortRow(s.rows[k], s.clock)) else s
    case MarkUnknown(k) => if k in s.rows then Set(s, k, MarkUnknownRow(s.rows[k], s.clock)) else s
    case Reconcile(now) => if Recent(s, now) then s.(rows := ReconcileRows(s.rows, now)) else s
    case OwnerReports(k) => if k in s.rows then Set(s, k, OwnerReportRow(s.rows[k])) else s
    case Recreate => s.(rows := RecoverRows(s.rows, s.clock), workers := map[])
  }

  function Exec(s: Ledger, run: seq<Action>): Ledger {
    if run == [] then s else Apply(Exec(s, run[..|run| - 1]), run[|run| - 1])
  }
}
