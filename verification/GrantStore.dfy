/** The owner's durable device grants, session nonces and epochs, owner challenges and revoked-attempt fences.

  Every transaction of the remote-control owner is one step on the store, and takes what it was given before as
  arguments: whatever was verified outside the transaction may be out of date when it runs. Random identifiers,
  nonces and epochs come from a supply that never repeats.
*/
module GrantStore {
  import opened Common

  /** `permanentDeadline`: none, a date, or the NaN of a malformed record. */
  datatype Deadline = NoDeadline | At(time: int) | Invalid

  datatype Attempt = Attempt(id: string, run: int, runAttempt: int, workflow: string)

  datatype Grant = Permanent | Temporary | Session(attempt: Attempt) | Unrecognized

  datatype Device = Device(
    key: string,
    approvedAt: int,
    revoked: bool,
    grant: Grant,
    expires: Option<int>,
    idleExpires: Option<int>,
    lastVerified: Option<int>,
    idleWindow: Option<int>,
    stopped: bool,
    resumePending: bool,
    generation: nat,
    info: Option<string>)

  datatype Nonce = Nonce(value: nat, expires: int)

  datatype Intent = Stop | Resume

  datatype Challenge = Challenge(intent: Intent, nonce: nat, generation: nat, expires: int)

  const DAY := 86400000
  const MINUTE := 60000
  const MAX_SAFE := 9007199254740991
  const VERIFIED_LEASE := 960000
  const MAX_GRANTS := 64

  predicate Safe(n: int) { -MAX_SAFE <= n <= MAX_SAFE }

  // ---- grants ----

  function PermanentDeadline(d: Device, now: int): Deadline {
    if d.grant != Permanent then NoDeadline
    else if d.idleExpires.Some? then
      if Safe(d.idleExpires.value) && d.idleExpires.value >= 0 then At(d.idleExpires.value) else Invalid
    else if d.lastVerified.Some? || d.idleWindow.Some? then
      if d.lastVerified == None || d.idleWindow == None || !Safe(d.lastVerified.value) || !Safe(d.idleWindow.value) ||
         d.lastVerified.value < 0 || d.lastVerified.value > now || d.idleWindow.value < DAY ||
           d.idleWindow.value > 90 * DAY
      then Invalid
      else if Safe(d.lastVerified.value + d.idleWindow.value) then At(d.lastVerified.value + d.idleWindow.value)
      else Invalid
    else NoDeadline
  }

  predicate ValidAttempt(a: Attempt) {
    a.id != "" && 0 < a.run <= MAX_SAFE && 0 < a.runAttempt <= MAX_SAFE &&
      (a.workflow == "ubuntu" || a.workflow == "windows")
  }

  predicate StillGranted(d: Device, now: int) {
    !d.revoked &&
    match d.grant
    case Permanent =>
      (match PermanentDeadline(d, now)
       case At(time) => now < time
       case Invalid => false
       case NoDeadline =>
         d.lastVerified.Some? && Safe(d.lastVerified.value) && 0 <= now - d.lastVerified.value < VERIFIED_LEASE)
    case Temporary =>
      d.expires.Some? && Safe(d.approvedAt) && Safe(d.expires.value) && d.expires.value == d.approvedAt + DAY &&
        now < d.expires.value
    case Session(a) => ValidAttempt(a) && d.expires.Some? && Safe(d.approvedAt) && Safe(d.expires.value) &&
                       d.expires.value > d.approvedAt && now < d.expires.value
    case Unrecognized => false
  }

  predicate Authorized(d: Device, now: int) { StillGranted(d, now) && !d.stopped && !d.resumePending }

  /** A permanent record of an old release, which carries no deadline at all. */
  predicate Legacy(d: Device) {
    d.grant == Permanent && d.idleExpires == None && d.lastVerified == None && d.idleWindow == None
  }

  /** `migratePermanentGrant` */
  function Migrated(d: Device, now: int, idleMs: nat): Device {
    if Legacy(d) && !d.revoked then d.(idleExpires := Some(now + idleMs), idleWindow := Some(idleMs)) else d
  }

  // ---- the store ----

  /** Consumption of a nonce; with an epoch when it activated a socket. */
  datatype Consumption = Consumption(device: nat, nonce: nat, epoch: Option<nat>, at: int)

  /** A nonce that was handed out for a device. */
  datatype Issue = Issue(device: nat, nonce: nat, at: int)

  datatype Kind = Refreshed | Described | Closed

  /** A write that a socket's transaction made to its device's record. */
  datatype Write = Write(device: nat, epoch: nat, kind: Kind)

  /** An effective stop or resume, and the generation it was signed for. */
  datatype Effect = Effect(device: nat, generation: nat, intent: Intent)

  datatype Store = Store(
    idleMs: nat,
    clock: int,
    devices: map<nat, Device>,
    nonces: map<nat, Nonce>,
    epochs: map<nat, nat>,
    challenges: map<nat, Challenge>,
    fences: map<string, int>,
    supply: nat,
    issues: seq<Issue>,
    consumed: seq<Consumption>,
    writes: seq<Write>,
    effects: seq<Effect>)

  // ---- listLiveGrants ----

  /** One page of rows, at most 65 of them. */
  predicate PageOf(devices: map<nat, Device>, page: set<nat>) {
    page <= devices.Keys && |page| == if |devices.Keys| <= MAX_GRANTS then |devices.Keys| else MAX_GRANTS + 1
  }

  predicate Complete(page: set<nat>) { |page| <= MAX_GRANTS }

  /** The rows of the page that are still granted, migrated if they were legacy rows. */
  function Swept(devices: map<nat, Device>, page: set<nat>, now: int, idleMs: nat): map<nat, Device> {
    map k | k in devices && (k !in page || StillGranted(Migrated(devices[k], now, idleMs), now)) ::
      if k in page then Migrated(devices[k], now, idleMs) else devices[k]
  }

  /** Of at most 64 fences that are listed the expired ones go: if there are no more, all of the expired ones. */
  predicate ExpiredFences(fences: map<string, int>, gone: set<string>, now: int) {
    && (forall a :: a in gone ==> a in fences && fences[a] <= now)
    && |gone| <= 64
    && (|fences.Keys| <= 64 ==> forall a :: a in fences && fences[a] <= now ==> a in gone)
  }

  function Sweep(s: Store, page: set<nat>, gone: set<string>): Store {
    var devices := Swept(s.devices, page, s.clock, s.idleMs);
    var lapsed := page - devices.Keys;
    s.(devices := devices, nonces := s.nonces - lapsed, epochs := s.epochs - lapsed, fences := s.fences - gone)
  }

  predicate KeyTaken(devices: map<nat, Device>, page: set<nat>, key: string) {
    exists k :: k in devices && k in page && devices[k].key == key
  }

  // ---- transactions ----

  datatype Action =
    | Tick(ms: nat)
    | IssueNonce(id: nat)
    | Consume(id: nat, nonce: nat, key: string, socket: bool)
    | Refresh(id: nat, epoch: nat, seen: int)
    | Describe(id: nat, epoch: nat, info: string)
    | Close(id: nat, epoch: nat)
    | IssueChallenge(id: nat, intent: Intent, generation: nat)
    | CommitIntent(id: nat, challenge: Challenge, key: string)
    | Migrate(id: nat)
    | RegisterPending(page: set<nat>, gone: set<string>)
    | Approve(key: string, temporary: bool, page: set<nat>, gone: set<string>)
    | Enroll(key: string, attempt: Attempt, expires: int, page: set<nat>, gone: set<string>)
    | Revoke(id: nat)
    | DropDevice(id: nat)
    | DropNonce(id: nat)
    | DropEpoch(id: nat)
    | DropFence(fence: string)

  /** What a proof needs of the current record: authority, or for a socket a pending resume. */
  predicate MayConsume(d: Device, now: int, socket: bool) {
    Authorized(d, now) || (socket && d.resumePending && StillGranted(d, now))
  }

  /** A proof or a probe that was verified at `seen` starts the idle window again. */
  function Renewed(d: Device, seen: int, idleMs: nat): Device {
    d.(lastVerified := Some(seen), idleWindow := Some(idleMs), idleExpires := None)
  }

  /** The nonce goes and a new epoch comes, at once. */
  function Activated(s: Store, id: nat, devices: map<nat, Device>): Store
    requires id in s.nonces
  {
    s.(nonces := s.nonces - {id}, epochs := s.epochs[id := s.supply], supply := s.supply + 1, devices := devices,
       consumed := s.consumed + [Consumption(id, s.nonces[id].value, Some(s.supply), s.clock)])
  }

  /** The transaction of `consumeAuthorizedProof`: nonce, record and epoch at once. */
  function ConsumeTx(s: Store, id: nat, nonce: nat, key: string, socket: bool): Store {
    if id !in s.nonces || s.nonces[id].value != nonce || s.nonces[id].expires <= s.clock then s
    else if id !in s.devices || !MayConsume(s.devices[id], s.clock, socket) || s.devices[id].key != key then s
    else if !socket then
      s.(nonces := s.nonces - {id}, consumed := s.consumed + [Consumption(id, nonce, None, s.clock)])
    else
      var d := s.devices[id];
      Activated(s, id, if d.grant == Permanent
                then s.devices[id := Renewed(d, s.clock, s.idleMs).(resumePending := false)]
                       else s.devices)
  }

  predicate Current(s: Store, id: nat, epoch: nat) { id in s.epochs && s.epochs[id] == epoch }

  /** The probe of a socket: `seen` was taken before the transaction. */
  function RefreshTx(s: Store, id: nat, epoch: nat, seen: int): Store {
    if id !in s.devices || !Authorized(s.devices[id], s.clock) || !Current(s, id, epoch) ||
      s.devices[id].grant != Permanent then s
    else s.(devices := s.devices[id := Renewed(s.devices[id], seen, s.idleMs)],
            writes := s.writes + [Write(id, epoch, Refreshed)])
  }

  function DescribeTx(s: Store, id: nat, epoch: nat, info: string): Store {
    if id !in s.devices || !Authorized(s.devices[id], s.clock) || !Current(s, id, epoch) then s
    else s.(devices := s.devices[id := s.devices[id].(info := Some(info))],
            writes := s.writes + [Write(id, epoch, Described)])
  }

  /** `recordVerifiedSocketClose` */
  predicate MayClose(d: Device, now: int, idleMs: nat) {
    d.grant == Permanent && d.idleExpires == None && d.lastVerified.Some? && Safe(d.lastVerified.value) &&
    d.lastVerified.value <= now && d.idleWindow == Some(idleMs) && Authorized(d, now)
  }

  function CloseTx(s: Store, id: nat, epoch: nat): Store {
    if id !in s.devices || !Current(s, id, epoch) || !MayClose(s.devices[id], s.clock, s.idleMs) then s
    else s.(devices := s.devices[id := s.devices[id].(idleExpires := Some(s.clock + s.idleMs))],
            writes := s.writes + [Write(id, epoch, Closed)])
  }

  /** The date that a stop stores. */
  function StopExpiry(d: Device, now: int, idleMs: nat): Deadline {
    if d.stopped then PermanentDeadline(d, now)
    else match PermanentDeadline(d, now)
      case NoDeadline => At(now + idleMs)
      case At(time) => At(if time < now + idleMs then time else now + idleMs)
      case Invalid => Invalid
  }

  predicate InForce(e: Deadline, now: int) { e.At? && Safe(e.time) && e.time > now }

  predicate ChallengeStands(s: Store, id: nat, c: Challenge, key: string) {
    && id in s.devices && s.devices[id].grant == Permanent && s.devices[id].key == key
    && StillGranted(s.devices[id], s.clock) && s.devices[id].generation == c.generation < MAX_SAFE
    && id in s.challenges && s.challenges[id].nonce == c.nonce && s.challenges[id].intent == c.intent &&
       s.challenges[id].expires > s.clock
  }

  function StopTx(s: Store, id: nat, c: Challenge): Store
    requires id in s.devices
  {
    var d := s.devices[id];
    var expiry := StopExpiry(d, s.clock, s.idleMs);
    if !InForce(expiry, s.clock) then s
    else
      var t := s.(epochs := s.epochs - {id}, nonces := s.nonces - {id});
      if d.stopped then t
      else t.(devices := s.devices[id := d.(stopped := true, resumePending := false, generation := c.generation + 1,
                                            idleExpires := Some(expiry.time),
                                            idleWindow := if d.idleWindow.Some? then d.idleWindow else Some(s.idleMs))],
              effects := s.effects + [Effect(id, c.generation, Stop)])
  }

  function Resumed(s: Store, id: nat, generation: nat): Store
    requires id in s.devices
  {
    s.(devices := s.devices[id := s.devices[id].(stopped := false, resumePending := true,
                                                 generation := generation + 1)],
       epochs := s.epochs - {id}, effects := s.effects + [Effect(id, generation, Resume)])
  }

  function ResumeTx(s: Store, id: nat, c: Challenge): Store
    requires id in s.devices
  {
    var d := s.devices[id];
    if !d.stopped || !InForce(PermanentDeadline(d, s.clock), s.clock) then s else Resumed(s, id, c.generation)
  }

  /** The transaction of `commitOwnerIntent`. */
  function CommitIntentTx(s: Store, id: nat, c: Challenge, key: string): Store {
    if !ChallengeStands(s, id, c, key) then s
    else
      var t := s.(challenges := s.challenges - {id});
      if c.intent == Stop then StopTx(t, id, c) else ResumeTx(t, id, c)
  }

  /** What `listLiveGrants` leaves behind, as a page and the fences that go; any other choice does nothing. */
  predicate ValidSweep(s: Store, page: set<nat>, gone: set<string>) {
    PageOf(s.devices, page) && ExpiredFences(s.fences, gone, s.clock)
  }

  /** The page was complete, and fewer than 64 of its rows are still there. */
  predicate HasRoom(devices: map<nat, Device>, page: set<nat>) {
    Complete(page) && |devices.Keys * page| < MAX_GRANTS
  }

  /** There is room, and none of the rows has the key. */
  predicate Admissible(devices: map<nat, Device>, page: set<nat>, key: string) {
    HasRoom(devices, page) && !KeyTaken(devices, page, key)
  }

  /** A new grant, after the sweep of the same transaction. */
  function AdmitTx(s: Store, page: set<nat>, d: Device): Store {
    if !Admissible(s.devices, page, d.key) then s
    else s.(devices := s.devices[s.supply := d], supply := s.supply + 1)
  }

  function ApprovedDevice(key: string, temporary: bool, now: int, idleMs: nat): Device {
    if temporary then Device(key, now, false, Temporary, Some(now + DAY), None, None, None, false, false, 0, None)
    else Device(key, now, false, Permanent, None, Some(now + idleMs), None, Some(idleMs), false, false, 0, None)
  }

  /** The approval of a pending key, after the sweep of the same transaction. */
  function ApproveTx(s: Store, key: string, temporary: bool, page: set<nat>): Store {
    AdmitTx(s, page, ApprovedDevice(key, temporary, s.clock, s.idleMs))
  }

  function EnrolledDevice(key: string, attempt: Attempt, expires: int, now: int): Device {
    Device(key, now, false, Session(attempt), Some(expires), None, None, None, false, false, 0, None)
  }

  predicate OfAttempt(d: Device, attempt: string) { d.grant.Session? && d.grant.attempt.id == attempt }

  predicate AttemptTaken(devices: map<nat, Device>, page: set<nat>, attempt: string) {
    exists k :: k in devices && k in page && OfAttempt(devices[k], attempt)
  }

  /** The enrollment of a workflow session, after the sweep of the same transaction. */
  function EnrollTx(s: Store, key: string, attempt: Attempt, expires: int, page: set<nat>): Store {
    if !Complete(page) || attempt.id in s.fences || AttemptTaken(s.devices, page, attempt.id) || s.clock >= expires
    then s
    else AdmitTx(s, page, EnrolledDevice(key, attempt, expires, s.clock))
  }

  /** The transaction of `revokeDevice`. */
  function RevokeTx(s: Store, id: nat): Store {
    if id !in s.devices then s
    else if s.devices[id].revoked then s.(devices := s.devices - {id})
    else
      var d := s.devices[id];
      s.(fences := if d.grant.Session? && d.expires.Some? && Safe(d.expires.value) && d.expires.value > s.clock
                   then s.fences[d.grant.attempt.id := d.expires.value] else s.fences,
         devices := s.devices - {id}, nonces := s.nonces - {id}, epochs := s.epochs - {id})
  }

  function Apply(s: Store, a: Action): Store {
    match a
    case Tick(ms) => s.(clock := s.clock + ms)
    case IssueNonce(id) =>
      s.(nonces := s.nonces[id := Nonce(s.supply, s.clock + MINUTE)], supply := s.supply + 1,
         issues := s.issues + [Issue(id, s.supply, s.clock)])
    case Consume(id, nonce, key, socket) => ConsumeTx(s, id, nonce, key, socket)
    case Refresh(id, epoch, seen) => if seen <= s.clock then RefreshTx(s, id, epoch, seen) else s
    case Describe(id, epoch, info) => DescribeTx(s, id, epoch, info)
    case Close(id, epoch) => CloseTx(s, id, epoch)
    case IssueChallenge(id, intent, generation) =>
      s.(challenges := s.challenges[id := Challenge(intent, s.supply, generation, s.clock + MINUTE)],
         supply := s.supply + 1)
    case CommitIntent(id, c, key) => CommitIntentTx(s, id, c, key)
    case Migrate(id) =>
      if id in s.devices then s.(devices := s.devices[id := Migrated(s.devices[id], s.clock, s.idleMs)]) else s
    case RegisterPending(page, gone) => if ValidSweep(s, page, gone) then Sweep(s, page, gone) else s
    case Approve(key, temporary, page, gone) =>
      if ValidSweep(s, page, gone) then ApproveTx(Sweep(s, page, gone), key, temporary, page) else s
    case Enroll(key, attempt, expires, page, gone) =>
      if ValidSweep(s, page, gone) then EnrollTx(Sweep(s, page, gone), key, attempt, expires, page) else s
    case Revoke(id) => RevokeTx(s, id)
    case DropDevice(id) => s.(devices := s.devices - {id})
    case DropNonce(id) => s.(nonces := s.nonces - {id})
    case DropEpoch(id) => s.(epochs := s.epochs - {id})
    case DropFence(a) => if a in s.fences && s.fences[a] <= s.clock then s.(fences := s.fences - {a}) else s
  }

  function Exec(s: Store, run: seq<Action>): Store {
    if run == [] then s else Apply(Exec(s, run[..|run| - 1]), run[|run| - 1])
  }
}
