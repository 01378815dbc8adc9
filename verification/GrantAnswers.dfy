/** When a grant is live, and what each transaction of the owner does, told by the records that it finds. */
module GrantAnswers {
  import opened Common
  import opened GrantStore
  import opened GrantSafety
  import opened GrantTheorems

  // ---- how long a grant lives ----

  /** A date that the owner can store. */
  predicate Storable(n: int) { 0 <= n <= 9007199254740991 }

  predicate Owned(d: Device) { !d.revoked && d.grant == Permanent }

  /** With a stored date a permanent grant lives until then. */
  lemma LivesUntilDate(d: Device, now: int)
    requires Owned(d) && d.idleExpires.Some?
    ensures StillGranted(d, now) <==> Storable(d.idleExpires.value) && now < d.idleExpires.value
  {
  }

  /** Without one it lives for its window of one to ninety days from the last verified contact, which is not in the
    future. */
  lemma LivesFromContact(d: Device, now: int)
    requires Owned(d) && d.idleExpires == None
    ensures StillGranted(d, now) <==>
              && d.lastVerified.Some? && d.idleWindow.Some?
              && Storable(d.lastVerified.value) && 86400000 <= d.idleWindow.value <= 90 * 86400000
              && Storable(d.lastVerified.value + d.idleWindow.value)
              && d.lastVerified.value <= now < d.lastVerified.value + d.idleWindow.value
  {
  }

  /** A temporary grant lives for the day behind its approval, a session until its own end, and nothing else lives. */
  lemma LivesOtherwise(d: Device, now: int)
    requires d.grant != Permanent || d.revoked
    ensures StillGranted(d, now) <==>
              && !d.revoked && d.expires.Some? && Safe(d.approvedAt) && Safe(d.expires.value) && now < d.expires.value
              && match d.grant
                 case Temporary => d.expires.value == d.approvedAt + 86400000
                 case Session(a) =>
                   a.id != "" && 1 <= a.run <= 9007199254740991 && 1 <= a.runAttempt <= 9007199254740991 &&
                   a.workflow in {"ubuntu", "windows"} && d.approvedAt < d.expires.value
                 case _ => false
  {
  }

  /** What an approval at `at` is worth: a day, or the idle window. */
  lemma ApprovalLives(key: string, at: int, idleMs: nat, now: int)
    requires 0 <= at && Storable(at + idleMs) && Storable(at + 86400000)
    ensures StillGranted(ApprovedDevice(key, true, at, idleMs), now) <==> now < at + 86400000
    ensures StillGranted(ApprovedDevice(key, false, at, idleMs), now) <==> now < at + idleMs
  {
  }

  /** A verified contact at `seen` starts the window anew; a close, or a stop, sets the date at which it ends. */
  lemma RenewalLives(d: Device, seen: int, idleMs: nat, now: int)
    requires Owned(d) && ValidIdle(idleMs) && Storable(seen) && Storable(seen + idleMs)
    ensures StillGranted(Renewed(d, seen, idleMs), now) <==> seen <= now < seen + idleMs
    ensures StillGranted(d.(idleExpires := Some(seen + idleMs)), now) <==> now < seen + idleMs
  {
  }

  /** A live grant authorizes unless its owner stopped it, or its resumption waits for a proof. */
  lemma AuthorizedExactly(d: Device, now: int)
    ensures Authorized(d, now) <==> StillGranted(d, now) && !(d.stopped || d.resumePending)
  {
  }

  // ---- proofs and sockets ----

  /** What a proof for a nonce, or for a socket, needs of the stored records at this time. */
  ghost predicate Proves(s: Store, id: nat, nonce: nat, key: string, socket: bool) {
    && id in s.nonces && s.nonces[id].value == nonce && s.clock < s.nonces[id].expires
    && id in s.devices && s.devices[id].key == key && StillGranted(s.devices[id], s.clock)
    && ((!s.devices[id].stopped && !s.devices[id].resumePending) || (socket && s.devices[id].resumePending))
  }

  /** The nonce goes with it, and for a socket the new epoch comes and a permanent device is renewed and resumed; a
    proof that fails changes nothing. */
  lemma ConsumeExact(s: Store, id: nat, nonce: nat, key: string, socket: bool)
    ensures var t := Apply(s, Consume(id, nonce, key, socket));
            if !Proves(s, id, nonce, key, socket) then t == s
            else if !socket then
              t == s.(nonces := s.nonces - {id}, consumed := s.consumed + [Consumption(id, nonce, None, s.clock)])
            else
              var d := s.devices[id];
              t == s.(nonces := s.nonces - {id}, epochs := s.epochs[id := s.supply], supply := s.supply + 1,
                      devices := if d.grant == Permanent
                                 then s.devices[id := d.(lastVerified := Some(s.clock), idleWindow := Some(s.idleMs),
                                                         idleExpires := None, resumePending := false)]
                                 else s.devices,
                      consumed := s.consumed + [Consumption(id, nonce, Some(s.supply), s.clock)])
  {
  }

  /** The socket of the current epoch of an authorized device. */
  predicate Speaks(s: Store, id: nat, epoch: nat) {
    && id in s.devices && StillGranted(s.devices[id], s.clock) && !s.devices[id].stopped && !s.devices[id].resumePending
    && id in s.epochs && s.epochs[id] == epoch
  }

  lemma ProbeExact(s: Store, id: nat, epoch: nat, seen: int)
    ensures var t := Apply(s, Refresh(id, epoch, seen));
            if seen <= s.clock && Speaks(s, id, epoch) && s.devices[id].grant == Permanent
            then t ==
              s.(devices := s.devices[id := s.devices[id].(lastVerified := Some(seen), idleWindow := Some(s.idleMs),
                                                                   idleExpires := None)],
                         writes := s.writes + [Write(id, epoch, Refreshed)])
            else t == s
  {
  }

  lemma DescribeExact(s: Store, id: nat, epoch: nat, info: string)
    ensures var t := Apply(s, Describe(id, epoch, info));
            if Speaks(s, id, epoch)
            then t == s.(devices := s.devices[id := s.devices[id].(info := Some(info))],
                         writes := s.writes + [Write(id, epoch, Described)])
            else t == s
  {
  }

  /** The close of a current socket dates a permanent grant that counts from a contact in the window of now; once. */
  lemma CloseExact(s: Store, id: nat, epoch: nat)
    ensures var t := Apply(s, Close(id, epoch));
            if Speaks(s, id, epoch) && s.devices[id].grant == Permanent && s.devices[id].idleExpires == None &&
               s.devices[id].idleWindow == Some(s.idleMs)
            then t == s.(devices := s.devices[id := s.devices[id].(idleExpires := Some(s.clock + s.idleMs))],
                         writes := s.writes + [Write(id, epoch, Closed)])
            else t == s
  {
  }

  /** Nonces and challenges are stored for one minute. */
  lemma HandsOut(s: Store, id: nat, intent: Intent, generation: nat)
    ensures Apply(s, IssueNonce(id)) ==
            s.(nonces := s.nonces[id := Nonce(s.supply, s.clock + 60000)], supply := s.supply + 1,
               issues := s.issues + [Issue(id, s.supply, s.clock)])
    ensures Apply(s, IssueChallenge(id, intent, generation)) ==
            s.(challenges := s.challenges[id := Challenge(intent, s.supply, generation, s.clock + 60000)],
               supply := s.supply + 1)
  {
  }

  // ---- the owner ----

  /** The signed intent is still the one to carry out: of this key, generation and nonce, in its minute. */
  ghost predicate Stands(s: Store, id: nat, c: Challenge, key: string) {
    && id in s.devices && s.devices[id].grant == Permanent && s.devices[id].key == key
    && StillGranted(s.devices[id], s.clock) && s.devices[id].generation == c.generation < 9007199254740991
    && id in s.challenges && s.challenges[id].nonce == c.nonce && s.challenges[id].intent == c.intent
    && s.clock < s.challenges[id].expires
  }

  /** The date until which a live permanent grant lives. */
  function EndOf(d: Device): int {
    match d.idleExpires
    case Some(date) => date
    case None => if d.lastVerified.Some? && d.idleWindow.Some? then d.lastVerified.value + d.idleWindow.value else 0
  }

  lemma EndOfLive(d: Device, now: int)
    requires Owned(d) && StillGranted(d, now)
    ensures d.idleExpires.Some? || (d.lastVerified.Some? && d.idleWindow.Some?)
    ensures PermanentDeadline(d, now) == At(EndOf(d)) && now < EndOf(d) && Storable(EndOf(d))
  {
  }

  /** A stop: no epoch and no nonce is left; the device is stopped to the earlier of its date and one window from now,
    and a device that was stopped before stays as it was. */
  lemma StopExact(s: Store, id: nat, c: Challenge, key: string)
    requires Stands(s, id, c, key) && c.intent == Stop && Storable(s.clock + s.idleMs) && ValidIdle(s.idleMs)
    ensures var t := Apply(s, CommitIntent(id, c, key)); var d := s.devices[id];
            var ended := s.(challenges := s.challenges - {id}, epochs := s.epochs - {id}, nonces := s.nonces - {id});
            if d.stopped then t == ended
            else t == ended.(devices := s.devices[id := d.(stopped := true, resumePending := false,
                                                           generation := c.generation + 1,
                                                           idleExpires := Some(Min(EndOf(d), s.clock + s.idleMs)),
                                                           idleWindow := if d.idleWindow == None
                                                                         then Some(s.idleMs) else d.idleWindow)],
                             effects := s.effects + [Effect(id, c.generation, Stop)])
  {
    EndOfLive(s.devices[id], s.clock);
  }

  /** A resumption waits for the proof of the device: no epoch is left, and its date is what it was. */
  lemma ResumeExact(s: Store, id: nat, c: Challenge, key: string)
    requires Stands(s, id, c, key) && c.intent == Resume
    ensures var t := Apply(s, CommitIntent(id, c, key)); var d := s.devices[id];
            if !d.stopped then t == s.(challenges := s.challenges - {id})
            else t == s.(challenges := s.challenges - {id}, epochs := s.epochs - {id},
                         devices := s.devices[id := d.(stopped := false, resumePending := true,
                                                       generation := c.generation + 1)],
                         effects := s.effects + [Effect(id, c.generation, Resume)])
  {
    EndOfLive(s.devices[id], s.clock);
  }

  lemma IntentRefused(s: Store, id: nat, c: Challenge, key: string)
    requires !Stands(s, id, c, key)
    ensures Apply(s, CommitIntent(id, c, key)) == s
  {
  }

  /** A revocation: the record goes with its nonce and its epoch; and a session's attempt is fenced until its end. */
  lemma RevokeExact(s: Store, id: nat)
    ensures var t := Apply(s, Revoke(id));
            if id !in s.devices then t == s
            else if s.devices[id].revoked then t == s.(devices := s.devices - {id})
            else
              var d := s.devices[id];
              t == s.(devices := s.devices - {id}, nonces := s.nonces - {id}, epochs := s.epochs - {id},
                      fences := if d.grant.Session? && d.expires.Some? && s.clock < d.expires.value
                                   && Safe(d.expires.value)
                                then s.fences[d.grant.attempt.id := d.expires.value] else s.fences)
  {
  }

  // ---- sweeps and admissions ----

  /** A permanent record of an old release, without any date. */
  predicate Undated(d: Device) { Owned(d) && d.idleExpires == None && d.lastVerified == None && d.idleWindow == None }

  function Dated(d: Device, now: int, idleMs: nat): Device {
    if Undated(d) then d.(idleExpires := Some(now + idleMs), idleWindow := Some(idleMs)) else d
  }

  lemma MigrateExact(s: Store, id: nat)
    ensures Apply(s, Migrate(id)) ==
            if id in s.devices then s.(devices := s.devices[id := Dated(s.devices[id], s.clock, s.idleMs)]) else s
  {
  }

  /** What a sweep of `page` leaves: of the page the live records, dated if they had no date, with their nonces and
    epochs, and everything outside of it; and only fences that are over may go. */
  ghost predicate SweptTo(s: Store, t: Store, page: set<nat>, gone: set<string>) {
    && t == s.(devices := t.devices, nonces := t.nonces, epochs := t.epochs, fences := s.fences - gone)
    && (forall k :: k in t.devices <==>
          k in s.devices && (k in page ==> StillGranted(Dated(s.devices[k], s.clock, s.idleMs), s.clock)))
    && (forall k :: k in t.devices ==>
          t.devices[k] == if k in page then Dated(s.devices[k], s.clock, s.idleMs) else s.devices[k])
    && t.nonces == s.nonces - (page - t.devices.Keys) && t.epochs == s.epochs - (page - t.devices.Keys)
  }

  lemma SweepExact(s: Store, page: set<nat>, gone: set<string>)
    ensures SweptTo(s, Sweep(s, page, gone), page, gone)
  {
  }

  /** The page is all of the records, or sixty-five of them; a fence goes only when it is over, sixty-four at most, and
    if there are no more, every one that is over. */
  lemma ValidSweepExact(s: Store, page: set<nat>, gone: set<string>)
    ensures ValidSweep(s, page, gone) <==>
              && page <= s.devices.Keys && |page| == Min(|s.devices.Keys|, 65)
              && (forall a :: a in gone ==> a in s.fences && s.fences[a] <= s.clock)
              && |gone| <= 64
              && (|s.fences.Keys| > 64 || forall a :: a in s.fences && s.fences[a] <= s.clock ==> a in gone)
  {
  }

  /** The records that a transaction may admit to: the whole page was seen, fewer than sixty-four are live, none has
    the key. */
  ghost predicate Admits(m: Store, page: set<nat>, key: string) {
    && |page| <= 64 && |m.devices.Keys * page| < 64
    && forall k :: k in m.devices && k in page ==> m.devices[k].key != key
  }

  lemma AdmissibleIs(m: Store, page: set<nat>, key: string)
    ensures Admissible(m.devices, page, key) <==> Admits(m, page, key)
  {
  }

  function Added(m: Store, d: Device): Store { m.(devices := m.devices[m.supply := d], supply := m.supply + 1) }

  lemma AdmitIs(m: Store, page: set<nat>, d: Device)
    ensures AdmitTx(m, page, d) == if Admits(m, page, d.key) then Added(m, d) else m
  {
    AdmissibleIs(m, page, d.key);
  }

  function DayGrant(key: string, at: int): Device {
    Device(key, at, false, Temporary, Some(at + 86400000), None, None, None, false, false, 0, None)
  }

  function IdleGrant(key: string, at: int, idleMs: nat): Device {
    Device(key, at, false, Permanent, None, Some(at + idleMs), None, Some(idleMs), false, false, 0, None)
  }

  lemma ApproveOn(m: Store, key: string, temporary: bool, page: set<nat>)
    ensures ApproveTx(m, key, temporary, page) ==
            if Admits(m, page, key)
            then Added(m, if temporary then DayGrant(key, m.clock) else IdleGrant(key, m.clock, m.idleMs)) else m
  {
    AdmitIs(m, page, if temporary then DayGrant(key, m.clock) else IdleGrant(key, m.clock, m.idleMs));
  }

  /** An approval: the sweep, and the new record if there is room for its key. */
  lemma ApproveExact(s: Store, key: string, temporary: bool, page: set<nat>, gone: set<string>)
    requires ValidSweep(s, page, gone)
    ensures var m := Sweep(s, page, gone);
            Apply(s, Approve(key, temporary, page, gone)) ==
            if Admits(m, page, key)
            then Added(m, if temporary then DayGrant(key, m.clock) else IdleGrant(key, m.clock, m.idleMs)) else m
  {
    ApproveOn(Sweep(s, page, gone), key, temporary, page);
  }

  function SessionGrant(key: string, attempt: Attempt, expires: int, at: int): Device {
    Device(key, at, false, Session(attempt), Some(expires), None, None, None, false, false, 0, None)
  }

  /** An enrollment: of an attempt that is neither fenced nor enrolled, before its end. */
  ghost predicate Enrolls(m: Store, key: string, attempt: Attempt, expires: int, page: set<nat>) {
    Admits(m, page, key) && attempt.id !in m.fences && m.clock < expires && !Enlisted(m, page, attempt.id)
  }

  lemma EnrollOn(m: Store, key: string, attempt: Attempt, expires: int, page: set<nat>)
    ensures EnrollTx(m, key, attempt, expires, page) ==
            if Enrolls(m, key, attempt, expires, page) then Added(m, SessionGrant(key, attempt, expires, m.clock))
            else m
  {
    AdmitIs(m, page, SessionGrant(key, attempt, expires, m.clock));
  }

  lemma EnrollExact(s: Store, key: string, attempt: Attempt, expires: int, page: set<nat>, gone: set<string>)
    requires ValidSweep(s, page, gone)
    ensures var m := Sweep(s, page, gone);
            Apply(s, Enroll(key, attempt, expires, page, gone)) ==
            if Enrolls(m, key, attempt, expires, page) then Added(m, SessionGrant(key, attempt, expires, m.clock))
            else m
  {
    EnrollOn(Sweep(s, page, gone), key, attempt, expires, page);
  }

  ghost predicate Enlisted(m: Store, page: set<nat>, attempt: string) {
    exists k :: k in m.devices && k in page && m.devices[k].grant.Session? && m.devices[k].grant.attempt.id == attempt
  }
}
