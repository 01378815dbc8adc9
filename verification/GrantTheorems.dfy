/** What the remote-control owner promises over every run of its transactions. */
module GrantTheorems {
  import opened Common
  import opened GrantStore
  import opened GrantSafety

  function Empty(idleMs: nat, clock: nat): Store {
    Store(idleMs, clock, map[], map[], map[], map[], map[], 0, [], [], [], [])
  }

  predicate ValidIdle(idleMs: nat) { DAY <= idleMs <= 90 * DAY }

  lemma FromEmpty(idleMs: nat, clock: nat, run: seq<Action>)
    requires ValidIdle(idleMs)
    ensures Inv(Exec(Empty(idleMs, clock), run))
  {
    assert Inv(Empty(idleMs, clock));
    RunOk(Empty(idleMs, clock), run);
  }

  // ---- nonces and epochs ----

  /** No nonce is consumed twice, by whatever recoveries and activations. */
  lemma NoncesAreConsumedOnce(idleMs: nat, clock: nat, run: seq<Action>)
    requires ValidIdle(idleMs)
    ensures var s := Exec(Empty(idleMs, clock), run);
            forall i, j :: 0 <= i < j < |s.consumed| ==> s.consumed[i].nonce != s.consumed[j].nonce
  {
    FromEmpty(idleMs, clock, run);
  }

  /** Every consumption is of a nonce that was handed out for that device less than a minute before, and only once. */
  lemma NoncesExpire(idleMs: nat, clock: nat, run: seq<Action>, c: Consumption)
    requires ValidIdle(idleMs) && c in Exec(Empty(idleMs, clock), run).consumed
    ensures var s := Exec(Empty(idleMs, clock), run);
            exists i :: 0 <= i < |s.issues| && s.issues[i].device == c.device && s.issues[i].nonce == c.nonce &&
                        s.issues[i].at <= c.at < s.issues[i].at + 60000 &&
                        forall j :: 0 <= j < |s.issues| && s.issues[j].nonce == c.nonce ==> j == i
  {
    FromEmpty(idleMs, clock, run);
    var s := Exec(Empty(idleMs, clock), run);
    assert InTime(c, s.issues);
    var i :| 0 <= i < |s.issues| && s.issues[i].device == c.device && s.issues[i].nonce == c.nonce &&
             s.issues[i].at <= c.at < s.issues[i].at + MINUTE;
  }

  /** A new epoch is stored only by the transaction that consumes the nonce of a proof. */
  lemma EpochsComeWithProofs(s: Store, a: Action, k: nat)
    requires Inv(s) && k in Apply(s, a).epochs && !Current(s, k, Apply(s, a).epochs[k])
    ensures var t := Apply(s, a);
            && a.Consume? && a.id == k && a.socket &&
               t.consumed == s.consumed + [Consumption(k, a.nonce, Some(t.epochs[k]), s.clock)]
            && k in s.nonces && s.nonces[k].value == a.nonce && s.clock < s.nonces[k].expires && k !in t.nonces
  {
    if !a.Consume? { OtherEpochs(s, a); }
  }

  predicate OnlyDeletes(epochs: map<nat, nat>, after: map<nat, nat>) {
    forall k :: k in after ==> k in epochs && epochs[k] == after[k]
  }

  lemma IntentDeletes(s: Store, id: nat, c: Challenge, key: string)
    ensures OnlyDeletes(s.epochs, CommitIntentTx(s, id, c, key).epochs)
  {
  }

  lemma SweepDeletes(s: Store, page: set<nat>, gone: set<string>)
    ensures OnlyDeletes(s.epochs, Sweep(s, page, gone).epochs)
  {
  }

  lemma EnrollsKeepEpochs(m: Store, key: string, attempt: Attempt, expires: int, page: set<nat>)
    ensures EnrollTx(m, key, attempt, expires, page).epochs == m.epochs
  {
  }

  lemma AdmissionDeletes(s: Store, a: Action)
    requires a.RegisterPending? || a.Approve? || a.Enroll?
    ensures OnlyDeletes(s.epochs, Apply(s, a).epochs)
  {
    if ValidSweep(s, a.page, a.gone) {
      var m := Sweep(s, a.page, a.gone);
      SweepDeletes(s, a.page, a.gone);
      match a
      case RegisterPending(_, _) =>
      case Approve(key, temporary, page, gone) =>
        AdmitsKeepEpochs(m, page, ApprovedDevice(key, temporary, s.clock, s.idleMs));
      case Enroll(key, attempt, expires, page, gone) => EnrollsKeepEpochs(m, key, attempt, expires, page);
    }
  }

  lemma AdmitsKeepEpochs(m: Store, page: set<nat>, d: Device)
    ensures AdmitTx(m, page, d).epochs == m.epochs
  {
  }

  /** Every other step at most deletes epochs. */
  lemma OtherEpochs(s: Store, a: Action)
    requires !a.Consume?
    ensures OnlyDeletes(s.epochs, Apply(s, a).epochs)
  {
    match a
    case CommitIntent(id, c, key) => IntentDeletes(s, id, c, key);
    case RegisterPending(_, _) => AdmissionDeletes(s, a);
    case Approve(_, _, _, _) => AdmissionDeletes(s, a);
    case Enroll(_, _, _, _, _) => AdmissionDeletes(s, a);
    case _ =>
  }

  /** An epoch that was superseded or deleted is never current again, and no transaction of its socket writes anything
    more. */
  lemma SupersededForGood(s: Store, run: seq<Action>, id: nat, epoch: nat)
    requires Inv(s) && epoch < s.supply && !Current(s, id, epoch)
    ensures var t := Exec(s, run);
            && !Current(t, id, epoch)
            && forall i :: |s.writes| <= i < |t.writes| ==> t.writes[i].device != id || t.writes[i].epoch != epoch
  {
    RunOk(s, run);
  }

  /** A later proof, an owner's stop or resume, and a revocation each supersede the epoch that was current. */
  lemma WhatSupersedes(s: Store, a: Action, id: nat, epoch: nat)
    requires Inv(s) && Current(s, id, epoch)
    requires || (a.Consume? && a.id == id && a.socket && |Apply(s, a).consumed| > |s.consumed|)
             || (a.CommitIntent? && a.id == id && |Apply(s, a).effects| > |s.effects|)
             || (a.Revoke? && a.id == id && id in s.devices && !s.devices[id].revoked)
    ensures !Current(Apply(s, a), id, epoch) && epoch < Apply(s, a).supply
  {
    assert id in s.epochs;
    if a.CommitIntent? { IntentSupersedes(s, a.challenge, a.key, id, epoch); }
  }

  lemma IntentSupersedes(s: Store, c: Challenge, key: string, id: nat, epoch: nat)
    requires Current(s, id, epoch) && |CommitIntentTx(s, id, c, key).effects| > |s.effects|
    ensures !Current(CommitIntentTx(s, id, c, key), id, epoch) && CommitIntentTx(s, id, c, key).supply == s.supply
  {
  }

  /** So a socket that is not the latest one can do nothing to the store. */
  lemma OlderSocketsAreInert(s: Store, id: nat, epoch: nat, seen: int, info: string)
    requires !Current(s, id, epoch)
    ensures Apply(s, Refresh(id, epoch, seen)) == s && Apply(s, Describe(id, epoch, info)) == s &&
            Apply(s, Close(id, epoch)) == s
  {
  }

  // ---- grants ----

  /** Two records of one key, or of one session attempt. */
  predicate Clash(a: Device, b: Device) { a.key == b.key || SameAttempt(a, b) }

  /** At most 64 records are stored, with different public keys and different session attempts; so the live ones are. */
  lemma GrantsAreBounded(idleMs: nat, clock: nat, run: seq<Action>)
    requires ValidIdle(idleMs)
    ensures var s := Exec(Empty(idleMs, clock), run);
            && |s.devices.Keys| <= 64
            && forall k, l :: k in s.devices && l in s.devices && Clash(s.devices[k], s.devices[l]) ==> k == l
  {
    FromEmpty(idleMs, clock, run);
  }

  /** A grant that has lapsed with a deadline never authorizes anything again. */
  lemma LapsedNeverReturns(s: Store, run: seq<Action>, k: nat)
    requires Inv(s) && k in s.devices && !Legacy(s.devices[k]) && !StillGranted(s.devices[k], s.clock)
    ensures var t := Exec(s, run); k in t.devices ==> !Legacy(t.devices[k]) && !StillGranted(t.devices[k], t.clock)
  {
    RunOk(s, run);
    var t := Exec(s, run);
    if k in t.devices { assert Goes(s.devices[k], t.devices[k], s.clock, t.clock); }
  }

  /** A permanent record without a deadline is not granted: the rule for one that was verified recently never
    applies. */
  lemma NoDeadlineNoGrant(d: Device, now: int)
    requires d.grant == Permanent && PermanentDeadline(d, now) == NoDeadline
    ensures Legacy(d) && !StillGranted(d, now)
  {
  }

  /** The grants of a store that are live, after the migration that reading them would bring. */
  function Live(s: Store): (live: set<nat>)
    ensures forall k :: k in live <==>
              k in s.devices && StillGranted(Migrated(s.devices[k], s.clock, s.idleMs), s.clock)
  {
    set k | k in s.devices && StillGranted(Migrated(s.devices[k], s.clock, s.idleMs), s.clock)
  }

  lemma SweepLeavesLive(s: Store, page: set<nat>, gone: set<string>)
    requires Inv(s) && ValidSweep(s, page, gone)
    ensures var m := Sweep(s, page, gone);
            && m.devices.Keys == Live(s) && m.devices.Keys * page == Live(s) && forall k :: k in Live(s) ==>
                 m.devices[k].key == s.devices[k].key
  {
    SubsetSize(page, s.devices.Keys);
    var m := Sweep(s, page, gone);
    forall k ensures k in m.devices <==> k in Live(s) {}
    assert m.devices.Keys == Live(s);
    assert m.devices.Keys * page == Live(s);
  }

  lemma PageIsComplete(s: Store, page: set<nat>, gone: set<string>)
    requires Inv(s) && ValidSweep(s, page, gone)
    ensures Complete(page) && s.supply !in s.devices
  {
    SubsetSize(page, s.devices.Keys);
  }

  /** A device is admitted exactly when, of the stored grants, fewer than 64 are live and none of those has its key. */
  lemma ApprovalExact(s: Store, key: string, temporary: bool, page: set<nat>, gone: set<string>)
    requires Inv(s) && ValidSweep(s, page, gone)
    ensures s.supply in Apply(s, Approve(key, temporary, page, gone)).devices <==>
              |Live(s)| < 64 && forall k :: k in Live(s) ==> s.devices[k].key != key
  {
    SweepLeavesLive(s, page, gone);
    PageIsComplete(s, page, gone);
    AdmissionExact(s, Sweep(s, page, gone), page, ApprovedDevice(key, temporary, s.clock, s.idleMs));
  }

  lemma AdmissionExact(s: Store, m: Store, page: set<nat>, d: Device)
    requires Complete(page) && s.supply !in s.devices && m.supply == s.supply
    requires m.devices.Keys == Live(s) && m.devices.Keys * page == Live(s)
    requires forall k :: k in Live(s) ==> m.devices[k].key == s.devices[k].key
    ensures s.supply in AdmitTx(m, page, d).devices <==>
              |Live(s)| < 64 && forall k :: k in Live(s) ==> s.devices[k].key != d.key
  {
    assert m.supply !in m.devices.Keys;
    AdmissibleExact(s, m, page, d.key);
    AdmitTxExact(m, page, d);
  }

  lemma AdmitTxExact(m: Store, page: set<nat>, d: Device)
    ensures m.supply in m.devices || (m.supply in AdmitTx(m, page, d).devices <==> Admissible(m.devices, page, d.key))
  {
  }

  lemma AdmissibleExact(s: Store, m: Store, page: set<nat>, key: string)
    requires m.devices.Keys == Live(s) && m.devices.Keys * page == Live(s) && Complete(page)
    requires forall k :: k in Live(s) ==> m.devices[k].key == s.devices[k].key
    ensures Admissible(m.devices, page, key) <==> |Live(s)| < 64 && forall k :: k in Live(s) ==> s.devices[k].key != key
  {
    forall k | k in Live(s) ensures k in m.devices && k in page { assert k in m.devices.Keys * page; }
    TakenExact(s, m, page, key);
  }

  lemma TakenExact(s: Store, m: Store, page: set<nat>, key: string)
    requires m.devices.Keys == Live(s) && Live(s) <= page
    requires forall k :: k in Live(s) ==> m.devices[k].key == s.devices[k].key
    ensures KeyTaken(m.devices, page, key) <==> exists k :: k in Live(s) && s.devices[k].key == key
  {
  }

  // ---- the owner's stop and resume ----

  /** No generation of a device is used for two effective stops or resumes. */
  lemma OneEffectPerGeneration(idleMs: nat, clock: nat, run: seq<Action>)
    requires ValidIdle(idleMs)
    ensures var s := Exec(Empty(idleMs, clock), run);
            forall i, j :: 0 <= i < j < |s.effects| ==>
              s.effects[i].device != s.effects[j].device || s.effects[i].generation != s.effects[j].generation
  {
    FromEmpty(idleMs, clock, run);
  }

  /** The steps that start a device's idle window anew, or set its date on a verified close. */
  predicate Renews(a: Action, id: nat) {
    (a.Consume? && a.id == id && a.socket) || (a.Refresh? && a.id == id) || (a.Close? && a.id == id)
  }

  predicate NoRenewal(run: seq<Action>, id: nat) { forall i :: 0 <= i < |run| ==> !Renews(run[i], id) }

  predicate NoLater(d: Device, t: Device, now: int, later: int) {
    PermanentDeadline(d, now).At? ==>
      PermanentDeadline(t, later).At? && PermanentDeadline(t, later).time <= PermanentDeadline(d, now).time
  }

  predicate SameDates(d: Device, t: Device) {
    t.grant == d.grant && t.idleExpires == d.idleExpires && t.lastVerified == d.lastVerified &&
      t.idleWindow == d.idleWindow
  }

  lemma SameDatesNoLater(d: Device, t: Device, now: int, later: int)
    requires SameDates(d, t) && now <= later && (d.lastVerified.Some? ==> d.lastVerified.value <= now)
    ensures NoLater(d, t, now, later)
  {
  }

  /** A stop stores the deadline there is, or an earlier one; a resume leaves it. */
  lemma IntentNeverLengthens(s: Store, id: nat, c: Challenge, key: string)
    requires Inv(s) && id in s.devices
    ensures var t := CommitIntentTx(s, id, c, key);
            id in t.devices && NoLater(s.devices[id], t.devices[id], s.clock, s.clock)
  {
    var d := s.devices[id];
    if ChallengeStands(s, id, c, key) && c.intent == Stop && !d.stopped &&
      InForce(StopExpiry(d, s.clock, s.idleMs), s.clock) {
      StopNoLater(d, s.clock, s.idleMs);
    } else {
      assert SameDates(d, CommitIntentTx(s, id, c, key).devices[id]);
      SameDatesNoLater(d, CommitIntentTx(s, id, c, key).devices[id], s.clock, s.clock);
    }
  }

  lemma StopNoLater(d: Device, now: int, idleMs: nat)
    requires !d.stopped && d.grant == Permanent && InForce(StopExpiry(d, now, idleMs), now) && now >= 0
    ensures forall t: Device :: t.grant == Permanent && t.idleExpires == Some(StopExpiry(d, now, idleMs).time) ==>
              NoLater(d, t, now, now)
  {
  }

  lemma SweepDatesStay(s: Store, page: set<nat>, gone: set<string>, id: nat)
    requires id in s.devices && !Legacy(s.devices[id]) && id in Sweep(s, page, gone).devices
    ensures SameDates(s.devices[id], Sweep(s, page, gone).devices[id])
  {
  }

  lemma AdmitDatesStay(s: Store, page: set<nat>, d: Device, id: nat)
    requires id < s.supply
    ensures id in AdmitTx(s, page, d).devices <==> id in s.devices
    ensures id in s.devices ==> AdmitTx(s, page, d).devices[id] == s.devices[id]
  {
  }

  lemma AdmissionDatesStay(s: Store, page: set<nat>, gone: set<string>, d: Device, id: nat)
    requires id in s.devices && !Legacy(s.devices[id]) && id < s.supply
    requires id in AdmitTx(Sweep(s, page, gone), page, d).devices
    ensures SameDates(s.devices[id], AdmitTx(Sweep(s, page, gone), page, d).devices[id])
  {
    AdmitDatesStay(Sweep(s, page, gone), page, d, id);
    SweepDatesStay(s, page, gone, id);
  }

  lemma EnrollDatesStay(s: Store, key: string, attempt: Attempt, expires: int, page: set<nat>, gone: set<string>,
                        id: nat)
    requires id in s.devices && !Legacy(s.devices[id]) && id < s.supply
    requires id in EnrollTx(Sweep(s, page, gone), key, attempt, expires, page).devices
    ensures SameDates(s.devices[id], EnrollTx(Sweep(s, page, gone), key, attempt, expires, page).devices[id])
  {
    var m := Sweep(s, page, gone);
    var t := EnrollTx(m, key, attempt, expires, page);
    if t == m { SweepDatesStay(s, page, gone, id); }
    else { AdmissionDatesStay(s, page, gone, EnrolledDevice(key, attempt, expires, m.clock), id); }
  }

  lemma GrantDatesStay(s: Store, a: Action, id: nat)
    requires id in s.devices && !Legacy(s.devices[id]) && id in Apply(s, a).devices && id < s.supply
    requires a.RegisterPending? || a.Approve? || a.Enroll?
    ensures SameDates(s.devices[id], Apply(s, a).devices[id])
  {
    if ValidSweep(s, a.page, a.gone) {
      match a
      case RegisterPending(page, gone) => SweepDatesStay(s, page, gone, id);
      case Approve(key, temporary, page, gone) =>
        AdmissionDatesStay(s, page, gone, ApprovedDevice(key, temporary, s.clock, s.idleMs), id);
      case Enroll(key, attempt, expires, page, gone) => EnrollDatesStay(s, key, attempt, expires, page, gone, id);
    }
  }

  /** Every step but the owner's intents leaves the dates of a record that has a deadline as they are. */
  lemma DatesStay(s: Store, a: Action, id: nat)
    requires id in s.devices && !Legacy(s.devices[id]) && !Renews(a, id) && id in Apply(s, a).devices && id < s.supply
    requires !a.CommitIntent? || a.id != id
    ensures SameDates(s.devices[id], Apply(s, a).devices[id])
  {
    match a
    case RegisterPending(_, _) => GrantDatesStay(s, a, id);
    case Approve(_, _, _, _) => GrantDatesStay(s, a, id);
    case Enroll(_, _, _, _, _) => GrantDatesStay(s, a, id);
    case CommitIntent(_, _, _) => IntentLeavesOthers(s, a, id);
    case _ =>
  }

  lemma IntentLeavesOthers(s: Store, a: Action, id: nat)
    requires a.CommitIntent? && a.id != id && id in s.devices
    ensures id in Apply(s, a).devices && Apply(s, a).devices[id] == s.devices[id]
  {
  }

  /** What other steps leave of the dates of a record with a deadline. */
  lemma OtherNeverLengthens(s: Store, a: Action, id: nat)
    requires Inv(s) && id in s.devices && !Renews(a, id) && id in Apply(s, a).devices &&
             (!a.CommitIntent? || a.id != id)
    requires PermanentDeadline(s.devices[id], s.clock).At?
    ensures NoLater(s.devices[id], Apply(s, a).devices[id], s.clock, Apply(s, a).clock)
  {
    var t := Apply(s, a);
    DatesStay(s, a, id);
    StepOk(s, a);
    SameDatesNoLater(s.devices[id], t.devices[id], s.clock, t.clock);
  }

  lemma StepNeverLengthens(s: Store, a: Action, id: nat)
    requires Inv(s) && id in s.devices && !Renews(a, id) && id in Apply(s, a).devices
    ensures NoLater(s.devices[id], Apply(s, a).devices[id], s.clock, Apply(s, a).clock)
  {
    if PermanentDeadline(s.devices[id], s.clock).At? {
      if a.CommitIntent? && a.id == id { IntentNeverLengthens(s, id, a.challenge, a.key); }
      else { OtherNeverLengthens(s, a, id); }
    }
  }

  lemma GoneStaysGone(s: Store, run: seq<Action>, id: nat)
    requires Inv(s) && id in Exec(s, run).devices && id < s.supply
    ensures id in s.devices
  {
    RunOk(s, run);
  }

  /** Whatever the owner stops and resumes, and whatever else happens that is not a proof, a probe or a verified close
    of the device's own socket: its deadline never moves back. */
  lemma {:induction false} DeadlineNeverGrows(s: Store, run: seq<Action>, id: nat)
    requires Inv(s) && id in s.devices && NoRenewal(run, id) && id in Exec(s, run).devices
    ensures NoLater(s.devices[id], Exec(s, run).devices[id], s.clock, Exec(s, run).clock)
  {
    if run != [] {
      var before, last := run[..|run| - 1], run[|run| - 1];
      var m := Exec(s, before);
      RunOk(s, before);
      GoneStaysGone(m, [last], id);
      DeadlineNeverGrows(s, before, id);
      StepNeverLengthens(m, last, id);
    }
  }

  // ---- revoked session attempts ----

  /** Once a session's device is revoked, no device of that attempt is enrolled before the attempt's own end. */
  lemma RevokedAttemptStaysOut(s: Store, id: nat, run: seq<Action>)
    requires Inv(s) && id in s.devices && !s.devices[id].revoked && s.devices[id].grant.Session?
    requires s.devices[id].expires.Some? && Safe(s.devices[id].expires.value) && s.clock < s.devices[id].expires.value
    requires Exec(Apply(s, Revoke(id)), run).clock < s.devices[id].expires.value
    ensures var t := Exec(Apply(s, Revoke(id)), run);
            forall k :: k in t.devices ==> !OfAttempt(t.devices[k], s.devices[id].grant.attempt.id)
  {
    var r := Apply(s, Revoke(id));
    var a := s.devices[id].grant.attempt.id;
    StepOk(s, Revoke(id));
    RevokeFences(s, id);
    RunOk(r, run);
    FencedOut(r, Exec(r, run), a);
  }

  lemma RevokeFences(s: Store, id: nat)
    requires id in s.devices && !s.devices[id].revoked && s.devices[id].grant.Session?
    requires s.devices[id].expires.Some? && Safe(s.devices[id].expires.value) && s.clock < s.devices[id].expires.value
    ensures var a := s.devices[id].grant.attempt.id; var r := Apply(s, Revoke(id));
            a in r.fences && r.fences[a] == s.devices[id].expires.value
  {
  }

  lemma FencedOut(r: Store, t: Store, a: string)
    requires a in r.fences && t.clock < r.fences[a] && FencesGo(r.fences, t.fences, t.clock) &&
             Unfenced(t.devices, t.fences)
    ensures forall k :: k in t.devices ==> !OfAttempt(t.devices[k], a)
  {
  }
}
