/** What every transaction of the remote-control owner keeps. Each part of the invariant names the fields it is
  about. */
module GrantSafety {
  import opened Common
  import opened GrantStore

  predicate SameAttempt(a: Device, b: Device) {
    a.grant.Session? && b.grant.Session? && a.grant.attempt.id == b.grant.attempt.id
  }

  /** Stored records have different keys, and different session attempts. */
  ghost predicate Distinct(devices: map<nat, Device>) {
    && (forall k, l :: k in devices && l in devices && devices[k].key == devices[l].key ==> k == l)
    && (forall k, l :: k in devices && l in devices && SameAttempt(devices[k], devices[l]) ==> k == l)
  }

  ghost predicate Unfenced(devices: map<nat, Device>, fences: map<string, int>) {
    forall k :: k in devices && devices[k].grant.Session? ==> devices[k].grant.attempt.id !in fences
  }

  ghost predicate RowsOk(devices: map<nat, Device>, supply: nat, clock: int) {
    && |devices.Keys| <= MAX_GRANTS
    && forall k :: k in devices ==>
         k < supply && (devices[k].lastVerified.Some? ==> devices[k].lastVerified.value <= clock)
  }

  ghost predicate NoncesOk(nonces: map<nat, Nonce>, consumed: seq<Consumption>, supply: nat) {
    && (forall k :: k in nonces ==> nonces[k].value < supply)
    && (forall k, l :: k in nonces && l in nonces && nonces[k].value == nonces[l].value ==> k == l)
    && (forall c :: c in consumed ==> c.nonce < supply && forall k :: k in nonces ==> nonces[k].value != c.nonce)
    && (forall i, j :: 0 <= i < j < |consumed| ==> consumed[i].nonce != consumed[j].nonce)
  }

  /** Each nonce is handed out once. */
  ghost predicate IssuesOk(issues: seq<Issue>, supply: nat) {
    && (forall i :: 0 <= i < |issues| ==> issues[i].nonce < supply)
    && (forall i, j :: 0 <= i < j < |issues| ==> issues[i].nonce != issues[j].nonce)
  }

  ghost predicate Issued(k: nat, n: Nonce, issues: seq<Issue>, clock: int) {
    exists i :: 0 <= i < |issues| && issues[i] == Issue(k, n.value, n.expires - MINUTE) && issues[i].at <= clock
  }

  ghost predicate InTime(c: Consumption, issues: seq<Issue>) {
    exists i :: 0 <= i < |issues| && issues[i].device == c.device && issues[i].nonce == c.nonce &&
                issues[i].at <= c.at < issues[i].at + MINUTE
  }

  /** What is stored was handed out a minute before its end, and what was consumed had not ended. */
  ghost predicate TimesOk(nonces: map<nat, Nonce>, issues: seq<Issue>, consumed: seq<Consumption>, clock: int) {
    && (forall k :: k in nonces ==> Issued(k, nonces[k], issues, clock))
    && (forall c :: c in consumed ==> InTime(c, issues))
  }

  ghost predicate EpochsOk(epochs: map<nat, nat>, consumed: seq<Consumption>, supply: nat) {
    forall k :: k in epochs ==>
        epochs[k] < supply && exists c :: c in consumed && c.device == k && c.epoch == Some(epochs[k])
  }

  ghost predicate EffectsOk(effects: seq<Effect>, devices: map<nat, Device>, supply: nat) {
    && (forall e :: e in effects ==>
          e.device < supply && (e.device in devices ==> e.generation < devices[e.device].generation))
    && (forall i, j :: 0 <= i < j < |effects| ==>
          effects[i].device != effects[j].device || effects[i].generation != effects[j].generation)
  }

  ghost predicate Inv(s: Store) {
    && DAY <= s.idleMs <= 90 * DAY && 0 <= s.clock
    && RowsOk(s.devices, s.supply, s.clock) && Distinct(s.devices) && Unfenced(s.devices, s.fences)
    && NoncesOk(s.nonces, s.consumed, s.supply) && EpochsOk(s.epochs, s.consumed, s.supply)
    && EffectsOk(s.effects, s.devices, s.supply)
    && IssuesOk(s.issues, s.supply) && TimesOk(s.nonces, s.issues, s.consumed, s.clock)
  }

  // ---- what a later state keeps ----

  predicate Lapsed(d: Device, now: int) { !Legacy(d) && !StillGranted(d, now) }

  /** A record goes on: its identity stays, its generation never falls, and once lapsed it stays so. */
  predicate Goes(d: Device, t: Device, now: int, later: int) {
    && t.key == d.key && t.grant == d.grant && t.approvedAt == d.approvedAt && t.expires == d.expires &&
       d.generation <= t.generation
    && (Lapsed(d, now) ==> Lapsed(t, later))
  }

  ghost predicate RowsGo(devices: map<nat, Device>, after: map<nat, Device>, supply: nat, now: int, later: int) {
    forall k :: k in after ==> if k in devices then Goes(devices[k], after[k], now, later) else k >= supply
  }

  ghost predicate EpochsGo(s: Store, t: Store) {
    && (forall k :: k in t.epochs ==> Current(s, k, t.epochs[k]) || t.epochs[k] >= s.supply)
    && (forall i :: |s.writes| <= i < |t.writes| ==>
          Current(s, t.writes[i].device, t.writes[i].epoch) || t.writes[i].epoch >= s.supply)
  }

  ghost predicate FencesGo(fences: map<string, int>, after: map<string, int>, later: int) {
    forall a :: a in fences ==> (a in after && after[a] == fences[a]) || fences[a] <= later
  }

  ghost predicate Evolves(s: Store, t: Store) {
    && t.idleMs == s.idleMs && s.clock <= t.clock && s.supply <= t.supply
    && s.issues <= t.issues && s.consumed <= t.consumed && s.writes <= t.writes && s.effects <= t.effects
    && RowsGo(s.devices, t.devices, s.supply, s.clock, t.clock) && EpochsGo(s, t) &&
       FencesGo(s.fences, t.fences, t.clock)
  }

  lemma GoesTransitive(d: Device, m: Device, t: Device, a: int, b: int, c: int)
    requires Goes(d, m, a, b) && Goes(m, t, b, c)
    ensures Goes(d, t, a, c)
  {
  }

  lemma RowsGoTransitive(s: Store, m: Store, t: Store)
    requires RowsOk(s.devices, s.supply, s.clock) && s.supply <= m.supply
    requires RowsGo(s.devices, m.devices, s.supply, s.clock, m.clock) &&
             RowsGo(m.devices, t.devices, m.supply, m.clock, t.clock)
    ensures RowsGo(s.devices, t.devices, s.supply, s.clock, t.clock)
  {
    forall k | k in t.devices
      ensures if k in s.devices then Goes(s.devices[k], t.devices[k], s.clock, t.clock) else k >= s.supply {
      if k in m.devices && k in s.devices {
        GoesTransitive(s.devices[k], m.devices[k], t.devices[k], s.clock, m.clock, t.clock);
      }
    }
  }

  lemma EvolvesTransitive(s: Store, m: Store, t: Store)
    requires RowsOk(s.devices, s.supply, s.clock) && Evolves(s, m) && Evolves(m, t)
    ensures Evolves(s, t)
  {
    RowsGoTransitive(s, m, t);
  }

  // ---- parts ----

  lemma SubsetSize<T>(a: set<T>, b: set<T>)
    requires a <= b
    ensures |a| <= |b| && (|a| == |b| ==> a == b)
  {
    assert b == a + (b - a);
  }

  /** Records may go, or go on. */
  lemma RowsShrink(s: Store, after: map<nat, Device>)
    requires RowsOk(s.devices, s.supply, s.clock) && Distinct(s.devices) && Unfenced(s.devices, s.fences)
    requires EffectsOk(s.effects, s.devices, s.supply)
    requires after.Keys <= s.devices.Keys && RowsGo(s.devices, after, s.supply, s.clock, s.clock)
    requires forall k :: k in after && after[k].lastVerified.Some? ==> after[k].lastVerified.value <= s.clock
    ensures RowsOk(after, s.supply, s.clock) && Distinct(after) && Unfenced(after, s.fences) &&
            EffectsOk(s.effects, after, s.supply)
  {
    SubsetSize(after.Keys, s.devices.Keys);
    forall k | k in after ensures k in s.devices && Goes(s.devices[k], after[k], s.clock, s.clock) {}
  }

  /** One record goes on. */
  lemma RowSet(s: Store, k: nat, d: Device)
    requires RowsOk(s.devices, s.supply, s.clock) && Distinct(s.devices) && Unfenced(s.devices, s.fences)
    requires EffectsOk(s.effects, s.devices, s.supply)
    requires k in s.devices && Goes(s.devices[k], d, s.clock, s.clock) &&
             (d.lastVerified.Some? ==> d.lastVerified.value <= s.clock)
    ensures var after := s.devices[k := d];
            && RowsOk(after, s.supply, s.clock) && Distinct(after) && Unfenced(after, s.fences) &&
               EffectsOk(s.effects, after, s.supply)
            && RowsGo(s.devices, after, s.supply, s.clock, s.clock)
  {
    RowsShrink(s, s.devices[k := d]);
  }

  lemma RowsGone(s: Store, after: map<nat, Device>)
    requires RowsOk(s.devices, s.supply, s.clock) && Distinct(s.devices) && Unfenced(s.devices, s.fences)
    requires EffectsOk(s.effects, s.devices, s.supply)
    requires forall k :: k in after ==> k in s.devices && after[k] == s.devices[k]
    ensures RowsOk(after, s.supply, s.clock) && Distinct(after) && Unfenced(after, s.fences) &&
            EffectsOk(s.effects, after, s.supply)
    ensures RowsGo(s.devices, after, s.supply, s.clock, s.clock)
  {
    RowsShrink(s, after);
  }

  lemma NoncesGone(nonces: map<nat, Nonce>, after: map<nat, Nonce>, consumed: seq<Consumption>, supply: nat)
    requires NoncesOk(nonces, consumed, supply) && forall k :: k in after ==> k in nonces && after[k] == nonces[k]
    ensures NoncesOk(after, consumed, supply)
  {
  }

  lemma NonceConsumed(s: Store, id: nat, epoch: Option<nat>)
    requires NoncesOk(s.nonces, s.consumed, s.supply) && id in s.nonces
    ensures NoncesOk(s.nonces - {id}, s.consumed + [Consumption(id, s.nonces[id].value, epoch, s.clock)], s.supply)
  {
    var c := Consumption(id, s.nonces[id].value, epoch, s.clock);
    forall i | 0 <= i < |s.consumed| ensures s.consumed[i].nonce != c.nonce { assert s.consumed[i] in s.consumed; }
    forall e | e in s.consumed + [c]
      ensures e.nonce < s.supply && forall k :: k in s.nonces - {id} ==> s.nonces[k].value != e.nonce {
      assert e == c || e in s.consumed;
    }
  }

  lemma EpochsKept(epochs: map<nat, nat>, after: map<nat, nat>, consumed: seq<Consumption>, c: Consumption, supply: nat)
    requires EpochsOk(epochs, consumed, supply) && forall k :: k in after ==> k in epochs && after[k] == epochs[k]
    ensures EpochsOk(after, consumed + [c], supply) && EpochsOk(after, consumed, supply)
  {
    forall k | k in after
      ensures after[k] < supply && exists e :: e in consumed + [c] && e.device == k && e.epoch == Some(after[k])
    {
      var e :| e in consumed && e.device == k && e.epoch == Some(epochs[k]);
      assert e in consumed + [c];
    }
  }

  lemma SupplyGrows(s: Store, supply: nat)
    requires Inv(s) && s.supply <= supply
    ensures RowsOk(s.devices, supply, s.clock) && NoncesOk(s.nonces, s.consumed, supply)
    ensures EpochsOk(s.epochs, s.consumed, supply) && EffectsOk(s.effects, s.devices, supply) &&
            IssuesOk(s.issues, supply)
  {
  }

  // ---- records ----

  /** Time alone never brings a grant back. */
  lemma LapsedForever(d: Device, now: int, later: int)
    requires Lapsed(d, now) && now <= later && (d.lastVerified.Some? ==> d.lastVerified.value <= now)
    ensures Lapsed(d, later)
  {
  }

  /** A record that is still granted may be changed in anything that is not its identity. */
  lemma GrantedGoes(d: Device, t: Device, now: int)
    requires StillGranted(d, now)
    requires t.key == d.key && t.grant == d.grant && t.approvedAt == d.approvedAt && t.expires == d.expires &&
             d.generation <= t.generation
    ensures Goes(d, t, now, now)
  {
  }

  lemma MigratedGoes(d: Device, now: int, idleMs: nat)
    ensures Goes(d, Migrated(d, now, idleMs), now, now) && Migrated(d, now, idleMs).lastVerified == d.lastVerified
  {
  }

  lemma Stays(s: Store)
    ensures Evolves(s, s)
  {
  }

  // ---- transactions of a socket and of the owner ----

  lemma TickKeeps(s: Store, ms: nat)
    requires Inv(s)
    ensures Inv(Apply(s, Tick(ms))) && Evolves(s, Apply(s, Tick(ms)))
  {
    forall k | k in s.devices ensures Goes(s.devices[k], s.devices[k], s.clock, s.clock + ms) {
      if Lapsed(s.devices[k], s.clock) { LapsedForever(s.devices[k], s.clock, s.clock + ms); }
    }
    TimesStay(s.nonces, s.issues, s.consumed, s.clock, s.clock + ms);
  }

  /** A nonce is handed out. */
  lemma NonceHandedOut(nonces: map<nat, Nonce>, issues: seq<Issue>, consumed: seq<Consumption>, supply: nat, clock: int,
                       id: nat)
    requires NoncesOk(nonces, consumed, supply) && IssuesOk(issues, supply) && TimesOk(nonces, issues, consumed, clock)
    ensures var after := nonces[id := Nonce(supply, clock + MINUTE)]; var more := issues + [Issue(id, supply, clock)];
            IssuesOk(more, supply + 1) && TimesOk(after, more, consumed, clock)
  {
    var after := nonces[id := Nonce(supply, clock + MINUTE)];
    var more := issues + [Issue(id, supply, clock)];
    forall k | k in after ensures Issued(k, after[k], more, clock) {
      if k == id { assert more[|issues|] == Issue(id, supply, after[id].expires - MINUTE); }
      else { IssuedStays(k, nonces[k], issues, more, clock, clock); }
    }
    forall c | c in consumed ensures InTime(c, more) { InTimeStays(c, issues, more); }
  }

  lemma NonceStored(nonces: map<nat, Nonce>, consumed: seq<Consumption>, supply: nat, id: nat, expires: int)
    requires NoncesOk(nonces, consumed, supply)
    ensures NoncesOk(nonces[id := Nonce(supply, expires)], consumed, supply + 1)
  {
  }

  lemma IssuedStays(k: nat, n: Nonce, issues: seq<Issue>, more: seq<Issue>, clock: int, later: int)
    requires Issued(k, n, issues, clock) && issues <= more && clock <= later
    ensures Issued(k, n, more, later)
  {
    var i :| 0 <= i < |issues| && issues[i] == Issue(k, n.value, n.expires - MINUTE) && issues[i].at <= clock;
    assert more[i] == issues[i];
  }

  lemma InTimeStays(c: Consumption, issues: seq<Issue>, more: seq<Issue>)
    requires InTime(c, issues) && issues <= more
    ensures InTime(c, more)
  {
    var i :| 0 <= i < |issues| && issues[i].device == c.device && issues[i].nonce == c.nonce &&
             issues[i].at <= c.at < issues[i].at + MINUTE;
    assert more[i] == issues[i];
  }

  lemma TimesStay(nonces: map<nat, Nonce>, issues: seq<Issue>, consumed: seq<Consumption>, clock: int, later: int)
    requires TimesOk(nonces, issues, consumed, clock) && clock <= later
    ensures TimesOk(nonces, issues, consumed, later)
  {
    forall k | k in nonces ensures Issued(k, nonces[k], issues, later) {
      IssuedStays(k, nonces[k], issues, issues, clock, later);
    }
  }

  /** A nonce that has not ended is consumed. */
  lemma ConsumedInTime(nonces: map<nat, Nonce>, issues: seq<Issue>, consumed: seq<Consumption>, clock: int, id: nat,
                       epoch: Option<nat>)
    requires TimesOk(nonces, issues, consumed, clock) && id in nonces && clock < nonces[id].expires
    ensures TimesOk(nonces - {id}, issues, consumed + [Consumption(id, nonces[id].value, epoch, clock)], clock)
  {
    assert Issued(id, nonces[id], issues, clock);
    assert InTime(Consumption(id, nonces[id].value, epoch, clock), issues);
  }

  lemma IssueNonceKeeps(s: Store, id: nat)
    requires Inv(s)
    ensures Inv(Apply(s, IssueNonce(id))) && Evolves(s, Apply(s, IssueNonce(id)))
  {
    IssueNonceInv(s, id);
    RowsStay(s, Apply(s, IssueNonce(id)));
  }

  /** Only the history, the nonces and the supply grow. */
  lemma RowsStay(s: Store, t: Store)
    requires t.idleMs == s.idleMs && t.clock == s.clock && s.supply <= t.supply && t.devices == s.devices
    requires s.issues <= t.issues && t.consumed == s.consumed && t.writes == s.writes && t.effects == s.effects
    requires t.epochs == s.epochs && t.fences == s.fences
    ensures Evolves(s, t)
  {
  }

  lemma RowsAllow(devices: map<nat, Device>, epochs: map<nat, nat>, consumed: seq<Consumption>, effects: seq<Effect>,
                  supply: nat, clock: int)
    requires RowsOk(devices, supply, clock) && EpochsOk(epochs, consumed, supply) && EffectsOk(effects, devices, supply)
    ensures RowsOk(devices, supply + 1, clock) && EpochsOk(epochs, consumed, supply + 1)
    ensures EffectsOk(effects, devices, supply + 1)
  {
  }

  lemma InvWith(s: Store, nonces: map<nat, Nonce>, issues: seq<Issue>, supply: nat)
    requires DAY <= s.idleMs <= 90 * DAY && 0 <= s.clock
    requires RowsOk(s.devices, supply, s.clock) && Distinct(s.devices) && Unfenced(s.devices, s.fences)
    requires NoncesOk(nonces, s.consumed, supply) && EpochsOk(s.epochs, s.consumed, supply)
    requires EffectsOk(s.effects, s.devices, supply)
    requires IssuesOk(issues, supply) && TimesOk(nonces, issues, s.consumed, s.clock)
    ensures Inv(s.(nonces := nonces, issues := issues, supply := supply))
  {
  }

  lemma IssueNonceInv(s: Store, id: nat)
    requires Inv(s)
    ensures Inv(Apply(s, IssueNonce(id)))
  {
    var nonces := s.nonces[id := Nonce(s.supply, s.clock + MINUTE)];
    var issues := s.issues + [Issue(id, s.supply, s.clock)];
    RowsAllow(s.devices, s.epochs, s.consumed, s.effects, s.supply, s.clock);
    NonceStored(s.nonces, s.consumed, s.supply, id, s.clock + MINUTE);
    NonceHandedOut(s.nonces, s.issues, s.consumed, s.supply, s.clock, id);
    InvWith(s, nonces, issues, s.supply + 1);
  }

  lemma IssueChallengeKeeps(s: Store, id: nat, intent: Intent, generation: nat)
    requires Inv(s)
    ensures Inv(Apply(s, IssueChallenge(id, intent, generation))) &&
            Evolves(s, Apply(s, IssueChallenge(id, intent, generation)))
  {
    SupplyGrows(s, s.supply + 1);
  }

  lemma EpochActivated(s: Store, id: nat, c: Consumption)
    requires EpochsOk(s.epochs, s.consumed, s.supply) && c.device == id && c.epoch == Some(s.supply)
    ensures EpochsOk(s.epochs[id := s.supply], s.consumed + [c], s.supply + 1)
  {
    EpochsKept(s.epochs, s.epochs, s.consumed, c, s.supply);
    assert c in s.consumed + [c];
  }

  lemma ActivateEvolves(s: Store, id: nat, devices: map<nat, Device>)
    requires id in s.nonces && RowsGo(s.devices, devices, s.supply, s.clock, s.clock)
    ensures Evolves(s, Activated(s, id, devices))
  {
  }

  /** The epoch of a socket comes with a nonce that no one consumed before. */
  lemma ActivateKeeps(s: Store, id: nat, devices: map<nat, Device>)
    requires Inv(s) && id in s.nonces && s.clock < s.nonces[id].expires
    requires RowsOk(devices, s.supply, s.clock) && Distinct(devices) && Unfenced(devices, s.fences) &&
             EffectsOk(s.effects, devices, s.supply)
    requires RowsGo(s.devices, devices, s.supply, s.clock, s.clock)
    ensures var t := Activated(s, id, devices); Inv(t) && Evolves(s, t)
  {
    var c := Consumption(id, s.nonces[id].value, Some(s.supply), s.clock);
    NonceConsumed(s, id, Some(s.supply));
    EpochActivated(s, id, c);
    ConsumedInTime(s.nonces, s.issues, s.consumed, s.clock, id, Some(s.supply));
    SupplyAllows(devices, s.issues, s.effects, s.nonces - {id}, s.consumed + [c], s.supply, s.clock);
    ActivateEvolves(s, id, devices);
  }

  lemma SupplyAllows(devices: map<nat, Device>, issues: seq<Issue>, effects: seq<Effect>, nonces: map<nat, Nonce>,
                     consumed: seq<Consumption>, supply: nat, clock: int)
    requires RowsOk(devices, supply, clock) && IssuesOk(issues, supply) && EffectsOk(effects, devices, supply)
    requires NoncesOk(nonces, consumed, supply)
    ensures RowsOk(devices, supply + 1, clock) && IssuesOk(issues, supply + 1) &&
            EffectsOk(effects, devices, supply + 1)
    ensures NoncesOk(nonces, consumed, supply + 1)
  {
  }

  lemma RenewKeeps(s: Store, id: nat)
    requires Inv(s) && id in s.nonces && s.clock < s.nonces[id].expires
    requires id in s.devices && StillGranted(s.devices[id], s.clock)
    ensures var next := Renewed(s.devices[id], s.clock, s.idleMs).(resumePending := false);
            var t := Activated(s, id, s.devices[id := next]); Inv(t) && Evolves(s, t)
  {
    var next := Renewed(s.devices[id], s.clock, s.idleMs).(resumePending := false);
    GrantedGoes(s.devices[id], next, s.clock);
    RowSet(s, id, next);
    ActivateKeeps(s, id, s.devices[id := next]);
  }

  lemma ActivateAloneKeeps(s: Store, id: nat)
    requires Inv(s) && id in s.nonces && s.clock < s.nonces[id].expires
    ensures var t := Activated(s, id, s.devices); Inv(t) && Evolves(s, t)
  {
    RowsGone(s, s.devices);
    ActivateKeeps(s, id, s.devices);
  }

  lemma SocketConsumeKeeps(s: Store, id: nat, nonce: nat, key: string)
    requires Inv(s) && id in s.nonces && s.nonces[id].value == nonce && s.nonces[id].expires > s.clock
    requires id in s.devices && MayConsume(s.devices[id], s.clock, true) && s.devices[id].key == key
    ensures Inv(ConsumeTx(s, id, nonce, key, true)) && Evolves(s, ConsumeTx(s, id, nonce, key, true))
  {
    if s.devices[id].grant == Permanent { RenewKeeps(s, id); } else { ActivateAloneKeeps(s, id); }
  }

  lemma ConsumeKeeps(s: Store, id: nat, nonce: nat, key: string, socket: bool)
    requires Inv(s)
    ensures Inv(ConsumeTx(s, id, nonce, key, socket)) && Evolves(s, ConsumeTx(s, id, nonce, key, socket))
  {
    if id in s.nonces && s.nonces[id].value == nonce && s.nonces[id].expires > s.clock && id in s.devices &&
       MayConsume(s.devices[id], s.clock, socket) && s.devices[id].key == key {
      if socket { SocketConsumeKeeps(s, id, nonce, key); }
      else {
        RowsGone(s, s.devices);
        NonceConsumed(s, id, None);
        ConsumedInTime(s.nonces, s.issues, s.consumed, s.clock, id, None);
        EpochsKept(s.epochs, s.epochs, s.consumed, Consumption(id, nonce, None, s.clock), s.supply);
      }
    }
  }

  /** A write that a socket's transaction makes to the record of its device. */
  lemma WriteKeeps(s: Store, id: nat, d: Device, w: Write)
    requires Inv(s) && id in s.devices && Goes(s.devices[id], d, s.clock, s.clock) &&
             (d.lastVerified.Some? ==> d.lastVerified.value <= s.clock)
    requires Current(s, w.device, w.epoch)
    ensures var t := s.(devices := s.devices[id := d], writes := s.writes + [w]); Inv(t) && Evolves(s, t)
  {
    RowSet(s, id, d);
  }

  lemma GrantedWriteKeeps(s: Store, id: nat, t: Device, w: Write)
    requires Inv(s) && id in s.devices && StillGranted(s.devices[id], s.clock) && Current(s, w.device, w.epoch)
    requires var d := s.devices[id];
             t.key == d.key && t.grant == d.grant && t.approvedAt == d.approvedAt && t.expires == d.expires &&
               d.generation <= t.generation
    requires t.lastVerified.Some? ==> t.lastVerified.value <= s.clock
    ensures var after := s.(devices := s.devices[id := t], writes := s.writes + [w]); Inv(after) && Evolves(s, after)
  {
    GrantedGoes(s.devices[id], t, s.clock);
    WriteKeeps(s, id, t, w);
  }

  lemma RefreshKeeps(s: Store, id: nat, epoch: nat, seen: int)
    requires Inv(s) && seen <= s.clock
    ensures Inv(RefreshTx(s, id, epoch, seen)) && Evolves(s, RefreshTx(s, id, epoch, seen))
  {
    if id in s.devices && Authorized(s.devices[id], s.clock) && Current(s, id, epoch) {
      GrantedWriteKeeps(s, id, Renewed(s.devices[id], seen, s.idleMs), Write(id, epoch, Refreshed));
      Stays(s);
    } else { Stays(s); }
  }

  lemma DescribeKeeps(s: Store, id: nat, epoch: nat, info: string)
    requires Inv(s)
    ensures Inv(DescribeTx(s, id, epoch, info)) && Evolves(s, DescribeTx(s, id, epoch, info))
  {
    if id in s.devices && Authorized(s.devices[id], s.clock) && Current(s, id, epoch) {
      GrantedWriteKeeps(s, id, s.devices[id].(info := Some(info)), Write(id, epoch, Described));
    } else { Stays(s); }
  }

  lemma CloseKeeps(s: Store, id: nat, epoch: nat)
    requires Inv(s)
    ensures Inv(CloseTx(s, id, epoch)) && Evolves(s, CloseTx(s, id, epoch))
  {
    if id !in s.devices || !Current(s, id, epoch) || !MayClose(s.devices[id], s.clock, s.idleMs) { Stays(s); }
    else {
      var next := CloseTx(s, id, epoch).devices[id];
      GrantedWriteKeeps(s, id, next, Write(id, epoch, Closed));
    }
  }

  /** An effective stop or resume takes its generation, and no other ever takes the same one. */
  lemma EffectsGrow(s: Store, id: nat, d: Device, e: Effect)
    requires EffectsOk(s.effects, s.devices, s.supply) && id in s.devices && id < s.supply
    requires e.device == id && e.generation == s.devices[id].generation && d.generation == e.generation + 1
    ensures EffectsOk(s.effects + [e], s.devices[id := d], s.supply)
  {
    var after := s.devices[id := d];
    forall i | 0 <= i < |s.effects| ensures s.effects[i].device != id || s.effects[i].generation != e.generation {
      assert s.effects[i] in s.effects;
    }
    forall f | f in s.effects + [e]
      ensures f.device < s.supply && (f.device in after ==> f.generation < after[f.device].generation) {
      assert f == e || f in s.effects;
    }
  }

  lemma EffectKeeps(s: Store, id: nat, d: Device, e: Effect, epochs: map<nat, nat>, nonces: map<nat, Nonce>)
    requires Inv(s) && id in s.devices && Goes(s.devices[id], d, s.clock, s.clock) &&
             d.lastVerified == s.devices[id].lastVerified
    requires e.device == id && e.generation == s.devices[id].generation && d.generation == e.generation + 1
    requires forall k :: k in epochs ==> k in s.epochs && epochs[k] == s.epochs[k]
    requires forall k :: k in nonces ==> k in s.nonces && nonces[k] == s.nonces[k]
    ensures var t := s.(devices := s.devices[id := d], effects := s.effects + [e], epochs := epochs, nonces := nonces);
            Inv(t) && Evolves(s, t)
  {
    RowSet(s, id, d);
    EffectsGrow(s, id, d, e);
    NoncesGone(s.nonces, nonces, s.consumed, s.supply);
    EpochsKept(s.epochs, epochs, s.consumed, Consumption(0, 0, None, 0), s.supply);
  }

  lemma EpochsAndNoncesGone(s: Store, epochs: map<nat, nat>, nonces: map<nat, Nonce>, challenges: map<nat, Challenge>)
    requires Inv(s)
    requires forall k :: k in epochs ==> k in s.epochs && epochs[k] == s.epochs[k]
    requires forall k :: k in nonces ==> k in s.nonces && nonces[k] == s.nonces[k]
    ensures var t := s.(epochs := epochs, nonces := nonces, challenges := challenges); Inv(t) && Evolves(s, t)
  {
    NoncesGone(s.nonces, nonces, s.consumed, s.supply);
    EpochsKept(s.epochs, epochs, s.consumed, Consumption(0, 0, None, 0), s.supply);
    RowsGone(s, s.devices);
  }

  lemma StopKeeps(s: Store, id: nat, c: Challenge)
    requires Inv(s) && id in s.devices && StillGranted(s.devices[id], s.clock) &&
             s.devices[id].generation == c.generation
    ensures Inv(StopTx(s, id, c)) && Evolves(s, StopTx(s, id, c))
  {
    var d := s.devices[id];
    if !InForce(StopExpiry(d, s.clock, s.idleMs), s.clock) { Stays(s); }
    else if d.stopped { EpochsAndNoncesGone(s, s.epochs - {id}, s.nonces - {id}, s.challenges); }
    else {
      var next := StopTx(s, id, c).devices[id];
      GrantedGoes(d, next, s.clock);
      EffectKeeps(s, id, next, Effect(id, c.generation, Stop), s.epochs - {id}, s.nonces - {id});
    }
  }

  lemma ResumeKeeps(s: Store, id: nat, c: Challenge)
    requires Inv(s) && id in s.devices && StillGranted(s.devices[id], s.clock) &&
             s.devices[id].generation == c.generation
    ensures Inv(ResumeTx(s, id, c)) && Evolves(s, ResumeTx(s, id, c))
  {
    var d := s.devices[id];
    if !d.stopped || !InForce(PermanentDeadline(d, s.clock), s.clock) { Stays(s); }
    else {
      var next := ResumeTx(s, id, c).devices[id];
      GrantedGoes(d, next, s.clock);
      EffectKeeps(s, id, next, Effect(id, c.generation, Resume), s.epochs - {id}, s.nonces);
    }
  }

  lemma CommitIntentKeeps(s: Store, id: nat, c: Challenge, key: string)
    requires Inv(s)
    ensures Inv(CommitIntentTx(s, id, c, key)) && Evolves(s, CommitIntentTx(s, id, c, key))
  {
    if ChallengeStands(s, id, c, key) {
      var m := s.(challenges := s.challenges - {id});
      EpochsAndNoncesGone(s, s.epochs, s.nonces, m.challenges);
      if c.intent == Stop { StopKeeps(m, id, c); } else { ResumeKeeps(m, id, c); }
      EvolvesTransitive(s, m, CommitIntentTx(s, id, c, key));
    }
  }

  // ---- sweeps, admissions, revocations ----

  lemma FencesGone(s: Store, fences: map<string, int>)
    requires Inv(s) && (forall a :: a in fences ==> a in s.fences && fences[a] == s.fences[a])
    requires forall a :: a in s.fences && a !in fences ==> s.fences[a] <= s.clock
    ensures Inv(s.(fences := fences)) && Evolves(s, s.(fences := fences))
  {
    RowsGone(s, s.devices);
  }

  lemma RowsSwept(s: Store, page: set<nat>)
    requires Inv(s)
    ensures var devices := Swept(s.devices, page, s.clock, s.idleMs);
            && RowsOk(devices, s.supply, s.clock) && Distinct(devices) && Unfenced(devices, s.fences)
            && EffectsOk(s.effects, devices, s.supply) && RowsGo(s.devices, devices, s.supply, s.clock, s.clock)
  {
    var devices := Swept(s.devices, page, s.clock, s.idleMs);
    forall k | k in devices
      ensures k in s.devices && Goes(s.devices[k], devices[k], s.clock, s.clock) &&
              devices[k].lastVerified == s.devices[k].lastVerified {
      MigratedGoes(s.devices[k], s.clock, s.idleMs);
    }
    RowsShrink(s, devices);
  }

  /** The sweep of any page; of a store of at most 64 records it leaves exactly the granted ones. */
  lemma SweepKeeps(s: Store, page: set<nat>, gone: set<string>)
    requires Inv(s) && ValidSweep(s, page, gone)
    ensures var t := Sweep(s, page, gone);
            && Inv(t) && Evolves(s, t) && t.clock == s.clock && t.supply == s.supply
            && page == s.devices.Keys && t.devices.Keys <= page && forall a :: a in t.fences <==>
                 a in s.fences && a !in gone
  {
    RowsSwept(s, page);
    SubsetSize(page, s.devices.Keys);
    var t := Sweep(s, page, gone);
    var m := s.(devices := t.devices, nonces := t.nonces, epochs := t.epochs);
    NoncesGone(s.nonces, t.nonces, s.consumed, s.supply);
    EpochsKept(s.epochs, t.epochs, s.consumed, Consumption(0, 0, None, 0), s.supply);
    assert Inv(m) && Evolves(s, m);
    FencesGone(m, t.fences);
    EvolvesTransitive(s, m, t);
  }

  /** A new record: there is room, its key and its attempt are no other's, and its attempt was not revoked. */
  lemma InsertKeeps(s: Store, d: Device)
    requires Inv(s) && |s.devices.Keys| < MAX_GRANTS && d.lastVerified == None
    requires forall k :: k in s.devices ==> s.devices[k].key != d.key && !SameAttempt(s.devices[k], d)
    requires d.grant.Session? ==> d.grant.attempt.id !in s.fences
    ensures var t := s.(devices := s.devices[s.supply := d], supply := s.supply + 1); Inv(t) && Evolves(s, t)
  {
    SupplyGrows(s, s.supply + 1);
    InsertedRows(s, d);
    InsertedEffects(s, d);
    InsertedDistinct(s, d);
    InsertedGoes(s, d);
  }

  lemma OneMore(keys: set<nat>, k: nat)
    requires k !in keys
    ensures |keys + {k}| == |keys| + 1
  {
  }

  lemma InsertedRows(s: Store, d: Device)
    requires RowsOk(s.devices, s.supply, s.clock) && |s.devices.Keys| < MAX_GRANTS && d.lastVerified == None
    ensures RowsOk(s.devices[s.supply := d], s.supply + 1, s.clock)
  {
    OneMore(s.devices.Keys, s.supply);
    assert s.devices[s.supply := d].Keys == s.devices.Keys + {s.supply};
  }

  lemma InsertedEffects(s: Store, d: Device)
    requires EffectsOk(s.effects, s.devices, s.supply)
    ensures EffectsOk(s.effects, s.devices[s.supply := d], s.supply + 1)
  {
  }

  lemma InsertedGoes(s: Store, d: Device)
    requires RowsOk(s.devices, s.supply, s.clock)
    ensures RowsGo(s.devices, s.devices[s.supply := d], s.supply, s.clock, s.clock)
  {
  }

  lemma InsertedDistinct(s: Store, d: Device)
    requires Distinct(s.devices) && Unfenced(s.devices, s.fences) && RowsOk(s.devices, s.supply, s.clock)
    requires forall k :: k in s.devices ==> s.devices[k].key != d.key && !SameAttempt(s.devices[k], d)
    requires d.grant.Session? ==> d.grant.attempt.id !in s.fences
    ensures var after := s.devices[s.supply := d]; Distinct(after) && Unfenced(after, s.fences)
  {
  }

  lemma NoneTaken(devices: map<nat, Device>, page: set<nat>, d: Device)
    requires devices.Keys <= page && !KeyTaken(devices, page, d.key)
    requires d.grant.Session? ==> !AttemptTaken(devices, page, d.grant.attempt.id)
    ensures forall k :: k in devices ==> devices[k].key != d.key && !SameAttempt(devices[k], d)
  {
    forall k | k in devices ensures devices[k].key != d.key && !SameAttempt(devices[k], d) {
      assert k in page;
      if SameAttempt(devices[k], d) { assert OfAttempt(devices[k], d.grant.attempt.id); }
    }
  }

  lemma AdmitKeeps(s: Store, page: set<nat>, d: Device)
    requires Inv(s) && s.devices.Keys <= page && d.lastVerified == None
    requires d.grant.Session? ==> d.grant.attempt.id !in s.fences && !AttemptTaken(s.devices, page, d.grant.attempt.id)
    ensures Inv(AdmitTx(s, page, d)) && Evolves(s, AdmitTx(s, page, d))
  {
    if Admissible(s.devices, page, d.key) { AdmittedKeeps(s, page, d); } else { Stays(s); }
  }

  lemma AdmittedKeeps(s: Store, page: set<nat>, d: Device)
    requires Inv(s) && s.devices.Keys <= page && d.lastVerified == None && Admissible(s.devices, page, d.key)
    requires d.grant.Session? ==>
               d.grant.attempt.id !in s.fences && !AttemptTaken(s.devices, page, d.grant.attempt.id)
    ensures var t := s.(devices := s.devices[s.supply := d], supply := s.supply + 1); Inv(t) && Evolves(s, t)
  {
    assert s.devices.Keys * page == s.devices.Keys;
    NoneTaken(s.devices, page, d);
    InsertKeeps(s, d);
  }

  lemma ApproveKeeps(s: Store, key: string, temporary: bool, page: set<nat>, gone: set<string>)
    requires Inv(s) && ValidSweep(s, page, gone)
    ensures var t := ApproveTx(Sweep(s, page, gone), key, temporary, page); Inv(t) && Evolves(s, t)
  {
    var m := Sweep(s, page, gone);
    var d := ApprovedDevice(key, temporary, s.clock, s.idleMs);
    SweepKeeps(s, page, gone);
    AdmitKeeps(m, page, d);
    EvolvesTransitive(s, m, AdmitTx(m, page, d));
  }

  lemma EnrollKeeps(s: Store, key: string, attempt: Attempt, expires: int, page: set<nat>, gone: set<string>)
    requires Inv(s) && ValidSweep(s, page, gone)
    ensures var t := EnrollTx(Sweep(s, page, gone), key, attempt, expires, page); Inv(t) && Evolves(s, t)
  {
    var m := Sweep(s, page, gone);
    SweepKeeps(s, page, gone);
    var t := EnrollTx(m, key, attempt, expires, page);
    if t != m {
      AdmitKeeps(m, page, EnrolledDevice(key, attempt, expires, m.clock));
      EvolvesTransitive(s, m, t);
    }
  }

  lemma DropDeviceKeeps(s: Store, id: nat)
    requires Inv(s)
    ensures var t := s.(devices := s.devices - {id}); Inv(t) && Evolves(s, t)
  {
    RowsGone(s, s.devices - {id});
  }

  /** The fence of a revoked attempt: its only record goes in the same transaction. */
  lemma FenceKeeps(s: Store, id: nat, until: int)
    requires Inv(s) && id in s.devices && s.devices[id].grant.Session?
    ensures var t := s.(devices := s.devices - {id}, fences := s.fences[s.devices[id].grant.attempt.id := until]);
            Inv(t) && Evolves(s, t)
  {
    var a := s.devices[id].grant.attempt.id;
    RowsGone(s, s.devices - {id});
    forall k | k in s.devices - {id} && s.devices[k].grant.Session? ensures s.devices[k].grant.attempt.id != a {
      assert s.devices[k].grant.attempt.id == a ==> SameAttempt(s.devices[k], s.devices[id]);
    }
    assert a !in s.fences;
  }

  lemma RevokeKeeps(s: Store, id: nat)
    requires Inv(s)
    ensures Inv(RevokeTx(s, id)) && Evolves(s, RevokeTx(s, id))
  {
    if id !in s.devices { Stays(s); }
    else if s.devices[id].revoked { DropDeviceKeeps(s, id); }
    else {
      var d := s.devices[id];
      if d.grant.Session? && d.expires.Some? && Safe(d.expires.value) && d.expires.value > s.clock {
        FenceKeeps(s, id, d.expires.value);
        ForgetKeeps(s, s.(devices := s.devices - {id}, fences := s.fences[d.grant.attempt.id := d.expires.value]), id);
      } else {
        DropDeviceKeeps(s, id);
        ForgetKeeps(s, s.(devices := s.devices - {id}), id);
      }
    }
  }

  lemma ForgetKeeps(s: Store, m: Store, id: nat)
    requires Inv(s) && Inv(m) && Evolves(s, m)
    ensures var t := m.(nonces := m.nonces - {id}, epochs := m.epochs - {id}); Inv(t) && Evolves(s, t)
  {
    EpochsAndNoncesGone(m, m.epochs - {id}, m.nonces - {id}, m.challenges);
    EvolvesTransitive(s, m, m.(nonces := m.nonces - {id}, epochs := m.epochs - {id}));
  }

  lemma DropKeeps(s: Store, a: Action)
    requires Inv(s) && (a.DropDevice? || a.DropNonce? || a.DropEpoch? || a.DropFence?)
    ensures Inv(Apply(s, a)) && Evolves(s, Apply(s, a))
  {
    match a
    case DropDevice(id) => DropDeviceKeeps(s, id);
    case DropNonce(id) => EpochsAndNoncesGone(s, s.epochs, s.nonces - {id}, s.challenges);
    case DropEpoch(id) => EpochsAndNoncesGone(s, s.epochs - {id}, s.nonces, s.challenges);
    case DropFence(f) =>
      if f in s.fences && s.fences[f] <= s.clock { FencesGone(s, s.fences - {f}); } else { Stays(s); }
  }

  lemma MigrateKeeps(s: Store, id: nat)
    requires Inv(s)
    ensures Inv(Apply(s, Migrate(id))) && Evolves(s, Apply(s, Migrate(id)))
  {
    if id in s.devices {
      MigratedGoes(s.devices[id], s.clock, s.idleMs);
      RowSet(s, id, Migrated(s.devices[id], s.clock, s.idleMs));
    } else { RowsGone(s, s.devices); }
  }

  predicate AboutGrants(a: Action) { a.RegisterPending? || a.Approve? || a.Enroll? || a.Revoke? || a.Migrate? }

  lemma GrantStepOk(s: Store, a: Action)
    requires Inv(s) && AboutGrants(a)
    ensures Inv(Apply(s, a)) && Evolves(s, Apply(s, a))
  {
    match a
    case Migrate(id) => MigrateKeeps(s, id);
    case RegisterPending(page, gone) => if ValidSweep(s, page, gone) { SweepKeeps(s, page, gone); } else { Stays(s); }
    case Approve(key, temporary, page, gone) =>
      if ValidSweep(s, page, gone) { ApproveKeeps(s, key, temporary, page, gone); } else { Stays(s); }
    case Enroll(key, attempt, expires, page, gone) =>
      if ValidSweep(s, page, gone) { EnrollKeeps(s, key, attempt, expires, page, gone); } else { Stays(s); }
    case Revoke(id) => RevokeKeeps(s, id);
  }

  lemma StepOk(s: Store, a: Action)
    requires Inv(s)
    ensures Inv(Apply(s, a)) && Evolves(s, Apply(s, a))
  {
    match a
    case Tick(ms) => TickKeeps(s, ms);
    case IssueNonce(id) => IssueNonceKeeps(s, id);
    case IssueChallenge(id, intent, generation) => IssueChallengeKeeps(s, id, intent, generation);
    case CommitIntent(id, c, key) => CommitIntentKeeps(s, id, c, key);
    case _ =>
      if AboutGrants(a) { GrantStepOk(s, a); } else if AboutSockets(a) { SocketStepOk(s, a); } else { DropKeeps(s, a); }
  }

  predicate AboutSockets(a: Action) { a.Consume? || a.Refresh? || a.Describe? || a.Close? }

  lemma SocketStepOk(s: Store, a: Action)
    requires Inv(s) && AboutSockets(a)
    ensures Inv(Apply(s, a)) && Evolves(s, Apply(s, a))
  {
    match a
    case Consume(id, nonce, key, socket) => ConsumeKeeps(s, id, nonce, key, socket);
    case Refresh(id, epoch, seen) => if seen <= s.clock { RefreshKeeps(s, id, epoch, seen); } else { Stays(s); }
    case Describe(id, epoch, info) => DescribeKeeps(s, id, epoch, info);
    case Close(id, epoch) => CloseKeeps(s, id, epoch);
  }

  lemma {:induction false} RunOk(s: Store, run: seq<Action>)
    requires Inv(s)
    ensures Inv(Exec(s, run)) && Evolves(s, Exec(s, run))
  {
    if run == [] { Stays(s); }
    else {
      var m := Exec(s, run[..|run| - 1]);
      RunOk(s, run[..|run| - 1]);
      StepOk(m, run[|run| - 1]);
      EvolvesTransitive(s, m, Exec(s, run));
    }
  }
}
