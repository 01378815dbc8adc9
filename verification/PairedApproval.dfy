/** Pairings and grants together: registration and approval as the single transactions that they are.

  A transaction sweeps the grants, judges room and key by what is left, and writes the pending pairings and the record
  of the device at once. Everything else that the owner does to its grants runs freely between the transactions.
*/
module PairedApproval {
  import opened Common
  import G = GrantStore
  import GS = GrantSafety
  import GT = GrantTheorems
  import P = PairingRequests
  import O = OwnerStore

  /** `devices`: the device that each approval made. */
  datatype Pair = Pair(store: G.Store, desk: P.Desk, devices: seq<nat>)

  datatype Step =
    | Grants(a: G.Action)
    | Tick(ms: nat)
    | Register(verifier: string, key: string, fingerprint: string, temporary: bool, page: set<nat>, gone: set<string>)
    | Approve(id: nat, fingerprint: string, temporary: bool, page: set<nat>, gone: set<string>)

  function Live(s: G.Store, page: set<nat>, gone: set<string>): map<nat, G.Device> { G.Sweep(s, page, gone).devices }

  /** `registerPending` */
  ghost function RegisterStep(p: Pair, verifier: string, key: string, fingerprint: string, temporary: bool,
                              page: set<nat>, gone: set<string>): Pair {
    var live := Live(p.store, page, gone);
    p.(store := G.Apply(p.store, G.RegisterPending(page, gone)),
       desk := P.Apply(p.desk, P.Register(verifier, key, fingerprint, temporary, G.HasRoom(live, page),
                                          G.KeyTaken(live, page, key))))
  }

  /** The row that the owner means may be approved: of the kind that was asked for, and of the current protocol. */
  predicate Approvable(row: P.Pending, temporary: bool) { row.temporary == temporary && row.singleCode }

  /** `approvePendingKey`, for the row at `v`. */
  function ApproveRow(p: Pair, v: string, temporary: bool, page: set<nat>, gone: set<string>): Pair
    requires v in p.desk.pending
  {
    var row := p.desk.pending[v];
    var live := Live(p.store, page, gone);
    Pair(G.Apply(p.store, G.Approve(row.key, temporary, page, gone)),
         P.ApproveStep(p.desk, v, temporary, G.HasRoom(live, page), G.KeyTaken(live, page, row.key)),
         if G.Admissible(live, page, row.key) then p.devices + [p.store.supply] else p.devices)
  }

  ghost function ApproveStep(p: Pair, id: nat, fingerprint: string, temporary: bool, page: set<nat>,
                             gone: set<string>): Pair {
    var found := P.Found(p.desk, id, fingerprint);
    if |p.desk.pending.Keys| > P.MAX_PENDING || found == None || !Approvable(p.desk.pending[found.value], temporary)
    then p
    else ApproveRow(p, found.value, temporary, page, gone)
  }

  /** What does not go through the pairings. */
  predicate Free(a: G.Action) { !a.Tick? && !a.Approve? }

  ghost function Apply(p: Pair, st: Step): Pair {
    match st
    case Grants(a) => if Free(a) then p.(store := G.Apply(p.store, a)) else p
    case Tick(ms) => p.(store := G.Apply(p.store, G.Tick(ms)), desk := P.Apply(p.desk, P.Tick(ms)))
    case Register(verifier, key, fingerprint, temporary, page, gone) =>
      if G.ValidSweep(p.store, page, gone) then RegisterStep(p, verifier, key, fingerprint, temporary, page, gone)
      else p
    case Approve(id, fingerprint, temporary, page, gone) =>
      if G.ValidSweep(p.store, page, gone) then ApproveStep(p, id, fingerprint, temporary, page, gone) else p
  }

  ghost function Exec(p: Pair, run: seq<Step>): Pair {
    if run == [] then p else Apply(Exec(p, run[..|run| - 1]), run[|run| - 1])
  }

  function Start(idleMs: nat, clock: nat): Pair { Pair(GT.Empty(idleMs, clock), P.Empty(clock), []) }

  // ---- what every run keeps ----

  function Kind(temporary: bool): G.Grant { if temporary then G.Temporary else G.Permanent }

  /** Device `k`, while it is stored, has the key and the kind of the pairing that was approved. */
  predicate MadeFor(k: nat, a: P.Approval, devices: map<nat, G.Device>) {
    k in devices ==> devices[k].key == a.key && devices[k].grant == Kind(a.temporary)
  }

  /** Each approval has a device of its own. */
  ghost predicate Made(made: seq<nat>, approvals: seq<P.Approval>, devices: map<nat, G.Device>, supply: nat) {
    && |made| == |approvals|
    && (forall i :: 0 <= i < |made| ==> made[i] < supply && MadeFor(made[i], approvals[i], devices))
    && (forall i, j :: 0 <= i < j < |made| ==> made[i] != made[j])
  }

  /** Every stored grant that is not a session's was made by an approval. */
  ghost predicate Paired(made: seq<nat>, devices: map<nat, G.Device>) {
    forall k :: k in devices ==> devices[k].grant.Session? || k in made
  }

  ghost predicate Inv(p: Pair) {
    && GS.Inv(p.store) && P.Inv(p.desk) && p.store.clock == p.desk.clock
    && Made(p.devices, p.desk.approvals, p.store.devices, p.store.supply) && Paired(p.devices, p.store.devices)
  }

  /** Records that are not new are as before in key and kind, and new ones are sessions'. */
  ghost predicate OnlySessions(devices: map<nat, G.Device>, after: map<nat, G.Device>) {
    forall k :: k in after ==>
      if k in devices then after[k].key == devices[k].key && after[k].grant == devices[k].grant
      else after[k].grant.Session?
  }

  lemma SweepAddsNothing(s: G.Store, page: set<nat>, gone: set<string>)
    ensures Live(s, page, gone).Keys <= s.devices.Keys
  {
  }

  lemma EnrollAddsSession(m: G.Store, key: string, attempt: G.Attempt, expires: int, page: set<nat>)
    ensures var t := G.EnrollTx(m, key, attempt, expires, page).devices;
            forall k :: k in t && k !in m.devices ==> t[k].grant.Session?
  {
  }

  lemma EnrollStep(s: G.Store, key: string, attempt: G.Attempt, expires: int, page: set<nat>, gone: set<string>)
    ensures var t := G.Apply(s, G.Enroll(key, attempt, expires, page, gone)).devices;
            forall k :: k in t && k !in s.devices ==> t[k].grant.Session?
  {
    if G.ValidSweep(s, page, gone) {
      SweepAddsNothing(s, page, gone);
      EnrollAddsSession(G.Sweep(s, page, gone), key, attempt, expires, page);
    }
  }

  lemma IntentAddsNothing(s: G.Store, id: nat, c: G.Challenge, key: string)
    ensures G.CommitIntentTx(s, id, c, key).devices.Keys == s.devices.Keys
  {
  }

  lemma SocketAddsNothing(s: G.Store, a: G.Action)
    requires GS.AboutSockets(a)
    ensures G.Apply(s, a).devices.Keys == s.devices.Keys
  {
  }

  /** Only approvals and enrollments add records. */
  lemma OthersAddNothing(s: G.Store, a: G.Action)
    requires Free(a) && !a.Enroll?
    ensures G.Apply(s, a).devices.Keys <= s.devices.Keys
  {
    if GS.AboutSockets(a) { SocketAddsNothing(s, a); }
    else {
      match a
      case RegisterPending(page, gone) => SweepAddsNothing(s, page, gone);
      case CommitIntent(id, c, key) => IntentAddsNothing(s, id, c, key);
      case _ =>
    }
  }

  lemma KeysStay(s: G.Store, a: G.Action)
    requires GS.Inv(s)
    ensures var t := G.Apply(s, a).devices;
            forall k :: k in t && k in s.devices ==> t[k].key == s.devices[k].key && t[k].grant == s.devices[k].grant
  {
    var t := G.Apply(s, a);
    GS.StepOk(s, a);
    forall k | k in t.devices && k in s.devices
      ensures t.devices[k].key == s.devices[k].key && t.devices[k].grant == s.devices[k].grant {
      assert GS.Goes(s.devices[k], t.devices[k], s.clock, t.clock);
    }
  }

  lemma FreeStep(s: G.Store, a: G.Action)
    requires GS.Inv(s) && Free(a)
    ensures OnlySessions(s.devices, G.Apply(s, a).devices)
  {
    KeysStay(s, a);
    if a.Enroll? { EnrollStep(s, a.key, a.attempt, a.expires, a.page, a.gone); }
    else { OthersAddNothing(s, a); }
  }

  lemma MadeStays(made: seq<nat>, approvals: seq<P.Approval>, devices: map<nat, G.Device>, supply: nat,
                  after: map<nat, G.Device>, later: nat)
    requires Made(made, approvals, devices, supply) && Paired(made, devices) && OnlySessions(devices, after) &&
             supply <= later
    requires forall k :: k in after && k !in devices ==> k >= supply
    ensures Made(made, approvals, after, later) && Paired(made, after)
  {
  }

  lemma GrantsKeep(p: Pair, a: G.Action)
    requires Inv(p) && Free(a)
    ensures Inv(p.(store := G.Apply(p.store, a)))
  {
    GS.StepOk(p.store, a);
    FreeStep(p.store, a);
    var t := G.Apply(p.store, a);
    FreeKeepsClock(p.store, a);
    MadeStays(p.devices, p.desk.approvals, p.store.devices, p.store.supply, t.devices, t.supply);
  }

  lemma FreeKeepsClock(s: G.Store, a: G.Action)
    requires Free(a)
    ensures G.Apply(s, a).clock == s.clock
  {
  }

  lemma TickKeeps(p: Pair, ms: nat)
    requires Inv(p)
    ensures Inv(Apply(p, Tick(ms)))
  {
    GS.StepOk(p.store, G.Tick(ms));
    P.StepOk(p.desk, P.Tick(ms));
  }

  lemma RegisterKeeps(p: Pair, verifier: string, key: string, fingerprint: string, temporary: bool, page: set<nat>,
                      gone: set<string>)
    requires Inv(p) && G.ValidSweep(p.store, page, gone)
    ensures Inv(RegisterStep(p, verifier, key, fingerprint, temporary, page, gone))
  {
    GrantsKeep(p, G.RegisterPending(page, gone));
    var live := Live(p.store, page, gone);
    var a := P.Register(verifier, key, fingerprint, temporary, G.HasRoom(live, page), G.KeyTaken(live, page, key));
    P.StepOk(p.desk, a);
    RegistersOnly(p.desk, a);
  }

  lemma RegistersOnly(s: P.Desk, a: P.Action)
    requires a.Register?
    ensures P.Apply(s, a).approvals == s.approvals && P.Apply(s, a).clock == s.clock
  {
  }

  /** The record of an approval, when it is made, is the approved key's; no other record is new. */
  lemma ApprovalMakes(s: G.Store, key: string, temporary: bool, page: set<nat>, gone: set<string>)
    requires GS.Inv(s) && G.ValidSweep(s, page, gone)
    ensures var t := G.Apply(s, G.Approve(key, temporary, page, gone)); var live := Live(s, page, gone);
            && t.clock == s.clock
            && (if G.Admissible(live, page, key)
                then t.devices == live[s.supply := G.ApprovedDevice(key, temporary, s.clock, s.idleMs)] &&
                  t.supply == s.supply + 1
                else t.devices == live && t.supply == s.supply)
  {
  }

  lemma MadeOne(made: seq<nat>, approvals: seq<P.Approval>, live: map<nat, G.Device>, supply: nat, d: G.Device,
                a: P.Approval)
    requires Made(made, approvals, live, supply) && Paired(made, live) && d.key == a.key && d.grant == Kind(a.temporary)
    ensures Made(made + [supply], approvals + [a], live[supply := d], supply + 1) &&
            Paired(made + [supply], live[supply := d])
  {
    forall k | k in live[supply := d] ensures live[supply := d][k].grant.Session? || k in made + [supply] {
      if k == supply { assert (made + [supply])[|made|] == supply; }
    }
  }

  /** The sweep of an approval, for the records alone. */
  lemma SweptStays(p: Pair, page: set<nat>, gone: set<string>)
    requires Inv(p) && G.ValidSweep(p.store, page, gone)
    ensures var live := Live(p.store, page, gone);
            Made(p.devices, p.desk.approvals, live, p.store.supply) && Paired(p.devices, live)
  {
    FreeStep(p.store, G.RegisterPending(page, gone));
    SweepAddsNothing(p.store, page, gone);
    MadeStays(p.devices, p.desk.approvals, p.store.devices, p.store.supply, Live(p.store, page, gone), p.store.supply);
  }

  lemma ApproveRowKeeps(p: Pair, v: string, temporary: bool, page: set<nat>, gone: set<string>)
    requires Inv(p) && G.ValidSweep(p.store, page, gone) && v in p.desk.pending &&
             Approvable(p.desk.pending[v], temporary)
    ensures Inv(ApproveRow(p, v, temporary, page, gone))
  {
    var row := p.desk.pending[v];
    SweptStays(p, page, gone);
    GS.StepOk(p.store, G.Approve(row.key, temporary, page, gone));
    ApprovalMakes(p.store, row.key, temporary, page, gone);
    RowTaken(p, v, temporary, Live(p.store, page, gone), page,
             G.Apply(p.store, G.Approve(row.key, temporary, page, gone)));
  }

  /** The same once the sweep has left `live`, and the approval the store `t`. */
  lemma RowTaken(p: Pair, v: string, temporary: bool, live: map<nat, G.Device>, page: set<nat>, t: G.Store)
    requires P.Inv(p.desk) && v in p.desk.pending && Approvable(p.desk.pending[v], temporary) &&
             p.store.clock == p.desk.clock
    requires Made(p.devices, p.desk.approvals, live, p.store.supply) && Paired(p.devices, live)
    requires GS.Inv(t) && t.clock == p.store.clock
    requires var key := p.desk.pending[v].key;
             if G.Admissible(live, page, key)
             then t.devices ==
               live[p.store.supply := G.ApprovedDevice(key, temporary, p.store.clock, p.store.idleMs)] &&
                  t.supply == p.store.supply + 1
             else t.devices == live && t.supply == p.store.supply
    ensures var key := p.desk.pending[v].key;
            Inv(Pair(t, P.ApproveStep(p.desk, v, temporary, G.HasRoom(live, page), G.KeyTaken(live, page, key)),
                     if G.Admissible(live, page, key) then p.devices + [p.store.supply] else p.devices))
  {
    var row := p.desk.pending[v];
    P.ApproveKeeps(p.desk, v, temporary, G.HasRoom(live, page), G.KeyTaken(live, page, row.key));
    if G.Admissible(live, page, row.key) {
      MadeOne(p.devices, p.desk.approvals, live, p.store.supply,
              G.ApprovedDevice(row.key, temporary, p.store.clock, p.store.idleMs),
                P.Approval(row.id, row.key, row.temporary));
    }
  }

  lemma ApproveKeeps(p: Pair, id: nat, fingerprint: string, temporary: bool, page: set<nat>, gone: set<string>)
    requires Inv(p) && G.ValidSweep(p.store, page, gone)
    ensures Inv(ApproveStep(p, id, fingerprint, temporary, page, gone))
  {
    var found := P.Found(p.desk, id, fingerprint);
    if found.Some? && Approvable(p.desk.pending[found.value], temporary) {
      ApproveRowKeeps(p, found.value, temporary, page, gone);
    }
  }

  lemma StepOk(p: Pair, st: Step)
    requires Inv(p)
    ensures Inv(Apply(p, st))
  {
    match st
    case Grants(a) => if Free(a) { GrantsKeep(p, a); }
    case Tick(ms) => TickKeeps(p, ms);
    case Register(verifier, key, fingerprint, temporary, page, gone) =>
      if G.ValidSweep(p.store, page, gone) { RegisterKeeps(p, verifier, key, fingerprint, temporary, page, gone); }
    case Approve(id, fingerprint, temporary, page, gone) =>
      if G.ValidSweep(p.store, page, gone) { ApproveKeeps(p, id, fingerprint, temporary, page, gone); }
  }

  lemma {:induction false} RunOk(p: Pair, run: seq<Step>)
    requires Inv(p)
    ensures Inv(Exec(p, run))
  {
    if run != [] {
      RunOk(p, run[..|run| - 1]);
      StepOk(Exec(p, run[..|run| - 1]), run[|run| - 1]);
    }
  }

  /** Approvals and devices are one to one, over every run: a pairing is approved at most once, each approval makes a
    device of its own with the key and the kind of that pairing, and every grant that is not a session's was made so. */
  lemma OneDevicePerPairing(idleMs: nat, clock: nat, run: seq<Step>)
    requires GT.ValidIdle(idleMs)
    ensures var p := Exec(Start(idleMs, clock), run);
            && |p.devices| == |p.desk.approvals|
            && (forall i, j :: 0 <= i < j < |p.devices| ==>
                  p.devices[i] != p.devices[j] && p.desk.approvals[i].id != p.desk.approvals[j].id)
            && (forall i :: 0 <= i < |p.devices| ==> MadeFor(p.devices[i], p.desk.approvals[i], p.store.devices))
            && (forall k :: k in p.store.devices && !p.store.devices[k].grant.Session? ==> k in p.devices)
  {
    assert Inv(Start(idleMs, clock)) by { GT.FromEmpty(idleMs, clock, []); }
    RunOk(Start(idleMs, clock), run);
  }

  // ---- as it is written ----

  /** The step `st` makes of this store and this desk those, and adds at most one device. */
  ghost predicate Does(st: Step, s: G.Store, d: P.Desk, s': G.Store, d': P.Desk, device: Option<nat>) {
    forall made {:trigger Pair(s, d, made)} ::
      Apply(Pair(s, d, made), st) == Pair(s', d', if device.Some? then made + [device.value] else made)
  }

  lemma RegistrationIsStep(s: G.Store, d: P.Desk, st: Step, live: map<nat, G.Device>, room: bool, used: bool)
    requires st.Register? && O.SweepsTo(s, st.page, st.gone, live)
    requires room == G.HasRoom(live, st.page) && used == G.KeyTaken(live, st.page, st.key)
    ensures Does(st, s, d, G.Apply(s, G.RegisterPending(st.page, st.gone)),
                 P.RegisterStep(d, st.verifier, st.key, st.fingerprint, st.temporary, room, used), None)
  {
  }

  lemma ApprovalIsStep(s: G.Store, d: P.Desk, st: Step, live: map<nat, G.Device>, room: bool, used: bool)
    requires st.Approve? && P.Inv(d) && O.SweepsTo(s, st.page, st.gone, live) && P.Found(d, st.id, st.fingerprint).Some?
    requires var v := P.Found(d, st.id, st.fingerprint).value;
             Approvable(d.pending[v], st.temporary) &&
             room == G.HasRoom(live, st.page) && used == G.KeyTaken(live, st.page, d.pending[v].key)
    ensures var v := P.Found(d, st.id, st.fingerprint).value;
            Does(st, s, d, G.Apply(s, G.Approve(d.pending[v].key, st.temporary, st.page, st.gone)),
                 P.ApproveStep(d, v, st.temporary, room, used), if room && !used then Some(s.supply) else None)
  {
  }

  lemma RefusalIsStep(s: G.Store, d: P.Desk, st: Step)
    requires st.Approve?
    requires var found := P.Found(d, st.id, st.fingerprint);
             found == None || !Approvable(d.pending[found.value], st.temporary)
    ensures Does(st, s, d, s, d, None)
  {
  }

  /** What a registration is answered: by the pairings, and by room and key among the grants that its sweep leaves. */
  ghost predicate Registers(s: G.Store, d: P.Desk, st: Step, answer: P.Answer) {
    && st.Register? && G.ValidSweep(s, st.page, st.gone)
    && var live := G.Sweep(s, st.page, st.gone).devices;
       answer == P.RegisterAnswer(d, st.verifier, st.key, G.HasRoom(live, st.page), G.KeyTaken(live, st.page, st.key))
  }

  /** What an approval is answered: by the row that is meant, and then in the same way. */
  ghost predicate Approves(s: G.Store, d: P.Desk, st: Step, answer: P.Answer) {
    && st.Approve?
    && match P.Found(d, st.id, st.fingerprint)
       case None => answer == P.NotFound
       case Some(v) =>
         var row := d.pending[v];
         if row.temporary != st.temporary then answer == P.TypeMismatch
         else if !row.singleCode then answer == P.LegacyPairing
         else
           && G.ValidSweep(s, st.page, st.gone)
           && var live := G.Sweep(s, st.page, st.gone).devices;
              answer == P.ApproveAnswer(row, st.temporary, G.HasRoom(live, st.page),
                                        G.KeyTaken(live, st.page, row.key))
  }

  /** The transaction of `registerPending`. */
  method RegisterPairing(owner: O.OwnerStore, desk: P.PairingDesk, verifier: string, key: string, fingerprint: string,
                         temporary: bool)
    returns (answer: P.Answer, ghost st: Step)
    requires owner.Valid() && desk.Valid() && owner.clock == desk.clock
    modifies owner, desk
    ensures owner.Valid() && desk.Valid() && owner.clock == desk.clock
    ensures st.Register? && st == Register(verifier, key, fingerprint, temporary, st.page, st.gone)
    ensures Registers(old(owner.Now()), old(desk.Now()), st, answer)
    ensures Does(st, old(owner.Now()), old(desk.Now()), owner.Now(), desk.Now(), None)
    ensures answer == P.Registered ==>
              P.OnlyOne(desk.pending, verifier,
                        P.Pending(old(desk.supply), key, fingerprint, temporary, true, desk.clock + P.TTL))
    ensures answer != P.Registered ==> desk.supply == old(desk.supply)
  {
    ghost var s := owner.Now();
    var room, used;
    ghost var page, gone, live;
    room, used, page, gone, live := owner.CheckKey(key);
    owner.LogStep(s, G.RegisterPending(page, gone));
    st := Register(verifier, key, fingerprint, temporary, page, gone);
    answer := RegisterChecked(desk, verifier, key, fingerprint, temporary, room, used, s, st, live);
  }

  /** The rest, when the grants were swept and judged. */
  method RegisterChecked(desk: P.PairingDesk, verifier: string, key: string, fingerprint: string, temporary: bool,
                         room: bool, used: bool, ghost s: G.Store, ghost st: Step, ghost live: map<nat, G.Device>)
    returns (answer: P.Answer)
    requires desk.Valid() && st.Register? && st == Register(verifier, key, fingerprint, temporary, st.page, st.gone)
    requires O.SweepsTo(s, st.page, st.gone, live)
    requires room == G.HasRoom(live, st.page) && used == G.KeyTaken(live, st.page, key)
    modifies desk
    ensures desk.Valid() && desk.clock == old(desk.clock)
    ensures Does(st, s, old(desk.Now()), G.Apply(s, G.RegisterPending(st.page, st.gone)), desk.Now(), None)
    ensures Registers(s, old(desk.Now()), st, answer)
    ensures answer == P.Registered ==>
              P.OnlyOne(desk.pending, verifier,
                        P.Pending(old(desk.supply), key, fingerprint, temporary, true, desk.clock + P.TTL))
    ensures answer != P.Registered ==> desk.supply == old(desk.supply)
  {
    ghost var d := desk.Now();
    answer := desk.RegisterPending(verifier, key, fingerprint, temporary, room, used);
    RegistrationIsStep(s, d, st, live, room, used);
  }

  /** The transaction of `approvePendingKey`. */
  method ApprovePairing(owner: O.OwnerStore, desk: P.PairingDesk, id: nat, fingerprint: string, temporary: bool)
    returns (answer: P.Answer, device: Option<nat>, ghost st: Step)
    requires owner.Valid() && desk.Valid() && owner.clock == desk.clock
    modifies owner, desk
    ensures owner.Valid() && desk.Valid() && owner.clock == desk.clock
    ensures st.Approve? && st == Approve(id, fingerprint, temporary, st.page, st.gone)
    ensures Approves(old(owner.Now()), old(desk.Now()), st, answer)
    ensures Does(st, old(owner.Now()), old(desk.Now()), owner.Now(), desk.Now(), device)
    ensures answer == P.Approved <==> device.Some?
    ensures device.Some? ==> device.value in owner.devices && |desk.approvals| == |old(desk.approvals)| + 1 &&
                             MadeFor(device.value, desk.approvals[|desk.approvals| - 1], owner.devices)
  {
    ghost var s, d := owner.Now(), desk.Now();
    st := Approve(id, fingerprint, temporary, {}, {});
    var found := desk.FindMatch(id, fingerprint);
    if found == None || desk.pending[found.value].temporary != temporary || !desk.pending[found.value].singleCode {
      RefusalIsStep(s, d, st);
      answer := if found == None then P.NotFound
                else if desk.pending[found.value].temporary != temporary then P.TypeMismatch else P.LegacyPairing;
      return answer, None, st;
    }
    answer, device, st := ApproveFound(owner, desk, found.value, id, fingerprint, temporary);
  }

  /** The rest, for a row that may be approved: the sweep, and the record for the row. */
  method ApproveFound(owner: O.OwnerStore, desk: P.PairingDesk, v: string, ghost id: nat, ghost fingerprint: string,
                      temporary: bool)
    returns (answer: P.Answer, device: Option<nat>, ghost st: Step)
    requires owner.Valid() && desk.Valid() && owner.clock == desk.clock
    requires P.Found(desk.Now(), id, fingerprint) == Some(v) && v in desk.pending &&
             Approvable(desk.pending[v], temporary)
    modifies owner, desk
    ensures owner.Valid() && desk.Valid() && owner.clock == desk.clock
    ensures st.Approve? && st == Approve(id, fingerprint, temporary, st.page, st.gone)
    ensures Approves(old(owner.Now()), old(desk.Now()), st, answer)
    ensures Does(st, old(owner.Now()), old(desk.Now()), owner.Now(), desk.Now(), device)
    ensures answer == P.Approved <==> device.Some?
    ensures device.Some? ==> device.value in owner.devices && |desk.approvals| == |old(desk.approvals)| + 1 &&
                             MadeFor(device.value, desk.approvals[|desk.approvals| - 1], owner.devices)
  {
    ghost var s, d := owner.Now(), desk.Now();
    var key := desk.pending[v].key;
    var room, used;
    ghost var page, gone, live;
    device, room, used, page, gone, live := owner.ApprovePendingKey(key, temporary);
    owner.LogStep(s, G.Approve(key, temporary, page, gone));
    st := Approve(id, fingerprint, temporary, page, gone);
    ghost var t, devices := owner.Now(), owner.devices;
    ApprovedIs(key, temporary, owner.clock, owner.idleMs);
    assert device.Some? ==> device.value in devices && MadeAs(device.value, key, temporary, devices);
    answer := ApproveJudged(desk, v, temporary, room, used, s, st, live);
    assert owner.Now() == t && owner.devices == devices;
  }

  /** The record of an approval has its key and its kind. */
  predicate MadeAs(k: nat, key: string, temporary: bool, devices: map<nat, G.Device>) {
    k in devices ==> devices[k].key == key && devices[k].grant == Kind(temporary)
  }

  lemma ApprovedIs(key: string, temporary: bool, now: int, idleMs: nat)
    ensures var d := G.ApprovedDevice(key, temporary, now, idleMs); d.key == key && d.grant == Kind(temporary)
  {
  }

  /** The rest, when the grants were swept and judged. */
  method ApproveJudged(desk: P.PairingDesk, v: string, temporary: bool, room: bool, used: bool,
                       ghost s: G.Store, ghost st: Step, ghost live: map<nat, G.Device>)
    returns (answer: P.Answer)
    requires desk.Valid() && st.Approve? && st.temporary == temporary
    requires P.Found(desk.Now(), st.id, st.fingerprint) == Some(v) && v in desk.pending &&
             Approvable(desk.pending[v], temporary)
    requires O.SweepsTo(s, st.page, st.gone, live)
    requires room == G.HasRoom(live, st.page) && used == G.KeyTaken(live, st.page, desk.pending[v].key)
    modifies desk
    ensures desk.Valid() && desk.clock == old(desk.clock)
    ensures Approves(s, old(desk.Now()), st, answer) && (answer == P.Approved <==> room && !used)
    ensures Does(st, s, old(desk.Now()), G.Apply(s, G.Approve(old(desk.pending)[v].key, temporary, st.page, st.gone)),
                 desk.Now(), if room && !used then Some(s.supply) else None)
    ensures answer == P.Approved ==>
              desk.approvals == old(desk.approvals) + [P.Approval(old(desk.pending)[v].id, old(desk.pending)[v].key,
                                                                  temporary)]
  {
    ghost var d := desk.Now();
    answer := desk.TakeRow(v, temporary, room, used);
    ApprovalIsStep(s, d, st, live, room, used);
  }
}
