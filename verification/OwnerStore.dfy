/** The owner's transactions as they are written, over the storage they update in place.

  A method is one transaction, or what a request does around one: it reads, verifies outside the transaction while
  others run (`Await`), and checks again inside. The ghost `log` records every transaction, and `Valid` says that
  the storage is what the state machine reaches by it.
*/
module OwnerStore {
  import opened Common
  import opened GrantStore
  import opened GrantSafety
  import opened GrantTheorems
  import Answers = GrantAnswers

  function SweptRow(devices: map<nat, Device>, k: nat, now: int, idleMs: nat): map<nat, Device>
    requires k in devices
  {
    var d := Migrated(devices[k], now, idleMs);
    if StillGranted(d, now) then devices[k := d] else devices - {k}
  }

  /** One more row of the page is swept. */
  lemma SweptStep(devices: map<nat, Device>, done: set<nat>, k: nat, now: int, idleMs: nat)
    requires k in devices && k !in done
    ensures var before := Swept(devices, done, now, idleMs);
            k in before && Swept(devices, done + {k}, now, idleMs) == SweptRow(before, k, now, idleMs)
  {
  }

  /** `swept` goes on with row `k` after the rows `done`. */
  ghost predicate SweepsOn(swept: set<nat> -> map<nat, Device>, done: set<nat>, k: nat, now: int, idleMs: nat) {
    k in swept(done) && swept(done + {k}) == SweptRow(swept(done), k, now, idleMs)
  }

  /** An admission with this sweep is an admission to `m`. */
  ghost predicate AdmitsAs(s: Store, page: set<nat>, gone: set<string>, m: Store) {
    && (forall key, temporary :: Apply(s, Approve(key, temporary, page, gone)) == ApproveTx(m, key, temporary, page))
    && (forall key, attempt, expires ::
          Apply(s, Enroll(key, attempt, expires, page, gone)) == EnrollTx(m, key, attempt, expires, page))
  }

  /** These are the records that a sweep leaves. */
  predicate SweepsTo(s: Store, page: set<nat>, gone: set<string>, live: map<nat, Device>) {
    ValidSweep(s, page, gone) && live == Sweep(s, page, gone).devices
  }

  lemma ApproveAdmits(s: Store, page: set<nat>, gone: set<string>, key: string, temporary: bool)
    requires ValidSweep(s, page, gone)
    ensures Apply(s, Approve(key, temporary, page, gone)) == ApproveTx(Sweep(s, page, gone), key, temporary, page)
  {
  }

  lemma EnrollAdmits(s: Store, page: set<nat>, gone: set<string>, key: string, attempt: Attempt, expires: int)
    requires ValidSweep(s, page, gone)
    ensures Apply(s, Enroll(key, attempt, expires, page, gone)) ==
            EnrollTx(Sweep(s, page, gone), key, attempt, expires, page)
  {
  }

  lemma SweepAdmits(s: Store, page: set<nat>, gone: set<string>)
    requires ValidSweep(s, page, gone)
    ensures AdmitsAs(s, page, gone, Sweep(s, page, gone))
  {
    forall key, temporary
      ensures Apply(s, Approve(key, temporary, page, gone)) == ApproveTx(Sweep(s, page, gone), key, temporary, page)
    { ApproveAdmits(s, page, gone, key, temporary); }
    forall key, attempt, expires
      ensures Apply(s, Enroll(key, attempt, expires, page, gone)) ==
              EnrollTx(Sweep(s, page, gone), key, attempt, expires, page)
    { EnrollAdmits(s, page, gone, key, attempt, expires); }
  }

  lemma MinusMore<V>(m: map<nat, V>, keys: set<nat>, k: nat)
    ensures (m - keys) - {k} == m - (keys + {k})
  {
  }

  /** The rows done so far are the live ones and the lapsed ones. */
  predicate Sorted(done: set<nat>, active: set<nat>, lapsed: set<nat>, keys: set<nat>) {
    active + lapsed == done && active <= keys && lapsed !! keys
  }

  lemma SortedMore(done: set<nat>, active: set<nat>, lapsed: set<nat>, keys: set<nat>, k: nat)
    requires Sorted(done, active, lapsed, keys) && k !in done
    ensures k in keys ==> Sorted(done + {k}, active + {k}, lapsed, keys)
    ensures Sorted(done + {k}, active, lapsed + {k}, keys - {k})
  {
  }

  lemma SortedSplits(done: set<nat>, active: set<nat>, lapsed: set<nat>, keys: set<nat>)
    requires Sorted(done, active, lapsed, keys)
    ensures active == keys * done && lapsed == done - keys
  {
  }

  /** At most one stored record has a given key. */
  lemma OneHolder(idleMs: nat, clock: nat, run: seq<Action>, key: string)
    requires ValidIdle(idleMs)
    ensures var s := Exec(Empty(idleMs, clock), run);
            && |s.devices.Keys| <= 64
            && forall k, l :: k in s.devices && l in s.devices && s.devices[k].key == key && s.devices[l].key == key ==>
                 k == l
  {
    GrantsAreBounded(idleMs, clock, run);
  }

  lemma {:induction false} ExecConcat(s: Store, a: seq<Action>, b: seq<Action>)
    ensures Exec(s, a + b) == Exec(Exec(s, a), b)
  {
    if b == [] { assert a + b == a; }
    else {
      ExecConcat(s, a, b[..|b| - 1]);
      assert (a + b)[..|a + b| - 1] == a + b[..|b| - 1];
    }
  }

  /** What was consumed stays consumed, and its nonce is never stored again. */
  lemma ConsumptionsStay(idleMs: nat, clock: nat, run: seq<Action>, later: seq<Action>)
    requires ValidIdle(idleMs) && run <= later
    ensures var s := Exec(Empty(idleMs, clock), run); var t := Exec(Empty(idleMs, clock), later);
            forall c :: c in s.consumed ==> c in t.consumed && forall k :: k in t.nonces ==>
                t.nonces[k].value != c.nonce
  {
    FromEmpty(idleMs, clock, run);
    FromEmpty(idleMs, clock, later);
    assert later == run + later[|run|..];
    ExecConcat(Empty(idleMs, clock), run, later[|run|..]);
    RunOk(Exec(Empty(idleMs, clock), run), later[|run|..]);
    PrefixStays(Exec(Empty(idleMs, clock), run), Exec(Empty(idleMs, clock), later));
  }

  lemma PrefixStays(s: Store, t: Store)
    requires s.consumed <= t.consumed && NoncesOk(t.nonces, t.consumed, t.supply)
    ensures forall c :: c in s.consumed ==> c in t.consumed && forall k :: k in t.nonces ==>
              t.nonces[k].value != c.nonce
  {
    forall c | c in s.consumed ensures c in t.consumed {
      var i :| 0 <= i < |s.consumed| && s.consumed[i] == c;
      assert t.consumed[i] == c;
    }
  }

  lemma NoncesAreFresh(idleMs: nat, clock: nat, run: seq<Action>, id: nat)
    requires ValidIdle(idleMs) && id in Exec(Empty(idleMs, clock), run).nonces
    ensures var s := Exec(Empty(idleMs, clock), run); forall c :: c in s.consumed ==> c.nonce != s.nonces[id].value
  {
    FromEmpty(idleMs, clock, run);
  }

  /** Time does not run backwards. */
  lemma ClockGrows(idleMs: nat, clock: nat, run: seq<Action>, later: seq<Action>)
    requires ValidIdle(idleMs) && run <= later
    ensures Exec(Empty(idleMs, clock), run).clock <= Exec(Empty(idleMs, clock), later).clock
  {
    FromEmpty(idleMs, clock, run);
    assert later == run + later[|run|..];
    ExecConcat(Empty(idleMs, clock), run, later[|run|..]);
    RunOk(Exec(Empty(idleMs, clock), run), later[|run|..]);
  }

  /** What an enrollment is answered for the records that its sweep left, in the order of the tests. */
  ghost predicate Reports(live: map<nat, Device>, fences: map<string, int>, page: set<nat>, now: int,
                          answer: Enrollment, key: string, attempt: Attempt, expires: int)
  {
    if |page| > 64 then answer == Full
    else if attempt.id in fences then answer == Denied
    else if exists k :: k in live && k in page && OfAttempt(live[k], attempt.id)
    then if answer.AlreadyRegistered? then answer.id in live && EnrolledAs(live[answer.id], key, attempt, expires)
         else answer == Conflict && exists k :: k in live && k in page && OfAttempt(live[k], attempt.id) &&
                                                !EnrolledAs(live[k], key, attempt, expires)
    else if |live.Keys * page| >= 64 then answer == Full
    else if exists k :: k in live && k in page && live[k].key == key then answer == KeyUsed
    else if now >= expires then answer == Denied
    else answer.Registered?
  }

  /** An enrollment on swept records: its answer, and the one record that it may add. */
  ghost predicate EnrollsOn(m: Store, page: set<nat>, after: map<nat, Device>,
                            answer: Enrollment, key: string, attempt: Attempt, expires: int)
  {
    && Reports(m.devices, m.fences, page, m.clock, answer, key, attempt, expires)
    && (answer.Registered? ==> answer.id == m.supply)
    && after == if answer.Registered?
                then m.devices[answer.id := EnrolledDevice(key, attempt, expires, m.clock)] else m.devices
  }

  /** The transaction of an enrollment: the sweep, and then that. */
  ghost predicate Enrolls(s: Store, a: Action, after: map<nat, Device>,
                          answer: Enrollment, key: string, attempt: Attempt, expires: int)
  {
    && a.Enroll? && a == Enroll(key, attempt, expires, a.page, a.gone) && ValidSweep(s, a.page, a.gone)
    && EnrollsOn(Sweep(s, a.page, a.gone), a.page, after, answer, key, attempt, expires)
  }

  /** A record that is answered is stored, and an attempt that is answered is not fenced. */
  lemma EnrollsRecord(m: Store, page: set<nat>, after: map<nat, Device>,
                      answer: Enrollment, key: string, attempt: Attempt, expires: int)
    requires EnrollsOn(m, page, after, answer, key, attempt, expires)
    requires answer.Registered? || answer.AlreadyRegistered?
    ensures answer.id in after && EnrolledAs(after[answer.id], key, attempt, expires) && attempt.id !in m.fences
  {
  }

  lemma NextIsNew(idleMs: nat, clock: nat, run: seq<Action>)
    requires ValidIdle(idleMs)
    ensures var s := Exec(Empty(idleMs, clock), run); s.supply !in s.devices
  {
    FromEmpty(idleMs, clock, run);
  }

  datatype Enrollment = Registered(id: nat) | AlreadyRegistered(id: nat) | Conflict | Denied | Full | KeyUsed

  /** The record that an enrollment reports as its own. */
  predicate EnrolledAs(d: Device, key: string, attempt: Attempt, expires: int) {
    d.key == key && d.grant == Session(attempt) && d.expires == Some(expires)
  }

  /** `grantCurrent` inside a transaction. */
  predicate MayReport(devices: map<nat, Device>, id: nat, now: int, allowed: bool) {
    id in devices && Authorized(devices[id], now) && (devices[id].grant.Session? ==> allowed)
  }

  /** The device is in force, a session by the workflow's word, and its current socket speaks. */
  predicate Probes(s: Store, id: nat, epoch: nat, allowed: bool) {
    MayReport(s.devices, id, s.clock, allowed) && id in s.epochs && s.epochs[id] == epoch
  }

  /** No other record has the key, or the attempt, of an enrolled one. */
  ghost predicate OnlyRecord(devices: map<nat, Device>, id: nat, key: string, attempt: string) {
    forall k :: k in devices && (devices[k].key == key || OfAttempt(devices[k], attempt)) ==> k == id
  }

  lemma EnrolledAlone(idleMs: nat, clock: nat, run: seq<Action>, id: nat, key: string, attempt: string)
    requires ValidIdle(idleMs)
    requires var s := Exec(Empty(idleMs, clock), run);
             id in s.devices && s.devices[id].key == key && OfAttempt(s.devices[id], attempt)
    ensures OnlyRecord(Exec(Empty(idleMs, clock), run).devices, id, key, attempt)
  {
    FromEmpty(idleMs, clock, run);
    var s := Exec(Empty(idleMs, clock), run);
    forall k | k in s.devices && (s.devices[k].key == key || OfAttempt(s.devices[k], attempt)) ensures k == id {
      assert s.devices[k].key == key || SameAttempt(s.devices[k], s.devices[id]);
    }
  }

  /** The nonce was handed out for this device, and was consumed with this epoch less than a minute later. */
  ghost predicate Prompt(s: Store, id: nat, nonce: nat, epoch: Option<nat>) {
    exists i, at :: 0 <= i < |s.issues| && Consumption(id, nonce, epoch, at) in s.consumed &&
                    s.issues[i] == Issue(id, nonce, s.issues[i].at) && s.issues[i].at <= at < s.issues[i].at + 60000
  }

  lemma ConsumedPromptly(idleMs: nat, clock: nat, run: seq<Action>, id: nat, nonce: nat, epoch: Option<nat>)
    requires ValidIdle(idleMs)
    requires exists at :: Consumption(id, nonce, epoch, at) in Exec(Empty(idleMs, clock), run).consumed
    ensures Prompt(Exec(Empty(idleMs, clock), run), id, nonce, epoch)
  {
    var at :| Consumption(id, nonce, epoch, at) in Exec(Empty(idleMs, clock), run).consumed;
    NoncesExpire(idleMs, clock, run, Consumption(id, nonce, epoch, at));
  }

  /** The record that the proof was verified with: it resumes, or the workflow allows its session. */
  predicate MayProve(d: Device, socket: bool, allowed: bool) {
    if d.resumePending then socket else !d.stopped && (d.grant.Session? ==> allowed)
  }

  /** When a proof is accepted: by record and nonce as they were read (`s`), the time behind the verification (`t`), the
    records of the transaction (`u`), and the record at the end (`v`). The workflow's words are `allowed` and `still`.
  */
  ghost predicate Accepts(s: Store, t: Store, u: Store, v: Store, id: nat, nonce: nat, socket: bool, verified: bool,
                          allowed: bool, still: bool)
  {
    && id in s.devices && Answers.Proves(s, id, nonce, s.devices[id].key, socket) && verified
    && StillGranted(s.devices[id], t.clock) && MayProve(s.devices[id], socket, allowed)
    && Answers.Proves(u, id, nonce, s.devices[id].key, socket)
    && MayReport(v.devices, id, v.clock, still)
  }

  predicate OnPage(devices: map<nat, Device>, page: set<nat>, key: string, id: nat) {
    |page| <= 64 && id in page && id in devices && devices[id].key == key
  }

  datatype Ask = ById(id: nat) | ByKey(key: string)

  datatype ProbeAnswer = RateLimited | Refused | AuthOk

  const AUTH_PROBE_MIN_INTERVAL_MS := 30000

  class OwnerStore {
    const idleMs: nat
    ghost const start: nat
    var clock: int
    var devices: map<nat, Device>
    var nonces: map<nat, Nonce>
    var epochs: map<nat, nat>
    var challenges: map<nat, Challenge>
    var fences: map<string, int>
    var supply: nat
    ghost var log: seq<Action>

    constructor (idleMs: nat, clock: nat)
      requires ValidIdle(idleMs)
      ensures Valid() && log == []
    {
      this.idleMs, start, this.clock := idleMs, clock, clock;
      devices, nonces, epochs, challenges, fences, supply, log := map[], map[], map[], map[], map[], 0, [];
    }

    ghost function Now(): Store reads this { Exec(Empty(idleMs, start), log) }

    ghost predicate Agrees(s: Store) reads this {
      && s.idleMs == idleMs && s.clock == clock && s.devices == devices && s.nonces == nonces && s.epochs == epochs
      && s.challenges == challenges && s.fences == fences && s.supply == supply
    }

    ghost predicate Valid() reads this { ValidIdle(idleMs) && Agrees(Now()) }

    /** Other requests run for a while. */
    method Await()
      requires Valid()
      modifies this
      ensures Valid() && old(log) <= log
    {
    }

    /** `grantCurrent` of a record that was read: for a session device others run while the workflow is asked, whose
      word is `allowed`. */
    method GrantCurrent(d: Device, allowed: bool) returns (current: bool)
      requires Valid()
      modifies this
      ensures Valid() && old(log) <= log
      ensures current <==> Authorized(d, old(clock)) && (d.grant.Session? ==> allowed)
      ensures !d.grant.Session? ==> log == old(log) && Agrees(old(Now()))
    {
      current := Authorized(d, clock);
      if current && d.grant.Session? {
        Await();
        current := allowed;
      }
    }

    /** Records the transaction that the code has just made. */
    ghost method Record(a: Action, before: Store, after: Store)
      requires ValidIdle(idleMs) && before == Now() && after == Apply(before, a) && Agrees(after)
      modifies this`log
      ensures Valid() && log == old(log) + [a] && Now() == after
    {
      log := log + [a];
      assert log[..|log| - 1] == old(log);
    }

    /** A log that grew by one step: so did the store. */
    lemma LogStep(before: Store, a: Action)
      requires |log| > 0 && log[|log| - 1] == a && before == Exec(Empty(idleMs, start), log[..|log| - 1])
      ensures Now() == Apply(before, a)
    {
    }

    // ---- listLiveGrants ----

    /** At most 65 rows. */
    method ListRows() returns (page: set<nat>)
      ensures PageOf(devices, page)
    {
      page := {};
      var left := devices.Keys;
      while left != {} && |page| < MAX_GRANTS + 1
        invariant page !! left && page + left == devices.Keys && |page| <= MAX_GRANTS + 1
      {
        var k :| k in left;
        page, left := page + {k}, left - {k};
      }
      assert |devices.Keys| == |page| + |left|;
    }

    /** The expired ones of at most 64 fences. */
    method ListExpired() returns (gone: set<string>)
      ensures ExpiredFences(fences, gone, clock)
    {
      gone := {};
      var left, listed := fences.Keys, 0;
      while left != {} && listed < 64
        invariant left <= fences.Keys && |fences.Keys| == listed + |left| && |gone| <= listed <= 64
        invariant forall a :: a in gone <==> a in fences && a !in left && fences[a] <= clock
      {
        var a :| a in left;
        if fences[a] <= clock { gone := gone + {a}; }
        left, listed := left - {a}, listed + 1;
      }
    }

    /** One row of the page: kept, migrated if it was a legacy row, or deleted with its nonce and epoch. */
    method SweepOne(k: nat) returns (live: bool)
      requires k in devices
      modifies this`devices, this`nonces, this`epochs
      ensures devices == SweptRow(old(devices), k, clock, idleMs)
      ensures devices.Keys == if live then old(devices).Keys else old(devices).Keys - {k}
      ensures live ==> nonces == old(nonces) && epochs == old(epochs)
      ensures !live ==> nonces == old(nonces) - {k} && epochs == old(epochs) - {k}
    {
      var device := Migrated(devices[k], clock, idleMs);
      live := StillGranted(device, clock);
      if live { devices := devices[k := device]; }
      else { devices, nonces, epochs := devices - {k}, nonces - {k}, epochs - {k}; }
    }

    method SweepNext(k: nat, active: set<nat>, ghost done: set<nat>, ghost lapsed: set<nat>, ghost n: map<nat, Nonce>,
                     ghost e: map<nat, nat>)
      returns (active': set<nat>, ghost lapsed': set<nat>)
      requires k in devices && k !in done && Sorted(done, active, lapsed, devices.Keys) && nonces == n - lapsed &&
               epochs == e - lapsed
      modifies this`devices, this`nonces, this`epochs
      ensures devices == SweptRow(old(devices), k, clock, idleMs)
      ensures Sorted(done + {k}, active', lapsed', devices.Keys) && nonces == n - lapsed' && epochs == e - lapsed'
    {
      MinusMore(n, lapsed, k);
      MinusMore(e, lapsed, k);
      SortedMore(done, active, lapsed, devices.Keys, k);
      var live := SweepOne(k);
      if live { active', lapsed' := active + {k}, lapsed; } else { active', lapsed' := active, lapsed + {k}; }
    }

    /** The loop over the page; `swept` tells what the records are after any part of it. */
    method SweepPage(page: set<nat>, ghost swept: set<nat> -> map<nat, Device>) returns (active: set<nat>)
      requires page <= devices.Keys && swept({}) == devices
      requires forall done, k {:trigger SweepsOn(swept, done, k, clock, idleMs)} :: k in page && k !in done ==>
                 SweepsOn(swept, done, k, clock, idleMs)
      modifies this`devices, this`nonces, this`epochs
      ensures devices == swept(page) && active == devices.Keys * page
      ensures nonces == old(nonces) - (page - devices.Keys) && epochs == old(epochs) - (page - devices.Keys)
    {
      active := {};
      var left := page;
      ghost var done, lapsed := {}, {};
      ghost var n, e := nonces, epochs;
      while left != {}
        invariant done + left == page && done !! left && devices == swept(done)
        invariant Sorted(done, active, lapsed, devices.Keys)
        invariant nonces == n - lapsed && epochs == e - lapsed
        decreases |left|
      {
        var k :| k in left;
        assert SweepsOn(swept, done, k, clock, idleMs);
        active, lapsed := SweepNext(k, active, done, lapsed, n, e);
        left, done := left - {k}, done + {k};
      }
      assert done == page;
      SortedSplits(page, active, lapsed, devices.Keys);
    }

    /** The sweep inside a transaction: lapsed records of the page go with their nonces and epochs, legacy ones are
      migrated. */
    method ListLiveGrants() returns (active: set<nat>, page: set<nat>, gone: set<string>)
      modifies this`devices, this`nonces, this`epochs, this`fences
      ensures PageOf(old(devices), page) && ExpiredFences(old(fences), gone, clock)
      ensures devices == Swept(old(devices), page, clock, idleMs) && fences == old(fences) - gone
      ensures active == devices.Keys * page
      ensures nonces == old(nonces) - (page - devices.Keys) && epochs == old(epochs) - (page - devices.Keys)
    {
      gone := ListExpired();
      fences := fences - gone;
      active, page := SweepRows();
    }

    method SweepRows() returns (active: set<nat>, page: set<nat>)
      modifies this`devices, this`nonces, this`epochs
      ensures PageOf(old(devices), page) && devices == Swept(old(devices), page, clock, idleMs)
      ensures active == devices.Keys * page
      ensures nonces == old(nonces) - (page - devices.Keys) && epochs == old(epochs) - (page - devices.Keys)
    {
      page := ListRows();
      ghost var was, now := devices, clock;
      ghost var swept := done => Swept(was, done, now, idleMs);
      assert Swept(was, {}, now, idleMs) == was;
      forall done, k | k in page && k !in done ensures SweepsOn(swept, done, k, now, idleMs) {
        SweptStep(was, done, k, now, idleMs);
      }
      active := SweepPage(page, swept);
    }

    /** The sweep, on the store as a whole. */
    method SweepAll(ghost s: Store) returns (active: set<nat>, page: set<nat>, gone: set<string>)
      requires Agrees(s)
      modifies this`devices, this`nonces, this`epochs, this`fences
      ensures ValidSweep(s, page, gone) && Agrees(Sweep(s, page, gone)) && active == devices.Keys * page
    {
      active, page, gone := ListLiveGrants();
    }

    /** The same; afterwards the store is `m`, and what an admission makes of it is the step of the machine. */
    method SweepStore(ghost s: Store) returns (active: set<nat>, page: set<nat>, gone: set<string>, ghost m: Store)
      requires Agrees(s)
      modifies this`devices, this`nonces, this`epochs, this`fences
      ensures Agrees(m) && active == devices.Keys * page && AdmitsAs(s, page, gone, m) &&
              SweepsTo(s, page, gone, m.devices) && m == Sweep(s, page, gone)
    {
      active, page, gone := SweepAll(s);
      m := Sweep(s, page, gone);
      SweepAdmits(s, page, gone);
    }

    // ---- admissions ----

    /** Is the key one of a live grant? */
    method UsesKey(active: set<nat>, ghost page: set<nat>, key: string) returns (used: bool)
      requires active == devices.Keys * page
      ensures used <==> KeyTaken(devices, page, key)
    {
      var taken := set k | k in active && devices[k].key == key;
      used := taken != {};
      if KeyTaken(devices, page, key) {
        ghost var k :| k in devices && k in page && devices[k].key == key;
        assert k in taken;
      }
    }

    /** Is there room for a device, and is the key one of a live grant? */
    method Judge(active: set<nat>, page: set<nat>, key: string) returns (room: bool, used: bool)
      requires active == devices.Keys * page
      ensures room == HasRoom(devices, page) && used == KeyTaken(devices, page, key)
    {
      used := UsesKey(active, page, key);
      room := |page| <= MAX_GRANTS && |active| < MAX_GRANTS;
    }

    method Insert(d: Device) returns (id: nat)
      modifies this`devices, this`supply
      ensures id == old(supply) && devices == old(devices)[id := d] && supply == id + 1
    {
      id := supply;
      devices, supply := devices[supply := d], supply + 1;
    }

    /** The rest of an admitting transaction: capacity, key, insertion. */
    method Admit(ghost s: Store, d: Device, active: set<nat>, page: set<nat>)
      returns (id: Option<nat>, room: bool, used: bool)
      requires Agrees(s) && active == devices.Keys * page
      modifies this`devices, this`supply
      ensures Agrees(AdmitTx(s, page, d))
      ensures room == HasRoom(s.devices, page) && used == KeyTaken(s.devices, page, d.key)
      ensures id == if room && !used then Some(s.supply) else None
      ensures id.Some? ==> id.value in devices && devices[id.value] == d
      ensures id == None ==> devices == old(devices)
    {
      room, used := Judge(active, page, d.key);
      id := None;
      if room && !used {
        var n := Insert(d);
        id := Some(n);
      }
    }

    method ApproveSwept(ghost s: Store, key: string, temporary: bool, active: set<nat>, page: set<nat>)
      returns (id: Option<nat>, room: bool, used: bool)
      requires Agrees(s) && active == devices.Keys * page
      modifies this`devices, this`supply
      ensures Agrees(ApproveTx(s, key, temporary, page))
      ensures room == HasRoom(s.devices, page) && used == KeyTaken(s.devices, page, key)
      ensures id == if room && !used then Some(s.supply) else None
      ensures id.Some? ==> id.value in devices && devices[id.value] == ApprovedDevice(key, temporary, clock, idleMs)
    {
      id, room, used := Admit(s, ApprovedDevice(key, temporary, clock, idleMs), active, page);
    }

    method ApproveStore(ghost s: Store, key: string, temporary: bool)
      returns (id: Option<nat>, room: bool, used: bool, ghost page: set<nat>, ghost gone: set<string>,
               ghost live: map<nat, Device>)
      requires Agrees(s)
      modifies this`devices, this`nonces, this`epochs, this`fences, this`supply
      ensures SweepsTo(s, page, gone, live) && Agrees(Apply(s, Approve(key, temporary, page, gone)))
      ensures room == HasRoom(live, page) && used == KeyTaken(live, page, key)
      ensures id == if room && !used then Some(s.supply) else None
      ensures id.Some? ==> id.value in devices && devices[id.value] == ApprovedDevice(key, temporary, clock, idleMs)
    {
      var active, listed;
      ghost var m;
      active, listed, gone, m := SweepStore(s);
      page, live := listed, m.devices;
      id, room, used := ApproveSwept(m, key, temporary, active, listed);
    }

    /** The transaction of `approvePendingKey`, for a pending key that was found. */
    method ApprovePendingKey(key: string, temporary: bool)
      returns (id: Option<nat>, room: bool, used: bool, ghost page: set<nat>, ghost gone: set<string>,
               ghost live: map<nat, Device>)
      requires Valid()
      modifies this
      ensures Valid() && log == old(log) + [Approve(key, temporary, page, gone)] && clock == old(clock)
      ensures |devices.Keys| <= 64
      ensures SweepsTo(old(Now()), page, gone, live)
      ensures room == HasRoom(live, page) && used == KeyTaken(live, page, key)
      ensures id == if room && !used then Some(old(supply)) else None
      ensures id.Some? ==> id.value in devices && devices[id.value] == ApprovedDevice(key, temporary, clock, idleMs)
      ensures id.Some? ==> forall k :: k in devices && devices[k].key == key ==> k == id.value
    {
      ghost var before := Now();
      id, room, used, page, gone, live := ApproveStore(before, key, temporary);
      Record(Approve(key, temporary, page, gone), before, Apply(before, Approve(key, temporary, page, gone)));
      OneHolder(idleMs, start, log, key);
    }

    method CheckStore(ghost s: Store, key: string)
      returns (room: bool, used: bool, ghost page: set<nat>, ghost gone: set<string>, ghost live: map<nat, Device>)
      requires Agrees(s)
      modifies this`devices, this`nonces, this`epochs, this`fences
      ensures SweepsTo(s, page, gone, live) && Agrees(Apply(s, RegisterPending(page, gone)))
      ensures room == HasRoom(live, page) && used == KeyTaken(live, page, key)
    {
      var active, listed;
      active, listed, gone := SweepAll(s);
      page, live := listed, devices;
      room, used := Judge(active, listed, key);
    }

    /** The sweep of a registration: is there room for a device, and is the key one of a live grant? */
    method CheckKey(key: string)
      returns (room: bool, used: bool, ghost page: set<nat>, ghost gone: set<string>, ghost live: map<nat, Device>)
      requires Valid()
      modifies this
      ensures Valid() && log == old(log) + [RegisterPending(page, gone)] && clock == old(clock)
      ensures SweepsTo(old(Now()), page, gone, live)
      ensures room == HasRoom(live, page) && used == KeyTaken(live, page, key)
    {
      ghost var before := Now();
      room, used, page, gone, live := CheckStore(before, key);
      Record(RegisterPending(page, gone), before, Apply(before, RegisterPending(page, gone)));
    }

    // ---- session enrollment ----

    /** The live record of the attempt, if any. */
    method FindAttempt(active: set<nat>, ghost page: set<nat>, attempt: string) returns (previous: Option<nat>)
      requires active == devices.Keys * page
      ensures previous.Some? <==> AttemptTaken(devices, page, attempt)
      ensures previous.Some? ==> previous.value in active && OfAttempt(devices[previous.value], attempt)
    {
      var enrolled := set k | k in active && OfAttempt(devices[k], attempt);
      if AttemptTaken(devices, page, attempt) {
        ghost var k :| k in devices && k in page && OfAttempt(devices[k], attempt);
        assert k in enrolled;
      }
      previous := None;
      if enrolled != {} {
        var k :| k in enrolled;
        previous := Some(k);
      }
    }

    /** After the sweep of an enrollment: the fence, an earlier enrollment of the attempt, capacity, the key and the
      end. */
    method EnrollSwept(ghost s: Store, key: string, attempt: Attempt, expires: int, active: set<nat>, page: set<nat>)
      returns (answer: Enrollment)
      requires Agrees(s) && active == devices.Keys * page
      modifies this`devices, this`supply
      ensures Agrees(EnrollTx(s, key, attempt, expires, page))
      ensures EnrollsOn(s, page, devices, answer, key, attempt, expires)
    {
      if |page| > MAX_GRANTS { return Full; }
      if attempt.id in fences { return Denied; }
      var previous := FindAttempt(active, page, attempt.id);
      if previous.Some? {
        var d := devices[previous.value];
        return if EnrolledAs(d, key, attempt, expires) then AlreadyRegistered(previous.value) else Conflict;
      }
      if clock >= expires { answer := LateAnswer(active, page, key); return; }
      var id, room, used := Admit(s, EnrolledDevice(key, attempt, expires, clock), active, page);
      answer := if !room then Full else if used then KeyUsed else Registered(id.value);
    }

    /** An attempt that has ended is denied, but only after capacity and key. */
    method LateAnswer(active: set<nat>, ghost page: set<nat>, key: string) returns (answer: Enrollment)
      requires active == devices.Keys * page && |page| <= MAX_GRANTS
      ensures answer == if !HasRoom(devices, page) then Full
                        else if KeyTaken(devices, page, key) then KeyUsed else Denied
    {
      if |active| >= MAX_GRANTS { return Full; }
      var used := UsesKey(active, page, key);
      answer := if used then KeyUsed else Denied;
    }

    method EnrollStore(ghost s: Store, key: string, attempt: Attempt, expires: int)
      returns (answer: Enrollment, ghost a: Action)
      requires Agrees(s)
      modifies this`devices, this`nonces, this`epochs, this`fences, this`supply
      ensures Agrees(Apply(s, a)) && Enrolls(s, a, devices, answer, key, attempt, expires)
      ensures fences == Sweep(s, a.page, a.gone).fences
    {
      var active, page, gone;
      ghost var m;
      active, page, gone, m := SweepStore(s);
      answer := EnrollSwept(m, key, attempt, expires, active, page);
      a := Enroll(key, attempt, expires, page, gone);
    }

    /** The transaction of `registerSessionDevice`. */
    method EnrollTransaction(key: string, attempt: Attempt, expires: int) returns (answer: Enrollment)
      requires Valid()
      modifies this
      ensures Valid() && |log| == |old(log)| + 1 && old(log) == log[..|old(log)|] && |devices.Keys| <= 64
      ensures Enrolls(old(Now()), log[|old(log)|], devices, answer, key, attempt, expires)
      ensures answer.Registered? || answer.AlreadyRegistered? ==>
                && answer.id in devices && EnrolledAs(devices[answer.id], key, attempt, expires)
                && attempt.id !in fences && OnlyRecord(devices, answer.id, key, attempt.id)
      ensures answer.Registered? ==> answer.id !in old(devices)
    {
      ghost var before, a := Now(), Tick(0);
      ghost var prefix := log;
      answer, a := EnrollStore(before, key, attempt, expires);
      Record(a, before, Apply(before, a));
      OneHolder(idleMs, start, log, key);
      if answer.Registered? || answer.AlreadyRegistered? {
        EnrollsRecord(Sweep(before, a.page, a.gone), a.page, devices, answer, key, attempt, expires);
        NextIsNew(idleMs, start, prefix);
        EnrolledAlone(idleMs, start, log, answer.id, key, attempt.id);
      }
    }

    /** `registerSessionDevice`, for a token that the workflow accepted for `attempt` until `expires`. A device id is
      answered for a record that the transaction stored, or found to be the same, while the attempt is not fenced.
      `said` is what the transaction answers, the last step of `at`, and `confirmed` the workflow's word behind it. */
    method EnrollSession(key: string, attempt: Attempt, expires: int, possession: bool, confirmed: bool)
      returns (answer: Enrollment, ghost at: seq<Action>, ghost said: Enrollment)
      requires Valid()
      modifies this
      ensures Valid() && old(log) <= at <= log
      ensures answer == if old(clock) < expires && possession && confirmed && attempt.id !in fences then said
                        else Denied
      ensures old(clock) < expires && possession ==>
                && |at| > 0
                && var before, after := Exec(Empty(idleMs, start), at[..|at| - 1]), Exec(Empty(idleMs, start), at);
                   Enrolls(before, at[|at| - 1], after.devices, said, key, attempt, expires)
      ensures answer.Registered? || answer.AlreadyRegistered? ==>
                && attempt.id !in fences
                && var s := Exec(Empty(idleMs, start), at);
                   answer.id in s.devices && EnrolledAs(s.devices[answer.id], key, attempt, expires) &&
                     attempt.id !in s.fences
    {
      at, said := log, Denied;
      if expires <= clock { return Denied, at, said; }
      Await();
      at := log;
      if !possession { return Denied, at, said; }
      ghost var prefix := log;
      answer := EnrollTransaction(key, attempt, expires);
      at, said := log, answer;
      assert at[..|at| - 1] == prefix;
      Await();
      if !confirmed || attempt.id in fences { answer := Denied; }
    }

    // ---- proofs and sockets ----

    /** The record that a challenge is asked for: by its id, or as the live grant with the key. */
    method FindForChallenge(ask: Ask) returns (id: Option<nat>)
      requires Valid()
      modifies this
      ensures Valid() && old(log) <= log
      ensures id.Some? ==> AskedFor(log, ask, id.value)
      ensures forall k: nat :: AskedFor(log, ask, k) ==> id == Some(k)
    {
      id := None;
      match ask
      case ById(asked) =>
        MigrateDevice(asked);
        if asked in devices { id := Some(asked); }
      case ByKey(key) =>
        id := FindLive(key);
    }

    method FindLive(key: string) returns (id: Option<nat>)
      requires Valid()
      modifies this
      ensures Valid() && |log| == |old(log)| + 1 && old(log) == log[..|old(log)|] && log[|old(log)|].RegisterPending?
      ensures forall k: nat :: OnPage(devices, log[|old(log)|].page, key, k) <==> id == Some(k)
    {
      ghost var before := Now();
      var active, page, gone := SweepAll(before);
      Record(RegisterPending(page, gone), before, Apply(before, RegisterPending(page, gone)));
      OneHolder(idleMs, start, log, key);
      id := Search(active, page, key);
    }

    method Search(active: set<nat>, page: set<nat>, key: string) returns (id: Option<nat>)
      requires active == devices.Keys * page
      ensures id.Some? ==> OnPage(devices, page, key, id.value)
      ensures id == None ==> forall k: nat :: !OnPage(devices, page, key, k)
    {
      var found := set k | k in active && devices[k].key == key;
      id := None;
      if |page| <= MAX_GRANTS && found != {} {
        var k :| k in found;
        id := Some(k);
      }
      assert forall k: nat :: OnPage(devices, page, key, k) ==> k in found;
    }

    /** A challenge may be given for this record: it resumes, or is authorized, a session by the workflow's word too. */
    ghost predicate Askable(s: Store, id: nat, allowed: bool) {
      && id in s.devices && StillGranted(s.devices[id], s.clock)
      && (s.devices[id].resumePending || (!s.devices[id].stopped && (s.devices[id].grant.Session? ==> allowed)))
    }

    /** The record that is asked for: by its id, or the one with the key on a page that was complete. */
    ghost predicate AskedFor(at: seq<Action>, ask: Ask, id: nat) {
      match ask
      case ById(asked) => id == asked && id in Then(at).devices
      case ByKey(key) =>
        |at| > 0 && at[|at| - 1].RegisterPending? && OnPage(Then(at).devices, at[|at| - 1].page, key, id)
    }

    /** `issueSessionChallenge`, within the budget: exactly for a record that may have it as it is found, `at`. The
      nonce replaces any other of the device, and was never seen before. */
    method IssueSessionChallenge(ask: Ask, allowed: bool) returns (answer: Option<(nat, nat)>, ghost at: seq<Action>)
      requires Valid()
      modifies this
      ensures Valid() && old(log) <= at <= log
      ensures answer.Some? ==> AskedFor(at, ask, answer.value.0) && Askable(Then(at), answer.value.0, allowed)
      ensures answer == None ==> forall id :: AskedFor(at, ask, id) ==> !Askable(Then(at), id, allowed)
      ensures answer.Some? ==>
                var (id, nonce) := answer.value;
                && id in nonces && nonces[id] == Nonce(nonce, clock + MINUTE)
                && forall c :: c in Now().consumed ==> c.nonce != nonce
    {
      var id := FindForChallenge(ask);
      at := log;
      if id == None { return None, at; }
      var d := devices[id.value];
      if !(d.resumePending && StillGranted(d, clock)) {
        var current := GrantCurrent(d, allowed);
        if !current { return None, at; }
      }
      Await();
      var nonce := PutNonce(id.value);
      NoncesAreFresh(idleMs, start, log, id.value);
      answer := Some((id.value, nonce));
    }

    method PutNonce(id: nat) returns (nonce: nat)
      requires Valid()
      modifies this
      ensures Valid() && log == old(log) + [IssueNonce(id)]
      ensures id in nonces && nonces[id] == Nonce(nonce, clock + MINUTE)
    {
      ghost var before := Now();
      nonce := supply;
      nonces, supply := nonces[id := Nonce(supply, clock + MINUTE)], supply + 1;
      Record(IssueNonce(id), before, Apply(before, IssueNonce(id)));
    }

    /** `migratePermanentGrant` for a stored record. */
    method MigrateDevice(id: nat)
      requires Valid()
      modifies this
      ensures Valid() && old(log) <= log
      ensures devices == if id in old(devices) then old(devices)[id := Migrated(old(devices)[id], clock, idleMs)]
              else old(devices)
    {
      ghost var before := Now();
      if id in devices { devices := devices[id := Migrated(devices[id], clock, idleMs)]; }
      Record(Migrate(id), before, Apply(before, Migrate(id)));
    }

    ghost function Then(at: seq<Action>): Store { Exec(Empty(idleMs, start), at) }

    /** `consumeAuthorizedProof`: the record and the nonce are read, the proof is verified and the workflow asked
      outside the transaction, the transaction checks them again, and the answer needs the device to be authorized
      still. `heard` is the log behind the verification, `tx` that of the transaction, `at` that of the last check: the
      nonce is gone then. `allowed` and `still` are the workflow's words, before the transaction and behind it. */
    method ConsumeProof(id: nat, nonce: nat, socket: bool, verified: bool, allowed: bool, still: bool)
      returns (epoch: Option<nat>, ok: bool, ghost heard: seq<Action>, ghost tx: seq<Action>, ghost at: seq<Action>)
      requires Valid()
      modifies this
      ensures Valid() && old(log) <= heard <= tx <= at <= log
      ensures ok <==> Accepts(old(Now()), Then(heard), Then(tx), Then(at), id, nonce, socket, verified, allowed, still)
      ensures ok ==> (socket <==> epoch.Some?) && Prompt(Now(), id, nonce, epoch)
      ensures ok ==> id in Then(at).nonces ==> Then(at).nonces[id].value != nonce
      ensures !ok ==> epoch == None
    {
      epoch, ok, heard, tx, at := None, false, log, log, log;
      if id !in devices || id !in nonces || !MayConsume(devices[id], clock, socket) ||
         nonces[id].expires <= clock || nonces[id].value != nonce { return; }
      var read := devices[id];
      Await();
      heard, tx, at := log, log, log;
      if !verified { return; }
      var current := Recheck(read, socket, allowed);
      tx, at := log, log;
      if !current { return; }
      epoch, ok := ConsumeTransaction(id, nonce, read.key, socket);
      at := log;
      if ok { epoch, ok, at := ConfirmAuthorized(id, nonce, epoch, still); }
      if ok { ConsumedPromptly(idleMs, start, log, id, nonce, epoch); }
    }

    /** Behind the verification: a socket may resume, everyone else must be authorized. */
    method Recheck(read: Device, socket: bool, allowed: bool) returns (current: bool)
      requires Valid()
      modifies this
      ensures Valid() && old(log) <= log
      ensures current <==> StillGranted(read, old(clock)) && MayProve(read, socket, allowed)
    {
      if socket && read.resumePending && StillGranted(read, clock) { return true; }
      current := GrantCurrent(read, allowed);
    }

    /** The nonce was consumed, with this epoch. */
    ghost predicate Consumed(id: nat, nonce: nat, epoch: Option<nat>) reads this {
      exists at :: Consumption(id, nonce, epoch, at) in Now().consumed
    }

    /** After the transaction: the device may have been revoked or stopped meanwhile. */
    method ConfirmAuthorized(id: nat, ghost nonce: nat, committed: Option<nat>, allowed: bool)
      returns (epoch: Option<nat>, ok: bool, ghost at: seq<Action>)
      requires Valid() && Consumed(id, nonce, committed)
      modifies this
      ensures Valid() && old(log) <= at <= log
      ensures ok <==> MayReport(Then(at).devices, id, Then(at).clock, allowed)
      ensures epoch == if ok then committed else None
      ensures Consumed(id, nonce, committed) && (id in Then(at).nonces ==> Then(at).nonces[id].value != nonce)
    {
      ghost var before := log;
      Await();
      at := log;
      ConsumptionsStay(idleMs, start, before, at);
      ok := id in devices;
      if ok {
        ok := GrantCurrent(devices[id], allowed);
        ConsumptionsStay(idleMs, start, before, log);
      }
      epoch := if ok then committed else None;
    }

    method ConsumeTransaction(id: nat, nonce: nat, key: string, socket: bool) returns (epoch: Option<nat>, ok: bool)
      requires Valid()
      modifies this
      ensures Valid() && log == old(log) + [Consume(id, nonce, key, socket)]
      ensures ok <==> Answers.Proves(old(Now()), id, nonce, key, socket)
      ensures ok ==> id !in nonces && (socket <==> epoch.Some?) && (epoch.Some? ==> Current(Now(), id, epoch.value))
      ensures ok ==> Now().consumed == old(Now().consumed) + [Consumption(id, nonce, epoch, clock)] &&
                     id in old(nonces) && clock < old(nonces)[id].expires
      ensures !ok ==> epoch == None && Now() == old(Now())
    {
      ghost var before := Now();
      epoch := None;
      ok := id in nonces && nonces[id].value == nonce && nonces[id].expires > clock && id in devices &&
            MayConsume(devices[id], clock, socket) && devices[id].key == key;
      if ok {
        nonces := nonces - {id};
        if socket {
          var committed := Activate(id);
          epoch := Some(committed);
        }
      }
      Record(Consume(id, nonce, key, socket), before, ConsumeTx(before, id, nonce, key, socket));
    }

    /** The proof of a socket commits a new epoch, and is a contact of a permanent device. */
    method Activate(id: nat) returns (epoch: nat)
      requires id in devices && ValidIdle(idleMs)
      modifies this`epochs, this`supply, this`devices
      ensures epoch == old(supply) && supply == epoch + 1 && epochs == old(epochs)[id := epoch]
      ensures devices == if old(devices)[id].grant == Permanent
                         then old(devices)[id := Renewed(old(devices)[id], clock, idleMs).(resumePending := false)]
                         else old(devices)
    {
      epoch := supply;
      epochs, supply := epochs[id := epoch], supply + 1;
      var d := devices[id];
      if d.grant == Permanent { devices := devices[id := Renewed(d, clock, idleMs).(resumePending := false)]; }
    }

    /** `handleIdleSocketMessage`, for a well-formed probe: the rate gate of the socket, and the transaction, with the
      time from before it. `at` is the log before the transaction. */
    method Probe(id: nat, epoch: nat, lastCheck: Option<int>, allowed: bool)
      returns (answer: ProbeAnswer, checked: Option<int>, ghost at: seq<Action>)
      requires Valid()
      modifies this
      ensures Valid() && old(log) <= at
      ensures log == if answer == RateLimited then at else at + [Refresh(id, epoch, old(clock))]
      ensures answer == RateLimited <==> lastCheck.Some? && old(clock) - lastCheck.value < AUTH_PROBE_MIN_INTERVAL_MS
      ensures checked == if answer == RateLimited then lastCheck else Some(old(clock))
      ensures answer == AuthOk <==> answer != RateLimited && Probes(Then(at), id, epoch, allowed)
      ensures answer == AuthOk ==> id in devices && Current(Now(), id, epoch)
      ensures answer == AuthOk && devices[id].grant == Permanent ==>
                devices[id].lastVerified == Some(old(clock)) && devices[id].idleExpires == None
    {
      var seen := clock;
      at := log;
      if lastCheck.Some? && seen - lastCheck.value < AUTH_PROBE_MIN_INTERVAL_MS { return RateLimited, lastCheck, at; }
      checked := Some(seen);
      Await();
      at := log;
      ClockGrows(idleMs, start, old(log), log);
      var updated := RefreshGrant(id, epoch, seen, allowed);
      answer := if updated then AuthOk else Refused;
    }

    /** The transaction of a probe; `allowed` is the workflow's word on a session device. */
    method RefreshGrant(id: nat, epoch: nat, seen: int, allowed: bool) returns (updated: bool)
      requires Valid() && seen <= clock
      modifies this
      ensures Valid() && log == old(log) + [Refresh(id, epoch, seen)]
      ensures updated <==> Probes(old(Now()), id, epoch, allowed)
      ensures devices == if updated && old(devices)[id].grant == Permanent
                         then old(devices)[id := Renewed(old(devices)[id], seen, idleMs)] else old(devices)
      ensures epochs == old(epochs)
    {
      ghost var before := Now();
      updated := id in devices && Authorized(devices[id], clock) && (devices[id].grant.Session? ==> allowed) &&
                 id in epochs && epochs[id] == epoch;
      if updated && devices[id].grant == Permanent { devices := devices[id := Renewed(devices[id], seen, idleMs)]; }
      Record(Refresh(id, epoch, seen), before, RefreshTx(before, id, epoch, seen));
    }

    /** `handleDeviceInfoMessage`, for well-formed metadata: stored exactly for an authorized device and the current
      epoch. */
    method DeviceInfo(id: nat, epoch: nat, info: string, allowed: bool) returns (stored: bool)
      requires Valid()
      modifies this
      ensures Valid() && log == (if stored then old(log) + [Describe(id, epoch, info)] else old(log))
      ensures stored <==> Probes(old(Now()), id, epoch, allowed)
      ensures devices == if stored then old(devices)[id := old(devices)[id].(info := Some(info))] else old(devices)
    {
      ghost var before := Now();
      stored := id in devices && Authorized(devices[id], clock) && (devices[id].grant.Session? ==> allowed) &&
                id in epochs && epochs[id] == epoch;
      if stored {
        devices := devices[id := devices[id].(info := Some(info))];
        Record(Describe(id, epoch, info), before, DescribeTx(before, id, epoch, info));
      }
    }

    /** `recordVerifiedSocketClose` */
    method SocketClosed(id: nat, epoch: nat)
      requires Valid()
      modifies this
      ensures Valid() && log == old(log) + [Close(id, epoch)]
      ensures id !in old(epochs) || old(epochs)[id] != epoch ==> devices == old(devices)
    {
      ghost var before := Now();
      if id in devices && id in epochs && epochs[id] == epoch && MayClose(devices[id], clock, idleMs) {
        devices := devices[id := devices[id].(idleExpires := Some(clock + idleMs))];
      }
      Record(Close(id, epoch), before, CloseTx(before, id, epoch));
    }

    // ---- the owner ----

    /** The owner of this record may have a challenge: for a stop, or for the resumption of a stopped device. */
    predicate MayIntend(s: Store, id: nat, intent: Intent) {
      && id in s.devices && s.devices[id].grant == Permanent && StillGranted(s.devices[id], s.clock)
      && s.devices[id].generation < 9007199254740991 && (intent == Resume ==> s.devices[id].stopped)
    }

    /** `issueOwnerIntentChallenge`: exactly for a record that may have it as it is read, `at`, and bound to the
      generation of then. */
    method IssueOwnerChallenge(id: nat, intent: Intent) returns (c: Option<Challenge>, ghost at: seq<Action>)
      requires Valid()
      modifies this
      ensures Valid() && old(log) <= at <= log
      ensures c.Some? <==> MayIntend(Then(at), id, intent)
      ensures c.Some? ==>
                && id in challenges && challenges[id] == c.value
                && c.value == Challenge(intent, c.value.nonce, Then(at).devices[id].generation, clock + 60000)
                && log == log[..|log| - 1] + [IssueChallenge(id, intent, c.value.generation)]
    {
      c := None;
      MigrateDevice(id);
      at := log;
      if id !in devices { return; }
      var d := devices[id];
      if d.grant != Permanent || !StillGranted(d, clock) || d.generation >= MAX_SAFE ||
        (intent == Resume && !d.stopped) {
        return;
      }
      Await();
      ghost var before := Now();
      c := Some(Challenge(intent, supply, d.generation, clock + MINUTE));
      challenges, supply := challenges[id := c.value], supply + 1;
      Record(IssueChallenge(id, intent, d.generation), before, Apply(before, IssueChallenge(id, intent, d.generation)));
    }

    /** A session's attempt is fenced until its end. */
    method FenceAttempt(d: Device)
      modifies this`fences
      ensures fences == if d.grant.Session? && d.expires.Some? && Safe(d.expires.value) && d.expires.value > clock
                        then old(fences)[d.grant.attempt.id := d.expires.value] else old(fences)
    {
      if d.grant.Session? && d.expires.Some? && Safe(d.expires.value) && d.expires.value > clock {
        fences := fences[d.grant.attempt.id := d.expires.value];
      }
    }

    /** The transaction of `revokeDevice`, on the store as a whole. */
    method RevokeStore(ghost s: Store, id: nat) returns (revoked: bool)
      requires Agrees(s)
      modifies this`devices, this`nonces, this`epochs, this`fences
      ensures Agrees(RevokeTx(s, id)) && devices == old(devices) - {id}
      ensures revoked <==> id in old(devices) && !old(devices)[id].revoked
      ensures revoked ==> id !in nonces && id !in epochs
    {
      revoked := id in devices && !devices[id].revoked;
      if id in devices {
        var record := devices[id];
        devices := devices - {id};
        if revoked {
          FenceAttempt(record);
          nonces, epochs := nonces - {id}, epochs - {id};
        }
      } else { assert devices - {id} == devices; }
    }

    /** The transaction of `revokeDevice`. */
    method RevokeDevice(id: nat) returns (revoked: bool)
      requires Valid()
      modifies this
      ensures Valid() && log == old(log) + [Revoke(id)] && id !in devices
      ensures revoked <==> id in old(devices) && !old(devices)[id].revoked
      ensures revoked ==> id !in nonces && id !in epochs
    {
      ghost var before := Now();
      revoked := RevokeStore(before, id);
      Record(Revoke(id), before, RevokeTx(before, id));
    }

    /** The transaction of `commitOwnerIntent`, on the store as a whole: `c` was read, and its signature verified,
      before. */
    method CommitIntentStore(ghost s: Store, id: nat, c: Challenge, key: string) returns (effective: bool)
      requires Agrees(s)
      modifies this`devices, this`epochs, this`nonces, this`challenges
      ensures Agrees(CommitIntentTx(s, id, c, key))
      ensures effective ==>
                id in devices && id in old(devices) &&
                  devices[id].generation == old(devices)[id].generation + 1 == c.generation + 1
      ensures effective ==> id !in epochs && id !in challenges
      ensures !effective ==> devices == old(devices)
    {
      effective := false;
      if id in devices && devices[id].grant == Permanent && devices[id].key == key &&
        StillGranted(devices[id], clock) &&
         devices[id].generation == c.generation && c.generation < MAX_SAFE && id in challenges &&
           challenges[id].nonce == c.nonce &&
         challenges[id].intent == c.intent && challenges[id].expires > clock {
        challenges := challenges - {id};
        ghost var m := s.(challenges := challenges);
        if c.intent == Stop { effective := StopDevice(m, id, c); } else { effective := ResumeDevice(m, id, c); }
      }
    }

    /** `commitOwnerIntent`: it takes the generation it was signed for, and leaves the device no later deadline. */
    method CommitOwnerIntent(id: nat, c: Challenge, key: string) returns (effective: bool)
      requires Valid()
      modifies this
      ensures Valid() && log == old(log) + [CommitIntent(id, c, key)]
      ensures effective ==>
                id in devices && id in old(devices) &&
                  devices[id].generation == old(devices)[id].generation + 1 == c.generation + 1
      ensures effective ==> id !in epochs && id !in challenges && NoLater(old(devices)[id], devices[id], clock, clock)
      ensures !effective ==> devices == old(devices)
    {
      ghost var before := Now();
      FromEmpty(idleMs, start, log);
      effective := CommitIntentStore(before, id, c, key);
      if effective { IntentNeverLengthens(before, id, c, key); }
      Record(CommitIntent(id, c, key), before, CommitIntentTx(before, id, c, key));
    }

    method StopDevice(ghost s: Store, id: nat, c: Challenge) returns (effective: bool)
      requires Agrees(s) && id in devices
      modifies this`devices, this`epochs, this`nonces
      ensures Agrees(StopTx(s, id, c)) && id in devices
      ensures effective ==> devices[id].generation == c.generation + 1 && id !in epochs
      ensures !effective ==> devices == old(devices)
    {
      var current := devices[id];
      var expiry := StopExpiry(current, clock, idleMs);
      effective := false;
      if InForce(expiry, clock) {
        if !current.stopped {
          devices := devices[id := current.(stopped := true, resumePending := false, generation := c.generation + 1,
                                            idleExpires := Some(expiry.time),
                                            idleWindow := if current.idleWindow.Some? then current.idleWindow
                                              else Some(idleMs))];
          effective := true;
        }
        epochs, nonces := epochs - {id}, nonces - {id};
      }
    }

    method ResumeDevice(ghost s: Store, id: nat, c: Challenge) returns (effective: bool)
      requires Agrees(s) && id in devices
      modifies this`devices, this`epochs
      ensures Agrees(ResumeTx(s, id, c)) && id in devices
      ensures effective ==> devices[id].generation == c.generation + 1 && id !in epochs
      ensures !effective ==> devices == old(devices)
    {
      var current := devices[id];
      effective := current.stopped && InForce(PermanentDeadline(current, clock), clock);
      if effective {
        devices := devices[id := current.(stopped := false, resumePending := true, generation := c.generation + 1)];
        epochs := epochs - {id};
      }
    }
  }
}
