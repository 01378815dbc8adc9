/** The owner's handlers as they are written, over the endpoint row and the maps they update in place.

  `Await` stands at every `await`: everyone else takes any number of steps. What a hash comparison, a lease check, the
  alarm or the ledger comes to is a parameter, and the log of a moment between two awaits is handed out, so that each
  handler says exactly when it succeeds.
*/
module BrowserOwner {
  import opened Common
  import opened EndpointState
  import opened IntentKeys
  import opened BrowserEndpoint
  import opened BrowserSafety
  import opened BrowserTheorems
  import opened BrowserSockets
  import Answers = BrowserAnswers

  /** What an admission captured as its mark is the number of changes behind its revision. */
  lemma MarkIsRevision(w: nat, log: seq<Action>, key: Key, now: nat, at: nat, socket: nat, mark: nat)
    requires var s := Exec(Inserted(), log); w in s.workers && s.workers[w] == MutateWaits(key, now, at, socket, mark)
    ensures at == mark + 1
  {
    InsertedOk();
    RunOk(Inserted(), log);
    var s := Exec(Inserted(), log);
    assert WorkerOk(w, s.workers[w], s.admitting, s.prepared, s.stopEpoch);
  }

  /** A caller that waits for the ledger knows the binding of its operation. */
  lemma BindingStands(w: nat, log: seq<Action>, o: nat, key: Key, now: nat, at: nat)
    requires var s := Exec(Inserted(), log); w in s.workers && s.workers[w] == ExecuteWaits(o, key, now, at)
    ensures var s := Exec(Inserted(), log);
            o in s.prepared && s.prepared[o].key == key &&
            s.prepared[o].generation == now && s.prepared[o].revision == at
  {
    InsertedOk();
    RunOk(Inserted(), log);
    var s := Exec(Inserted(), log);
    assert WorkerOk(w, s.workers[w], s.admitting, s.prepared, s.stopEpoch);
  }

  /** The socket of an admission is authenticated as long as the generation is the same. */
  lemma AdmittedIsAttached(w: nat, log: seq<Action>, key: Key, now: nat, at: nat, socket: nat, mark: nat)
    requires var s := Exec(Inserted(), log); w in s.workers && s.workers[w] == MutateWaits(key, now, at, socket, mark)
    ensures var s := Exec(Inserted(), log); s.generation == now ==> Attached(s.sockets, socket, now)
  {
    RunSockets(log);
    var s := Exec(Inserted(), log);
    assert AdmissionAttached(s.workers[w], s.sockets, s.generation);
  }

  class BrowserOwner {
    var state: Authorization
    var generation: nat
    var revision: nat
    var stopEpoch: nat
    var sockets: map<nat, nat>
    var admitting: bool
    var pending: map<nat, Pending>
    var prepared: map<nat, Prepared>
    var attempts: map<nat, Attempt>
    var supply: nat
    var serials: nat
    ghost var log: seq<Action>

    constructor ()
      ensures Valid() && log == []
    {
      state, generation, revision, stopEpoch := Enabled, 0, 1, 0;
      sockets, admitting, pending, prepared, attempts, supply, serials := map[], false, map[], map[], map[], 0, 0;
      log := [];
    }

    ghost function Now(): World reads this { Exec(Inserted(), log) }

    ghost predicate Agrees(s: World) reads this {
      && s.state == state && s.generation == generation && s.revision == revision && s.stopEpoch == stopEpoch
      && s.sockets == sockets && s.admitting.Some? == admitting && s.pending == pending && s.prepared == prepared
      && s.attempts == attempts && s.supply == supply && s.serials == serials
    }

    ghost predicate Valid() reads this { Agrees(Now()) }

    ghost function Then(at: seq<Action>): World { Exec(Inserted(), at) }

    /** The endpoint is enabled, and its grant is this one. */
    predicate Granted(s: World, now: nat, at: nat) { s.state == Enabled && s.generation == now && s.revision == at }

    ghost predicate At(w: nat, pc: Pc) reads this { w in Now().workers && Now().workers[w] == pc }

    method Await(ghost w: nat, ghost pc: Pc)
      requires Valid() && At(w, pc)
      modifies this
      ensures Valid() && At(w, pc) && old(log) <= log
    {
    }

    /** An await of a request that holds nothing in the maps. */
    method Pause()
      requires Valid()
      modifies this
      ensures Valid() && old(log) <= log
    {
    }

    /** Records the step that the code has just taken on the fields. */
    ghost method Record(a: Action, before: World, after: World)
      requires before == Now() && after == Apply(before, a) && Agrees(after)
      modifies this`log
      ensures Valid() && log == old(log) + [a] && Now() == after
    {
      log := log + [a];
      assert log[..|log| - 1] == old(log);
    }

    ghost method RecordResume(w: nat, pc: Pc, yes: bool, before: World, after: World)
      requires before == Now() && At(w, pc) && after == ResumeStep(before, w, pc, yes) && Agrees(after)
      modifies this`log
      ensures Valid() && old(log) <= log && Now() == after
    {
      Record(Resume(w, yes), before, after);
    }

    /** A durable binding. */
    predicate Bound(o: nat, key: Key, now: nat, at: nat) reads this {
      o in prepared && prepared[o].key == key && prepared[o].generation == now && prepared[o].revision == at
    }

    // ---- /mutate ----

    /** Nothing is under way on an enabled endpoint, and the socket is authenticated at its generation. */
    predicate Admissible(s: World, socket: nat, busy: bool) {
      && s.state == Enabled && s.pending == map[] && s.admitting == None && !busy
      && Attached(s.sockets, socket, s.generation)
    }

    /** The checks before the admission. `busy`: a read is open, or the ledger has a dispatching intent. */
    method BeginMutation(ghost w: nat, key: Key, socket: nat, busy: bool) returns (ok: bool)
      requires Valid() && w !in Now().workers
      modifies this
      ensures Valid() && old(log) <= log
      ensures At(w, if ok then MutateWaits(key, generation, revision, socket, Now().changes) else Done)
      ensures ok <==> Admissible(old(Now()), socket, busy)
      ensures ok ==> admitting && pending == map[] && sockets == old(sockets)
      ensures generation == old(generation) && revision == old(revision) && state == old(state)
    {
      ghost var before := Now();
      ok := state == Enabled && pending.Keys == {} && !admitting && !busy &&
            socket in sockets && sockets[socket] == generation;
      if ok { admitting := true; }
      Record(CallMutate(w, key, socket, busy), before, MutateCall(before, w, key, socket, busy));
    }

    /** The admission went through under an unchanged grant, on the fields: bind and track. */
    method Bind(ghost s: World, ghost w: nat, key: Key, now: nat, at: nat, socket: nat)
      requires Agrees(s.(admitting := None)) && at > 0 && state == Enabled && generation == now && revision == at
      modifies this`pending, this`prepared, this`supply
      ensures Agrees(MutateStep(s, w, key, now, at, socket, at - 1, true)) && supply == old(supply) + 1
      ensures pending == old(pending)[old(supply) := Pending(key, now, at, socket, Preparing)]
      ensures prepared == old(prepared)[old(supply) := Prepared(key, now, at, at - 1)]
    {
      prepared := prepared[supply := Prepared(key, now, at, at - 1)];
      pending := pending[supply := Pending(key, now, at, socket, Preparing)];
      supply := supply + 1;
    }

    /** After the admission, on the fields: release the reservation, recheck, bind. */
    method Track(ghost s: World, ghost w: nat, key: Key, now: nat, at: nat, socket: nat, accepted: bool)
      returns (sent: Option<nat>)
      requires Agrees(s) && at > 0
      modifies this`admitting, this`pending, this`prepared, this`supply
      ensures Agrees(MutateStep(s, w, key, now, at, socket, at - 1, accepted))
      ensures sent == if accepted && state == Enabled && generation == now && revision == at
                      then Some(old(supply)) else None
      ensures sent.Some? ==> sent.value in pending && pending[sent.value] == Pending(key, now, at, socket, Preparing)
      ensures sent.Some? ==> sent.value in prepared && prepared[sent.value] == Prepared(key, now, at, at - 1)
    {
      admitting := false;
      if accepted && state == Enabled && generation == now && revision == at {
        sent := Some(supply);
        Bind(s, w, key, now, at, socket);
      } else {
        sent := None;
      }
    }

    /** After the admission, which may have been refused or may have found an older receipt. */
    method TrackMutation(ghost w: nat, key: Key, now: nat, at: nat, socket: nat, ghost mark: nat, accepted: bool)
      returns (sent: Option<nat>)
      requires Valid() && At(w, MutateWaits(key, now, at, socket, mark))
      modifies this
      ensures Valid() && old(log) <= log && At(w, Done)
      ensures sent.Some? <==> accepted && Granted(old(Now()), now, at)
      ensures sent.Some? ==> sent.value in pending && pending[sent.value] == Pending(key, now, at, socket, Preparing)
      ensures sent.Some? ==> state == Enabled && Attached(sockets, socket, generation)
      ensures sent.Some? ==> generation == now && revision == at && Bound(sent.value, key, now, at)
    {
      ghost var before := Now();
      AdmittedIsAttached(w, log, key, now, at, socket, mark);
      MarkIsRevision(w, log, key, now, at, socket, mark);
      sent := Track(before, w, key, now, at, socket, accepted);
      RecordResume(w, MutateWaits(key, now, at, socket, mark), accepted, before,
        MutateStep(before, w, key, now, at, socket, mark, accepted));
    }

    /** The handler: a prepare request goes out exactly under the grant, and through the socket, that were current
      before the admission, and are behind it (`late`). `busy`: a read is open, or the ledger has a dispatching intent;
      `accepted`: the ledger has admitted the command. */
    method Mutate(ghost w: nat, key: Key, socket: nat, busy: bool, accepted: bool)
      returns (sent: Option<nat>, ghost late: seq<Action>)
      requires Valid() && w !in Now().workers
      modifies this
      ensures Valid() && old(log) <= late <= log && At(w, Done)
      ensures sent.Some? <==> Admissible(old(Now()), socket, busy) && accepted &&
                              Granted(Then(late), old(generation), old(revision))
      ensures sent.Some? ==>
                sent.value in pending && pending[sent.value].key == key && pending[sent.value].socket == socket
      ensures sent.Some? ==> state == Enabled && socket in sockets && sockets[socket] == generation
      ensures sent.Some? ==> generation == old(generation) && revision == old(revision) &&
                             Bound(sent.value, key, generation, revision)
    {
      var now, at := generation, revision;
      var ok := BeginMutation(w, key, socket, busy);
      late := log;
      if !ok { return None, late; }
      ghost var mark := Now().changes;
      Await(w, MutateWaits(key, now, at, socket, mark));
      late := log;
      sent := TrackMutation(w, key, now, at, socket, mark, accepted);
    }

    // ---- prepare_result ----

    /** Is the prepare result about a mutation that waits for it, on the current socket? */
    method IsAwaited(ghost s: World, o: nat, key: Key, socket: nat) returns (awaited: bool)
      requires Agrees(s)
      ensures awaited <==> Awaited(s, o, key, socket)
    {
      awaited := state == Enabled && socket in sockets && sockets[socket] == generation && o in pending &&
                 pending[o].socket == socket && pending[o].generation == generation &&
                 pending[o].phase == Preparing && pending[o].key == key;
    }

    /** The checks on the fields; `ok` says that the ledger is asked next. */
    method CheckBinding(ghost s: World, ghost w: nat, o: nat, key: Key, socket: nat, recent: bool, accepted: bool)
      returns (ok: bool)
      requires Agrees(s)
      modifies this`pending
      ensures Agrees(PrepareResult(s, w, o, key, socket, recent, accepted))
      ensures PrepareResult(s, w, o, key, socket, recent, accepted).workers ==
              s.workers[w := if ok then ExecuteWaits(o, key, generation, revision) else Done]
      ensures ok <==> recent && accepted && Answers.Expects(s, o, key, socket) && Bound(o, key, generation, revision)
      ensures ok ==> pending == old(pending)
    {
      var awaited := IsAwaited(s, o, key, socket);
      if !awaited { return false; }
      ok := recent && accepted && Bound(o, key, generation, revision);
      if !ok { pending := pending - {o}; }
    }

    /** The checks before the ledger's dispatch. The mutation ends when the binding is older than eight seconds or
      another one's, or when the extension refused. */
    method CheckPrepared(ghost w: nat, o: nat, key: Key, socket: nat, recent: bool, accepted: bool) returns (ok: bool)
      requires Valid() && w !in Now().workers
      modifies this
      ensures Valid() && old(log) <= log
      ensures At(w, if ok then ExecuteWaits(o, key, generation, revision) else Done)
      ensures ok <==> recent && accepted && Answers.Expects(old(Now()), o, key, socket) &&
                      old(Bound(o, key, generation, revision))
      ensures generation == old(generation) && revision == old(revision)
    {
      ghost var before := Now();
      ok := CheckBinding(before, w, o, key, socket, recent, accepted);
      Record(CallPrepareResult(w, o, key, socket, recent, accepted), before,
        PrepareResult(before, w, o, key, socket, recent, accepted));
    }

    /** The token is out, on the fields: the grant and the socket are checked once more. */
    method CheckGrant(ghost s: World, ghost w: nat, o: nat, now: nat, at: nat, open: bool) returns (sent: bool)
      requires Agrees(s) && o in prepared
      modifies this`pending
      ensures Agrees(ExecuteStep(s, w, o, now, at, true, open))
      ensures sent <==> state == Enabled && generation == now && revision == at && open
    {
      sent := state == Enabled && generation == now && revision == at && open;
      if !sent { pending := pending - {o}; }
      else if o in pending { pending := pending[o := pending[o].(phase := Dispatched)]; }
    }

    /** The ledger has no token for this call: the mutation ends. */
    method EndMutation(ghost w: nat, o: nat, ghost key: Key, ghost now: nat, ghost at: nat)
      requires Valid() && At(w, ExecuteWaits(o, key, now, at))
      modifies this
      ensures Valid() && old(log) <= log && At(w, Done) && Now().sends == old(Now().sends)
      ensures pending == old(pending) - {o}
    {
      ghost var before := Now();
      pending := pending - {o};
      Record(Execute(w, false, false), before, ExecuteStep(before, w, o, now, at, false, false));
    }

    /** The token is out: the request goes out or does not. */
    method SendExecute(ghost w: nat, o: nat, ghost key: Key, now: nat, at: nat, open: bool) returns (sent: bool)
      requires Valid() && At(w, ExecuteWaits(o, key, now, at)) && o in prepared
      modifies this
      ensures Valid() && old(log) <= log && At(w, Done)
      ensures sent <==> old(state) == Enabled && old(generation) == now && old(revision) == at && open
      ensures sent ==> state == Enabled && generation == now && revision == at && prepared == old(prepared) &&
                       Now().sends == old(Now().sends)
                         + [Send(o, prepared[o], Enabled, generation, revision, old(Now().changes))]
      ensures !sent ==> Now().sends == old(Now().sends) && pending == old(pending) - {o}
    {
      ghost var before := Now();
      sent := CheckGrant(before, w, o, now, at, open);
      Record(Execute(w, true, open), before, ExecuteStep(before, w, o, now, at, true, open));
    }

    /** The handler: what goes out was admitted, under its key, with the authorization that still holds behind the
      ledger (`late`). `recent` and `accepted` are the age of the binding and the word of the extension, `token` is the
      ledger's; `open`: the socket is, and its send goes through. */
    method OnPrepareResult(ghost w: nat, o: nat, key: Key, socket: nat, recent: bool, accepted: bool, token: bool,
                           open: bool)
      returns (sent: bool, ghost late: seq<Action>)
      requires Valid() && w !in Now().workers
      modifies this
      ensures Valid() && old(log) <= late <= log && At(w, Done)
      ensures sent <==> && recent && accepted && Answers.Expects(old(Now()), o, key, socket)
                        && old(Bound(o, key, generation, revision))
                        && token && open && Granted(Then(late), old(generation), old(revision))
      ensures sent ==> Granted(Now(), old(generation), old(revision)) && Bound(o, key, generation, revision)
    {
      var now, at := generation, revision;
      var ok := CheckPrepared(w, o, key, socket, recent, accepted);
      late := log;
      if !ok { return false, late; }
      Await(w, ExecuteWaits(o, key, now, at));
      late := log;
      BindingStands(w, log, o, key, now, at);
      if !token {
        EndMutation(w, o, key, now, at);
        return false, late;
      }
      sent := SendExecute(w, o, key, now, at, open);
    }

    // ---- /activate-begin and /activate-authorize ----

    /** `/activate-begin`: the attempt carries the stop epoch that was read before the credential was hashed, so a
      Stop since then is a Stop since the attempt began. `accepted`: the credential is right and there is room. */
    method BeginActivation(ghost w: nat, i: nat, existing: bool, accepted: bool)
      returns (begun: bool, ghost late: seq<Action>)
      requires Valid() && w !in Now().workers
      modifies this
      ensures Valid() && old(log) <= late <= log && At(w, Done)
      ensures begun <==> (existing ==> old(state) != Revoked) && accepted && i !in Then(late).attempts
      ensures begun ==> i in attempts && attempts[i].existing == existing && attempts[i].stopEpoch == old(stopEpoch)
      ensures begun ==> !attempts[i].verified && !attempts[i].consumed
    {
      if existing && state == Revoked {
        Record(CallBegin(w, i, existing), Now(), Go(Now(), w, Done));
        return false, log;
      }
      var epoch := stopEpoch;
      Record(CallBegin(w, i, existing), Now(), Go(Now(), w, BeginWaits(i, existing, epoch)));
      Await(w, BeginWaits(i, existing, epoch));
      late := log;
      begun := InsertAttempt(w, i, existing, epoch, accepted);
    }

    /** Behind the hash of the credential: the insertion, unless the id is taken. */
    method InsertAttempt(ghost w: nat, i: nat, existing: bool, epoch: nat, accepted: bool) returns (begun: bool)
      requires Valid() && At(w, BeginWaits(i, existing, epoch))
      modifies this
      ensures Valid() && old(log) <= log && At(w, Done)
      ensures begun <==> accepted && i !in old(attempts)
      ensures attempts == if begun then old(attempts)[i := Attempt(old(serials), existing, epoch, false, false)]
              else old(attempts)
    {
      ghost var before := Now();
      begun := accepted && i !in attempts;
      if begun {
        attempts := attempts[i := Attempt(serials, existing, epoch, false, false)];
        serials := serials + 1;
      }
      RecordResume(w, BeginWaits(i, existing, epoch), accepted, before,
                   BeginStep(before, w, i, existing, epoch, accepted));
    }

    /** `/activate-authorize`, for an attempt that has not expired: once, and only before it is consumed. */
    method AuthorizeAttempt(i: nat) returns (changed: bool)
      requires Valid()
      modifies this
      ensures Valid() && old(log) <= log
      ensures changed <==> i in old(attempts) && !old(attempts)[i].verified && !old(attempts)[i].consumed
      ensures attempts == if changed then old(attempts)[i := old(attempts)[i].(verified := true)] else old(attempts)
    {
      ghost var before := Now();
      changed := i in attempts && !attempts[i].verified && !attempts[i].consumed;
      if changed { attempts := attempts[i := attempts[i].(verified := true)]; }
      Record(Authorize(i), before, Other(before, Authorize(i)));
    }

    /** The authentication of a socket, for an endpoint whose state, revision and generation are those from before the
      credential was hashed: a new generation, and the mutations of the sockets it supersedes end. `late`: behind the
      hash, which `matches`. */
    method AuthenticateSocket(socket: nat, matches: bool) returns (issued: Option<nat>, ghost late: seq<Action>)
      requires Valid()
      modifies this
      ensures Valid() && old(log) <= late <= log
      ensures issued.Some? <==> old(state) == Enabled && matches &&
                                Granted(Then(late), old(generation), old(revision))
      ensures issued.Some? ==> state == Enabled && revision == old(revision)
      ensures issued == None ==> log == late
      ensures issued.Some? ==> issued.value == generation == old(generation) + 1 &&
                               sockets == map[socket := generation] && pending == map[]
    {
      late := log;
      if state != Enabled { return None, late; }
      var now, at := generation, revision;
      Pause();
      late := log;
      if !matches || state != Enabled || revision != at || generation != now { return None, late; }
      InstallSocket(socket);
      issued := Some(generation);
    }

    /** Behind the recheck: the guarded write of the new generation. */
    method InstallSocket(socket: nat)
      requires Valid() && state == Enabled
      modifies this
      ensures Valid() && old(log) <= log && state == old(state) && revision == old(revision)
      ensures generation == old(generation) + 1 && sockets == map[socket := generation] && pending == map[]
    {
      ghost var before := Now();
      generation := generation + 1;
      sockets, pending := map[socket := generation], map[];
      Record(Authenticate(socket), before, Other(before, Authenticate(socket)));
    }

    // ---- /activate-complete, and Stop ----

    /** The steps of a completion that only read. */
    ghost method Advance(w: nat, pc: Pc, yes: bool, next: Pc)
      requires Valid() && At(w, pc) && ResumeStep(Now(), w, pc, yes) == Go(Now(), w, next)
      modifies this`log
      ensures Valid() && old(log) <= log && At(w, next)
    {
      RecordResume(w, pc, yes, Now(), Go(Now(), w, next));
    }

    /** On the fields: consume, read once more, enable. */
    method ConsumeAndEnable(ghost s: World, ghost w: nat, i: nat, row: Attempt, at: nat) returns (enabled: bool)
      requires Agrees(s) && Consumable(s, i)
      modifies this`attempts, this`state, this`revision
      ensures Agrees(CommitStep(s, w, i, row, at, true)) && i in attempts && attempts[i].consumed
      ensures enabled <==> Answers.Unstopped(s, row) && s.revision == at
      ensures state == (if enabled then Enabled else old(state)) && revision == old(revision) + if enabled then 1 else 0
    {
      attempts := attempts[i := attempts[i].(consumed := true)];
      enabled := state != Revoked && stopEpoch == row.stopEpoch && revision == at;
      if enabled { state, revision := Enabled, revision + 1; }
    }

    /** The attempt is ready, and the endpoint is as it was read for it. */
    predicate Commits(s: World, i: nat, row: Attempt, at: nat) {
      Answers.Ready(s, i) && Answers.Unstopped(s, row) && s.revision == at
    }

    /** Behind the alarm, without an await. */
    method CommitEnable(ghost w: nat, i: nat, row: Attempt, at: nat, alarmSet: bool) returns (enabled: bool)
      requires Valid() && At(w, AlarmWaits(i, row, at))
      modifies this
      ensures Valid() && old(log) <= log && At(w, Done)
      ensures enabled <==> alarmSet && Commits(old(Now()), i, row, at)
      ensures enabled ==> state == Enabled && stopEpoch == row.stopEpoch && revision == at + 1
      ensures enabled ==> i in attempts && attempts[i].consumed
      ensures !enabled ==> state == old(state) && revision == old(revision)
    {
      ghost var before := Now();
      enabled := false;
      if alarmSet && i in attempts && !attempts[i].consumed && attempts[i].verified {
        enabled := ConsumeAndEnable(before, w, i, row, at);
      }
      RecordResume(w, AlarmWaits(i, row, at), alarmSet, before, CommitStep(before, w, i, row, at, alarmSet));
    }

    /** The completion of an attempt on an existing endpoint, from the hash of its proof on. The endpoint is read behind
      that (`first`), behind the hash of the credential (`second`) and behind the alarm (`third`). */
    method CompleteExisting(ghost w: nat, i: nat, row: Attempt, proof: bool, credential: bool, alarmSet: bool)
      returns (enabled: bool, ghost first: seq<Action>, ghost second: seq<Action>, ghost third: seq<Action>)
      requires Valid() && At(w, ProofWaits(i, row)) && row.existing
      modifies this
      ensures Valid() && old(log) <= first <= second <= third <= log && At(w, Done)
      ensures enabled <==> && proof && row.verified && Answers.Unstopped(Then(first), row)
                           && credential && Answers.Unstopped(Then(second), row)
                           && Then(second).revision == Then(first).revision
                           && alarmSet && Commits(Then(third), i, row, Then(first).revision)
      ensures enabled ==> state == Enabled && stopEpoch == row.stopEpoch
    {
      Await(w, ProofWaits(i, row));
      first := log;
      Advance(w, ProofWaits(i, row), proof, AfterProof(Now(), i, row, proof));
      if !proof || !row.verified || state == Revoked || stopEpoch != row.stopEpoch { return false, first, log, log; }
      enabled, second, third := CompleteCurrent(w, i, row, revision, credential, alarmSet);
    }

    /** From the hash of the credential on. */
    method CompleteCurrent(ghost w: nat, i: nat, row: Attempt, at: nat, credential: bool, alarmSet: bool)
      returns (enabled: bool, ghost second: seq<Action>, ghost third: seq<Action>)
      requires Valid() && At(w, CredentialWaits(i, row, at))
      modifies this
      ensures Valid() && old(log) <= second <= third <= log && At(w, Done)
      ensures enabled <==> && credential && Answers.Unstopped(Then(second), row) && Then(second).revision == at
                           && alarmSet && Commits(Then(third), i, row, at)
      ensures enabled ==> state == Enabled && stopEpoch == row.stopEpoch && revision == at + 1
    {
      Await(w, CredentialWaits(i, row, at));
      second := log;
      Advance(w, CredentialWaits(i, row, at), credential, AfterCredential(Now(), i, row, at, credential));
      if !credential || state == Revoked || stopEpoch != row.stopEpoch || revision != at { return false, second, log; }
      Await(w, AlarmWaits(i, row, at));
      third := log;
      enabled := CommitEnable(w, i, row, at, alarmSet);
    }

    /** The write of a Stop: by the id of the row alone, in the branch of the state that was read before the
      credential was hashed and the alarm set. */
    method StopCommit(read: Authorization)
      requires Valid() && read != Revoked
      modifies this
      ensures Valid() && log == old(log) + [StopAction(read)] && stopEpoch == old(stopEpoch) + 1 && pending == map[]
      ensures read == Enabled ==> state == Stopped && revision == old(revision) + 1
      ensures read == Stopped ==> state == old(state) && revision == old(revision)
      ensures Now() == Other(old(Now()), StopAction(read))
    {
      ghost var before := Now();
      if read != Stopped {
        state, revision, stopEpoch := Stopped, revision + 1, stopEpoch + 1;
      } else {
        stopEpoch := stopEpoch + 1;
      }
      pending := map[];
      Record(StopAction(read), before, Other(before, StopAction(read)));
    }

    /** `/local-stop`: the row is read, the credential is hashed, and for a row that was enabled the alarm is set. */
    method LocalStop(matches: bool, alarmSet: bool) returns (stopped: bool)
      requires Valid()
      modifies this
      ensures Valid() && old(log) <= log
      ensures stopped <==> matches && old(state) != Revoked && (old(state) == Enabled ==> alarmSet)
      ensures stopped ==> pending == map[] && |log| > 0 && log[|log| - 1] == StopAction(old(state))
      ensures stopped && old(state) == Enabled ==> state == Stopped
      ensures matches && old(state) == Enabled && !alarmSet ==> state == Revoked && pending == map[]
    {
      var read := state;
      Pause();
      if !matches || read == Revoked { return false; }
      if read == Enabled {
        Pause();
        if !alarmSet {
          FailStop();
          return false;
        }
      }
      StopCommit(read);
      stopped := true;
    }

    /** The alarm of a Stop failed: the endpoint is revoked. */
    method FailStop()
      requires Valid()
      modifies this
      ensures Valid() && old(log) <= log && state == Revoked && pending == map[]
      ensures stopEpoch == old(stopEpoch) + 1 && revision == old(revision) + 1
    {
      ghost var before := Now();
      state, revision, stopEpoch, pending := Revoked, revision + 1, stopEpoch + 1, map[];
      Record(RevokeOnAlarmFailure, before, Other(before, RevokeOnAlarmFailure));
    }
  }
}
