/** Commands, changes by SFTP and managed sessions as they are written, over the tables they update in place.

  Which storage statements throw is a parameter. The ghost `log` records every step, and `Valid` says that the tables
  are what the state machine reaches by it; each function says which steps it adds, those of others in between.
*/
module SshDesk {
  import opened Common
  import opened SshOperations
  import opened SshSafety
  import opened SshTheorems

  datatype Opening = Opened | NotOpened | Observed

  /** Which statements throw: the claim, the mark, the store of the receipt and that of a failure behind a completed
    one, the whole of an unknown outcome and its state alone, the two deletions of the lease, and the alarm. */
  datatype Throws = Throws(claim: bool, mark: bool, store: bool, again: bool, whole: bool, state: bool,
                           first: bool, second: bool, alarm: bool)

  predicate Leaks(t: Throws) { t.first && t.second }

  /** What is stored of an outcome that is unknown. */
  function LeftOf(t: Throws): Receipt { if !t.whole then Uncertain else if !t.state then StateOnly else Noted }

  function StoredOr(fails: bool, t: Throws): Receipt { if fails then LeftOf(t) else Stored }

  datatype Admission = Existing(row: Operation) | Capacity | Granted | Threw

  /** What a claim comes to: the row of the id decides first, then capacity, then a lease that was left behind. */
  function AdmissionOf(rows: map<string, Operation>, leases: map<LeaseId, string>, id: string, host: string): Admission
  {
    if id in rows then Existing(rows[id])
    else if |leases| >= 4 || |LeasesOn(leases, host)| >= 2 then Capacity
    else if ForOperation(id) in leases then Threw
    else Granted
  }

  function FaultOf(s: Desk, purge: set<string>, id: string, host: string, t: Throws): Fault {
    if t.claim then ClaimFails
    else match AdmissionOf(s.operations - purge, s.leases, id, host)
         case Threw => ClaimFails
         case Granted => if t.mark then MarkFails(Leaks(t)) else NoFault
         case _ => NoFault
  }

  /** What a granted claim leaves, marked or not. */
  lemma GrantedTables(s: Desk, w: nat, id: string, host: string, digest: string, fault: Fault)
    requires !fault.ClaimFails?
    ensures var t := SshOperations.Granted(s, w, id, host, digest, fault);
            && t.operations ==
               s.operations[id := Operation(digest, host, if fault == NoFault then Running
                                            else Admitted, None, s.clock)]
            && t.leases == (if fault == MarkFails(false) then s.leases[ForOperation(id) := host] - {ForOperation(id)}
                            else s.leases[ForOperation(id) := host])
            && t.clock == s.clock && t.supply == s.supply && t.sessions == s.sessions && t.unresolved == s.unresolved
            && t.workers[w] == (if fault == NoFault then Dispatching(id, digest) else Done(StoreUnavailable))
            && t.dispatches == s.dispatches + (if fault == NoFault then [Dispatch(id, s.clock)] else [])
  {
  }

  /** The answer to a claim that is not granted. */
  function Refusal(admission: Admission, digest: string, call: Call, unresolved: bool): Answer {
    match admission
    case Existing(row) => AnswerExisting(row, digest, call, unresolved)
    case Capacity => CapacityReached
    case _ => StoreUnavailable
  }

  /** The digests that name the command of a call. */
  function Digests(digest: string, call: Call): set<string> {
    if call.Command? then {digest, call.legacy} else {digest}
  }

  lemma RefusalOfRow(admission: Admission, digest: string, call: Call, unresolved: bool)
    ensures var answer := Refusal(admission, digest, call, unresolved);
            && (answer.Replied? ==> admission.Existing? && admission.row.digest in Digests(digest, call))
            && (answer == ReceiptConflict ==> admission.Existing? && admission.row.digest !in Digests(digest, call))
  {
  }

  lemma GrantedStep(s: Desk, w: nat, id: string, host: string, digest: string, call: Call, purge: set<string>,
                    fault: Fault)
    requires !fault.ClaimFails? && id !in s.operations - purge && HasRoom(s.leases, host) &&
             ForOperation(id) !in s.leases
    ensures ExecuteStep(s, w, id, host, digest, call, purge, fault) ==
            SshOperations.Granted(s.(operations := s.operations - purge), w, id, host, digest, fault)
  {
  }

  lemma RefusedStep(s: Desk, w: nat, id: string, host: string, digest: string, call: Call, purge: set<string>,
                    admission: Admission)
    requires admission != Granted
    requires admission.Existing? ==> id in s.operations && id !in purge && admission.row == s.operations[id]
    requires admission == Capacity ==> id !in s.operations - purge && !HasRoom(s.leases, host)
    ensures ExecuteStep(s, w, id, host, digest, call, purge, if admission == Threw then ClaimFails else NoFault) ==
            Go(if admission == Threw then s else s.(operations := s.operations - purge), w,
               Done(Refusal(admission, digest, call, id in s.unresolved)))
  {
  }

  ghost predicate SameDigests(before: map<string, Operation>, after: map<string, Operation>) {
    forall k :: k in before ==> k in after && after[k].digest == before[k].digest
  }

  class SshDesk {
    var operations: map<string, Operation>
    var leases: map<LeaseId, string>
    var sessions: set<string>
    var unresolved: set<string>
    var clock: int
    var serial: nat
    ghost const start: int
    ghost var log: seq<Action>

    constructor (clock: int)
      ensures Valid() && operations == map[] && leases == map[]
    {
      operations, leases, sessions, unresolved := map[], map[], {}, {};
      this.clock, serial, start, log := clock, 0, clock, [];
    }

    ghost function Now(): Desk reads this { Exec(Empty(start), log) }

    ghost predicate Agrees(s: Desk) reads this {
      && s.operations == operations && s.leases == leases && s.sessions == sessions && s.unresolved == unresolved
      && s.clock == clock && s.supply == serial
    }

    ghost predicate Valid() reads this { Agrees(Now()) }

    ghost function Then(at: seq<Action>): Desk { Exec(Empty(start), at) }

    ghost predicate At(w: nat, pc: Pc) reads this { w in Now().workers && Now().workers[w] == pc }

    /** Everyone but caller `w` runs for a while. */
    method Await(ghost w: nat, ghost pc: Pc)
      requires Valid() && At(w, pc)
      modifies this
      ensures Valid() && At(w, pc) && old(log) <= log
    {
    }

    /** Records the step that the code has just taken on the tables. */
    ghost method Record(a: Action, before: Desk)
      requires before == Now() && Agrees(Apply(before, a))
      modifies this`log
      ensures Valid() && log == old(log) + [a] && Now() == Apply(before, a)
    {
      log := log + [a];
      assert log[..|log| - 1] == old(log);
    }

    // ---- the claim ----

    /** Pruning of one batch: row by row until none is left, or fifty are gone. */
    method Prune(now: int) returns (purge: set<string>)
      modifies this`operations
      ensures PrunedBatch(old(operations), now, purge) && operations == old(operations) - purge
      ensures |purge| == CLEANUP_BATCH || forall k :: k in operations ==> !Prunable(operations[k], now)
    {
      purge := {};
      var left := set k | k in operations && Prunable(operations[k], now);
      while left != {} && |purge| < CLEANUP_BATCH
        invariant purge !! left && |purge| <= CLEANUP_BATCH && PrunedBatch(old(operations), now, purge)
        invariant operations == old(operations) - purge
        invariant forall k :: k in operations && Prunable(operations[k], now) ==> k in left
        invariant forall k :: k in left ==> k in old(operations) && Prunable(old(operations)[k], now)
      {
        var k :| k in left;
        operations := operations - {k};
        purge, left := purge + {k}, left - {k};
      }
    }

    method CountOn(host: string) returns (count: nat)
      ensures count == |LeasesOn(leases, host)|
    {
      count := |set l | l in leases && leases[l] == host|;
    }

    /** The transaction of `claimOperation`: all of it, or nothing when a statement throws. */
    method ClaimOperation(id: string, host: string, digest: string, now: int, throws: bool)
      returns (admission: Admission, purge: set<string>)
      modifies this`operations, this`leases
      ensures PrunedBatch(old(operations), now, purge)
      ensures admission == if throws then Threw else AdmissionOf(old(operations) - purge, old(leases), id, host)
      ensures operations == if admission == Threw then old(operations)
                            else if admission == Granted
                            then (old(operations) - purge)[id := Operation(digest, host, Admitted, None, now)]
                            else old(operations) - purge
      ensures leases == if admission == Granted then old(leases)[ForOperation(id) := host] else old(leases)
    {
      var saved, held := operations, leases;
      admission, purge := TryClaim(id, host, digest, now);
      if throws || admission == Threw {
        admission := Threw;
        operations, leases := saved, held;
      }
    }

    /** Its statements; the lease of the operation may be there already. */
    method TryClaim(id: string, host: string, digest: string, now: int)
      returns (admission: Admission, purge: set<string>)
      modifies this`operations, this`leases
      ensures PrunedBatch(old(operations), now, purge)
      ensures admission == AdmissionOf(old(operations) - purge, old(leases), id, host)
      ensures admission == Granted ==>
                operations == (old(operations) - purge)[id := Operation(digest, host, Admitted, None, now)] &&
                leases == old(leases)[ForOperation(id) := host]
      ensures admission != Granted ==> operations == old(operations) - purge && leases == old(leases)
    {
      purge := Prune(now);
      if id in operations { return Existing(operations[id]), purge; }
      var perHost := CountOn(host);
      if |leases| >= TOTAL_LIMIT || perHost >= HOST_LIMIT { return Capacity, purge; }
      if ForOperation(id) in leases { return Threw, purge; }
      operations := operations[id := Operation(digest, host, Admitted, None, now)];
      leases := leases[ForOperation(id) := host];
      admission := Granted;
    }

    /** Two attempts at most; a lease whose deletion throws twice stays. */
    method ReleaseLease(lease: LeaseId, t: Throws) returns (released: bool)
      modifies this`leases
      ensures released == !Leaks(t) && leases == if released then old(leases) - {lease} else old(leases)
    {
      var attempt := 0;
      while attempt < 2
        invariant 0 <= attempt <= 2 && leases == old(leases)
        invariant (attempt > 0 ==> t.first) && (attempt > 1 ==> t.second)
      {
        if !(if attempt == 0 then t.first else t.second) {
          leases := leases - {lease};
          return true;
        }
        attempt := attempt + 1;
      }
      return false;
    }

    // ---- execute ----

    /** The row was claimed: mark it, or give its lease back. */
    method MarkRunning(id: string, t: Throws) returns (fault: Fault)
      requires id in operations
      modifies this`operations, this`leases
      ensures fault == if t.mark then MarkFails(Leaks(t)) else NoFault
      ensures operations == if fault == NoFault then old(operations)[id := old(operations)[id].(status := Running)]
              else old(operations)
      ensures leases == if fault == MarkFails(false) then old(leases) - {ForOperation(id)} else old(leases)
    {
      if t.mark {
        var released := ReleaseLease(ForOperation(id), t);
        return MarkFails(!released);
      }
      operations := operations[id := operations[id].(status := Running)];
      return NoFault;
    }

    /** A reply is that of a row of this command, and a conflict is one with a row of another. */
    predicate Belongs(answer: Answer, id: string, digests: set<string>) reads this {
      && (answer.Replied? ==> id in operations && operations[id].digest in digests)
      && (answer == ReceiptConflict ==> id in operations && operations[id].digest !in digests)
    }

    /** The tables are those of `t`, where the caller has its answer or dispatches. */
    ghost predicate Lands(s: Desk, t: Desk, w: nat, id: string, digest: string, call: Call, answer: Option<Answer>)
      reads this
    {
      && t.operations == operations && t.leases == leases && t.clock == s.clock && t.supply == s.supply
      && t.sessions == s.sessions && t.unresolved == s.unresolved && w in t.workers
      && t.workers[w] == (if answer.Some? then Done(answer.value) else Dispatching(id, digest))
      && t.dispatches == s.dispatches + (if answer.Some? then [] else [Dispatch(id, s.clock)])
      && (answer.Some? ==> Belongs(answer.value, id, Digests(digest, call)))
    }

    /** From the claim to the start of the dispatch, without an await: on the tables. */
    method ClaimTables(ghost s: Desk, ghost w: nat, id: string, host: string, digest: string, call: Call, now: int,
                       throws: Throws)
      returns (answer: Option<Answer>, purge: set<string>, ghost t: Desk)
      requires s.operations == operations && s.leases == leases && s.unresolved == unresolved && s.clock == now
      modifies this`operations, this`leases
      ensures PrunedBatch(s.operations, s.clock, purge) && Lands(s, t, w, id, digest, call, answer)
      ensures t == ExecuteStep(s, w, id, host, digest, call, purge, FaultOf(s, purge, id, host, throws))
    {
      var admission;
      admission, purge := ClaimOperation(id, host, digest, now, throws.claim);
      if admission == Granted { answer, t := MarkClaim(s, w, id, host, digest, call, purge, throws); }
      else { answer, t := RefuseClaim(s, w, id, host, digest, call, purge, admission, throws); }
    }

    method MarkClaim(ghost s: Desk, ghost w: nat, id: string, host: string, digest: string, ghost call: Call,
                     ghost purge: set<string>, throws: Throws)
      returns (answer: Option<Answer>, ghost t: Desk)
      requires AdmissionOf(s.operations - purge, s.leases, id, host) == Granted && !throws.claim
      requires operations == (s.operations - purge)[id := Operation(digest, host, Admitted, None, s.clock)]
      requires leases == s.leases[ForOperation(id) := host]
      modifies this`operations, this`leases
      ensures Lands(s, t, w, id, digest, call, answer)
      ensures t == ExecuteStep(s, w, id, host, digest, call, purge, FaultOf(s, purge, id, host, throws))
    {
      var fault := MarkRunning(id, throws);
      answer := if fault == NoFault then None else Some(StoreUnavailable);
      GrantedTables(s.(operations := s.operations - purge), w, id, host, digest, fault);
      GrantedStep(s, w, id, host, digest, call, purge, fault);
      t := SshOperations.Granted(s.(operations := s.operations - purge), w, id, host, digest, fault);
    }

    method RefuseClaim(ghost s: Desk, ghost w: nat, id: string, ghost host: string, digest: string, call: Call,
                       ghost purge: set<string>, admission: Admission, ghost throws: Throws)
      returns (answer: Option<Answer>, ghost t: Desk)
      requires admission == if throws.claim then Threw else AdmissionOf(s.operations - purge, s.leases, id, host)
      requires admission != Granted && s.leases == leases && s.unresolved == unresolved
      requires operations == if admission == Threw then s.operations else s.operations - purge
      ensures Lands(s, t, w, id, digest, call, answer)
      ensures t == ExecuteStep(s, w, id, host, digest, call, purge, FaultOf(s, purge, id, host, throws))
    {
      answer := Some(Refusal(admission, digest, call, id in unresolved));
      RefusalOfRow(admission, digest, call, id in unresolved);
      RefusedStep(s, w, id, host, digest, call, purge, admission);
      t := Go(if admission == Threw then s else s.(operations := s.operations - purge), w, Done(answer.value));
    }

    /** The step of the claim. */
    function ClaimOf(s: Desk, w: nat, id: string, host: string, digest: string, call: Call, purge: set<string>,
                     t: Throws): Action
    {
      Execute(w, id, host, digest, call, purge, FaultOf(s, purge, id, host, t))
    }

    /** The caller is dispatching afterwards, or has its answer. */
    method ClaimAndMark(ghost w: nat, id: string, host: string, digest: string, call: Call, t: Throws)
      returns (answer: Option<Answer>, ghost purge: set<string>)
      requires Valid() && w !in Now().workers
      modifies this
      ensures Valid() && PrunedBatch(old(operations), old(clock), purge)
      ensures log == old(log) + [ClaimOf(old(Now()), w, id, host, digest, call, purge, t)]
      ensures At(w, if answer.Some? then Done(answer.value) else Dispatching(id, digest))
      ensures Now().dispatches == old(Now().dispatches) + (if answer.Some? then [] else [Dispatch(id, clock)])
      ensures answer.Some? ==> Belongs(answer.value, id, Digests(digest, call))
    {
      ghost var before := Now();
      var pruned;
      ghost var after;
      answer, pruned, after := ClaimTables(before, w, id, host, digest, call, clock, t);
      purge := pruned;
      assert Apply(before, ClaimOf(before, w, id, host, digest, call, purge, t)) == after;
      Record(ClaimOf(before, w, id, host, digest, call, purge, t), before);
    }

    /** A call is its claim; and where that dispatches, behind the steps of others (`at`), its end. */
    ghost predicate Runs(from: seq<Action>, to: seq<Action>, claim: Action, at: seq<Action>, end: Action) {
      && claim.Execute? && claim.worker in Then(from + [claim]).workers
      && if Then(from + [claim]).workers[claim.worker].Done? then to == from + [claim]
         else from + [claim] <= at && to == at + [end]
    }

    /** `UPDATE operations SET status = ?, result_json = ?` */
    method UpdateRow(id: string, status: Status, result: Option<Reply>)
      modifies this`operations
      ensures operations == if id in old(operations)
                            then old(operations)[id := old(operations)[id].(status := status, result := result)]
                              else old(operations)
    {
      if id in operations { operations := operations[id := operations[id].(status := status, result := result)]; }
    }

    /** `persistUncertainOutcome`: the outcome is unknown; or the state alone; or it is noted in memory. */
    method PersistUncertain(ghost s: Desk, id: string, t: Throws) returns (receipt: Receipt)
      requires s.operations == operations && s.unresolved == unresolved
      modifies this`operations, this`unresolved
      ensures receipt == LeftOf(t) && SameDigests(old(operations), operations)
      ensures forall reply :: Store(s, id, reply, receipt) == s.(operations := operations, unresolved := unresolved)
    {
      if !t.whole {
        UpdateRow(id, Unknown, Some(Reply(Unknown, 0)));
        unresolved := unresolved - {id};
        return Uncertain;
      }
      if !t.state {
        UpdateRow(id, Unknown, if id in operations then operations[id].result else None);
        unresolved := unresolved - {id};
        return StateOnly;
      }
      unresolved := unresolved + {id};
      return Noted;
    }

    /** The receipt, or what can be stored instead. */
    method PersistReceipt(ghost s: Desk, id: string, reply: Reply, fails: bool, t: Throws) returns (receipt: Receipt)
      requires s.operations == operations && s.unresolved == unresolved
      modifies this`operations, this`unresolved
      ensures receipt == StoredOr(fails, t)
      ensures Store(s, id, reply, receipt) == s.(operations := operations, unresolved := unresolved)
      ensures SameDigests(old(operations), operations)
    {
      if fails { receipt := PersistUncertain(s, id, t); }
      else {
        UpdateRow(id, reply.status, Some(reply));
        receipt := Stored;
      }
    }

    /** A call that dispatches, or waits for its alarm, has the row of its command. */
    lemma OwnerHasRow(w: nat, id: string, digest: string)
      requires Valid() && (At(w, Dispatching(id, digest)) || At(w, Scheduling(id, digest)))
      ensures id in operations && operations[id].digest == digest
    {
      EmptyOk(start);
      RunOk(Empty(start), log);
      assert WorkerOk(Now(), Now().workers[w]);
    }

    /** The receipt of a command and the release, after the dispatch came back. */
    method StoreReceipt(ghost w: nat, id: string, ghost digest: string, reply: Reply, t: Throws)
      returns (answer: Answer)
      requires Valid() && At(w, Dispatching(id, digest)) && Reportable(reply.status)
      modifies this
      ensures Valid() && log == old(log) + [Finish(w, reply, if t.store then Lost else Stored, Leaks(t))]
      ensures At(w, Done(answer)) && answer == if t.store then UnknownOutcome else Replied(reply)
      ensures answer.Replied? ==> id in operations && operations[id].digest == digest
      ensures answer == Replied(reply) ==>
                id in operations && operations[id].status == reply.status && operations[id].result == Some(reply)
    {
      OwnerHasRow(w, id, digest);
      ghost var before := Now();
      if !t.store { UpdateRow(id, reply.status, Some(reply)); }
      answer := FinishCall(before, w, id, digest, reply, if t.store then Lost else Stored, t);
    }

    /** The exported function. While it dispatches, and whatever it answers, every dispatch of the operation
      is thirty days from every other. */
    method ExecuteOperation(ghost w: nat, id: string, host: string, digest: string, legacy: string, outcome: Reply,
                            t: Throws)
      returns (answer: Answer, ghost purge: set<string>, ghost at: seq<Action>)
      requires Valid() && w !in Now().workers && Reportable(outcome.status)
      modifies this
      ensures Valid() && At(w, Done(answer)) && Apart(Now().dispatches)
      ensures PrunedBatch(old(operations), old(clock), purge)
      ensures Runs(old(log), log, ClaimOf(old(Now()), w, id, host, digest, Command(legacy), purge, t), at,
                   Finish(w, outcome, if t.store then Lost else Stored, Leaks(t)))
      ensures answer.Replied? ==> id in operations && operations[id].digest in {digest, legacy}
      ensures answer == ReceiptConflict ==> id in operations && operations[id].digest !in {digest, legacy}
    {
      var early;
      early, purge := ClaimAndMark(w, id, host, digest, Command(legacy), t);
      at := log;
      if early.Some? { answer := early.value; }
      else {
        Await(w, Dispatching(id, digest));
        at := log;
        answer := StoreReceipt(w, id, digest, outcome, t);
      }
      DispatchesThirtyDaysApart(start, log);
    }

    /** `runMutatingSftp`: the same claim, and a receipt that is at least uncertain when it cannot be stored. */
    method ChangeBySftp(ghost w: nat, id: string, host: string, digest: string, outcome: Reply, t: Throws)
      returns (answer: Answer, ghost purge: set<string>, ghost at: seq<Action>)
      requires Valid() && w !in Now().workers && Reportable(outcome.status)
      modifies this
      ensures Valid() && At(w, Done(answer)) && Apart(Now().dispatches)
      ensures PrunedBatch(old(operations), old(clock), purge)
      ensures Runs(old(log), log, ClaimOf(old(Now()), w, id, host, digest, Change, purge, t), at,
                   Finish(w, outcome, StoredOr(t.store, t), Leaks(t)))
      ensures answer.Replied? ==> id in operations && operations[id].digest == digest
      ensures answer == ReceiptConflict ==> id in operations && operations[id].digest != digest
    {
      var early;
      early, purge := ClaimAndMark(w, id, host, digest, Change, t);
      at := log;
      if early.Some? { answer := early.value; }
      else {
        Await(w, Dispatching(id, digest));
        at := log;
        answer := StoreOutcome(w, id, digest, outcome, t);
      }
      DispatchesThirtyDaysApart(start, log);
    }

    /** The outcome of a change or of an opening that failed, or that it is unknown. */
    method StoreOutcome(ghost w: nat, id: string, ghost digest: string, reply: Reply, t: Throws)
      returns (answer: Answer)
      requires Valid() && At(w, Dispatching(id, digest)) && Reportable(reply.status)
      modifies this
      ensures Valid() && log == old(log) + [Finish(w, reply, StoredOr(t.store, t), Leaks(t))] && At(w, Done(answer))
      ensures answer == if t.store then UnknownOutcome else Replied(reply)
      ensures id in operations && operations[id].digest == digest
    {
      OwnerHasRow(w, id, digest);
      ghost var before := Now();
      var receipt := PersistReceipt(before, id, reply, t.store, t);
      answer := FinishCall(before, w, id, digest, reply, receipt, t);
    }

    /** What was stored of the outcome is stored: release the lease and answer. */
    method FinishCall(ghost before: Desk, ghost w: nat, id: string, ghost digest: string, reply: Reply,
                      receipt: Receipt, t: Throws)
      returns (answer: Answer)
      requires before == Now() && w in before.workers && before.workers[w] == Dispatching(id, digest) &&
               Reportable(reply.status)
      requires Agrees(Store(before, id, reply, receipt))
      modifies this
      ensures Valid() && log == old(log) + [Finish(w, reply, receipt, Leaks(t))] && At(w, Done(answer))
      ensures answer == if receipt == Stored then Replied(reply) else UnknownOutcome
      ensures operations == old(operations)
    {
      var released := ReleaseLease(ForOperation(id), t);
      answer := if receipt == Stored then Replied(reply) else UnknownOutcome;
      Record(Finish(w, reply, receipt, !released), before);
    }

    // ---- managed sessions ----

    /** What a start does once it dispatches, from `at` on: a failure that is known is stored; one that is not, or that
      of the session and its receipt, is unknown; else the session is live, and `late` its alarm is set or not. */
    ghost predicate Opens(at: seq<Action>, late: seq<Action>, to: seq<Action>, w: nat, id: string, opening: Opening,
                          reply: Reply, failed: Reply, t: Throws)
    {
      if opening == NotOpened then to == at + [Finish(w, failed, StoredOr(t.store, t), Leaks(t))]
      else if opening == Observed || t.store || !Young(Then(at), id, 0)
      then to == at + [Finish(w, failed, LeftOf(t), Leaks(t))]
      else at + [Establish(w, reply)] <= late && to == late + [Alarm(w, reply, failed, t)]
    }

    function Alarm(w: nat, reply: Reply, failed: Reply, t: Throws): Action {
      if t.alarm then ScheduleFails(w, failed, StoredOr(t.again, t), Leaks(t)) else Scheduled(w, reply)
    }

    /** `startSession`. `opening`: the shell is open; or it is not; or it may be. */
    method StartSession(ghost w: nat, id: string, host: string, digest: string, opening: Opening, reply: Reply,
                        failed: Reply, t: Throws)
      returns (answer: Answer, ghost purge: set<string>, ghost at: seq<Action>, ghost late: seq<Action>)
      requires Valid() && w !in Now().workers && reply.status == Completed && failed.status == Failed
      modifies this
      ensures Valid() && At(w, Done(answer)) && Apart(Now().dispatches)
      ensures PrunedBatch(old(operations), old(clock), purge)
      ensures var claimed := old(log) + [ClaimOf(old(Now()), w, id, host, digest, Start, purge, t)];
              w in Then(claimed).workers &&
              if Then(claimed).workers[w].Done? then log == claimed
              else claimed <= at && Opens(at, late, log, w, id, opening, reply, failed, t)
      ensures answer.Replied? ==> id in operations && operations[id].digest == digest
      ensures answer == ReceiptConflict ==> id in operations && operations[id].digest != digest
    {
      var early;
      early, purge := ClaimAndMark(w, id, host, digest, Start, t);
      at, late := log, log;
      if early.Some? { answer := early.value; }
      else {
        Await(w, Dispatching(id, digest));
        at := log;
        answer, late := Open(w, id, digest, opening, reply, failed, t);
      }
      DispatchesThirtyDaysApart(start, log);
    }

    method Open(ghost w: nat, id: string, ghost digest: string, opening: Opening, reply: Reply, failed: Reply,
                t: Throws)
      returns (answer: Answer, ghost late: seq<Action>)
      requires Valid() && At(w, Dispatching(id, digest)) && reply.status == Completed && failed.status == Failed
      modifies this
      ensures Valid() && At(w, Done(answer)) && answer != ReceiptConflict
      ensures Opens(old(log), late, log, w, id, opening, reply, failed, t)
      ensures answer.Replied? ==> id in operations && operations[id].digest == digest
    {
      late := log;
      if opening == Opened && Timely(id) && !t.store { answer, late := OpenSession(w, id, digest, reply, failed, t); }
      else if opening == NotOpened { answer := StoreOutcome(w, id, digest, failed, t); }
      else { answer := LeaveUncertain(w, id, digest, failed, t); }
    }

    /** The claim is younger than its retention, as it is when a shell opens within its timeouts. */
    predicate Timely(id: string) reads this { id in operations ==> clock < operations[id].created + RETENTION }

    /** The shell may be open, or what it came to cannot be stored. */
    method LeaveUncertain(ghost w: nat, id: string, ghost digest: string, ghost failed: Reply, t: Throws)
      returns (answer: Answer)
      requires Valid() && At(w, Dispatching(id, digest)) && failed.status == Failed
      modifies this
      ensures Valid() && log == old(log) + [Finish(w, failed, LeftOf(t), Leaks(t))]
      ensures At(w, Done(answer)) && answer == UnknownOutcome
    {
      ghost var before := Now();
      var receipt := PersistUncertain(before, id, t);
      var released := ReleaseLease(ForOperation(id), t);
      answer := UnknownOutcome;
      Record(Finish(w, failed, receipt, !released), before);
    }

    /** The shell is open: session and receipt in one transaction, and then the alarm. */
    method OpenSession(ghost w: nat, id: string, ghost digest: string, reply: Reply, failed: Reply, t: Throws)
      returns (answer: Answer, ghost late: seq<Action>)
      requires Valid() && At(w, Dispatching(id, digest)) && reply.status == Completed && failed.status == Failed &&
               Timely(id)
      modifies this
      ensures Valid() && At(w, Done(answer))
      ensures old(log) + [Establish(w, reply)] <= late && log == late + [Alarm(w, reply, failed, t)]
      ensures answer == if !t.alarm then Replied(reply) else if t.again then UnknownOutcome else Replied(failed)
      ensures answer.Replied? ==> id in operations && operations[id].digest == digest
    {
      ghost var before := Now();
      UpdateRow(id, Completed, Some(reply));
      sessions := sessions + {id};
      Record(Establish(w, reply), before);
      Await(w, Scheduling(id, digest));
      late := log;
      if t.alarm { answer := AbandonSession(w, id, digest, failed, t); }
      else {
        answer := Replied(reply);
        OwnerHasRow(w, id, digest);
        Record(Scheduled(w, reply), Now());
      }
    }

    /** The alarm could not be set: the shell is closed, and the completed receipt is overwritten. */
    method AbandonSession(ghost w: nat, id: string, ghost digest: string, failed: Reply, t: Throws)
      returns (answer: Answer)
      requires Valid() && At(w, Scheduling(id, digest)) && failed.status == Failed
      modifies this
      ensures Valid() && log == old(log) + [ScheduleFails(w, failed, StoredOr(t.again, t), Leaks(t))]
      ensures At(w, Done(answer)) && id !in sessions
      ensures answer == if t.again then UnknownOutcome else Replied(failed)
      ensures answer.Replied? ==> id in operations && operations[id].digest == digest
    {
      OwnerHasRow(w, id, digest);
      ghost var before := Now();
      sessions := sessions - {id};
      var receipt := PersistReceipt(before.(sessions := sessions), id, failed, t.again, t);
      var released := ReleaseLease(ForOperation(id), t);
      answer := if receipt == Stored then Replied(failed) else UnknownOutcome;
      Record(ScheduleFails(w, failed, receipt, !released), before);
    }

    /** `finishSession`: the connection ends, and with two attempts at most the lease goes. */
    method FinishSession(id: string, t: Throws) returns (released: bool)
      requires Valid() && id in sessions
      modifies this
      ensures Valid() && log == old(log) + [Settle(id, Leaks(t))] && operations == old(operations)
      ensures sessions == old(sessions) - {id} && released == !Leaks(t)
      ensures leases == if released then old(leases) - {ForOperation(id)} else old(leases)
    {
      ghost var before := Now();
      sessions := sessions - {id};
      released := ReleaseLease(ForOperation(id), t);
      Record(Settle(id, !released), before);
    }

    // ---- read-only connections ----

    method ReserveConnection(ghost w: nat, host: string) returns (lease: Option<LeaseId>)
      requires Valid() && w !in Now().workers
      modifies this
      ensures Valid() && log == old(log) + [Reserve(w, host)]
      ensures lease.Some? <==> |old(leases)| < 4 && |LeasesOn(old(leases), host)| < 2
      ensures lease.Some? ==>
                lease.value !in old(leases) && leases == old(leases)[lease.value := host] && At(w, Reading(lease.value))
      ensures lease == None ==> leases == old(leases)
      ensures |leases| <= 4 && |LeasesOn(leases, host)| <= 2
    {
      ReadLeasesAreOld();
      ghost var before := Now();
      var perHost := CountOn(host);
      if |leases| >= TOTAL_LIMIT || perHost >= HOST_LIMIT { lease := None; }
      else {
        lease := Some(ForRead(serial));
        leases := leases[ForRead(serial) := host];
        serial := serial + 1;
      }
      Record(Reserve(w, host), before);
      ConnectionsAreBounded(start, log, host);
    }

    lemma ReadLeasesAreOld()
      requires Valid()
      ensures ForRead(serial) !in leases
    {
      EmptyOk(start);
      RunOk(Empty(start), log);
    }

    /** The end of a read-only connection: its own lease goes, unless both attempts fail. */
    method EndConnection(ghost w: nat, lease: LeaseId, t: Throws)
      requires Valid() && At(w, Reading(lease))
      modifies this
      ensures Valid() && log == old(log) + [EndRead(w, Leaks(t))] && operations == old(operations)
      ensures leases == if Leaks(t) then old(leases) else old(leases) - {lease}
      ensures At(w, Done(Replied(Reply(Completed, 0))))
    {
      ghost var before := Now();
      var released := ReleaseLease(lease, t);
      Record(EndRead(w, !released), before);
    }

    // ---- restart ----

    /** The statements of the constructor, over the tables that an earlier object left behind. */
    method Recover()
      requires Valid()
      modifies this
      ensures Valid() && log == old(log) + [Restart] && leases == map[] && operations.Keys == old(operations).Keys
      ensures forall k :: k in operations ==> operations[k].status != Admitted && operations[k].status != Running
    {
      ghost var before := Now();
      operations := map k | k in operations :: Recovered(operations[k]);
      leases, sessions, unresolved := map[], {}, {};
      Record(Restart, before);
    }
  }
}
