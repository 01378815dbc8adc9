/** What each call of the SSH worker does and answers, told by the tables that it finds; and which command an
  operation id belongs to, over any run.
*/
module SshAnswers {
  import opened Common
  import opened SshOperations
  import opened SshSafety
  import opened SshTheorems

  ghost predicate OnlyAnswers(s: Desk, t: Desk, w: nat, answer: Answer) {
    t == s.(workers := s.workers[w := Done(answer)])
  }

  // ---- the claim ----

  /** The receipts that a claim may delete: at most fifty, each completed or failed and thirty days old. */
  ghost predicate OldReceipts(s: Desk, purge: set<string>) {
    && |purge| <= 50
    && forall k :: k in purge ==>
         k in s.operations && s.operations[k].status in {Completed, Failed} &&
           s.clock >= s.operations[k].created + 2592000000
  }

  lemma PrunedBatchExact(s: Desk, purge: set<string>)
    ensures PrunedBatch(s.operations, s.clock, purge) <==> OldReceipts(s, purge)
  {
  }

  /** The row belongs to another command than the one that is asked for. */
  predicate Foreign(o: Operation, digest: string, call: Call) {
    o.digest != digest && (call.Command? ==> o.digest != call.legacy)
  }

  /** What a call finds in the row of its own operation. */
  function Found(o: Operation, call: Call, unresolved: bool): Answer {
    if !call.Command? && (unresolved || o.status in {Unknown, Admitted}) then UnknownOutcome
    else if o.result != None then Replied(o.result.value)
    else if o.status == Running then (if call.Change? then UnknownOutcome else Pending(Running))
    else if o.status in {Unknown, Admitted} then Pending(Unknown)
    else Pending(o.status)
  }

  /** A claim of an operation that has a row: a foreign command is refused, and nothing is dispatched. */
  lemma ClaimOfRow(s: Desk, w: nat, id: string, host: string, digest: string, call: Call, purge: set<string>,
                   fault: Fault)
    requires w !in s.workers && OldReceipts(s, purge) && !fault.ClaimFails? && id in s.operations && id !in purge
    ensures OnlyAnswers(s.(operations := s.operations - purge),
                        Apply(s, Execute(w, id, host, digest, call, purge, fault)), w,
                        if Foreign(s.operations[id], digest, call) then ReceiptConflict
                        else Found(s.operations[id], call, id in s.unresolved))
  {
    PrunedBatchExact(s, purge);
  }

  function Claimed(host: string, digest: string, now: int, status: Status): Operation {
    Operation(digest, host, status, None, now)
  }

  /** A claim of an operation without a row: refused at four leases or two of the host, and when its own lease was left
    behind; else it has row and lease, and is dispatched unless the row could not be marked. */
  lemma ClaimOfNone(s: Desk, w: nat, id: string, host: string, digest: string, call: Call, purge: set<string>,
                    fault: Fault)
    requires w !in s.workers && OldReceipts(s, purge) && !fault.ClaimFails? && (id !in s.operations || id in purge)
    ensures var t := Apply(s, Execute(w, id, host, digest, call, purge, fault)); var left := s.operations - purge;
            if |s.leases| >= 4 || |LeasesOn(s.leases, host)| >= 2
            then OnlyAnswers(s.(operations := left), t, w, CapacityReached)
            else if ForOperation(id) in s.leases then OnlyAnswers(s, t, w, StoreUnavailable)
            else if fault == NoFault then
              t == s.(operations := left[id := Claimed(host, digest, s.clock, Running)],
                      leases := s.leases[ForOperation(id) := host],
                      workers := s.workers[w := Dispatching(id, digest)],
                      dispatches := s.dispatches + [Dispatch(id, s.clock)])
            else
              var leases := s.leases[ForOperation(id) := host];
              t == s.(operations := left[id := Claimed(host, digest, s.clock, Admitted)],
                      leases := if fault.releaseFails then leases else leases - {ForOperation(id)},
                      workers := s.workers[w := Done(StoreUnavailable)])
  {
    PrunedBatchExact(s, purge);
  }

  lemma ClaimThrows(s: Desk, w: nat, id: string, host: string, digest: string, call: Call, purge: set<string>)
    requires w !in s.workers && OldReceipts(s, purge)
    ensures OnlyAnswers(s, Apply(s, Execute(w, id, host, digest, call, purge, ClaimFails)), w, StoreUnavailable)
  {
    PrunedBatchExact(s, purge);
  }

  // ---- behind the dispatch ----

  /** What is stored of an outcome, by how far the storing came. */
  ghost predicate Stores(s: Desk, t: Desk, id: string, reply: Reply, receipt: Receipt)
    requires id in s.operations
  {
    var o := s.operations[id];
    && t.operations == s.operations[id :=
         match receipt
         case Stored => o.(status := reply.status, result := Some(reply))
         case Uncertain => o.(status := Unknown, result := Some(Reply(Unknown, 0)))
         case StateOnly => o.(status := Unknown)
         case _ => o]
    && t.unresolved == (match receipt
                        case Noted => s.unresolved + {id}
                        case Uncertain => s.unresolved - {id}
                        case StateOnly => s.unresolved - {id}
                        case _ => s.unresolved)
  }

  function Freed(leases: map<LeaseId, string>, id: string, fails: bool): map<LeaseId, string> {
    if fails then leases else leases - {ForOperation(id)}
  }

  /** The end of a call that was dispatched: its receipt, its lease and its answer, and nothing else. */
  ghost predicate Ends(s: Desk, t: Desk, w: nat, id: string, reply: Reply, receipt: Receipt, releaseFails: bool)
    requires id in s.operations
  {
    && Stores(s, t, id, reply, receipt)
    && t == s.(operations := t.operations, unresolved := t.unresolved, leases := Freed(s.leases, id, releaseFails),
               workers := s.workers[w := Done(if receipt == Stored then Replied(reply) else UnknownOutcome)])
  }

  lemma StoreExact(s: Desk, id: string, reply: Reply, receipt: Receipt)
    requires id in s.operations
    ensures var t := Store(s, id, reply, receipt);
            Stores(s, t, id, reply, receipt) && t == s.(operations := t.operations, unresolved := t.unresolved)
  {
    assert s.operations[id := s.operations[id]] == s.operations;
  }

  lemma FinishExact(s: Desk, w: nat, reply: Reply, receipt: Receipt, releaseFails: bool)
    requires Inv(s) && w in s.workers && s.workers[w].Dispatching? && reply.status in {Completed, Failed, Unknown}
    ensures var id := s.workers[w].id;
            id in s.operations &&
              Ends(s, Apply(s, Finish(w, reply, receipt, releaseFails)), w, id, reply, receipt, releaseFails)
  {
    assert WorkerOk(s, s.workers[w]);
    StoreExact(s, s.workers[w].id, reply, receipt);
  }

  // ---- managed sessions ----

  /** The shell is open: receipt and session at once, and the lease stays. */
  lemma EstablishExact(s: Desk, w: nat, reply: Reply)
    requires Inv(s) && w in s.workers && s.workers[w].Dispatching? && reply.status == Completed
    requires s.clock < s.operations[s.workers[w].id].created + 2592000000
    ensures var id := s.workers[w].id;
            Apply(s, Establish(w, reply)) ==
            s.(operations := s.operations[id := s.operations[id].(status := Completed, result := Some(reply))],
               sessions := s.sessions + {id}, workers := s.workers[w := Scheduling(id, s.workers[w].digest)])
  {
    assert WorkerOk(s, s.workers[w]);
  }

  /** The alarm is set, or it is not: then the session ends like a call whose outcome is a failure. */
  lemma ScheduleExact(s: Desk, w: nat, done: Reply, failed: Reply, receipt: Receipt, releaseFails: bool)
    requires Inv(s) && w in s.workers && s.workers[w].Scheduling? && failed.status == Failed
    ensures var id := s.workers[w].id;
            && OnlyAnswers(s, Apply(s, Scheduled(w, done)), w, Replied(done))
            && id in s.operations
            && Ends(s.(sessions := s.sessions - {id}), Apply(s, ScheduleFails(w, failed, receipt, releaseFails)), w, id,
                    failed, receipt, releaseFails)
  {
    assert WorkerOk(s, s.workers[w]);
    StoreExact(s.(sessions := s.sessions - {s.workers[w].id}), s.workers[w].id, failed, receipt);
  }

  /** Only a start whose alarm is outstanding is answered so. */
  lemma NoAlarmOutstanding(s: Desk, w: nat, done: Reply)
    requires w in s.workers ==> !s.workers[w].Scheduling?
    ensures Apply(s, Scheduled(w, done)) == s
  {
  }

  /** Time passes at any pace, up to thirty days behind the claim of a start whose alarm is outstanding. */
  lemma TimePasses(s: Desk, ms: nat)
    requires forall w :: w in s.workers && s.workers[w].Scheduling? && s.workers[w].id in s.operations ==>
               s.clock + ms < s.operations[s.workers[w].id].created + 2592000000
    ensures Apply(s, Tick(ms)) == s.(clock := s.clock + ms)
  {
  }

  /** A lease that no call, reader or session holds may lapse. */
  lemma LeaseLapses(s: Desk, lease: LeaseId)
    requires forall w :: w in s.workers ==> !Holds(s.workers[w], lease)
    requires lease.ForOperation? ==> lease.id !in s.sessions
    ensures Apply(s, DropLease(lease)) == s.(leases := s.leases - {lease})
  {
  }

  lemma SettleExact(s: Desk, id: string, releaseFails: bool)
    ensures Apply(s, Settle(id, releaseFails)) ==
            if id in s.sessions then s.(sessions := s.sessions - {id}, leases := Freed(s.leases, id, releaseFails))
            else s
  {
  }

  // ---- readers, and the restart ----

  /** A reader takes a lease of its own, or is refused at four leases or two of the host. */
  lemma ReserveExact(s: Desk, w: nat, host: string)
    requires w !in s.workers
    ensures var t := Apply(s, Reserve(w, host)); var lease := ForRead(s.supply);
            if |s.leases| >= 4 || |LeasesOn(s.leases, host)| >= 2 then OnlyAnswers(s, t, w, CapacityReached)
            else
              t == s.(leases := s.leases[lease := host], supply := s.supply + 1,
                      workers := s.workers[w := Reading(lease)])
  {
  }

  /** At its end it gives back the lease it holds. */
  lemma EndReadExact(s: Desk, w: nat, lease: LeaseId, releaseFails: bool)
    requires w in s.workers && s.workers[w] == Reading(lease)
    ensures Apply(s, EndRead(w, releaseFails)) ==
            s.(leases := if releaseFails then s.leases else s.leases - {lease},
               workers := s.workers[w := Done(Replied(Reply(Completed, 0)))])
  {
  }

  lemma RestartExact(s: Desk)
    ensures var t := Apply(s, Restart);
            && t == s.(operations := t.operations, leases := map[], sessions := {}, unresolved := {}, workers := map[])
            && t.operations.Keys == s.operations.Keys
            && forall k :: k in s.operations ==>
                 t.operations[k] == if s.operations[k].status in {Admitted, Running}
                                    then s.operations[k].(status := Unknown, result := None) else s.operations[k]
  {
  }

  // ---- whose operation it is ----

  /** An operation id belongs to the command that claimed it: while its row is kept, whatever happened since, every
    other command, change or start under the id is refused, and nothing is dispatched for it; and the same one is
    never refused so. */
  lemma OtherCommandIsRefused(s: Desk, k: string, run: seq<Action>, w: nat, host: string, digest: string, call: Call,
                              purge: set<string>)
    requires Inv(s) && k in s.operations
    requires var t := Exec(s, run);
             k in t.operations && t.operations[k].created == s.operations[k].created && w !in t.workers &&
             OldReceipts(t, purge) && k !in purge
    ensures var t := Exec(s, run); var u := Apply(t, Execute(w, k, host, digest, call, purge, NoFault));
            && w in u.workers && u.dispatches == t.dispatches && u.leases == t.leases
            && (u.workers[w] == Done(ReceiptConflict) <==>
                  s.operations[k].digest != digest && (call.Command? ==> s.operations[k].digest != call.legacy))
  {
    RunOk(s, run);
    var t := Exec(s, run);
    assert RowKept(s, t, k);
    ClaimOfRow(t, w, k, host, digest, call, purge, NoFault);
  }
}
