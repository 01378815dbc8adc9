/** What every run of the SSH worker keeps. */
module SshSafety {
  import opened Common
  import opened SshOperations

  // ---- invariant ----

  ghost predicate LeasesOk(leases: map<LeaseId, string>) {
    |leases| <= TOTAL_LIMIT && forall h :: |LeasesOn(leases, h)| <= HOST_LIMIT
  }

  /** A dispatch is that of the stored row, or thirty days older than it; without a row it is thirty days old. */
  ghost predicate DispatchOk(s: Desk, d: Dispatch) {
    if d.id in s.operations
    then d.time == s.operations[d.id].created || d.time + RETENTION <= s.operations[d.id].created
    else d.time + RETENTION <= s.clock
  }

  ghost predicate Apart(dispatches: seq<Dispatch>) {
    forall i, j :: 0 <= i < j < |dispatches| && dispatches[i].id == dispatches[j].id ==>
      dispatches[i].time + RETENTION <= dispatches[j].time
  }

  ghost predicate OperationOk(s: Desk, k: string, o: Operation) {
    && o.created <= s.clock
    && (o.status in {Running, Completed, Failed} ==> Dispatch(k, o.created) in s.dispatches)
    && (o.result.Some? ==>
          (o.status == Unknown || o.result.value.status == o.status) && Dispatch(k, o.created) in s.dispatches)
    && (o.result == None ==> o.status in {Admitted, Running, Unknown})
  }

  ghost predicate WorkerOk(s: Desk, pc: Pc) {
    match pc
    case Dispatching(id, digest) =>
      id in s.operations && s.operations[id].status == Running && s.operations[id].digest == digest &&
        ForOperation(id) in s.leases &&
                            s.leases[ForOperation(id)] == s.operations[id].host
    case Scheduling(id, digest) =>
      id in s.operations && s.operations[id].status == Completed && s.operations[id].digest == digest && Young(s, id, 0)
    case Reading(lease) => lease in s.leases && lease.ForRead? && lease.serial < s.supply
    case Done(_) => true
  }

  /** A session holds the lease of its operation, and alone. */
  ghost predicate SessionsOk(sessions: set<string>, leases: map<LeaseId, string>, workers: map<nat, Pc>) {
    forall id :: id in sessions ==>
      ForOperation(id) in leases && forall w :: w in workers ==> !Holds(workers[w], ForOperation(id))
  }

  ghost predicate Inv(s: Desk) {
    && LeasesOk(s.leases)
    && (forall l :: l in s.leases && l.ForRead? ==> l.serial < s.supply)
    && (forall i :: 0 <= i < |s.dispatches| ==> DispatchOk(s, s.dispatches[i]))
    && Apart(s.dispatches)
    && (forall k :: k in s.operations ==> OperationOk(s, k, s.operations[k]))
    && (forall w :: w in s.workers ==> WorkerOk(s, s.workers[w]))
    && (forall v, w :: v in s.workers && w in s.workers && !s.workers[v].Done? && s.workers[v] == s.workers[w] ==>
          v == w)
    && SessionsOk(s.sessions, s.leases, s.workers)
  }

  // ---- what a later state keeps ----

  /** The start of a session that is stored, and whose alarm is not set. */
  ghost predicate Unsettled(s: Desk, k: string) { exists w :: w in s.workers && SchedulingOf(s.workers[w], k) }

  predicate SchedulingOf(pc: Pc, id: string) { pc.Scheduling? && pc.id == id }

  /** A terminal row that no call can write any more. */
  ghost predicate Final(s: Desk, k: string) {
    k in s.operations && s.operations[k].status in {Completed, Failed, Unknown} && !Unsettled(s, k)
  }

  /** A row goes on: `final` ones stay as they are. */
  predicate Goes(o: Operation, t: Operation, final: bool) {
    && t.digest == o.digest && t.host == o.host && t.created == o.created
    && (final || o.status in {Failed, Unknown} ==> t == o)
    && (o.status == Completed ==> t.status in {Completed, Failed, Unknown})
    && (o.status == Admitted ==> t.status in {Admitted, Unknown})
    && (o.status == Running ==> t.status != Admitted)
  }

  /** The row went on, or was pruned after thirty days, as one without an outcome never is. */
  ghost predicate RowKept(s: Desk, t: Desk, k: string)
    requires k in s.operations
  {
    var o := s.operations[k];
    if k in t.operations && t.operations[k].created == o.created
    then Goes(o, t.operations[k], Final(s, k)) && (Final(s, k) ==> FinalKept(s, t, k))
    else o.status !in {Admitted, Unknown} && o.created + RETENTION <= CreatedOr(t, k)
  }

  ghost predicate FinalKept(s: Desk, t: Desk, k: string) { Final(t, k) && (k in t.unresolved ==> k in s.unresolved) }

  /** When the row was claimed, or that it is gone by now. */
  function CreatedOr(t: Desk, k: string): int { if k in t.operations then t.operations[k].created else t.clock }

  ghost predicate NewDispatchOk(s: Desk, d: Dispatch) {
    s.clock <= d.time &&
    (d.id in s.operations ==>
       s.operations[d.id].status !in {Admitted, Unknown} && s.operations[d.id].created + RETENTION <= d.time)
  }

  ghost predicate Evolves(s: Desk, t: Desk) {
    && s.clock <= t.clock && s.dispatches <= t.dispatches
    && (forall k :: k in s.operations ==> RowKept(s, t, k))
    && (forall k :: k in t.operations && k !in s.operations ==> s.clock <= t.operations[k].created)
    && (forall i :: |s.dispatches| <= i < |t.dispatches| ==> NewDispatchOk(s, t.dispatches[i]))
  }

  lemma RowKeptTransitive(s: Desk, m: Desk, t: Desk, k: string)
    requires k in s.operations && RowKept(s, m, k) && s.clock <= m.clock <= t.clock
    requires k in m.operations ==> RowKept(m, t, k)
    requires k in t.operations && k !in m.operations ==> m.clock <= t.operations[k].created
    ensures RowKept(s, t, k)
  {
  }

  lemma EvolvesTransitive(s: Desk, m: Desk, t: Desk)
    requires Evolves(s, m) && Evolves(m, t)
    ensures Evolves(s, t)
  {
    forall k | k in s.operations ensures RowKept(s, t, k) {
      RowKeptTransitive(s, m, t, k);
    }
    forall i | |s.dispatches| <= i < |t.dispatches| ensures NewDispatchOk(s, t.dispatches[i]) {
      var d := t.dispatches[i];
      if i < |m.dispatches| { assert m.dispatches[i] == d; }
      else {
        assert NewDispatchOk(m, d);
        if d.id in s.operations { assert RowKept(s, m, d.id); }
      }
    }
  }

  // ---- leases ----

  lemma {:induction false} Smaller<T>(a: set<T>, b: set<T>)
    requires a <= b
    ensures |a| <= |b|
  {
    if a != {} {
      var x :| x in a;
      Smaller(a - {x}, b - {x});
    }
  }

  lemma LeasesOnGranted(leases: map<LeaseId, string>, lease: LeaseId, host: string, h: string)
    requires lease !in leases
    ensures |LeasesOn(leases[lease := host], h)| == |LeasesOn(leases, h)| + if h == host then 1 else 0
  {
    var before, after := LeasesOn(leases, h), LeasesOn(leases[lease := host], h);
    assert lease !in before;
    forall l ensures l in after <==> l in before || (l == lease && h == host) {}
    assert after == before + if h == host then {lease} else {};
  }

  lemma LeaseGranted(leases: map<LeaseId, string>, lease: LeaseId, host: string)
    requires LeasesOk(leases) && lease !in leases && HasRoom(leases, host)
    ensures LeasesOk(leases[lease := host])
  {
    var t := leases[lease := host];
    assert t.Keys == leases.Keys + {lease};
    forall h ensures |LeasesOn(t, h)| <= HOST_LIMIT { LeasesOnGranted(leases, lease, host, h); }
  }

  lemma LeaseReleased(leases: map<LeaseId, string>, lease: LeaseId)
    requires LeasesOk(leases)
    ensures LeasesOk(leases - {lease})
  {
    var t := leases - {lease};
    Smaller(t.Keys, leases.Keys);
    forall h ensures |LeasesOn(t, h)| <= HOST_LIMIT { Smaller(LeasesOn(t, h), LeasesOn(leases, h)); }
  }

  // ---- parts of steps ----

  /** What does not touch rows and dispatches keeps their part of the invariant. */
  lemma RowsAlone(s: Desk, t: Desk)
    requires Inv(s) && t.operations == s.operations && t.dispatches == s.dispatches && s.clock <= t.clock
    ensures forall i :: 0 <= i < |t.dispatches| ==> DispatchOk(t, t.dispatches[i])
    ensures forall k :: k in t.operations ==> OperationOk(t, k, t.operations[k])
  {
    forall i | 0 <= i < |t.dispatches| ensures DispatchOk(t, t.dispatches[i]) { assert DispatchOk(s, s.dispatches[i]); }
    forall k | k in t.operations ensures OperationOk(t, k, t.operations[k]) {
      assert OperationOk(s, k, s.operations[k]);
    }
  }

  /** Rows that stay are kept, as long as no start becomes unsettled, and no outcome unresolved. */
  lemma RowsStay(s: Desk, t: Desk)
    requires t.operations == s.operations && t.dispatches == s.dispatches && s.clock <= t.clock
    requires forall w :: w in t.workers && t.workers[w].Scheduling? ==> w in s.workers && s.workers[w] == t.workers[w]
    requires t.unresolved <= s.unresolved
    ensures Evolves(s, t)
  {
    forall k | k in s.operations ensures RowKept(s, t, k) { SettledStays(s, t, k); }
  }

  lemma SettledStays(s: Desk, t: Desk, k: string)
    requires forall w :: w in t.workers && SchedulingOf(t.workers[w], k) ==>
               w in s.workers && s.workers[w] == t.workers[w]
    ensures Unsettled(t, k) ==> Unsettled(s, k)
  {
  }

  lemma MoveKeeps(s: Desk, w: nat, answer: Answer)
    requires Inv(s)
    ensures Inv(Go(s, w, Done(answer))) && Evolves(s, Go(s, w, Done(answer)))
  {
    var t := Go(s, w, Done(answer));
    RowsAlone(s, t);
    RowsStay(s, t);
    forall v | v in t.workers ensures WorkerOk(t, t.workers[v]) {
      if v != w { assert WorkerOk(s, s.workers[v]); }
    }
  }

  lemma ReleasedKeeps(s: Desk, lease: LeaseId)
    requires Inv(s) && Unheld(s, lease)
    ensures Inv(s.(leases := s.leases - {lease}))
  {
    var t := s.(leases := s.leases - {lease});
    LeaseReleased(s.leases, lease);
    RowsAlone(s, t);
    forall v | v in t.workers ensures WorkerOk(t, t.workers[v]) { assert WorkerOk(s, s.workers[v]); }
  }

  /** A lease that nobody uses any more goes. */
  lemma ReleaseKeeps(s: Desk, lease: LeaseId, fails: bool)
    requires Inv(s) && Unheld(s, lease)
    ensures Inv(Release(s, lease, fails)) && Evolves(s, Release(s, lease, fails))
  {
    RowsStay(s, Release(s, lease, fails));
    if !fails { ReleasedKeeps(s, lease); }
  }

  lemma PrunedDispatchOk(s: Desk, purge: set<string>, d: Dispatch)
    requires DispatchOk(s, d) && PrunedBatch(s.operations, s.clock, purge)
    ensures DispatchOk(s.(operations := s.operations - purge), d)
  {
  }

  lemma PrunedRowKept(s: Desk, purge: set<string>, k: string)
    requires k in s.operations && PrunedBatch(s.operations, s.clock, purge)
    ensures RowKept(s, s.(operations := s.operations - purge), k)
    ensures k in purge ==> s.operations[k].status in {Completed, Failed} && !Young(s, k, 0)
  {
    SettledStays(s, s.(operations := s.operations - purge), k);
  }

  lemma PruneKeeps(s: Desk, purge: set<string>)
    requires Inv(s) && PrunedBatch(s.operations, s.clock, purge)
    ensures var t := s.(operations := s.operations - purge); Inv(t) && Evolves(s, t)
  {
    var t := s.(operations := s.operations - purge);
    forall i | 0 <= i < |t.dispatches| ensures DispatchOk(t, t.dispatches[i]) {
      PrunedDispatchOk(s, purge, s.dispatches[i]);
    }
    forall k | k in t.operations ensures OperationOk(t, k, t.operations[k]) {
      assert OperationOk(s, k, s.operations[k]);
    }
    forall k | k in s.operations
      ensures RowKept(s, t, k) && (k in purge ==> s.operations[k].status in {Completed, Failed} && !Young(s, k, 0))
    { PrunedRowKept(s, purge, k); }
    forall v | v in t.workers ensures WorkerOk(t, t.workers[v]) { assert WorkerOk(s, s.workers[v]); }
  }

  /** The caller that dispatched the operation, or waits for its alarm. */
  predicate Owns(pc: Pc, id: string) { (pc.Dispatching? || pc.Scheduling?) && pc.id == id }

  /** A row as its owner may leave it. */
  predicate Closes(o: Operation, t: Operation) {
    && t.digest == o.digest && t.host == o.host && t.created == o.created && t.status in {Completed, Failed, Unknown}
    && (t.result.Some? ==> t.status == Unknown || t.result.value.status == t.status)
    && (t.result == None ==> t.status == Unknown)
  }

  /** The owner writes the row of its operation, or does not, and goes on to `pc`. */
  function Closed(s: Desk, w: nat, id: string, row: Operation, unresolved: set<string>, pc: Pc): Desk {
    Go(s, w, pc).(operations := s.operations[id := row], unresolved := unresolved)
  }

  lemma OwnerIsAlone(s: Desk, w: nat, id: string)
    requires Inv(s) && w in s.workers && Owns(s.workers[w], id)
    ensures id in s.operations && forall v :: v in s.workers && v != w ==> !Owns(s.workers[v], id)
    ensures s.operations[id].status == if s.workers[w].Dispatching? then Running else Completed
  {
    assert WorkerOk(s, s.workers[w]);
    forall v | v in s.workers && v != w ensures !Owns(s.workers[v], id) { assert WorkerOk(s, s.workers[v]); }
  }

  lemma CloseRows(s: Desk, w: nat, id: string, row: Operation, unresolved: set<string>, pc: Pc)
    requires Inv(s) && id in s.operations && s.operations[id].status in {Running, Completed}
    requires row == s.operations[id] || Closes(s.operations[id], row)
    ensures var t := Closed(s, w, id, row, unresolved, pc);
            && (forall i :: 0 <= i < |t.dispatches| ==> DispatchOk(t, t.dispatches[i]))
            && (forall k :: k in t.operations ==> OperationOk(t, k, t.operations[k]))
  {
    var t := Closed(s, w, id, row, unresolved, pc);
    forall i | 0 <= i < |t.dispatches| ensures DispatchOk(t, t.dispatches[i]) { assert DispatchOk(s, s.dispatches[i]); }
    forall k | k in t.operations ensures OperationOk(t, k, t.operations[k]) {
      assert OperationOk(s, id, s.operations[id]);
      if k != id { assert OperationOk(s, k, s.operations[k]); }
    }
  }

  lemma CloseEvolves(s: Desk, w: nat, id: string, row: Operation, unresolved: set<string>, pc: Pc)
    requires Inv(s) && w in s.workers && Owns(s.workers[w], id) &&
             (pc.Done? || (pc == Scheduling(id, row.digest) && s.workers[w].Dispatching?))
    requires id in s.operations && (row == s.operations[id] || Closes(s.operations[id], row))
    requires unresolved <= s.unresolved + {id}
    ensures Evolves(s, Closed(s, w, id, row, unresolved, pc))
  {
    var t := Closed(s, w, id, row, unresolved, pc);
    OwnerIsAlone(s, w, id);
    forall k | k in s.operations ensures RowKept(s, t, k) {
      if k != id { SettledStays(s, t, k); }
      else { assert !Final(s, k) by { if SchedulingOf(s.workers[w], k) { assert Unsettled(s, k); } } }
    }
  }

  /** The outcome is stored, or not, and the owner is done. */
  lemma CloseKeeps(s: Desk, w: nat, id: string, row: Operation, unresolved: set<string>, answer: Answer)
    requires Inv(s) && w in s.workers && Owns(s.workers[w], id)
    requires id in s.operations && (row == s.operations[id] || Closes(s.operations[id], row))
    requires unresolved <= s.unresolved + {id}
    ensures var t := Closed(s, w, id, row, unresolved, Done(answer)); Inv(t) && Evolves(s, t)
  {
    var t := Closed(s, w, id, row, unresolved, Done(answer));
    OwnerIsAlone(s, w, id);
    CloseRows(s, w, id, row, unresolved, Done(answer));
    CloseEvolves(s, w, id, row, unresolved, Done(answer));
    forall v | v in t.workers ensures WorkerOk(t, t.workers[v]) {
      if v != w { assert WorkerOk(s, s.workers[v]); }
    }
  }

  /** The session's connection is over; its lease stays for the moment. */
  lemma SessionEnds(s: Desk, id: string)
    requires Inv(s)
    ensures var t := s.(sessions := s.sessions - {id}); Inv(t) && Evolves(s, t)
  {
    var t := s.(sessions := s.sessions - {id});
    RowsAlone(s, t);
    RowsStay(s, t);
    forall v | v in t.workers ensures WorkerOk(t, t.workers[v]) { assert WorkerOk(s, s.workers[v]); }
  }

  // ---- steps ----

  lemma TickKeeps(s: Desk, ms: nat)
    requires Inv(s)
    ensures Inv(Apply(s, Tick(ms))) && Evolves(s, Apply(s, Tick(ms)))
  {
    var t := Apply(s, Tick(ms));
    RowsAlone(s, t);
    RowsStay(s, t);
    forall v | v in t.workers ensures WorkerOk(t, t.workers[v]) { assert WorkerOk(s, s.workers[v]); }
  }

  lemma RestartKeeps(s: Desk)
    requires Inv(s)
    ensures Inv(Apply(s, Restart)) && Evolves(s, Apply(s, Restart))
  {
    var t := Apply(s, Restart);
    forall h ensures LeasesOn(t.leases, h) == {} {}
    forall i | 0 <= i < |t.dispatches| ensures DispatchOk(t, t.dispatches[i]) { assert DispatchOk(s, s.dispatches[i]); }
    forall k | k in t.operations ensures OperationOk(t, k, t.operations[k]) && RowKept(s, t, k) {
      assert OperationOk(s, k, s.operations[k]);
      SettledStays(s, t, k);
    }
  }

  lemma ReservedKeeps(s: Desk, w: nat, host: string)
    requires Inv(s) && w !in s.workers && HasRoom(s.leases, host)
    ensures Inv(Apply(s, Reserve(w, host)))
  {
    var t := Go(s.(leases := s.leases[ForRead(s.supply) := host], supply := s.supply + 1), w,
                Reading(ForRead(s.supply)));
    LeaseGranted(s.leases, ForRead(s.supply), host);
    RowsAlone(s, t);
    forall v | v in t.workers ensures WorkerOk(t, t.workers[v]) && (v != w ==> t.workers[v] != t.workers[w]) {
      if v != w { assert WorkerOk(s, s.workers[v]); }
    }
  }

  lemma ReserveKeeps(s: Desk, w: nat, host: string)
    requires Inv(s)
    ensures Inv(Apply(s, Reserve(w, host))) && Evolves(s, Apply(s, Reserve(w, host)))
  {
    RowsStay(s, Apply(s, Reserve(w, host)));
    if w in s.workers {}
    else if !HasRoom(s.leases, host) { MoveKeeps(s, w, CapacityReached); }
    else { ReservedKeeps(s, w, host); }
  }

  lemma EndReadKeeps(s: Desk, w: nat, releaseFails: bool)
    requires Inv(s)
    ensures Inv(Apply(s, EndRead(w, releaseFails))) && Evolves(s, Apply(s, EndRead(w, releaseFails)))
  {
    if w in s.workers && s.workers[w].Reading? {
      var answer := Replied(Reply(Completed, 0));
      MoveKeeps(s, w, answer);
      assert WorkerOk(s, s.workers[w]);
      ReleaseKeeps(Go(s, w, Done(answer)), s.workers[w].lease, releaseFails);
      EvolvesTransitive(s, Go(s, w, Done(answer)), Apply(s, EndRead(w, releaseFails)));
    }
  }

  /** What any of the receipts makes of the row. */
  lemma StoreCloses(s: Desk, id: string, reply: Reply, receipt: Receipt)
    requires id in s.operations && Reportable(reply.status) && OperationOk(s, id, s.operations[id])
    ensures var t := Store(s, id, reply, receipt);
            && id in t.operations &&
               t == s.(operations := s.operations[id := t.operations[id]], unresolved := t.unresolved)
            && t.unresolved <= s.unresolved + {id}
            && (t.operations[id] == s.operations[id] || Closes(s.operations[id], t.operations[id]))
  {
    assert s.operations == s.operations[id := s.operations[id]];
  }

  /** The owner stores what it can of the outcome, and is done. */
  lemma StoreKeeps(s: Desk, w: nat, id: string, reply: Reply, receipt: Receipt, answer: Answer)
    requires Inv(s) && w in s.workers && Owns(s.workers[w], id) && id !in s.sessions && Reportable(reply.status)
    ensures var t := Go(Store(s, id, reply, receipt), w, Done(answer));
            Inv(t) && Evolves(s, t) && Unheld(t, ForOperation(id))
  {
    OwnerIsAlone(s, w, id);
    assert OperationOk(s, id, s.operations[id]);
    StoreCloses(s, id, reply, receipt);
    var n := Store(s, id, reply, receipt);
    CloseKeeps(s, w, id, n.operations[id], n.unresolved, answer);
    assert Closed(s, w, id, n.operations[id], n.unresolved, Done(answer)) == Go(n, w, Done(answer));
  }

  /** The lease that nobody holds any more goes. */
  lemma FinishKeeps(s: Desk, w: nat, id: string, reply: Reply, receipt: Receipt, releaseFails: bool)
    requires Inv(s) && w in s.workers && Owns(s.workers[w], id) && id !in s.sessions && Reportable(reply.status)
    ensures var t := FinishStep(s, w, id, reply, receipt, releaseFails); Inv(t) && Evolves(s, t)
  {
    var answer := if receipt == Stored then Replied(reply) else UnknownOutcome;
    var n := Store(s, id, reply, receipt);
    var m := Go(n, w, Done(answer));
    StoreKeeps(s, w, id, reply, receipt, answer);
    ReleaseKeeps(m, ForOperation(id), releaseFails);
    EvolvesTransitive(s, m, Release(m, ForOperation(id), releaseFails));
    ReleaseCommutes(n, w, id, Done(answer), releaseFails);
  }

  lemma ReleaseCommutes(s: Desk, w: nat, id: string, pc: Pc, fails: bool)
    ensures Go(Release(s, ForOperation(id), fails), w, pc) == Release(Go(s, w, pc), ForOperation(id), fails)
  {
  }

  lemma ScheduleFailsKeeps(s: Desk, w: nat, id: string, reply: Reply, receipt: Receipt, releaseFails: bool)
    requires Inv(s) && w in s.workers && SchedulingOf(s.workers[w], id) && reply.status == Failed
    ensures var t := ScheduleFailsStep(s, w, id, reply, receipt, releaseFails); Inv(t) && Evolves(s, t)
  {
    var m := s.(sessions := s.sessions - {id});
    SessionEnds(s, id);
    FinishKeeps(m, w, id, reply, receipt, releaseFails);
    EvolvesTransitive(s, m, FinishStep(m, w, id, reply, receipt, releaseFails));
  }

  /** The caller's lease becomes the session's. */
  lemma EstablishKeeps(s: Desk, w: nat, id: string, digest: string, reply: Reply)
    requires Inv(s) && w in s.workers && s.workers[w] == Dispatching(id, digest) && reply.status == Completed &&
             Young(s, id, 0)
    ensures var t := EstablishStep(s, w, id, digest, reply); Inv(t) && Evolves(s, t)
  {
    OwnerIsAlone(s, w, id);
    var row := s.operations[id].(status := Completed, result := Some(reply));
    var m := Closed(s, w, id, row, s.unresolved, Scheduling(id, digest));
    var t := EstablishStep(s, w, id, digest, reply);
    assert t == m.(sessions := s.sessions + {id});
    CloseRows(s, w, id, row, s.unresolved, Scheduling(id, digest));
    CloseEvolves(s, w, id, row, s.unresolved, Scheduling(id, digest));
    assert WorkerOk(s, s.workers[w]);
    forall v | v in t.workers ensures WorkerOk(t, t.workers[v]) {
      if v != w { assert WorkerOk(s, s.workers[v]); }
    }
    forall i | 0 <= i < |t.dispatches| ensures DispatchOk(t, t.dispatches[i]) { assert DispatchOk(m, m.dispatches[i]); }
    forall k | k in t.operations ensures OperationOk(t, k, t.operations[k]) {
      assert OperationOk(m, k, m.operations[k]);
    }
    RowsStay(m, t);
    EvolvesTransitive(s, m, t);
  }

  lemma SettleKeeps(s: Desk, id: string, releaseFails: bool)
    requires Inv(s) && id in s.sessions
    ensures var t := Release(s.(sessions := s.sessions - {id}), ForOperation(id), releaseFails); Inv(t) && Evolves(s, t)
  {
    var m := s.(sessions := s.sessions - {id});
    SessionEnds(s, id);
    ReleaseKeeps(m, ForOperation(id), releaseFails);
    EvolvesTransitive(s, m, Release(m, ForOperation(id), releaseFails));
  }

  /** A row that was claimed, and could not be marked as running. */
  lemma ClaimKeeps(s: Desk, id: string, host: string, digest: string)
    requires Inv(s) && id !in s.operations && HasRoom(s.leases, host) && ForOperation(id) !in s.leases
    ensures var t := s.(operations := s.operations[id := Operation(digest, host, Admitted, None, s.clock)],
                        leases := s.leases[ForOperation(id) := host]);
            Inv(t) && Evolves(s, t) && Unheld(t, ForOperation(id))
  {
    var t := s.(operations := s.operations[id := Operation(digest, host, Admitted, None, s.clock)],
                leases := s.leases[ForOperation(id) := host]);
    LeaseGranted(s.leases, ForOperation(id), host);
    forall i | 0 <= i < |t.dispatches| ensures DispatchOk(t, t.dispatches[i]) { assert DispatchOk(s, s.dispatches[i]); }
    forall k | k in t.operations ensures OperationOk(t, k, t.operations[k]) {
      if k != id { assert OperationOk(s, k, s.operations[k]); }
    }
    forall k | k in s.operations ensures RowKept(s, t, k) { SettledStays(s, t, k); }
    forall v | v in t.workers ensures WorkerOk(t, t.workers[v]) && !Holds(t.workers[v], ForOperation(id)) {
      assert WorkerOk(s, s.workers[v]);
    }
  }

  /** Every earlier dispatch of a claimed operation is thirty days old. */
  lemma DispatchRows(s: Desk, w: nat, id: string, host: string, digest: string)
    requires Inv(s) && id !in s.operations
    ensures var t := Granted(s, w, id, host, digest, NoFault);
            && (forall i :: 0 <= i < |t.dispatches| ==> DispatchOk(t, t.dispatches[i])) && Apart(t.dispatches)
            && (forall k :: k in t.operations ==> OperationOk(t, k, t.operations[k]))
  {
    var t := Granted(s, w, id, host, digest, NoFault);
    assert t.dispatches[|s.dispatches|] == Dispatch(id, s.clock);
    forall i | 0 <= i < |s.dispatches|
      ensures DispatchOk(t, s.dispatches[i]) &&
              (s.dispatches[i].id == id ==> s.dispatches[i].time + RETENTION <= s.clock)
    { assert DispatchOk(s, s.dispatches[i]); }
    forall k | k in t.operations ensures OperationOk(t, k, t.operations[k]) {
      if k != id { assert OperationOk(s, k, s.operations[k]); }
    }
  }

  lemma DispatchEvolves(s: Desk, w: nat, id: string, host: string, digest: string)
    requires Inv(s) && w !in s.workers && id !in s.operations
    ensures Evolves(s, Granted(s, w, id, host, digest, NoFault))
  {
    var t := Granted(s, w, id, host, digest, NoFault);
    assert t.dispatches[|s.dispatches|] == Dispatch(id, s.clock);
    forall k | k in s.operations ensures RowKept(s, t, k) { SettledStays(s, t, k); }
  }

  /** A claim that is dispatched. */
  lemma DispatchKeeps(s: Desk, w: nat, id: string, host: string, digest: string)
    requires Inv(s) && w !in s.workers && id !in s.operations && HasRoom(s.leases, host) &&
             ForOperation(id) !in s.leases
    ensures var t := Granted(s, w, id, host, digest, NoFault); Inv(t) && Evolves(s, t)
  {
    var t := Granted(s, w, id, host, digest, NoFault);
    LeaseGranted(s.leases, ForOperation(id), host);
    DispatchRows(s, w, id, host, digest);
    DispatchEvolves(s, w, id, host, digest);
    forall v | v in t.workers && v != w ensures WorkerOk(t, t.workers[v]) && !Holds(t.workers[v], ForOperation(id)) {
      assert WorkerOk(s, s.workers[v]);
    }
  }

  lemma GrantedKeeps(s: Desk, w: nat, id: string, host: string, digest: string, fault: Fault)
    requires Inv(s) && w !in s.workers && id !in s.operations && HasRoom(s.leases, host) &&
             ForOperation(id) !in s.leases
    requires !fault.ClaimFails?
    ensures var t := Granted(s, w, id, host, digest, fault); Inv(t) && Evolves(s, t)
  {
    var t := Granted(s, w, id, host, digest, fault);
    if fault == NoFault { DispatchKeeps(s, w, id, host, digest); }
    else {
      ClaimKeeps(s, id, host, digest);
      var m := s.(operations := s.operations[id := Operation(digest, host, Admitted, None, s.clock)],
                  leases := s.leases[ForOperation(id) := host]);
      ReleaseKeeps(m, ForOperation(id), fault.releaseFails);
      var n := Release(m, ForOperation(id), fault.releaseFails);
      EvolvesTransitive(s, m, n);
      MoveKeeps(n, w, StoreUnavailable);
      EvolvesTransitive(s, n, t);
    }
  }

  lemma ExecuteKeeps(s: Desk, w: nat, id: string, host: string, digest: string, call: Call, purge: set<string>,
                     fault: Fault)
    requires Inv(s) && w !in s.workers && PrunedBatch(s.operations, s.clock, purge)
    ensures var t := ExecuteStep(s, w, id, host, digest, call, purge, fault); Inv(t) && Evolves(s, t)
  {
    var t := ExecuteStep(s, w, id, host, digest, call, purge, fault);
    var m := s.(operations := s.operations - purge);
    PruneKeeps(s, purge);
    if fault.ClaimFails? || (id !in m.operations && HasRoom(s.leases, host) && ForOperation(id) in s.leases) {
      MoveKeeps(s, w, StoreUnavailable);
    } else {
      if id in m.operations { MoveKeeps(m, w, AnswerExisting(m.operations[id], digest, call, id in s.unresolved)); }
      else if !HasRoom(s.leases, host) { MoveKeeps(m, w, CapacityReached); }
      else { GrantedKeeps(m, w, id, host, digest, fault); }
      EvolvesTransitive(s, m, t);
    }
  }

  predicate AboutSessions(a: Action) { a.Establish? || a.Scheduled? || a.ScheduleFails? || a.Settle? || a.DropLease? }

  lemma SessionStepOk(s: Desk, a: Action)
    requires Inv(s) && AboutSessions(a)
    ensures Inv(Apply(s, a)) && Evolves(s, Apply(s, a))
  {
    RowsStay(s, s);
    match a
    case Establish(w, reply) =>
      if w in s.workers && s.workers[w].Dispatching? && reply.status == Completed && Young(s, s.workers[w].id, 0) {
        EstablishKeeps(s, w, s.workers[w].id, s.workers[w].digest, reply);
      }
    case Scheduled(w, reply) => if w in s.workers && s.workers[w].Scheduling? { MoveKeeps(s, w, Replied(reply)); }
    case ScheduleFails(w, reply, receipt, releaseFails) =>
      if w in s.workers && s.workers[w].Scheduling? && reply.status == Failed {
        ScheduleFailsKeeps(s, w, s.workers[w].id, reply, receipt, releaseFails);
      }
    case Settle(id, releaseFails) => if id in s.sessions { SettleKeeps(s, id, releaseFails); }
    case DropLease(lease) => if Unheld(s, lease) { ReleaseKeeps(s, lease, false); }
  }

  lemma StepOk(s: Desk, a: Action)
    requires Inv(s)
    ensures Inv(Apply(s, a)) && Evolves(s, Apply(s, a))
  {
    RowsStay(s, s);
    match a
    case Tick(ms) => TickKeeps(s, ms);
    case Execute(w, id, host, digest, call, purge, fault) =>
      if w !in s.workers && PrunedBatch(s.operations, s.clock, purge) {
        ExecuteKeeps(s, w, id, host, digest, call, purge, fault);
      }
    case Finish(w, reply, receipt, releaseFails) =>
      if w in s.workers && s.workers[w].Dispatching? && Reportable(reply.status) {
        FinishKeeps(s, w, s.workers[w].id, reply, receipt, releaseFails);
      }
    case Reserve(w, host) => ReserveKeeps(s, w, host);
    case EndRead(w, releaseFails) => EndReadKeeps(s, w, releaseFails);
    case Restart => RestartKeeps(s);
    case _ => SessionStepOk(s, a);
  }

  lemma {:induction false} RunOk(s: Desk, run: seq<Action>)
    requires Inv(s)
    ensures Inv(Exec(s, run)) && Evolves(s, Exec(s, run))
  {
    if run == [] { RowsStay(s, s); }
    else {
      var m := Exec(s, run[..|run| - 1]);
      RunOk(s, run[..|run| - 1]);
      StepOk(m, run[|run| - 1]);
      EvolvesTransitive(s, m, Exec(s, run));
    }
  }
}
