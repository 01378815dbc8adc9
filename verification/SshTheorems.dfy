/** What the SSH worker promises over every run. */
module SshTheorems {
  import opened SshOperations
  import opened SshSafety

  lemma EmptyOk(clock: int)
    ensures Inv(Empty(clock))
  {
    forall h ensures LeasesOn(map[], h) == {} {}
  }

  /** Two dispatches of one operation are at least thirty days apart, whatever fails and however often the object
    restarts. */
  lemma DispatchesThirtyDaysApart(clock: int, run: seq<Action>)
    ensures Apart(Exec(Empty(clock), run).dispatches)
  {
    EmptyOk(clock);
    RunOk(Empty(clock), run);
  }

  /** An operation whose outcome is unknown keeps its row for ever and is never dispatched again. */
  lemma UnknownIsFinal(s: Desk, run: seq<Action>, k: string)
    requires Inv(s) && k in s.operations && s.operations[k].status == Unknown
    ensures var t := Exec(s, run);
            && k in t.operations && t.operations[k] == s.operations[k]
            && forall i :: |s.dispatches| <= i < |t.dispatches| ==> t.dispatches[i].id != k
  {
    RunOk(s, run);
    var t := Exec(s, run);
    assert RowKept(s, t, k);
    forall i | |s.dispatches| <= i < |t.dispatches| ensures t.dispatches[i].id != k {
      assert NewDispatchOk(s, t.dispatches[i]);
    }
  }

  /** A restart makes every claim without a stored outcome unknown, and with that final. */
  lemma RestartForfeits(s: Desk, run: seq<Action>, k: string)
    requires Inv(s) && k in s.operations && (s.operations[k].status == Running || s.operations[k].status == Admitted)
    ensures var r := Apply(s, Restart); var t := Exec(r, run);
            && k in t.operations && t.operations[k].status == Unknown
            && forall i :: |s.dispatches| <= i < |t.dispatches| ==> t.dispatches[i].id != k
  {
    StepOk(s, Restart);
    UnknownIsFinal(Apply(s, Restart), run, k);
  }

  /** Until it is pruned, a final outcome is what every retry finds; and a pruned operation is dispatched again only
    thirty days after its claim. */
  lemma OutcomeIsReplayed(s: Desk, run: seq<Action>, k: string, call: Call)
    requires Inv(s) && Final(s, k) && s.operations[k].status != Unknown && (call.Command? || k !in s.unresolved)
    ensures var o := s.operations[k]; var t := Exec(s, run);
            && (k in t.operations && t.operations[k].created < o.created + RETENTION ==>
                  o.result.Some? &&
                  AnswerExisting(t.operations[k], o.digest, call, k in t.unresolved) == Replied(o.result.value))
            && forall i :: |s.dispatches| <= i < |t.dispatches| && t.dispatches[i].id == k ==>
                 o.created + RETENTION <= t.dispatches[i].time
  {
    RunOk(s, run);
    var t := Exec(s, run);
    assert OperationOk(s, k, s.operations[k]);
    assert RowKept(s, t, k);
    forall i | |s.dispatches| <= i < |t.dispatches| && t.dispatches[i].id == k
      ensures s.operations[k].created + RETENTION <= t.dispatches[i].time
    { assert NewDispatchOk(s, t.dispatches[i]); }
  }

  /** The row of `k` in `t` is what it was in `s`, or another claim's, or gone. */
  predicate Stands(s: Desk, t: Desk, k: string)
    requires k in s.operations
  {
    k in t.operations && t.operations[k].created == s.operations[k].created ==> t.operations[k] == s.operations[k]
  }

  lemma AbandonedStartChanges(s: Desk, k: string, w: nat)
    requires Inv(s) && w in s.workers && SchedulingOf(s.workers[w], k)
    ensures k in s.operations && !Stands(s, Apply(s, ScheduleFails(w, Reply(Failed, 0), Stored, false)), k)
  {
    assert WorkerOk(s, s.workers[w]);
  }

  lemma FinalStands(s: Desk, k: string, run: seq<Action>)
    requires Inv(s) && Final(s, k)
    ensures Stands(s, Exec(s, run), k)
  {
    RunOk(s, run);
    assert RowKept(s, Exec(s, run), k);
  }

  ghost predicate AlwaysStands(s: Desk, k: string)
    requires k in s.operations
  {
    forall run :: Stands(s, Exec(s, run), k)
  }

  /** A stored outcome is never changed, in any future, if and only if no start of a session still waits for its alarm
    behind it. The completed receipt of one that does turns into a failed one when the alarm cannot be set. */
  lemma OutcomeStandsExactly(s: Desk, k: string)
    requires Inv(s) && k in s.operations && s.operations[k].status in {Completed, Failed, Unknown}
    ensures AlwaysStands(s, k) <==> !Unsettled(s, k)
  {
    if Unsettled(s, k) {
      var w :| w in s.workers && SchedulingOf(s.workers[w], k);
      var a := ScheduleFails(w, Reply(Failed, 0), Stored, false);
      AbandonedStartChanges(s, k, w);
      assert Exec(s, [a]) == Apply(Exec(s, []), a);
    } else {
      forall run ensures Stands(s, Exec(s, run), k) { FinalStands(s, k, run); }
    }
  }

  /** What is stored of an operation is true of it: an outcome, and the state `running`, only after its dispatch. */
  lemma OutcomesFollowDispatches(clock: int, run: seq<Action>, k: string)
    requires k in Exec(Empty(clock), run).operations
    ensures var s := Exec(Empty(clock), run); var o := s.operations[k];
            && (o.status != Admitted && o.status != Unknown ==> Dispatch(k, o.created) in s.dispatches)
            && (o.result.Some? ==> (o.status == Unknown || o.result.value.status == o.status) &&
                                   Dispatch(k, o.created) in s.dispatches)
  {
    EmptyOk(clock);
    RunOk(Empty(clock), run);
    assert OperationOk(Exec(Empty(clock), run), k, Exec(Empty(clock), run).operations[k]);
  }

  // ---- connections ----

  /** Who has a connection: a caller that dispatches or reads, or a live session. */
  datatype Holder = Caller(worker: nat) | Session(id: string)

  function Callers(s: Desk): set<nat> { set w | w in s.workers && (s.workers[w].Dispatching? || s.workers[w].Reading?) }

  function Connected(s: Desk): set<Holder> {
    (set w | w in Callers(s) :: Caller(w)) + (set id | id in s.sessions :: Session(id))
  }

  function LeaseOf(s: Desk, h: Holder): LeaseId
    requires h in Connected(s)
  {
    match h
    case Caller(w) => if s.workers[w].Dispatching? then ForOperation(s.workers[w].id) else s.workers[w].lease
    case Session(id) => ForOperation(id)
  }

  /** On `host`, by the lease. */
  function ConnectedTo(s: Desk, host: string): set<Holder> {
    set h | h in Connected(s) && LeaseOf(s, h) in s.leases && s.leases[LeaseOf(s, h)] == host
  }

  lemma {:induction false} AtMostAsMany(s: Desk, holders: set<Holder>, leases: set<LeaseId>)
    requires holders <= Connected(s) && (forall h :: h in holders ==> LeaseOf(s, h) in leases)
    requires forall g, h :: g in holders && h in holders && LeaseOf(s, g) == LeaseOf(s, h) ==> g == h
    ensures |holders| <= |leases|
  {
    if holders != {} {
      var h :| h in holders;
      AtMostAsMany(s, holders - {h}, leases - {LeaseOf(s, h)});
    }
  }

  lemma HoldersHaveLeases(s: Desk, h: Holder)
    requires Inv(s) && h in Connected(s)
    ensures LeaseOf(s, h) in s.leases && (h.Caller? ==> Holds(s.workers[h.worker], LeaseOf(s, h)))
  {
    if h.Caller? { assert WorkerOk(s, s.workers[h.worker]); }
  }

  lemma LeasesDiffer(s: Desk, g: Holder, h: Holder)
    requires Inv(s) && g in Connected(s) && h in Connected(s) && LeaseOf(s, g) == LeaseOf(s, h)
    ensures g == h
  {
    HoldersHaveLeases(s, g);
    HoldersHaveLeases(s, h);
    if g.Caller? { assert WorkerOk(s, s.workers[g.worker]); }
    if h.Caller? { assert WorkerOk(s, s.workers[h.worker]); }
  }

  /** At most four connections at a time, and at most two to one host, commands, changes, readers and live sessions
    together; every one of them has a lease of its own. */
  lemma ConnectionsAreBounded(clock: int, run: seq<Action>, host: string)
    ensures var s := Exec(Empty(clock), run);
            && |s.leases| <= 4 && |LeasesOn(s.leases, host)| <= 2
            && |Connected(s)| <= 4 && |ConnectedTo(s, host)| <= 2
            && forall h :: h in Connected(s) ==> LeaseOf(s, h) in s.leases
  {
    EmptyOk(clock);
    RunOk(Empty(clock), run);
    var s := Exec(Empty(clock), run);
    forall h | h in Connected(s) ensures LeaseOf(s, h) in s.leases { HoldersHaveLeases(s, h); }
    forall g, h | g in Connected(s) && h in Connected(s) && LeaseOf(s, g) == LeaseOf(s, h) ensures g == h {
      LeasesDiffer(s, g, h);
    }
    AtMostAsMany(s, Connected(s), s.leases.Keys);
    AtMostAsMany(s, ConnectedTo(s, host), LeasesOn(s.leases, host));
  }

  /** A call is dispatched just when its operation has no row left, both limits have room, and no lease of an earlier
    claim was left behind. */
  lemma DispatchExact(s: Desk, w: nat, id: string, host: string, digest: string, call: Call, purge: set<string>)
    requires Inv(s) && w !in s.workers && PrunedBatch(s.operations, s.clock, purge)
    ensures var t := Apply(s, Execute(w, id, host, digest, call, purge, NoFault));
            |t.dispatches| > |s.dispatches| <==>
              (id !in s.operations || id in purge) && |s.leases| < 4 && |LeasesOn(s.leases, host)| < 2 &&
                ForOperation(id) !in s.leases
  {
  }
}
