/** Every mutation under way belongs to the socket that is authenticated now. */
module BrowserSockets {
  import opened Common
  import opened EndpointState
  import opened IntentKeys
  import opened BrowserEndpoint

  predicate Attached(sockets: map<nat, nat>, socket: nat, generation: nat) {
    socket in sockets && sockets[socket] == generation
  }

  ghost predicate PendingAttached(pending: map<nat, Pending>, sockets: map<nat, nat>, generation: nat) {
    forall o :: o in pending ==> pending[o].generation == generation && Attached(sockets, pending[o].socket, generation)
  }

  /** An admission under way found its socket authenticated, and that holds while the generation is the same. */
  predicate AdmissionAttached(pc: Pc, sockets: map<nat, nat>, generation: nat) {
    pc.MutateWaits? ==>
      pc.generation <= generation && (pc.generation == generation ==> Attached(sockets, pc.socket, generation))
  }

  ghost predicate SocketsOk(s: World) {
    && PendingAttached(s.pending, s.sockets, s.generation)
    && forall w :: w in s.workers ==> AdmissionAttached(s.workers[w], s.sockets, s.generation)
  }

  /** One caller moves, and the socket of the endpoint stays. */
  lemma CallerMoves(s: World, t: World, w: nat)
    requires SocketsOk(s) && t.sockets == s.sockets && t.generation == s.generation
    requires w in t.workers && t.workers == s.workers[w := t.workers[w]]
    requires AdmissionAttached(t.workers[w], s.sockets, s.generation)
    requires PendingAttached(t.pending, s.sockets, s.generation)
    ensures SocketsOk(t)
  {
  }

  lemma MutateStepOk(s: World, w: nat, pc: Pc, accepted: bool)
    requires SocketsOk(s) && w in s.workers && s.workers[w] == pc && pc.MutateWaits?
    ensures SocketsOk(MutateStep(s, w, pc.key, pc.generation, pc.revision, pc.socket, pc.mark, accepted))
  {
    CallerMoves(s, MutateStep(s, w, pc.key, pc.generation, pc.revision, pc.socket, pc.mark, accepted), w);
  }

  /** What the other callers do to the pending mutations: they end, or go on. */
  lemma ResumeOk(s: World, w: nat, yes: bool)
    requires SocketsOk(s) && w in s.workers
    ensures SocketsOk(ResumeStep(s, w, s.workers[w], yes))
  {
    var pc := s.workers[w];
    if pc.MutateWaits? { MutateStepOk(s, w, pc, yes); }
    else if !pc.ExecuteWaits? && !pc.Done? { CallerMoves(s, ResumeStep(s, w, pc, yes), w); }
  }

  lemma ExecuteOk(s: World, w: nat, o: nat, generation: nat, revision: nat, token: bool, open: bool)
    requires SocketsOk(s)
    ensures SocketsOk(ExecuteStep(s, w, o, generation, revision, token, open))
  {
    CallerMoves(s, ExecuteStep(s, w, o, generation, revision, token, open), w);
  }

  lemma OtherOk(s: World, a: Action)
    requires SocketsOk(s)
    ensures SocketsOk(Other(s, a))
  {
  }

  lemma CallOk(s: World, a: Action, w: nat)
    requires SocketsOk(s)
    requires (a.CallMutate? || a.CallPrepareResult? || a.CallBegin? || a.CallComplete?) && a.worker == w
    ensures SocketsOk(Apply(s, a))
  {
    if w !in s.workers { CallerMoves(s, Apply(s, a), w); }
  }

  lemma StepSockets(s: World, a: Action)
    requires SocketsOk(s)
    ensures SocketsOk(Apply(s, a))
  {
    match a
    case CallMutate(w, key, socket, busy) => CallOk(s, a, w);
    case CallPrepareResult(w, o, key, socket, recent, accepted) => CallOk(s, a, w);
    case Execute(w, token, open) =>
      if w in s.workers && s.workers[w].ExecuteWaits? {
        ExecuteOk(s, w, s.workers[w].operation, s.workers[w].generation, s.workers[w].revision, token, open);
      }
    case CallBegin(w, i, existing) => CallOk(s, a, w);
    case CallComplete(w, i) => CallOk(s, a, w);
    case Resume(w, yes) => if w in s.workers { ResumeOk(s, w, yes); }
    case _ => OtherOk(s, a);
  }

  lemma {:induction false} RunSockets(run: seq<Action>)
    ensures SocketsOk(Exec(Inserted(), run))
  {
    if run != [] {
      RunSockets(run[..|run| - 1]);
      StepSockets(Exec(Inserted(), run[..|run| - 1]), run[|run| - 1]);
    }
  }

  /** In every run a mutation under way, from its binding to its receipt, belongs to a socket that is authenticated at
    the endpoint's present generation. */
  lemma MutationsAreAttached(run: seq<Action>, o: nat)
    requires o in Exec(Inserted(), run).pending
    ensures var s := Exec(Inserted(), run);
            s.pending[o].generation == s.generation &&
            s.pending[o].socket in s.sockets && s.sockets[s.pending[o].socket] == s.generation
  {
    RunSockets(run);
  }

  /** No socket is authenticated at the endpoint's present generation. */
  ghost predicate Offline(s: World) { forall k :: k in s.sockets ==> s.sockets[k] != s.generation }

  lemma NothingPending(s: World)
    requires SocketsOk(s) && Offline(s)
    ensures s.pending == map[]
  {
    assert forall o :: o in s.pending ==> Attached(s.sockets, s.pending[o].socket, s.generation);
  }

  /** While it is offline nothing is bound, not even what was admitted before; and nothing is admitted. */
  lemma OfflineBindsNothing(run: seq<Action>, a: Action)
    requires Offline(Exec(Inserted(), run))
    ensures var s := Exec(Inserted(), run); var t := Apply(s, a);
            && s.pending == map[] && t.pending == map[] && t.prepared == s.prepared
            && (a.CallMutate? && a.worker !in s.workers ==> t == s.(workers := s.workers[a.worker := Done]))
  {
    RunSockets(run);
    var s := Exec(Inserted(), run);
    NothingPending(s);
    if a.Resume? && a.worker in s.workers { ResumesOffline(s, a.worker, a.yes); }
    else if a.Execute? && a.worker in s.workers { ExecutesOffline(s, a); }
  }

  lemma ResumesOffline(s: World, w: nat, yes: bool)
    requires SocketsOk(s) && Offline(s) && s.pending == map[] && w in s.workers
    ensures var t := ResumeStep(s, w, s.workers[w], yes);
            t.pending == map[] && t.prepared == s.prepared
  {
    assert AdmissionAttached(s.workers[w], s.sockets, s.generation);
  }

  lemma ExecutesOffline(s: World, a: Action)
    requires a.Execute? && s.pending == map[]
    ensures Apply(s, a).pending == map[] && Apply(s, a).prepared == s.prepared
  {
  }
}
