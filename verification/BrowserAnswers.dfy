/** What each handler of the endpoint does, told by the row and the maps that it finds. */
module BrowserAnswers {
  import opened Common
  import opened EndpointState
  import opened IntentKeys
  import opened BrowserEndpoint
  import opened BrowserSockets

  ghost predicate Waits(s: World, w: nat, pc: Pc) { w in s.workers && s.workers[w] == pc }

  function Ended(s: World, w: nat): World { s.(workers := s.workers[w := Done]) }

  // ---- mutations ----

  /** A mutation is admitted only on an enabled endpoint with its socket at the present generation, when no mutation
    is under way or being admitted, and no read or dispatch. */
  lemma MutateBegins(s: World, w: nat, key: Key, socket: nat, busy: bool)
    requires w !in s.workers
    ensures Apply(s, CallMutate(w, key, socket, busy)) ==
            if s.state == Enabled && |s.pending.Keys| == 0 && s.admitting == None && !busy &&
               socket in s.sockets && s.sockets[socket] == s.generation
            then s.(admitting := Some(w),
                    workers := s.workers[w := MutateWaits(key, s.generation, s.revision, socket, s.changes)])
            else Ended(s, w)
  {
  }

  /** Behind the admission: the reservation goes, and the mutation is bound and tracked if the grant is the same. */
  lemma MutateEnds(s: World, w: nat, key: Key, generation: nat, revision: nat, socket: nat, mark: nat, accepted: bool)
    requires Waits(s, w, MutateWaits(key, generation, revision, socket, mark))
    ensures Apply(s, Resume(w, accepted)) ==
            if accepted && s.state == Enabled && generation == s.generation && revision == s.revision
            then Ended(s.(admitting := None, supply := s.supply + 1,
                          pending := s.pending[s.supply := Pending(key, generation, revision, socket, Preparing)],
                          prepared := s.prepared[s.supply := Prepared(key, generation, revision, mark)]), w)
            else Ended(s.(admitting := None), w)
  {
  }

  /** The mutation that a prepare result may be about: it waits for one, on this socket, under this key. */
  predicate Expects(s: World, o: nat, key: Key, socket: nat) {
    && o in s.pending && s.pending[o] == s.pending[o].(key := key, socket := socket, phase := Preparing)
    && s.pending[o].generation == s.generation
    && s.state == Enabled && socket in s.sockets && s.sockets[socket] == s.generation
  }

  /** A result nobody expects changes nothing; one that is late, of another binding, or a refusal ends the mutation;
    any other goes on to the ledger. */
  lemma PrepareResultExact(s: World, w: nat, o: nat, key: Key, socket: nat, recent: bool, accepted: bool)
    requires w !in s.workers
    ensures Apply(s, CallPrepareResult(w, o, key, socket, recent, accepted)) ==
            if !Expects(s, o, key, socket) then Ended(s, w)
            else if recent && accepted && o in s.prepared && s.prepared[o].key == key &&
                    s.prepared[o].generation == s.generation && s.prepared[o].revision == s.revision
            then s.(workers := s.workers[w := ExecuteWaits(o, key, s.generation, s.revision)])
            else Ended(s.(pending := s.pending - {o}), w)
  {
  }

  /** Behind the ledger: the request goes out exactly with a token, on the same grant, through an open socket; else the
    mutation ends. */
  lemma ExecuteExact(s: World, w: nat, o: nat, key: Key, generation: nat, revision: nat, token: bool, open: bool)
    requires Waits(s, w, ExecuteWaits(o, key, generation, revision)) && o in s.prepared
    ensures var t := Apply(s, Execute(w, token, open));
            if token && open && s.state == Enabled && generation == s.generation && revision == s.revision
            then t == Ended(s.(pending := if o in s.pending
                                          then s.pending[o := s.pending[o].(phase := Dispatched)] else s.pending,
                               sends := s.sends + [Send(o, s.prepared[o], Enabled, generation, revision, s.changes)]),
                            w)
            else t == Ended(s.(pending := s.pending - {o}), w)
  {
  }

  // ---- activation ----

  /** An attempt is begun for a new endpoint, or for one that is not revoked, at the stop epoch of that moment. */
  lemma BeginExact(s: World, w: nat, i: nat, existing: bool)
    requires w !in s.workers
    ensures Apply(s, CallBegin(w, i, existing)) ==
            s.(workers := s.workers[w := if existing && s.state == Revoked then Done
                                         else BeginWaits(i, existing, s.stopEpoch)])
  {
  }

  lemma BeginEnds(s: World, w: nat, i: nat, existing: bool, epoch: nat, yes: bool)
    requires Waits(s, w, BeginWaits(i, existing, epoch))
    ensures Apply(s, Resume(w, yes)) ==
            if yes && i !in s.attempts
            then Ended(s.(attempts := s.attempts[i := Attempt(s.serials, existing, epoch, false, false)],
                          serials := s.serials + 1), w)
            else Ended(s, w)
  {
  }

  /** Authorization verifies an open attempt, cancellation consumes any. */
  lemma AttemptExact(s: World, i: nat)
    ensures Apply(s, Authorize(i)) ==
            if i in s.attempts && !s.attempts[i].consumed
            then s.(attempts := s.attempts[i := s.attempts[i].(verified := true)]) else s
    ensures Apply(s, CancelAttempt(i)) ==
            if i in s.attempts then s.(attempts := s.attempts[i := s.attempts[i].(consumed := true)]) else s
    ensures Apply(s, DropAttempt(i)) == s.(attempts := s.attempts - {i})
  {
    if i in s.attempts && s.attempts[i].verified {
      assert s.attempts[i := s.attempts[i].(verified := true)] == s.attempts;
    }
  }

  lemma CompleteBegins(s: World, w: nat, i: nat)
    requires w !in s.workers
    ensures Apply(s, CallComplete(w, i)) ==
            s.(workers := s.workers[w := if i in s.attempts && !s.attempts[i].consumed
                                         then ProofWaits(i, s.attempts[i]) else Done])
  {
  }

  /** The endpoint still is as the attempt found it when it began. */
  predicate Unstopped(s: World, row: Attempt) { s.state in {Enabled, Stopped} && s.stopEpoch == row.stopEpoch }

  /** The completion reads the endpoint behind the hash of the proof, behind that of the credential, and behind the
    alarm. */
  lemma CompletionReads(s: World, w: nat, i: nat, row: Attempt, revision: nat, yes: bool)
    ensures Waits(s, w, ProofWaits(i, row)) ==>
              Apply(s, Resume(w, yes)) ==
              s.(workers := s.workers[w := if !yes || !row.verified then Done
                                           else if !row.existing then NewCredentialWaits(i, row)
                                           else if Unstopped(s, row) then CredentialWaits(i, row, s.revision)
                                           else Done])
    ensures Waits(s, w, CredentialWaits(i, row, revision)) ==>
              Apply(s, Resume(w, yes)) ==
              s.(workers := s.workers[w := if yes && Unstopped(s, row) && s.revision == revision
                                           then AlarmWaits(i, row, revision) else Done])
  {
  }

  predicate Ready(s: World, i: nat) { i in s.attempts && s.attempts[i].verified && !s.attempts[i].consumed }

  function Consumed(s: World, i: nat): World
    requires i in s.attempts
  {
    s.(attempts := s.attempts[i := s.attempts[i].(consumed := true)])
  }

  /** Its last step: the attempt is consumed when it is ready, and then the endpoint is enabled if it is as it was
    read. */
  lemma CompletionEnds(s: World, w: nat, i: nat, row: Attempt, revision: nat, yes: bool)
    requires Waits(s, w, AlarmWaits(i, row, revision))
    ensures Apply(s, Resume(w, yes)) ==
            if !yes || !Ready(s, i) then Ended(s, w)
            else if Unstopped(s, row) && s.revision == revision
            then Ended(Consumed(s, i).(state := Enabled, revision := s.revision + 1, changes := s.changes + 1,
                                       commits := s.commits + [
                                         Commit(row, s.attempts[i].serial, s.state, s.stopEpoch)]), w)
            else Ended(Consumed(s, i), w)
  {
  }

  lemma CreationEnds(s: World, w: nat, i: nat, row: Attempt, yes: bool)
    requires Waits(s, w, NewCredentialWaits(i, row))
    ensures Apply(s, Resume(w, yes)) ==
            if yes && Ready(s, i)
            then Ended(Consumed(s, i).(created := s.created + 1,
                                       commits := s.commits + [Commit(row, s.attempts[i].serial, Enabled, 0)]), w)
            else Ended(s, w)
  {
  }

  // ---- sockets, Stop and Revoke ----

  /** A socket is authenticated on an enabled endpoint: a new generation, and no mutation of another socket goes on. */
  lemma AuthenticateExact(s: World, socket: nat)
    ensures Apply(s, Authenticate(socket)) ==
            if s.state == Enabled
            then s.(generation := s.generation + 1, sockets := map[socket := s.generation + 1], pending := map[]) else s
  {
  }

  /** Whatever ends the authorization ends the mutations, raises the revision, and for a Stop the stop epoch. */
  lemma StopExact(s: World)
    ensures Apply(s, StopEnabled) ==
            s.(state := Stopped, revision := s.revision + 1, stopEpoch := s.stopEpoch + 1, changes := s.changes + 1,
               pending := map[])
    ensures Apply(s, StopAgain) == s.(stopEpoch := s.stopEpoch + 1, pending := map[])
  {
  }

  lemma RevokeExact(s: World)
    ensures var revoked := s.(state := Revoked, revision := s.revision + 1, changes := s.changes + 1, pending := map[]);
            Apply(s, Revoke) == revoked && Apply(s, RevokeOnAlarmFailure) == revoked.(stopEpoch := s.stopEpoch + 1)
  {
  }

  lemma EndingsExact(s: World, o: nat)
    ensures Apply(s, TerminateMutation(o)) == s.(pending := s.pending - {o})
    ensures Apply(s, Recreate) == s.(pending := map[], workers := map[], admitting := None)
  {
  }
}
