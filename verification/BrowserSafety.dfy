/** What every step of the endpoint keeps. Each part of the invariant names the fields that it is about. */
module BrowserSafety {
  import opened Common
  import opened EndpointState
  import opened IntentKeys
  import opened BrowserEndpoint

  ghost predicate SendOk(d: Send, prepared: map<nat, Prepared>) {
    && d.operation in prepared && prepared[d.operation] == d.admitted && d.state == Enabled
    && d.generation == d.admitted.generation && d.revision == d.admitted.revision && d.mark == d.admitted.mark
  }

  ghost predicate RequestsOk(sends: seq<Send>, prepared: map<nat, Prepared>) {
    forall d :: d in sends ==> SendOk(d, prepared)
  }

  ghost predicate CommitOk(c: Commit, attempts: map<nat, Attempt>, serials: nat) {
    && c.consumed < serials
    && (c.proof.existing ==> c.found != Revoked && c.stopEpoch == c.proof.stopEpoch)
    && forall i :: i in attempts && attempts[i].serial == c.consumed ==> attempts[i].consumed
  }

  ghost predicate CommitsOk(commits: seq<Commit>, attempts: map<nat, Attempt>, serials: nat) {
    && (forall c :: c in commits ==> CommitOk(c, attempts, serials))
    && (forall i, j :: 0 <= i < j < |commits| ==> commits[i].consumed != commits[j].consumed)
  }

  ghost predicate AttemptsOk(attempts: map<nat, Attempt>, serials: nat, stopEpoch: nat) {
    && (forall i :: i in attempts ==> attempts[i].serial < serials && attempts[i].stopEpoch <= stopEpoch)
    && (forall i, j :: i in attempts && j in attempts && attempts[i].serial == attempts[j].serial ==> i == j)
  }

  /** The durable bindings. */
  ghost predicate PreparedOk(prepared: map<nat, Prepared>, supply: nat) {
    forall o :: o in prepared ==> o < supply && prepared[o].revision == prepared[o].mark + 1
  }

  /** At most one mutation under way. */
  ghost predicate PendingOk(pending: map<nat, Pending>, prepared: map<nat, Prepared>, admitting: Option<nat>) {
    pending.Keys <= prepared.Keys && |pending.Keys| <= 1 && (admitting.Some? ==> pending.Keys == {})
  }

  ghost predicate WorkerOk(w: nat, pc: Pc, admitting: Option<nat>, prepared: map<nat, Prepared>, stopEpoch: nat) {
    match pc
    case MutateWaits(_, _, revision, _, mark) => admitting == Some(w) && revision == mark + 1
    case ExecuteWaits(o, key, generation, revision) =>
      o in prepared && prepared[o].key == key && prepared[o].generation == generation &&
        prepared[o].revision == revision
    case BeginWaits(_, _, epoch) => epoch <= stopEpoch
    case ProofWaits(_, row) => row.stopEpoch <= stopEpoch
    case CredentialWaits(_, row, _) => row.existing && row.stopEpoch <= stopEpoch
    case AlarmWaits(_, row, _) => row.existing && row.stopEpoch <= stopEpoch
    case NewCredentialWaits(_, row) => !row.existing
    case Done => true
  }

  ghost predicate CallersOk(workers: map<nat, Pc>, admitting: Option<nat>, prepared: map<nat, Prepared>,
                            stopEpoch: nat) {
    forall w :: w in workers ==> WorkerOk(w, workers[w], admitting, prepared, stopEpoch)
  }

  ghost predicate Inv(s: World) {
    && s.revision == s.changes + 1
    && PreparedOk(s.prepared, s.supply)
    && PendingOk(s.pending, s.prepared, s.admitting)
    && RequestsOk(s.sends, s.prepared)
    && AttemptsOk(s.attempts, s.serials, s.stopEpoch)
    && CommitsOk(s.commits, s.attempts, s.serials)
    && CallersOk(s.workers, s.admitting, s.prepared, s.stopEpoch)
  }

  /** What a later state keeps of an earlier one; and no commit comes of an attempt that began at an older stop
    epoch. */
  ghost predicate Evolves(s: World, t: World) {
    && s.stopEpoch <= t.stopEpoch && s.revision <= t.revision && s.sends <= t.sends && s.commits <= t.commits
    && (forall i :: |s.commits| <= i < |t.commits| && t.commits[i].proof.existing ==>
          s.stopEpoch <= t.commits[i].stopEpoch)
  }

  // ---- parts ----

  lemma PendingShrinks(pending: map<nat, Pending>, after: map<nat, Pending>, prepared: map<nat, Prepared>,
                       admitting: Option<nat>)
    requires PendingOk(pending, prepared, admitting) && after.Keys <= pending.Keys
    ensures PendingOk(after, prepared, admitting)
  {
    assert pending.Keys == after.Keys + (pending.Keys - after.Keys);
  }

  /** Only caller `w` moved; the reservation may change hands only if no other caller holds it. */
  lemma CallerMoved(s: World, w: nat, pc: Pc, admitting: Option<nat>, prepared: map<nat, Prepared>)
    requires CallersOk(s.workers, s.admitting, s.prepared, s.stopEpoch) &&
             WorkerOk(w, pc, admitting, prepared, s.stopEpoch)
    requires forall o :: o in s.prepared ==> o in prepared && prepared[o] == s.prepared[o]
    requires admitting == s.admitting || (s.admitting.Some? ==> s.admitting.value == w)
    ensures CallersOk(s.workers[w := pc], admitting, prepared, s.stopEpoch)
  {
    forall v | v in s.workers && v != w ensures WorkerOk(v, s.workers[v], admitting, prepared, s.stopEpoch) {
      assert WorkerOk(v, s.workers[v], s.admitting, s.prepared, s.stopEpoch);
    }
  }

  lemma CallersOutlive(workers: map<nat, Pc>, admitting: Option<nat>, prepared: map<nat, Prepared>, stopEpoch: nat,
                       later: nat)
    requires CallersOk(workers, admitting, prepared, stopEpoch) && stopEpoch <= later
    ensures CallersOk(workers, admitting, prepared, later)
  {
    forall w | w in workers ensures WorkerOk(w, workers[w], admitting, prepared, later) {
      assert WorkerOk(w, workers[w], admitting, prepared, stopEpoch);
    }
  }

  predicate LaterRow(row: Attempt, later: Attempt) {
    later.serial == row.serial && later.stopEpoch == row.stopEpoch && (row.consumed ==> later.consumed)
  }

  /** Attempts may be verified, consumed, or go. */
  lemma AttemptsMove(s: World, attempts: map<nat, Attempt>)
    requires AttemptsOk(s.attempts, s.serials, s.stopEpoch) && CommitsOk(s.commits, s.attempts, s.serials)
    requires forall i :: i in attempts ==> i in s.attempts && LaterRow(s.attempts[i], attempts[i])
    ensures AttemptsOk(attempts, s.serials, s.stopEpoch) && CommitsOk(s.commits, attempts, s.serials)
  {
    forall c | c in s.commits ensures CommitOk(c, attempts, s.serials) { assert CommitOk(c, s.attempts, s.serials); }
  }

  lemma AttemptBegun(s: World, attempt: nat, row: Attempt)
    requires AttemptsOk(s.attempts, s.serials, s.stopEpoch) && CommitsOk(s.commits, s.attempts, s.serials)
    requires attempt !in s.attempts && row.serial == s.serials && row.stopEpoch <= s.stopEpoch
    ensures AttemptsOk(s.attempts[attempt := row], s.serials + 1, s.stopEpoch)
    ensures CommitsOk(s.commits, s.attempts[attempt := row], s.serials + 1)
  {
    forall c | c in s.commits ensures CommitOk(c, s.attempts[attempt := row], s.serials + 1) {
      assert CommitOk(c, s.attempts, s.serials);
    }
  }

  /** The attempt of a commit was not consumed before, so no earlier commit consumed it. */
  lemma AttemptCommitted(s: World, attempt: nat, c: Commit)
    requires AttemptsOk(s.attempts, s.serials, s.stopEpoch) && CommitsOk(s.commits, s.attempts, s.serials)
    requires attempt in s.attempts && !s.attempts[attempt].consumed && c.consumed == s.attempts[attempt].serial
    requires c.proof.existing ==> c.found != Revoked && c.stopEpoch == c.proof.stopEpoch
    ensures var after := Consume(s, attempt).attempts;
            AttemptsOk(after, s.serials, s.stopEpoch) && CommitsOk(s.commits + [c], after, s.serials)
  {
    var after := Consume(s, attempt).attempts;
    AttemptsMove(s, after);
    forall e | e in s.commits + [c] ensures CommitOk(e, after, s.serials) {
      assert e == c || CommitOk(e, after, s.serials);
    }
    forall i | 0 <= i < |s.commits| ensures s.commits[i].consumed != c.consumed {
      assert s.commits[i] in s.commits && CommitOk(s.commits[i], s.attempts, s.serials);
    }
  }

  lemma RequestSent(s: World, d: Send)
    requires RequestsOk(s.sends, s.prepared) && SendOk(d, s.prepared)
    ensures RequestsOk(s.sends + [d], s.prepared)
  {
    forall e | e in s.sends + [d] ensures SendOk(e, s.prepared) { assert e == d || SendOk(e, s.prepared); }
  }

  lemma Bound(s: World, p: Prepared, q: Pending)
    requires Inv(s) && p.revision == p.mark + 1 && s.pending.Keys == {}
    ensures PreparedOk(s.prepared[s.supply := p], s.supply + 1)
    ensures PendingOk(s.pending[s.supply := q], s.prepared[s.supply := p], None)
    ensures RequestsOk(s.sends, s.prepared[s.supply := p]) && s.supply !in s.prepared
  {
    assert s.pending[s.supply := q].Keys == {s.supply};
    forall e | e in s.sends ensures SendOk(e, s.prepared[s.supply := p]) { assert SendOk(e, s.prepared); }
  }

  // ---- steps of the endpoint ----

  predicate AboutAttempts(a: Action) { a.Authorize? || a.CancelAttempt? || a.DropAttempt? }

  lemma AttemptKeeps(s: World, a: Action)
    requires Inv(s) && AboutAttempts(a)
    ensures Inv(Other(s, a)) && Evolves(s, Other(s, a))
  {
    AttemptsMove(s, Other(s, a).attempts);
  }

  lemma AttemptsOutlive(attempts: map<nat, Attempt>, serials: nat, stopEpoch: nat, later: nat)
    requires AttemptsOk(attempts, serials, stopEpoch) && stopEpoch <= later
    ensures AttemptsOk(attempts, serials, later)
  {
  }

  lemma OtherKeeps(s: World, a: Action)
    requires Inv(s) && !AboutAttempts(a)
    ensures Inv(Other(s, a)) && Evolves(s, Other(s, a))
  {
    var t := Other(s, a);
    PendingShrinks(s.pending, t.pending, s.prepared, s.admitting);
    CallersOutlive(s.workers, s.admitting, s.prepared, s.stopEpoch, t.stopEpoch);
    AttemptsOutlive(s.attempts, s.serials, s.stopEpoch, t.stopEpoch);
    assert a == Recreate ==> CallersOk(map[], None, s.prepared, s.stopEpoch);
  }

  // ---- steps of one caller ----

  lemma MoveKeeps(s: World, w: nat, pc: Pc)
    requires Inv(s) && WorkerOk(w, pc, s.admitting, s.prepared, s.stopEpoch)
    ensures Inv(Go(s, w, pc)) && Evolves(s, Go(s, w, pc))
  {
    CallerMoved(s, w, pc, s.admitting, s.prepared);
  }

  lemma MutateCallKeeps(s: World, w: nat, key: Key, socket: nat, busy: bool)
    requires Inv(s) && w !in s.workers
    ensures Inv(MutateCall(s, w, key, socket, busy)) && Evolves(s, MutateCall(s, w, key, socket, busy))
  {
    if MutateCall(s, w, key, socket, busy) == Go(s, w, Done) { MoveKeeps(s, w, Done); }
    else { CallerMoved(s, w, MutateWaits(key, s.generation, s.revision, socket, s.changes), Some(w), s.prepared); }
  }

  lemma MutateStepKeeps(s: World, w: nat, pc: Pc, yes: bool)
    requires Inv(s) && w in s.workers && s.workers[w] == pc && pc.MutateWaits?
    ensures var t := MutateStep(s, w, pc.key, pc.generation, pc.revision, pc.socket, pc.mark, yes);
            Inv(t) && Evolves(s, t)
  {
    var t := MutateStep(s, w, pc.key, pc.generation, pc.revision, pc.socket, pc.mark, yes);
    assert WorkerOk(w, pc, s.admitting, s.prepared, s.stopEpoch);
    if t.supply == s.supply { CallerMoved(s, w, Done, None, s.prepared); }
    else {
      Bound(s, t.prepared[s.supply], t.pending[s.supply]);
      CallerMoved(s, w, Done, None, t.prepared);
    }
  }

  lemma DropPendingKeeps(s: World, o: nat, w: nat)
    requires Inv(s)
    ensures var t := Go(s.(pending := s.pending - {o}), w, Done); Inv(t) && Evolves(s, t)
  {
    PendingShrinks(s.pending, s.pending - {o}, s.prepared, s.admitting);
    CallerMoved(s, w, Done, s.admitting, s.prepared);
  }

  lemma PrepareResultKeeps(s: World, w: nat, o: nat, key: Key, socket: nat, recent: bool, accepted: bool)
    requires Inv(s) && w !in s.workers
    ensures var t := PrepareResult(s, w, o, key, socket, recent, accepted); Inv(t) && Evolves(s, t)
  {
    if !Awaited(s, o, key, socket) { MoveKeeps(s, w, Done); }
    else if !recent || !MatchesPrepare(s, o, key) || !accepted { DropPendingKeeps(s, o, w); }
    else { MoveKeeps(s, w, ExecuteWaits(o, key, s.generation, s.revision)); }
  }

  /** The request goes out with the grant that was checked before the token was hashed, and that the row was bound
    to. */
  lemma SendKeeps(s: World, w: nat, o: nat)
    requires Inv(s) && o in s.prepared && s.state == Enabled
    requires s.prepared[o].generation == s.generation && s.prepared[o].revision == s.revision
    ensures var t := ExecuteStep(s, w, o, s.generation, s.revision, true, true); Inv(t) && Evolves(s, t)
  {
    CallerMoved(s, w, Done, s.admitting, s.prepared);
    RequestSent(s, Send(o, s.prepared[o], s.state, s.generation, s.revision, s.changes));
    PendingShrinks(s.pending, MarkDispatched(s.pending, o), s.prepared, s.admitting);
  }

  lemma ExecuteStepKeeps(s: World, w: nat, o: nat, generation: nat, revision: nat, token: bool, open: bool)
    requires Inv(s) && o in s.prepared && s.prepared[o].generation == generation && s.prepared[o].revision == revision
    ensures var t := ExecuteStep(s, w, o, generation, revision, token, open); Inv(t) && Evolves(s, t)
  {
    if !token || s.state != Enabled || s.generation != generation || s.revision != revision || !open {
      DropPendingKeeps(s, o, w);
    }
    else { SendKeeps(s, w, o); }
  }

  lemma ExecuteKeeps(s: World, w: nat, token: bool, open: bool)
    requires Inv(s) && w in s.workers && s.workers[w].ExecuteWaits?
    ensures Inv(Apply(s, Execute(w, token, open))) && Evolves(s, Apply(s, Execute(w, token, open)))
  {
    assert WorkerOk(w, s.workers[w], s.admitting, s.prepared, s.stopEpoch);
    ExecuteStepKeeps(s, w, s.workers[w].operation, s.workers[w].generation, s.workers[w].revision, token, open);
  }

  lemma BeginStepKeeps(s: World, w: nat, attempt: nat, existing: bool, stopEpoch: nat, yes: bool)
    requires Inv(s) && stopEpoch <= s.stopEpoch
    ensures var t := BeginStep(s, w, attempt, existing, stopEpoch, yes); Inv(t) && Evolves(s, t)
  {
    CallerMoved(s, w, Done, s.admitting, s.prepared);
    if yes && attempt !in s.attempts {
      AttemptBegun(s, attempt, Attempt(s.serials, existing, stopEpoch, false, false));
    }
  }

  lemma CommitStepKeeps(s: World, w: nat, attempt: nat, row: Attempt, revision: nat, yes: bool)
    requires Inv(s)
    ensures var t := CommitStep(s, w, attempt, row, revision, yes); Inv(t) && Evolves(s, t)
  {
    if !yes || !Consumable(s, attempt) { MoveKeeps(s, w, Done); }
    else if s.state == Revoked || s.stopEpoch != row.stopEpoch || s.revision != revision {
      AttemptKeeps(s, CancelAttempt(attempt));
      MoveKeeps(Consume(s, attempt), w, Done);
    } else { EnableKeeps(s, w, attempt, row); }
  }

  lemma EnableKeeps(s: World, w: nat, attempt: nat, row: Attempt)
    requires Inv(s) && Consumable(s, attempt) && s.state != Revoked && s.stopEpoch == row.stopEpoch
    ensures var t := CommitStep(s, w, attempt, row, s.revision, true); Inv(t) && Evolves(s, t)
  {
    CallerMoved(s, w, Done, s.admitting, s.prepared);
    AttemptCommitted(s, attempt, Commit(row, s.attempts[attempt].serial, s.state, s.stopEpoch));
  }

  lemma CreateStepKeeps(s: World, w: nat, attempt: nat, row: Attempt, yes: bool)
    requires Inv(s) && !row.existing
    ensures var t := CreateStep(s, w, attempt, row, yes); Inv(t) && Evolves(s, t)
  {
    var t := CreateStep(s, w, attempt, row, yes);
    CallerMoved(s, w, Done, s.admitting, s.prepared);
    if yes && Consumable(s, attempt) { AttemptCommitted(s, attempt, t.commits[|s.commits|]); }
  }

  lemma ResumeKeeps(s: World, w: nat, yes: bool)
    requires Inv(s) && w in s.workers
    ensures Inv(ResumeStep(s, w, s.workers[w], yes)) && Evolves(s, ResumeStep(s, w, s.workers[w], yes))
  {
    var pc := s.workers[w];
    assert WorkerOk(w, pc, s.admitting, s.prepared, s.stopEpoch);
    match pc
    case MutateWaits(_, _, _, _, _) => MutateStepKeeps(s, w, pc, yes);
    case BeginWaits(i, existing, stopEpoch) => BeginStepKeeps(s, w, i, existing, stopEpoch, yes);
    case ProofWaits(i, row) => MoveKeeps(s, w, AfterProof(s, i, row, yes));
    case CredentialWaits(i, row, revision) => MoveKeeps(s, w, AfterCredential(s, i, row, revision, yes));
    case AlarmWaits(i, row, revision) => CommitStepKeeps(s, w, i, row, revision, yes);
    case NewCredentialWaits(i, row) => CreateStepKeeps(s, w, i, row, yes);
    case _ =>
  }

  lemma StepOk(s: World, a: Action)
    requires Inv(s)
    ensures Inv(Apply(s, a)) && Evolves(s, Apply(s, a))
  {
    match a
    case CallMutate(w, key, socket, busy) => if w !in s.workers { MutateCallKeeps(s, w, key, socket, busy); }
    case CallPrepareResult(w, o, key, socket, recent, accepted) =>
      if w !in s.workers { PrepareResultKeeps(s, w, o, key, socket, recent, accepted); }
    case Execute(w, token, open) => if w in s.workers && s.workers[w].ExecuteWaits? { ExecuteKeeps(s, w, token, open); }
    case CallBegin(w, i, existing) => if w !in s.workers { MoveKeeps(s, w, AfterBegin(s, i, existing)); }
    case CallComplete(w, i) => if w !in s.workers { MoveKeeps(s, w, AfterRow(s, i)); }
    case Resume(w, yes) => if w in s.workers { ResumeKeeps(s, w, yes); }
    case _ => if AboutAttempts(a) { AttemptKeeps(s, a); } else { OtherKeeps(s, a); }
  }

  lemma {:induction false} RunOk(s: World, run: seq<Action>)
    requires Inv(s)
    ensures Inv(Exec(s, run)) && Evolves(s, Exec(s, run))
  {
    if run != [] {
      var m := Exec(s, run[..|run| - 1]);
      RunOk(s, run[..|run| - 1]);
      StepOk(m, run[|run| - 1]);
    }
  }
}
