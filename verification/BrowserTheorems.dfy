/** What the endpoint's owner promises about execute requests and activations. */
module BrowserTheorems {
  import opened Common
  import opened EndpointState
  import opened IntentKeys
  import opened BrowserEndpoint
  import opened BrowserSafety

  lemma InsertedOk()
    ensures Inv(Inserted())
  {
  }

  /** Whenever an execute request goes out, the endpoint is enabled, its generation and revision are those that were
    captured when the mutation was admitted, and its authorization has not changed once in between. */
  lemma RequestsMatchAdmission(run: seq<Action>, d: Send)
    requires d in Exec(Inserted(), run).sends
    ensures d.state == Enabled && d.generation == d.admitted.generation && d.revision == d.admitted.revision
    ensures d.mark == d.admitted.mark
  {
    InsertedOk();
    RunOk(Inserted(), run);
    var s := Exec(Inserted(), run);
    assert SendOk(d, s.prepared);
  }

  /** At most one mutation of the endpoint is under way. */
  lemma OneMutationAtATime(run: seq<Action>)
    ensures |Exec(Inserted(), run).pending.Keys| <= 1
  {
    InsertedOk();
    RunOk(Inserted(), run);
  }

  /** Every change of authorization raises the revision by one. */
  lemma RevisionCountsChanges(s: World, a: Action)
    ensures var t := Apply(s, a); t.state != s.state ==> t.changes == s.changes + 1 && t.revision == s.revision + 1
  {
    match a
    case Resume(w, yes) => if w in s.workers { ResumeCountsChanges(s, w, s.workers[w], yes); }
    case _ =>
  }

  lemma ResumeCountsChanges(s: World, w: nat, pc: Pc, yes: bool)
    ensures var t := ResumeStep(s, w, pc, yes);
            t.state != s.state ==> t.changes == s.changes + 1 && t.revision == s.revision + 1
  {
    match pc
    case AlarmWaits(attempt, row, revision) =>
    case _ =>
  }

  // ---- activation ----

  /** Each attempt is consumed by at most one enabling commit, over all interleavings of any number of completions. */
  lemma OneCommitPerAttempt(run: seq<Action>)
    ensures var s := Exec(Inserted(), run);
            forall i, j :: 0 <= i < j < |s.commits| ==> s.commits[i].consumed != s.commits[j].consumed
  {
    InsertedOk();
    RunOk(Inserted(), run);
  }

  /** A commit on an existing endpoint finds it not revoked, at the very stop epoch that its attempt read as it
    began. */
  lemma CommitsAreCurrent(run: seq<Action>, c: Commit)
    requires c in Exec(Inserted(), run).commits && c.proof.existing
    ensures c.found != Revoked && c.stopEpoch == c.proof.stopEpoch
  {
    InsertedOk();
    RunOk(Inserted(), run);
    var s := Exec(Inserted(), run);
    assert CommitOk(c, s.attempts, s.serials);
  }

  predicate Stops(a: Action) { a == StopEnabled || a == StopAgain || a == RevokeOnAlarmFailure }

  /** A Stop defeats every attempt that began before it: none of the attempts stored, and none of the calls under way,
    ever enables the endpoint again; whatever does read the stop epoch afterwards. */
  lemma StopSupersedesAttempts(s: World, stop: Action, run: seq<Action>, i: int)
    requires Inv(s) && Stops(stop) && |s.commits| <= i < |Exec(Apply(s, stop), run).commits|
    ensures var c := Exec(Apply(s, stop), run).commits[i];
            c.proof.existing ==> c.proof.stopEpoch > s.stopEpoch && forall k :: k in s.attempts ==>
                c.proof != s.attempts[k]
  {
    StepOk(s, stop);
    var m := Apply(s, stop);
    assert m.commits == s.commits && m.stopEpoch == s.stopEpoch + 1;
    RunOk(m, run);
    var t := Exec(m, run);
    var c := t.commits[i];
    assert CommitOk(c, t.attempts, t.serials);
  }

  // ---- /local-stop ----

  /** The write of a `/local-stop`, in the branch of the state that it read before it hashed the credential. */
  function StopAction(read: Authorization): Action { if read == Stopped then StopAgain else StopEnabled }

  ghost predicate Uninterrupted(run: seq<Action>) { Recreate !in run }

  /** Whatever happens between the read and the write of a `/local-stop`, it leaves the endpoint not enabled. */
  ghost predicate AlwaysStops(s: World) {
    forall run :: Uninterrupted(run) ==> Other(Exec(s, run), StopAction(s.state)).state != Enabled
  }

  /** A `/local-stop` always stops the endpoint if and only if it read it enabled. One that read it stopped raises the
    stop epoch alone, under an activation which has enabled the endpoint since. */
  lemma LocalStopStopsExactly(s: World)
    requires s.state != Revoked
    ensures AlwaysStops(s) <==> s.state == Enabled
  {
    if s.state == Stopped {
      var i, w := Fresh(s.attempts.Keys), Fresh(s.workers.Keys);
      ActivationEnables(s, w, i);
      assert Uninterrupted(Activation(w, i));
    }
  }

  /** An attempt that is begun, authorized and completed. */
  function Activation(w: nat, i: nat): seq<Action> { Proven(w, i) + Completion(w + 1) }

  function Proven(w: nat, i: nat): seq<Action> {
    [CallBegin(w, i, true)] + [Resume(w, true)] + [Authorize(i)] + [CallComplete(w + 1, i)]
  }

  function Completion(w: nat): seq<Action> { [Resume(w, true), Resume(w, true), Resume(w, true)] }

  lemma RunStep(s: World, run: seq<Action>, a: Action)
    ensures Exec(s, run + [a]) == Apply(Exec(s, run), a)
  {
    assert (run + [a])[..|run|] == run;
  }

  lemma BeginningWaits(s: World, w: nat, i: nat)
    requires s.state != Revoked && w !in s.workers
    ensures Apply(s, CallBegin(w, i, true)) == Go(s, w, BeginWaits(i, true, s.stopEpoch))
  {
  }

  lemma InsertionFollows(s: World, w: nat, i: nat)
    requires i !in s.attempts && w in s.workers && s.workers[w] == BeginWaits(i, true, s.stopEpoch)
    ensures Apply(s, Resume(w, true)) == BeginStep(s, w, i, true, s.stopEpoch, true)
  {
  }

  lemma BeginningInserts(s: World, w: nat, i: nat)
    requires s.state != Revoked && i !in s.attempts && w !in s.workers
    ensures Exec(s, [CallBegin(w, i, true)] + [Resume(w, true)]) ==
            BeginStep(Go(s, w, BeginWaits(i, true, s.stopEpoch)), w, i, true, s.stopEpoch, true)
  {
    RunStep(s, [], CallBegin(w, i, true));
    assert [] + [CallBegin(w, i, true)] == [CallBegin(w, i, true)];
    BeginningWaits(s, w, i);
    RunStep(s, [CallBegin(w, i, true)], Resume(w, true));
    InsertionFollows(Go(s, w, BeginWaits(i, true, s.stopEpoch)), w, i);
  }

  lemma ActivationEnables(s: World, w: nat, i: nat)
    requires s.state != Revoked && i !in s.attempts && w !in s.workers && w + 1 !in s.workers
    ensures Exec(s, Activation(w, i)).state == Enabled
  {
    var row := Attempt(s.serials, true, s.stopEpoch, true, false);
    var begun := [CallBegin(w, i, true)] + [Resume(w, true)];
    BeginningInserts(s, w, i);
    RunStep(s, begun, Authorize(i));
    RunStep(s, begun + [Authorize(i)], CallComplete(w + 1, i));
    CompletionEnables(s, Proven(w, i), w + 1, i, row);
  }

  lemma CompletionEnables(s: World, run: seq<Action>, w: nat, i: nat, row: Attempt)
    requires var m := Exec(s, run);
             && w in m.workers && m.workers[w] == ProofWaits(i, row) && i in m.attempts && m.attempts[i] == row
             && m.state != Revoked && m.stopEpoch == row.stopEpoch && row.existing && row.verified && !row.consumed
    ensures Exec(s, run + Completion(w)).state == Enabled
  {
    var m, r := Exec(s, run), Resume(w, true);
    RunStep(s, run, r);
    assert Exec(s, run + [r]) == Go(m, w, CredentialWaits(i, row, m.revision));
    RunStep(s, run + [r], r);
    assert Exec(s, run + [r] + [r]) ==
           Go(Go(m, w, CredentialWaits(i, row, m.revision)), w, AlarmWaits(i, row, m.revision));
    RunStep(s, run + [r] + [r], r);
    assert run + Completion(w) == run + [r] + [r] + [r];
  }

  // ---- recreation ----

  /** The mutations with an operation at or above `n`, and they alone, can still be executed. */
  ghost predicate Forgotten(s: World, n: nat, sent: nat) {
    && n <= s.supply
    && (forall o :: o in s.pending ==> o >= n)
    && (forall w :: w in s.workers && s.workers[w].ExecuteWaits? ==> s.workers[w].operation >= n)
    && (forall i :: sent <= i < |s.sends| ==> s.sends[i].operation >= n)
  }

  /** Only caller `w` moved, and it waits for no forgotten mutation. */
  lemma ForgottenMove(s: World, n: nat, sent: nat, w: nat, t: World)
    requires Forgotten(s, n, sent) && w in t.workers && t.workers == s.workers[w := t.workers[w]]
    requires t.workers[w].ExecuteWaits? ==> t.workers[w].operation >= n
    requires s.supply <= t.supply && forall o :: o in t.pending ==> o in s.pending || o >= n
    requires t.sends == s.sends ||
             (|t.sends| == |s.sends| + 1 && t.sends[..|s.sends|] == s.sends && t.sends[|s.sends|].operation >= n)
    ensures Forgotten(t, n, sent)
  {
    forall i | sent <= i < |t.sends| ensures t.sends[i].operation >= n {
      if i < |s.sends| { assert t.sends[i] == t.sends[..|s.sends|][i]; }
    }
  }

  lemma ForgottenGo(s: World, n: nat, sent: nat, w: nat, pc: Pc)
    requires Forgotten(s, n, sent) && (pc.ExecuteWaits? ==> pc.operation >= n)
    ensures Forgotten(Go(s, w, pc), n, sent)
  {
  }

  lemma ForgottenExecute(s: World, n: nat, sent: nat, w: nat, o: nat, generation: nat, revision: nat, token: bool,
                         open: bool)
    requires Forgotten(s, n, sent) && o >= n
    ensures Forgotten(ExecuteStep(s, w, o, generation, revision, token, open), n, sent)
  {
    ForgottenMove(s, n, sent, w, ExecuteStep(s, w, o, generation, revision, token, open));
  }

  lemma ForgottenActivation(s: World, n: nat, sent: nat, w: nat, pc: Pc, yes: bool)
    requires Forgotten(s, n, sent) && w in s.workers && s.workers[w] == pc
    requires pc.BeginWaits? || pc.AlarmWaits? || pc.NewCredentialWaits? || pc.ExecuteWaits? || pc.Done?
    ensures Forgotten(ResumeStep(s, w, pc, yes), n, sent)
  {
  }

  lemma ForgottenResume(s: World, n: nat, sent: nat, w: nat, yes: bool)
    requires Forgotten(s, n, sent) && w in s.workers
    ensures Forgotten(ResumeStep(s, w, s.workers[w], yes), n, sent)
  {
    match s.workers[w]
    case ProofWaits(i, row) => ForgottenGo(s, n, sent, w, AfterProof(s, i, row, yes));
    case CredentialWaits(i, row, revision) => ForgottenGo(s, n, sent, w, AfterCredential(s, i, row, revision, yes));
    case MutateWaits(key, generation, revision, socket, mark) =>
      ForgottenMove(s, n, sent, w, MutateStep(s, w, key, generation, revision, socket, mark, yes));
    case _ => ForgottenActivation(s, n, sent, w, s.workers[w], yes);
  }

  lemma ForgottenCall(s: World, n: nat, sent: nat, a: Action)
    requires Forgotten(s, n, sent) && (a.CallPrepareResult? || a.CallMutate?)
    ensures Forgotten(Apply(s, a), n, sent)
  {
    if a.worker !in s.workers { ForgottenMove(s, n, sent, a.worker, Apply(s, a)); }
  }

  lemma ForgottenStays(s: World, n: nat, sent: nat, a: Action)
    requires Forgotten(s, n, sent)
    ensures Forgotten(Apply(s, a), n, sent)
  {
    match a
    case Resume(w, yes) => if w in s.workers { ForgottenResume(s, n, sent, w, yes); }
    case CallPrepareResult(_, _, _, _, _, _) => ForgottenCall(s, n, sent, a);
    case CallMutate(_, _, _, _) => ForgottenCall(s, n, sent, a);
    case Execute(w, token, open) =>
      if w in s.workers && s.workers[w].ExecuteWaits? {
        ForgottenExecute(s, n, sent, w, s.workers[w].operation, s.workers[w].generation, s.workers[w].revision, token,
                         open);
      }
    case _ =>
  }

  lemma {:induction false} ForgottenRun(s: World, n: nat, sent: nat, run: seq<Action>)
    requires Forgotten(s, n, sent)
    ensures Forgotten(Exec(s, run), n, sent)
  {
    if run != [] {
      ForgottenRun(s, n, sent, run[..|run| - 1]);
      ForgottenStays(Exec(s, run[..|run| - 1]), n, sent, run[|run| - 1]);
    }
  }

  lemma RecreationForgets(s: World)
    ensures Forgotten(Apply(s, Recreate), s.supply, |s.sends|)
  {
  }

  /** A recreated object has the durable bindings of its predecessor, but no mutation of it is ever executed. */
  lemma RecreationForgetsMutations(s: World, run: seq<Action>, i: int)
    requires Inv(s) && |s.sends| <= i < |Exec(Apply(s, Recreate), run).sends|
    ensures Exec(Apply(s, Recreate), run).sends[i].operation !in s.prepared
  {
    RecreationForgets(s);
    ForgottenRun(Apply(s, Recreate), s.supply, |s.sends|, run);
  }
}
