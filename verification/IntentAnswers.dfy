/** What each call of the ledger does and answers, told by the table that it finds, and what a retry finds later.

  The first part says for every statement which rows it touches and which it leaves; the second what a call answers that
  comes back from its await to any table; the third is about two calls of one key with any run in between.
*/
module IntentAnswers {
  import opened Common
  import opened IntentKeys
  import opened IntentLedger
  import opened IntentSafety
  import opened IntentTheorems

  // ---- statements, row by row ----

  /** Nothing but the row of `k` is different, and its new content is `r`. */
  ghost predicate OnlyRow(s: Ledger, t: Ledger, k: Key, r: Row) { t == s.(rows := s.rows[k := r]) }

  /** What a sweep at `now` makes of the rows. */
  ghost predicate Swept(before: Table, after: Table, now: int) {
    && after.Keys <= before.Keys
    && forall k :: k in before ==>
         (k !in after <==>
            before[k].state in {Completed, Failed, Expired, Denied} && before[k].updated < now - 604800000) &&
         (k in after ==>
            after[k] == if before[k].state == Admitted && before[k].created < now - 300000
                        then before[k].(state := Expired, updated := now) else before[k])
  }

  lemma SweepExact(rows: Table, now: int)
    ensures Swept(rows, SweepRows(rows, now), now)
  {
  }

  /** A reconciliation gives up what has waited for more than eight seconds: a dispatch for unknown, a bound admission
    for failed. */
  lemma ReconcileExact(s: Ledger, now: int)
    requires Recent(s, now)
    ensures var t := Apply(s, Reconcile(now));
            && t == s.(rows := t.rows) && t.rows.Keys == s.rows.Keys
            && forall k :: k in s.rows ==>
                 t.rows[k] ==
                   if s.rows[k].updated >= now - 8000 then s.rows[k]
                   else if s.rows[k].state == Dispatching then s.rows[k].(state := Unknown, updated := now)
                   else if s.rows[k].state == Admitted && s.rows[k].generation != None
                   then s.rows[k].(state := Failed, updated := now)
                   else s.rows[k]
  {
  }

  lemma RecreateExact(s: Ledger)
    ensures var t := Apply(s, Recreate);
            && t == s.(rows := t.rows, workers := map[]) && t.rows.Keys == s.rows.Keys
            && forall k :: k in s.rows ==>
                 t.rows[k] ==
                   match s.rows[k].state
                   case Dispatching => s.rows[k].(state := Unknown, updated := s.clock)
                   case PendingApproval => s.rows[k].(state := Expired, updated := s.clock)
                   case _ => s.rows[k]
  {
  }

  /** A binding is written once, to an admitted row. */
  lemma BindExact(s: Ledger, k: Key, generation: int, revision: int)
    requires k in s.rows
    ensures var t := Apply(s, Bind(k, generation, revision));
            if generation >= 1 && revision >= 0 && s.rows[k].state == Admitted && s.rows[k].generation == None
            then OnlyRow(s, t, k, s.rows[k].(generation := Some(generation), revision := Some(revision),
                                             updated := s.clock))
            else t == s
  {
    assert s.rows[k := s.rows[k]] == s.rows;
  }

  /** The single-row endings: of an admission, of a dispatch, and by the owner's report. */
  lemma EndingsExact(s: Ledger, k: Key)
    requires k in s.rows
    ensures var r := s.rows[k];
            && (if r.state == Admitted then OnlyRow(s, Apply(s, Abort(k)), k, r.(state := Failed, updated := s.clock))
                else Apply(s, Abort(k)) == s)
            && (if r.state == Dispatching
                then OnlyRow(s, Apply(s, MarkUnknown(k)), k, r.(state := Unknown, updated := s.clock))
                else Apply(s, MarkUnknown(k)) == s)
            && (if r.state == Unknown then OnlyRow(s, Apply(s, OwnerReports(k)), k, r.(state := OwnerResolved))
                else Apply(s, OwnerReports(k)) == s)
  {
    assert s.rows[k := s.rows[k]] == s.rows;
  }

  lemma MissingRow(s: Ledger, k: Key, generation: int, revision: int)
    requires k !in s.rows
    ensures Apply(s, Bind(k, generation, revision)) == s && Apply(s, Abort(k)) == s
    ensures Apply(s, MarkUnknown(k)) == s && Apply(s, OwnerReports(k)) == s
  {
  }

  // ---- calls ----

  /** Caller `w` has this answer, and nothing else is different. */
  ghost predicate OnlyAnswers(s: Ledger, t: Ledger, w: nat, answer: Answer) {
    t == s.(workers := s.workers[w := Done(answer)])
  }

  /** An admission up to its HMAC: it has read nothing. */
  lemma AdmitBegins(s: Ledger, w: nat, endpoint: string, intent: string, valid: bool, commitment: nat, now: int)
    requires w !in s.workers && Recent(s, now)
    ensures var t := Apply(s, CallAdmit(w, endpoint, intent, valid, commitment, now));
            var key := ParseKey(endpoint, intent);
            if key == None then OnlyAnswers(s, t, w, InvalidKey)
            else if !valid then OnlyAnswers(s, t, w, InvalidArguments)
            else t == s.(workers := s.workers[w := AdmitWaits(key.value, commitment, now)])
  {
  }

  ghost predicate Waits(s: Ledger, w: nat, pc: Pc) { w in s.workers && s.workers[w] == pc }

  /** An admission behind its HMAC, on a table that has its key: the command decides which of the two answers it gets,
    and nothing is written. */
  lemma AdmitExisting(s: Ledger, w: nat, k: Key, commitment: nat, now: int)
    requires Waits(s, w, AdmitWaits(k, commitment, now)) && Recent(s, now) && k in s.rows
    ensures OnlyAnswers(s, Apply(s, Resume(w)), w,
                        if s.rows[k].commitment == commitment then Existing(s.rows[k].state) else IntentConflict)
  {
  }

  /** On a table without its key: refused outside the window of half a minute ahead and five behind, and then nothing is
    written; in it, the table is swept, and the key is inserted unless a hundred recent intents are unknown. */
  lemma AdmitUnseen(s: Ledger, w: nat, k: Key, commitment: nat, now: int)
    requires Waits(s, w, AdmitWaits(k, commitment, now)) && Recent(s, now) && k !in s.rows
    ensures var t := Apply(s, Resume(w));
            if k.stamp > now + 30000 then OnlyAnswers(s, t, w, ClockSkew)
            else if k.stamp < now - 300000 then OnlyAnswers(s, t, w, ExpiredKey)
            else exists swept: Table :: Swept(s.rows, swept, now) && Inserted(s, t, w, k, commitment, now, swept)
  {
    SweepExact(s.rows, now);
    var swept := SweepRows(s.rows, now);
    UnknownsCounted(swept, now);
    var t := Apply(s, Resume(w));
    if now - 300000 <= k.stamp <= now + 30000 { assert Inserted(s, t, w, k, commitment, now, swept); }
  }

  /** The recent unknown intents of a table. */
  function Unknowns(rows: Table, now: int): set<Key> {
    set k | k in rows && rows[k].state == Unknown && now - 604800000 <= rows[k].created
  }

  lemma UnknownsCounted(rows: Table, now: int)
    ensures RecentUnknowns(rows, now) == |Unknowns(rows, now)|
  {
    assert (set k | k in rows && rows[k].state == Unknown && rows[k].created >= now - SEVEN_DAYS) ==
           Unknowns(rows, now);
  }

  ghost predicate Inserted(s: Ledger, t: Ledger, w: nat, k: Key, commitment: nat, now: int, swept: Table) {
    if |Unknowns(swept, now)| >= 100 then t == s.(rows := swept, workers := s.workers[w := Done(UnknownCapacity)])
    else t == s.(rows := swept[k := Row(s.supply, commitment, Admitted, None, None, None, now, now, None)],
                 supply := s.supply + 1, workers := s.workers[w := Done(Accepted(s.supply))])
  }

  /** Does another intent of the endpoint dispatch? */
  ghost predicate EndpointBusy(rows: Table, endpoint: string) {
    exists k :: k in rows && rows[k].state == Dispatching && k.endpoint == endpoint
  }

  lemma BusyIsBusy(rows: Table, endpoint: string)
    ensures Busy(rows, endpoint) <==> EndpointBusy(rows, endpoint)
  {
  }

  /** A dispatch up to the hash of its token. */
  lemma DispatchBegins(s: Ledger, w: nat, k: Key, generation: int)
    requires w !in s.workers
    ensures var t := Apply(s, CallDispatch(w, k, generation));
            if k !in s.rows then OnlyAnswers(s, t, w, NotFound)
            else if s.rows[k].state != Admitted then OnlyAnswers(s, t, w, AlreadyDispatched)
            else if generation < 1 then OnlyAnswers(s, t, w, InvalidGeneration)
            else if EndpointBusy(s.rows, k.endpoint) then OnlyAnswers(s, t, w, IsBusy)
            else
              t == s.(supply := s.supply + 1,
                      workers := s.workers[w := DispatchWaits(k, generation, s.supply, s.clock)])
  {
    BusyIsBusy(s.rows, k.endpoint);
  }

  /** A dispatch behind the hash: the token goes out exactly if the row is admitted still and no other intent of the
    endpoint dispatches, and then the row has its hash. */
  lemma DispatchEnds(s: Ledger, w: nat, k: Key, generation: int, token: nat, now: int)
    requires Waits(s, w, DispatchWaits(k, generation, token, now))
    ensures var t := Apply(s, Resume(w));
            if k !in s.rows || s.rows[k].state != Admitted then OnlyAnswers(s, t, w, AlreadyDispatched)
            else if EndpointBusy(s.rows, k.endpoint) then OnlyAnswers(s, t, w, IsBusy)
            else
              var r := s.rows[k].(state := Dispatching, generation := Some(generation), hash := Some(Sha(token)),
                                  updated := now);
              t == s.(rows := s.rows[k := r], issued := s.issued + [Issue(w, k, token, generation)],
                      workers := s.workers[w := Done(Token(k, token))])
  {
    BusyIsBusy(s.rows, k.endpoint);
  }

  /** A receipt up to the hash of the token it names. */
  lemma FinalizeBegins(s: Ledger, w: nat, k: Key, token: nat, generation: int, result: State, tab: Option<int>)
    requires w !in s.workers
    ensures var t := Apply(s, CallFinalize(w, k, token, generation, result, tab));
            if k !in s.rows then OnlyAnswers(s, t, w, NotFound)
            else if s.rows[k].state !in {Dispatching, Unknown, OwnerResolved} ||
                    (s.rows[k].state == OwnerResolved && result == Unknown) then OnlyAnswers(s, t, w, NotDispatching)
            else if s.rows[k].generation != Some(generation) then OnlyAnswers(s, t, w, ReceiptMismatch)
            else t == s.(workers :=
                           s.workers[w := FinalizeWaits(k, token, s.rows[k].hash, generation, result, tab, s.clock)])
  {
  }

  /** A result that a receipt may have: an opened tab is named by a completed one. */
  predicate Acceptable(result: State, tab: Option<int>) {
    result in {Completed, Failed, Unknown} && (result == Completed ==> tab != None) && (tab.Some? ==> 0 <= tab.value)
  }

  /** A receipt behind the hash: of another token it is refused; else it is written to a row that still waits for one,
    and a row that does not is left as it is. */
  lemma FinalizeEnds(s: Ledger, w: nat, pc: Pc)
    requires pc.FinalizeWaits? && Waits(s, w, pc)
    ensures var t := Apply(s, Resume(w));
            if pc.hash != Some(Sha(pc.token)) then OnlyAnswers(s, t, w, ReceiptMismatch)
            else if !Acceptable(pc.result, pc.tab) then OnlyAnswers(s, t, w, InvalidArguments)
            else if pc.key !in s.rows then OnlyAnswers(s, t, w, NotDispatching)
            else if s.rows[pc.key].state in {Dispatching, Unknown, OwnerResolved} then
              t == s.(rows := s.rows[pc.key := s.rows[pc.key].(state := pc.result, updated := pc.now, tab := pc.tab)],
                      receipts := s.receipts + [Receipt(pc.key, pc.token, pc.generation, pc.result)],
                      workers := s.workers[w := Done(Stored(pc.result))])
            else
              var r := s.rows[pc.key];
              OnlyAnswers(s, t, w, if r.state == pc.result && r.updated == pc.now && r.tab == pc.tab
                                   then Stored(pc.result) else NotDispatching)
  {
  }

  // ---- two calls of one key ----

  /** Once an admission was accepted, and while its receipt is kept, every later admission of the key finds it: with
    the same command it is answered by the state of the receipt, with any other it is refused, and neither writes
    anything. */
  lemma RetryFindsItsReceipt(s: Ledger, w: nat, k: Key, commitment: nat, now: int, run: seq<Action>, v: nat, other: nat,
                             later: int)
    requires Inv(s) && Waits(s, w, AdmitWaits(k, commitment, now)) && Apply(s, Resume(w)).workers[w].Done?
    requires Apply(s, Resume(w)).workers[w].answer.Accepted?
    requires var t := Exec(Apply(s, Resume(w)), run);
             k in t.rows && Waits(t, v, AdmitWaits(k, other, later)) && Recent(t, later)
    ensures var accepted := Apply(s, Resume(w)); var t := Exec(accepted, run);
            && OnlyAnswers(t, Apply(t, Resume(v)), v, if other == commitment then Existing(t.rows[k].state)
                           else IntentConflict)
            && t.rows[k].operation == accepted.workers[w].answer.operation && t.rows[k].commitment == commitment
  {
    var accepted := Apply(s, Resume(w));
    StepOk(s, Resume(w));
    AcceptedIsStored(s, w, k, commitment, now);
    ReceiptsStay(accepted, run, k);
    AdmitExisting(Exec(accepted, run), v, k, other, later);
  }

  lemma AcceptedIsStored(s: Ledger, w: nat, k: Key, commitment: nat, now: int)
    requires Waits(s, w, AdmitWaits(k, commitment, now)) && Apply(s, Resume(w)).workers[w].Done?
    requires Apply(s, Resume(w)).workers[w].answer.Accepted?
    ensures var t := Apply(s, Resume(w));
            k in t.rows && t.rows[k].commitment == commitment && t.rows[k].operation == t.workers[w].answer.operation
  {
  }

  /** A token is good for one receipt of its own key: whatever happened since the dispatch, as long as the receipt is
    kept and has no final result, `finalize` with the token and the generation stores what it is told, and with any
    other token it stores nothing. */
  lemma TokenFinalizes(s: Ledger, w: nat, k: Key, generation: int, token: nat, now: int, run: seq<Action>, pc: Pc,
                       v: nat)
    requires Inv(s) && Waits(s, w, DispatchWaits(k, generation, token, now))
    requires Apply(s, Resume(w)).workers[w] == Done(Token(k, token))
    requires pc.FinalizeWaits? && pc.key == k && Acceptable(pc.result, pc.tab)
    requires var t := Exec(Apply(s, Resume(w)), run);
             k in t.rows && t.rows[k].state in {Dispatching, Unknown, OwnerResolved} && Waits(t, v, pc)
    ensures var t := Exec(Apply(s, Resume(w)), run); var u := Apply(t, Resume(v));
            if pc.token == token
            then u.workers[v] == Done(Stored(pc.result)) && u.rows[k].state == pc.result && u.rows[k].tab == pc.tab
            else OnlyAnswers(t, u, v, ReceiptMismatch)
  {
    var issued := Apply(s, Resume(w));
    StepOk(s, Resume(w));
    DispatchEnds(s, w, k, generation, token, now);
    RunOk(issued, run);
    var t := Exec(issued, run);
    assert WorkerOk(t, v, pc);
    FinalizeEnds(t, v, pc);
  }
}
