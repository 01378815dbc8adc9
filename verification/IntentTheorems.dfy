/** What the intent ledger promises, over every run of any number of concurrent callers. */
module IntentTheorems {
  import opened Common
  import opened IntentKeys
  import opened IntentLedger
  import opened IntentSafety

  /** A table as an earlier release may leave it: manual approvals that never had a token. */
  ghost predicate Opening(s: Ledger) {
    && s.workers == map[] && s.issued == [] && s.receipts == []
    && forall k :: k in s.rows ==>
         && s.rows[k].state in {PendingApproval, Denied} && s.rows[k].hash == None
         && k.stamp <= s.rows[k].created + HALF_MINUTE && s.rows[k].created <= s.rows[k].updated <= s.clock
  }

  function Empty(slack: nat): Ledger { Ledger(slack, 0, map[], map[], 0, [], []) }

  lemma OpeningOk(s: Ledger)
    requires Opening(s) && s.slack <= MAX_SLACK
    ensures Inv(s)
  {
  }

  // ---- at most once ----

  /** A token is handed out at most once per key, across concurrent dispatches, recreations and sweeps;
    and no two callers ever hold tokens of the same key. */
  lemma TokenOncePerKey(s: Ledger, run: seq<Action>)
    requires Opening(s) && s.slack <= MAX_SLACK
    ensures var t := Exec(s, run);
            && Distinct(t.issued)
            && forall v, w :: v in t.workers && w in t.workers && SameToken(t.workers[v], t.workers[w]) ==> v == w
  {
    OpeningOk(s);
    RunOk(s, run);
    var t := Exec(s, run);
    forall v, w | v in t.workers && w in t.workers && SameToken(t.workers[v], t.workers[w]) ensures v == w {
      assert WorkerOk(t, v, t.workers[v]) && WorkerOk(t, w, t.workers[w]);
    }
  }

  /** Both callers hold a token of the same key. */
  predicate SameToken(a: Pc, b: Pc) {
    a.Done? && a.answer.Token? && b.Done? && b.answer.Token? && a.answer.key == b.answer.key
  }

  /** Once a receipt is gone its key is shut: whatever happens next, an admission of it is refused as expired. */
  lemma GoneKeyStaysShut(s: Ledger, run: seq<Action>, k: Key, later: seq<Action>, w: nat, commitment: nat, now: int)
    requires Inv(s) && k in s.rows && k !in Exec(s, run).rows
    ensures var t := Exec(Exec(s, run), later);
            k !in t.rows && (Recent(t, now) ==> AdmitStep(t, w, k, commitment, now) == Go(t, w, Done(ExpiredKey)))
  {
    RunOk(s, run);
    RunOk(Exec(s, run), later);
  }

  lemma Extend(s: Ledger, run: seq<Action>, a: Action) returns (next: seq<Action>)
    ensures Exec(s, next) == Apply(Exec(s, run), a) && next == run + [a]
  {
    next := run + [a];
    assert next[..|next| - 1] == run;
  }

  // ---- how old a `now` may be, exactly ----

  lemma NoUnknowns(rows: Table, now: int)
    requires forall k :: k in rows ==> rows[k].state != Unknown
    ensures RecentUnknowns(rows, now) == 0
  {
    assert (set k | k in rows && rows[k].state == Unknown && rows[k].created >= now - SEVEN_DAYS) == {};
  }

  /** An admission that goes through. */
  lemma Admits(s0: Ledger, run: seq<Action>, w: nat, endpoint: string, intent: string, k: Key)
    returns (next: seq<Action>)
    requires ParseKey(endpoint, intent) == Some(k)
    requires var s := Exec(s0, run);
             && w !in s.workers && k !in s.rows && s.clock - FIVE_MINUTES <= k.stamp <= s.clock + HALF_MINUTE
             && forall l :: l in s.rows ==> s.rows[l].state != Unknown
    ensures var s := Exec(s0, run);
            Exec(s0, next) == Go(s, w, Done(Accepted(s.supply)))
              .(rows := SweepRows(s.rows,
                                  s.clock)[k := Row(s.supply, 7, Admitted, None, None, None, s.clock, s.clock, None)],
                supply := s.supply + 1)
  {
    var s := Exec(s0, run);
    next := Extend(s0, run, CallAdmit(w, endpoint, intent, true, 7, s.clock));
    next := Extend(s0, next, Resume(w));
    NoUnknowns(SweepRows(s.rows, s.clock), s.clock);
    assert AdmitStep(Go(s, w, AdmitWaits(k, 7, s.clock)), w, k, 7, s.clock) ==
      AdmitNew(s.(rows := SweepRows(s.rows, s.clock)), w, k, 7, s.clock);
  }

  const HOST := "00000000-0000-4000-8000-000000000000"

  /** The key in question is as early as it can be, half a minute before its admission is due; time starts at zero. */
  function Early(): Key { Key(HOST, HALF_MINUTE, TAIL) }

  function Later(): Key { Key(HOST, SEVEN_DAYS, TAIL) }

  function CompletedRow(): Row { Row(0, 7, Completed, Some(1), None, Some(Sha(1)), 0, 0, Some(0)) }

  function FirstCallers(): map<nat, Pc> {
    map[0 := Done(Accepted(0)), 1 := Done(Token(Early(), 1)), 2 := Done(Stored(Completed))]
  }

  function Waiter(): Pc { AdmitWaits(Early(), 7, FIVE_MINUTES + HALF_MINUTE) }

  lemma Dispatch(s0: Ledger, run: seq<Action>, w: nat, k: Key) returns (next: seq<Action>)
    requires var s := Exec(s0, run);
             w !in s.workers && k in s.rows && s.rows[k].state == Admitted && !Busy(s.rows, k.endpoint)
    ensures var s := Exec(s0, run);
            Exec(s0, next) == Go(Set(s, k, DispatchRow(s.rows[k], 1, s.supply, s.clock)), w, Done(Token(k, s.supply)))
                                .(supply := s.supply + 1, issued := s.issued + [Issue(w, k, s.supply, 1)])
  {
    var s := Exec(s0, run);
    next := Extend(s0, run, CallDispatch(w, k, 1));
    next := Extend(s0, next, Resume(w));
  }

  lemma FirstRow(slack: nat, early: string) returns (run: seq<Action>)
    requires ParseKey(HOST, early) == Some(Early())
    ensures Exec(Empty(slack), run) ==
            Ledger(slack, 0, map[Early() := Row(0, 7, Admitted, None, None, None, 0, 0, None)],
                                              map[0 := Done(Accepted(0))], 1, [], [])
  {
    run := Admits(Empty(slack), [], 0, HOST, early, Early());
  }

  lemma FirstToken(slack: nat, early: string) returns (run: seq<Action>)
    requires ParseKey(HOST, early) == Some(Early())
    ensures Exec(Empty(slack), run) ==
              Ledger(slack, 0, map[Early() := Row(0, 7, Dispatching, Some(1), None, Some(Sha(1)), 0, 0, None)],
                     map[0 := Done(Accepted(0)), 1 := Done(Token(Early(), 1))], 2, [Issue(1, Early(), 1, 1)], [])
  {
    run := FirstRow(slack, early);
    run := Dispatch(Empty(slack), run, 1, Early());
  }

  lemma FirstReceipt(slack: nat, early: string) returns (run: seq<Action>)
    requires ParseKey(HOST, early) == Some(Early())
    ensures Exec(Empty(slack), run) ==
            Ledger(slack, 0, map[Early() := CompletedRow()], FirstCallers(), 2, [Issue(1, Early(), 1, 1)],
                                              [Receipt(Early(), 1, 1, Completed)])
  {
    run := FirstToken(slack, early);
    run := Extend(Empty(slack), run, CallFinalize(2, Early(), 1, 1, Completed, Some(0)));
    run := Extend(Empty(slack), run, Resume(2));
  }

  /** An admission of the key begins at the last moment, and waits. */
  lemma Waiting(slack: nat, early: string) returns (run: seq<Action>)
    requires slack > MAX_SLACK && ParseKey(HOST, early) == Some(Early())
    ensures Exec(Empty(slack), run) ==
              Ledger(slack, SEVEN_DAYS + 1, map[Early() := CompletedRow()], FirstCallers()[3 := Waiter()], 2,
                     [Issue(1, Early(), 1, 1)],
                     [Receipt(Early(), 1, 1, Completed)])
  {
    run := FirstReceipt(slack, early);
    run := Extend(Empty(slack), run, Tick(FIVE_MINUTES + HALF_MINUTE));
    run := Extend(Empty(slack), run, CallAdmit(3, HOST, early, true, 7, FIVE_MINUTES + HALF_MINUTE));
    run := Extend(Empty(slack), run, Tick(MAX_SLACK + 1));
  }

  /** Seven days later the admission of another key sweeps the receipt. */
  lemma Swept(slack: nat, early: string, later: string) returns (run: seq<Action>)
    requires slack > MAX_SLACK && ParseKey(HOST, early) == Some(Early()) && ParseKey(HOST, later) == Some(Later())
    ensures var s := Exec(Empty(slack), run);
            && s.slack == slack && s.clock == SEVEN_DAYS + 1 && s.issued == [Issue(1, Early(), 1, 1)]
            && s.rows.Keys == {Later()} && s.rows[Later()].state == Admitted
            && s.workers == FirstCallers()[3 := Waiter()][4 := Done(Accepted(2))]
  {
    run := Waiting(slack, early);
    assert SweepRows(map[Early() := CompletedRow()], SEVEN_DAYS + 1) == map[];
    run := Admits(Empty(slack), run, 4, HOST, later, Later());
  }

  /** The waiting admission goes through, and the key gets a second token. */
  lemma SecondToken(slack: nat, early: string, later: string) returns (run: seq<Action>)
    requires slack > MAX_SLACK && ParseKey(HOST, early) == Some(Early()) && ParseKey(HOST, later) == Some(Later())
    ensures var s := Exec(Empty(slack), run); |s.issued| == 2 && s.issued[0].key == s.issued[1].key
  {
    var s := Empty(slack);
    run := Swept(slack, early, later);
    var before := Exec(s, run);
    run := Extend(s, run, Resume(3));
    NoUnknowns(SweepRows(before.rows, FIVE_MINUTES + HALF_MINUTE), FIVE_MINUTES + HALF_MINUTE);
    run := Dispatch(s, run, 5, Early());
  }

  /** Tokens are handed out at most once per key in every run exactly when no caller's `now` may be older than
    seven days less the five and a half minutes of a key's window. */
  lemma OncePerKeyExactly(slack: nat)
    ensures (forall run :: Distinct(Exec(Empty(slack), run).issued)) <==> slack <= MAX_SLACK
  {
    if slack <= MAX_SLACK {
      forall run ensures Distinct(Exec(Empty(slack), run).issued) { TokenOncePerKey(Empty(slack), run); }
    } else {
      KeyTextParses(HOST, HALF_MINUTE);
      KeyTextParses(HOST, SEVEN_DAYS);
      var run := SecondToken(slack, KeyText(HALF_MINUTE), KeyText(SEVEN_DAYS));
      assert !Distinct(Exec(Empty(slack), run).issued);
    }
  }

  // ---- truthful receipts ----

  /** A receipt without a token hash, and every expired, denied or still admitted one, is of a key that never had a
    token; a completed one was written by `finalize` with the key's one token and the generation of its dispatch. */
  lemma ReceiptsAreTruthful(s: Ledger, run: seq<Action>, k: Key)
    requires Opening(s) && s.slack <= MAX_SLACK && k in Exec(s, run).rows
    ensures var t := Exec(s, run); var r := t.rows[k];
            && (r.hash == None || r.state in {Expired, Denied, Admitted, PendingApproval} ==>
                  forall e :: e in t.issued ==> e.key != k)
            && (r.state == Completed ==>
                  exists e, f ::
                    && e in t.issued && f in t.receipts && e.key == k
                    && f == Receipt(k, e.token, e.generation, Completed)
                    && r.hash == Some(Sha(e.token)) && r.generation == Some(e.generation))
  {
    OpeningOk(s);
    RunOk(s, run);
    var t := Exec(s, run);
    var r := t.rows[k];
    assert RowOk(t, k, r);
    forall e | e in t.issued && e.key == k ensures r.hash == Some(Sha(e.token)) {
      var i :| 0 <= i < |t.issued| && t.issued[i] == e;
      assert IssueOk(t, t.issued[i]);
    }
    if r.state == Completed {
      var i :| 0 <= i < |t.issued| && IssuedFor(t.issued[i], k, r.hash, r.generation);
      var j :| 0 <= j < |t.receipts| && CompletedBy(t.receipts[j], k, r.hash, r.generation);
      assert t.issued[i] in t.issued && t.receipts[j] in t.receipts;
      assert t.receipts[j] == Receipt(k, t.issued[i].token, t.issued[i].generation, Completed);
    }
  }

  /** A terminal receipt does not change while it is kept; one that is unknown, or was resolved by its owner, is
    never dispatched again; and while a receipt is kept, a retry of its command finds the same operation. */
  lemma ReceiptsStay(s: Ledger, run: seq<Action>, k: Key)
    requires Inv(s) && k in s.rows
    ensures var t := Exec(s, run);
            && (k in t.rows && Terminal(s.rows[k].state) ==> t.rows[k] == s.rows[k])
            && (k in t.rows && s.rows[k].state in {Unknown, OwnerResolved} ==>
                  t.rows[k].state in {Unknown, OwnerResolved, Completed, Failed} && t.rows[k].hash == s.rows[k].hash)
            && (k in t.rows ==>
                  t.rows[k].operation == s.rows[k].operation && t.rows[k].commitment == s.rows[k].commitment)
            && (s.rows[k].state != Admitted ==> forall i :: |s.issued| <= i < |t.issued| ==> t.issued[i].key != k)
  {
    RunOk(s, run);
    forall i | |s.issued| <= i < |Exec(s, run).issued| && s.rows[k].state != Admitted
      ensures Exec(s, run).issued[i].key != k {
      assert CanIssue(s, Exec(s, run).issued[i].key);
    }
  }

  /** Only a receipt that has been terminal for seven days is ever deleted: never an unknown one. */
  lemma OnlyOldReceiptsAreDeleted(s: Ledger, a: Action, k: Key)
    requires Inv(s) && k in s.rows && k !in Apply(s, a).rows
    ensures Terminal(s.rows[k].state) && s.rows[k].updated < s.clock - SEVEN_DAYS
  {
    assert a.Resume? && a.worker in s.workers && s.workers[a.worker].AdmitWaits?;
  }

  lemma OneDispatchingPerEndpoint(s: Ledger, run: seq<Action>, k: Key, l: Key)
    requires Opening(s) && s.slack <= MAX_SLACK
    requires var t := Exec(s, run);
             k in t.rows && l in t.rows && t.rows[k].state == Dispatching && t.rows[l].state == Dispatching
    ensures k.endpoint == l.endpoint ==> k == l
  {
    OpeningOk(s);
    RunOk(s, run);
  }

  /** A recreation of the object leaves no intent dispatching and no proposal pending; an intent that was being
    dispatched is unknown, and in every future gets no token again. */
  lemma RecreationIsConservative(s: Ledger, later: seq<Action>, k: Key)
    requires Inv(s) && k in s.rows
    ensures var r := Apply(s, Recreate); var t := Exec(r, later);
            && k in r.rows && r.rows[k].state != Dispatching && r.rows[k].state != PendingApproval
            && (s.rows[k].state == Dispatching ==>
                  r.rows[k].state == Unknown && forall i :: |s.issued| <= i < |t.issued| ==> t.issued[i].key != k)
  {
    StepOk(s, Recreate);
    ReceiptsStay(Apply(s, Recreate), later, k);
  }
}
