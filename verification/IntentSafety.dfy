/** What every step of the intent ledger keeps, when no caller holds its `now` too long. */
module IntentSafety {
  import opened Common
  import opened IntentKeys
  import opened IntentLedger

  /** How old a caller's `now` may be: a receipt lives for seven days, a key for five and a half minutes. */
  const MAX_SLACK := SEVEN_DAYS - FIVE_MINUTES - HALF_MINUTE

  /** No admission that is still possible, now or later, accepts this key. */
  predicate Closed(s: Ledger, k: Key) { k.stamp < s.clock - s.slack - FIVE_MINUTES }

  ghost predicate RowOk(s: Ledger, k: Key, r: Row) {
    && k.stamp <= r.created + HALF_MINUTE
    && r.created <= r.updated <= s.clock
    && (r.state in {Admitted, PendingApproval, Denied, Expired} ==> r.hash == None)
    && (r.state in {Dispatching, Unknown, OwnerResolved, Completed} ==> r.hash.Some?)
    && (r.hash.Some? ==>
          r.generation.Some? && exists i :: 0 <= i < |s.issued| && IssuedFor(s.issued[i], k, r.hash, r.generation))
    && (r.state == Completed ==>
          exists i :: 0 <= i < |s.receipts| && CompletedBy(s.receipts[i], k, r.hash, r.generation))
  }

  predicate IssuedFor(e: Issue, k: Key, hash: Option<Digest>, generation: Option<int>) {
    e.key == k && hash == Some(Sha(e.token)) && generation == Some(e.generation)
  }

  predicate CompletedBy(e: Receipt, k: Key, hash: Option<Digest>, generation: Option<int>) {
    e.key == k && e.result == Completed && hash == Some(Sha(e.token)) && generation == Some(e.generation)
  }

  ghost predicate IssueOk(s: Ledger, e: Issue) {
    if e.key in s.rows then s.rows[e.key].hash == Some(Sha(e.token)) else Closed(s, e.key)
  }

  ghost predicate Distinct(issued: seq<Issue>) {
    forall i, j :: 0 <= i < j < |issued| ==> issued[i].key != issued[j].key
  }

  predicate BothDispatch(k: Key, r: Row, l: Key, q: Row) {
    k.endpoint == l.endpoint && r.state == Dispatching && q.state == Dispatching
  }

  ghost predicate OneDispatching(rows: Table) {
    forall k, l :: k in rows && l in rows && BothDispatch(k, rows[k], l, rows[l]) ==> k == l
  }

  ghost predicate WorkerOk(s: Ledger, w: nat, pc: Pc) {
    match pc
    case AdmitWaits(k, _, now) => now <= s.clock
    case DispatchWaits(k, _, _, now) => now <= s.clock && if k in s.rows then s.rows[k].created <= now else Closed(s, k)
    case FinalizeWaits(k, _, hash, generation, _, _, now) =>
      now <= s.clock && hash.Some? &&
      if k in s.rows then s.rows[k].created <= now && s.rows[k].hash == hash && s.rows[k].generation == Some(generation)
      else Closed(s, k)
    case Done(Token(k, token)) =>
      exists i :: 0 <= i < |s.issued| && s.issued[i].worker == w && s.issued[i].key == k && s.issued[i].token == token
    case Done(_) => true
  }

  ghost predicate Inv(s: Ledger) {
    && s.slack <= MAX_SLACK
    && (forall k :: k in s.rows ==> RowOk(s, k, s.rows[k]))
    && (forall i :: 0 <= i < |s.issued| ==> IssueOk(s, s.issued[i]))
    && Distinct(s.issued)
    && OneDispatching(s.rows)
    && (forall w :: w in s.workers ==> WorkerOk(s, w, s.workers[w]))
  }

  // ---- what a later state keeps of an earlier one ----

  /** A row goes on: its identity stays, a token hash, once there, stays with its generation, and a terminal row
    stays. */
  predicate Goes(r: Row, t: Row) {
    && t.operation == r.operation && t.commitment == r.commitment && t.created == r.created
    && (r.hash.Some? ==> t.hash == r.hash && t.generation == r.generation)
    && (Terminal(r.state) ==> t == r)
    && (r.state in {Unknown, OwnerResolved} ==> t.state in {Unknown, OwnerResolved, Completed, Failed})
    && (t.state == Admitted ==> r.state == Admitted)
    && (r.state != Admitted ==> t.hash == r.hash)
  }

  /** A key that is gone never comes back, and only a row in state `admitted` ever gets a token. */
  ghost predicate Evolves(s: Ledger, t: Ledger) {
    && t.slack == s.slack && s.clock <= t.clock && s.issued <= t.issued && s.receipts <= t.receipts
    && (forall k :: k in s.rows ==> if k in t.rows then Goes(s.rows[k], t.rows[k]) else Closed(t, k))
    && (forall k :: k in t.rows && k !in s.rows ==> !Closed(s, k))
    && (forall i :: |s.issued| <= i < |t.issued| ==> CanIssue(s, t.issued[i].key))
  }

  ghost predicate CanIssue(s: Ledger, k: Key) {
    if k in s.rows then s.rows[k].state == Admitted else !Closed(s, k)
  }

  lemma EvolvesTransitive(s: Ledger, m: Ledger, t: Ledger)
    requires Evolves(s, m) && Evolves(m, t)
    ensures Evolves(s, t)
  {
    forall k | k in s.rows ensures if k in t.rows then Goes(s.rows[k], t.rows[k]) else Closed(t, k) {
      if k in m.rows && k in t.rows { assert Goes(s.rows[k], m.rows[k]) && Goes(m.rows[k], t.rows[k]); }
    }
    forall i | |s.issued| <= i < |t.issued| ensures CanIssue(s, t.issued[i].key) {
      var k := t.issued[i].key;
      if i < |m.issued| { assert t.issued[i] == m.issued[i]; } else { assert CanIssue(m, k); }
    }
  }

  lemma IssueStays(s: Ledger, t: Ledger, e: Issue)
    requires Evolves(s, t) && IssueOk(s, e)
    ensures IssueOk(t, e)
  {
  }

  lemma WorkerStays(s: Ledger, t: Ledger, w: nat, pc: Pc)
    requires Evolves(s, t) && WorkerOk(s, w, pc)
    ensures WorkerOk(t, w, pc)
  {
    if pc.Done? && pc.answer.Token? {
      var i :| 0 <= i < |s.issued| && s.issued[i].worker == w && s.issued[i].key == pc.answer.key &&
          s.issued[i].token == pc.answer.token;
      assert t.issued[i] == s.issued[i];
    }
  }

  lemma RowOkStays(s: Ledger, t: Ledger, k: Key, r: Row)
    requires RowOk(s, k, r) && s.clock <= t.clock && s.issued <= t.issued && s.receipts <= t.receipts
    ensures RowOk(t, k, r)
  {
    if r.hash.Some? {
      var i :| 0 <= i < |s.issued| && IssuedFor(s.issued[i], k, r.hash, r.generation);
      assert t.issued[i] == s.issued[i];
    }
    if r.state == Completed {
      var i :| 0 <= i < |s.receipts| && CompletedBy(s.receipts[i], k, r.hash, r.generation);
      assert t.receipts[i] == s.receipts[i];
    }
  }

  /** A step that issues nothing keeps the invariant when it keeps its rows, and the worker it moves. */
  lemma StepKeeps(s: Ledger, t: Ledger, w: nat)
    requires Inv(s) && Evolves(s, t) && t.issued == s.issued
    requires forall k :: k in t.rows ==> RowOk(t, k, t.rows[k])
    requires forall k :: k in t.rows && t.rows[k].state == Dispatching ==> k in s.rows && s.rows[k].state == Dispatching
    requires forall v :: v in t.workers && v != w ==> v in s.workers && t.workers[v] == s.workers[v]
    requires w in t.workers && !(w in s.workers && t.workers[w] == s.workers[w]) ==> WorkerOk(t, w, t.workers[w])
    ensures Inv(t)
  {
    forall i | 0 <= i < |t.issued| ensures IssueOk(t, t.issued[i]) { IssueStays(s, t, s.issued[i]); }
    forall v | v in t.workers ensures WorkerOk(t, v, t.workers[v]) {
      if v in s.workers && t.workers[v] == s.workers[v] { WorkerStays(s, t, v, s.workers[v]); }
    }
  }

  // ---- whole-table statements ----

  lemma SweepOk(s: Ledger, now: int, k: Key)
    requires Inv(s) && Recent(s, now) && k in s.rows
    ensures var t := SweepRows(s.rows, now);
            if k in t then RowOk(s, k, t[k]) && Goes(s.rows[k], t[k]) else Closed(s, k) && Terminal(s.rows[k].state)
  {
    assert RowOk(s, k, s.rows[k]);
  }

  lemma SweepKeeps(s: Ledger, now: int)
    requires Inv(s) && Recent(s, now)
    ensures var t := s.(rows := SweepRows(s.rows, now)); Inv(t) && Evolves(s, t)
  {
    var t := s.(rows := SweepRows(s.rows, now));
    forall k | k in s.rows
      ensures if k in t.rows then RowOk(t, k, t.rows[k]) && Goes(s.rows[k], t.rows[k]) else Closed(t, k) {
      SweepOk(s, now, k);
      if k in t.rows { RowOkStays(s, t, k, t.rows[k]); }
    }
    StepKeeps(s, t, 0);
  }

  lemma ReconcileKeeps(s: Ledger, now: int)
    requires Inv(s) && Recent(s, now)
    ensures var t := s.(rows := ReconcileRows(s.rows, now)); Inv(t) && Evolves(s, t)
  {
    var t := s.(rows := ReconcileRows(s.rows, now));
    forall k | k in s.rows ensures RowOk(t, k, t.rows[k]) && Goes(s.rows[k], t.rows[k]) {
      ReconcileOk(s, now, k, s.rows[k]);
    }
    StepKeeps(s, t, 0);
  }

  lemma ReconcileOk(s: Ledger, now: int, k: Key, r: Row)
    requires Recent(s, now) && RowOk(s, k, r)
    ensures var n := ReconcileRow(r, now);
            RowOk(s, k, n) && Goes(r, n) && (n.state == Dispatching ==> r.state == Dispatching)
  {
  }

  lemma RecreateKeeps(s: Ledger)
    requires Inv(s)
    ensures Inv(Apply(s, Recreate)) && Evolves(s, Apply(s, Recreate))
  {
    var t := Apply(s, Recreate);
    forall k | k in s.rows ensures RowOk(t, k, t.rows[k]) && Goes(s.rows[k], t.rows[k]) {
      assert RowOk(s, k, s.rows[k]);
    }
    StepKeeps(s, t, 0);
  }

  // ---- single rows ----

  predicate UpdatesRow(a: Action) { a.Bind? || a.Abort? || a.MarkUnknown? || a.OwnerReports? }

  /** One row goes on, and nothing is issued. */
  lemma SetKeeps(s: Ledger, k: Key, r: Row)
    requires Inv(s) && k in s.rows && Goes(s.rows[k], r) && RowOk(s, k, r)
    requires r.state == Dispatching ==> s.rows[k].state == Dispatching
    ensures Inv(Set(s, k, r)) && Evolves(s, Set(s, k, r))
  {
    var t := Set(s, k, r);
    assert RowOk(t, k, r);
    forall l | l in t.rows && l != k ensures RowOk(t, l, t.rows[l]) { RowOkStays(s, t, l, s.rows[l]); }
    StepKeeps(s, t, 0);
  }

  function UpdatedRow(s: Ledger, a: Action): Row
    requires UpdatesRow(a) && a.key in s.rows
  {
    var r := s.rows[a.key];
    match a
    case Bind(_, generation, revision) => BindRow(r, generation, revision, s.clock)
    case Abort(_) => AbortRow(r, s.clock)
    case MarkUnknown(_) => MarkUnknownRow(r, s.clock)
    case OwnerReports(_) => OwnerReportRow(r)
  }

  lemma RowUpdateOk(s: Ledger, a: Action)
    requires UpdatesRow(a) && a.key in s.rows && RowOk(s, a.key, s.rows[a.key])
    ensures RowOk(s, a.key, UpdatedRow(s, a)) && Goes(s.rows[a.key], UpdatedRow(s, a))
    ensures UpdatedRow(s, a).state == Dispatching ==> s.rows[a.key].state == Dispatching
  {
  }

  lemma RowUpdateKeeps(s: Ledger, a: Action)
    requires Inv(s) && UpdatesRow(a)
    ensures Inv(Apply(s, a)) && Evolves(s, Apply(s, a))
  {
    if Apply(s, a) != s {
      RowUpdateOk(s, a);
      SetKeeps(s, a.key, UpdatedRow(s, a));
    }
  }

  lemma TickKeeps(s: Ledger, ms: nat)
    requires Inv(s)
    ensures Inv(Apply(s, Tick(ms))) && Evolves(s, Apply(s, Tick(ms)))
  {
    var t := Apply(s, Tick(ms));
    forall k | k in t.rows ensures RowOk(t, k, t.rows[k]) { RowOkStays(s, t, k, s.rows[k]); }
    StepKeeps(s, t, 0);
  }

  // ---- callers ----

  /** Steps that change nothing but one caller. */
  lemma MoveKeeps(s: Ledger, w: nat, pc: Pc)
    requires Inv(s) && WorkerOk(s, w, pc)
    ensures Inv(Go(s, w, pc)) && Evolves(s, Go(s, w, pc))
  {
    var t := Go(s, w, pc);
    forall k | k in t.rows ensures RowOk(t, k, t.rows[k]) { RowOkStays(s, t, k, s.rows[k]); }
    WorkerStays(s, t, w, pc);
    StepKeeps(s, t, w);
  }

  lemma SupplyKeeps(s: Ledger, supply: nat)
    requires Inv(s)
    ensures Inv(s.(supply := supply)) && Evolves(s, s.(supply := supply))
  {
    var t := s.(supply := supply);
    forall k | k in t.rows ensures RowOk(t, k, t.rows[k]) { RowOkStays(s, t, k, s.rows[k]); }
    StepKeeps(s, t, 0);
  }

  /** A new row: its key lies in the window, so it is no key that was closed. */
  lemma InsertKeeps(s: Ledger, t: Ledger, k: Key, w: nat, answer: Answer)
    requires Inv(s) && k !in s.rows && !Closed(s, k) && w in t.workers && !answer.Token?
    requires k in t.rows && t.rows[k].state == Admitted && t.rows[k].hash == None && RowOk(s, k, t.rows[k])
    requires t == Go(Set(s, k, t.rows[k]), w, Done(answer)).(supply := t.supply)
    ensures Inv(t) && Evolves(s, t)
  {
    forall l | l in t.rows ensures RowOk(t, l, t.rows[l]) { RowOkStays(s, t, l, t.rows[l]); }
    StepKeeps(s, t, w);
  }

  lemma AdmitNewKeeps(s: Ledger, w: nat, k: Key, commitment: nat, now: int)
    requires Inv(s) && Recent(s, now) && k !in s.rows && now - FIVE_MINUTES <= k.stamp <= now + HALF_MINUTE
    ensures var t := AdmitNew(s, w, k, commitment, now); Inv(t) && Evolves(s, t)
  {
    if RecentUnknowns(s.rows, now) >= MAX_UNKNOWN { MoveKeeps(s, w, Done(UnknownCapacity)); }
    else { InsertKeeps(s, AdmitNew(s, w, k, commitment, now), k, w, Accepted(s.supply)); }
  }

  lemma AdmitKeeps(s: Ledger, w: nat, k: Key, commitment: nat, now: int)
    requires Inv(s) && Recent(s, now)
    ensures var t := AdmitStep(s, w, k, commitment, now); Inv(t) && Evolves(s, t)
  {
    if k in s.rows { MoveKeeps(s, w, Done(AnswerExisting(s.rows[k], commitment))); }
    else if k.stamp > now + HALF_MINUTE { MoveKeeps(s, w, Done(ClockSkew)); }
    else if k.stamp < now - FIVE_MINUTES { MoveKeeps(s, w, Done(ExpiredKey)); }
    else {
      var swept := s.(rows := SweepRows(s.rows, now));
      SweepKeeps(s, now);
      AdmitNewKeeps(swept, w, k, commitment, now);
      EvolvesTransitive(s, swept, AdmitStep(s, w, k, commitment, now));
    }
  }

  lemma DispatchCallKeeps(s: Ledger, w: nat, k: Key, generation: int)
    requires Inv(s)
    ensures var t := DispatchCall(s, w, k, generation); Inv(t) && Evolves(s, t)
  {
    var t := DispatchCall(s, w, k, generation);
    SupplyKeeps(s, t.supply);
    var m := s.(supply := t.supply);
    if k in s.rows { assert RowOk(s, k, s.rows[k]); }
    MoveKeeps(m, w, t.workers[w]);
    EvolvesTransitive(s, m, t);
  }

  lemma FinalizeCallKeeps(s: Ledger, w: nat, k: Key, token: nat, generation: int, result: State, tab: Option<int>)
    requires Inv(s)
    ensures var t := FinalizeCall(s, w, k, token, generation, result, tab); Inv(t) && Evolves(s, t)
  {
    FinalizeCallOk(s, w, k, token, generation, result, tab);
    MoveKeeps(s, w, FinalizeCall(s, w, k, token, generation, result, tab).workers[w]);
  }

  lemma FinalizeCallOk(s: Ledger, w: nat, k: Key, token: nat, generation: int, result: State, tab: Option<int>)
    requires k in s.rows ==> RowOk(s, k, s.rows[k])
    ensures var t := FinalizeCall(s, w, k, token, generation, result, tab);
            t == Go(s, w, t.workers[w]) && WorkerOk(s, w, t.workers[w])
  {
    var pc := FinalizeCall(s, w, k, token, generation, result, tab).workers[w];
    assert pc.Done? ==> !pc.answer.Token?;
  }

  /** The token is handed out: the row had not left `admitted`, so the key had none before. */
  lemma IssueKeeps(s: Ledger, k: Key, e: Issue, now: int)
    requires Inv(s) && k in s.rows && s.rows[k].state == Admitted && !Busy(s.rows, k.endpoint) && e.key == k
    requires s.rows[k].created <= now <= s.clock
    ensures var t := Set(s, k, DispatchRow(s.rows[k], e.generation, e.token, now)).(issued := s.issued + [e]);
            Inv(t) && Evolves(s, t)
  {
    var t := Set(s, k, DispatchRow(s.rows[k], e.generation, e.token, now)).(issued := s.issued + [e]);
    assert RowOk(s, k, s.rows[k]);
    assert t.issued[|s.issued|] == e && IssuedFor(e, k, t.rows[k].hash, t.rows[k].generation);
    assert RowOk(t, k, t.rows[k]);
    assert CanIssue(s, k);
    assert Evolves(s, t);
    IssueKeepsRest(s, t, k);
  }

  lemma IssueKeepsRest(s: Ledger, t: Ledger, k: Key)
    requires Inv(s) && Evolves(s, t) && k in s.rows && s.rows[k].state == Admitted && !Busy(s.rows, k.endpoint)
    requires t.workers == s.workers && |t.issued| == |s.issued| + 1 && t.issued[|s.issued|].key == k
    requires k in t.rows && t.rows == s.rows[k := t.rows[k]] && RowOk(t, k, t.rows[k]) &&
             IssueOk(t, t.issued[|s.issued|])
    ensures Inv(t)
  {
    assert RowOk(s, k, s.rows[k]);
    forall l | l in t.rows ensures RowOk(t, l, t.rows[l]) { if l != k { RowOkStays(s, t, l, s.rows[l]); } }
    forall i | 0 <= i < |s.issued| ensures IssueOk(t, t.issued[i]) && t.issued[i].key != k {
      assert t.issued[i] == s.issued[i] && IssueOk(s, s.issued[i]);
      IssueStays(s, t, s.issued[i]);
    }
    assert OneDispatching(t.rows) by {
      forall l | l in s.rows && l.endpoint == k.endpoint ensures s.rows[l].state != Dispatching {}
    }
    forall v | v in t.workers ensures WorkerOk(t, v, t.workers[v]) { WorkerStays(s, t, v, s.workers[v]); }
  }

  lemma DispatchStepKeeps(s: Ledger, w: nat, k: Key, generation: int, token: nat, now: int)
    requires Inv(s) && WorkerOk(s, w, DispatchWaits(k, generation, token, now))
    ensures var t := DispatchStep(s, w, k, generation, token, now); Inv(t) && Evolves(s, t)
  {
    var t := DispatchStep(s, w, k, generation, token, now);
    if k in s.rows && s.rows[k].state == Admitted && !Busy(s.rows, k.endpoint) {
      var e := Issue(w, k, token, generation);
      IssueKeeps(s, k, e, now);
      var m := Set(s, k, DispatchRow(s.rows[k], generation, token, now)).(issued := s.issued + [e]);
      assert m.issued[|s.issued|] == e;
      MoveKeeps(m, w, Done(Token(k, token)));
      EvolvesTransitive(s, m, t);
    } else {
      MoveKeeps(s, w, t.workers[w]);
    }
  }

  lemma ReceiptKeeps(s: Ledger, e: Receipt)
    requires Inv(s)
    ensures var t := s.(receipts := s.receipts + [e]); Inv(t) && Evolves(s, t)
  {
    var t := s.(receipts := s.receipts + [e]);
    forall k | k in t.rows ensures RowOk(t, k, t.rows[k]) { RowOkStays(s, t, k, s.rows[k]); }
    StepKeeps(s, t, 0);
  }

  lemma FinalizeRowOk(s: Ledger, w: nat, pc: Pc)
    requires pc.FinalizeWaits? && WorkerOk(s, w, pc) && pc.key in s.rows && RowOk(s, pc.key, s.rows[pc.key])
    requires Some(Sha(pc.token)) == pc.hash && ReceiptState(pc.result) && Finalizable(s.rows[pc.key].state)
    ensures var r := s.rows[pc.key];
            var next := FinalizeRow(r, pc.result, pc.tab, pc.now);
            var t := s.(receipts := s.receipts + [Receipt(pc.key, pc.token, pc.generation, pc.result)]);
            Goes(r, next) && RowOk(t, pc.key, next) && next.state != Dispatching
  {
    var t := s.(receipts := s.receipts + [Receipt(pc.key, pc.token, pc.generation, pc.result)]);
    RowOkStays(s, t, pc.key, s.rows[pc.key]);
    assert t.receipts[|s.receipts|] == Receipt(pc.key, pc.token, pc.generation, pc.result);
    assert pc.result == Completed ==>
             CompletedBy(t.receipts[|s.receipts|], pc.key, s.rows[pc.key].hash, s.rows[pc.key].generation);
  }

  lemma FinalizeStepKeeps(s: Ledger, w: nat, pc: Pc)
    requires Inv(s) && pc.FinalizeWaits? && WorkerOk(s, w, pc)
    ensures var t := FinalizeStep(s, w, pc); Inv(t) && Evolves(s, t)
  {
    var t := FinalizeStep(s, w, pc);
    if t.receipts == s.receipts { MoveKeeps(s, w, t.workers[w]); }
    else {
      var e := Receipt(pc.key, pc.token, pc.generation, pc.result);
      var m := s.(receipts := s.receipts + [e]);
      ReceiptKeeps(s, e);
      FinalizeRowOk(s, w, pc);
      var n := Set(m, pc.key, FinalizeRow(s.rows[pc.key], pc.result, pc.tab, pc.now));
      SetKeeps(m, pc.key, n.rows[pc.key]);
      EvolvesTransitive(s, m, n);
      MoveKeeps(n, w, t.workers[w]);
      EvolvesTransitive(s, n, t);
    }
  }

  lemma StepOk(s: Ledger, a: Action)
    requires Inv(s)
    ensures Inv(Apply(s, a)) && Evolves(s, Apply(s, a))
  {
    match a
    case Tick(ms) => TickKeeps(s, ms);
    case CallAdmit(w, endpoint, intent, valid, commitment, now) =>
      if Apply(s, a) != s { MoveKeeps(s, w, Apply(s, a).workers[w]); }
    case CallDispatch(w, k, generation) => DispatchCallKeeps(s, w, k, generation);
    case CallFinalize(w, k, token, generation, result, tab) =>
      FinalizeCallKeeps(s, w, k, token, generation, result, tab);
    case Resume(w) =>
      if w in s.workers {
        match s.workers[w]
        case AdmitWaits(k, commitment, now) => if Recent(s, now) { AdmitKeeps(s, w, k, commitment, now); }
        case DispatchWaits(k, generation, token, now) => DispatchStepKeeps(s, w, k, generation, token, now);
        case FinalizeWaits(_, _, _, _, _, _, _) => FinalizeStepKeeps(s, w, s.workers[w]);
        case Done(_) =>
      }
    case Reconcile(now) => if Recent(s, now) { ReconcileKeeps(s, now); }
    case Recreate => RecreateKeeps(s);
    case _ => RowUpdateKeeps(s, a);
  }

  lemma {:induction false} RunOk(s: Ledger, run: seq<Action>)
    requires Inv(s)
    ensures Inv(Exec(s, run)) && Evolves(s, Exec(s, run))
  {
    if run != [] {
      var m := Exec(s, run[..|run| - 1]);
      RunOk(s, run[..|run| - 1]);
      StepOk(m, run[|run| - 1]);
      EvolvesTransitive(s, m, Exec(s, run));
    }
  }
}
