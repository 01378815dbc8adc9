/** The ledger's methods as they are written, over the table they update in place.

  The ghost `log` records every step, and `Valid` says that the stored fields are what the state machine
  reaches by it. `Await` stands at every `await`: everyone else takes any number of steps.
*/
module IntentDesk {
  import opened Common
  import opened IntentKeys
  import opened IntentLedger
  import opened IntentSafety
  import opened IntentTheorems

  ghost predicate At(s: Ledger, w: nat, pc: Pc) { w in s.workers && s.workers[w] == pc }

  class IntentDesk {
    const slack: nat
    var rows: Table
    var clock: int
    var supply: nat
    ghost var log: seq<Action>

    constructor (slack: nat)
      ensures Valid() && this.slack == slack && rows == map[] && log == []
    {
      this.slack, rows, clock, supply, log := slack, map[], 0, 0, [];
    }

    ghost function Now(): Ledger reads this { Exec(Empty(slack), log) }

    ghost predicate Valid() reads this {
      var s := Now(); s.slack == slack && s.rows == rows && s.clock == clock && s.supply == supply
    }

    /** Everyone but caller `w` runs for a while, and time passes; `now` does not get too old. */
    method Await(ghost w: nat, ghost pc: Pc, now: int)
      requires Valid() && At(Now(), w, pc) && Recent(Now(), now)
      modifies this
      ensures Valid() && At(Now(), w, pc) && old(log) <= log && Recent(Now(), now)
    {
    }

    /** Records the step that the code has just taken on the fields. */
    ghost method Record(a: Action, before: Ledger)
      requires before == Now() && Apply(before, a).slack == slack && Apply(before, a).rows == rows
      requires Apply(before, a).clock == clock && Apply(before, a).supply == supply
      modifies this`log
      ensures Valid() && log == old(log) + [a] && Now() == Apply(before, a)
    {
      log := Extend(Empty(slack), log, a);
    }

    // ---- whole-table statements ----

    /** `sweep`: old terminal receipts go, old admissions expire. */
    method Sweep(now: int)
      modifies this`rows
      ensures rows == SweepRows(old(rows), now)
    {
      rows := map k | k in rows && !(Terminal(rows[k].state) && rows[k].updated < now - SEVEN_DAYS) :: rows[k];
      rows := map k | k in rows ::
        if rows[k].state == Admitted && rows[k].created < now - FIVE_MINUTES
        then rows[k].(state := Expired, updated := now) else rows[k];
    }

    /** The two statements of `reconcile`. */
    method SettleStale(now: int)
      modifies this`rows
      ensures rows == ReconcileRows(old(rows), now)
    {
      rows := map k | k in rows ::
        if rows[k].state == Dispatching && rows[k].updated < now - EIGHT_SECONDS
        then rows[k].(state := Unknown, updated := now) else rows[k];
      rows := map k | k in rows ::
        if rows[k].state == Admitted && rows[k].generation.Some? && rows[k].updated < now - EIGHT_SECONDS
        then rows[k].(state := Failed, updated := now) else rows[k];
    }

    method ReconcileTable(now: int)
      requires Valid() && Recent(Now(), now)
      modifies this
      ensures Valid() && log == old(log) + [Reconcile(now)] && clock == old(clock)
      ensures forall k :: k in rows && rows[k].state == Dispatching ==> rows[k].updated >= now - EIGHT_SECONDS
    {
      ghost var before := Now();
      SettleStale(now);
      Record(Reconcile(now), before);
    }

    /** `recoverUnknown` and `retirePendingApprovals`. */
    method SettleAll(now: int)
      modifies this`rows
      ensures rows == RecoverRows(old(rows), now)
    {
      rows := map k | k in rows ::
          if rows[k].state == Dispatching then rows[k].(state := Unknown, updated := now) else rows[k];
      rows := map k | k in rows ::
        if rows[k].state == PendingApproval then rows[k].(state := Expired, updated := now) else rows[k];
    }

    /** What the constructor runs over a table that an earlier object left behind. */
    method Recover()
      requires Valid()
      modifies this
      ensures Valid() && log == old(log) + [Recreate]
      ensures forall k :: k in rows ==> rows[k].state != Dispatching && rows[k].state != PendingApproval
    {
      ghost var before := Now();
      SettleAll(clock);
      Record(Recreate, before);
    }

    // ---- one row at a time ----

    /** True just when the row is bound to this generation and revision at this very time: by this call, or by one
      like it. */
    method BindPrepare(k: Key, generation: int, revision: int) returns (ok: bool)
      requires Valid()
      modifies this
      ensures Valid() && old(log) <= log && clock == old(clock)
      ensures ok <==> generation >= 1 && revision >= 0 && k in old(rows) && old(rows[k]).state == Admitted &&
                      (old(rows[k]).generation == None ||
                       (old(rows[k]).generation == Some(generation) && old(rows[k]).revision == Some(revision) &&
                        old(rows[k]).updated == clock))
      ensures ok ==>
                k in rows &&
                  rows[k] == old(rows[k]).(generation := Some(generation), revision := Some(revision), updated := clock)
    {
      if generation < 1 || revision < 0 { return false; }
      ghost var before := Now();
      if k in rows && rows[k].state == Admitted && rows[k].generation == None {
        rows := rows[k := rows[k].(generation := Some(generation), revision := Some(revision), updated := clock)];
      }
      Record(Bind(k, generation, revision), before);
      ok := k in rows && rows[k].state == Admitted && rows[k].generation == Some(generation) &&
            rows[k].revision == Some(revision) && rows[k].updated == clock;
    }

    method MatchesPrepare(k: Key, operation: nat, generation: int, revision: int) returns (ok: bool)
      requires Valid()
      ensures ok <==> k in rows && rows[k].state == Admitted && rows[k].operation == operation &&
                      rows[k].generation == Some(generation) && rows[k].revision == Some(revision) &&
                      clock - EIGHT_SECONDS <= rows[k].updated <= clock
    {
      if k !in rows { return false; }
      var row := rows[k];
      ok := row.state == Admitted && row.operation == operation && row.generation == Some(generation) &&
            row.revision == Some(revision) && row.updated <= clock && clock - row.updated <= EIGHT_SECONDS;
    }

    /** An admitted intent fails; any other is as it was. */
    method AbortIntent(k: Key) returns (answer: Answer)
      requires Valid()
      modifies this
      ensures Valid() && old(log) <= log && (answer == NotFound <==> k !in old(rows))
      ensures k in old(rows) ==> k in rows && answer == Existing(rows[k].state) && rows[k].state != Admitted
      ensures k in old(rows) && old(rows[k]).state != Admitted ==> rows == old(rows)
    {
      if k !in rows { return NotFound; }
      ghost var before := Now();
      if rows[k].state == Admitted { rows := rows[k := rows[k].(state := Failed, updated := clock)]; }
      Record(Abort(k), before);
      return Existing(rows[k].state);
    }

    /** A dispatching intent becomes unknown; any other is as it was. */
    method MarkIntentUnknown(k: Key) returns (answer: Answer)
      requires Valid()
      modifies this
      ensures Valid() && old(log) <= log && (answer == NotFound <==> k !in old(rows))
      ensures k in old(rows) ==> k in rows && answer == Existing(rows[k].state) && rows[k].state != Dispatching
      ensures k in old(rows) && old(rows[k]).state != Dispatching ==> rows == old(rows)
    {
      if k !in rows { return NotFound; }
      ghost var before := Now();
      if rows[k].state == Dispatching { rows := rows[k := rows[k].(state := Unknown, updated := clock)]; }
      Record(MarkUnknown(k), before);
      return Existing(rows[k].state);
    }

    method HasDispatching(endpoint: string) returns (busy: bool)
      ensures busy <==> Busy(rows, endpoint)
    {
      var keys := set k | k in rows && k.endpoint == endpoint && rows[k].state == Dispatching;
      busy := keys != {};
      assert forall k :: k in rows && k.endpoint == endpoint && rows[k].state == Dispatching ==> k in keys;
      assert busy ==> exists k :: k in keys;
    }

    // ---- admit ----

    /** The key has a receipt, of this command. */
    predicate HasReceipt(k: Key, commitment: nat) reads this { k in rows && rows[k].commitment == commitment }

    method AdmitIntent(ghost w: nat, endpoint: string, intent: string, valid: bool, commitment: nat, now: int)
      returns (answer: Answer)
      requires Valid() && Recent(Now(), now) && w !in Now().workers
      modifies this
      ensures Valid() && old(log) <= log && At(Now(), w, Done(answer))
      ensures answer == InvalidKey <==> ParseKey(endpoint, intent) == None
      ensures answer == InvalidArguments <==> ParseKey(endpoint, intent) != None && !valid
      ensures answer.Existing? ==> HasReceipt(ParseKey(endpoint, intent).value, commitment) &&
                                   answer.state == rows[ParseKey(endpoint, intent).value].state
      ensures answer == IntentConflict ==>
                var k := ParseKey(endpoint, intent).value; k in rows && rows[k].commitment != commitment
      ensures answer.Accepted? ==>
                var k := ParseKey(endpoint, intent).value;
                HasReceipt(k, commitment) && rows[k].operation == answer.operation
    {
      var key := ParseKey(endpoint, intent);
      ghost var pc := AdmitCall(key, valid, commitment, now);
      Record(CallAdmit(w, endpoint, intent, valid, commitment, now), Now());
      if key == None { return InvalidKey; }
      if !valid { return InvalidArguments; }
      Await(w, pc, now);
      answer := AdmitAfterHmac(w, key.value, commitment, now);
    }

    /** The code behind the HMAC: lookup, window, sweep, capacity, insertion. */
    method AdmitAfterHmac(ghost w: nat, k: Key, commitment: nat, now: int) returns (answer: Answer)
      requires Valid() && Recent(Now(), now) && At(Now(), w, AdmitWaits(k, commitment, now))
      modifies this
      ensures Valid() && old(log) <= log && At(Now(), w, Done(answer)) && answer != InvalidKey
      ensures answer != InvalidArguments
      ensures answer.Existing? <==> k in old(rows) && old(rows)[k].commitment == commitment
      ensures answer.Existing? ==> answer.state == old(rows)[k].state
      ensures answer == IntentConflict <==> k in old(rows) && old(rows)[k].commitment != commitment
      ensures answer == ClockSkew <==> k !in old(rows) && k.stamp > now + 30000
      ensures answer == ExpiredKey <==> k !in old(rows) && k.stamp < now - 300000
      ensures answer.Existing? || answer in {IntentConflict, ClockSkew, ExpiredKey} ==> rows == old(rows)
      ensures answer.Accepted? ==>
                k in rows && rows[k] == Row(answer.operation, commitment, Admitted, None, None, None, now, now, None)
    {
      ghost var before := Now();
      if k in rows { answer := if rows[k].commitment == commitment then Existing(rows[k].state) else IntentConflict; }
      else if k.stamp > now + HALF_MINUTE { answer := ClockSkew; }
      else if k.stamp < now - FIVE_MINUTES { answer := ExpiredKey; }
      else {
        Sweep(now);
        answer := InsertNew(k, commitment, now);
      }
      Record(Resume(w), before);
    }

    method InsertNew(k: Key, commitment: nat, now: int) returns (answer: Answer)
      modifies this`rows, this`supply
      ensures if RecentUnknowns(old(rows), now) >= MAX_UNKNOWN then answer == UnknownCapacity && rows == old(rows) &&
              supply == old(supply)
              else answer == Accepted(old(supply)) && supply == old(supply) + 1 &&
                   rows == old(rows)[k := Row(old(supply), commitment, Admitted, None, None, None, now, now, None)]
    {
      var unknowns := set l | l in rows && rows[l].state == Unknown && rows[l].created >= now - SEVEN_DAYS;
      if |unknowns| >= MAX_UNKNOWN { return UnknownCapacity; }
      rows := rows[k := Row(supply, commitment, Admitted, None, None, None, now, now, None)];
      answer := Accepted(supply);
      supply := supply + 1;
    }

    // ---- dispatch ----

    /** A token that goes out is the one and only of its key, and its row says `dispatching`. */
    method Dispatch(ghost w: nat, k: Key, generation: int) returns (answer: Answer)
      requires Valid() && w !in Now().workers && slack <= MAX_SLACK
      modifies this
      ensures Valid() && old(log) <= log && At(Now(), w, Done(answer))
      ensures answer.Token? ==>
                answer.key == k && k in rows && rows[k].state == Dispatching && rows[k].hash == Some(Sha(answer.token))
      ensures answer.Token? ==> forall e, f :: e in Now().issued && f in Now().issued && e.key == k && f.key == k ==>
                e == f
    {
      ghost var before := Now();
      if k !in rows { answer := NotFound; }
      else if rows[k].state != Admitted { answer := AlreadyDispatched; }
      else if generation < 1 { answer := InvalidGeneration; }
      else {
        var busy := HasDispatching(k.endpoint);
        if busy { answer := IsBusy; }
        else {
          answer := DispatchWith(w, k, generation);
          return;
        }
      }
      Record(CallDispatch(w, k, generation), before);
    }

    /** The rest of `dispatch`: hash a fresh token, write it under the one-dispatch index, read it back. */
    method DispatchWith(ghost w: nat, k: Key, generation: int) returns (answer: Answer)
      requires Valid() && w !in Now().workers && slack <= MAX_SLACK
      requires k in rows && rows[k].state == Admitted && generation >= 1 && !Busy(rows, k.endpoint)
      modifies this
      ensures Valid() && old(log) <= log && At(Now(), w, Done(answer))
      ensures answer.Token? ==>
                answer.key == k && k in rows && rows[k].state == Dispatching && rows[k].hash == Some(Sha(answer.token))
      ensures answer.Token? ==> forall e, f :: e in Now().issued && f in Now().issued && e.key == k && f.key == k ==>
                e == f
    {
      ghost var before := Now();
      var now, token := clock, supply;
      supply := supply + 1;
      Record(CallDispatch(w, k, generation), before);
      Await(w, DispatchWaits(k, generation, token, now), now);
      answer := CommitDispatch(w, k, generation, token, now);
      TokenOncePerKey(Empty(slack), log);
    }

    method CommitDispatch(ghost w: nat, k: Key, generation: int, token: nat, now: int) returns (answer: Answer)
      requires Valid() && At(Now(), w, DispatchWaits(k, generation, token, now))
      modifies this
      ensures Valid() && old(log) <= log && At(Now(), w, Done(answer))
      ensures answer.Token? ==>
                answer == Token(k, token) && k in rows && rows[k].state == Dispatching &&
                  rows[k].hash == Some(Sha(token))
    {
      ghost var before := Now();
      var busy := HasDispatching(k.endpoint);
      if k in rows && rows[k].state == Admitted {
        if busy { answer := IsBusy; }
        else {
          rows := rows[k := DispatchRow(rows[k], generation, token, now)];
          answer := Token(k, token);
        }
      } else { answer := AlreadyDispatched; }
      Record(Resume(w), before);
    }

    // ---- finalize ----

    method Finalize(ghost w: nat, k: Key, token: nat, generation: int, result: State, tab: Option<int>)
      returns (answer: Answer)
      requires Valid() && w !in Now().workers && slack <= MAX_SLACK
      modifies this
      ensures Valid() && old(log) <= log && At(Now(), w, Done(answer))
      ensures answer.Stored? ==>
                answer.result == result && k in rows && rows[k].state == result && rows[k].tab == tab &&
                                 rows[k].hash == Some(Sha(token)) && rows[k].generation == Some(generation)
    {
      ghost var before := Now();
      if k !in rows { answer := NotFound; }
      else {
        var row, now := rows[k], clock;
        if !(row.state == Dispatching || row.state == Unknown || (row.state == OwnerResolved && result != Unknown)) {
          answer := NotDispatching;
        } else if row.generation != Some(generation) { answer := ReceiptMismatch; }
        else {
          ghost var pc := FinalizeWaits(k, token, row.hash, generation, result, tab, now);
          Record(CallFinalize(w, k, token, generation, result, tab), before);
          Await(w, pc, now);
          answer := CommitReceipt(w, k, token, row.hash, generation, result, tab, now);
          return;
        }
      }
      Record(CallFinalize(w, k, token, generation, result, tab), before);
    }

    /** The code behind the hash of the token it was given. */
    method CommitReceipt(ghost w: nat, k: Key, token: nat, hash: Option<Digest>, generation: int, result: State,
                         tab: Option<int>, now: int)
      returns (answer: Answer)
      requires Valid() && At(Now(), w, FinalizeWaits(k, token, hash, generation, result, tab, now)) &&
               slack <= MAX_SLACK
      modifies this
      ensures Valid() && old(log) <= log && At(Now(), w, Done(answer))
      ensures answer.Stored? ==>
                answer.result == result && k in rows && rows[k].state == result && rows[k].tab == tab &&
                                 rows[k].hash == Some(Sha(token)) && rows[k].generation == Some(generation)
    {
      ghost var before := Now();
      if Some(Sha(token)) != hash { answer := ReceiptMismatch; }
      else if !ValidReceipt(result, tab) { answer := InvalidArguments; }
      else if k !in rows { answer := NotDispatching; }
      else {
        if Finalizable(rows[k].state) { rows := rows[k := rows[k].(state := result, updated := now, tab := tab)]; }
        var stored := rows[k];
        answer := if stored.state != result || stored.updated != now || stored.tab != tab
                  then NotDispatching else Stored(result);
        RunOk(Empty(slack), log);
        assert WorkerOk(before, w, before.workers[w]);
      }
      Record(Resume(w), before);
    }
  }
}
