/** The effective deadline of one remembered endpoint, over runs of everything that touches it.

  `seen` is the last observation that the endpoint's current socket carries with it. An endpoint's effective
  deadline is the one stored, or the one that a reconciliation would store if its socket turned out to be gone.
  A local-stop is two events: it reads the row that its request's reconciliation leaves, hashes the credential, and
  then writes by the id of the row alone; `reading` holds the requests in between. An alarm that cannot be set is the
  event followed by `Revoke`.
*/
module DeadlineRuns {
  import opened Common
  import opened EndpointState
  import opened EndpointDeadlines

  /** What a local-stop read, and the time of its request. */
  datatype Read = Read(row: Row, now: int)

  datatype Endpoint = Endpoint(row: Row, seen: Option<int>, reading: map<nat, Read>)

  const LIVE_STALE := 60000

  datatype Event =
    | Reconcile(now: int)
    | Stop(now: int)
    | BeginLocalStop(request: nat, now: int)
    | EndLocalStop(request: nat)
    | Close(observed: int)
    | Lost
    | Revoke
    // these renew the grant, or are observations of a live socket
    | Activate(now: int)
    | Authenticate(now: int)
    | Ping(now: int)

  /** The socket counts as live. */
  predicate Live(e: Endpoint, now: int) { e.row.state == Enabled && e.seen.Some? && now - e.seen.value < LIVE_STALE }

  /** The change that `Reconciled` describes, for the one endpoint. */
  function ReconcileRow(e: Endpoint, now: int, idleMs: nat): Row {
    var r := e.row;
    if r.state == Revoked then r
    else if Persisted(r).Some? && Persisted(r).value <= now then Expired(r)
    else if Live(e, now) then r.(offline := None)
    else
      var deadline := if Persisted(r).Some? then Persisted(r).value else NewDeadline(r, now, idleMs);
      if deadline <= now then Expired(WithDeadline(r, Some(deadline))) else WithDeadline(r, Some(deadline))
  }

  lemma ReconcileRowIsReconciled(e: Endpoint, now: int, idleMs: nat, live: Row -> bool)
    requires e.row.permanent && (e.row.state == Enabled ==> live(e.row) == Live(e, now))
    ensures Reconciled(e.row, ReconcileRow(e, now, idleMs), now, idleMs, live)
  {
  }

  /** `webSocketClose` of the endpoint's current socket. */
  function CloseRow(e: Endpoint, observed: int, idleMs: nat): Row {
    if e.seen.Some? then ClosedRow(e.row, e.seen.value, observed, idleMs) else e.row
  }

  /** A request runs a reconciliation first, and its Stop works on the row that it leaves. */
  function StopEvent(e: Endpoint, now: int, idleMs: nat): Row {
    var r := ReconcileRow(e, now, idleMs);
    if r.state == Enabled then StopRow(r, StopDeadline(r, now, idleMs)) else r
  }

  /** `/local-stop` up to the hash: nothing is read of a row that is stopped or revoked. */
  function BeginEvent(e: Endpoint, request: nat, now: int, idleMs: nat): Endpoint {
    var r := ReconcileRow(e, now, idleMs);
    if request in e.reading then e
    else if r.state == Enabled then e.(row := r, reading := e.reading[request := Read(r, now)])
    else e.(row := r)
  }

  /** `/local-stop` behind the hash. */
  function EndEvent(e: Endpoint, request: nat, idleMs: nat): Endpoint {
    if request !in e.reading then e
    else
      var read := e.reading[request];
      Endpoint(StopRow(e.row, StopDeadline(read.row, read.now, idleMs)), None, e.reading - {request})
  }

  function Apply(e: Endpoint, ev: Event, idleMs: nat): Endpoint {
    match ev
    case Reconcile(now) => e.(row := ReconcileRow(e, now, idleMs))
    case Stop(now) => e.(row := StopEvent(e, now, idleMs), seen := None)
    case BeginLocalStop(request, now) => BeginEvent(e, request, now, idleMs)
    case EndLocalStop(request) => EndEvent(e, request, idleMs)
    case Close(observed) => e.(row := CloseRow(e, observed, idleMs), seen := None)
    case Lost => e.(seen := None)
    case Revoke => e.(row := Expired(e.row))
    case Activate(now) =>
      if e.row.state == Revoked then e
      else e.(row := e.row.(state := Enabled, revision := e.row.revision + 1, idle := None,
                            offline := Some(now + idleMs)))
    case Authenticate(now) =>
      if e.row.state != Enabled then e
      else e.(row := e.row.(generation := e.row.generation + 1, idle := None, offline := None, lastSeen := Some(now)),
              seen := Some(now))
    case Ping(now) => if e.row.state == Enabled && e.seen.Some? then e.(seen := Some(now)) else e
  }

  function Exec(e: Endpoint, run: seq<Event>, idleMs: nat): Endpoint {
    if run == [] then e else Apply(Exec(e, run[..|run| - 1], idleMs), run[|run| - 1], idleMs)
  }

  /** The events that may move the deadline forward: a renewal, or one that finds the socket live. */
  predicate Renews(e: Endpoint, ev: Event) {
    match ev
    case Reconcile(now) => Live(e, now)
    case Stop(now) => Live(e, now)
    case BeginLocalStop(_, now) => Live(e, now)
    case Activate(_) => true
    case Authenticate(_) => true
    case Ping(_) => true
    case _ => false
  }

  /** The time of the request, or of the observation, is `start` or later. */
  predicate From(ev: Event, start: int) {
    match ev
    case Reconcile(now) => now >= start
    case Stop(now) => now >= start
    case BeginLocalStop(_, now) => now >= start
    case Close(observed) => observed >= start
    case _ => true
  }

  /** A stored row carries what its deadline is counted from. */
  predicate RowOk(r: Row) {
    && r.permanent
    && (r.state == Stopped ==> r.idle.Some?)
    && (r.state == Enabled ==> r.idle == None && (r.offline.Some? || r.lastSeen.Some?))
  }

  ghost predicate Inv(e: Endpoint) {
    && RowOk(e.row) && (e.seen.Some? ==> e.row.lastSeen.Some?)
    && forall w :: w in e.reading ==> RowOk(e.reading[w].row) && e.reading[w].row.state == Enabled
  }

  /** Nothing authorizes a revoked endpoint; any other runs out at its effective deadline. */
  function Effective(e: Endpoint, idleMs: nat): Option<int>
    requires RowOk(e.row) && (e.seen.Some? ==> e.row.lastSeen.Some?)
  {
    var r := e.row;
    match r.state
    case Revoked => None
    case Stopped => r.idle
    case Enabled =>
      if r.offline.Some? then r.offline
      else Some((if e.seen.Some? then Max(e.seen.value, r.lastSeen.value) else r.lastSeen.value) + idleMs)
  }

  predicate NoLater(a: Option<int>, b: Option<int>) { a == None || (b.Some? && a.value <= b.value) }

  lemma StepKeepsInv(e: Endpoint, ev: Event, idleMs: nat)
    requires Inv(e)
    ensures Inv(Apply(e, ev, idleMs))
  {
  }

  lemma {:induction false} RunKeepsInv(e: Endpoint, run: seq<Event>, idleMs: nat)
    requires Inv(e)
    ensures Inv(Exec(e, run, idleMs))
  {
    if run != [] {
      RunKeepsInv(e, run[..|run| - 1], idleMs);
      StepKeepsInv(Exec(e, run[..|run| - 1], idleMs), run[|run| - 1], idleMs);
    }
  }

  // ---- a local-stop across its hash, exactly ----

  /** The deadline that the row holds the endpoint to, live socket or not. */
  function Stored(r: Row, idleMs: nat): int
    requires RowOk(r) && r.state != Revoked
  {
    if r.state == Stopped then r.idle.value else if r.offline.Some? then r.offline.value else r.lastSeen.value + idleMs
  }

  /** What a local-stop of time `now` may read, when no request that overlaps its hash is older than `start`: a row
    with an offline deadline that the oldest of those requests could not shorten, unless none of them is older than
    the local-stop itself; and a row without one only if its last observation is no older than the local-stop, nor any
    of those requests. */
  predicate SafeToStop(read: Row, now: int, start: int, idleMs: nat) {
    if read.offline.Some? then now <= start || read.offline.value <= start + idleMs
    else read.lastSeen.Some? && now <= read.lastSeen.value && now <= start
  }

  /** The endpoint is not held to less than `bound`, and no local-stop under way will hold it to less. */
  ghost predicate HeldTo(e: Endpoint, bound: int, idleMs: nat)
    requires Inv(e)
  {
    && (e.row.state != Revoked ==> Stored(e.row, idleMs) >= bound)
    && forall w :: w in e.reading ==> StopDeadline(e.reading[w].row, e.reading[w].now, idleMs) >= bound
  }

  lemma StepHolds(e: Endpoint, ev: Event, bound: int, start: int, idleMs: nat)
    requires Inv(e) && HeldTo(e, bound, idleMs) && bound <= start + idleMs && From(ev, start) && !Renews(e, ev)
    ensures Inv(Apply(e, ev, idleMs)) && HeldTo(Apply(e, ev, idleMs), bound, idleMs)
  {
    StepKeepsInv(e, ev, idleMs);
  }

  /** Runs during the hash of the local-stop `w`: nothing renews the grant, `w` itself waits, and no request is older
    than `start`. */
  ghost predicate DuringHash(e: Endpoint, w: nat, run: seq<Event>, start: int, idleMs: nat) {
    run == [] ||
    (var before := run[..|run| - 1]; var ev := run[|run| - 1];
     DuringHash(e, w, before, start, idleMs) && !Renews(Exec(e, before, idleMs), ev) && From(ev, start) &&
       ev != EndLocalStop(w))
  }

  lemma {:induction false} HashHolds(e: Endpoint, w: nat, run: seq<Event>, bound: int, start: int, idleMs: nat)
    requires Inv(e) && HeldTo(e, bound, idleMs) && bound <= start + idleMs && w in e.reading &&
             DuringHash(e, w, run, start, idleMs)
    ensures var t := Exec(e, run, idleMs);
            Inv(t) && HeldTo(t, bound, idleMs) && w in t.reading && t.reading[w] == e.reading[w]
  {
    if run != [] {
      HashHolds(e, w, run[..|run| - 1], bound, start, idleMs);
      StepHolds(Exec(e, run[..|run| - 1], idleMs), run[|run| - 1], bound, start, idleMs);
    }
  }

  /** The local-stop `w` ends here, on an endpoint that is not revoked, and moves its effective deadline forward. */
  ghost predicate Lengthens(e: Endpoint, w: nat, idleMs: nat)
    requires Inv(e)
  {
    StepKeepsInv(e, EndLocalStop(w), idleMs);
    e.row.state != Revoked && !NoLater(Effective(Apply(e, EndLocalStop(w), idleMs), idleMs), Effective(e, idleMs))
  }

  /** Just behind the reading of the row. */
  ghost predicate JustRead(e: Endpoint, w: nat, now: int) {
    Inv(e) && e.row.state == Enabled && w in e.reading && e.reading[w] == Read(e.row, now)
  }

  lemma BeginningReads(e: Endpoint, w: nat, now: int, idleMs: nat)
    requires Inv(e) && w !in e.reading && ReconcileRow(e, now, idleMs).state == Enabled
    ensures JustRead(Apply(e, BeginLocalStop(w, now), idleMs), w, now)
  {
  }

  /** No local-stop that is already waiting will store an earlier deadline than `w`. */
  ghost predicate NotUndercut(e: Endpoint, w: nat, idleMs: nat)
    requires w in e.reading
  {
    forall u :: u in e.reading ==>
      StopDeadline(e.reading[w].row, e.reading[w].now, idleMs) <=
        StopDeadline(e.reading[u].row, e.reading[u].now, idleMs)
  }

  ghost predicate NeverLengthens(e: Endpoint, w: nat, start: int, idleMs: nat)
    requires Inv(e)
  {
    forall run :: DuringHash(e, w, run, start, idleMs) ==>
        Inv(Exec(e, run, idleMs)) && !Lengthens(Exec(e, run, idleMs), w, idleMs)
  }

  lemma SafeNeverLengthens(e: Endpoint, w: nat, now: int, start: int, idleMs: nat)
    requires JustRead(e, w, now) && SafeToStop(e.row, now, start, idleMs) && NotUndercut(e, w, idleMs)
    ensures NeverLengthens(e, w, start, idleMs)
  {
    var bound := StopDeadline(e.row, now, idleMs);
    forall run | DuringHash(e, w, run, start, idleMs)
      ensures Inv(Exec(e, run, idleMs)) && !Lengthens(Exec(e, run, idleMs), w, idleMs)
    { HashHolds(e, w, run, bound, start, idleMs); }
  }

  lemma Extend(e: Endpoint, run: seq<Event>, ev: Event, idleMs: nat) returns (next: seq<Event>)
    ensures next == run + [ev] && Exec(e, next, idleMs) == Apply(Exec(e, run, idleMs), ev, idleMs)
    ensures forall w, start :: DuringHash(e, w, next, start, idleMs) <==>
              DuringHash(e, w, run, start, idleMs) && !Renews(Exec(e, run, idleMs), ev) && From(ev, start) &&
                ev != EndLocalStop(w)
  {
    next := run + [ev];
    assert next[..|next| - 1] == run;
  }

  /** One way to fail: another local-stop ends first, with an earlier deadline. */
  lemma UndercutLengthens(e: Endpoint, w: nat, u: nat, now: int, start: int, idleMs: nat) returns (run: seq<Event>)
    requires JustRead(e, w, now) && u in e.reading
    requires StopDeadline(e.row, now, idleMs) > StopDeadline(e.reading[u].row, e.reading[u].now, idleMs)
    ensures DuringHash(e, w, run, start, idleMs) && Inv(Exec(e, run, idleMs)) &&
            Lengthens(Exec(e, run, idleMs), w, idleMs)
  {
    StepKeepsInv(e, EndLocalStop(u), idleMs);
    run := Extend(e, [], EndLocalStop(u), idleMs);
  }

  /** Another: the socket is lost, and what the row holds the endpoint to is earlier. */
  lemma LossLengthens(e: Endpoint, w: nat, now: int, start: int, idleMs: nat) returns (run: seq<Event>)
    requires JustRead(e, w, now) && e.row.offline == None && e.row.lastSeen.value < now
    ensures DuringHash(e, w, run, start, idleMs) && Inv(Exec(e, run, idleMs)) &&
            Lengthens(Exec(e, run, idleMs), w, idleMs)
  {
    StepKeepsInv(e, Lost, idleMs);
    run := Extend(e, [], Lost, idleMs);
  }

  /** The third: a Stop of the oldest overlapping request comes in between. */
  lemma OlderStopLengthens(e: Endpoint, w: nat, now: int, start: int, idleMs: nat) returns (run: seq<Event>)
    requires JustRead(e, w, now) && start < now
    requires if e.row.offline.Some? then start + idleMs < e.row.offline.value else now <= e.row.lastSeen.value
    ensures DuringHash(e, w, run, start, idleMs) && Inv(Exec(e, run, idleMs)) &&
            Lengthens(Exec(e, run, idleMs), w, idleMs)
  {
    var lost := Apply(e, Lost, idleMs);
    StepKeepsInv(e, Lost, idleMs);
    StepKeepsInv(lost, Stop(start), idleMs);
    run := Extend(e, [], Lost, idleMs);
    run := Extend(e, run, Stop(start), idleMs);
    assert Exec(e, run, idleMs) == Apply(lost, Stop(start), idleMs);
  }

  lemma UnsafeLengthens(e: Endpoint, w: nat, now: int, start: int, idleMs: nat) returns (run: seq<Event>)
    requires JustRead(e, w, now) && !(SafeToStop(e.row, now, start, idleMs) && NotUndercut(e, w, idleMs))
    ensures DuringHash(e, w, run, start, idleMs) && Inv(Exec(e, run, idleMs)) &&
            Lengthens(Exec(e, run, idleMs), w, idleMs)
  {
    if SafeToStop(e.row, now, start, idleMs) {
      var u :| u in e.reading && StopDeadline(e.reading[w].row, e.reading[w].now, idleMs) >
                                 StopDeadline(e.reading[u].row, e.reading[u].now, idleMs);
      run := UndercutLengthens(e, w, u, now, start, idleMs);
    } else if e.row.offline == None && e.row.lastSeen.value < now {
      run := LossLengthens(e, w, now, start, idleMs);
    } else {
      run := OlderStopLengthens(e, w, now, start, idleMs);
    }
  }

  /** No run during the hash, other Stops and local-stops included, makes a local-stop move the effective deadline
    forward, if and only if the row it read was safe to stop and no local-stop before it undercuts it. */
  lemma LocalStopExact(e: Endpoint, w: nat, now: int, start: int, idleMs: nat)
    requires JustRead(e, w, now)
    ensures NeverLengthens(e, w, start, idleMs) <==> SafeToStop(e.row, now, start, idleMs) && NotUndercut(e, w, idleMs)
  {
    if SafeToStop(e.row, now, start, idleMs) && NotUndercut(e, w, idleMs) {
      SafeNeverLengthens(e, w, now, start, idleMs);
    }
    else { var run := UnsafeLengthens(e, w, now, start, idleMs); }
  }

  /** Every endpoint with a live socket shows it: the socket closes during the hash, its deadline counts from the last
    heartbeat, and the local-stop counts anew. */
  lemma LocalStopLengthens(e: Endpoint, w: nat, now: int, seen: int, idleMs: nat)
    requires JustRead(e, w, now) && e.row.offline == None && e.seen == Some(seen) && e.row.lastSeen.value <= seen < now
    ensures var closed := Apply(e, Close(now), idleMs); var stopped := Apply(closed, EndLocalStop(w), idleMs);
            && Inv(closed) && Effective(closed, idleMs) == Some(seen + idleMs)
            && Inv(stopped) && Effective(stopped, idleMs) == Some(now + idleMs)
  {
    StepKeepsInv(e, Close(now), idleMs);
    StepKeepsInv(Apply(e, Close(now), idleMs), EndLocalStop(w), idleMs);
  }

  // ---- whole runs ----

  /** A local-stop reads only what is safe to stop, and ends only on an endpoint that is not revoked. */
  predicate StopsSafely(e: Endpoint, ev: Event, start: int, idleMs: nat) {
    match ev
    case BeginLocalStop(w, now) =>
      var r := ReconcileRow(e, now, idleMs);
      w in e.reading || r.state != Enabled || SafeToStop(r, now, start, idleMs)
    case EndLocalStop(w) => w in e.reading ==> e.row.state != Revoked
    case _ => true
  }

  ghost predicate NoRenewal(e: Endpoint, run: seq<Event>, start: int, idleMs: nat) {
    run == [] ||
    (var before := run[..|run| - 1]; var ev := run[|run| - 1]; var m := Exec(e, before, idleMs);
     NoRenewal(e, before, start, idleMs) && !Renews(m, ev) && From(ev, start) && StopsSafely(m, ev, start, idleMs))
  }

  /** What the local-stops under way will store is one date, and no later than the one that holds. */
  ghost predicate Agreed(e: Endpoint, start: int, idleMs: nat)
    requires Inv(e)
  {
    forall w :: w in e.reading && e.row.state != Revoked ==>
      && (e.row.state == Enabled ==> e.row.offline.Some?)
      && StopDeadline(e.reading[w].row, e.reading[w].now, idleMs) == Min(start + idleMs, Stored(e.row, idleMs))
  }

  lemma StepNeverLengthens(e: Endpoint, ev: Event, start: int, idleMs: nat)
    requires Inv(e) && Agreed(e, start, idleMs) && !Renews(e, ev) && From(ev, start) &&
             StopsSafely(e, ev, start, idleMs)
    ensures var t := Apply(e, ev, idleMs);
            Inv(t) && Agreed(t, start, idleMs) && NoLater(Effective(t, idleMs), Effective(e, idleMs))
  {
    StepKeepsInv(e, ev, idleMs);
  }

  /** Without an activation, an authentication or a sight of its live socket an endpoint's effective deadline never
    moves forward, whatever reconciles, stops, closes or loses it, and in whatever order; local-stops that wait for
    their hash included, if what they read was safe to stop. */
  lemma {:induction false} DeadlineNeverGrows(e: Endpoint, run: seq<Event>, start: int, idleMs: nat)
    requires Inv(e) && e.reading == map[] && NoRenewal(e, run, start, idleMs)
    ensures var t := Exec(e, run, idleMs);
            Inv(t) && Agreed(t, start, idleMs) && NoLater(Effective(t, idleMs), Effective(e, idleMs))
  {
    if run != [] {
      DeadlineNeverGrows(e, run[..|run| - 1], start, idleMs);
      StepNeverLengthens(Exec(e, run[..|run| - 1], idleMs), run[|run| - 1], start, idleMs);
    }
  }

  /** The first reconciliation after that deadline revokes it. */
  lemma OverdueIsRevoked(e: Endpoint, run: seq<Event>, start: int, now: int, idleMs: nat)
    requires Inv(e) && e.reading == map[] && NoRenewal(e, run, start, idleMs)
    requires Effective(e, idleMs).Some? && Effective(e, idleMs).value <= now
    requires !Live(Exec(e, run, idleMs), now)
    ensures Apply(Exec(e, run, idleMs), Reconcile(now), idleMs).row.state == Revoked
  {
    DeadlineNeverGrows(e, run, start, idleMs);
    OverdueNow(Exec(e, run, idleMs), now, idleMs);
  }

  lemma OverdueNow(e: Endpoint, now: int, idleMs: nat)
    requires Inv(e) && NoLater(Effective(e, idleMs), Some(now)) && !Live(e, now)
    ensures Apply(e, Reconcile(now), idleMs).row.state == Revoked
  {
  }

  // ---- revocation ----

  ghost predicate RevokedForGood(e: Endpoint, idleMs: nat) { forall run :: Exec(e, run, idleMs).row.state == Revoked }

  lemma {:induction false} RevokedStays(e: Endpoint, run: seq<Event>, idleMs: nat)
    requires e.row.state == Revoked && e.reading == map[]
    ensures Exec(e, run, idleMs).row.state == Revoked && Exec(e, run, idleMs).reading == map[]
  {
    if run != [] { RevokedStays(e, run[..|run| - 1], idleMs); }
  }

  /** A revoked endpoint stays revoked in every future if and only if no local-stop still waits for its hash: the
    write of one that read the row before would bring it back as stopped. */
  lemma RevokedExactly(e: Endpoint, idleMs: nat)
    requires e.row.state == Revoked
    ensures RevokedForGood(e, idleMs) <==> e.reading == map[]
  {
    if e.reading == map[] {
      forall run ensures Exec(e, run, idleMs).row.state == Revoked { RevokedStays(e, run, idleMs); }
    } else {
      var w :| w in e.reading;
      var run := Extend(e, [], EndLocalStop(w), idleMs);
      assert Exec(e, run, idleMs).row.state == Stopped;
    }
  }
}
