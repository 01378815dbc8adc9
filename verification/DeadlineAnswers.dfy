/** What each event does to the row of a remembered endpoint, told by its dates. */
module DeadlineAnswers {
  import opened Common
  import opened EndpointState
  import opened EndpointDeadlines
  import opened DeadlineRuns

  // ---- rows ----

  /** The date that decides about a row: the idle one when it is stopped, else the offline one. */
  function DateOf(r: Row): Option<int> { match r.state case Stopped => r.idle case _ => r.offline }

  predicate Over(date: Option<int>, now: int) { date.Some? && now >= date.value }

  function Ended(r: Row): Row { r.(state := Revoked, revision := r.revision + 1) }

  /** The date of a row that has none: one window from its last observation while it is enabled, else from now. */
  function FirstDate(r: Row, now: int, idleMs: nat): int {
    match (r.state, r.lastSeen)
    case (Enabled, Some(seen)) => seen + idleMs
    case _ => now + idleMs
  }

  function Dated(r: Row, date: int): Row {
    match r.state case Stopped => r.(idle := Some(date)) case _ => r.(offline := Some(date))
  }

  /** What a reconciliation makes of a row: temporary and revoked rows stay, a date that is over ends the row before its
    socket is looked at, a live socket clears the offline date, and every other row has a date, which may be over. */
  function Settled(r: Row, now: int, idleMs: nat, online: bool): Row {
    if !r.permanent || r.state == Revoked then r
    else if Over(DateOf(r), now) then Ended(r)
    else if r.state == Enabled && online then r.(offline := None)
    else if DateOf(r).Some? then r
    else if now >= FirstDate(r, now, idleMs) then Ended(Dated(r, FirstDate(r, now, idleMs)))
    else Dated(r, FirstDate(r, now, idleMs))
  }

  lemma ReconciledExact(r: Row, t: Row, now: int, idleMs: nat, live: Row -> bool)
    ensures Reconciled(r, t, now, idleMs, live) <==> t == Settled(r, now, idleMs, live(r))
  {
    assert r.(idle := r.idle) == r && r.(offline := r.offline) == r;
  }

  /** A Stop dates the row to the earliest of its two dates and one window from the request. */
  lemma StopDeadlineExact(r: Row, now: int, idleMs: nat)
    ensures var d := StopDeadline(r, now, idleMs);
            && d <= now + idleMs && (r.idle.Some? ==> d <= r.idle.value) && (r.offline.Some? ==> d <= r.offline.value)
            && (d == now + idleMs || r.idle == Some(d) || r.offline == Some(d))
  {
  }

  lemma StopRowExact(r: Row, date: int)
    ensures StopRow(r, date) ==
            Row(r.id, r.permanent, Stopped, r.generation, r.revision + 1, Some(date), None, r.lastSeen)
  {
  }

  /** A close dates an enabled row that has no date: one window from the later of the two last observations, though no
    later than the close; and what was observed last is stored. */
  lemma ClosedRowExact(r: Row, seen: int, observed: int, idleMs: nat)
    ensures var last := if r.lastSeen.Some? && r.lastSeen.value > seen then r.lastSeen.value else seen;
            ClosedRow(r, seen, observed, idleMs) ==
            if r.state == Enabled && r.offline == None
            then r.(offline := Some((if observed <= last then observed else last) + idleMs),
                    lastSeen := Some(if observed <= last then last else observed))
            else r
  {
  }

  /** An alarm is set, unless one is pending that is no later. */
  lemma EarlierExact(alarm: Option<int>, clock: int, deadline: int)
    ensures Earlier(alarm, clock, deadline) ==
            if alarm.Some? && clock < alarm.value <= deadline then alarm else Some(deadline)
  {
  }

  /** A reconciled row is due at its date, and one with a live socket in a minute. */
  lemma DueExact(r: Row, now: int, live: Row -> bool)
    requires Watched(r, now, live)
    ensures if r.state == Enabled && live(r) then r.offline == None && Due(r, now, live) == now + 60000
            else DateOf(r) == Some(Due(r, now, live)) && now < Due(r, now, live)
  {
  }

  // ---- events ----

  /** A socket is live for a minute behind its last observation. */
  predicate Heard(e: Endpoint, now: int) { e.row.state == Enabled && e.seen.Some? && now < e.seen.value + 60000 }

  lemma ReconcileTells(e: Endpoint, now: int, idleMs: nat)
    requires e.row.permanent
    ensures Apply(e, Reconcile(now), idleMs) == e.(row := Settled(e.row, now, idleMs, Heard(e, now)))
  {
    ReconcileRowIsReconciled(e, now, idleMs, _ => Heard(e, now));
    ReconciledExact(e.row, ReconcileRow(e, now, idleMs), now, idleMs, _ => Heard(e, now));
  }

  /** A Stop works on the reconciled row, and closes the socket. */
  lemma StopTells(e: Endpoint, now: int, idleMs: nat)
    requires e.row.permanent
    ensures var r := Settled(e.row, now, idleMs, Heard(e, now));
            Apply(e, Stop(now), idleMs) ==
            e.(seen := None, row := if r.state == Enabled then StopRow(r, StopDeadline(r, now, idleMs)) else r)
  {
    ReconcileTells(e, now, idleMs);
  }

  /** A local-stop reads an enabled row before its hash, and writes behind it by what it read. */
  lemma LocalStopTells(e: Endpoint, w: nat, now: int, idleMs: nat)
    requires e.row.permanent
    ensures var r := Settled(e.row, now, idleMs, Heard(e, now));
            && (w !in e.reading ==>
                  Apply(e, BeginLocalStop(w, now), idleMs) ==
                  if r.state == Enabled then e.(row := r, reading := e.reading[w := Read(r, now)]) else e.(row := r))
            && (w in e.reading ==>
                  Apply(e, EndLocalStop(w), idleMs) ==
                  Endpoint(StopRow(e.row, StopDeadline(e.reading[w].row, e.reading[w].now, idleMs)), None,
                           e.reading - {w}))
  {
    ReconcileTells(e, now, idleMs);
  }

  lemma SocketTells(e: Endpoint, observed: int, idleMs: nat)
    ensures Apply(e, Close(observed), idleMs) ==
            e.(seen := None, row := if e.seen.Some? then ClosedRow(e.row, e.seen.value, observed, idleMs) else e.row)
    ensures Apply(e, Lost, idleMs) == e.(seen := None) && Apply(e, Revoke, idleMs) == e.(row := Ended(e.row))
  {
  }

  /** An activation enables any row that is not revoked, for one window; an authentication clears the dates of an
    enabled one, and its heartbeats are observations. */
  lemma RenewalTells(e: Endpoint, now: int, idleMs: nat)
    ensures Apply(e, Activate(now), idleMs) ==
            if e.row.state in {Enabled, Stopped}
            then e.(row := e.row.(state := Enabled, revision := e.row.revision + 1, idle := None,
                                  offline := Some(now + idleMs)))
            else e
    ensures Apply(e, Authenticate(now), idleMs) ==
            if e.row.state == Enabled
            then e.(row := e.row.(generation := e.row.generation + 1, idle := None, offline := None,
                                  lastSeen := Some(now)),
                    seen := Some(now))
            else e
    ensures Apply(e, Ping(now), idleMs) ==
            if e.row.state == Enabled && e.seen != None then e.(seen := Some(now)) else e
  {
  }
}
