/** Idle and offline deadlines of remembered browser endpoints, and the alarm that enforces them. */
module EndpointDeadlines {
  import opened Common
  import opened EndpointState

  datatype Row = Row(
    id: string,
    permanent: bool,
    state: Authorization,
    generation: nat,
    revision: nat,
    idle: Option<int>,
    offline: Option<int>,
    lastSeen: Option<int>)

  const LIVE_AUDIT := 60000

  // ---- reconcileRemembered ----

  function Persisted(r: Row): Option<int> { if r.state == Stopped then r.idle else r.offline }

  function WithDeadline(r: Row, deadline: Option<int>): Row {
    if r.state == Stopped then r.(idle := deadline) else r.(offline := deadline)
  }

  function Expired(r: Row): Row { r.(state := Revoked, revision := r.revision + 1) }

  predicate Remembered(r: Row) { r.permanent && r.state != Revoked }

  predicate Online(r: Row, live: Row -> bool) { r.state == Enabled && live(r) }

  /** The deadline that a row gets when it has none: counted from the last observation, or from now. */
  function NewDeadline(r: Row, now: int, idleMs: nat): int {
    (if r.state == Enabled && r.lastSeen.Some? then r.lastSeen.value else now) + idleMs
  }

  /** What a watched row may be left as: online without an offline deadline, or with a deadline still to come. */
  predicate Watched(r: Row, now: int, live: Row -> bool) {
    if Online(r, live) then r.offline == None else Persisted(r).Some? && Persisted(r).value > now
  }

  /** When the row must be looked at again. */
  function Due(r: Row, now: int, live: Row -> bool): int
    requires Watched(r, now, live)
  {
    if Online(r, live) then now + LIVE_AUDIT else Persisted(r).value
  }

  /** `scheduleEarlierAlarm` */
  function Earlier(alarm: Option<int>, clock: int, deadline: int): (a: Option<int>)
    ensures a.Some? && a.value <= deadline && (alarm.Some? && clock < alarm.value ==> a.value <= alarm.value)
  {
    if alarm == None || alarm.value <= clock || alarm.value > deadline then Some(deadline) else alarm
  }

  predicate SameOwner(r: Row, t: Row) {
    t.id == r.id && t.permanent == r.permanent && t.generation == r.generation && t.lastSeen == r.lastSeen
  }

  /** How a reconciliation may change a row: a deadline that is over revokes whether or not its socket looks alive;
    otherwise an online row loses its offline deadline, and any other keeps its deadline or gets its first. */
  predicate Reconciled(r: Row, t: Row, now: int, idleMs: nat, live: Row -> bool) {
    if !Remembered(r) then t == r
    else if Persisted(r).Some? && Persisted(r).value <= now then t == Expired(r)
    else if Online(r, live) then t == r.(offline := None)
    else
      var deadline := if Persisted(r).Some? then Persisted(r).value else NewDeadline(r, now, idleMs);
      t == if deadline <= now then Expired(WithDeadline(r, Some(deadline))) else WithDeadline(r, Some(deadline))
  }

  // ---- Stop and close ----

  /** What a Stop stores as its deadline, computed from the row as it was read. */
  function StopDeadline(read: Row, now: int, idleMs: nat): int {
    var a := if read.idle.Some? then Min(read.idle.value, now + idleMs) else now + idleMs;
    if read.offline.Some? then Min(read.offline.value, a) else a
  }

  function StopRow(r: Row, deadline: int): Row {
    r.(state := Stopped, revision := r.revision + 1, idle := Some(deadline), offline := None)
  }

  /** What the close of the current socket, last heard of at `seen`, makes of the row. */
  function ClosedRow(r: Row, seen: int, observed: int, idleMs: nat): Row {
    if r.state == Enabled && r.offline == None then
      var last := if r.lastSeen.Some? then Max(seen, r.lastSeen.value) else seen;
      r.(offline := Some(Min(observed, last) + idleMs), lastSeen := Some(Max(last, observed)))
    else r
  }

  /** Without an alarm no permanent endpoint stays authorized. */
  function Ended(r: Row): Row { if Remembered(r) then Expired(r) else r }

  class Owner {
    var rows: seq<Row>
    var alarm: Option<int>
    const idleMs: nat

    constructor (rows: seq<Row>, idleMs: nat)
      ensures this.rows == rows && alarm == None && this.idleMs == idleMs
    {
      this.rows, this.alarm, this.idleMs := rows, None, idleMs;
    }

    /** `scheduleEarlierAlarm`; the storage throws unless it `works`. */
    method ScheduleEarlierAlarm(clock: int, deadline: int, works: bool) returns (ok: bool)
      modifies this`alarm
      ensures ok == works && alarm == if works then Earlier(old(alarm), clock, deadline) else old(alarm)
    {
      if !works { return false; }
      if alarm == None || alarm.value <= clock || alarm.value > deadline { alarm := Some(deadline); }
      return true;
    }

    /** One round of the loop: row `i`, and the earliest deadline so far. */
    method ReconcileOne(i: nat, now: int, live: Row -> bool) returns (due: Option<int>)
      requires i < |rows| && Remembered(rows[i]) && forall r, t: Row :: SameOwner(r, t) ==> live(r) == live(t)
      modifies this`rows
      ensures |rows| == |old(rows)| && rows == old(rows)[i := rows[i]] &&
              Reconciled(old(rows)[i], rows[i], now, idleMs, live)
      ensures due.Some? <==> Remembered(rows[i])
      ensures due.Some? ==> Watched(rows[i], now, live) && due.value == Due(rows[i], now, live)
    {
      var e := rows[i];
      var persisted := if e.state == Stopped then e.idle else e.offline;
      if persisted.Some? && persisted.value <= now {
        rows := rows[i := e.(state := Revoked, revision := e.revision + 1)];
        return None;
      }
      if e.state == Enabled && live(e) {
        rows := rows[i := e.(offline := None)];
        assert SameOwner(e, rows[i]);
        return Some(now + LIVE_AUDIT);
      }
      var deadline;
      if persisted == None {
        deadline := (if e.state == Enabled && e.lastSeen.Some? then e.lastSeen.value else now) + idleMs;
        rows := rows[i := if e.state == Stopped then e.(idle := Some(deadline)) else e.(offline := Some(deadline))];
      } else {
        deadline := persisted.value;
      }
      if deadline <= now {
        rows := rows[i := rows[i].(state := Revoked, revision := rows[i].revision + 1)];
        return None;
      }
      assert SameOwner(e, rows[i]);
      return Some(deadline);
    }

    /** Without an alarm a row is reconciled, and then revoked unless it is over already. */
    ghost predicate Ends(r: Row, t: Row, now: int, live: Row -> bool) {
      exists mid :: Reconciled(r, mid, now, idleMs, live) && t == Ended(mid)
    }

    /** The whole reconciliation. It ends with every remembered endpoint watched and an alarm no later than the first of
      their deadlines; or, when the alarm cannot be set, with no permanent endpoint authorized at all. */
    method ReconcileRemembered(now: int, clock: int, live: Row -> bool, works: bool) returns (ok: bool)
      requires forall r, t: Row :: SameOwner(r, t) ==> live(r) == live(t)
      modifies this
      ensures |rows| == |old(rows)|
      ensures works ==> ok
      ensures !works && ok ==> forall i :: 0 <= i < |rows| ==> !Remembered(rows[i])
      ensures ok ==> forall i :: 0 <= i < |rows| ==> Reconciled(old(rows)[i], rows[i], now, idleMs, live)
      ensures ok ==> forall i :: 0 <= i < |rows| && Remembered(rows[i]) ==>
                       Watched(rows[i], now, live) && alarm.Some? && alarm.value <= Due(rows[i], now, live)
      ensures ok && old(alarm).Some? && old(alarm).value > clock ==> alarm.Some? && alarm.value <= old(alarm).value
      ensures ok && alarm != old(alarm) ==>
                exists i :: 0 <= i < |rows| && Remembered(rows[i]) && alarm == Some(Due(rows[i], now, live))
      ensures !ok ==> forall i :: 0 <= i < |rows| ==> Ends(old(rows)[i], rows[i], now, live)
      ensures !ok ==> exists i, mid ::
                0 <= i < |rows| && Reconciled(old(rows)[i], mid, now, idleMs, live) && Remembered(mid)
      ensures !ok ==> alarm == old(alarm)
    {
      ghost var was := rows;
      var next: Option<int> := None;
      for i := 0 to |rows|
        invariant |rows| == |was| && alarm == old(alarm)
        invariant forall j :: 0 <= j < i ==> Reconciled(was[j], rows[j], now, idleMs, live)
        invariant forall j :: i <= j < |rows| ==> rows[j] == was[j]
        invariant forall j :: 0 <= j < i && Remembered(rows[j]) ==>
                    Watched(rows[j], now, live) && next.Some? && next.value <= Due(rows[j], now, live)
        invariant next.Some? ==> exists j :: 0 <= j < i && Remembered(rows[j]) && next.value == Due(rows[j], now, live)
      {
        if rows[i].permanent && rows[i].state != Revoked {
          var due := ReconcileOne(i, now, live);
          if due.Some? && (next == None || due.value < next.value) { next := due; }
        }
      }
      ok := true;
      if next.Some? {
        ok := ScheduleEarlierAlarm(clock, next.value, works);
        if !ok { RevokeAll(); }
      }
    }

    /** The Stop of a permanent endpoint, on the row `e` as it was read: the alarm first, then the row, by its id
      alone. */
    method Stop(i: nat, e: Row, now: int, clock: int, works: bool) returns (ok: bool)
      requires i < |rows| && e.permanent && e.state != Stopped
      modifies this
      ensures ok == works
      ensures rows ==
              old(rows)[i := if ok then StopRow(old(rows)[i], StopDeadline(e, now, idleMs)) else Expired(old(rows)[i])]
      ensures ok ==>
                alarm.Some? && alarm.value <= StopDeadline(e, now, idleMs) &&
                  rows[i].idle == Some(StopDeadline(e, now, idleMs))
    {
      var deadline := now + idleMs;
      if e.idle.Some? && e.idle.value < deadline { deadline := e.idle.value; }
      if e.offline.Some? && e.offline.value < deadline { deadline := e.offline.value; }
      ok := ScheduleEarlierAlarm(clock, deadline, works);
      var r := rows[i];
      if !ok { rows := rows[i := r.(state := Revoked, revision := r.revision + 1)]; return; }
      rows := rows[i := r.(state := Stopped, revision := r.revision + 1, idle := Some(deadline), offline := None)];
    }

    /** `webSocketClose` of the current socket of a permanent endpoint: an alarm, or nothing is left authorized. */
    method SocketClosed(i: nat, seen: int, observed: int, clock: int, works: bool)
      requires i < |rows| && rows[i].permanent
      modifies this
      ensures |rows| == |old(rows)| && rows == old(rows)[i := rows[i]]
      ensures var closed := ClosedRow(old(rows)[i], seen, observed, idleMs);
              rows[i] == if closed != old(rows)[i] && !works then Expired(closed) else closed
      ensures rows[i] != old(rows)[i] && rows[i].state == Enabled ==>
                alarm.Some? && rows[i].offline.Some? && alarm.value <= rows[i].offline.value
    {
      var e := rows[i];
      if e.state != Enabled || e.offline.Some? { return; }
      var last := if e.lastSeen.Some? && e.lastSeen.value > seen then e.lastSeen.value else seen;
      var deadline := (if observed < last then observed else last) + idleMs;
      rows := rows[i := e.(offline := Some(deadline), lastSeen := Some(if observed > last then observed else last))];
      var ok := ScheduleEarlierAlarm(clock, deadline, works);
      if !ok { rows := rows[i := rows[i].(state := Revoked, revision := rows[i].revision + 1)]; }
    }

    /** An alarm failure must not leave unmonitored grants active. */
    method RevokeAll()
      modifies this`rows
      ensures |rows| == |old(rows)|
      ensures forall i :: 0 <= i < |rows| ==> !Remembered(rows[i]) && rows[i] == Ended(old(rows)[i])
    {
      for i := 0 to |rows|
        invariant |rows| == |old(rows)|
        invariant forall j :: 0 <= j < i ==> !Remembered(rows[j]) && rows[j] == Ended(old(rows)[j])
        invariant forall j :: i <= j < |rows| ==> rows[j] == old(rows)[j]
      {
        if rows[i].permanent && rows[i].state != Revoked {
          rows := rows[i := rows[i].(state := Revoked, revision := rows[i].revision + 1)];
        }
      }
    }
  }
}
