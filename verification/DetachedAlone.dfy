/** What the start of a detached child comes to that is left alone from some point on: a reference by the row and the
  instance that it finds, for calls that begin and for calls that were overtaken.
*/
module DetachedAlone {
  import opened ChildProtocol
  import opened DetachedChild

  /** The engine's truthful reply to what a worker waits for. */
  function Honest(n: Native, p: Point): Reply {
    if p == Wait then (if n == Absent then Throws else Ok) else if n == Absent then Missing else Found
  }

  /** One step of `w`; a create that it issues lands. */
  function Turn(s: System, w: nat): System
    requires w in s.workers
  {
    var t := Happen(s, Step(w, Honest(s.native, s.workers[w])));
    if s.workers[w] == Create then Happen(t, Lands) else t
  }

  function Alone(s: System, w: nat, n: nat): System
    requires w in s.workers
    decreases n
  {
    if n == 0 then s else Alone(Turn(s, w), w, n - 1)
  }

  predicate At(s: System, w: nat, p: Point) { w in s.workers && s.workers[w] == p }

  // ---- the reference ----

  datatype End = End(result: Result, row: Row, native: Native)

  ghost predicate EndsAs(s: System, w: nat, n: nat, end: End) {
    && w in s.workers
    && var t := Alone(s, w, n);
       At(t, w, Returned(end.result)) && t.row == end.row && t.native == end.native
  }

  /** What is answered from the stored row alone. */
  function Persists(r: Row, n: Native): End {
    End(if r.start == Started && r.outcome in {Queued, Running, Succeeded, Failed} then StartedResult
        else if r.start == Reserved && r.outcome == Failed && r.rejected then RejectedResult
        else if r.outcome in {Indeterminate, Cancelled} then IndeterminateResult
        else UnknownResult, r, n)
  }

  /** An instance is there: it is stored as started, unless the row is lost or was started before. */
  function Confirms(r: Row, n: Native): End {
    if r.start in {Dispatching, StartUnknown} && r.outcome in {Queued, Running, Succeeded, Failed}
    then End(StartedResult, r.(start := Started), n) else Persists(r, n)
  }

  /** No instance after ten minutes. */
  function Expires(r: Row, n: Native): End {
    if r.start in {Dispatching, StartUnknown} && r.outcome == Queued
    then End(IndeterminateResult, r.(outcome := Indeterminate), n) else Persists(r, n)
  }

  /** A parent that runs no more. */
  function Rejects(r: Row, n: Native): End {
    if r.start == Reserved && r.outcome == Queued then End(RejectedResult, r.(outcome := Failed, rejected := true), n)
    else Persists(r, n)
  }

  /** The one claim. */
  function Claims(r: Row, n: Native): End {
    if r.start == Reserved && r.outcome == Queued && r.parentRunning then End(StartedResult, r.(start := Started), Live)
    else End(UnknownResult, r, n)
  }

  /** A start that was claimed before is looked up. */
  function Looks(c: Child, r: Row, n: Native, now: int): End {
    if n != Absent then Confirms(r, n)
    else if now - c.createdAt >= 600000 then Expires(r, n)
    else End(UnknownResult, r, n)
  }

  /** The whole of `startReservedDetachedChild`. */
  function Starts(c: Child, r: Row, n: Native, now: int): End {
    if !c.instanceMatches || !c.unitWeight then End(Refused, r, n)
    else match r.start
      case Started => End(StartedResult, r, n)
      case Reserved => if r.parentRunning then Claims(r, n) else Rejects(r, n)
      case _ => if r.outcome in {Indeterminate, Cancelled} then End(IndeterminateResult, r, n) else Looks(c, r, n, now)
  }

  // ---- one turn after the other ----

  ghost predicate Follows(s: System, w: nat, t: System) {
    forall n: nat, end: End :: EndsAs(t, w, n, end) ==> EndsAs(s, w, n + 1, end)
  }

  ghost predicate Leads(s: System, w: nat, p: Point, r: Row, n: Native)
    requires w in s.workers
  {
    var t := Turn(s, w); At(t, w, p) && t.row == r && t.native == n
  }

  lemma LandsOk(s: System)
    requires Consistent(s)
    ensures Consistent(Happen(s, Lands)) && Happen(s, Lands).child == s.child
  {
  }

  lemma TurnOk(s: System, w: nat)
    requires Consistent(s) && w in s.workers
    ensures Consistent(Turn(s, w)) && w in Turn(s, w).workers && Turn(s, w).child == s.child
  {
    WorkerStepOk(s, w, Honest(s.native, s.workers[w]));
    StepStays(s, w, Honest(s.native, s.workers[w]));
    LandsOk(WorkerStep(s, w, s.workers[w], Honest(s.native, s.workers[w])));
  }

  lemma StepStays(s: System, w: nat, reply: Reply)
    requires w in s.workers
    ensures var t := WorkerStep(s, w, s.workers[w], reply); w in t.workers && t.child == s.child
  {
  }

  lemma OneMore(s: System, w: nat, n: nat, end: End)
    requires w in s.workers && w in Turn(s, w).workers && EndsAs(Turn(s, w), w, n, end)
    ensures EndsAs(s, w, n + 1, end)
  {
  }

  lemma Last(s: System, w: nat, end: End)
    requires w in s.workers && Leads(s, w, Returned(end.result), end.row, end.native)
    ensures EndsAs(s, w, 1, end)
  {
    assert Alone(Turn(s, w), w, 0) == Turn(s, w);
    OneMore(s, w, 0, end);
  }

  lemma TurnFollows(s: System, w: nat)
    requires Consistent(s) && w in s.workers
    ensures Consistent(Turn(s, w)) && Follows(s, w, Turn(s, w)) && Turn(s, w).child == s.child
  {
    TurnOk(s, w);
    var t := Turn(s, w);
    forall m: nat, end: End | EndsAs(t, w, m, end) ensures EndsAs(s, w, m + 1, end) { OneMore(s, w, m, end); }
  }

  lemma Turns(s: System, w: nat, p: Point, r: Row, n: Native) returns (t: System)
    requires Consistent(s) && w in s.workers && Leads(s, w, p, r, n)
    ensures Consistent(t) && t.child == s.child && At(t, w, p) && t.row == r && t.native == n && Follows(s, w, t)
  {
    TurnFollows(s, w);
    t := Turn(s, w);
  }

  // ---- the points ----

  lemma PersistsAlone(s: System, w: nat) returns (n: nat)
    requires Consistent(s) && At(s, w, Persisted)
    ensures EndsAs(s, w, n, Persists(s.row, s.native))
  {
    Last(s, w, Persists(s.row, s.native));
    n := 1;
  }

  lemma MarksAlone(s: System, w: nat) returns (n: nat)
    requires Consistent(s) && At(s, w, Mark)
    ensures EndsAs(s, w, n, Confirms(s.row, s.native))
  {
    if s.row.start in {Dispatching, StartUnknown} && s.row.outcome in {Queued, Running, Succeeded, Failed} {
      Last(s, w, Confirms(s.row, s.native));
      n := 1;
    } else {
      var t := Turns(s, w, Persisted, s.row, s.native);
      n := PersistsAlone(t, w);
      n := n + 1;
    }
  }

  lemma ExpiresAlone(s: System, w: nat) returns (n: nat)
    requires Consistent(s) && At(s, w, ExpireRow)
    ensures EndsAs(s, w, n, Expires(s.row, s.native))
  {
    if s.row.start in {Dispatching, StartUnknown} && s.row.outcome == Queued {
      Last(s, w, Expires(s.row, s.native));
      n := 1;
    } else {
      var t := Turns(s, w, Persisted, s.row, s.native);
      n := PersistsAlone(t, w);
      n := n + 1;
    }
  }

  lemma RejectsAlone(s: System, w: nat) returns (n: nat)
    requires Consistent(s) && At(s, w, AbandonRow)
    ensures EndsAs(s, w, n, Rejects(s.row, s.native))
  {
    if s.row.start == Reserved && s.row.outcome == Queued {
      Last(s, w, Rejects(s.row, s.native));
      n := 1;
    } else {
      var t := Turns(s, w, Persisted, s.row, s.native);
      n := PersistsAlone(t, w);
      n := n + 1;
    }
  }

  lemma LooksAgain(s: System, w: nat) returns (n: nat)
    requires Consistent(s) && At(s, w, LookAgain)
    ensures EndsAs(s, w, n, if s.native == Absent then End(UnknownResult, s.row, s.native)
                   else Confirms(s.row, s.native))
  {
    if s.native == Absent {
      Last(s, w, End(UnknownResult, s.row, s.native));
      n := 1;
    } else {
      var t := Turns(s, w, Mark, s.row, s.native);
      n := MarksAlone(t, w);
      n := n + 1;
    }
  }

  /** A create that threw: the start is unknown until it is looked up. */
  lemma CatchesAlone(s: System, w: nat) returns (n: nat)
    requires Consistent(s) && At(s, w, Catch)
    ensures var r := if s.row.start == Dispatching && s.row.outcome in {Queued, Running}
                     then s.row.(start := StartUnknown) else s.row;
            EndsAs(s, w, n, if s.native == Absent then End(UnknownResult, r, s.native) else Confirms(r, s.native))
  {
    var r := if s.row.start == Dispatching && s.row.outcome in {Queued, Running}
             then s.row.(start := StartUnknown) else s.row;
    var t := Turns(s, w, LookAgain, r, s.native);
    n := LooksAgain(t, w);
    n := n + 1;
  }

  lemma WaitsAlone(s: System, w: nat) returns (n: nat)
    requires Consistent(s) && At(s, w, Wait) && s.native != Absent
    ensures EndsAs(s, w, n, Confirms(s.row, s.native))
  {
    var t := Turns(s, w, Mark, s.row, s.native);
    n := MarksAlone(t, w);
    n := n + 1;
  }

  lemma CreatesAlone(s: System, w: nat) returns (n: nat)
    requires Consistent(s) && At(s, w, Create)
    ensures EndsAs(s, w, n, Confirms(s.row, Live))
  {
    assert PointOk(s, w, s.workers[w]);
    var t := Turns(s, w, Wait, s.row, Live);
    n := WaitsAlone(t, w);
    n := n + 1;
  }

  /** A call overtaken before its claim. */
  lemma ClaimAlone(s: System, w: nat) returns (n: nat)
    requires Consistent(s) && At(s, w, Claim)
    ensures EndsAs(s, w, n, Claims(s.row, s.native))
  {
    if s.row.start == Reserved && s.row.outcome == Queued && s.row.parentRunning {
      var t := Turns(s, w, Create, s.row.(start := Dispatching), s.native);
      n := CreatesAlone(t, w);
      n := n + 1;
    } else {
      Last(s, w, Claims(s.row, s.native));
      n := 1;
    }
  }

  lemma LookFinds(s: System, w: nat, now: int) returns (n: nat)
    requires Consistent(s) && At(s, w, Look(now)) && s.native != Absent
    ensures EndsAs(s, w, n, Confirms(s.row, s.native))
  {
    var t := Turns(s, w, Mark, s.row, s.native);
    n := MarksAlone(t, w);
    n := n + 1;
  }

  lemma LookGivesUp(s: System, w: nat, now: int) returns (n: nat)
    requires Consistent(s) && At(s, w, Look(now)) && s.native == Absent && now - s.child.createdAt >= 600000
    ensures EndsAs(s, w, n, Expires(s.row, s.native))
  {
    var t := Turns(s, w, ExpireRow, s.row, s.native);
    n := ExpiresAlone(t, w);
    n := n + 1;
  }

  /** A call overtaken before it looks the start up. */
  lemma LookAlone(s: System, w: nat, now: int) returns (n: nat)
    requires Consistent(s) && At(s, w, Look(now))
    ensures EndsAs(s, w, n, Looks(s.child, s.row, s.native, now))
  {
    if s.native != Absent { n := LookFinds(s, w, now); }
    else if now - s.child.createdAt >= 600000 { n := LookGivesUp(s, w, now); }
    else {
      Last(s, w, End(UnknownResult, s.row, s.native));
      n := 1;
    }
  }

  /** `startReservedDetachedChild`, on any row that a run reaches. */
  lemma StartAlone(s: System, w: nat, now: int) returns (n: nat)
    requires Consistent(s) && At(s, w, Read(now))
    ensures EndsAs(s, w, n, Starts(s.child, s.row, s.native, now))
  {
    if s.child.instanceMatches && s.child.unitWeight && s.row.start != Started { n := ReadsOpen(s, w, now); }
    else {
      Last(s, w, Starts(s.child, s.row, s.native, now));
      n := 1;
    }
  }

  lemma ReadsOpen(s: System, w: nat, now: int) returns (n: nat)
    requires Consistent(s) && At(s, w, Read(now)) && s.child.instanceMatches && s.child.unitWeight &&
             s.row.start != Started
    ensures EndsAs(s, w, n, Starts(s.child, s.row, s.native, now))
  {
    if s.row.start != Reserved { n := ReadsClaimed(s, w, now); }
    else if s.row.parentRunning {
      var t := Turns(s, w, Claim, s.row, s.native);
      n := ClaimAlone(t, w);
      n := n + 1;
    } else {
      var t := Turns(s, w, AbandonRow, s.row, s.native);
      n := RejectsAlone(t, w);
      n := n + 1;
    }
  }

  lemma ReadsClaimed(s: System, w: nat, now: int) returns (n: nat)
    requires Consistent(s) && At(s, w, Read(now)) && s.child.instanceMatches && s.child.unitWeight
    requires s.row.start != Started && s.row.start != Reserved
    ensures EndsAs(s, w, n, Starts(s.child, s.row, s.native, now))
  {
    if s.row.outcome in {Indeterminate, Cancelled} {
      Last(s, w, Starts(s.child, s.row, s.native, now));
      n := 1;
    } else {
      var t := Turns(s, w, Look(now), s.row, s.native);
      n := LookAlone(t, w, now);
      n := n + 1;
    }
  }
}
