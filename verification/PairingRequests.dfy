/** Pending pairings of the remote-control owner: registration, replacement and one-time approval.

  A transaction is one step. What the sweep of the grants in it comes to - room for another device, and whether a
  live grant has the key - is an argument of the step; `PairedApproval` puts both parts together.
*/
module PairingRequests {
  import opened Common

  /** `singleCode` is false for the rows of an older protocol. */
  datatype Pending = Pending(id: nat, key: string, fingerprint: string, temporary: bool, singleCode: bool, expires: int)

  datatype Answer = Registered | Capacity | IdentityUsed | AlreadyPending | PendingCapacity | NotFound | TypeMismatch
    | LegacyPairing | Approved

  datatype Approval = Approval(id: nat, key: string, temporary: bool)

  datatype Desk = Desk(clock: int, pending: map<string, Pending>, supply: nat, approvals: seq<Approval>)

  const MAX_PENDING := 24
  const TTL := 600000

  datatype Action =
    | Tick(ms: nat)
    | Register(verifier: string, key: string, fingerprint: string, temporary: bool, room: bool, used: bool)
    | Approve(id: nat, fingerprint: string, temporary: bool, room: bool, used: bool)

  // ---- registerPending ----

  /** The rows that a registration leaves: not expired, and of another key. */
  function Kept(pending: map<string, Pending>, key: string, now: int): map<string, Pending> {
    map v | v in pending && Stays(pending[v], key, now) :: pending[v]
  }

  predicate Stays(p: Pending, key: string, now: int) { p.expires > now && p.key != key }

  /** `kept`: the rows that the loop over the pending rows leaves. */
  function AnswerOn(s: Desk, kept: map<string, Pending>, verifier: string, room: bool, used: bool): Answer {
    if !room then Capacity
    else if used then IdentityUsed
    else if verifier in s.pending && s.pending[verifier].expires > s.clock then AlreadyPending
    else if |kept.Keys| >= MAX_PENDING then PendingCapacity
    else Registered
  }

  function RegisterOn(s: Desk, kept: map<string, Pending>, verifier: string, p: Pending, room: bool, used: bool): Desk {
    AfterAnswer(AnswerOn(s, kept, verifier, room, used), s, s.(pending := kept), verifier, p)
  }

  function RegisterAnswer(s: Desk, verifier: string, key: string, room: bool, used: bool): Answer {
    AnswerOn(s, Kept(s.pending, key, s.clock), verifier, room, used)
  }

  function RegisterStep(s: Desk, verifier: string, key: string, fingerprint: string, temporary: bool, room: bool,
                        used: bool): Desk {
    RegisterOn(s, Kept(s.pending, key, s.clock), verifier,
               Pending(s.supply, key, fingerprint, temporary, true, s.clock + TTL),
               room, used)
  }

  /** `clean` is the desk after the loop over the pending rows. */
  function AfterAnswer(answer: Answer, s: Desk, clean: Desk, verifier: string, p: Pending): Desk {
    match answer
    case PendingCapacity => clean
    case Registered => Stored(clean, verifier, p)
    case _ => s
  }

  function Stored(s: Desk, verifier: string, p: Pending): Desk {
    s.(pending := s.pending[verifier := p], supply := s.supply + 1)
  }

  // ---- approvePendingKey ----

  /** The row that the owner means. */
  predicate Matches(p: Pending, id: nat, fingerprint: string, now: int) {
    p.id == id && p.fingerprint == fingerprint && p.expires > now
  }

  function ApproveAnswer(p: Pending, temporary: bool, room: bool, used: bool): Answer {
    if p.temporary != temporary then TypeMismatch
    else if !p.singleCode then LegacyPairing
    else if !room then Capacity
    else if used then IdentityUsed
    else Approved
  }

  function ApproveStep(s: Desk, v: string, temporary: bool, room: bool, used: bool): Desk
    requires v in s.pending
  {
    var p := s.pending[v];
    if ApproveAnswer(p, temporary, room, used) == Approved
    then s.(pending := s.pending - {v}, approvals := s.approvals + [Approval(p.id, p.key, p.temporary)])
    else s
  }

  /** The verifier under which the matching row is stored. */
  ghost function Found(s: Desk, id: nat, fingerprint: string): Option<string> {
    if exists v :: v in s.pending && Matches(s.pending[v], id, fingerprint, s.clock)
    then var v :| v in s.pending && Matches(s.pending[v], id, fingerprint, s.clock); Some(v)
    else None
  }

  ghost function Apply(s: Desk, a: Action): Desk {
    match a
    case Tick(ms) => s.(clock := s.clock + ms)
    case Register(verifier, key, fingerprint, temporary, room, used) =>
      RegisterStep(s, verifier, key, fingerprint, temporary, room, used)
    case Approve(id, fingerprint, temporary, room, used) =>
      if |s.pending.Keys| > MAX_PENDING || Found(s, id, fingerprint) == None then s
      else ApproveStep(s, Found(s, id, fingerprint).value, temporary, room, used)
  }

  ghost function Exec(s: Desk, run: seq<Action>): Desk {
    if run == [] then s else Apply(Exec(s, run[..|run| - 1]), run[|run| - 1])
  }

  function Empty(clock: int): Desk { Desk(clock, map[], 0, []) }

  // ---- what every run keeps ----

  ghost predicate PendingOk(pending: map<string, Pending>, supply: nat) {
    && |pending.Keys| <= MAX_PENDING
    && (forall v :: v in pending ==> pending[v].id < supply)
    && (forall v, w :: v in pending && w in pending && pending[v].id == pending[w].id ==> v == w)
    && (forall v, w :: v in pending && w in pending && pending[v].key == pending[w].key ==> v == w)
  }

  ghost predicate ApprovalsOk(approvals: seq<Approval>, pending: map<string, Pending>, supply: nat) {
    && (forall a :: a in approvals ==> a.id < supply && forall v :: v in pending ==> pending[v].id != a.id)
    && (forall i, j :: 0 <= i < j < |approvals| ==> approvals[i].id != approvals[j].id)
  }

  ghost predicate Inv(s: Desk) { PendingOk(s.pending, s.supply) && ApprovalsOk(s.approvals, s.pending, s.supply) }

  /** Rows may go. */
  lemma RowsGo(s: Desk, after: map<string, Pending>)
    requires Inv(s) && forall v :: v in after ==> v in s.pending && after[v] == s.pending[v]
    ensures PendingOk(after, s.supply) && ApprovalsOk(s.approvals, after, s.supply)
  {
    assert s.pending.Keys == after.Keys + (s.pending.Keys - after.Keys);
  }

  /** A row comes, with a new id and a key that no other row has. */
  lemma RowComes(pending: map<string, Pending>, supply: nat, v: string, p: Pending)
    requires PendingOk(pending, supply) && |pending.Keys| < MAX_PENDING && v !in pending && p.id == supply
    requires forall w :: w in pending ==> pending[w].key != p.key
    ensures PendingOk(pending[v := p], supply + 1)
  {
    assert v !in pending.Keys;
    assert pending[v := p].Keys == pending.Keys + {v};
  }

  lemma ApprovalsStand(approvals: seq<Approval>, pending: map<string, Pending>, supply: nat, v: string, p: Pending)
    requires ApprovalsOk(approvals, pending, supply) && p.id == supply
    ensures ApprovalsOk(approvals, pending[v := p], supply + 1)
  {
  }

  lemma StoreKeeps(s: Desk, verifier: string, p: Pending)
    requires Inv(s) && |s.pending.Keys| < MAX_PENDING && verifier !in s.pending && p.id == s.supply
    requires forall w :: w in s.pending ==> s.pending[w].key != p.key
    ensures Inv(Stored(s, verifier, p))
  {
    RowComes(s.pending, s.supply, verifier, p);
    ApprovalsStand(s.approvals, s.pending, s.supply, verifier, p);
  }

  /** Unexpired rows of other keys. */
  ghost predicate Clean(s: Desk, kept: map<string, Pending>, key: string) {
    forall v :: v in kept ==> v in s.pending && kept[v] == s.pending[v] && Stays(kept[v], key, s.clock)
  }

  lemma KeptIsClean(s: Desk, key: string)
    ensures Clean(s, Kept(s.pending, key, s.clock), key)
  {
  }

  lemma RegisterOnKeeps(s: Desk, kept: map<string, Pending>, verifier: string, p: Pending, room: bool, used: bool)
    requires Inv(s) && Clean(s, kept, p.key) && p.id == s.supply
    ensures Inv(RegisterOn(s, kept, verifier, p, room, used))
    ensures var t := RegisterOn(s, kept, verifier, p, room, used);
            if AnswerOn(s, kept, verifier, room, used) == Registered then OnlyOne(t.pending, verifier, p)
            else t.supply == s.supply
  {
    RowsGo(s, kept);
    if AnswerOn(s, kept, verifier, room, used) == Registered { StoreKeeps(s.(pending := kept), verifier, p); }
  }

  /** The row is stored, the only one of its key. */
  predicate OnlyOne(pending: map<string, Pending>, verifier: string, p: Pending) {
    verifier in pending && pending[verifier] == p && forall v :: v in pending && pending[v].key == p.key ==>
        v == verifier
  }

  lemma RegisterKeeps(s: Desk, verifier: string, key: string, fingerprint: string, temporary: bool, room: bool,
                      used: bool)
    requires Inv(s)
    ensures var t := RegisterStep(s, verifier, key, fingerprint, temporary, room, used);
            && Inv(t)
            && (if RegisterAnswer(s, verifier, key, room, used) == Registered
                then OnlyOne(t.pending, verifier, Pending(s.supply, key, fingerprint, temporary, true, s.clock + TTL))
                else t.supply == s.supply)
  {
    KeptIsClean(s, key);
    RegisterOnKeeps(s, Kept(s.pending, key, s.clock), verifier,
                    Pending(s.supply, key, fingerprint, temporary, true, s.clock + TTL), room, used);
  }

  lemma ApproveKeeps(s: Desk, v: string, temporary: bool, room: bool, used: bool)
    requires Inv(s) && v in s.pending
    ensures Inv(ApproveStep(s, v, temporary, room, used))
  {
    RowsGo(s, s.pending - {v});
    var p := s.pending[v];
    var a := Approval(p.id, p.key, p.temporary);
    forall i | 0 <= i < |s.approvals| ensures s.approvals[i].id != p.id { assert s.approvals[i] in s.approvals; }
    forall b | b in s.approvals + [a]
      ensures b.id < s.supply && forall w :: w in s.pending - {v} ==> s.pending[w].id != b.id {
      assert b == a || b in s.approvals;
    }
  }

  lemma ApproveActionKeeps(s: Desk, a: Action)
    requires Inv(s) && a.Approve?
    ensures Inv(Apply(s, a)) && s.approvals <= Apply(s, a).approvals && s.supply == Apply(s, a).supply
  {
    var found := Found(s, a.id, a.fingerprint);
    if found.Some? { ApproveKeeps(s, found.value, a.temporary, a.room, a.used); }
  }

  lemma StepOk(s: Desk, a: Action)
    requires Inv(s)
    ensures Inv(Apply(s, a)) && s.approvals <= Apply(s, a).approvals && s.supply <= Apply(s, a).supply
  {
    if a.Register? { RegisterKeeps(s, a.verifier, a.key, a.fingerprint, a.temporary, a.room, a.used); }
    else if a.Approve? { ApproveActionKeeps(s, a); }
  }

  lemma {:induction false} RunOk(s: Desk, run: seq<Action>)
    requires Inv(s)
    ensures Inv(Exec(s, run)) && s.approvals <= Exec(s, run).approvals && s.supply <= Exec(s, run).supply
  {
    if run != [] {
      var m := Exec(s, run[..|run| - 1]);
      RunOk(s, run[..|run| - 1]);
      StepOk(m, run[|run| - 1]);
    }
  }

  /** At most 24 pairings are pending, at most one of a key; and no pairing is ever approved twice. */
  lemma PairingsAreBounded(clock: int, run: seq<Action>)
    ensures var s := Exec(Empty(clock), run);
            && |s.pending.Keys| <= 24
            && (forall v, w :: v in s.pending && w in s.pending && s.pending[v].key == s.pending[w].key ==> v == w)
            && (forall i, j :: 0 <= i < j < |s.approvals| ==> s.approvals[i].id != s.approvals[j].id)
  {
    RunOk(Empty(clock), run);
  }

  /** An id that no stored row has, and that was handed out already, is gone for good. */
  ghost predicate Gone(s: Desk, id: nat) { id < s.supply && forall v :: v in s.pending ==> s.pending[v].id != id }

  lemma {:induction false} GoneStaysGone(s: Desk, run: seq<Action>, id: nat)
    requires Gone(s, id)
    ensures Gone(Exec(s, run), id) && forall i :: |s.approvals| <= i < |Exec(s, run).approvals| ==>
              Exec(s, run).approvals[i].id != id
  {
    if run != [] {
      GoneStaysGone(s, run[..|run| - 1], id);
      GoneStep(Exec(s, run[..|run| - 1]), run[|run| - 1], id);
    }
  }

  lemma GoneStep(s: Desk, a: Action, id: nat)
    requires Gone(s, id)
    ensures var t := Apply(s, a);
            Gone(t, id) && s.approvals <= t.approvals && forall i :: |s.approvals| <= i < |t.approvals| ==>
                t.approvals[i].id != id
  {
  }

  /** A new registration of a key ends the older pairing of that key: its code is never approved any more. */
  lemma ReplacedPairingIsDead(s: Desk, verifier: string, earlier: string, fingerprint: string, temporary: bool,
                              run: seq<Action>, i: int)
    requires Inv(s) && earlier in s.pending
    requires RegisterAnswer(s, verifier, s.pending[earlier].key, true, false) == Registered
    requires var t := RegisterStep(s, verifier, s.pending[earlier].key, fingerprint, temporary, true, false);
             |s.approvals| <= i < |Exec(t, run).approvals|
    ensures var t := RegisterStep(s, verifier, s.pending[earlier].key, fingerprint, temporary, true, false);
            Exec(t, run).approvals[i].id != s.pending[earlier].id
  {
    var t := RegisterStep(s, verifier, s.pending[earlier].key, fingerprint, temporary, true, false);
    assert Gone(t, s.pending[earlier].id);
    GoneStaysGone(t, run, s.pending[earlier].id);
  }

  // ---- as it is written ----

  /** The rows after the loop has dealt with all but `left`. */
  function KeptBut(pending: map<string, Pending>, left: set<string>, key: string, now: int): map<string, Pending> {
    map v | v in pending && (v in left || Stays(pending[v], key, now)) :: pending[v]
  }

  lemma KeptButNext(was: map<string, Pending>, left: set<string>, v: string, key: string, now: int)
    requires v in left && left <= was.Keys
    ensures var before := KeptBut(was, left, key, now);
            && v in before && before[v] == was[v]
            && KeptBut(was, left - {v}, key, now) == (if Stays(was[v], key, now) then before else before - {v})
  {
    var before, after := KeptBut(was, left, key, now), KeptBut(was, left - {v}, key, now);
    forall w ensures w in after <==> w in before && (w == v ==> Stays(was[v], key, now)) {}
  }

  lemma KeptButOne(was: map<string, Pending>, left: set<string>, v: string, key: string, now: int, before: map<string,
                   Pending>)
    requires v in left && left <= was.Keys && before == KeptBut(was, left, key, now)
    ensures var after := if Stays(was[v], key, now) then before else before - {v};
            && v in before && before[v] == was[v] && after == KeptBut(was, left - {v}, key, now)
            && |after.Keys - (left - {v})| == |before.Keys - left| + if Stays(was[v], key, now) then 1 else 0
  {
    KeptButNext(was, left, v, key, now);
    OneDone(before.Keys, left, v);
    assert (before - {v}).Keys == before.Keys - {v};
  }

  lemma OneDone(keys: set<string>, left: set<string>, v: string)
    requires v in left && v in keys
    ensures |keys - (left - {v})| == |keys - left| + 1 && |(keys - {v}) - (left - {v})| == |keys - left|
  {
    assert keys - (left - {v}) == (keys - left) + {v};
    assert (keys - {v}) - (left - {v}) == keys - left;
  }

  class PairingDesk {
    var clock: int
    var pending: map<string, Pending>
    var supply: nat
    ghost var approvals: seq<Approval>

    constructor (clock: int)
      ensures Valid() && pending == map[] && this.clock == clock
    {
      this.clock, pending, supply, approvals := clock, map[], 0, [];
    }

    ghost function Now(): Desk reads this { Desk(clock, pending, supply, approvals) }

    ghost predicate Valid() reads this { Inv(Now()) }

    /** The loop over the pending rows: expired ones and those of the key go, the others are counted. */
    method DropStale(key: string) returns (active: nat)
      modifies this`pending
      ensures pending == Kept(old(pending), key, clock) && active == |pending.Keys|
    {
      ghost var was := pending;
      var left := pending.Keys;
      active := 0;
      while left != {}
        invariant left <= was.Keys && pending == KeptBut(was, left, key, clock) && active == |pending.Keys - left|
        decreases |left|
      {
        var v :| v in left;
        KeptButOne(was, left, v, key, clock, pending);
        if pending[v].expires <= clock || pending[v].key == key {
          pending := pending - {v};
        } else {
          active := active + 1;
        }
        left := left - {v};
      }
      assert pending.Keys - left == pending.Keys;
    }

    /** The rest of `registerPending`, for a registration that nothing excludes: clean up, count, store. */
    method StorePending(ghost s: Desk, verifier: string, key: string, fingerprint: string, temporary: bool)
      returns (answer: Answer)
      requires s == Now() && RegisterAnswer(s, verifier, key, true, false) in {Registered, PendingCapacity}
      modifies this`pending, this`supply
      ensures answer == RegisterAnswer(s, verifier, key, true, false)
      ensures Now() == RegisterStep(s, verifier, key, fingerprint, temporary, true, false)
    {
      var active := DropStale(key);
      if active >= MAX_PENDING { return PendingCapacity; }
      pending := pending[verifier := Pending(supply, key, fingerprint, temporary, true, clock + TTL)];
      supply := supply + 1;
      return Registered;
    }

    /** The transaction of `registerPending`. */
    method RegisterPending(verifier: string, key: string, fingerprint: string, temporary: bool, room: bool, used: bool)
      returns (answer: Answer)
      requires Valid()
      modifies this`pending, this`supply
      ensures Valid() && answer == RegisterAnswer(old(Now()), verifier, key, room, used)
      ensures Now() == RegisterStep(old(Now()), verifier, key, fingerprint, temporary, room, used)
      ensures answer == Registered ==>
                OnlyOne(pending, verifier, Pending(old(supply), key, fingerprint, temporary, true, clock + TTL))
      ensures answer != Registered ==> supply == old(supply)
    {
      RegisterKeeps(Now(), verifier, key, fingerprint, temporary, room, used);
      if !room { return Capacity; }
      if used { return IdentityUsed; }
      if verifier in pending && pending[verifier].expires > clock { return AlreadyPending; }
      answer := StorePending(Now(), verifier, key, fingerprint, temporary);
    }

    /** The search of the row that the owner means; there is at most one. */
    method FindMatch(id: nat, fingerprint: string) returns (found: Option<string>)
      requires Valid()
      ensures found == Found(Now(), id, fingerprint)
    {
      found := None;
      var left := pending.Keys;
      while left != {} && found == None
        invariant left <= pending.Keys
        invariant found.Some? ==> found.value in pending && Matches(pending[found.value], id, fingerprint, clock)
        invariant found == None ==> forall v :: v in pending && v !in left ==>
                    !Matches(pending[v], id, fingerprint, clock)
        decreases |left|
      {
        var v :| v in left;
        if Matches(pending[v], id, fingerprint, clock) { found := Some(v); }
        left := left - {v};
      }
    }

    /** The rest of `approvePendingKey`, for the row that was found: an approved row is gone. */
    method TakeRow(v: string, temporary: bool, room: bool, used: bool) returns (answer: Answer)
      requires Valid() && v in pending
      modifies this`pending, this`approvals
      ensures Valid() && answer == ApproveAnswer(old(pending)[v], temporary, room, used)
      ensures Now() == ApproveStep(old(Now()), v, temporary, room, used)
      ensures answer == Approved ==>
                approvals ==
                  old(approvals) + [Approval(old(pending)[v].id, old(pending)[v].key, old(pending)[v].temporary)]
    {
      var row := pending[v];
      ApproveKeeps(Now(), v, temporary, room, used);
      answer := ApproveAnswer(row, temporary, room, used);
      if answer == Approved {
        pending := pending - {v};
        approvals := approvals + [Approval(row.id, row.key, row.temporary)];
      }
    }
  }
}
