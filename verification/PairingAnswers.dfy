/** What registration and approval answer, told by the rows that they find. */
module PairingAnswers {
  import opened Common
  import opened PairingRequests

  predicate Live(p: Pending, now: int) { now < p.expires }

  /** The rows that a registration of this key leaves. */
  ghost predicate Cleaned(before: map<string, Pending>, after: map<string, Pending>, key: string, now: int) {
    && (forall v :: v in after <==> v in before && Live(before[v], now) && before[v].key != key)
    && (forall v :: v in after ==> after[v] == before[v])
  }

  lemma CleanedIs(before: map<string, Pending>, after: map<string, Pending>, key: string, now: int)
    requires Cleaned(before, after, key, now)
    ensures after == Kept(before, key, now)
  {
  }

  /** A registration: refused without room, for a used key, or under a code that is pending; else the dead rows and
    those of the key go, and the new row comes, for ten minutes, if fewer than twenty-four are left. */
  lemma RegisterTells(s: Desk, verifier: string, key: string, fingerprint: string, temporary: bool, room: bool,
                      used: bool,
                      cleaned: map<string, Pending>)
    requires Cleaned(s.pending, cleaned, key, s.clock)
    ensures var t := Apply(s, Register(verifier, key, fingerprint, temporary, room, used));
            var answer := RegisterAnswer(s, verifier, key, room, used);
            if !room then t == s && answer == Capacity
            else if used then t == s && answer == IdentityUsed
            else if verifier in s.pending && Live(s.pending[verifier], s.clock) then t == s && answer == AlreadyPending
            else if |cleaned.Keys| >= 24 then t == s.(pending := cleaned) && answer == PendingCapacity
            else answer == Registered &&
                 t == s.(pending := cleaned[verifier := Pending(s.supply, key, fingerprint, temporary, true,
                                                                s.clock + 600000)],
                         supply := s.supply + 1)
  {
    CleanedIs(s.pending, cleaned, key, s.clock);
  }

  /** The row that is meant: it has the id and the fingerprint, and is not dead. */
  predicate Means(p: Pending, id: nat, fingerprint: string, now: int) {
    p.id == id && p.fingerprint == fingerprint && Live(p, now)
  }

  lemma FoundTells(s: Desk, id: nat, fingerprint: string)
    ensures match Found(s, id, fingerprint)
            case Some(v) => v in s.pending && Means(s.pending[v], id, fingerprint, s.clock)
            case None => forall v :: v in s.pending ==> !Means(s.pending[v], id, fingerprint, s.clock)
  {
  }

  /** An approval: of the meant row, if it is of the kind that is asked for and of the current protocol, and there is
    room for its key; then the row goes, and it is recorded. */
  lemma ApproveTells(s: Desk, id: nat, fingerprint: string, temporary: bool, room: bool, used: bool)
    requires Inv(s)
    ensures var t := Apply(s, Approve(id, fingerprint, temporary, room, used)); var found := Found(s, id, fingerprint);
            if found.Some? && s.pending[found.value].temporary == temporary && s.pending[found.value].singleCode &&
              room && !used
            then t == s.(pending := s.pending - {found.value},
                         approvals := s.approvals + [Approval(id, s.pending[found.value].key, temporary)])
            else t == s
  {
  }

  /** Which of its reasons a refused approval is answered with. */
  lemma RefusalTells(p: Pending, temporary: bool, room: bool, used: bool)
    ensures ApproveAnswer(p, temporary, room, used) ==
            if p.temporary != temporary then TypeMismatch
            else if !p.singleCode then LegacyPairing
            else match (room, used)
                 case (false, _) => Capacity
                 case (true, true) => IdentityUsed
                 case (true, false) => Approved
  {
  }
}
