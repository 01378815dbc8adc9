/** The endpoint and the intent ledger together: every execute request carries a token of its own.

  The handler of a prepare result calls the ledger's `dispatch` in the step that finds the mutation waiting, and what
  the ledger answers behind its hash decides whether the request goes out. Everything else of the two machines runs
  freely.
*/
module BrowserDispatch {
  import opened Common
  import opened EndpointState
  import opened IntentKeys
  import B = BrowserEndpoint
  import BS = BrowserSafety
  import L = IntentLedger
  import LS = IntentSafety
  import LT = IntentTheorems

  /** An execute request as it goes out: its operation, its intent key, and the execute token in it. */
  datatype Request = Request(operation: nat, key: Key, token: nat)

  datatype Pair = Pair(world: B.World, ledger: L.Ledger, requests: seq<Request>)

  datatype Step =
    | Endpoint(action: B.Action)
    | Ledger(change: L.Action)
    | PrepareResult(worker: nat, operation: nat, key: Key, socket: nat, recent: bool, accepted: bool)
    | Execute(worker: nat, open: bool)
    | Recreate

  /** The callers of the endpoint that wait for the ledger's dispatch. */
  predicate Dispatches(s: B.World, w: nat) { w in s.workers && s.workers[w].ExecuteWaits? }

  /** The ledger's answer to caller `w`, behind its hash. */
  function Resumed(s: L.Ledger, w: nat): L.Ledger { L.Apply(s, L.Resume(w)) }

  function TokenOf(s: L.Ledger, w: nat): Option<nat> {
    if w in s.workers && s.workers[w].Done? && s.workers[w].answer.Token? then Some(s.workers[w].answer.token) else None
  }

  function PrepareStep(p: Pair, w: nat, o: nat, key: Key, socket: nat, recent: bool, accepted: bool): Pair {
    var world := B.PrepareResult(p.world, w, o, key, socket, recent, accepted);
    if Dispatches(world, w)
    then p.(world := world, ledger := L.Apply(p.ledger, L.CallDispatch(w, key, p.world.generation)))
    else p.(world := world)
  }

  function ExecuteStep(p: Pair, w: nat, open: bool): Pair
    requires Dispatches(p.world, w)
  {
    var ledger := Resumed(p.ledger, w);
    var token := TokenOf(ledger, w);
    var world := B.Apply(p.world, B.Execute(w, token.Some?, open));
    Pair(world, ledger,
         p.requests + if |world.sends| > |p.world.sends| && token.Some?
                      then [Request(p.world.workers[w].operation, p.world.workers[w].key, token.value)] else [])
  }

  /** Only the handler of prepare results dispatches and resumes what it dispatched; both machines are recreated
    together. */
  predicate FreeEndpoint(a: B.Action) { !a.CallPrepareResult? && !a.Execute? && !a.Recreate? }

  predicate FreeLedger(s: B.World, a: L.Action) { !a.Recreate? && (a.Resume? ==> !Dispatches(s, a.worker)) }

  function Apply(p: Pair, st: Step): Pair {
    match st
    case Endpoint(a) => if FreeEndpoint(a) then p.(world := B.Apply(p.world, a)) else p
    case Ledger(a) => if FreeLedger(p.world, a) then p.(ledger := L.Apply(p.ledger, a)) else p
    case PrepareResult(w, o, key, socket, recent, accepted) =>
      if w in p.world.workers || w in p.ledger.workers then p else PrepareStep(p, w, o, key, socket, recent, accepted)
    case Execute(w, open) => if Dispatches(p.world, w) then ExecuteStep(p, w, open) else p
    case Recreate => p.(world := B.Apply(p.world, B.Recreate), ledger := L.Apply(p.ledger, L.Recreate))
  }

  function Exec(p: Pair, run: seq<Step>): Pair {
    if run == [] then p else Apply(Exec(p, run[..|run| - 1]), run[|run| - 1])
  }

  // ---- what the ledger leaves of its callers ----

  /** A caller is moved only by its own resumption. */
  lemma OthersWait(s: L.Ledger, a: L.Action, w: nat)
    requires w in s.workers && !a.Recreate? && !(a.Resume? && a.worker == w)
    ensures w in L.Apply(s, a).workers && L.Apply(s, a).workers[w] == s.workers[w]
  {
  }

  /** A dispatch that is called waits, or has its answer without a token. */
  lemma DispatchCalled(s: L.Ledger, w: nat, key: Key, generation: nat)
    requires w !in s.workers
    ensures var t := L.Apply(s, L.CallDispatch(w, key, generation)); w in t.workers && Undecided(t.workers[w], key)
  {
  }

  /** Waits for its hash with this key, or was refused. */
  predicate Undecided(pc: L.Pc, key: Key) {
    if pc.DispatchWaits? then pc.key == key else pc.Done? && !pc.answer.Token?
  }

  /** A token that comes out is the one that is issued in the same step, for the key. */
  lemma DispatchResumed(s: L.Ledger, w: nat, key: Key)
    requires w in s.workers && Undecided(s.workers[w], key)
    ensures var t := Resumed(s, w);
            && w in t.workers && s.issued <= t.issued
            && (TokenOf(t, w).Some? ==>
                  |t.issued| == |s.issued| + 1 && t.issued[|s.issued|].key == key &&
                    t.issued[|s.issued|].token == TokenOf(t, w).value)
  {
  }

  // ---- what every run keeps ----

  /** The requests are the sends of the endpoint, under their keys. */
  ghost predicate Matches(requests: seq<Request>, sends: seq<B.Send>) {
    |requests| == |sends| &&
    forall i :: 0 <= i < |requests| ==>
        requests[i].operation == sends[i].operation && requests[i].key == sends[i].admitted.key
  }

  /** Every request has a token that the ledger issued for its key, and no two have the same key. */
  ghost predicate Tokened(requests: seq<Request>, issued: seq<L.Issue>) {
    && (forall r :: r in requests ==> IssuedTo(issued, r.key, r.token))
    && (forall i, j :: 0 <= i < j < |requests| ==> requests[i].key != requests[j].key)
  }

  ghost predicate IssuedTo(issued: seq<L.Issue>, key: Key, token: nat) {
    exists i :: 0 <= i < |issued| && issued[i].key == key && issued[i].token == token
  }

  ghost predicate Waiting(world: B.World, ledger: L.Ledger) {
    forall w :: Dispatches(world, w) ==> w in ledger.workers && Undecided(ledger.workers[w], world.workers[w].key)
  }

  ghost predicate Inv(p: Pair) {
    && BS.Inv(p.world) && LS.Inv(p.ledger)
    && Matches(p.requests, p.world.sends) && Tokened(p.requests, p.ledger.issued) && Waiting(p.world, p.ledger)
  }

  lemma TokensStay(requests: seq<Request>, issued: seq<L.Issue>, later: seq<L.Issue>)
    requires Tokened(requests, issued) && issued <= later
    ensures Tokened(requests, later)
  {
    forall r | r in requests ensures IssuedTo(later, r.key, r.token) {
      var i :| 0 <= i < |issued| && issued[i].key == r.key && issued[i].token == r.token;
      assert later[i] == issued[i];
    }
  }

  /** A token that is new in the ledger is of a key that no request has had. */
  lemma TokenIsNew(requests: seq<Request>, issued: seq<L.Issue>, later: seq<L.Issue>, r: Request)
    requires Tokened(requests, issued) && issued <= later && LS.Distinct(later) && |later| == |issued| + 1
    requires later[|issued|].key == r.key && later[|issued|].token == r.token
    ensures Tokened(requests + [r], later)
  {
    TokensStay(requests, issued, later);
    forall q | q in requests ensures q.key != r.key {
      var i :| 0 <= i < |issued| && issued[i].key == q.key && issued[i].token == q.token;
      assert later[i] == issued[i];
    }
    forall q | q in requests + [r] ensures IssuedTo(later, q.key, q.token) { assert q == r || q in requests; }
    forall i | 0 <= i < |requests| ensures requests[i].key != r.key { assert requests[i] in requests; }
  }

  /** The endpoint's own steps neither send nor begin to dispatch. */
  lemma FreeEndpointStep(s: B.World, a: B.Action)
    requires FreeEndpoint(a)
    ensures var t := B.Apply(s, a);
            t.sends == s.sends && forall w :: Dispatches(t, w) ==> Dispatches(s, w) && t.workers[w] == s.workers[w]
  {
    match a
    case Resume(w, yes) => if w in s.workers { ResumeNeverDispatches(s, w, s.workers[w], yes); }
    case _ =>
  }

  /** Only caller `w` moves, and it does not end at the ledger. */
  ghost predicate Leaves(s: B.World, t: B.World, w: nat) {
    && t.sends == s.sends && w in t.workers && !t.workers[w].ExecuteWaits?
    && t.workers == s.workers[w := t.workers[w]]
  }

  lemma ResumeNeverDispatches(s: B.World, w: nat, pc: B.Pc, yes: bool)
    requires w in s.workers && s.workers[w] == pc
    ensures var t := B.ResumeStep(s, w, pc, yes);
            t.sends == s.sends && forall v :: Dispatches(t, v) ==> Dispatches(s, v) && t.workers[v] == s.workers[v]
  {
    if !pc.ExecuteWaits? && !pc.Done? { ResumeLeaves(s, w, pc, yes); }
  }

  lemma ResumeLeaves(s: B.World, w: nat, pc: B.Pc, yes: bool)
    requires !pc.ExecuteWaits? && !pc.Done?
    ensures Leaves(s, B.ResumeStep(s, w, pc, yes), w)
  {
  }

  lemma EndpointKeeps(p: Pair, a: B.Action)
    requires Inv(p) && FreeEndpoint(a)
    ensures Inv(p.(world := B.Apply(p.world, a)))
  {
    BS.StepOk(p.world, a);
    FreeEndpointStep(p.world, a);
  }

  lemma LedgerKeeps(p: Pair, a: L.Action)
    requires Inv(p) && FreeLedger(p.world, a)
    ensures Inv(p.(ledger := L.Apply(p.ledger, a)))
  {
    LS.StepOk(p.ledger, a);
    TokensStay(p.requests, p.ledger.issued, L.Apply(p.ledger, a).issued);
    forall w | Dispatches(p.world, w)
      ensures w in L.Apply(p.ledger, a).workers && Undecided(L.Apply(p.ledger, a).workers[w], p.world.workers[w].key)
    { OthersWait(p.ledger, a, w); }
  }

  /** A prepare result sends nothing; it moves one caller, to the ledger under its own key, or to its end. */
  lemma PrepareMoves(s: B.World, w: nat, o: nat, key: Key, socket: nat, recent: bool, accepted: bool)
    ensures var t := B.PrepareResult(s, w, o, key, socket, recent, accepted);
            && t.sends == s.sends && w in t.workers && t.workers == s.workers[w := t.workers[w]]
            && (t.workers[w].ExecuteWaits? ==> t.workers[w].key == key)
  {
  }

  lemma CallKeepsWaiting(world: B.World, after: B.World, ledger: L.Ledger, w: nat, key: Key, generation: nat)
    requires Waiting(world, ledger) && w !in ledger.workers
    requires w in after.workers && after.workers == world.workers[w := after.workers[w]]
    requires after.workers[w].ExecuteWaits? ==> after.workers[w].key == key
    ensures Waiting(after, L.Apply(ledger, L.CallDispatch(w, key, generation)))
  {
    DispatchCalled(ledger, w, key, generation);
    forall v | Dispatches(after, v) && v != w
      ensures var t := L.Apply(ledger, L.CallDispatch(w, key, generation));
              v in t.workers && Undecided(t.workers[v], after.workers[v].key)
    {
      assert Dispatches(world, v);
      OthersWait(ledger, L.CallDispatch(w, key, generation), v);
    }
  }

  lemma PrepareKeeps(p: Pair, w: nat, o: nat, key: Key, socket: nat, recent: bool, accepted: bool)
    requires Inv(p) && w !in p.world.workers && w !in p.ledger.workers
    ensures Inv(PrepareStep(p, w, o, key, socket, recent, accepted))
  {
    var world := B.PrepareResult(p.world, w, o, key, socket, recent, accepted);
    BS.PrepareResultKeeps(p.world, w, o, key, socket, recent, accepted);
    PrepareMoves(p.world, w, o, key, socket, recent, accepted);
    if Dispatches(world, w) {
      var call := L.CallDispatch(w, key, p.world.generation);
      CallKeepsWaiting(p.world, world, p.ledger, w, key, p.world.generation);
      LS.StepOk(p.ledger, call);
      TokensStay(p.requests, p.ledger.issued, L.Apply(p.ledger, call).issued);
    } else {
      assert Waiting(world, p.ledger) by {
        assert forall v :: Dispatches(world, v) ==> Dispatches(p.world, v) && world.workers[v] == p.world.workers[v];
      }
    }
  }

  /** What goes out is the operation that the caller waited for, under the key of its binding. */
  lemma ExecuteMoves(s: B.World, w: nat, token: bool, open: bool)
    requires BS.Inv(s) && Dispatches(s, w)
    ensures var t := B.Apply(s, B.Execute(w, token, open));
            && w in t.workers && !t.workers[w].ExecuteWaits? && t.workers == s.workers[w := t.workers[w]]
            && (t.sends == s.sends ||
                (token && |t.sends| == |s.sends| + 1 && t.sends[..|s.sends|] == s.sends &&
                 t.sends[|s.sends|].operation == s.workers[w].operation &&
                   t.sends[|s.sends|].admitted.key == s.workers[w].key))
  {
    assert BS.WorkerOk(w, s.workers[w], s.admitting, s.prepared, s.stopEpoch);
  }

  lemma RequestMatches(requests: seq<Request>, sends: seq<B.Send>, later: seq<B.Send>, r: Request)
    requires Matches(requests, sends) && |later| == |sends| + 1 && later[..|sends|] == sends
    requires later[|sends|].operation == r.operation && later[|sends|].admitted.key == r.key
    ensures Matches(requests + [r], later)
  {
    forall i | 0 <= i < |requests| ensures later[i] == sends[i] { assert later[i] == later[..|sends|][i]; }
  }

  lemma ResumeKeepsWaiting(world: B.World, after: B.World, ledger: L.Ledger, w: nat)
    requires Waiting(world, ledger) && w in after.workers && !after.workers[w].ExecuteWaits?
    requires after.workers == world.workers[w := after.workers[w]]
    ensures Waiting(after, Resumed(ledger, w))
  {
    forall v | Dispatches(after, v)
      ensures v in Resumed(ledger, w).workers && Undecided(Resumed(ledger, w).workers[v], after.workers[v].key)
    {
      assert Dispatches(world, v) && v != w;
      OthersWait(ledger, L.Resume(w), v);
    }
  }

  lemma ExecuteKeeps(p: Pair, w: nat, open: bool)
    requires Inv(p) && Dispatches(p.world, w)
    ensures Inv(ExecuteStep(p, w, open))
  {
    var ledger := Resumed(p.ledger, w);
    var token := TokenOf(ledger, w);
    var world := B.Apply(p.world, B.Execute(w, token.Some?, open));
    BS.StepOk(p.world, B.Execute(w, token.Some?, open));
    LS.StepOk(p.ledger, L.Resume(w));
    DispatchResumed(p.ledger, w, p.world.workers[w].key);
    ExecuteMoves(p.world, w, token.Some?, open);
    ResumeKeepsWaiting(p.world, world, p.ledger, w);
    if world.sends == p.world.sends { TokensStay(p.requests, p.ledger.issued, ledger.issued); }
    else {
      var r := Request(p.world.workers[w].operation, p.world.workers[w].key, token.value);
      TokenIsNew(p.requests, p.ledger.issued, ledger.issued, r);
      RequestMatches(p.requests, p.world.sends, world.sends, r);
    }
  }

  lemma RecreateKeeps(p: Pair)
    requires Inv(p)
    ensures Inv(Apply(p, Recreate))
  {
    BS.StepOk(p.world, B.Recreate);
    LS.StepOk(p.ledger, L.Recreate);
    TokensStay(p.requests, p.ledger.issued, L.Apply(p.ledger, L.Recreate).issued);
  }

  lemma StepOk(p: Pair, st: Step)
    requires Inv(p)
    ensures Inv(Apply(p, st))
  {
    match st
    case Endpoint(a) => if FreeEndpoint(a) { EndpointKeeps(p, a); }
    case Ledger(a) => if FreeLedger(p.world, a) { LedgerKeeps(p, a); }
    case PrepareResult(w, o, key, socket, recent, accepted) =>
      if w !in p.world.workers && w !in p.ledger.workers { PrepareKeeps(p, w, o, key, socket, recent, accepted); }
    case Execute(w, open) => if Dispatches(p.world, w) { ExecuteKeeps(p, w, open); }
    case Recreate => RecreateKeeps(p);
  }

  lemma {:induction false} RunOk(p: Pair, run: seq<Step>)
    requires Inv(p)
    ensures Inv(Exec(p, run))
  {
    if run != [] {
      RunOk(p, run[..|run| - 1]);
      StepOk(Exec(p, run[..|run| - 1]), run[|run| - 1]);
    }
  }

  /** A new endpoint beside a ledger as an earlier release may have left it. */
  function Start(ledger: L.Ledger): Pair { Pair(B.Inserted(), ledger, []) }

  /** No operation and no intent key is sent twice, over every run of the endpoint and the ledger with concurrent
    prepare results, recreations and sweeps; and every request carries a token that the ledger issued for its key,
    which is the only one. */
  lemma RequestsAreUnique(ledger: L.Ledger, run: seq<Step>)
    requires LT.Opening(ledger) && ledger.slack <= LS.MAX_SLACK
    ensures var p := Exec(Start(ledger), run);
            && Matches(p.requests, p.world.sends)
            && (forall i, j :: 0 <= i < j < |p.requests| ==>
                  p.requests[i].operation != p.requests[j].operation && p.requests[i].key != p.requests[j].key)
            && (forall r, e :: r in p.requests && e in p.ledger.issued && e.key == r.key ==> e.token == r.token)
            && (forall r :: r in p.requests ==> IssuedTo(p.ledger.issued, r.key, r.token))
  {
    LT.OpeningOk(ledger);
    RunOk(Start(ledger), run);
    var p := Exec(Start(ledger), run);
    forall i, j | 0 <= i < j < |p.requests| ensures p.requests[i].operation != p.requests[j].operation {
      if p.requests[i].operation == p.requests[j].operation { SameOperationSameKey(p, i, j); }
    }
    forall r, e | r in p.requests && e in p.ledger.issued && e.key == r.key ensures e.token == r.token {
      TokenIsItsKeys(p.requests, p.ledger.issued, r, e);
    }
  }

  /** The token of a request is the only one of its key. */
  lemma TokenIsItsKeys(requests: seq<Request>, issued: seq<L.Issue>, r: Request, e: L.Issue)
    requires Tokened(requests, issued) && LS.Distinct(issued) && r in requests && e in issued && e.key == r.key
    ensures e.token == r.token
  {
    var i :| 0 <= i < |issued| && issued[i].key == r.key && issued[i].token == r.token;
    var j :| 0 <= j < |issued| && issued[j] == e;
  }

  lemma SameOperationSameKey(p: Pair, i: nat, j: nat)
    requires Inv(p) && i < |p.requests| && j < |p.requests| && p.requests[i].operation == p.requests[j].operation
    ensures p.requests[i].key == p.requests[j].key
  {
    var d, e := p.world.sends[i], p.world.sends[j];
    assert d in p.world.sends && e in p.world.sends;
    assert BS.SendOk(d, p.world.prepared) && BS.SendOk(e, p.world.prepared);
  }
}
