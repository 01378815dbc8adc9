/** Run capacity: the `runs` table under admissions, child reservations and completions.

  A statement, or a batch of statements, is one step on the rows of the table. The unit count is what
  the admission predicate sums: the weights of the queued and running rows.
*/
module Capacity {
  import opened Common
  import opened ChildProtocol

  datatype Run = Run(
    id: string,
    workflow: string,
    version: string,
    instance: string,
    admissionKey: Option<string>,
    digest: string,
    inputs: string,
    outcome: Outcome,
    weight: nat,
    parent: Option<string>,
    step: string)

  datatype Reservation = Reservation(
    parent: string,
    step: string,
    child: string,
    workflow: string,
    version: string,
    admissionKey: string,
    digest: string,
    inputs: string,
    timestamp: int)

  /** The published version of each active workflow. */
  type Catalog = map<string, string>

  const RUN_CAPACITY_LIMIT := 8

  function Weight(r: Run): nat { if Unfinished(r.outcome) then r.weight else 0 }

  /** ACTIVE_CAPACITY_UNITS_SQL */
  function Units(rows: seq<Run>): nat {
    if rows == [] then 0 else Units(rows[..|rows| - 1]) + Weight(rows[|rows| - 1])
  }

  function IndexOf(rows: seq<Run>, id: string): (i: nat)
    ensures i <= |rows| && (i < |rows| ==> rows[i].id == id) && forall j :: 0 <= j < i ==> rows[j].id != id
  {
    if rows == [] then 0 else if rows[0].id == id then 0 else 1 + IndexOf(rows[1..], id)
  }

  predicate Published(c: Catalog, workflow: string, version: string) { workflow in c && c[workflow] == version }

  /** The unique constraints of the table: id, instance, admission key, and parent with step. */
  predicate Clash(a: Run, b: Run) {
    a.id == b.id || a.instance == b.instance ||
    (a.admissionKey.Some? && a.workflow == b.workflow && a.admissionKey == b.admissionKey) ||
    (a.parent.Some? && a.parent == b.parent && a.step == b.step)
  }

  predicate Conflicts(rows: seq<Run>, r: Run) { exists i :: 0 <= i < |rows| && Clash(r, rows[i]) }

  /** INSERT OR IGNORE */
  function Insert(rows: seq<Run>, r: Run): seq<Run> { if Conflicts(rows, r) then rows else rows + [r] }

  // ---- ordinary admission ----

  /** The admission INSERT, behind the capacity predicate and the capacity trigger of the table. */
  function AdmitRows(rows: seq<Run>, r: Run, c: Catalog): seq<Run> {
    if Published(c, r.workflow, r.version) && Units(rows) <= RUN_CAPACITY_LIMIT - r.weight then Insert(rows, r)
    else rows
  }

  predicate Admissible(r: Run) {
    r.outcome == Queued && r.parent == None && (r.weight == 1 || r.weight == 2) && r.instance == r.id
  }

  // ---- child reservations ----

  predicate ValidReservation(a: Reservation) {
    a.parent != "" && a.step != "" && a.child != "" && a.parent != a.child && a.workflow != "" && a.version != "" &&
    a.admissionKey != "" && a.digest != "" && a.inputs != "" && -0x20_0000_0000_0000 < a.timestamp < 0x20_0000_0000_0000
  }

  function ChildRow(a: Reservation): Run {
    Run(a.child, a.workflow, a.version, a.child, Some(a.admissionKey), a.digest, a.inputs, Queued, 1, Some(a.parent),
        a.step)
  }

  /** The join of the child INSERTs: a running top-level parent of the given weight, and a published target. */
  predicate ParentMayReserve(rows: seq<Run>, a: Reservation, c: Catalog, weight: nat) {
    var p := IndexOf(rows, a.parent);
    p < |rows| && rows[p].outcome == Running && rows[p].weight == weight && rows[p].parent == None &&
    rows[p].workflow != a.workflow && Published(c, a.workflow, a.version)
  }

  predicate IsReserved(rows: seq<Run>, a: Reservation) {
    var i := IndexOf(rows, a.child);
    i < |rows| && rows[i].parent == Some(a.parent) && rows[i].step == a.step && rows[i].version == a.version &&
    rows[i].workflow == a.workflow && rows[i].digest == a.digest && rows[i].inputs == a.inputs
  }

  function InsertAwaited(rows: seq<Run>, a: Reservation, c: Catalog): seq<Run> {
    if ParentMayReserve(rows, a, c, 2) then Insert(rows, ChildRow(a)) else rows
  }

  function ReleaseUnit(rows: seq<Run>, a: Reservation): seq<Run> {
    var p := IndexOf(rows, a.parent);
    if p < |rows| && rows[p].outcome == Running && rows[p].weight == 2 && IsReserved(rows, a)
    then rows[p := rows[p].(weight := 1)] else rows
  }

  /** The batch of `transferAwaitedChildCapacity`: both statements, or neither. */
  function TransferRows(rows: seq<Run>, a: Reservation, c: Catalog): seq<Run> {
    ReleaseUnit(InsertAwaited(rows, a, c), a)
  }

  function DetachRows(rows: seq<Run>, a: Reservation, c: Catalog): seq<Run> {
    if ParentMayReserve(rows, a, c, 1) && Units(rows) <= RUN_CAPACITY_LIMIT - 1 then Insert(rows, ChildRow(a)) else rows
  }

  /** Any later write of an outcome: a queued run begins, an unfinished run ends. */
  function OutcomeRows(rows: seq<Run>, id: string, o: Outcome): seq<Run> {
    var i := IndexOf(rows, id);
    if i < |rows| && Unfinished(rows[i].outcome) && o != Queued && (o == Running ==> rows[i].outcome == Queued)
    then rows[i := rows[i].(outcome := o)] else rows
  }

  datatype Change =
    | Admit(run: Run, catalog: Catalog)
    | Transfer(args: Reservation, catalog: Catalog)
    | Detach(args: Reservation, catalog: Catalog)
    | SetOutcome(id: string, outcome: Outcome)

  function Perform(rows: seq<Run>, ch: Change): seq<Run> {
    match ch
    case Admit(r, c) => if Admissible(r) then AdmitRows(rows, r, c) else rows
    case Transfer(a, c) => if ValidReservation(a) then TransferRows(rows, a, c) else rows
    case Detach(a, c) => if ValidReservation(a) then DetachRows(rows, a, c) else rows
    case SetOutcome(id, o) => OutcomeRows(rows, id, o)
  }

  function Table(rows: seq<Run>, changes: seq<Change>): seq<Run> {
    if changes == [] then rows else Perform(Table(rows, changes[..|changes| - 1]), changes[|changes| - 1])
  }
}
