/** Listing the host catalog in pages under a byte budget. */
module HostPages {
  import opened Common

  /** A stored row and what decrypting and projecting it gives; `None` when that fails. */
  datatype Row<H> = Row(id: string, host: Option<H>)

  datatype Answer<H> = Page(hosts: seq<H>, nextCursor: Option<string>) | RecordInvalid | ResultTooLarge

  /** The bytewise order of ids, as in `ORDER BY id` and `id > ?`. */
  predicate Less(a: string, b: string) {
    if b == "" then false
    else if a == "" then true
    else a[0] < b[0] || (a[0] == b[0] && Less(a[1..], b[1..]))
  }

  lemma {:induction false} LessTransitive(a: string, b: string, c: string)
    requires Less(a, b) && Less(b, c)
    ensures Less(a, c)
  {
    if a != "" && a[0] == b[0] && b[0] == c[0] { LessTransitive(a[1..], b[1..], c[1..]); }
  }

  lemma {:induction false} LessIrreflexive(a: string)
    ensures !Less(a, a)
  {
    if a != "" { LessIrreflexive(a[1..]); }
  }

  /** The first position that differs decides, and a proper prefix is less. */
  predicate FirstDiffers(a: string, b: string, k: nat) {
    k <= |a| && k < |b| && a[..k] == b[..k] && (k < |a| ==> a[k] < b[k])
  }

  lemma SameHead(a: string, b: string, k: nat)
    requires FirstDiffers(a, b, k) && k > 0
    ensures a[0] == b[0]
  {
    assert a[..k][0] == b[..k][0];
  }

  lemma {:induction false} LessExact(a: string, b: string)
    ensures Less(a, b) <==> exists k: nat :: FirstDiffers(a, b, k)
  {
    if a != "" && b != "" && a[0] == b[0] {
      LessExact(a[1..], b[1..]);
      if k: nat :| FirstDiffers(a[1..], b[1..], k) {
        assert a[..k + 1] == [a[0]] + a[1..][..k] && b[..k + 1] == [b[0]] + b[1..][..k];
        assert FirstDiffers(a, b, k + 1);
      }
      if k: nat :| FirstDiffers(a, b, k) {
        assert a[1..][..k - 1] == a[..k][1..] && b[1..][..k - 1] == b[..k][1..];
        assert FirstDiffers(a[1..], b[1..], k - 1);
      }
    } else if b != "" && (a == "" || a[0] < b[0]) {
      assert FirstDiffers(a, b, 0);
    } else {
      forall k: nat ensures !FirstDiffers(a, b, k) {
        if k > 0 && FirstDiffers(a, b, k) { SameHead(a, b, k); }
      }
    }
  }

  /** Rows of one account: `id` is the primary key, and the query orders by it. */
  ghost predicate Catalog<H>(rows: seq<Row<H>>) { forall i, j :: 0 <= i < j < |rows| ==> Less(rows[i].id, rows[j].id) }

  predicate Beyond<H>(cursor: Option<string>, row: Row<H>) { cursor == None || Less(cursor.value, row.id) }

  /** The rows that the query selects, before its LIMIT. */
  function After<H>(rows: seq<Row<H>>, cursor: Option<string>): seq<Row<H>> {
    if rows == [] then []
    else
      var n := |rows| - 1;
      After(rows[..n], cursor) + (if Beyond(cursor, rows[n]) then [rows[n]] else [])
  }

  ghost predicate AllDecode<H>(rows: seq<Row<H>>) { forall i :: 0 <= i < |rows| ==> rows[i].host.Some? }

  function Hosts<H>(rows: seq<Row<H>>): seq<H>
    requires AllDecode(rows)
  {
    seq(|rows|, i requires 0 <= i < |rows| => rows[i].host.value)
  }

  /** The cursor behind the first `n` of the selected rows. */
  function CursorAt<H>(rest: seq<Row<H>>, n: nat): Option<string>
    requires n <= |rest|
  {
    if n == 0 || n == |rest| then None else Some(rest[n - 1].id)
  }

  predicate ValidLimit(limit: int) { 1 <= limit <= 200 }

  /** The first `n` of the selected rows make a page: they decode, and with their cursor they fit the budget. */
  ghost predicate Fits<H>(rest: seq<Row<H>>, n: nat, fits: (seq<H>, Option<string>) -> bool) {
    n <= |rest| && AllDecode(rest[..n]) && fits(Hosts(rest[..n]), CursorAt(rest, n))
  }

  /** The longest run of rows that was accepted one by one. */
  ghost predicate IsPage<H>(rest: seq<Row<H>>, limit: int, fits: (seq<H>, Option<string>) -> bool, n: nat,
                            answer: Answer<H>) {
    && n <= |rest| && n <= limit && AllDecode(rest[..n])
    && answer == Page(Hosts(rest[..n]), CursorAt(rest, n))
    && (rest != [] ==> n > 0)
    && (forall k :: 0 < k <= n ==> Fits(rest, k, fits))
    && (n < |rest| && n < limit ==> rest[n].host.Some? && !Fits(rest, n + 1, fits))
  }

  lemma HostsSnoc<H>(rest: seq<Row<H>>, n: nat)
    requires n < |rest| && AllDecode(rest[..n]) && rest[n].host.Some?
    ensures AllDecode(rest[..n + 1]) && Hosts(rest[..n + 1]) == Hosts(rest[..n]) + [rest[n].host.value]
  {
  }

  lemma AfterSnoc<H>(rows: seq<Row<H>>, cursor: Option<string>, i: nat)
    requires i < |rows|
    ensures After(rows[..i + 1], cursor) ==
            After(rows[..i], cursor) + (if Beyond(cursor, rows[i]) then [rows[i]] else [])
  {
    assert rows[..i + 1][..i] == rows[..i];
  }

  lemma {:induction false} AfterPrefix<H>(rows: seq<Row<H>>, cursor: Option<string>, i: nat)
    requires i <= |rows|
    ensures After(rows[..i], cursor) <= After(rows, cursor)
    decreases |rows| - i
  {
    if i < |rows| {
      AfterPrefix(rows, cursor, i + 1);
      AfterSnoc(rows, cursor, i);
    } else {
      assert rows[..i] == rows;
    }
  }

  /** The query: the rows behind the cursor, at most `limit + 1` of them. */
  method Select<H>(rows: seq<Row<H>>, cursor: Option<string>, limit: nat) returns (result: seq<Row<H>>)
    ensures result <= After(rows, cursor)
    ensures |result| == if |After(rows, cursor)| < limit + 1 then |After(rows, cursor)| else limit + 1
  {
    result := [];
    var i := 0;
    while i < |rows| && |result| < limit + 1
      invariant i <= |rows| && |result| <= limit + 1
      invariant result == After(rows[..i], cursor)
    {
      AfterSnoc(rows, cursor, i);
      if Beyond(cursor, rows[i]) { result := result + [rows[i]]; }
      i := i + 1;
    }
    AfterPrefix(rows, cursor, i);
    if i == |rows| { assert rows[..i] == rows; }
  }

  /** The paging loop. Every host it pushes fits the budget together with the cursor the page would then return. */
  method Collect<H>(rows: seq<Row<H>>, limit: nat, fits: (seq<H>, Option<string>) -> bool, ghost rest: seq<Row<H>>)
    returns (answer: Answer<H>, ghost n: nat)
    requires ValidLimit(limit) && rows <= rest && |rows| == if |rest| < limit + 1 then |rest| else limit + 1
    ensures answer.Page? ==> IsPage(rest, limit, fits, n, answer)
    ensures answer == RecordInvalid ==> n < |rest| && n < limit && AllDecode(rest[..n]) && rest[n].host == None
    ensures answer == ResultTooLarge <==> rest != [] && rest[0].host.Some? && !Fits(rest, 1, fits)
  {
    var hosts: seq<H> := [];
    var lastIncludedId: Option<string> := None;
    n := 0;
    var index := 0;
    while index < limit && index < |rows|
      invariant index == n <= |rows| && n <= limit && AllDecode(rest[..n]) && hosts == Hosts(rest[..n])
      invariant lastIncludedId == if n == 0 then None else Some(rest[n - 1].id)
      invariant n == 0 || n < |rows|
      invariant forall k :: 0 < k <= n ==> Fits(rest, k, fits)
    {
      var row := rows[index];
      if row.host == None { return RecordInvalid, n; }
      HostsSnoc(rest, n);
      var hasMoreAfterCandidate := index < |rows| - 1;
      var cursor := if hasMoreAfterCandidate then Some(row.id) else None;
      assert cursor == CursorAt(rest, n + 1);
      if !fits(hosts + [row.host.value], cursor) {
        if |hosts| == 0 { return ResultTooLarge, 0; }
        return Page(hosts, lastIncludedId), n;
      }
      hosts := hosts + [row.host.value];
      lastIncludedId := Some(row.id);
      index, n := index + 1, n + 1;
      if !hasMoreAfterCandidate { return Page(hosts, None), n; }
    }
    return Page(hosts, lastIncludedId), n;
  }

  /** `listHosts`, for an account whose stored rows are `rows`. */
  method ListHosts<H>(rows: seq<Row<H>>, cursor: Option<string>, validId: string -> bool, limit: int,
                      fits: (seq<H>, Option<string>) -> bool)
    returns (answer: Answer<H>, ghost n: nat)
    ensures !ValidLimit(limit) || (cursor.Some? && !validId(cursor.value)) ==> answer == RecordInvalid
    ensures answer.Page? ==> IsPage(After(rows, cursor), limit, fits, n, answer)
    ensures ValidLimit(limit) && (cursor.Some? ==> validId(cursor.value)) ==>
              var rest := After(rows, cursor);
              && (answer == RecordInvalid ==> n < |rest| && n < limit && AllDecode(rest[..n]) && rest[n].host == None)
              && (answer == ResultTooLarge <==> rest != [] && rest[0].host.Some? && !Fits(rest, 1, fits))
  {
    n := 0;
    if !ValidLimit(limit) { return RecordInvalid, 0; }
    if cursor.Some? && !validId(cursor.value) { return RecordInvalid, 0; }
    var selected := Select(rows, cursor, limit);
    answer, n := Collect(selected, limit, fits, After(rows, cursor));
  }

  // ---- following the cursors ----

  /** The answer is some page of the rows, by some limit and some budget. */
  ghost predicate SomePage<H(!new)>(rest: seq<Row<H>>, answer: Answer<H>) {
    exists limit: int, n: nat, fits: (seq<H>, Option<string>) -> bool :: IsPage(rest, limit, fits, n, answer)
  }

  /** Pages as a client gets them: the first without a cursor, each other with the cursor of the one before. */
  ghost predicate Traversal<H(!new)>(rows: seq<Row<H>>, cursor: Option<string>, pages: seq<Answer<H>>)
    decreases |pages|
  {
    pages != [] && pages[0].Page? && SomePage(After(rows, cursor), pages[0]) &&
    (|pages| > 1 ==> pages[0].nextCursor.Some? && Traversal(rows, pages[0].nextCursor, pages[1..]))
  }

  /** A page that begins with the `k`-th row holds the rows up to some other, and names the last of them if more
    follow. */
  lemma PageFrom<H(!new)>(rows: seq<Row<H>>, k: nat, answer: Answer<H>) returns (n: nat)
    requires k <= |rows| && SomePage(rows[k..], answer)
    ensures k + n <= |rows| && (k < |rows| ==> n > 0)
    ensures answer.Page? && AllDecode(rows[k..k + n]) && answer.hosts == Hosts(rows[k..k + n])
    ensures answer.nextCursor == if n == 0 || k + n == |rows| then None else Some(rows[k + n - 1].id)
  {
    var limit: int, m: nat, fits: (seq<H>, Option<string>) -> bool :| IsPage(rows[k..], limit, fits, m, answer);
    n := m;
    assert rows[k..k + n] == rows[k..][..n];
  }

  lemma HostsConcat<H>(a: seq<Row<H>>, b: seq<Row<H>>)
    requires AllDecode(a) && AllDecode(b)
    ensures AllDecode(a + b) && Hosts(a + b) == Hosts(a) + Hosts(b)
  {
  }

  function Listed<H>(pages: seq<Answer<H>>): seq<H>
    requires forall i :: 0 <= i < |pages| ==> pages[i].Page?
  {
    if pages == [] then [] else pages[0].hosts + Listed(pages[1..])
  }

  lemma {:induction false} SkipRows<H>(rows: seq<Row<H>>, cursor: Option<string>, k: nat, i: nat)
    requires k <= |rows| && i <= |rows| && forall j :: 0 <= j < |rows| ==> (Beyond(cursor, rows[j]) <==> k <= j)
    ensures After(rows[..i], cursor) == if i <= k then [] else rows[k..i]
  {
    if i > 0 {
      var r := rows[i - 1];
      SkipRows(rows, cursor, k, i - 1);
      AfterSnoc(rows, cursor, i - 1);
      assert After(rows[..i], cursor) == After(rows[..i - 1], cursor) + (if k < i then [r] else []);
      if k < i { RowsSnoc(rows, k, i); }
    }
  }

  lemma RowsSnoc<T>(rows: seq<T>, k: nat, i: nat)
    requires k < i <= |rows|
    ensures rows[k..i] == (if i - 1 <= k then [] else rows[k..i - 1]) + [rows[i - 1]]
  {
  }

  /** With the cursor of the `k`-th row the query selects exactly the rows behind it. */
  lemma AfterRow<H>(rows: seq<Row<H>>, k: nat)
    requires Catalog(rows) && k < |rows|
    ensures After(rows, Some(rows[k].id)) == rows[k + 1..]
  {
    forall i | 0 <= i <= k ensures !Less(rows[k].id, rows[i].id) {
      LessIrreflexive(rows[k].id);
      if i < k && Less(rows[k].id, rows[i].id) { LessTransitive(rows[k].id, rows[i].id, rows[k].id); }
    }
    SkipRows(rows, Some(rows[k].id), k + 1, |rows|);
    assert rows[..|rows|] == rows;
  }

  /** With the cursor of the row before it, the query goes on at the `j`-th row. */
  ghost predicate Resumes<H>(rows: seq<Row<H>>, j: nat) {
    0 < j < |rows| && After(rows, Some(rows[j - 1].id)) == rows[j..]
  }

  lemma CatalogResumes<H>(rows: seq<Row<H>>)
    requires Catalog(rows)
    ensures forall j :: 0 < j < |rows| ==> Resumes(rows, j)
  {
    forall j | 0 < j < |rows| ensures Resumes(rows, j) { AfterRow(rows, j - 1); }
  }

  /** The pages list exactly the rows from the `k`-th to the `m`-th, and end without a cursor just at the end. */
  ghost predicate Lists<H>(rows: seq<Row<H>>, k: nat, m: nat, pages: seq<Answer<H>>) {
    && k <= m <= |rows| && AllDecode(rows[k..m])
    && pages != [] && (forall i :: 0 <= i < |pages| ==> pages[i].Page?)
    && Listed(pages) == Hosts(rows[k..m])
    && (pages[|pages| - 1].nextCursor == None <==> m == |rows|)
  }

  lemma ListsPrepend<H>(rows: seq<Row<H>>, k: nat, j: nat, m: nat, pages: seq<Answer<H>>)
    requires |pages| > 1 && k <= j && Lists(rows, j, m, pages[1..])
    requires AllDecode(rows[k..j]) && pages[0].Page? && pages[0].hosts == Hosts(rows[k..j])
    ensures Lists(rows, k, m, pages)
  {
    HostsConcat(rows[k..j], rows[j..m]);
    assert rows[k..m] == rows[k..j] + rows[j..m];
  }

  lemma ListsOne<H>(rows: seq<Row<H>>, k: nat, m: nat, pages: seq<Answer<H>>)
    requires |pages| == 1 && k <= m <= |rows| && AllDecode(rows[k..m]) && pages[0].Page? &&
             pages[0].hosts == Hosts(rows[k..m])
    requires pages[0].nextCursor == None <==> m == |rows|
    ensures Lists(rows, k, m, pages)
  {
    assert Listed(pages) == pages[0].hosts + Listed(pages[1..]);
  }

  /** From any point of the catalog: the pages list, in order and without a gap or a repetition, what lies behind it,
    and every page that is not the last takes the traversal further. */
  lemma {:induction false} TraversalFrom<H(!new)>(rows: seq<Row<H>>, cursor: Option<string>, k: nat,
                                                  pages: seq<Answer<H>>)
    returns (m: nat)
    requires forall j :: 0 < j < |rows| ==> Resumes(rows, j)
    requires k <= |rows| && After(rows, cursor) == rows[k..] && Traversal(rows, cursor, pages)
    ensures k <= m <= |rows| && Lists(rows, k, m, pages)
    decreases |pages|
  {
    var n := PageFrom(rows, k, pages[0]);
    if |pages| == 1 {
      m := k + n;
      ListsOne(rows, k, m, pages);
    } else {
      assert Resumes(rows, k + n);
      m := TraversalFrom(rows, pages[0].nextCursor, k + n, pages[1..]);
      ListsPrepend(rows, k, k + n, m, pages);
    }
  }

  /** Every page but the last holds a host, and there are hosts left for the last. */
  lemma {:induction false} TraversalBounded<H(!new)>(rows: seq<Row<H>>, cursor: Option<string>, k: nat,
                                                     pages: seq<Answer<H>>)
    requires forall j :: 0 < j < |rows| ==> Resumes(rows, j)
    requires k <= |rows| && After(rows, cursor) == rows[k..] && Traversal(rows, cursor, pages)
    ensures if k < |rows| then |pages| <= |rows| - k else |pages| == 1
    decreases |pages|
  {
    var n := PageFrom(rows, k, pages[0]);
    if |pages| > 1 {
      assert Resumes(rows, k + n);
      TraversalBounded(rows, pages[0].nextCursor, k + n, pages[1..]);
    }
  }

  /** Following `nextCursor` to its end visits every host of a fixed catalog exactly once, in id order, whatever the
    limits and the budget of the single pages; and it ends, after no more pages than there are hosts. */
  lemma TraversalVisitsAll<H(!new)>(rows: seq<Row<H>>, pages: seq<Answer<H>>)
    requires Catalog(rows) && Traversal(rows, None, pages)
    ensures forall i :: 0 <= i < |pages| ==> pages[i].Page?
    ensures |pages| <= 1 || |pages| <= |rows|
    ensures pages[|pages| - 1].nextCursor == None ==> AllDecode(rows) && Listed(pages) == Hosts(rows)
  {
    SkipRows(rows, None, 0, |rows|);
    assert rows[..|rows|] == rows;
    CatalogResumes(rows);
    var m := TraversalFrom(rows, None, 0, pages);
    TraversalBounded(rows, None, 0, pages);
    assert rows[0..|rows|] == rows;
  }
}
