/** Contact requests: newest-first pages by keyset cursor, what following the cursors
    yields, and the bounded export. */
module Contacts {
  import opened Prelude

  datatype Status = New | Contacted | Qualified | Closed

  datatype Contact = Contact(createdAt: nat, id: Id, status: Status)

  /** The position of a row: rows are listed by descending time, then descending id. */
  datatype Cursor = Cursor(createdAt: nat, id: Id)

  function Position(r: Contact): Cursor {
    Cursor(r.createdAt, r.id)
  }

  predicate Older(a: Cursor, b: Cursor) {
    a.createdAt < b.createdAt || (a.createdAt == b.createdAt && a.id < b.id)
  }

  /** The primary key. */
  predicate UniqueIds(rows: set<Contact>) {
    forall a, b | a in rows && b in rows && a.id == b.id :: a == b
  }

  // ------------------------------------------------------------ the ordering

  predicate IsNewest(rows: set<Contact>, r: Contact) {
    r in rows && forall q | q in rows :: q == r || Older(Position(q), Position(r))
  }

  lemma {:induction false} NewestExists(rows: set<Contact>) returns (newest: Contact)
    requires rows != {} && UniqueIds(rows)
    ensures IsNewest(rows, newest)
  {
    var r :| r in rows;
    if rows == {r} {
      newest := r;
    } else {
      var other := NewestExists(rows - {r});
      newest := if Older(Position(other), Position(r)) then r else other;
    }
  }

  /** The rows from the newest to the oldest. */
  function Descending(rows: set<Contact>): seq<Contact>
    requires UniqueIds(rows)
  {
    if rows == {} then []
    else
      assert exists r :: IsNewest(rows, r) by { var r := NewestExists(rows); }
      var r :| IsNewest(rows, r);
      [r] + Descending(rows - {r})
  }

  predicate IsDescending(list: seq<Contact>) {
    forall i, j | 0 <= i < j < |list| :: Older(Position(list[j]), Position(list[i]))
  }

  /** Each row is listed once, and the list descends. */
  lemma {:induction false} DescendingLists(rows: set<Contact>)
    requires UniqueIds(rows)
    ensures IsDescending(Descending(rows))
    ensures forall r :: r in Descending(rows) <==> r in rows
    ensures |Descending(rows)| == |rows|
  {
    if rows != {} {
      var list := Descending(rows);
      assert list == [list[0]] + list[1..];
      SizeWithout(rows, list[0]);
      DescendingLists(rows - {list[0]});
      assert list[1..] == Descending(rows - {list[0]});
      forall i, j | 0 <= i < j < |list| ensures Older(Position(list[j]), Position(list[i])) {
        assert list[j] == list[1..][j - 1];
        if i > 0 {
          assert list[i] == list[1..][i - 1];
        } else {
          assert list[j] in list[1..];
        }
      }
    }
  }

  /** The descending list of a set of rows is the only one. */
  lemma {:induction false} DescendingIsUnique(rows: set<Contact>, list: seq<Contact>)
    requires UniqueIds(rows) && IsDescending(list)
    requires forall r :: r in list <==> r in rows
    ensures list == Descending(rows)
  {
    if list == [] {
      assert forall r :: r in list <==> r in rows;
      assert forall r :: r !in list;
      assert rows == {};
    } else {
      var first, rest := list[0], list[1..];
      assert first in list;
      assert IsNewest(rows, first) by {
        forall q | q in rows ensures q == first || Older(Position(q), Position(first)) {
          assert q in list;
        }
      }
      var head := Descending(rows)[0];
      assert IsNewest(rows, head) && head == first;
      forall r ensures r in rest <==> r in rows - {first} {
        if r in rest {
          var i :| 0 <= i < |rest| && rest[i] == r;
          assert list[i + 1] == r;
        }
        if r in rows - {first} {
          assert r in list;
        }
      }
      DescendingIsUnique(rows - {first}, rest);
    }
  }

  // -------------------------------------------------------------------- pages

  /** The rows a query selects: of the status asked for, if any, and older than the cursor. */
  function Matching(rows: set<Contact>, status: Option<Status>, before: Cursor): set<Contact> {
    set r | r in rows && (status.Some? ==> r.status == status.value) && Older(Position(r), before)
  }

  /** The whole list a query stands for. */
  function Listing(rows: set<Contact>, status: Option<Status>, before: Cursor): seq<Contact>
    requires UniqueIds(rows)
  {
    Descending(Matching(rows, status, before))
  }

  /** It holds each row the query selects once, newest first. */
  lemma ListingIsExact(rows: set<Contact>, status: Option<Status>, before: Cursor)
    requires UniqueIds(rows)
    ensures var listed, matching := Listing(rows, status, before), Matching(rows, status, before);
            IsDescending(listed) && |listed| == |matching| && forall r :: r in listed <==> r in matching
  {
    DescendingLists(Matching(rows, status, before));
  }

  /** The page size used for a requested one. */
  function PageSize(requested: Option<int>): (limit: nat)
    ensures 1 <= limit <= 200
    ensures requested.None? ==> limit == 50
    ensures requested.Some? && 1 <= requested.value <= 200 ==> limit == requested.value
    ensures requested.Some? && requested.value < 1 ==> limit == 1
    ensures requested.Some? && requested.value > 200 ==> limit == 200
  {
    Min(Max(if requested.Some? then requested.value else 50, 1), 200)
  }

  datatype Page = Page(requests: seq<Contact>, next: Option<Cursor>)

  /** One page: a row more than the page is fetched to see whether there are more. */
  function ListContactRequests(rows: set<Contact>, status: Option<Status>, before: Cursor, requested: Option<int>): Page
    requires UniqueIds(rows)
  {
    var limit := PageSize(requested);
    var listed := Listing(rows, status, before);
    var fetched := listed[..Min(|listed|, limit + 1)];
    var requests := fetched[..Min(|fetched|, limit)];
    Page(requests, if |fetched| > limit then Some(Position(requests[|requests| - 1])) else None)
  }

  lemma TailIsOlder(listed: seq<Contact>, k: nat, r: Contact)
    requires IsDescending(listed) && 0 < k <= |listed|
    ensures r in listed[k..] <==> r in listed && Older(Position(r), Position(listed[k - 1]))
  {
  }

  /** The rows after the k-th are those older than it. */
  lemma RowsAfter(rows: set<Contact>, status: Option<Status>, before: Cursor, k: nat)
    requires UniqueIds(rows)
    requires 0 < k <= |Listing(rows, status, before)|
    ensures var listed := Listing(rows, status, before);
            Listing(rows, status, Position(listed[k - 1])) == listed[k..]
  {
    hide Descending, Older;
    var matching := Matching(rows, status, before);
    var listed := Listing(rows, status, before);
    DescendingLists(matching);
    var later := Matching(rows, status, Position(listed[k - 1]));
    OlderThanOneIsOlder(listed[k - 1], before, later);
    assert listed[k - 1] in listed;
    forall r ensures r in listed[k..] <==> r in later {
      TailIsOlder(listed, k, r);
    }
    DescendingIsUnique(later, listed[k..]);
  }

  lemma OlderThanOneIsOlder(one: Contact, before: Cursor, later: set<Contact>)
    requires Older(Position(one), before) ==> forall r | r in later :: Older(Position(r), Position(one))
    ensures Older(Position(one), before) ==> forall r | r in later :: Older(Position(r), before)
  {
  }

  /** A page is the front of the list, and its cursor stands for the rest. */
  lemma PageIsFront(rows: set<Contact>, status: Option<Status>, before: Cursor, requested: Option<int>)
    requires UniqueIds(rows)
    ensures var listed := Listing(rows, status, before);
            var page := ListContactRequests(rows, status, before, requested);
            var n := |page.requests|;
            && n == Min(|listed|, PageSize(requested)) && page.requests == listed[..n]
            && (page.next.None? <==> n == |listed|)
            && (page.next.Some? ==>
                  && n > 0 && page.next.value == Position(listed[n - 1])
                  && Listing(rows, status, page.next.value) == listed[n..])
  {
    var listed := Listing(rows, status, before);
    var page := ListContactRequests(rows, status, before, requested);
    if page.next.Some? {
      RowsAfter(rows, status, before, |page.requests|);
    }
  }

  // ---------------------------------------------------------------- traversal

  /** Following the cursors: page p is read from the table as it is then, with whatever
      page size is asked for then; a traversal has at most the given number of pages. */
  function Traverse(
    tables: nat -> set<Contact>, status: Option<Status>, before: Cursor, sizes: nat -> Option<int>, p: nat, pages: nat
  ): seq<Contact>
    requires forall i: nat :: UniqueIds(tables(i))
    decreases pages
  {
    if pages == 0 then []
    else
      var page := ListContactRequests(tables(p), status, before, sizes(p));
      page.requests
      + if page.next.None? then []
        else Traverse(tables, status, page.next.value, sizes, p + 1, pages - 1)
  }

  /** A table grows only by rows newer than all it had. */
  ghost predicate OnlyNewerArrive(rows: set<Contact>, tables: nat -> set<Contact>) {
    && (forall i: nat :: rows <= tables(i))
    && (forall i: nat, r, q :: r in tables(i) && r !in rows && q in rows ==> Older(Position(q), Position(r)))
  }

  lemma ArrivalsAreNotOlder(
    rows: set<Contact>, tables: nat -> set<Contact>, i: nat, status: Option<Status>, from: Contact)
    requires OnlyNewerArrive(rows, tables) && from in rows
    ensures Matching(tables(i), status, Position(from)) == Matching(rows, status, Position(from))
  {
  }

  /** Whatever page sizes are asked for, and even while newer requests arrive between the
      pages, following the cursors from a first page of the table yields every matching row
      exactly once, newest first, in no more pages than there are rows, or one. */
  lemma {:induction false} TraversalIsTheList(
    rows: set<Contact>, tables: nat -> set<Contact>, status: Option<Status>, before: Cursor,
    sizes: nat -> Option<int>, p: nat, pages: nat)
    requires forall i: nat :: UniqueIds(tables(i))
    requires UniqueIds(rows) && OnlyNewerArrive(rows, tables)
    requires Matching(tables(p), status, before) == Matching(rows, status, before)
    requires pages >= Max(1, |Matching(rows, status, before)|)
    ensures Traverse(tables, status, before, sizes, p, pages) == Listing(rows, status, before)
    decreases pages
  {
    hide ListContactRequests, Listing, Matching, OnlyNewerArrive, UniqueIds;
    var listed := Listing(rows, status, before);
    var page := ListContactRequests(tables(p), status, before, sizes(p));
    NextPageAgrees(rows, tables, status, before, sizes(p), p);
    if page.next.Some? {
      TraversalIsTheList(rows, tables, status, page.next.value, sizes, p + 1, pages - 1);
    }
  }

  /** A page read while the table agrees on what is older than the cursor is the front of
      the list, and the next page's table agrees on the rest. */
  lemma NextPageAgrees(
    rows: set<Contact>, tables: nat -> set<Contact>, status: Option<Status>, before: Cursor,
    requested: Option<int>, p: nat)
    requires forall i: nat :: UniqueIds(tables(i))
    requires UniqueIds(rows) && OnlyNewerArrive(rows, tables)
    requires Matching(tables(p), status, before) == Matching(rows, status, before)
    ensures var listed := Listing(rows, status, before);
            var page := ListContactRequests(tables(p), status, before, requested);
            && (page.next.None? ==> page.requests == listed)
            && (page.next.Some? ==>
                  && var rest := Matching(rows, status, page.next.value);
                  && Matching(tables(p + 1), status, page.next.value) == rest
                  && listed == page.requests + Listing(rows, status, page.next.value)
                  && 0 < |rest| < |Matching(rows, status, before)|)
  {
    hide ListContactRequests, Descending, IsDescending, OnlyNewerArrive, UniqueIds;
    var listed := Listing(rows, status, before);
    PageIsFront(tables(p), status, before, requested);
    ListingIsExact(rows, status, before);
    var page := ListContactRequests(tables(p), status, before, requested);
    var n := |page.requests|;
    if page.next.Some? {
      var last := listed[n - 1];
      assert last in listed && last in rows;
      ArrivalsAreNotOlder(rows, tables, p + 1, status, last);
      ArrivalsAreNotOlder(rows, tables, p, status, last);
      ListingIsExact(rows, status, page.next.value);
    }
  }

  /** The same by columns: what is yielded are the rows of the status that are older than the
      cursor, none twice, each newer than the next. */
  lemma TraversalByColumns(
    rows: set<Contact>, tables: nat -> set<Contact>, status: Option<Status>, before: Cursor,
    sizes: nat -> Option<int>, p: nat, pages: nat)
    requires forall i: nat :: UniqueIds(tables(i))
    requires UniqueIds(rows) && OnlyNewerArrive(rows, tables) && tables(p) == rows
    requires pages >= Max(1, |rows|)
    ensures var list := Traverse(tables, status, before, sizes, p, pages);
            && (forall r :: r in list <==>
                  && r in rows && (status.Some? ==> r.status == status.value)
                  && (r.createdAt < before.createdAt || (r.createdAt == before.createdAt && r.id < before.id)))
            && (forall i, j :: 0 <= i < j < |list| ==>
                  || list[i].createdAt > list[j].createdAt
                  || (list[i].createdAt == list[j].createdAt && list[i].id > list[j].id))
  {
    hide OnlyNewerArrive, Traverse, Listing, UniqueIds;
    SizeMonotone(Matching(rows, status, before), rows);
    TraversalIsTheList(rows, tables, status, before, sizes, p, pages);
    ListingIsExact(rows, status, before);
  }

  // --------------------------------------------------------- without a cursor

  /** The cursor that stands for none: the largest safe time, and a last id. */
  function Start(lastId: Id): Cursor {
    Cursor(MAX_SAFE_INTEGER, lastId)
  }

  predicate HasStatus(r: Contact, status: Option<Status>) {
    status.Some? ==> r.status == status.value
  }

  /** The rows of a status, or all of them. */
  function WithStatus(rows: set<Contact>, status: Option<Status>): set<Contact> {
    set r | r in rows && HasStatus(r, status)
  }

  /** Every creation time is a safe integer. */
  predicate SafeTimes(rows: set<Contact>) {
    forall r | r in rows :: r.createdAt <= MAX_SAFE_INTEGER
  }

  /** Of the rows created at the largest safe time, those of the status come before the last
      id. */
  predicate LastIdIsLast(rows: set<Contact>, status: Option<Status>, lastId: Id) {
    forall r | r in rows && HasStatus(r, status) && r.createdAt == MAX_SAFE_INTEGER :: r.id < lastId
  }

  /** Without a cursor the list is that of the whole table if and only if no row of the
      status at the largest safe time has the last id or one after it. */
  lemma StartListsEverything(rows: set<Contact>, status: Option<Status>, lastId: Id)
    requires UniqueIds(rows) && SafeTimes(rows)
    ensures Listing(rows, status, Start(lastId)) == Descending(WithStatus(rows, status))
            <==> LastIdIsLast(rows, status, lastId)
  {
    hide Descending;
    var matching, all := Matching(rows, status, Start(lastId)), WithStatus(rows, status);
    if LastIdIsLast(rows, status, lastId) {
      assert matching == all;
    }
    if Descending(matching) == Descending(all) {
      DescendingLists(matching);
      DescendingLists(all);
      forall r | r in all && r.createdAt == MAX_SAFE_INTEGER ensures r.id < lastId {
        assert r in Descending(all) && r in matching;
      }
    }
  }

  /** Following the cursors from none covers the whole table, on the same condition. */
  lemma TraversalFromStart(
    rows: set<Contact>, tables: nat -> set<Contact>, status: Option<Status>, lastId: Id, sizes: nat -> Option<int>,
    pages: nat)
    requires forall i: nat :: UniqueIds(tables(i))
    requires UniqueIds(rows) && OnlyNewerArrive(rows, tables) && tables(0) == rows && SafeTimes(rows)
    requires pages >= Max(1, |rows|)
    ensures Traverse(tables, status, Start(lastId), sizes, 0, pages) == Descending(WithStatus(rows, status))
            <==> LastIdIsLast(rows, status, lastId)
  {
    SizeMonotone(Matching(rows, status, Start(lastId)), rows);
    TraversalIsTheList(rows, tables, status, Start(lastId), sizes, 0, pages);
    StartListsEverything(rows, status, lastId);
  }

  // ------------------------------------------------------------------- export

  const EXPORT_MAXIMUM_ROWS: nat := 5000

  /** Collects pages of two hundred from the start until there are no more or the maximum is
      reached: the first rows of the list, flagged as truncated exactly when there are more
      than that. */
  method Export(rows: set<Contact>, status: Option<Status>, lastId: Id)
    returns (requests: seq<Contact>, truncated: bool)
    requires UniqueIds(rows)
    ensures var listed := Listing(rows, status, Start(lastId));
            && requests == listed[..Min(|listed|, 5000)]
            && (truncated <==> |listed| > 5000)
    ensures SafeTimes(rows) && LastIdIsLast(rows, status, lastId) ==>
              var all := Descending(WithStatus(rows, status));
              && requests == all[..Min(|all|, 5000)]
              && (truncated <==> |WithStatus(rows, status)| > 5000)
  {
    ExportedFromStart(rows, status, lastId);
    requests, truncated := CollectPages(rows, status, Start(lastId));
  }

  lemma ExportedFromStart(rows: set<Contact>, status: Option<Status>, lastId: Id)
    requires UniqueIds(rows)
    ensures SafeTimes(rows) && LastIdIsLast(rows, status, lastId) ==>
              && Listing(rows, status, Start(lastId)) == Descending(WithStatus(rows, status))
              && |Listing(rows, status, Start(lastId))| == |WithStatus(rows, status)|
  {
    hide Listing;
    if SafeTimes(rows) {
      StartListsEverything(rows, status, lastId);
      DescendingLists(WithStatus(rows, status));
    }
  }

  method CollectPages(rows: set<Contact>, status: Option<Status>, start: Cursor)
    returns (requests: seq<Contact>, truncated: bool)
    requires UniqueIds(rows)
    ensures var listed := Listing(rows, status, start);
            && requests == listed[..Min(|listed|, 5000)]
            && (truncated <==> |listed| > 5000)
  {
    hide ListContactRequests, Listing, UniqueIds;
    ghost var listed := Listing(rows, status, start);
    var before := start;
    var next := None;
    var more := true;
    requests := [];
    while more
      invariant |requests| <= Min(|listed|, EXPORT_MAXIMUM_ROWS) && requests == listed[..|requests|]
      invariant |requests| % 200 == 0 || next.None?
      invariant more ==> Listing(rows, status, before) == listed[|requests|..]
      invariant more ==> |requests| % 200 == 0 && |requests| < EXPORT_MAXIMUM_ROWS
      invariant !more ==> (next.None? <==> |requests| == |listed|)
      invariant !more && next.Some? ==> |requests| >= EXPORT_MAXIMUM_ROWS
      decreases more, |listed| - |requests|
    {
      PageIsFront(rows, status, before, Some(200));
      var page := ListContactRequests(rows, status, before, Some(200));
      requests := requests + page.requests;
      next := page.next;
      if next.Some? {
        before := next.value;
      }
      more := next.Some? && |requests| < EXPORT_MAXIMUM_ROWS;
    }
    truncated := next.Some?;
  }
}
