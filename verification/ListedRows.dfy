/** Product lists in terms of the products' own fields: which rows are on the pages, and in what
    order. */
module ListedRows {
  import opened Wrappers
  import opened Entities
  import opened ProductRows
  import opened Text
  import opened Search
  import opened Cursors
  import opened Listing

  /** The workspace's products with the asked status whose name or sku holds the search string,
      whatever the letter case. */
  ghost predicate Wanted(row: ProductRow, w: Id, q: Query) {
    && row.workspaceId == w
    && (q.status == None || q.status == Some(row.status))
    && (q.search == "" || Contains(Lower(row.name), Lower(q.search))
        || exists sku :: row.sku == Some(sku) && Contains(Lower(sku), Lower(q.search)))
  }

  /** At the first difference `a` has the smaller character, or it ends there. */
  ghost predicate TextBefore(a: string, b: string) {
    exists n: nat :: n <= |a| && n < |b| && a[..n] == b[..n] && (n == |a| || a[n] < b[n])
  }

  /** Where a status stands in the order of their names. */
  function Rank(s: ProductStatus): nat {
    match s case Active => 0 case Archived => 1 case Draft => 2
  }

  /** `a` is listed before `b` when ascending: by the field, and by id among equals. */
  ghost predicate Ascends(rows: Rows, field: Field, a: Id, b: Id)
    requires a in rows && b in rows
  {
    match field
    case CreatedAt => rows[a].createdAt < rows[b].createdAt || (rows[a].createdAt == rows[b].createdAt && a < b)
    case Name => TextBefore(rows[a].name, rows[b].name) || (rows[a].name == rows[b].name && a < b)
    case Price => rows[a].price < rows[b].price || (rows[a].price == rows[b].price && a < b)
    case Status => Rank(rows[a].status) < Rank(rows[b].status) || (rows[a].status == rows[b].status && a < b)
  }

  ghost predicate Earlier(rows: Rows, q: Query, a: Id, b: Id)
    requires a in rows && b in rows
  {
    if q.descending then Ascends(rows, q.field, b, a) else Ascends(rows, q.field, a, b)
  }

  // --- the filter and the order -----------------------------------------------------

  lemma MatchesExactly(row: ProductRow, w: Id, q: Query)
    ensures Matches(row, w, q) <==> Wanted(row, w, q)
  {
    SearchIsContainment(row.name, q.search);
    if row.sku.Some? {
      SearchIsContainment(row.sku.value, q.search);
    }
  }

  lemma {:induction false} WordsExactly(a: string, b: string)
    ensures WordsBefore(a, b) <==> TextBefore(a, b)
    decreases a
  {
    if b == [] {
    } else if a == [] {
      assert a[..0] == b[..0];
    } else if a[0] == b[0] {
      WordsExactly(a[1..], b[1..]);
      if n: nat :| n <= |a[1..]| && n < |b[1..]| && a[1..][..n] == b[1..][..n] && (n == |a[1..]| || a[1..][n] < b[1..][n]) {
        assert a[..n + 1] == [a[0]] + a[1..][..n] && b[..n + 1] == [b[0]] + b[1..][..n];
      }
      if n: nat :| n <= |a| && n < |b| && a[..n] == b[..n] && (n == |a| || a[n] < b[n]) {
        assert n > 0;
        assert a[1..][..n - 1] == a[..n][1..] && b[1..][..n - 1] == b[..n][1..];
      }
    } else {
      assert a[..0] == b[..0];
      assert forall n: nat :: 0 < n <= |a| && n < |b| && a[..n] == b[..n] ==> a[..n][0] == b[..n][0];
    }
  }

  lemma StatusesInOrder(a: ProductStatus, b: ProductStatus)
    ensures WordsBefore(StatusText(a), StatusText(b)) <==> Rank(a) < Rank(b)
    ensures StatusText(a) == StatusText(b) <==> a == b
  {
    assert "active"[0] == 'a' && "active"[1] == 'c' && "archived"[0] == 'a' && "archived"[1] == 'r' && "draft"[0] == 'd';
    assert "active"[1..][0] == 'c' && "archived"[1..][0] == 'r';
    WordsAreOrdered(StatusText(a), StatusText(b), StatusText(a));
  }

  lemma PrecedesExactly(rows: Rows, q: Query, a: Id, b: Id)
    requires a in rows && b in rows
    ensures Precedes(q, At(rows, q, a), At(rows, q, b)) <==> Earlier(rows, q, a, b)
  {
    WordsExactly(rows[a].name, rows[b].name);
    WordsExactly(rows[b].name, rows[a].name);
    StatusesInOrder(rows[a].status, rows[b].status);
    StatusesInOrder(rows[b].status, rows[a].status);
  }

  // --- numbered pages ---------------------------------------------------------------

  lemma {:induction false} OnSomePage(rows: Rows, w: Id, q: Query, n: nat, size: nat, id: Id)
    requires size >= 1
    ensures id in Pages(rows, w, q, n, size) <==> exists page: nat | 1 <= page <= n :: id in Page(rows, w, q, page, size).0
  {
    if n > 0 {
      OnSomePage(rows, w, q, n - 1, size, id);
      assert Pages(rows, w, q, n, size) == Pages(rows, w, q, n - 1, size) + Page(rows, w, q, n, size).0;
    }
  }

  /** A row is on some numbered page if and only if it is a wanted one, and each page says how
      many there are. */
  lemma PagesListExactly(rows: Rows, w: Id, q: Query, size: nat, id: Id)
    requires size >= 1
    ensures (exists page: nat | page >= 1 :: id in Page(rows, w, q, page, size).0) <==> id in rows && Wanted(rows[id], w, q)
    ensures forall page: nat | page >= 1 ::
              Page(rows, w, q, page, size).1 == |set o | o in rows && Wanted(rows[o], w, q)|
  {
    var all, n := Filtered(rows, w, q), PageCount(|Filtered(rows, w, q)|, size);
    PagesAreSortAndSlice(rows, w, q, size);
    OrderedSorts(rows, q, all);
    OnSomePage(rows, w, q, n, size, id);
    forall o <- rows ensures Matches(rows[o], w, q) <==> Wanted(rows[o], w, q) {
      MatchesExactly(rows[o], w, q);
    }
    assert all == set o | o in rows && Wanted(rows[o], w, q);
  }

  /** Earlier rows stand before later ones. */
  ghost predicate InOrder(rows: Rows, q: Query, items: seq<Id>) {
    && (forall id <- items :: id in rows)
    && forall i, j | 0 <= i < j < |items| :: Earlier(rows, q, items[i], items[j])
  }

  /** All of `a` stand before all of `b`. */
  ghost predicate AllBefore(rows: Rows, q: Query, a: seq<Id>, b: seq<Id>) {
    && (forall id <- a + b :: id in rows)
    && forall i, j | 0 <= i < |a| && 0 <= j < |b| :: Earlier(rows, q, a[i], b[j])
  }

  function Cut(all: seq<Id>, offset: nat, size: nat): seq<Id> {
    if offset >= |all| then [] else all[offset..Min(offset + size, |all|)]
  }

  lemma OrderedInOrder(rows: Rows, q: Query, ids: set<Id>)
    requires ids <= rows.Keys
    ensures InOrder(rows, q, Ordered(rows, q, ids))
  {
    var all := Ordered(rows, q, ids);
    OrderedSorts(rows, q, ids);
    forall i, j | 0 <= i < j < |all| ensures Earlier(rows, q, all[i], all[j]) {
      PrecedesExactly(rows, q, all[i], all[j]);
    }
  }

  lemma CutsInOrder(rows: Rows, q: Query, all: seq<Id>, offset: nat, offset': nat, size: nat)
    requires InOrder(rows, q, all) && offset + size <= offset'
    ensures InOrder(rows, q, Cut(all, offset, size))
    ensures AllBefore(rows, q, Cut(all, offset, size), Cut(all, offset', size))
  {
    var a, b := Cut(all, offset, size), Cut(all, offset', size);
    assert forall i | 0 <= i < |a| :: a[i] == all[offset + i];
    assert forall j | 0 <= j < |b| :: b[j] == all[offset' + j];
  }

  /** Within a page the rows are in order; every row of a page is before every row of a later one. */
  lemma PagesAreInOrder(rows: Rows, w: Id, q: Query, page: nat, page': nat, size: nat)
    requires size >= 1 && 1 <= page < page'
    ensures InOrder(rows, q, Page(rows, w, q, page, size).0)
    ensures AllBefore(rows, q, Page(rows, w, q, page, size).0, Page(rows, w, q, page', size).0)
  {
    PageIsASlice(rows, w, q, page, size);
    PageIsASlice(rows, w, q, page', size);
    OnePageMore(page, size);
    Monotone(page, page' - 1, size);
    OrderedInOrder(rows, q, Filtered(rows, w, q));
    CutsInOrder(rows, q, Ordered(rows, q, Filtered(rows, w, q)), (page - 1) * size, (page' - 1) * size, size);
  }

  // --- cursor pages -----------------------------------------------------------------

  /** A wanted row past row `from`, if there is one to be past. */
  ghost predicate Ahead(rows: Rows, w: Id, q: Query, from: Option<Id>, id: Id)
    requires from.Some? ==> from.value in rows
  {
    id in rows && Wanted(rows[id], w, q) && (from.Some? ==> Earlier(rows, q, from.value, id))
  }

  function PositionOf(rows: Rows, q: Query, from: Option<Id>): Option<Position>
    requires from.Some? ==> from.value in rows
  {
    if from.None? then None else Some(At(rows, q, from.value))
  }

  lemma RestIsAhead(rows: Rows, w: Id, q: Query, from: Option<Id>)
    requires from.Some? ==> from.value in rows
    ensures forall id :: id in Rest(rows, w, q, PositionOf(rows, q, from)) <==> Ahead(rows, w, q, from, id)
  {
    forall id ensures id in Rest(rows, w, q, PositionOf(rows, q, from)) <==> Ahead(rows, w, q, from, id) {
      if id in rows {
        MatchesExactly(rows[id], w, q);
        if from.Some? {
          PrecedesExactly(rows, q, from.value, id);
        }
      }
    }
  }

  /** `items` are the rows `ahead`, in order, as many as fit; those that do not are all later. */
  ghost predicate FirstOf(rows: Rows, q: Query, ahead: set<Id>, items: seq<Id>, size: nat) {
    && InOrder(rows, q, items) && |items| <= size && (forall id <- items :: id in ahead) && ahead <= rows.Keys
    && forall id <- ahead :: id in items || (|items| == size && AllBefore(rows, q, items, [id]))
  }

  lemma CutIsFirst(rows: Rows, q: Query, ahead: set<Id>, all: seq<Id>, size: nat)
    requires InOrder(rows, q, all) && Lists(all, ahead)
    ensures FirstOf(rows, q, ahead, all[..Min(size, |all|)], size)
  {
    var items := all[..Min(size, |all|)];
    forall id <- ahead ensures id in items || (|items| == size && AllBefore(rows, q, items, [id])) {
      var j :| 0 <= j < |all| && all[j] == id;
      assert j < |items| ==> items[j] == id;
    }
  }

  /** A cursor page has the wanted rows past its cursor, in order, as many as fit; those that do
      not fit are all later. There is a next cursor exactly when there are some. */
  lemma CursorPagesListExactly(f: Framing<Position>, rows: Rows, w: Id, q: Query, from: Option<Id>, size: nat)
    requires Inverts(f) && size >= 1 && (from.Some? ==> from.value in rows)
    ensures var page := After(f, rows, w, q, CursorOf(f, PositionOf(rows, q, from)), size);
            var ahead := set id | id in rows && Ahead(rows, w, q, from, id);
            && page.Some? && FirstOf(rows, q, ahead, page.value.items, size)
            && (page.value.next.Some? <==> |ahead| > size)
            && (from == None ==> page == After(f, rows, w, q, Some(""), size))
  {
    var position := PositionOf(rows, q, from);
    var rest := Rest(rows, w, q, position);
    AfterOwnCursor(f, rows, w, q, position, size);
    OrderedSorts(rows, q, rest);
    RestIsAhead(rows, w, q, from);
    assert rest == set id | id in rows && Ahead(rows, w, q, from, id);
    OrderedInOrder(rows, q, rest);
    CutIsFirst(rows, q, rest, Ordered(rows, q, rest), size);
    assert AfterPosition(f, rows, w, q, position, size).items == Ordered(rows, q, rest)[..Min(size, |rest|)];
  }
}
