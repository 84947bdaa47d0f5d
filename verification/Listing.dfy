/** Product lists (app/infrastructure/db/repositories.py, `page`, `after`, `_filtered`, `_order`;
    app/application/products.py). Numbered pages slice the sorted rows; a cursor page fetches
    the rows past a position. Text is compared by code point. */
module Listing {
  import opened Wrappers
  import opened Entities
  import opened ProductRows
  import opened Search
  import opened Cursors

  type Rows = map<Id, ProductRow>

  // --- what is listed, and in which order -------------------------------------------

  datatype Field = CreatedAt | Name | Price | Status

  datatype Query = Query(search: string, status: Option<ProductStatus>, field: Field, descending: bool)

  datatype SortValue = Number(n: int) | Words(s: string)

  datatype Position = Position(value: SortValue, id: Id)

  function StatusText(s: ProductStatus): string {
    match s case Active => "active" case Draft => "draft" case Archived => "archived"
  }

  function SortValueOf(row: ProductRow, field: Field): SortValue {
    match field
    case CreatedAt => Number(row.createdAt)
    case Name => Words(row.name)
    case Price => Number(row.price)
    case Status => Words(StatusText(row.status))
  }

  function At(rows: Rows, q: Query, id: Id): Position
    requires id in rows
  {
    Position(SortValueOf(rows[id], q.field), id)
  }

  predicate WordsBefore(a: string, b: string) {
    b != [] && (a == [] || a[0] < b[0] || (a[0] == b[0] && WordsBefore(a[1..], b[1..])))
  }

  predicate ValueBefore(a: SortValue, b: SortValue) {
    match (a, b)
    case (Number(m), Number(n)) => m < n
    case (Words(s), Words(t)) => WordsBefore(s, t)
    case (Number(_), Words(_)) => true
    case (Words(_), Number(_)) => false
  }

  /** Ties of the sort value are broken by the id: the row comparison of SQL. */
  predicate Before(a: Position, b: Position) {
    ValueBefore(a.value, b.value) || (a.value == b.value && a.id < b.id)
  }

  /** Descending reverses both columns. */
  predicate Precedes(q: Query, a: Position, b: Position) {
    if q.descending then Before(b, a) else Before(a, b)
  }

  predicate Matches(row: ProductRow, w: Id, q: Query) {
    && row.workspaceId == w
    && (q.status.Some? ==> row.status == q.status.value)
    && (q.search != "" ==>
          ILike(row.name, Pattern(q.search)) || (row.sku.Some? && ILike(row.sku.value, Pattern(q.search))))
  }

  function Filtered(rows: Rows, w: Id, q: Query): set<Id> {
    set id <- rows | Matches(rows[id], w, q)
  }

  // --- the order is total -----------------------------------------------------------

  lemma {:induction false} WordsAreOrdered(a: string, b: string, c: string)
    ensures !WordsBefore(a, a)
    ensures WordsBefore(a, b) && WordsBefore(b, c) ==> WordsBefore(a, c)
    ensures a == b || WordsBefore(a, b) || WordsBefore(b, a)
    decreases |a| + |b| + |c|
  {
    if a != [] && b != [] && c != [] {
      WordsAreOrdered(a[1..], b[1..], c[1..]);
      assert a[0] == b[0] && a[1..] == b[1..] ==> a == [a[0]] + a[1..] == b;
    } else if a != [] && b != [] {
      WordsAreOrdered(a[1..], b[1..], c);
      assert a[0] == b[0] && a[1..] == b[1..] ==> a == [a[0]] + a[1..] == b;
    } else if a != [] {
      WordsAreOrdered(a[1..], b, c);
    }
  }

  lemma Ordering(q: Query, a: Position, b: Position, c: Position)
    ensures !Precedes(q, a, a)
    ensures Precedes(q, a, b) && Precedes(q, b, c) ==> Precedes(q, a, c)
    ensures a == b || Precedes(q, a, b) || Precedes(q, b, a)
  {
    if a.value.Words? && b.value.Words? {
      WordsAreOrdered(a.value.s, b.value.s, if c.value.Words? then c.value.s else "");
      WordsAreOrdered(if c.value.Words? then c.value.s else "", b.value.s, a.value.s);
    }
    if a.value.Words? {
      WordsAreOrdered(a.value.s, "", "");
    }
  }

  // --- sorting ----------------------------------------------------------------------

  ghost predicate IsFirst(rows: Rows, q: Query, ids: set<Id>, first: Id)
    requires ids <= rows.Keys
  {
    first in ids && forall id <- ids :: id == first || Precedes(q, At(rows, q, first), At(rows, q, id))
  }

  lemma {:induction false} SomeFirst(rows: Rows, q: Query, ids: set<Id>)
    requires ids <= rows.Keys && ids != {}
    ensures exists first :: IsFirst(rows, q, ids, first)
    decreases ids
  {
    var x :| x in ids;
    if ids == {x} {
      assert IsFirst(rows, q, ids, x);
    } else {
      SomeFirst(rows, q, ids - {x});
      var y :| IsFirst(rows, q, ids - {x}, y);
      var first := if Precedes(q, At(rows, q, x), At(rows, q, y)) then x else y;
      forall id <- ids ensures id == first || Precedes(q, At(rows, q, first), At(rows, q, id)) {
        Ordering(q, At(rows, q, x), At(rows, q, y), At(rows, q, id));
      }
      assert IsFirst(rows, q, ids, first);
    }
  }

  /** ORDER BY. */
  ghost function Ordered(rows: Rows, q: Query, ids: set<Id>): seq<Id>
    requires ids <= rows.Keys
  {
    if ids == {} then []
    else
      SomeFirst(rows, q, ids);
      var first :| IsFirst(rows, q, ids, first);
      [first] + Ordered(rows, q, ids - {first})
  }

  ghost predicate Sorted(rows: Rows, q: Query, s: seq<Id>) {
    && (forall id <- s :: id in rows)
    && forall i, j | 0 <= i < j < |s| :: Precedes(q, At(rows, q, s[i]), At(rows, q, s[j]))
  }

  ghost predicate Lists(s: seq<Id>, ids: set<Id>) {
    forall id :: id in s <==> id in ids
  }

  lemma {:induction false} OrderedSorts(rows: Rows, q: Query, ids: set<Id>)
    requires ids <= rows.Keys
    ensures Sorted(rows, q, Ordered(rows, q, ids)) && Lists(Ordered(rows, q, ids), ids)
    ensures |Ordered(rows, q, ids)| == |ids|
    decreases ids
  {
    if ids != {} {
      var s := Ordered(rows, q, ids);
      var first := s[0];
      assert IsFirst(rows, q, ids, first) && s == [first] + Ordered(rows, q, ids - {first});
      OrderedSorts(rows, q, ids - {first});
    }
  }

  lemma HeadOnce(rows: Rows, q: Query, s: seq<Id>)
    requires Sorted(rows, q, s) && s != []
    ensures Sorted(rows, q, s[1..]) && forall id :: id in s[1..] <==> id in s && id != s[0]
  {
    Ordering(q, At(rows, q, s[0]), At(rows, q, s[0]), At(rows, q, s[0]));
    forall id ensures id in s[1..] <==> id in s && id != s[0] {
      if id in s[1..] {
        var i :| 0 <= i < |s[1..]| && s[1..][i] == id;
        assert s[i + 1] == id;
      }
    }
  }

  /** Only one list of these rows is sorted. */
  lemma {:induction false} SortedIsUnique(rows: Rows, q: Query, a: seq<Id>, b: seq<Id>)
    requires Sorted(rows, q, a) && Sorted(rows, q, b)
    requires forall id :: id in a <==> id in b
    ensures a == b
    decreases a
  {
    assert b != [] ==> b[0] in b;
    if a == [] {
    } else {
      assert a[0] in b;
      assert b[0] in a;
      var i :| 0 <= i < |b| && b[i] == a[0];
      var j :| 0 <= j < |a| && a[j] == b[0];
      Ordering(q, At(rows, q, a[0]), At(rows, q, b[0]), At(rows, q, a[0]));
      assert a[0] == b[0];
      HeadOnce(rows, q, a);
      HeadOnce(rows, q, b);
      SortedIsUnique(rows, q, a[1..], b[1..]);
      assert a == [a[0]] + a[1..] && b == [b[0]] + b[1..];
    }
  }

  // --- numbered pages ---------------------------------------------------------------

  /** `page`: the rows and how many match in all. Page numbers and sizes are at least 1. */
  ghost function Page(rows: Rows, w: Id, q: Query, page: nat, size: nat): (seq<Id>, nat)
    requires page >= 1 && size >= 1
  {
    var total := |Filtered(rows, w, q)|;
    var offset := (page - 1) * size;
    if offset >= total then ([], total)
    else
      OrderedSorts(rows, q, Filtered(rows, w, q));
      (Ordered(rows, q, Filtered(rows, w, q))[offset..Min(offset + size, total)], total)
  }

  /** Pages 1 to n, one after the other. */
  ghost function Pages(rows: Rows, w: Id, q: Query, n: nat, size: nat): seq<Id>
    requires size >= 1
  {
    if n == 0 then [] else Pages(rows, w, q, n - 1, size) + Page(rows, w, q, n, size).0
  }

  lemma OnePageMore(n: int, size: int)
    requires n >= 1
    ensures n * size == (n - 1) * size + size
  {}

  lemma NextSlice(all: seq<Id>, offset: nat, size: nat)
    ensures all[..Min(offset, |all|)] + (if offset >= |all| then [] else all[offset..Min(offset + size, |all|)])
         == all[..Min(offset + size, |all|)]
  {}

  lemma PageIsASlice(rows: Rows, w: Id, q: Query, page: nat, size: nat)
    requires page >= 1 && size >= 1
    ensures 0 <= (page - 1) * size
    ensures var all, offset := Ordered(rows, q, Filtered(rows, w, q)), (page - 1) * size;
            && |all| == |Filtered(rows, w, q)|
            && Page(rows, w, q, page, size).0 == if offset >= |all| then [] else all[offset..Min(offset + size, |all|)]
  {
    OrderedSorts(rows, q, Filtered(rows, w, q));
  }

  lemma OnePageExtends(rows: Rows, w: Id, q: Query, m: nat, n: nat, size: nat, offset: nat)
    requires size >= 1 && offset == m * size && n == m + 1
    requires var all := Ordered(rows, q, Filtered(rows, w, q)); Pages(rows, w, q, m, size) == all[..Min(offset, |all|)]
    ensures var all := Ordered(rows, q, Filtered(rows, w, q)); Pages(rows, w, q, n, size) == all[..Min(offset + size, |all|)]
  {
    PageIsASlice(rows, w, q, n, size);
    NextSlice(Ordered(rows, q, Filtered(rows, w, q)), offset, size);
  }

  /** Where page `n + 1` starts. */
  function Offset(n: nat, size: nat): nat {
    if n == 0 then 0 else Offset(n - 1, size) + size
  }

  lemma {:induction false} OffsetIsProduct(n: nat, size: nat)
    ensures Offset(n, size) == n * size
  {
    if n > 0 {
      OffsetIsProduct(n - 1, size);
      OnePageMore(n, size);
    }
  }

  lemma {:induction false} PagesAreAPrefix(rows: Rows, w: Id, q: Query, n: nat, size: nat)
    requires size >= 1
    ensures var all := Ordered(rows, q, Filtered(rows, w, q));
            |all| == |Filtered(rows, w, q)| && Pages(rows, w, q, n, size) == all[..Min(Offset(n, size), |all|)]
  {
    OrderedSorts(rows, q, Filtered(rows, w, q));
    if n > 0 {
      var m: nat := n - 1;
      PagesAreAPrefix(rows, w, q, m, size);
      OffsetIsProduct(m, size);
      OnePageExtends(rows, w, q, m, n, size, Offset(m, size));
    }
  }

  function PageCount(total: nat, size: nat): nat
    requires size >= 1
  {
    (total + size - 1) / size
  }

  lemma Monotone(m: int, n: int, size: int)
    requires m <= n && size >= 0
    ensures m * size <= n * size
  {}

  lemma CountCovers(total: nat, size: nat, page: int)
    requires size >= 1 && page > PageCount(total, size)
    ensures PageCount(total, size) * size >= total && (page - 1) * size >= total
  {
    var n := PageCount(total, size);
    assert n * size >= total by {
      assert total + size - 1 == n * size + (total + size - 1) % size;
    }
    Monotone(n, page - 1, size);
  }

  /** The numbered pages together are the sorted rows; a later page is empty. */
  lemma PagesAreSortAndSlice(rows: Rows, w: Id, q: Query, size: nat)
    requires size >= 1
    ensures var all := Filtered(rows, w, q);
            && Pages(rows, w, q, PageCount(|all|, size), size) == Ordered(rows, q, all)
            && forall page: nat | page > PageCount(|all|, size) :: Page(rows, w, q, page, size) == ([], |all|)
  {
    var total := |Filtered(rows, w, q)|;
    CountCovers(total, size, PageCount(total, size) + 1);
    PagesAreAPrefix(rows, w, q, PageCount(total, size), size);
    OffsetIsProduct(PageCount(total, size), size);
    forall page: nat | page > PageCount(total, size) ensures Page(rows, w, q, page, size) == ([], total) {
      CountCovers(total, size, page);
    }
  }

  // --- cursor pages -----------------------------------------------------------------

  datatype Slice = Slice(items: seq<Id>, next: Option<string>)

  /** The matching rows past a position; from the start, all of them. */
  function Rest(rows: Rows, w: Id, q: Query, from: Option<Position>): set<Id> {
    set id <- Filtered(rows, w, q) | from.None? || Precedes(q, from.value, At(rows, q, id))
  }

  /** The rest of `after`, once the cursor is decoded: one row more than the page is fetched to
      see whether another page follows. */
  ghost function AfterPosition(f: Framing<Position>, rows: Rows, w: Id, q: Query, from: Option<Position>,
                               size: nat): Slice
    requires size >= 1
  {
    var all := Ordered(rows, q, Rest(rows, w, q, from));
    var fetched := all[..Min(size + 1, |all|)];
    if |fetched| <= size then Slice(fetched, None)
    else
      OrderedSorts(rows, q, Rest(rows, w, q, from));
      Slice(fetched[..size], Some(EncodeCursor(f, At(rows, q, fetched[size - 1]))))
  }

  /** `after`; an absent or empty cursor starts at the first row, and one that does not decode
      is an error. */
  ghost function After(f: Framing<Position>, rows: Rows, w: Id, q: Query, cursor: Option<string>,
                       size: nat): Option<Slice>
    requires size >= 1
  {
    if cursor.None? || cursor.value == "" then Some(AfterPosition(f, rows, w, q, None, size))
    else
      var from := DecodeCursor(f, cursor.value);
      if from.None? then None else Some(AfterPosition(f, rows, w, q, from, size))
  }

  function CursorOf(f: Framing<Position>, from: Option<Position>): Option<string> {
    if from.None? then None else Some(EncodeCursor(f, from.value))
  }

  /** What a client gets with a cursor the server made. */
  lemma AfterOwnCursor(f: Framing<Position>, rows: Rows, w: Id, q: Query, from: Option<Position>, size: nat)
    requires Inverts(f) && size >= 1
    ensures After(f, rows, w, q, CursorOf(f, from), size) == Some(AfterPosition(f, rows, w, q, from, size))
  {
    if from.Some? {
      CursorRoundTrips(f, from.value);
    }
  }

  /** The position the next page starts after, when there is one. */
  ghost function NextPosition(rows: Rows, w: Id, q: Query, from: Option<Position>, size: nat): Option<Position>
    requires size >= 1
  {
    var all := Ordered(rows, q, Rest(rows, w, q, from));
    OrderedSorts(rows, q, Rest(rows, w, q, from));
    if |all| <= size then None else Some(At(rows, q, all[size - 1]))
  }

  lemma {:induction false} SortedTail(rows: Rows, q: Query, s: seq<Id>, n: nat)
    requires Sorted(rows, q, s) && 0 < n <= |s|
    ensures Sorted(rows, q, s[n..])
    ensures forall id :: id in s[n..] <==> id in s && Precedes(q, At(rows, q, s[n - 1]), At(rows, q, id))
  {
    var last := At(rows, q, s[n - 1]);
    forall id <- s ensures id in s[n..] <==> Precedes(q, last, At(rows, q, id)) {
      var i :| 0 <= i < |s| && s[i] == id;
      Ordering(q, last, At(rows, q, id), last);
      if i >= n {
        assert s[n..][i - n] == id;
      } else {
        assert i < n - 1 ==> Precedes(q, At(rows, q, id), last);
        assert forall j | n <= j < |s| :: s[j] == id ==> Precedes(q, last, At(rows, q, id));
      }
    }
  }

  /** The rest past the last row of a page is the sorted rest without that page. */
  lemma RestIsTheTail(rows: Rows, w: Id, q: Query, from: Option<Position>, size: nat)
    requires size >= 1 && NextPosition(rows, w, q, from, size).Some?
    ensures var all := Ordered(rows, q, Rest(rows, w, q, from));
            var next := NextPosition(rows, w, q, from, size);
            && |all| > size
            && Ordered(rows, q, Rest(rows, w, q, next)) == all[size..]
            && |Rest(rows, w, q, next)| < |Rest(rows, w, q, from)|
  {
    var all := Ordered(rows, q, Rest(rows, w, q, from));
    var next := NextPosition(rows, w, q, from, size);
    OrderedSorts(rows, q, Rest(rows, w, q, from));
    OrderedSorts(rows, q, Rest(rows, w, q, next));
    SortedTail(rows, q, all, size);
    assert all[size - 1] in Rest(rows, w, q, from);
    forall id <- Rest(rows, w, q, next) ensures id in all {
      if from.Some? {
        Ordering(q, from.value, next.value, At(rows, q, id));
      }
    }
    SortedIsUnique(rows, q, Ordered(rows, q, Rest(rows, w, q, next)), all[size..]);
  }

  /** Following the cursors from a position until a page has none. */
  ghost function Walk(f: Framing<Position>, rows: Rows, w: Id, q: Query, from: Option<Position>, size: nat): seq<Id>
    requires size >= 1 && Inverts(f)
    decreases |Rest(rows, w, q, from)|
  {
    var page := After(f, rows, w, q, CursorOf(f, from), size);
    if page.None? then []
    else if page.value.next.None? then page.value.items
    else
      var next := DecodeCursor(f, page.value.next.value);
      if next.None? then page.value.items
      else
        NextDecodes(f, rows, w, q, from, size);
        page.value.items + Walk(f, rows, w, q, next, size)
  }

  lemma NextDecodes(f: Framing<Position>, rows: Rows, w: Id, q: Query, from: Option<Position>, size: nat)
    requires size >= 1 && Inverts(f)
    ensures var page := AfterPosition(f, rows, w, q, from, size);
            var next := NextPosition(rows, w, q, from, size);
            && After(f, rows, w, q, CursorOf(f, from), size) == Some(page)
            && (page.next.Some? <==> next.Some?)
            && (next.Some? ==> DecodeCursor(f, page.next.value) == next)
            && (next.Some? ==> |Rest(rows, w, q, next)| < |Rest(rows, w, q, from)|)
  {
    AfterOwnCursor(f, rows, w, q, from, size);
    OrderedSorts(rows, q, Rest(rows, w, q, from));
    var next := NextPosition(rows, w, q, from, size);
    if next.Some? {
      CursorRoundTrips(f, next.value);
      RestIsTheTail(rows, w, q, from, size);
    }
  }

  /** One page of a walk, then the walk from its last row. */
  lemma WalkGoesOn(f: Framing<Position>, rows: Rows, w: Id, q: Query, from: Option<Position>, size: nat)
    requires size >= 1 && Inverts(f)
    ensures var page, next := AfterPosition(f, rows, w, q, from, size), NextPosition(rows, w, q, from, size);
            next.None? ==> Walk(f, rows, w, q, from, size) == page.items
    ensures var page, next := AfterPosition(f, rows, w, q, from, size), NextPosition(rows, w, q, from, size);
            next.Some? ==> Walk(f, rows, w, q, from, size) == page.items + Walk(f, rows, w, q, next, size)
  {
    NextDecodes(f, rows, w, q, from, size);
  }

  lemma PageItems(f: Framing<Position>, rows: Rows, w: Id, q: Query, from: Option<Position>, size: nat)
    requires size >= 1
    ensures var items, all := AfterPosition(f, rows, w, q, from, size).items, Ordered(rows, q, Rest(rows, w, q, from));
            if |all| <= size then items == all else items + all[size..] == all
  {
    var all := Ordered(rows, q, Rest(rows, w, q, from));
    assert |all| > size ==> all[..size + 1][..size] == all[..size];
    assert |all| <= size ==> all[..|all|] == all;
  }

  lemma {:induction false} WalkIsTheRest(f: Framing<Position>, rows: Rows, w: Id, q: Query, from: Option<Position>,
                                         size: nat)
    requires size >= 1 && Inverts(f)
    ensures Walk(f, rows, w, q, from, size) == Ordered(rows, q, Rest(rows, w, q, from))
    decreases |Rest(rows, w, q, from)|
  {
    var next := NextPosition(rows, w, q, from, size);
    WalkGoesOn(f, rows, w, q, from, size);
    PageItems(f, rows, w, q, from, size);
    if next.Some? {
      RestIsTheTail(rows, w, q, from, size);
      WalkIsTheRest(f, rows, w, q, next, size);
    }
  }

  /** Walking the cursors over fixed data ends, and lists exactly what the numbered pages do:
      the matching rows, sorted, each once. */
  lemma WalkIsSortAndSlice(f: Framing<Position>, rows: Rows, w: Id, q: Query, size: nat)
    requires size >= 1 && Inverts(f)
    ensures var all, walk := Filtered(rows, w, q), Walk(f, rows, w, q, None, size);
            && walk == Ordered(rows, q, all) == Pages(rows, w, q, PageCount(|all|, size), size)
            && Sorted(rows, q, walk) && Lists(walk, all) && |walk| == |all|
  {
    WalkIsTheRest(f, rows, w, q, None, size);
    assert Rest(rows, w, q, None) == Filtered(rows, w, q);
    OrderedSorts(rows, q, Filtered(rows, w, q));
    PagesAreSortAndSlice(rows, w, q, size);
  }

  // --- walking while rows change ----------------------------------------------------

  /** One page of a walk: the rows as they were then, the cursor sent and the page returned. */
  datatype Visit = Visit(rows: Rows, cursor: Option<string>, page: Slice)

  /** A client follows the cursors from the start; anything may happen to the rows between two
      pages. */
  ghost predicate IsWalk(f: Framing<Position>, w: Id, q: Query, size: nat, visits: seq<Visit>)
    requires size >= 1
  {
    && visits != [] && visits[0].cursor.None?
    && (forall k | 0 <= k < |visits| :: After(f, visits[k].rows, w, q, visits[k].cursor, size) == Some(visits[k].page))
    && (forall k | 0 <= k < |visits| - 1 :: visits[k].page.next.Some? && visits[k + 1].cursor == visits[k].page.next)
  }

  ghost predicate Completed(visits: seq<Visit>) {
    visits != [] && visits[|visits| - 1].page.next.None?
  }

  /** Where visit `k` starts. */
  ghost function StartOf(w: Id, q: Query, size: nat, visits: seq<Visit>, k: nat): Option<Position>
    requires size >= 1 && k <= |visits|
  {
    if k == 0 then None else NextPosition(visits[k - 1].rows, w, q, StartOf(w, q, size, visits, k - 1), size)
  }

  lemma {:induction false} VisitsFollowPositions(f: Framing<Position>, w: Id, q: Query, size: nat,
                                                 visits: seq<Visit>, k: nat)
    requires size >= 1 && Inverts(f) && IsWalk(f, w, q, size, visits) && k < |visits|
    ensures var from := StartOf(w, q, size, visits, k);
            && visits[k].cursor == CursorOf(f, from)
            && visits[k].page == AfterPosition(f, visits[k].rows, w, q, from, size)
    decreases k
  {
    if k > 0 {
      VisitsFollowPositions(f, w, q, size, visits, k - 1);
      assert visits[(k - 1) + 1].cursor == visits[k - 1].page.next;
    }
    AfterOwnCursor(f, visits[k].rows, w, q, StartOf(w, q, size, visits, k), size);
  }

  /** The sort key of the `i`-th row of page `k`, when it was returned. */
  ghost function Shown(q: Query, visits: seq<Visit>, k: nat, i: nat): Position
    requires k < |visits| && i < |visits[k].page.items| && visits[k].page.items[i] in visits[k].rows
  {
    At(visits[k].rows, q, visits[k].page.items[i])
  }

  ghost predicate From(q: Query, from: Option<Position>, at: Position) {
    from.None? || Precedes(q, from.value, at)
  }

  /** A page is the beginning of the sorted rest; the next one starts at its last row. */
  lemma PageIsPrefix(f: Framing<Position>, rows: Rows, w: Id, q: Query, from: Option<Position>, size: nat)
    requires size >= 1
    ensures var page, next := AfterPosition(f, rows, w, q, from, size), NextPosition(rows, w, q, from, size);
            && Sorted(rows, q, page.items)
            && (forall i | 0 <= i < |page.items| :: From(q, from, At(rows, q, page.items[i])))
            && (page.next.Some? ==> page.items != [] && next == Some(At(rows, q, page.items[|page.items| - 1])))
  {
    OrderedSorts(rows, q, Rest(rows, w, q, from));
    var items, all := AfterPosition(f, rows, w, q, from, size).items, Ordered(rows, q, Rest(rows, w, q, from));
    PageItems(f, rows, w, q, from, size);
    forall i | 0 <= i < |items| ensures items[i] == all[i] && items[i] in Rest(rows, w, q, from) {
      assert all[i] in all;
    }
  }

  /** The same, of the pages of a walk. */
  lemma PageIsSorted(f: Framing<Position>, w: Id, q: Query, size: nat, visits: seq<Visit>, k: nat)
    requires size >= 1 && Inverts(f) && IsWalk(f, w, q, size, visits) && k < |visits|
    ensures var items := visits[k].page.items;
            && Sorted(visits[k].rows, q, items)
            && (forall i | 0 <= i < |items| :: From(q, StartOf(w, q, size, visits, k), Shown(q, visits, k, i)))
            && (visits[k].page.next.Some? ==>
                  items != [] && StartOf(w, q, size, visits, k + 1) == Some(Shown(q, visits, k, |items| - 1)))
  {
    VisitsFollowPositions(f, w, q, size, visits, k);
    PageIsPrefix(f, visits[k].rows, w, q, StartOf(w, q, size, visits, k), size);
  }

  lemma FromPastFrom(q: Query, from: Option<Position>, b: Position, c: Position)
    requires From(q, from, b) && Precedes(q, b, c)
    ensures From(q, from, c)
  {
    if from.Some? {
      Ordering(q, from.value, b, c);
    }
  }

  /** Each page starts past where the one before it started. */
  lemma StartsMoveOn(f: Framing<Position>, w: Id, q: Query, size: nat, visits: seq<Visit>, k: nat)
    requires size >= 1 && Inverts(f) && IsWalk(f, w, q, size, visits) && k + 1 < |visits|
    ensures StartOf(w, q, size, visits, k + 1).Some?
    ensures From(q, StartOf(w, q, size, visits, k), StartOf(w, q, size, visits, k + 1).value)
  {
    PageIsSorted(f, w, q, size, visits, k);
  }

  /** Everything a later page shows comes after everything an earlier one showed. */
  lemma {:induction false} LaterPagesShowMore(f: Framing<Position>, w: Id, q: Query, size: nat, visits: seq<Visit>,
                                              k: nat, m: nat, j: nat)
    requires size >= 1 && Inverts(f) && IsWalk(f, w, q, size, visits) && k < m < |visits|
    requires j < |visits[m].page.items| && visits[m].page.items[j] in visits[m].rows
    ensures From(q, StartOf(w, q, size, visits, k + 1), Shown(q, visits, m, j))
    ensures StartOf(w, q, size, visits, k + 1).Some?
    decreases m - k
  {
    StartsMoveOn(f, w, q, size, visits, k);
    if k + 1 == m {
      PageIsSorted(f, w, q, size, visits, m);
    } else {
      LaterPagesShowMore(f, w, q, size, visits, k + 1, m, j);
      StartsMoveOn(f, w, q, size, visits, k + 1);
      FromPastFrom(q, StartOf(w, q, size, visits, k + 1), StartOf(w, q, size, visits, k + 2).value, Shown(q, visits, m, j));
    }
  }

  lemma LaterPagesShowMoreThanThis(f: Framing<Position>, w: Id, q: Query, size: nat, visits: seq<Visit>,
                                   k: nat, i: nat, m: nat, j: nat)
    requires size >= 1 && Inverts(f) && IsWalk(f, w, q, size, visits) && k < m < |visits|
    requires i < |visits[k].page.items| && visits[k].page.items[i] in visits[k].rows
    requires j < |visits[m].page.items| && visits[m].page.items[j] in visits[m].rows
    ensures Precedes(q, Shown(q, visits, k, i), Shown(q, visits, m, j))
  {
    PageIsSorted(f, w, q, size, visits, k);
    LaterPagesShowMore(f, w, q, size, visits, k, m, j);
    var last := |visits[k].page.items| - 1;
    if i < last {
      Ordering(q, Shown(q, visits, k, i), Shown(q, visits, k, last), Shown(q, visits, m, j));
    }
  }

  /** Whatever happens between pages, the rows come in strictly increasing order. */
  lemma WalkNeverGoesBack(f: Framing<Position>, w: Id, q: Query, size: nat, visits: seq<Visit>,
                          k: nat, i: nat, m: nat, j: nat)
    requires size >= 1 && Inverts(f) && IsWalk(f, w, q, size, visits) && k < |visits| && m < |visits|
    requires i < |visits[k].page.items| && j < |visits[m].page.items|
    requires k < m || (k == m && i < j)
    ensures visits[k].page.items[i] in visits[k].rows && visits[m].page.items[j] in visits[m].rows
    ensures Precedes(q, Shown(q, visits, k, i), Shown(q, visits, m, j))
  {
    PageIsSorted(f, w, q, size, visits, k);
    PageIsSorted(f, w, q, size, visits, m);
    if k < m {
      LaterPagesShowMoreThanThis(f, w, q, size, visits, k, i, m, j);
    }
  }

  /** A row that matches throughout with the sort key `at`. */
  ghost predicate Steady(w: Id, q: Query, visits: seq<Visit>, id: Id, at: Position) {
    forall k | 0 <= k < |visits| :: id in Filtered(visits[k].rows, w, q) && At(visits[k].rows, q, id) == at
  }

  ghost predicate ShownIn(visits: seq<Visit>, id: Id, k: nat, i: nat) {
    k < |visits| && i < |visits[k].page.items| && visits[k].page.items[i] == id
  }

  /** A steady row still ahead of visit `k` is on that page, or the next page starts before it. */
  lemma ShownHereOrLater(f: Framing<Position>, w: Id, q: Query, size: nat, visits: seq<Visit>,
                         id: Id, at: Position, k: nat)
    requires size >= 1 && Inverts(f) && IsWalk(f, w, q, size, visits) && Steady(w, q, visits, id, at)
    requires k < |visits| && From(q, StartOf(w, q, size, visits, k), at)
    ensures (exists i: nat :: ShownIn(visits, id, k, i))
         || (visits[k].page.next.Some? && From(q, StartOf(w, q, size, visits, k + 1), at))
  {
    VisitsFollowPositions(f, w, q, size, visits, k);
    var rows, from := visits[k].rows, StartOf(w, q, size, visits, k);
    var all := Ordered(rows, q, Rest(rows, w, q, from));
    OrderedSorts(rows, q, Rest(rows, w, q, from));
    assert id in Filtered(rows, w, q) && At(rows, q, id) == at;
    assert id in all;
    var i :| 0 <= i < |all| && all[i] == id;
    if i < |visits[k].page.items| {
      assert ShownIn(visits, id, k, i);
    }
  }

  ghost predicate WasShown(visits: seq<Visit>, id: Id, before: nat) {
    exists k: nat, i: nat :: k < before && ShownIn(visits, id, k, i)
  }

  /** Up to visit `k` a steady row was shown, or it is still ahead. */
  lemma {:induction false} ShownOrAhead(f: Framing<Position>, w: Id, q: Query, size: nat, visits: seq<Visit>,
                                        id: Id, at: Position, k: nat)
    requires size >= 1 && Inverts(f) && IsWalk(f, w, q, size, visits) && Steady(w, q, visits, id, at)
    requires k < |visits|
    ensures From(q, StartOf(w, q, size, visits, k), at) || WasShown(visits, id, k)
    decreases k
  {
    if k > 0 {
      ShownOrAhead(f, w, q, size, visits, id, at, k - 1);
      if From(q, StartOf(w, q, size, visits, k - 1), at) {
        ShownHereOrLater(f, w, q, size, visits, id, at, k - 1);
      } else {
        var m: nat, i: nat :| m < k - 1 && ShownIn(visits, id, m, i);
        assert WasShown(visits, id, k);
      }
    }
  }

  lemma SteadyRowsAreShown(f: Framing<Position>, w: Id, q: Query, size: nat, visits: seq<Visit>, id: Id, at: Position)
    requires size >= 1 && Inverts(f) && IsWalk(f, w, q, size, visits) && Completed(visits)
    requires Steady(w, q, visits, id, at)
    ensures WasShown(visits, id, |visits|)
  {
    var last := |visits| - 1;
    ShownOrAhead(f, w, q, size, visits, id, at, last);
    if From(q, StartOf(w, q, size, visits, last), at) {
      ShownHereOrLater(f, w, q, size, visits, id, at, last);
    }
  }

  lemma NotShownAgain(f: Framing<Position>, w: Id, q: Query, size: nat, visits: seq<Visit>, id: Id, at: Position,
                      k: nat, i: nat, m: nat, j: nat)
    requires size >= 1 && Inverts(f) && IsWalk(f, w, q, size, visits)
    requires Steady(w, q, visits, id, at)
    requires ShownIn(visits, id, k, i) && ShownIn(visits, id, m, j)
    ensures !(k < m || (k == m && i < j))
  {
    if k < m || (k == m && i < j) {
      WalkNeverGoesBack(f, w, q, size, visits, k, i, m, j);
      Ordering(q, at, at, at);
    }
  }

  /** A completed walk shows every steady row exactly once. */
  lemma SteadyRowsAreShownOnce(f: Framing<Position>, w: Id, q: Query, size: nat, visits: seq<Visit>, id: Id, at: Position)
    requires size >= 1 && Inverts(f) && IsWalk(f, w, q, size, visits) && Completed(visits)
    requires Steady(w, q, visits, id, at)
    ensures exists k: nat, i: nat :: ShownIn(visits, id, k, i)
    ensures forall k: nat, i: nat, m: nat, j: nat ::
              ShownIn(visits, id, k, i) && ShownIn(visits, id, m, j) ==> k == m && i == j
  {
    SteadyRowsAreShown(f, w, q, size, visits, id, at);
    forall k: nat, i: nat, m: nat, j: nat | ShownIn(visits, id, k, i) && ShownIn(visits, id, m, j)
      ensures k == m && i == j
    {
      NotShownAgain(f, w, q, size, visits, id, at, k, i, m, j);
      NotShownAgain(f, w, q, size, visits, id, at, m, j, k, i);
    }
  }
}
