/** Keyset pages over incidents and over the runs of an incident, newest first. */
module Pagination {
  import opened Common
  import opened Ordering

  /** The sort key of a row: `updated_at` for incidents, `created_at` for runs. */
  type Stamps = map<Id, int>

  datatype Cursor = Cursor(at: int, id: Id)

  datatype Page = Page(items: seq<Id>, next: Option<Cursor>)

  /** `(a.at, a.id) > (b.at, b.id)`: row `a` is listed before row `b`. */
  predicate Newer(stamps: Stamps, a: Id, b: Id) {
    a in stamps && b in stamps &&
    if stamps[a] != stamps[b] then stamps[a] > stamps[b] else StringLess(b, a)
  }

  function NewestFirst(stamps: Stamps): (Id, Id) -> bool {
    (a: Id, b: Id) => Newer(stamps, a, b)
  }

  /** `CAST(:cursor_at AS timestamptz) IS NULL OR (row.at, row.id) < (:cursor_at, :cursor_id)` */
  predicate Before(stamps: Stamps, id: Id, c: Option<Cursor>)
    requires id in stamps
  {
    c.None? || (if stamps[id] != c.value.at then stamps[id] < c.value.at else StringLess(id, c.value.id))
  }

  /** The rows a query sees: the authorised ones behind the cursor. */
  function Behind(stamps: Stamps, rows: set<Id>, c: Option<Cursor>): (seen: set<Id>)
    requires rows <= stamps.Keys
    ensures seen <= rows
  {
    set id | id in rows && Before(stamps, id, c)
  }

  function BoundedLimit(limit: int): nat {
    Min(Max(limit, 1), 100)
  }

  function CursorOf(stamps: Stamps, id: Id): Cursor
    requires id in stamps
  {
    Cursor(stamps[id], id)
  }

  lemma NewestFirstIsTotal(stamps: Stamps, rows: set<Id>)
    requires rows <= stamps.Keys
    ensures StrictTotal(NewestFirst(stamps), rows)
  {
    var oldestFirst := (a: Id, b: Id) => Newer(stamps, b, a);
    KeyThenIdIsTotal(oldestFirst, id => if id in stamps then SortKey(stamps[id], 0, 0) else SortKey(0, 0, 0), rows);
    ReversedIsTotal(oldestFirst, NewestFirst(stamps), rows);
  }

  function Listed(stamps: Stamps, rows: set<Id>): (r: seq<Id>)
    requires rows <= stamps.Keys
    ensures |r| == |rows| && (forall x :: x in r <==> x in rows)
    ensures forall i :: 0 <= i < |r| ==> r[i] in rows
  {
    NewestFirstIsTotal(stamps, rows);
    var r := Sorted(NewestFirst(stamps), rows);
    assert forall i :: 0 <= i < |r| ==> r[i] in r;
    r
  }

  /** One query: up to `limit + 1` rows are fetched, the extra one only decides whether there is a next page. */
  function PageAt(stamps: Stamps, rows: set<Id>, c: Option<Cursor>, limit: nat): (page: Page)
    requires rows <= stamps.Keys && limit >= 1
    ensures |page.items| == Min(limit, |Behind(stamps, rows, c)|)
    ensures page.next.Some? <==> |Behind(stamps, rows, c)| > |page.items|
  {
    var listed := Listed(stamps, Behind(stamps, rows, c));
    var fetched := listed[..Min(limit + 1, |listed|)];
    if |fetched| > limit then Page(fetched[..limit], Some(CursorOf(stamps, fetched[limit - 1])))
    else Page(fetched, None)
  }

  /** `list_incidents` and `list_rca_runs`, for one page. */
  function ListPage(stamps: Stamps, rows: set<Id>, c: Option<Cursor>, limit: int): (page: Page)
    requires rows <= stamps.Keys
    ensures 1 <= limit <= 100 ==> |page.items| == Min(limit, |Behind(stamps, rows, c)|)
    ensures limit < 1 ==> |page.items| == Min(1, |Behind(stamps, rows, c)|)
    ensures limit > 100 ==> |page.items| == Min(100, |Behind(stamps, rows, c)|)
    ensures page.items == [] <==> Behind(stamps, rows, c) == {}
    ensures page.next.Some? <==> |Behind(stamps, rows, c)| > |page.items|
  {
    PageAt(stamps, rows, c, BoundedLimit(limit))
  }

  // ----- Following the cursors -----

  /** Behind the last row of a page lie exactly the rows not listed yet. */
  lemma {:induction false} RestIsListed(stamps: Stamps, rows: set<Id>, k: nat)
    requires rows <= stamps.Keys && 0 < k <= |Listed(stamps, rows)|
    ensures var listed := Listed(stamps, rows);
            Listed(stamps, Behind(stamps, rows, Some(CursorOf(stamps, listed[k - 1])))) == listed[k..]
  {
    var less := NewestFirst(stamps);
    NewestFirstIsTotal(stamps, rows);
    var listed := Listed(stamps, rows);
    var last := listed[k - 1];
    var rest := Behind(stamps, rows, Some(CursorOf(stamps, last)));
    NewestFirstIsTotal(stamps, rest);
    assert forall x :: x in rest <==> x in rows && less(last, x);
    forall x
      ensures x in listed[k..] <==> x in rest
    {
      TailOfSorted(less, rows, listed, k, x);
    }
    IncreasingUnique(less, rows, Listed(stamps, rest), listed[k..]);
  }

  lemma {:induction false} TailOfSorted(less: (Id, Id) -> bool, s: set<Id>, listed: seq<Id>, k: nat, x: Id)
    requires StrictTotal(less, s) && Increasing(less, listed) && (forall y :: y in listed <==> y in s)
    requires 0 < k <= |listed|
    ensures x in listed[k..] <==> x in s && less(listed[k - 1], x)
  {
    assert listed[k - 1] in listed;
    assert forall i :: 0 <= i < k - 1 ==> less(listed[i], listed[k - 1]);
    if x in listed[k..] {
      var i :| 0 <= i < |listed[k..]| && listed[k..][i] == x;
      assert listed[k + i] == x;
    }
    if x in s && less(listed[k - 1], x) {
      var i :| 0 <= i < |listed| && listed[i] == x;
      assert i >= k ==> listed[k..][i - k] == x;
    }
  }

  lemma {:induction false} BehindNarrows(stamps: Stamps, rows: set<Id>, c: Option<Cursor>, last: Id)
    requires rows <= stamps.Keys && last in Behind(stamps, rows, c)
    ensures var next := Some(CursorOf(stamps, last));
            && Behind(stamps, rows, next) == Behind(stamps, Behind(stamps, rows, c), next)
            && |Behind(stamps, rows, next)| < |Behind(stamps, rows, c)|
  {
    var next := Some(CursorOf(stamps, last));
    var behind := Behind(stamps, rows, c);
    StringLessIrreflexive(last);
    forall x | x in rows && Before(stamps, x, next)
      ensures Before(stamps, x, c)
    {
      if c.Some? && StringLess(x, last) && StringLess(last, c.value.id) {
        StringLessTransitive(x, last, c.value.id);
      }
    }
    SubsetSize(Behind(stamps, rows, next), behind - {last});
  }

  /** All pages from `c` on, following `next` until it is null. */
  ghost function Follow(stamps: Stamps, rows: set<Id>, c: Option<Cursor>, limit: nat): seq<Page>
    requires rows <= stamps.Keys && limit >= 1
    decreases |Behind(stamps, rows, c)|
  {
    var page := PageAt(stamps, rows, c, limit);
    if page.next.None? then [page]
    else
      var listed := Listed(stamps, Behind(stamps, rows, c));
      assert listed[limit - 1] in listed;
      BehindNarrows(stamps, rows, c, listed[limit - 1]);
      [page] + Follow(stamps, rows, page.next, limit)
  }

  ghost function ItemsOf(pages: seq<Page>): seq<Id> {
    if pages == [] then [] else pages[0].items + ItemsOf(pages[1..])
  }

  /** A page is the beginning of what is listed behind the cursor. */
  lemma PageIsPrefix(stamps: Stamps, rows: set<Id>, c: Option<Cursor>, limit: nat)
    requires rows <= stamps.Keys && limit >= 1
    ensures var listed := Listed(stamps, Behind(stamps, rows, c));
            PageAt(stamps, rows, c, limit) ==
            if |listed| > limit then Page(listed[..limit], Some(CursorOf(stamps, listed[limit - 1])))
              else Page(listed, None)
  {
    hide Listed, Behind;
    var listed := Listed(stamps, Behind(stamps, rows, c));
    if |listed| > limit {
      assert listed[..limit + 1][..limit] == listed[..limit];
    }
  }

  lemma {:induction false} FollowLists(stamps: Stamps, rows: set<Id>, c: Option<Cursor>, limit: nat)
    requires rows <= stamps.Keys && limit >= 1
    ensures ItemsOf(Follow(stamps, rows, c, limit)) == Listed(stamps, Behind(stamps, rows, c))
    ensures var n := |Behind(stamps, rows, c)|; |Follow(stamps, rows, c, limit)| == Max(1, (n + limit - 1) / limit)
    decreases |Behind(stamps, rows, c)|
  {
    hide Listed, Behind, Before, PageAt;
    PageIsPrefix(stamps, rows, c, limit);
    var behind := Behind(stamps, rows, c);
    var listed := Listed(stamps, behind);
    var page := PageAt(stamps, rows, c, limit);
    var pages := Follow(stamps, rows, c, limit);
    if page.next.None? {
      assert pages == [page];
      OnePage(page);
      PageCountSmall(|behind|, limit);
    } else {
      var last := listed[limit - 1];
      assert last in listed;
      BehindNarrows(stamps, rows, c, last);
      RestIsListed(stamps, behind, limit);
      var rest := Follow(stamps, rows, page.next, limit);
      FollowLists(stamps, rows, page.next, limit);
      assert pages == [page] + rest;
      MorePages(page, rest);
      assert listed == listed[..limit] + listed[limit..];
      PageCountLarge(|behind|, limit);
    }
  }

  lemma OnePage(page: Page)
    ensures ItemsOf([page]) == page.items
  {
    assert [page][1..] == [] && ItemsOf([]) == [];
    assert page.items + [] == page.items;
  }

  lemma MorePages(page: Page, rest: seq<Page>)
    ensures ItemsOf([page] + rest) == page.items + ItemsOf(rest)
  {
    assert ([page] + rest)[1..] == rest;
  }

  lemma PageCountSmall(n: nat, limit: nat)
    requires limit >= 1 && n <= limit
    ensures Max(1, (n + limit - 1) / limit) == 1
  {
    if n > 0 {
      assert limit <= n + limit - 1 < 2 * limit;
    }
  }

  lemma PageCountLarge(n: nat, limit: nat)
    requires limit >= 1 && n > limit
    ensures Max(1, (n + limit - 1) / limit) == 1 + Max(1, (n - limit + limit - 1) / limit)
  {
    var q := (n - 1) / limit;
    assert q >= 1;
    assert (n + limit - 1) / limit == q + 1 by {
      assert q * limit <= n - 1 < q * limit + limit;
      assert (q + 1) * limit <= n + limit - 1 < (q + 1) * limit + limit;
      QuotientIs(n + limit - 1, limit, q + 1);
    }
  }

  lemma QuotientIs(a: int, b: int, q: int)
    requires b > 0 && q * b <= a < q * b + b
    ensures a / b == q
  {
    var r := a / b;
    assert r * b <= a < r * b + b;
    TimesMonotone(r + 1, q, b);
    TimesMonotone(q + 1, r, b);
  }

  lemma TimesMonotone(x: int, y: int, b: int)
    requires b > 0
    ensures x <= y ==> x * b <= y * b
    ensures x * b == (x - 1) * b + b
  {
  }

  /**
   On a fixed table, following `next_cursor` from the first page to null yields every authorised row
   exactly once, in strictly descending order, in max(1, ceil(n / limit)) pages.
   */
  lemma {:induction false} PagesListEachRowOnce(stamps: Stamps, rows: set<Id>, limit: int)
    requires rows <= stamps.Keys
    ensures var bounded := BoundedLimit(limit);
            var pages := Follow(stamps, rows, None, bounded);
            var items := ItemsOf(pages);
            && (forall x :: x in items <==> x in rows) && |items| == |rows|
            && (forall i, j :: 0 <= i < j < |items| ==>
                  && stamps[items[i]] >= stamps[items[j]]
                  && (stamps[items[i]] == stamps[items[j]] ==> StringLess(items[j], items[i]))
                  && items[i] != items[j])
            && |pages| == Max(1, (|rows| + bounded - 1) / bounded)
            && 1 <= bounded <= 100 && (1 <= limit <= 100 ==> bounded == limit)
  {
    var bounded := BoundedLimit(limit);
    FollowLists(stamps, rows, None, bounded);
    assert Behind(stamps, rows, None) == rows;
    NewestFirstIsTotal(stamps, rows);
    var listed := Listed(stamps, rows);
    IncreasingDistinct(NewestFirst(stamps), rows, listed);
    forall i, j | 0 <= i < j < |listed|
      ensures Newer(stamps, listed[i], listed[j])
    {
      assert NewestFirst(stamps)(listed[i], listed[j]);
    }
  }

  // ----- Run numbers -----

  /** `row_number() OVER (ORDER BY created_at, id)` among the rows the query sees. */
  function RunNumber(stamps: Stamps, seen: set<Id>, x: Id): nat
    requires seen <= stamps.Keys
  {
    |set y | y in seen && (y == x || Newer(stamps, x, y))|
  }

  /** A run has the same number on every page, whatever the cursor: its rank in the whole incident. */
  lemma {:induction false} RunNumberIsStable(stamps: Stamps, rows: set<Id>, c: Option<Cursor>, x: Id)
    requires rows <= stamps.Keys && x in Behind(stamps, rows, c)
    ensures RunNumber(stamps, Behind(stamps, rows, c), x) == RunNumber(stamps, rows, x)
  {
    var behind := Behind(stamps, rows, c);
    forall y | y in rows && Newer(stamps, x, y)
      ensures y in behind
    {
      if c.Some? && StringLess(y, x) && StringLess(x, c.value.id) {
        StringLessTransitive(y, x, c.value.id);
      }
    }
    assert (set y | y in behind && (y == x || Newer(stamps, x, y))) == set y | y in rows
           && (y == x || Newer(stamps, x, y));
  }

  /** The newest run's number is the number of runs, and numbers fall by one down the list. */
  lemma {:induction false} RunNumbersCountDown(stamps: Stamps, rows: set<Id>, i: nat)
    requires rows <= stamps.Keys && i < |Listed(stamps, rows)|
    ensures RunNumber(stamps, rows, Listed(stamps, rows)[i]) == |rows| - i
  {
    NewestFirstIsTotal(stamps, rows);
    var listed := Listed(stamps, rows);
    var x := listed[i];
    TailCount(NewestFirst(stamps), rows, listed, i);
    assert (set y | y in rows && (y == x || Newer(stamps, x, y))) == AtOrAfter(NewestFirst(stamps), rows, x);
  }

  ghost function AtOrAfter(less: (Id, Id) -> bool, s: set<Id>, x: Id): set<Id> {
    set y | y in s && (y == x || less(x, y))
  }

  lemma {:induction false} TailCount(less: (Id, Id) -> bool, s: set<Id>, listed: seq<Id>, i: nat)
    requires StrictTotal(less, s) && Increasing(less, listed) && (forall y :: y in listed <==> y in s)
    requires i < |listed|
    ensures |AtOrAfter(less, s, listed[i])| == |listed| - i
  {
    hide StrictTotal, Increasing, Distinct;
    var x := listed[i];
    assert listed[i..] == [x] + listed[i + 1..];
    assert x in listed;
    forall y
      ensures y in Members(listed[i..]) <==> y in AtOrAfter(less, s, x)
    {
      TailOfSorted(less, s, listed, i + 1, y);
    }
    assert Members(listed[i..]) == AtOrAfter(less, s, x);
    TailDistinct(less, s, listed, i);
    DistinctSize(listed[i..]);
  }

  lemma TailDistinct(less: (Id, Id) -> bool, s: set<Id>, listed: seq<Id>, i: nat)
    requires StrictTotal(less, s) && Increasing(less, listed) && (forall y :: y in listed <==> y in s)
    requires i <= |listed|
    ensures Distinct(listed[i..])
  {
    IncreasingDistinct(less, s, listed);
  }
}
