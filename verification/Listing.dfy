/** The paginated list query, and what a client that walks its pages gets to see. */
module Listing {
  import opened Wrappers
  import opened Domain

  type Table = map<int, Task>

  // ---------- ORDER BY id DESC ----------

  function MaxOf(s: set<int>): (m: int)
    requires s != {}
    ensures m in s && forall x | x in s :: x <= m
  {
    MaxExists(s);
    var m :| m in s && forall x | x in s :: x <= m;
    m
  }

  lemma {:induction false} MaxExists(s: set<int>)
    requires s != {}
    ensures exists m :: m in s && forall x | x in s :: x <= m
  {
    assert (forall y :: y !in s) ==> s == {};
    var y :| y in s;
    if s != {y} {
      var rest := s - {y};
      MaxExists(rest);
      var m :| m in rest && forall x | x in rest :: x <= m;
      var top := if y > m then y else m;
      assert top in s && forall x | x in s :: x <= top by {
        forall x | x in s ensures x <= top { assert x == y || x in rest; }
      }
    }
  }

  ghost predicate Descending(q: seq<int>) {
    forall i, j | 0 <= i < j < |q| :: q[i] > q[j]
  }

  lemma DescendingCons(m: int, q: seq<int>)
    requires Descending(q) && forall x | x in q :: x < m
    ensures Descending([m] + q)
    ensures forall x :: x in [m] + q <==> x == m || x in q
  {
    forall i, j | 0 <= i < j < |[m] + q| ensures ([m] + q)[i] > ([m] + q)[j] {
      assert ([m] + q)[j] == q[j - 1] && q[j - 1] in q;
    }
  }

  function SortDesc(s: set<int>): (q: seq<int>)
    ensures |q| == |s|
    ensures forall x :: x in q <==> x in s
    ensures Descending(q)
  {
    if s == {} then []
    else
      var m := MaxOf(s);
      var rest := SortDesc(s - {m});
      DescendingCons(m, rest);
      [m] + rest
  }

  function Above(s: set<int>, x: int): set<int> {
    set y | y in s && y > x
  }

  /** In a descending list of a set, an element stands behind exactly the larger ones. */
  lemma RankIsCount(s: set<int>, i: nat)
    requires i < |s|
    ensures |Above(s, SortDesc(s)[i])| == i
  {
    var q := SortDesc(s);
    CountFirst(q, i);
    AboveIsFirst(s, q, i);
  }

  function First(q: seq<int>, n: nat): set<int>
    requires n <= |q|
  {
    set k | 0 <= k < n :: q[k]
  }

  lemma FirstGrows(q: seq<int>, n: nat)
    requires Descending(q) && n < |q|
    ensures q[n] !in First(q, n) && First(q, n + 1) == First(q, n) + {q[n]}
  {
    forall x ensures x in First(q, n + 1) <==> x in First(q, n) || x == q[n] {
      if x in First(q, n + 1) {
        var k :| 0 <= k < n + 1 && q[k] == x;
        assert k < n ==> q[k] in First(q, n);
      }
      if x in First(q, n) {
        var k :| 0 <= k < n && q[k] == x;
        assert q[k] in First(q, n + 1);
      }
    }
  }

  lemma {:induction false} CountFirst(q: seq<int>, n: nat)
    requires Descending(q) && n <= |q|
    ensures |First(q, n)| == n
  {
    if n > 0 {
      CountFirst(q, n - 1);
      FirstGrows(q, n - 1);
    }
  }

  lemma AboveIsFirst(s: set<int>, q: seq<int>, i: nat)
    requires Descending(q) && i < |q| && forall x :: x in q <==> x in s
    ensures Above(s, q[i]) == First(q, i)
  {
    forall x | x in Above(s, q[i]) ensures x in First(q, i) {
      assert x in q;
      var k :| 0 <= k < |q| && q[k] == x;
    }
  }

  // ---------- SELECT COUNT(*) and the LIMIT/OFFSET query ----------

  function MatchingIds(tasks: Table, f: Filters): (s: set<int>)
    ensures forall i :: i in s <==> i in tasks && f.Matches(tasks[i])
  {
    set i | i in tasks && f.Matches(tasks[i])
  }

  /** Every row that matches the filters, newest id first. */
  function Rows(tasks: Table, f: Filters): (rows: seq<Task>)
    ensures |rows| == |MatchingIds(tasks, f)|
  {
    var ids := SortDesc(MatchingIds(tasks, f));
    seq(|ids|, (i: nat) requires i < |ids| => assert ids[i] in ids; tasks[ids[i]])
  }

  /** n * size, written as repeated addition so that reasoning about pages stays linear. */
  function Times(n: nat, size: nat): nat {
    if n == 0 then 0 else Times(n - 1, size) + size
  }

  lemma {:induction false} TimesIsProduct(n: nat, size: nat)
    ensures Times(n, size) == n * size
  {
    if n > 0 {
      TimesIsProduct(n - 1, size);
      assert (n - 1) * size + size == n * size;
    }
  }

  function Slice<T>(rows: seq<T>, offset: int, limit: nat): (r: seq<T>)
    ensures |r| <= limit
  {
    if offset < 0 || offset >= |rows| then []
    else if offset + limit < |rows| then rows[offset..offset + limit]
    else rows[offset..]
  }

  /** What (page - 1) * per_page comes to in 64 bits. */
  function Offset(f: Filters): int
    requires f.IsNormalized()
  {
    Wrap64(Times(f.page - 1, f.perPage))
  }

  lemma OffsetIsProduct(f: Filters)
    requires f.IsNormalized()
    ensures Offset(f) == Wrap64((f.page - 1) * f.perPage)
  {
    TimesIsProduct(f.page - 1, f.perPage);
  }

  /** A negative OFFSET makes the query fail. */
  predicate OffsetOk(f: Filters)
    requires f.IsNormalized()
  {
    Offset(f) >= 0
  }

  /** The requested page of a filtered list; products of 64-bit ints wrap. */
  function PageOf(rows: seq<Task>, f: Filters): Page
    requires f.IsNormalized()
  {
    Page(Slice(rows, Offset(f), f.perPage),
         |rows|, f.page, f.perPage, HasNext(f, |rows|))
  }

  predicate HasNext(f: Filters, total: int)
    requires f.IsNormalized()
  {
    Wrap64(Times(f.page, f.perPage)) < total
  }

  /** One list request on one state of the table. */
  function Query(tasks: Table, f: Filters): Page
    requires f.IsNormalized()
  {
    PageOf(Rows(tasks, f), f)
  }

  lemma PageIrrelevant(tasks: Table, f: Filters, page: int)
    ensures Rows(tasks, f.(page := page)) == Rows(tasks, f)
  {
    assert MatchingIds(tasks, f.(page := page)) == MatchingIds(tasks, f);
  }

  // ---------- walking the pages of a list that does not change ----------

  /** The list is short enough for one page past its end to be counted in 64 bits. */
  ghost predicate Fits(rows: seq<Task>) {
    |rows| + MAX_PAGE_SIZE <= MAX_INT64
  }

  /** How many rows come before the requested page. */
  function Start(f: Filters): nat
    requires f.IsNormalized()
  {
    Times(f.page - 1, f.perPage)
  }

  /** What a page that starts inside the list (or right at its end) contains. */
  lemma PageInside(rows: seq<Task>, f: Filters)
    requires f.IsNormalized() && Fits(rows) && Start(f) <= |rows|
    ensures var end := Start(f) + f.perPage;
            && PageOf(rows, f).items == (if end < |rows| then rows[Start(f)..end] else rows[Start(f)..])
            && (PageOf(rows, f).hasNext <==> end < |rows|)
  {
  }

  /** Pages f.page, f.page + 1, ..., fetched while HasNext holds. */
  function WalkFrom(rows: seq<Task>, f: Filters): seq<Page>
    requires f.IsNormalized() && Fits(rows) && Start(f) <= |rows|
    decreases |rows| - Start(f)
  {
    PageInside(rows, f);
    var page := PageOf(rows, f);
    if page.hasNext then [page] + WalkFrom(rows, f.(page := f.page + 1)) else [page]
  }

  function Items(pages: seq<Page>): seq<Task> {
    if pages == [] then [] else pages[0].items + Items(pages[1..])
  }

  /** Pages 1, 2, ... while HasNext holds are the whole filtered list, in order, without gap or repeat;
      there are ceil(total / per_page) of them, but at least one. */
  lemma PagesPartition(tasks: Table, f: Filters)
    requires f.IsNormalized() && f.page == 1 && Fits(Rows(tasks, f))
    ensures Items(WalkFrom(Rows(tasks, f), f)) == Rows(tasks, f)
    ensures var total, n := |Rows(tasks, f)|, |WalkFrom(Rows(tasks, f), f)|;
            n >= 1 && total <= n * f.perPage && (n > 1 ==> (n - 1) * f.perPage < total)
  {
    var rows := Rows(tasks, f);
    WalkIsSuffix(rows, f);
    WalkLength(rows, f);
    TimesIsProduct(|WalkFrom(rows, f)|, f.perPage);
    TimesIsProduct(|WalkFrom(rows, f)| - 1, f.perPage);
  }

  lemma ItemsCons(page: Page, rest: seq<Page>)
    ensures Items([page] + rest) == page.items + Items(rest)
  {
    assert ([page] + rest)[1..] == rest;
  }

  lemma {:induction false} WalkIsSuffix(rows: seq<Task>, f: Filters)
    requires f.IsNormalized() && Fits(rows) && Start(f) <= |rows|
    ensures Items(WalkFrom(rows, f)) == rows[Start(f)..]
    decreases |rows| - Start(f)
  {
    var page := PageOf(rows, f);
    ItemsSplit(rows, f);
    WalkUnfolds(rows, f);
    if page.hasNext {
      var next := f.(page := f.page + 1);
      WalkIsSuffix(rows, next);
      ItemsCons(page, WalkFrom(rows, next));
    } else {
      ItemsCons(page, []);
    }
  }

  /** A page's items are what its start has over the next page's start. */
  lemma ItemsSplit(rows: seq<Task>, f: Filters)
    requires f.IsNormalized() && Fits(rows) && Start(f) <= |rows|
    ensures var page, next := PageOf(rows, f), f.(page := f.page + 1);
            && (page.hasNext ==> Start(next) <= |rows| && rows[Start(f)..] == page.items + rows[Start(next)..])
            && (!page.hasNext ==> rows[Start(f)..] == page.items + [])
  {
    PageInside(rows, f);
  }

  lemma WalkUnfolds(rows: seq<Task>, f: Filters)
    requires f.IsNormalized() && Fits(rows) && Start(f) <= |rows|
    ensures var page, next := PageOf(rows, f), f.(page := f.page + 1);
            && (page.hasNext ==> Start(next) <= |rows| && WalkFrom(rows, f) == [page] + WalkFrom(rows, next))
            && (!page.hasNext ==> WalkFrom(rows, f) == [page] + [])
  {
    PageInside(rows, f);
  }

  /** From this page on, n pages of this size reach the end of the list, and n - 1 do not. */
  predicate Reach(total: nat, page: nat, size: nat, n: nat)
    requires page > 0
  {
    n >= 1 && total <= Times(page - 1 + n, size) && (n > 1 ==> Times(page + n - 2, size) < total)
  }

  lemma ReachFurther(total: nat, page: nat, size: nat, n: nat)
    requires page > 0 && Reach(total, page + 1, size, n) && Times(page, size) < total
    ensures Reach(total, page, size, n + 1)
  {
  }

  lemma WalkGoesOn(rows: seq<Task>, f: Filters)
    requires f.IsNormalized() && Fits(rows) && Start(f) <= |rows|
    ensures var page, next := PageOf(rows, f), f.(page := f.page + 1);
            && (page.hasNext ==> Times(f.page, f.perPage) < |rows| && |WalkFrom(rows, f)| == 1 + |WalkFrom(rows, next)|)
            && (!page.hasNext ==> |rows| <= Times(f.page, f.perPage) && |WalkFrom(rows, f)| == 1)
  {
    PageInside(rows, f);
    WalkUnfolds(rows, f);
  }

  lemma {:induction false} WalkLength(rows: seq<Task>, f: Filters)
    requires f.IsNormalized() && Fits(rows) && Start(f) <= |rows|
    ensures Reach(|rows|, f.page, f.perPage, |WalkFrom(rows, f)|)
    decreases |rows| - Start(f)
  {
    WalkGoesOn(rows, f);
    if PageOf(rows, f).hasNext {
      var next := f.(page := f.page + 1);
      WalkLength(rows, next);
      ReachFurther(|rows|, f.page, f.perPage, |WalkFrom(rows, next)|);
    }
  }

  /** The row count of any table MySQL can hold. */
  ghost predicate Countable(rows: seq<Task>) {
    |rows| <= MAX_INT64
  }

  /** HasNext tells whether the following page has rows, on every page of every list, exactly when the following page's
      offset does not wrap to a negative number. */
  lemma HasNextIsNextNonEmpty(rows: seq<Task>, f: Filters)
    requires f.IsNormalized()
    ensures (PageOf(rows, f).hasNext <==> PageOf(rows, f.(page := f.page + 1)).items != [])
       <==> OffsetOk(f.(page := f.page + 1))
  {
    var offset := Offset(f.(page := f.page + 1));
    assert PageOf(rows, f.(page := f.page + 1)).items == Slice(rows, offset, f.perPage);
    assert Slice(rows, offset, f.perPage) != [] <==> 0 <= offset < |rows|;
  }

  // ---------- where 64-bit wrap-around makes a page lie ----------

  /** The items are the rows from (page - 1) * per_page on exactly when that product fits in 64 bits, or wraps to an
      offset that lies behind the list anyway. */
  lemma ItemsExact(rows: seq<Task>, f: Filters)
    requires f.IsNormalized() && Countable(rows) && OffsetOk(f)
    ensures PageOf(rows, f).items == Slice(rows, (f.page - 1) * f.perPage, f.perPage)
       <==> (f.page - 1) * f.perPage <= MAX_INT64 || Offset(f) >= |rows|
  {
    TimesIsProduct(f.page - 1, f.perPage);
  }

  /** A request for which they are not: page 2^60 + 1 of size 16 shows the first page's rows. */
  lemma ItemsWitness(rows: seq<Task>)
    ensures var f := Filters(1, "", None, 0x1000_0000_0000_0001, 16);
            f.IsNormalized() && f.Valid() && OffsetOk(f) && PageOf(rows, f).items == PageOf(rows, f.(page := 1)).items
  {
    var f := Filters(1, "", None, 0x1000_0000_0000_0001, 16);
    TimesIsProduct(f.page - 1, f.perPage);
  }

  /** HasNext means "page * per_page < total" on every possible total exactly when the product does not wrap
      (or happens to wrap to the largest integer). */
  lemma HasNextExact(f: Filters)
    requires f.IsNormalized()
    ensures (forall total: nat | total <= MAX_INT64 :: HasNext(f, total) <==> f.page * f.perPage < total)
       <==> f.page * f.perPage <= MAX_INT64 || Wrap64(f.page * f.perPage) == MAX_INT64
  {
    TimesIsProduct(f.page, f.perPage);
    if f.page * f.perPage > MAX_INT64 && Wrap64(f.page * f.perPage) != MAX_INT64 {
      assert HasNext(f, MAX_INT64);
    }
  }

  /** A request for which it does not: the offset still fits, the end of the page no longer does. */
  lemma HasNextWitness(tasks: Table)
    ensures var f := Filters(1, "", None, 92_233_720_368_547_759, 100);
            f.IsNormalized() && f.Valid() && Start(f) <= MAX_INT64 &&
            (Fits(Rows(tasks, f)) ==> Query(tasks, f).items == [] && Query(tasks, f).hasNext)
  {
    var f := Filters(1, "", None, 92_233_720_368_547_759, 100);
    TimesIsProduct(f.page - 1, f.perPage);
    TimesIsProduct(f.page, f.perPage);
  }

  // ---------- the position of a row ----------

  ghost function Rank(tasks: Table, f: Filters, x: int): nat {
    |Above(MatchingIds(tasks, f), x)|
  }

  /** A matching row stands in the list at the position given by its rank. */
  lemma RankIsPosition(tasks: Table, f: Filters, x: int)
    requires x in MatchingIds(tasks, f)
    ensures Rank(tasks, f, x) < |Rows(tasks, f)|
    ensures Rows(tasks, f)[Rank(tasks, f, x)] == tasks[x]
  {
    var ids := MatchingIds(tasks, f);
    var sorted := SortDesc(ids);
    var i :| 0 <= i < |sorted| && sorted[i] == x;
    RankIsCount(ids, i);
  }

  /** A descending list of the matching ids is the order of the rows. */
  lemma RowsOf(tasks: Table, f: Filters, ids: seq<int>)
    requires Descending(ids) && forall i :: i in ids <==> i in MatchingIds(tasks, f)
    ensures |Rows(tasks, f)| == |ids|
    ensures forall k | 0 <= k < |ids| :: Rows(tasks, f)[k] == tasks[ids[k]]
  {
    SameOrder(ids, SortDesc(MatchingIds(tasks, f)));
  }

  lemma TailMembers(q: seq<int>)
    requires Descending(q) && q != []
    ensures Descending(q[1..]) && forall i :: i in q[1..] <==> i in q && i != q[0]
  {
    assert q == [q[0]] + q[1..];
    assert forall k | 0 <= k < |q[1..]| :: q[1..][k] == q[k + 1];
  }

  lemma {:induction false} SameOrder(p: seq<int>, q: seq<int>)
    requires Descending(p) && Descending(q) && forall i :: i in p <==> i in q
    ensures p == q
    decreases |p|
  {
    assert p != [] ==> p[0] in p && p[0] in q;
    assert q != [] ==> q[0] in q && q[0] in p;
    if p != [] {
      assert p[0] == q[0];
      TailMembers(p);
      TailMembers(q);
      SameOrder(p[1..], q[1..]);
      assert p == [p[0]] + p[1..] == [q[0]] + q[1..] == q;
    }
  }
}
