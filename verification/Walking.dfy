/** Walking the pages of a list that changes between the fetches: which rows a client gets to see, exactly. */
module Walking {
  import opened Domain
  import opened Listing

  /** Page k+1 of the k-th table. */
  ghost function PageAt(tables: seq<Table>, f: Filters, k: nat): Page
    requires f.IsNormalized() && k < |tables|
  {
    Query(tables[k], f.(page := k + 1))
  }

  ghost predicate KnowsIds(tasks: Table) {
    forall i | i in tasks :: tasks[i].id == i
  }

  /** A client fetches page k+1 from the k-th table, goes on while HasNext holds, and stops when it does not. */
  ghost predicate CompleteWalk(tables: seq<Table>, f: Filters) {
    && f.IsNormalized() && |tables| > 0
    && (forall k | 0 <= k < |tables| :: Fits(Rows(tables[k], f)))
    && (forall k | 0 <= k < |tables| :: PageAt(tables, f, k).hasNext <==> k < |tables| - 1)
  }

  /** The row, as it is when page k+1 is fetched, is on that page. */
  ghost predicate ShownAt(tables: seq<Table>, f: Filters, x: int, k: nat)
    requires k < |tables| && f.IsNormalized()
  {
    x in tables[k] && tables[k][x] in PageAt(tables, f, k).items
  }

  /** The row matches whenever a page is fetched. */
  ghost predicate AlwaysMatches(tables: seq<Table>, f: Filters, x: int) {
    forall k | 0 <= k < |tables| :: x in MatchingIds(tables[k], f)
  }

  // ---------- one page ----------

  lemma SameRow(tasks: Table, f: Filters, x: int, position: nat)
    requires KnowsIds(tasks) && x in MatchingIds(tasks, f) && position < |Rows(tasks, f)|
    ensures Rows(tasks, f)[position] == tasks[x] <==> position == Rank(tasks, f, x)
  {
    RankIsPosition(tasks, f, x);
    var ids := SortDesc(MatchingIds(tasks, f));
    assert ids[position] in ids;
    assert Rows(tasks, f)[position] == tasks[ids[position]];
    if ids[position] == x {
      RankIsCount(MatchingIds(tasks, f), position);
    }
  }

  lemma InBounds(tasks: Table, f: Filters, x: int)
    requires f.IsNormalized() && x in MatchingIds(tasks, f) && Fits(Rows(tasks, f)) && Start(f) <= MAX_INT64
    requires Start(f) <= Rank(tasks, f, x) < Times(f.page, f.perPage)
    ensures tasks[x] in Query(tasks, f).items
  {
    RankIsPosition(tasks, f, x);
    assert Query(tasks, f).items[Rank(tasks, f, x) - Start(f)] == Rows(tasks, f)[Rank(tasks, f, x)];
  }

  /** What stands where on a page. */
  lemma ItemsAre(tasks: Table, f: Filters, i: nat)
    requires f.IsNormalized() && Start(f) <= MAX_INT64 && i < |Query(tasks, f).items|
    ensures i < f.perPage && Start(f) + i < |Rows(tasks, f)| && Query(tasks, f).items[i] == Rows(tasks, f)[Start(f) + i]
  {
  }

  lemma BoundsOfItem(tasks: Table, f: Filters, x: int, i: nat)
    requires f.IsNormalized() && KnowsIds(tasks) && x in MatchingIds(tasks, f) && Start(f) <= MAX_INT64
    requires i < |Query(tasks, f).items| && Query(tasks, f).items[i] == tasks[x]
    ensures Start(f) <= Rank(tasks, f, x) < Start(f) + f.perPage
  {
    ItemsAre(tasks, f, i);
    SameRow(tasks, f, x, Start(f) + i);
  }

  /** A row is on a page exactly when its rank lies between the page's bounds. */
  lemma OnPage(tasks: Table, f: Filters, x: int)
    requires f.IsNormalized() && KnowsIds(tasks) && x in MatchingIds(tasks, f) && Fits(Rows(tasks, f)) &&
             Start(f) <= MAX_INT64
    ensures tasks[x] in Query(tasks, f).items <==> Start(f) <= Rank(tasks, f, x) < Times(f.page, f.perPage)
  {
    if Start(f) <= Rank(tasks, f, x) < Times(f.page, f.perPage) {
      InBounds(tasks, f, x);
    } else {
      forall i | 0 <= i < |Query(tasks, f).items| ensures Query(tasks, f).items[i] != tasks[x] {
        if Query(tasks, f).items[i] == tasks[x] {
          BoundsOfItem(tasks, f, x, i);
          assert false;
        }
      }
    }
  }

  // ---------- the whole walk ----------

  /** Along a walk the page products never wrap. */
  lemma {:induction false} OffsetsFit(tables: seq<Table>, f: Filters, k: nat)
    requires CompleteWalk(tables, f) && k < |tables|
    ensures Times(k, f.perPage) + f.perPage <= MAX_INT64
  {
    if k > 0 {
      OffsetsFit(tables, f, k - 1);
      PageIrrelevant(tables[k - 1], f, k);
      assert PageAt(tables, f, k - 1).hasNext && Fits(Rows(tables[k - 1], f));
    }
  }

  lemma InPageShown(tables: seq<Table>, f: Filters, x: int, k: nat)
    requires CompleteWalk(tables, f) && AlwaysMatches(tables, f, x) && k < |tables|
    requires Times(k, f.perPage) <= Rank(tables[k], f, x) < Times(k + 1, f.perPage)
    ensures ShownAt(tables, f, x, k)
  {
    OffsetsFit(tables, f, k);
    PageIrrelevant(tables[k], f, k + 1);
    SameRank(tables[k], f, k + 1, x);
    InBounds(tables[k], f.(page := k + 1), x);
  }

  lemma ShownByRank(tables: seq<Table>, f: Filters, x: int, k: nat)
    requires CompleteWalk(tables, f) && AlwaysMatches(tables, f, x) && k < |tables| && KnowsIds(tables[k])
    ensures ShownAt(tables, f, x, k) <==> Times(k, f.perPage) <= Rank(tables[k], f, x) < Times(k + 1, f.perPage)
  {
    var g := f.(page := k + 1);
    OffsetsFit(tables, f, k);
    PageIrrelevant(tables[k], f, k + 1);
    SameRank(tables[k], f, k + 1, x);
    OnPage(tables[k], g, x);
  }

  lemma SameRank(tasks: Table, f: Filters, page: int, x: int)
    ensures MatchingIds(tasks, f.(page := page)) == MatchingIds(tasks, f)
    ensures Rank(tasks, f.(page := page), x) == Rank(tasks, f, x)
  {
    assert MatchingIds(tasks, f.(page := page)) == MatchingIds(tasks, f);
  }

  /** The last page covers the end of the list. */
  lemma LastPage(tasks: Table, f: Filters, page: nat, x: int)
    requires f.IsNormalized() && page > 0 && x in MatchingIds(tasks, f) && Fits(Rows(tasks, f))
    requires !Query(tasks, f.(page := page)).hasNext
    ensures Rank(tasks, f, x) < Times(page, f.perPage)
  {
    PageIrrelevant(tasks, f, page);
    RankIsPosition(tasks, f, x);
  }

  // ---------- the course of a row's rank ----------

  /** The rank at each fetch. */
  ghost function Ranks(tables: seq<Table>, f: Filters, x: int): (ranks: seq<nat>)
    ensures |ranks| == |tables|
  {
    seq(|tables|, (k: nat) requires k < |tables| => Rank(tables[k], f, x))
  }

  predicate InPage(ranks: seq<nat>, size: nat, k: nat)
    requires k < |ranks|
  {
    Times(k, size) <= ranks[k] < Times(k + 1, size)
  }

  /** Between the fetches of pages k and k+1 the row moves from behind the first to before the second. */
  predicate Overtaken(ranks: seq<nat>, size: nat, k: nat) {
    0 < k < |ranks| && ranks[k - 1] >= Times(k, size) > ranks[k]
  }

  lemma {:induction false} StillBehind(ranks: seq<nat>, size: nat, n: nat)
    requires n < |ranks|
    requires forall k | 0 <= k <= n :: !InPage(ranks, size, k) && !Overtaken(ranks, size, k)
    ensures ranks[n] >= Times(n + 1, size)
  {
    if n > 0 {
      StillBehind(ranks, size, n - 1);
    }
    assert !InPage(ranks, size, n) && !Overtaken(ranks, size, n);
  }

  lemma {:induction false} TimesMonotone(m: nat, n: nat, size: nat)
    requires m <= n
    ensures Times(m, size) <= Times(n, size)
    decreases n
  {
    if m < n {
      TimesMonotone(m, n - 1, size);
    }
  }

  /** A rank that ends before the end of the last page and is never overtaken is in some page. */
  lemma SomePage(ranks: seq<nat>, size: nat) returns (k: nat)
    requires |ranks| > 0 && ranks[|ranks| - 1] < Times(|ranks|, size)
    requires forall k | 0 <= k < |ranks| :: !Overtaken(ranks, size, k)
    ensures k < |ranks| && InPage(ranks, size, k)
  {
    if forall k | 0 <= k < |ranks| :: !InPage(ranks, size, k) {
      StillBehind(ranks, size, |ranks| - 1);
      assert false;
    }
    k :| 0 <= k < |ranks| && InPage(ranks, size, k);
  }

  predicate NeverRises(ranks: seq<nat>) {
    forall a, b | 0 <= a < b < |ranks| :: ranks[b] <= ranks[a]
  }

  /** Once overtaken, a rank that does not grow again stays out of every page. */
  lemma OvertakenMisses(ranks: seq<nat>, size: nat, k: nat, j: nat)
    requires Overtaken(ranks, size, k) && j < |ranks|
    requires NeverRises(ranks)
    ensures !InPage(ranks, size, j)
  {
    if j < k {
      TimesMonotone(j + 1, k, size);
      assert j < k - 1 ==> ranks[k - 1] <= ranks[j];
    } else {
      TimesMonotone(k, j, size);
      assert k < j ==> ranks[j] <= ranks[k];
    }
  }

  // ---------- what a walk shows ----------

  lemma WalkEnds(tables: seq<Table>, f: Filters, x: int)
    requires CompleteWalk(tables, f) && AlwaysMatches(tables, f, x)
    ensures Rank(tables[|tables| - 1], f, x) < Times(|tables|, f.perPage)
  {
    assert !PageAt(tables, f, |tables| - 1).hasNext;
    LastPage(tables[|tables| - 1], f, |tables|, x);
  }

  /** A row that matches throughout is shown, unless it is overtaken between two fetches. */
  lemma ShownUnlessOvertaken(tables: seq<Table>, f: Filters, x: int)
    requires CompleteWalk(tables, f) && AlwaysMatches(tables, f, x)
    requires forall k | 0 <= k < |tables| :: !Overtaken(Ranks(tables, f, x), f.perPage, k)
    ensures exists k | 0 <= k < |tables| :: ShownAt(tables, f, x, k)
  {
    var ranks := Ranks(tables, f, x);
    WalkEnds(tables, f, x);
    var k := SomePage(ranks, f.perPage);
    InPageShown(tables, f, x, k);
  }

  lemma OvertakenHides(tables: seq<Table>, f: Filters, x: int, k: nat, j: nat)
    requires CompleteWalk(tables, f) && AlwaysMatches(tables, f, x) && j < |tables| && KnowsIds(tables[j])
    requires NeverRises(Ranks(tables, f, x))
    requires Overtaken(Ranks(tables, f, x), f.perPage, k)
    ensures !ShownAt(tables, f, x, j)
  {
    ShownByRank(tables, f, x, j);
    OvertakenMisses(Ranks(tables, f, x), f.perPage, k, j);
  }

  /** While its rank does not grow, a row that matches throughout is missed exactly when it is overtaken. */
  lemma MissedIffOvertaken(tables: seq<Table>, f: Filters, x: int)
    requires CompleteWalk(tables, f) && AlwaysMatches(tables, f, x)
    requires forall k | 0 <= k < |tables| :: KnowsIds(tables[k])
    requires NeverRises(Ranks(tables, f, x))
    ensures (forall k | 0 <= k < |tables| :: !ShownAt(tables, f, x, k))
       <==> (exists k | 0 <= k < |tables| :: Overtaken(Ranks(tables, f, x), f.perPage, k))
  {
    var ranks := Ranks(tables, f, x);
    if k :| 0 <= k < |tables| && Overtaken(ranks, f.perPage, k) {
      forall j | 0 <= j < |tables| ensures !ShownAt(tables, f, x, j) {
        OvertakenHides(tables, f, x, k, j);
      }
    } else {
      ShownUnlessOvertaken(tables, f, x);
    }
  }

  lemma SubsetSize(a: set<int>, b: set<int>)
    requires a <= b
    ensures |a| <= |b|
  {
    assert b == a + (b - a);
  }

  /** No newer matching row leaves the list between two fetches. */
  ghost predicate NewerStay(before: Table, after: Table, f: Filters, x: int) {
    Above(MatchingIds(before, f), x) <= Above(MatchingIds(after, f), x)
  }

  /** If no newer row leaves the list between two fetches, every row that matches throughout is shown. */
  lemma WalkShows(tables: seq<Table>, f: Filters, x: int)
    requires CompleteWalk(tables, f) && AlwaysMatches(tables, f, x)
    requires forall k | 0 < k < |tables| :: NewerStay(tables[k - 1], tables[k], f, x)
    ensures exists k | 0 <= k < |tables| :: ShownAt(tables, f, x, k)
  {
    forall k | 0 <= k < |tables| ensures !Overtaken(Ranks(tables, f, x), f.perPage, k) {
      if k > 0 {
        NotOvertaken(tables, f, x, k);
      }
    }
    ShownUnlessOvertaken(tables, f, x);
  }

  lemma NotOvertaken(tables: seq<Table>, f: Filters, x: int, k: nat)
    requires 0 < k < |tables| && f.IsNormalized() && NewerStay(tables[k - 1], tables[k], f, x)
    ensures !Overtaken(Ranks(tables, f, x), f.perPage, k)
  {
    SubsetSize(Above(MatchingIds(tables[k - 1], f), x), Above(MatchingIds(tables[k], f), x));
  }

  /** Only new rows appeared; the old ones are as they were. */
  ghost predicate Grows(before: Table, after: Table) {
    forall i | i in before :: i in after && after[i] == before[i]
  }

  lemma {:induction false} GrowsFar(tables: seq<Table>, x: int, k: nat)
    requires k < |tables| && x in tables[0] && forall k | 0 < k < |tables| :: Grows(tables[k - 1], tables[k])
    ensures x in tables[k] && tables[k][x] == tables[0][x]
  {
    if k > 0 {
      GrowsFar(tables, x, k - 1);
    }
  }

  /** In particular, while rows are only created: whatever matched at the start is shown as it was. */
  lemma WalkOmitsNothing(tables: seq<Table>, f: Filters, x: int)
    requires CompleteWalk(tables, f)
    requires forall k | 0 < k < |tables| :: Grows(tables[k - 1], tables[k])
    requires x in MatchingIds(tables[0], f)
    ensures exists k | 0 <= k < |tables| :: tables[0][x] in PageAt(tables, f, k).items
  {
    forall k | 0 <= k < |tables| ensures x in MatchingIds(tables[k], f) {
      GrowsFar(tables, x, k);
    }
    WalkShows(tables, f, x);
    var k :| 0 <= k < |tables| && ShownAt(tables, f, x, k);
    GrowsFar(tables, x, k);
  }

  // ---------- one written row ----------

  /** One update overtakes a row exactly when the row was first behind the page, the updated row is newer, and the
      update takes it out of the list. */
  lemma UpdateOvertakes(before: Table, f: Filters, u: int, updated: Task, x: int, behind: nat)
    requires u in before && x != u && x in MatchingIds(before, f) && Rank(before, f, x) >= behind
    ensures Rank(before[u := updated], f, x) < behind
       <==> Rank(before, f, x) == behind && u > x && f.Matches(before[u]) && !f.Matches(updated)
  {
    var after := before[u := updated];
    var left, right := Above(MatchingIds(before, f), x), Above(MatchingIds(after, f), x);
    assert left - {u} == right - {u};
    Without(left, u);
    Without(right, u);
  }

  lemma Without(s: set<int>, u: int)
    ensures |s| == |s - {u}| + if u in s then 1 else 0
  {
    if u in s {
      assert s == (s - {u}) + {u};
    } else {
      assert s == s - {u};
    }
  }
}
