/** What a list request promises, spelled out over the filters and the columns of the task table. */
module ListPromises {
  import opened Wrappers
  import opened Domain
  import opened Store
  import opened Listing
  import opened Walking
  import opened TaskCaching
  import opened SequentialCache
  import CacheProtocol

  /** The filters select by team, by status text if one is given, and by assignee if one is given. */
  lemma SelectedRows(tasks: Table, f: Filters)
    ensures MatchingIds(tasks, f) ==
            set i | i in tasks && tasks[i].teamId == f.teamId
                  && (f.status != "" ==> StatusText(tasks[i].status) == f.status)
                  && (f.assigneeId.Some? ==> tasks[i].assigneeId == Some(f.assigneeId.value))
  {
  }

  lemma SelectedOnly(tasks: Table, f: Filters, x: int)
    requires f.IsNormalized() && KnowsIds(tasks) && x in tasks && x !in MatchingIds(tasks, f)
    ensures tasks[x] !in Query(tasks, f).items
  {
    var ids := SortDesc(MatchingIds(tasks, f));
    forall k | 0 <= k < |Rows(tasks, f)| ensures Rows(tasks, f)[k] != tasks[x] {
      assert ids[k] in ids;
    }
    assert forall row | row in Query(tasks, f).items :: row in Rows(tasks, f);
  }

  lemma TableFits(tasks: Table, f: Filters)
    requires |tasks| + 100 <= 0x7FFF_FFFF_FFFF_FFFF
    ensures Fits(Rows(tasks, f))
  {
    SubsetSize(MatchingIds(tasks, f), tasks.Keys);
  }

  /** A task is on a page exactly when the filters select it and the number of selected tasks with a larger id lies
      between the page's bounds. */
  lemma PageContents(tasks: Table, f: Filters, x: int)
    requires f.IsNormalized() && f.page * f.perPage <= 0x7FFF_FFFF_FFFF_FFFF
    requires KnowsIds(tasks) && |tasks| + 100 <= 0x7FFF_FFFF_FFFF_FFFF && x in tasks
    ensures var newer := |set i | i in tasks && i > x && tasks[i].teamId == f.teamId
                                && (f.status != "" ==> StatusText(tasks[i].status) == f.status)
                                && (f.assigneeId.Some? ==> tasks[i].assigneeId == Some(f.assigneeId.value))|;
            tasks[x] in Query(tasks, f).items <==>
              && tasks[x].teamId == f.teamId
              && (f.status != "" ==> StatusText(tasks[x].status) == f.status)
              && (f.assigneeId.Some? ==> tasks[x].assigneeId == Some(f.assigneeId.value))
              && (f.page - 1) * f.perPage <= newer < f.page * f.perPage
  {
    var newer := set i | i in tasks && i > x && tasks[i].teamId == f.teamId
                       && (f.status != "" ==> StatusText(tasks[i].status) == f.status)
                       && (f.assigneeId.Some? ==> tasks[i].assigneeId == Some(f.assigneeId.value));
    assert newer == Above(MatchingIds(tasks, f), x);
    TableFits(tasks, f);
    StartFits(f);
    if x in MatchingIds(tasks, f) {
      OnPage(tasks, f, x);
    } else {
      SelectedOnly(tasks, f, x);
    }
  }

  lemma StartFits(f: Filters)
    requires f.IsNormalized() && f.page * f.perPage <= MAX_INT64
    ensures Start(f) == (f.page - 1) * f.perPage <= MAX_INT64 && Times(f.page, f.perPage) == f.page * f.perPage
  {
    TimesIsProduct(f.page - 1, f.perPage);
    TimesIsProduct(f.page, f.perPage);
    assert (f.page - 1) * f.perPage + f.perPage == f.page * f.perPage;
  }

  /** The figures beside the items, and their order. */
  lemma PageFigures(tasks: Table, f: Filters)
    requires f.IsNormalized() && f.page * f.perPage <= 0x7FFF_FFFF_FFFF_FFFF && KnowsIds(tasks)
    ensures var q := Query(tasks, f);
            && q.total == |set i | i in tasks && tasks[i].teamId == f.teamId
                                 && (f.status != "" ==> StatusText(tasks[i].status) == f.status)
                                 && (f.assigneeId.Some? ==> tasks[i].assigneeId == Some(f.assigneeId.value))|
            && q.page == f.page && q.perPage == f.perPage && |q.items| <= f.perPage
            && (q.hasNext <==> f.page * f.perPage < q.total)
            && forall i, j | 0 <= i < j < |q.items| :: q.items[i].id > q.items[j].id
  {
    SelectedRows(tasks, f);
    StartFits(f);
    ItemsNewestFirst(tasks, f);
  }

  lemma ItemsNewestFirst(tasks: Table, f: Filters)
    requires f.IsNormalized() && Start(f) <= MAX_INT64 && KnowsIds(tasks)
    ensures var items := Query(tasks, f).items; forall i, j | 0 <= i < j < |items| :: items[i].id > items[j].id
  {
    var items := Query(tasks, f).items;
    NewestFirst(tasks, f);
    forall i, j | 0 <= i < j < |items| ensures items[i].id > items[j].id {
      ItemsAre(tasks, f, i);
      ItemsAre(tasks, f, j);
    }
  }

  lemma NewestFirst(tasks: Table, f: Filters)
    requires KnowsIds(tasks)
    ensures forall i, j | 0 <= i < j < |Rows(tasks, f)| :: Rows(tasks, f)[i].id > Rows(tasks, f)[j].id
  {
    var ids := SortDesc(MatchingIds(tasks, f));
    forall k | 0 <= k < |ids| ensures Rows(tasks, f)[k].id == ids[k] {
      assert ids[k] in ids;
    }
  }

  /** Every answer of a List without cache, in the order of its checks: pages start at 1, a page has 20 rows unless
      asked otherwise and at most 100. */
  lemma ListPromise(db: Db, actor: int, wanted: Filters)
    ensures var page := if wanted.page < 1 then 1 else wanted.page;
            var size := if wanted.perPage <= 0 then 20 else if wanted.perPage > 100 then 100 else wanted.perPage;
            var asked := wanted.(page := page, perPage := size);
            asked.IsNormalized() &&
            ListAnswer(db, actor, wanted) ==
              if wanted.teamId <= 0
                 || !(wanted.status == "" || wanted.status == "todo"
                      || wanted.status == "in_progress" || wanted.status == "done")
              then Err(Validation)
              else if (wanted.teamId, actor) !in db.members then Err(Forbidden)
              else if Wrap64((page - 1) * size) < 0 then Err(Internal)
              else Ok(Query(db.tasks, asked))
  {
    TimesIsProduct(wanted.Normalized().page - 1, wanted.Normalized().perPage);
  }

  /** Under concurrency a List is admitted and refused by the same rules. */
  lemma ArrivalPromise(y: CacheProtocol.System, actor: int, wanted: Filters)
    ensures CacheProtocol.Arrive(y, actor, wanted) ==
            match Admitted(y.core.db, actor, wanted)
            case Err(e) => CacheProtocol.Refused(e)
            case Ok(_) => CacheProtocol.Asked
  {
  }

  // ---------- what the cache is for ----------

  /** A page read past the cache and stored is served, whatever the tables hold by then, until the TTL is over, and no
      longer; serving it leaves the cache alone. */
  lemma CacheServes(
      db: Db, data: Data, ttl: int, actor: int, wanted: Filters, now: int, redis: Redis,
      later: Db, reader: int, again: int)
    requires Admitted(db, actor, wanted).Ok? && Admitted(later, reader, wanted).Ok?
    requires redis.setVersion && redis.setOk && OffsetOk(wanted.Normalized())
    requires Hit(data, wanted.Normalized(), now, redis).None?
    ensures var (filled, page) := ListCached(db, data, ttl, actor, wanted, now, redis);
            && page == Ok(Query(db.tasks, wanted.Normalized()))
            && var next := ListCached(later, filled, ttl, reader, wanted, again, Redis(true, true, true, true));
               && (again <= now + ttl ==> next == (filled, page))
               && (again > now + ttl ==> next.1 == Ok(Query(later.tasks, wanted.Normalized())))
  {
    var f := wanted.Normalized();
    FillKeepsVersions(data, f, true, Query(db.tasks, f), now + ttl, f.teamId);
  }
}
