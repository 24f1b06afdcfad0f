/** Two runs of the service, without failures and with undisturbed fills only, in which a client's page walk misses a
    task that matches all the time: once because a page comes from an older read, once because of an update. */
module WalkWitness {
  import opened Domain
  import opened Store
  import opened Listing
  import opened Concurrent
  import opened CacheProtocol
  import opened Scenario
  import opened Coherence
  import PageWalk
  import CalmRuns
  import Wrappers

  // ---------- two tasks to start from ----------

  ghost predicate OnlyCreates(s: State) {
    forall e | e in s.log :: !e.call.UpdateTask?
  }

  ghost predicate AreFresh(tasks: Table, n: nat) {
    (forall i :: i in tasks <==> 1 <= i <= n) && forall i | 1 <= i <= n :: tasks[i] == Fresh(i, 0)
  }

  /** The team's owner has created tasks 1, ..., n with requests 1, ..., n. */
  ghost predicate CoreMade(s: State, n: nat) {
    && AreFresh(s.db.tasks, n)
    && (1, ACTOR) in s.db.members && s.db.members[(1, ACTOR)].role == Owner
    && (forall o | o in s.ops :: 0 <= o <= n)
    && s.nextTask == n + 1 && s.clock == 0 && s.locks == map[] && OnlyCreates(s)
  }

  /** And nobody has listed anything. */
  ghost predicate Made(y: System, n: nat) {
    CoreMade(y.core, n) && y.readers == map[] && y.cache == map[]
  }

  lemma NothingMade() returns (systems: seq<System>, actions: seq<Act>, y: System)
    ensures Reaches(systems, actions, y, true) && Made(y, 0)
  {
    systems, actions, y := TeamCreated();
  }

  /** The next task is committed, its request not answered. */
  lemma NextCommitted(s0: seq<System>, a0: seq<Act>, y: System, n: nat)
    returns (systems: seq<System>, actions: seq<Act>, z: System)
    requires Reaches(s0, a0, y, true) && Made(y, n)
    ensures Reaches(systems, actions, z, true) && Made(z, n + 1)
    ensures n + 1 in z.core.ops && z.core.ops[n + 1].pc ==
            Finishing(Wrappers.Ok(TaskReply(Fresh(n + 1, 0))), |y.core.log|)
  {
    systems, actions, z := TaskCreated(s0, a0, y, true, n + 1);
    LogGrew(y.core, z.core);
  }

  lemma NextMade(s0: seq<System>, a0: seq<Act>, y: System, n: nat)
      returns (systems: seq<System>, actions: seq<Act>, z: System)
    requires Reaches(s0, a0, y, true) && Made(y, n)
    ensures Reaches(systems, actions, z, true) && Made(z, n + 1)
  {
    systems, actions, z := NextCommitted(s0, a0, y, n);
    systems, actions, z := TaskAnswered(systems, actions, z, true, n + 1, Fresh(n + 1, 0), |y.core.log|);
  }

  lemma LogGrew(s: State, t: State)
    requires OnlyCreates(s) && |t.log| == |s.log| + 1 && t.log[..|s.log|] == s.log && !t.log[|s.log|].call.UpdateTask?
    ensures OnlyCreates(t)
  {
    assert t.log == s.log + [t.log[|s.log|]];
  }

  lemma TwoMade() returns (systems: seq<System>, actions: seq<Act>, y: System)
    ensures Reaches(systems, actions, y, true) && Made(y, 2)
  {
    systems, actions, y := NothingMade();
    systems, actions, y := NextMade(systems, actions, y, 0);
    systems, actions, y := NextMade(systems, actions, y, 1);
  }

  // ---------- pages of one row ----------

  function Single(status: string, page: nat): Filters {
    Filters(1, status, Wrappers.None, page, 1)
  }

  lemma SingleOk(status: string, page: nat)
    requires status in {"", "todo"} && page in {1, 2}
    ensures var f := Single(status, page); f.IsNormalized() && f.Normalized() == f && f.Valid() && OffsetOk(f)
  {
  }

  lemma SingleItem(rows: seq<Task>, f: Filters)
    requires f.perPage == 1 && 1 <= f.page <= 2 && |rows| <= 3
    ensures PageOf(rows, f).hasNext <==> f.page < |rows|
    ensures PageOf(rows, f).items == if f.page <= |rows| then [rows[f.page - 1]] else []
  {
    TimesIsProduct(f.page - 1, 1);
    TimesIsProduct(f.page, 1);
  }

  /** The f.page-th of the descending matching ids, and whether there are more. */
  lemma SinglePage(tasks: Table, f: Filters, ids: seq<int>)
    requires f.perPage == 1 && 1 <= f.page <= 2 && Descending(ids) && |ids| <= 3
    requires forall i :: i in ids <==> i in MatchingIds(tasks, f)
    ensures Query(tasks, f).hasNext <==> f.page < |ids|
    ensures f.page <= |ids| ==> ids[f.page - 1] in tasks && Query(tasks, f).items == [tasks[ids[f.page - 1]]]
    ensures f.page > |ids| ==> Query(tasks, f).items == []
  {
    var rows := Rows(tasks, f);
    RowsOf(tasks, f, ids);
    SingleItem(rows, f);
    assert Query(tasks, f) == PageOf(rows, f);
    if f.page <= |ids| {
      assert ids[f.page - 1] in ids;
    }
  }

  // ---------- what the client sees ----------

  /** List r is answered with a page that lacks row x, although the row was there and matched at its read. */
  ghost predicate Misses(systems: seq<System>, y: System, r: int, f: Filters, x: int) {
    && r in y.readers && y.readers[r].filters == f && (y.readers[r].pc.Served? || y.readers[r].pc.Answered?)
    && var fetch := Origin(y.readers[r].pc);
       && fetch.readStep < |systems|
       && var tasks := systems[fetch.readStep].core.db.tasks;
          x in MatchingIds(tasks, f) && tasks[x] !in fetch.page.items
  }

  lemma MissesAlways(before: seq<System>, y: System, after: seq<System>, z: System, r: int, f: Filters, x: int)
    requires Misses(before, y, r, f, x) && before <= after && r in z.readers && z.readers[r] == y.readers[r]
    ensures Misses(after, z, r, f, x)
  {
  }

  /** A whole List past the cache whose answer lacks a matching row. */
  lemma ListsWithout(s0: seq<System>, a0: seq<Act>, y: System, r: int, f: Filters, x: int)
    returns (systems: seq<System>, actions: seq<Act>, z: System, entry: Cached)
    requires Reaches(s0, a0, y, true) && r !in y.readers && MayList(y, f) && Key(VersionOf(y, f.teamId), f) !in y.cache
    requires x in MatchingIds(y.core.db.tasks, f) && y.core.db.tasks[x] !in Query(y.core.db.tasks, f).items
    ensures Reaches(systems, actions, z, true) && s0 <= systems && Reading(y, z, r)
    ensures Misses(systems, z, r, f, x) && z.readers[r].pc.Answered?
    ensures Origin(z.readers[r].pc).page == Query(y.core.db.tasks, f)
    ensures z.cache == y.cache[Key(VersionOf(y, f.teamId), f) := entry]
  {
    systems, actions, z, entry := Lists(s0, a0, y, true, r, f);
  }

  /** List `second` arrived when `first` had its answer. */
  ghost predicate InTurn(systems: seq<System>, y: System, first: int, second: int) {
    && first in y.readers
    && exists m | 0 <= m < |systems| ::
         first in systems[m].readers && systems[m].readers[first] == y.readers[first] && second !in systems[m].readers
  }

  lemma TurnTaken(before: seq<System>, n: nat, after: seq<System>, z: System, first: int, second: int)
    requires n < |before| && before <= after && first in before[n].readers && second !in before[n].readers
    requires first in z.readers && z.readers[first] == before[n].readers[first]
    ensures InTurn(after, z, first, second)
  {
    assert after[n] == before[n];
  }

  /** Nothing failed and every fill was undisturbed; page 1, of List `first`, announces page 2, of List `second`, which
      is the last; row x matched at both reads and is on neither page; `second` came after `first` was answered. */
  ghost predicate WalkMisses(systems: seq<System>, actions: seq<Act>, y: System, f: Filters, first: int, second: int,
      x: int) {
    && CalmRuns.CalmRun(systems, actions, TTL) && y == systems[|actions|] && (forall a | a in actions :: Smooth(a))
    && PageWalk.ClientWalk(y, [first, second], f)
    && Misses(systems, y, first, f, x) && Misses(systems, y, second, f.(page := 2), x)
    && InTurn(systems, y, first, second)
  }

  lemma IsClientWalk(systems: seq<System>, y: System, f: Filters, first: int, second: int, x: int)
    requires f.IsNormalized() && f.page == 1
    requires Misses(systems, y, first, f, x) && Misses(systems, y, second, f.(page := 2), x)
    requires Origin(y.readers[first].pc).page.hasNext && !Origin(y.readers[second].pc).page.hasNext
    ensures PageWalk.ClientWalk(y, [first, second], f)
  {
    assert f.(page := 1) == f;
  }

  // ---------- an older page from the cache ----------

  /** Page 2 has been listed and is cached under the current version. */
  ghost predicate PageCached(systems: seq<System>, y: System, fetch: Fetch) {
    var key := Key(VersionOf(y, 1), Single("", 2));
    && key in y.cache && y.cache[key].fetch == fetch && y.cache[key].setAt == 0 && y.core.clock == 0
    && OlderPage(systems, fetch)
  }

  ghost predicate OlderPage(systems: seq<System>, fetch: Fetch) {
    && fetch.page.items == [Fresh(1, 0)] && !fetch.page.hasNext && fetch.readStep < |systems|
    && var tasks := systems[fetch.readStep].core.db.tasks; 2 in tasks && tasks[2] == Fresh(2, 0)
  }

  lemma OldestPage(tasks: Table)
    requires AreFresh(tasks, 2)
    ensures Query(tasks, Single("", 2)).items == [Fresh(1, 0)] && !Query(tasks, Single("", 2)).hasNext
  {
    SinglePage(tasks, Single("", 2), [2, 1]);
  }

  lemma CachePhase() returns (systems: seq<System>, actions: seq<Act>, y: System, fetch: Fetch)
    ensures Reaches(systems, actions, y, true) && PageCached(systems, y, fetch) && y.readers.Keys == {1}
    ensures Key(VersionOf(y, 1), Single("", 1)) !in y.cache
    ensures CoreMade(y.core, 2)
  {
    systems, actions, y := TwoMade();
    SingleOk("", 2);
    OldestPage(y.core.db.tasks);
    var entry;
    systems, actions, y, entry := Lists(systems, actions, y, true, 1, Single("", 2));
    fetch := entry.fetch;
  }

  lemma CreatePhase() returns (systems: seq<System>, actions: seq<Act>, y: System, fetch: Fetch)
    ensures Reaches(systems, actions, y, true) && PageCached(systems, y, fetch) && y.readers.Keys == {1}
    ensures Key(VersionOf(y, 1), Single("", 1)) !in y.cache
    ensures OnlyCreates(y.core) && (1, ACTOR) in y.core.db.members
    ensures AreFresh(y.core.db.tasks, 3)
  {
    systems, actions, y, fetch := CachePhase();
    ghost var before, s := systems, y.core;
    systems, actions, y := TaskCreated(systems, actions, y, true, 3);
    LogGrew(s, y.core);
    assert systems[fetch.readStep] == before[fetch.readStep];
  }

  lemma NewestPage(tasks: Table)
    requires AreFresh(tasks, 3)
    ensures var f := Single("", 1);
            Query(tasks, f).items == [Fresh(3, 0)] && Query(tasks, f).hasNext && 2 in MatchingIds(tasks, f) &&
                tasks[2] !in Query(tasks, f).items
  {
    SinglePage(tasks, Single("", 1), [3, 2, 1]);
  }

  /** Page 1 comes from the database and shows the new task 3. */
  lemma NewestPhase() returns (systems: seq<System>, actions: seq<Act>, y: System, older: Fetch)
    ensures Reaches(systems, actions, y, true) && OnlyCreates(y.core) && (1, ACTOR) in y.core.db.members
    ensures Misses(systems, y, 2, Single("", 1), 2) && Origin(y.readers[2].pc).page.hasNext && y.readers.Keys == {1, 2}
    ensures PageCached(systems, y, older)
  {
    systems, actions, y, older := CreatePhase();
    SingleOk("", 1);
    NewestPage(y.core.db.tasks);
    ghost var before := systems;
    var entry;
    systems, actions, y, entry := ListsWithout(systems, actions, y, 2, Single("", 1), 2);
    assert systems[older.readStep] == before[older.readStep];
  }

  /** Page 2 comes from the cache and still shows task 1: task 2 is on neither, and nobody has updated anything. */
  lemma CachedWalkMisses() returns (systems: seq<System>, actions: seq<Act>, y: System)
    ensures WalkMisses(systems, actions, y, Single("", 1), 2, 3, 2)
    ensures OnlyCreates(y.core)
  {
    var older;
    systems, actions, y, older := NewestPhase();
    SingleOk("", 2);
    ghost var before, between, n := systems, y, |actions|;
    systems, actions, y := Hits(systems, actions, y, true, 3, Single("", 2));
    assert systems[older.readStep] == before[older.readStep];
    TurnTaken(before, n, systems, y, 2, 3);
    MissesAlways(before, between, systems, y, 2, Single("", 1), 2);
    IsClientWalk(systems, y, Single("", 1), 2, 3, 2);
  }

  // ---------- an update between two reads ----------

  lemma FirstTodo(tasks: Table)
    requires AreFresh(tasks, 2)
    ensures var f := Single("todo", 1);
            Query(tasks, f).items == [Fresh(2, 0)] && Query(tasks, f).hasNext && 1 in MatchingIds(tasks, f) &&
                tasks[1] !in Query(tasks, f).items
  {
    SinglePage(tasks, Single("todo", 1), [2, 1]);
  }

  ghost predicate OneDone(tasks: Table) {
    (forall i :: i in tasks <==> 1 <= i <= 2) && tasks[1] == Fresh(1, 0) && tasks[2] == Finish(Fresh(2, 0), 0)
  }

  lemma SecondTodo(tasks: Table)
    requires OneDone(tasks)
    ensures var f := Single("todo", 2);
            Query(tasks, f).items == [] && !Query(tasks, f).hasNext && 1 in MatchingIds(tasks, f) &&
                tasks[1] !in Query(tasks, f).items
  {
    SinglePage(tasks, Single("todo", 2), [1]);
  }

  lemma TodoPhase() returns (systems: seq<System>, actions: seq<Act>, y: System)
    ensures Reaches(systems, actions, y, true) && CoreMade(y.core, 2)
    ensures Misses(systems, y, 1, Single("todo", 1), 1)
    ensures Origin(y.readers[1].pc).page.hasNext && y.readers[1].pc.Answered? && y.readers.Keys == {1}
    ensures forall k | k in y.cache :: k.filters == Single("todo", 1)
  {
    systems, actions, y := TwoMade();
    SingleOk("todo", 1);
    FirstTodo(y.core.db.tasks);
    systems, actions, y := FirstList(systems, actions, y, Single("todo", 1), 1);
  }

  /** A first List whose answer lacks a matching row and announces more. */
  lemma FirstList(s0: seq<System>, a0: seq<Act>, y: System, f: Filters, x: int)
    returns (systems: seq<System>, actions: seq<Act>, z: System)
    requires Reaches(s0, a0, y, true) && y.readers == map[] && y.cache == map[] &&
             (f.teamId, ACTOR) in y.core.db.members
    requires f.IsNormalized() && f.Normalized() == f && f.Valid() && OffsetOk(f)
    requires Query(y.core.db.tasks, f).hasNext
    requires x in MatchingIds(y.core.db.tasks, f) && y.core.db.tasks[x] !in Query(y.core.db.tasks, f).items
    ensures Reaches(systems, actions, z, true) && z.core == y.core && Misses(systems, z, 1, f, x)
    ensures Origin(z.readers[1].pc).page.hasNext && z.readers[1].pc.Answered? && z.readers.Keys == {1}
    ensures forall k | k in z.cache :: k.filters == f
  {
    var entry;
    systems, actions, z, entry := ListsWithout(s0, a0, y, 1, f, x);
  }

  lemma DonePhase() returns (systems: seq<System>, actions: seq<Act>, y: System)
    ensures Reaches(systems, actions, y, true) && Misses(systems, y, 1, Single("todo", 1), 1)
    ensures Origin(y.readers[1].pc).page.hasNext && y.readers[1].pc.Answered? && y.readers.Keys == {1}
    ensures (1, ACTOR) in y.core.db.members
    ensures OneDone(y.core.db.tasks)
    ensures forall k | k in y.cache :: k.filters == Single("todo", 1)
    ensures 3 in y.core.ops && y.core.ops[3].call == DoneCall(2) && y.core.ops[3].pc.Returned? &&
            y.core.ops[3].pc.resp.Ok?
  {
    systems, actions, y := TodoPhase();
    ghost var before, between := systems, y;
    ghost var m := |y.core.log|;
    assert Finishable(y.core, 2);
    systems, actions, y := TaskFinished(systems, actions, y, true, 3, 2);
    systems, actions, y := TaskAnswered(systems, actions, y, true, 3, Finish(Fresh(2, 0), 0), m);
    MissesAlways(before, between, systems, y, 1, Single("todo", 1), 1);
  }

  lemma SecondPhase() returns (systems: seq<System>, actions: seq<Act>, y: System)
    ensures Reaches(systems, actions, y, true)
    ensures Misses(systems, y, 1, Single("todo", 1), 1) && Origin(y.readers[1].pc).page.hasNext &&
            y.readers[1].pc.Answered?
    ensures Misses(systems, y, 2, Single("todo", 2), 1) && !Origin(y.readers[2].pc).page.hasNext &&
            y.readers[2].pc.Answered?
    ensures InTurn(systems, y, 1, 2)
    ensures 3 in y.core.ops && y.core.ops[3].call == DoneCall(2) && y.core.ops[3].pc.Returned? &&
            y.core.ops[3].pc.resp.Ok?
  {
    systems, actions, y := DonePhase();
    SingleOk("todo", 2);
    SecondTodo(y.core.db.tasks);
    ghost var before, between, n := systems, y, |actions|;
    var entry;
    systems, actions, y, entry := ListsWithout(systems, actions, y, 2, Single("todo", 2), 1);
    MissesAlways(before, between, systems, y, 1, Single("todo", 1), 1);
    TurnTaken(before, n, systems, y, 1, 2);
  }

  /** Both pages come from the database; in between task 2 is marked done, by a request that is answered before page 2
      is asked for: task 1 moves up to page 1, and is on neither. */
  lemma UpdatedWalkMisses() returns (systems: seq<System>, actions: seq<Act>, y: System)
    ensures WalkMisses(systems, actions, y, Single("todo", 1), 1, 2, 1)
    ensures y.readers[1].pc.Answered? && y.readers[2].pc.Answered?
    ensures 3 in y.core.ops && y.core.ops[3].call == DoneCall(2) && y.core.ops[3].pc.Returned? &&
            y.core.ops[3].pc.resp.Ok?
  {
    systems, actions, y := SecondPhase();
    IsClientWalk(systems, y, Single("todo", 1), 1, 2, 1);
  }
}
