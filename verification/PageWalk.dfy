/** A client walks the pages of a list while the service goes on working, with and without the cache in between. */
module PageWalk {
  import opened Domain
  import opened Store
  import opened Listing
  import opened Walking
  import opened Serial
  import opened CacheProtocol
  import Concurrent
  import Linearization
  import Runs
  import Coherence
  import Freshness

  // ---------- what a request can do to a row's place in the list ----------

  /** The request takes the row itself, or a newer matching one, out of the list. */
  ghost predicate Removes(db: Db, e: Entry, f: Filters, x: int) {
    && e.call.UpdateTask? && e.call.taskId >= x
    && e.call.taskId in MatchingIds(db.tasks, f) && e.call.taskId !in MatchingIds(Apply(db, e).0.tasks, f)
  }

  lemma StaysUnlessRemoved(db: Db, e: Entry, f: Filters, x: int, u: int)
    requires Keyed(db) && FreshId(db, e.call, e.id) && !Removes(db, e, f, x)
    requires u >= x && u in MatchingIds(db.tasks, f)
    ensures u in MatchingIds(Apply(db, e).0.tasks, f)
  {
    if !(e.call.UpdateTask? && e.call.taskId == u) {
      ExecFrame(db, e, u);
    }
  }

  /** Entries m, ..., n-1 of the log leave the row and all newer ones in the list. */
  ghost predicate Spared(log: seq<Entry>, m: nat, n: nat, f: Filters, x: int) {
    forall k | m <= k < n && k < |log| :: !Removes(After(log[..k]), log[k], f, x)
  }

  lemma StaysOnce(log: seq<Entry>, n: nat, f: Filters, x: int, u: int)
    requires Legal(log) && n < |log| && !Removes(After(log[..n]), log[n], f, x)
    requires u >= x && u in MatchingIds(After(log[..n]).tasks, f)
    ensures u in MatchingIds(After(log[..n + 1]).tasks, f)
  {
    LegalAt(log, n);
    LegalPrefix(log, n);
    AlwaysKeyed(log[..n]);
    StaysUnlessRemoved(After(log[..n]), log[n], f, x, u);
  }

  lemma {:induction false} StaysAlong(log: seq<Entry>, m: nat, n: nat, f: Filters, x: int, u: int)
    requires Legal(log) && m <= n <= |log| && Spared(log, m, n, f, x)
    requires u >= x && u in MatchingIds(After(log[..m]).tasks, f)
    ensures u in MatchingIds(After(log[..n]).tasks, f)
    decreases n
  {
    if m < n {
      StaysAlong(log, m, n - 1, f, x, u);
      StaysOnce(log, n - 1, f, x, u);
    }
  }

  // ---------- pages read after growing prefixes of the log ----------

  /** How much of the log each page reflects: never less than the page before it. */
  ghost predicate Forward(log: seq<Entry>, at: seq<nat>) {
    && |at| > 0
    && (forall k | 0 <= k < |at| :: at[k] <= |log|)
    && (forall j, k | 0 <= j < k < |at| :: at[j] <= at[k])
  }

  ghost function Tables(log: seq<Entry>, at: seq<nat>): (tables: seq<Table>)
    requires Forward(log, at)
    ensures |tables| == |at|
  {
    seq(|at|, (k: nat) requires k < |at| => After(log[..at[k]]).tasks)
  }

  lemma SparedBetween(log: seq<Entry>, at: seq<nat>, f: Filters, x: int, k: nat)
    requires Legal(log) && Forward(log, at) && 0 < k < |at| && Spared(log, at[0], at[|at| - 1], f, x)
    ensures NewerStay(After(log[..at[k - 1]]).tasks, After(log[..at[k]]).tasks, f, x)
  {
    var before, after := MatchingIds(After(log[..at[k - 1]]).tasks, f), MatchingIds(After(log[..at[k]]).tasks, f);
    assert at[0] <= at[k - 1] <= at[k] <= at[|at| - 1];
    forall u | u in Above(before, x) ensures u in Above(after, x) {
      StaysAlong(log, at[k - 1], at[k], f, x, u);
    }
  }

  lemma MatchesAlong(log: seq<Entry>, at: seq<nat>, f: Filters, x: int, k: nat)
    requires Legal(log) && Forward(log, at) && k < |at| && Spared(log, at[0], at[|at| - 1], f, x)
    requires x in MatchingIds(After(log[..at[0]]).tasks, f)
    ensures x in MatchingIds(After(log[..at[k]]).tasks, f)
  {
    assert at[0] <= at[k] <= at[|at| - 1];
    StaysAlong(log, at[0], at[k], f, x, x);
  }

  /** A complete walk shows every row that matched at its start, whatever else is created or updated meanwhile, unless
      an update takes that row or a newer one out of the list. */
  lemma WalkOverLog(log: seq<Entry>, at: seq<nat>, f: Filters, x: int)
    requires Legal(log) && Forward(log, at) && CompleteWalk(Tables(log, at), f)
    requires Spared(log, at[0], at[|at| - 1], f, x)
    requires x in MatchingIds(After(log[..at[0]]).tasks, f)
    ensures exists k | 0 <= k < |at| :: ShownAt(Tables(log, at), f, x, k)
  {
    var tables := Tables(log, at);
    forall k | 0 <= k < |at| ensures x in MatchingIds(tables[k], f) {
      MatchesAlong(log, at, f, x, k);
    }
    forall k | 0 < k < |at| ensures NewerStay(tables[k - 1], tables[k], f, x) {
      SparedBetween(log, at, f, x, k);
    }
    WalkShows(tables, f, x);
  }

  // ---------- pages read from the tables of a concurrent run ----------

  /** When each page is fetched: at moments that do not go back. */
  predicate Moments(length: nat, at: seq<nat>) {
    && |at| > 0
    && (forall k | 0 <= k < |at| :: at[k] < length)
    && (forall j, k | 0 <= j < k < |at| :: at[j] <= at[k])
  }

  ghost function TablesAt(states: seq<Concurrent.State>, at: seq<nat>): (tables: seq<Table>)
    requires Moments(|states|, at)
    ensures |tables| == |at|
  {
    seq(|at|, (k: nat) requires k < |at| => states[at[k]].db.tasks)
  }

  /** The log grows along the states, and each state's tables are those of its log. */
  ghost predicate GrowingLogs(states: seq<Concurrent.State>) {
    && (forall k | 0 <= k < |states| :: Runs.Faithful(states[k]))
    && (forall j, k | 0 <= j <= k < |states| :: states[j].log <= states[k].log)
  }

  lemma RunLogsGrow(states: seq<Concurrent.State>, events: seq<Concurrent.Event>)
    requires Concurrent.IsRun(states, events)
    ensures GrowingLogs(states)
  {
    forall k | 0 <= k < |states| ensures Runs.Faithful(states[k]) {
      Runs.RunKeeps(states, events, k);
    }
    forall j, k | 0 <= j <= k < |states| ensures states[j].log <= states[k].log {
      Runs.LogGrows(states, events, j, k);
    }
  }

  function Lengths(states: seq<Concurrent.State>, at: seq<nat>): (lengths: seq<nat>)
    requires Moments(|states|, at)
    ensures |lengths| == |at|
  {
    seq(|at|, (k: nat) requires k < |at| => |states[at[k]].log|)
  }

  /** The tables at those moments are those after the corresponding prefixes of the last log. */
  lemma TablesOfLog(states: seq<Concurrent.State>, at: seq<nat>)
    requires GrowingLogs(states) && Moments(|states|, at)
    ensures var log := states[at[|at| - 1]].log;
            Forward(log, Lengths(states, at)) && Tables(log, Lengths(states, at)) == TablesAt(states, at)
  {
    var log, lengths := states[at[|at| - 1]].log, Lengths(states, at);
    forall k | 0 <= k < |at| ensures states[at[k]].log == log[..lengths[k]] && lengths[k] <= |log| {
      assert at[k] <= at[|at| - 1];
    }
  }

  lemma WalkOverStates(states: seq<Concurrent.State>, at: seq<nat>, f: Filters, x: int)
    requires GrowingLogs(states) && Moments(|states|, at) && CompleteWalk(TablesAt(states, at), f)
    requires var end := states[at[|at| - 1]].log; Spared(end, |states[at[0]].log|, |end|, f, x)
    requires x in MatchingIds(states[at[0]].db.tasks, f)
    ensures exists k | 0 <= k < |at| :: ShownAt(TablesAt(states, at), f, x, k)
  {
    TablesOfLog(states, at);
    var log := states[at[|at| - 1]].log;
    assert Tables(log, Lengths(states, at))[0] == TablesAt(states, at)[0];
    WalkOverLog(log, Lengths(states, at), f, x);
  }

  /** Without the cache: over every run of the concurrent service. */
  lemma WalkDuringRun(
      states: seq<Concurrent.State>, events: seq<Concurrent.Event>, at: seq<nat>, f: Filters, x: int)
    requires Concurrent.IsRun(states, events) && Moments(|states|, at) && CompleteWalk(TablesAt(states, at), f)
    requires var end := states[at[|at| - 1]].log; Spared(end, |states[at[0]].log|, |end|, f, x)
    requires x in MatchingIds(states[at[0]].db.tasks, f)
    ensures exists k | 0 <= k < |at| :: ShownAt(TablesAt(states, at), f, x, k)
  {
    RunLogsGrow(states, events);
    WalkOverStates(states, at, f, x);
  }

  // ---------- pages a client gets from List ----------

  /** One List per page, each answered from the cache or from the database, going on while HasNext holds. */
  ghost predicate ClientWalk(y: System, lists: seq<int>, f: Filters) {
    && f.IsNormalized() && |lists| > 0
    && forall k | 0 <= k < |lists| ::
         && lists[k] in y.readers && y.readers[lists[k]].filters == f.(page := k + 1)
         && (y.readers[lists[k]].pc.Served? || y.readers[lists[k]].pc.Answered?)
         && (Coherence.Origin(y.readers[lists[k]].pc).page.hasNext <==> k < |lists| - 1)
  }

  /** The database read behind page k+1. */
  ghost function ReadOf(y: System, lists: seq<int>, f: Filters, k: nat): Fetch
    requires ClientWalk(y, lists, f) && k < |lists|
  {
    Coherence.Origin(y.readers[lists[k]].pc)
  }

  ghost function Steps(y: System, lists: seq<int>, f: Filters): (at: seq<nat>)
    requires ClientWalk(y, lists, f)
    ensures |at| == |lists|
  {
    seq(|lists|, (k: nat) requires k < |lists| => ReadOf(y, lists, f, k).readStep)
  }

  function Cores(systems: seq<System>): (states: seq<Concurrent.State>)
    ensures |states| == |systems|
    ensures forall k | 0 <= k < |systems| :: states[k] == systems[k].core
  {
    seq(|systems|, (k: nat) requires k < |systems| => systems[k].core)
  }

  lemma CoreLogStep(y: System, a: Act, ttl: nat)
    requires Linearization.Inv(y.core) && Runs.Faithful(y.core) && Possible(y, a)
    ensures y.core.log <= Do(y, a, ttl).core.log
  {
    if a.Core? {
      Freshness.LogPrefix(y.core, a.event);
    }
  }

  lemma {:induction false} PrefixFar(states: seq<Concurrent.State>, m: nat, n: nat)
    requires m <= n < |states| && forall k | 0 < k < |states| :: states[k - 1].log <= states[k].log
    ensures states[m].log <= states[n].log
    decreases n - m
  {
    if m < n {
      PrefixFar(states, m, n - 1);
    }
  }

  lemma SystemLogsGrow(systems: seq<System>, actions: seq<Act>, ttl: nat)
    requires IsSystemRun(systems, actions, ttl)
    ensures GrowingLogs(Cores(systems))
  {
    forall k | 0 <= k < |systems| ensures Runs.Faithful(systems[k].core) {
      Coherence.AlwaysHonest(systems, actions, ttl, k);
    }
    var states := Cores(systems);
    forall k | 0 < k < |states| ensures states[k - 1].log <= states[k].log {
      Coherence.AlwaysHonest(systems, actions, ttl, k - 1);
      CoreLogStep(systems[k - 1], actions[k - 1], ttl);
    }
    forall j, k | 0 <= j <= k < |states| ensures states[j].log <= states[k].log {
      PrefixFar(states, j, k);
    }
  }

  /** The pages of a client are those of a walk over the tables their database reads saw. */
  lemma PagesAreReads(systems: seq<System>, actions: seq<Act>, ttl: nat, n: nat, lists: seq<int>, f: Filters, k: nat)
    requires IsSystemRun(systems, actions, ttl) && n < |systems| && ClientWalk(systems[n], lists, f) && k < |lists|
    ensures var read := ReadOf(systems[n], lists, f, k);
            read.readStep < n && read.page == Query(systems[read.readStep].core.db.tasks, f.(page := k + 1))
  {
    Coherence.BoundedStaleness(systems, actions, ttl, n, lists[k]);
  }

  /** The reads behind a client's walk are in order, and x is spared between the first of them and the last. */
  ghost predicate InOrder(systems: seq<System>, y: System, lists: seq<int>, f: Filters, x: int)
    requires ClientWalk(y, lists, f)
  {
    var at := Steps(y, lists, f);
    && Moments(|systems|, at)
    && (forall k | 0 <= k < |at| :: Fits(Rows(systems[at[k]].core.db.tasks, f)))
    && x in MatchingIds(systems[at[0]].core.db.tasks, f)
    && var end := systems[at[|at| - 1]].core.log;
       Spared(end, |systems[at[0]].core.log|, |end|, f, x)
  }

  lemma ClientPages(systems: seq<System>, actions: seq<Act>, ttl: nat, n: nat, lists: seq<int>, f: Filters)
    requires IsSystemRun(systems, actions, ttl) && n < |systems| && ClientWalk(systems[n], lists, f)
    requires Moments(|systems|, Steps(systems[n], lists, f))
    ensures var tables := TablesAt(Cores(systems), Steps(systems[n], lists, f));
            forall k | 0 <= k < |lists| :: PageAt(tables, f, k) == ReadOf(systems[n], lists, f, k).page
  {
    var tables := TablesAt(Cores(systems), Steps(systems[n], lists, f));
    forall k | 0 <= k < |lists| ensures PageAt(tables, f, k) == ReadOf(systems[n], lists, f, k).page {
      PagesAreReads(systems, actions, ttl, n, lists, f, k);
    }
  }

  /** The row, as page k+1's read saw it, is on that page. */
  ghost predicate SeenBy(systems: seq<System>, y: System, lists: seq<int>, f: Filters, x: int, k: nat)
    requires ClientWalk(y, lists, f) && k < |lists|
  {
    var read := ReadOf(y, lists, f, k);
    && read.readStep < |systems| && x in systems[read.readStep].core.db.tasks
    && systems[read.readStep].core.db.tasks[x] in read.page.items
  }

  lemma ClientCompletes(y: System, lists: seq<int>, f: Filters, tables: seq<Table>)
    requires ClientWalk(y, lists, f) && |tables| == |lists|
    requires forall k | 0 <= k < |lists| ::
               Fits(Rows(tables[k], f)) && PageAt(tables, f, k) == ReadOf(y, lists, f, k).page
    ensures CompleteWalk(tables, f)
  {
    forall k | 0 <= k < |tables| ensures PageAt(tables, f, k).hasNext <==> k < |tables| - 1 {
      assert PageAt(tables, f, k) == ReadOf(y, lists, f, k).page;
    }
  }

  lemma SeenIfShown(systems: seq<System>, y: System, lists: seq<int>, f: Filters, x: int, k: nat, tables: seq<Table>)
    requires ClientWalk(y, lists, f) && |tables| == |lists| && k < |lists|
    requires PageAt(tables, f, k) == ReadOf(y, lists, f, k).page && ShownAt(tables, f, x, k)
    requires var m := ReadOf(y, lists, f, k).readStep; m < |systems| && tables[k] == systems[m].core.db.tasks
    ensures SeenBy(systems, y, lists, f, x, k)
  {
  }

  /** The tables a client's reads saw make a complete walk, and it shows the row. */
  lemma ShownToClient(systems: seq<System>, y: System, lists: seq<int>, f: Filters, x: int, tables: seq<Table>)
    requires ClientWalk(y, lists, f) && InOrder(systems, y, lists, f, x) && GrowingLogs(Cores(systems))
    requires tables == TablesAt(Cores(systems), Steps(y, lists, f)) && CompleteWalk(tables, f)
    ensures exists k | 0 <= k < |lists| :: ShownAt(tables, f, x, k)
  {
    WalkOverStates(Cores(systems), Steps(y, lists, f), f, x);
  }

  lemma SeenByClient(systems: seq<System>, y: System, lists: seq<int>, f: Filters, x: int, tables: seq<Table>)
    requires ClientWalk(y, lists, f) && Moments(|systems|, Steps(y, lists, f))
    requires tables == TablesAt(Cores(systems), Steps(y, lists, f)) && f.IsNormalized()
    requires forall k | 0 <= k < |lists| :: PageAt(tables, f, k) == ReadOf(y, lists, f, k).page
    requires exists k | 0 <= k < |lists| :: ShownAt(tables, f, x, k)
    ensures exists k | 0 <= k < |lists| :: SeenBy(systems, y, lists, f, x, k)
  {
    var k :| 0 <= k < |lists| && ShownAt(tables, f, x, k);
    SeenIfShown(systems, y, lists, f, x, k, tables);
  }

  lemma ClientWalkCompletes(systems: seq<System>, y: System, lists: seq<int>, f: Filters, x: int, tables: seq<Table>)
    requires ClientWalk(y, lists, f) && InOrder(systems, y, lists, f, x)
    requires tables == TablesAt(Cores(systems), Steps(y, lists, f))
    requires forall k | 0 <= k < |lists| :: PageAt(tables, f, k) == ReadOf(y, lists, f, k).page
    ensures CompleteWalk(tables, f)
  {
    ClientCompletes(y, lists, f, tables);
  }

  /** With the cache, whatever fails or is lost: if no page comes from an older read than the page before it, and no
      update in between takes the row or a newer one out of the list, a client's walk shows the row. */
  lemma ClientWalkShows(
      systems: seq<System>, actions: seq<Act>, ttl: nat, n: nat, lists: seq<int>, f: Filters, x: int)
    requires IsSystemRun(systems, actions, ttl) && n < |systems| && ClientWalk(systems[n], lists, f)
    requires InOrder(systems, systems[n], lists, f, x)
    ensures exists k | 0 <= k < |lists| :: SeenBy(systems, systems[n], lists, f, x, k)
  {
    var tables := TablesAt(Cores(systems), Steps(systems[n], lists, f));
    SystemLogsGrow(systems, actions, ttl);
    ClientPages(systems, actions, ttl, n, lists, f);
    ClientWalkCompletes(systems, systems[n], lists, f, x, tables);
    ShownToClient(systems, systems[n], lists, f, x, tables);
    SeenByClient(systems, systems[n], lists, f, x, tables);
  }

  // ---------- reads in any order ----------

  /** The tables the reads behind a client's pages saw. */
  ghost function TablesRead(systems: seq<System>, y: System, lists: seq<int>, f: Filters): (tables: seq<Table>)
    requires ClientWalk(y, lists, f)
    requires forall k | 0 <= k < |lists| :: ReadOf(y, lists, f, k).readStep < |systems|
    ensures |tables| == |lists|
  {
    seq(|lists|, (k: nat) requires k < |lists| => systems[ReadOf(y, lists, f, k).readStep].core.db.tasks)
  }

  lemma ReadsArePast(systems: seq<System>, actions: seq<Act>, ttl: nat, n: nat, lists: seq<int>, f: Filters)
    requires IsSystemRun(systems, actions, ttl) && n < |systems| && ClientWalk(systems[n], lists, f)
    ensures forall k | 0 <= k < |lists| :: ReadOf(systems[n], lists, f, k).readStep < n
  {
    forall k | 0 <= k < |lists| ensures ReadOf(systems[n], lists, f, k).readStep < n {
      PagesAreReads(systems, actions, ttl, n, lists, f, k);
    }
  }

  /** The tables of a client's reads, of ordinary size and with row x matching in each of them. */
  ghost predicate MatchesAtReads(systems: seq<System>, y: System, lists: seq<int>, f: Filters, x: int) {
    && ClientWalk(y, lists, f)
    && (forall k | 0 <= k < |lists| :: ReadOf(y, lists, f, k).readStep < |systems|)
    && var tables := TablesRead(systems, y, lists, f);
       (forall k | 0 <= k < |tables| :: Fits(Rows(tables[k], f))) && AlwaysMatches(tables, f, x)
  }

  lemma PageOfRead(
      systems: seq<System>, actions: seq<Act>, ttl: nat, n: nat, lists: seq<int>, f: Filters, x: int, k: nat)
    requires IsSystemRun(systems, actions, ttl) && n < |systems| && MatchesAtReads(systems, systems[n], lists, f, x)
    requires k < |lists|
    ensures var tables := TablesRead(systems, systems[n], lists, f);
            && PageAt(tables, f, k) == ReadOf(systems[n], lists, f, k).page && KnowsIds(tables[k])
            && (SeenBy(systems, systems[n], lists, f, x, k) <==> ShownAt(tables, f, x, k))
  {
    var m := ReadOf(systems[n], lists, f, k).readStep;
    PagesAreReads(systems, actions, ttl, n, lists, f, k);
    Coherence.AlwaysHonest(systems, actions, ttl, m);
    AlwaysKeyed(systems[m].core.log);
  }

  /** The reads behind a client's pages make a complete walk over the tables they saw, and show what the client sees. */
  lemma ReadsMakeWalk(systems: seq<System>, actions: seq<Act>, ttl: nat, n: nat, lists: seq<int>, f: Filters, x: int)
    requires IsSystemRun(systems, actions, ttl) && n < |systems| && MatchesAtReads(systems, systems[n], lists, f, x)
    ensures var tables := TablesRead(systems, systems[n], lists, f);
            && CompleteWalk(tables, f)
            && forall k | 0 <= k < |lists| ::
                 KnowsIds(tables[k]) && (SeenBy(systems, systems[n], lists, f, x, k) <==> ShownAt(tables, f, x, k))
  {
    var tables := TablesRead(systems, systems[n], lists, f);
    forall k | 0 <= k < |lists|
      ensures PageAt(tables, f, k) == ReadOf(systems[n], lists, f, k).page && KnowsIds(tables[k])
      ensures SeenBy(systems, systems[n], lists, f, x, k) <==> ShownAt(tables, f, x, k)
    {
      PageOfRead(systems, actions, ttl, n, lists, f, x, k);
    }
    ClientCompletes(systems[n], lists, f, tables);
  }

  /** Whatever order the reads are in: a client sees a row that matched at every read, or it was overtaken. */
  lemma ClientSeesUnlessOvertaken(
      systems: seq<System>, actions: seq<Act>, ttl: nat, n: nat, lists: seq<int>, f: Filters, x: int)
    requires IsSystemRun(systems, actions, ttl) && n < |systems| && MatchesAtReads(systems, systems[n], lists, f, x)
    ensures var ranks := Ranks(TablesRead(systems, systems[n], lists, f), f, x);
            || (exists k | 0 <= k < |lists| :: SeenBy(systems, systems[n], lists, f, x, k))
            || (exists k | 0 <= k < |lists| :: Overtaken(ranks, f.perPage, k))
  {
    var tables := TablesRead(systems, systems[n], lists, f);
    ReadsMakeWalk(systems, actions, ttl, n, lists, f, x);
    if forall k | 0 <= k < |lists| :: !Overtaken(Ranks(tables, f, x), f.perPage, k) {
      ShownUnlessOvertaken(tables, f, x);
      var k :| 0 <= k < |tables| && ShownAt(tables, f, x, k);
      assert SeenBy(systems, systems[n], lists, f, x, k);
    }
  }

  /** And if and only if that happens, while the row's rank never rises from read to read. */
  lemma ClientMissesIffOvertaken(
      systems: seq<System>, actions: seq<Act>, ttl: nat, n: nat, lists: seq<int>, f: Filters, x: int)
    requires IsSystemRun(systems, actions, ttl) && n < |systems| && MatchesAtReads(systems, systems[n], lists, f, x)
    requires NeverRises(Ranks(TablesRead(systems, systems[n], lists, f), f, x))
    ensures (forall k | 0 <= k < |lists| :: !SeenBy(systems, systems[n], lists, f, x, k))
       <==> (exists k | 0 <= k < |lists| ::
               Overtaken(Ranks(TablesRead(systems, systems[n], lists, f), f, x), f.perPage, k))
  {
    ReadsMakeWalk(systems, actions, ttl, n, lists, f, x);
    MissedIffOvertaken(TablesRead(systems, systems[n], lists, f), f, x);
  }

  // ---------- when the reads are in order ----------

  predicate ReadSince(pc: ReaderPc, m: nat) {
    match pc
    case Fetched(fetch) => fetch.readStep >= m
    case Filling(fetch, _, _) => fetch.readStep >= m
    case Answered(fetch) => fetch.readStep >= m
    case _ => true
  }

  lemma ReadSinceStep(y: System, a: Act, ttl: nat, r: int, m: nat)
    requires Possible(y, a) && y.step >= m && r in Do(y, a, ttl).readers
    requires r in y.readers ==> ReadSince(y.readers[r].pc, m)
    ensures ReadSince(Do(y, a, ttl).readers[r].pc, m)
  {
  }

  /** A List that is not served from the cache reads after it arrives. */
  lemma {:induction false} ReadsAfterArrival(systems: seq<System>, actions: seq<Act>, ttl: nat, m: nat, n: nat, r: int)
    requires IsSystemRun(systems, actions, ttl) && m <= n < |systems|
    requires r !in systems[m].readers && r in systems[n].readers
    ensures ReadSince(systems[n].readers[r].pc, m)
    decreases n
  {
    var before := systems[n - 1];
    Coherence.AlwaysHonest(systems, actions, ttl, n - 1);
    if r in before.readers {
      ReadsAfterArrival(systems, actions, ttl, m, n - 1, r);
    }
    ReadSinceStep(before, actions[n - 1], ttl, r, m);
  }

  /** So the reads are in order when each page is asked for after the previous one was read, and none is a cache hit. */
  lemma UncachedReadsInOrder(systems: seq<System>, actions: seq<Act>, ttl: nat, n: nat, lists: seq<int>, f: Filters)
    requires IsSystemRun(systems, actions, ttl) && n < |systems| && ClientWalk(systems[n], lists, f)
    requires forall k | 0 <= k < |lists| :: systems[n].readers[lists[k]].pc.Answered?
    requires forall j, k | 0 <= j < k < |lists| ::
               var m := ReadOf(systems[n], lists, f, j).readStep; m < |systems| && lists[k] !in systems[m].readers
    ensures Moments(|systems|, Steps(systems[n], lists, f))
  {
    var at := Steps(systems[n], lists, f);
    forall k | 0 <= k < |at| ensures at[k] < n {
      PagesAreReads(systems, actions, ttl, n, lists, f, k);
    }
    forall j, k | 0 <= j < k < |at| ensures at[j] <= at[k] {
      ReadsAfterArrival(systems, actions, ttl, at[j], n, lists[k]);
    }
  }
}
