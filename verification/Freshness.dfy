/** Coherence of the cache under interleaving: which fills are sound, and what a page served from them includes. */
module Freshness {
  import opened Wrappers
  import opened Domain
  import opened Serial
  import opened Listing
  import opened Concurrent
  import opened Linearization
  import opened Runs
  import opened CacheProtocol
  import Coherence

  // ---------- what is tracked ----------

  /** The page answers the filters after the first logLength requests of the log. */
  ghost predicate Reflects(log: seq<Entry>, filters: Filters, fetch: Fetch) {
    && filters.IsNormalized() && fetch.logLength <= |log|
    && fetch.page == Query(After(log[..fetch.logLength]).tasks, filters)
  }

  /** Reading under this version misses no request of the team that invalidated up to it. */
  ghost predicate UpToDate(y: System, team: int, version: nat, logLength: nat) {
    forall i | 0 <= i < |y.incrs| ::
      y.incrs[i].team == team && y.incrs[i].version <= version ==> TookEffect(y.core, y.incrs[i].op) < logLength
  }

  ghost predicate FetchOk(y: System, filters: Filters, fetch: Fetch) {
    && Reflects(y.core.log, filters, fetch) && fetch.marks <= |y.incrs|
    && forall i | 0 <= i < fetch.marks :: TookEffect(y.core, y.incrs[i].op) < fetch.logLength
  }

  /** A version read that worked is at least as high as every earlier invalidation of the team. */
  ghost predicate VersionOk(y: System, team: int, version: nat, known: bool, seen: nat) {
    && version <= VersionOf(y, team) && seen <= |y.incrs|
    && (known ==> forall i | 0 <= i < seen :: y.incrs[i].team == team ==> y.incrs[i].version <= version)
  }

  ghost predicate EntryTracked(y: System, team: int, version: nat, filters: Filters, entry: Cached) {
    && version <= VersionOf(y, team)
    && Reflects(y.core.log, filters, entry.fetch)
    && (entry.clean <==> UpToDate(y, team, version, entry.fetch.logLength))
  }

  ghost predicate ReaderOk(y: System, r: Reader) {
    var team := r.filters.teamId;
    && r.filters.IsNormalized() && r.since <= |y.incrs|
    && match r.pc
       case Versioned(version, known, seen) => r.since <= seen && VersionOk(y, team, version, known, seen)
       case Fetched(fetch) => r.since <= fetch.marks && FetchOk(y, r.filters, fetch)
       case Filling(fetch, version, clean) =>
         r.since <= fetch.marks && FetchOk(y, r.filters, fetch) && version <= VersionOf(y, team)
         && (clean <==> UpToDate(y, team, version, fetch.logLength))
       case Served(entry, version, known, seen, _) =>
         r.since <= seen && VersionOk(y, team, version, known, seen) && EntryTracked(y, team, version, r.filters, entry)
       case Answered(fetch) => r.since <= fetch.marks && FetchOk(y, r.filters, fetch)
       case _ => true
  }

  /** Invalidations come from answered requests and count up, team by team. */
  ghost predicate IncrsOk(y: System) {
    && (forall i | 0 <= i < |y.incrs| ::
          && y.incrs[i].op in y.core.ops && y.core.ops[y.incrs[i].op].pc.Returned?
          && y.core.ops[y.incrs[i].op].pc.took.Some?
          && TookEffect(y.core, y.incrs[i].op) < |y.core.log|
          && 0 < y.incrs[i].version <= VersionOf(y, y.incrs[i].team))
    && (forall i, j | 0 <= i < j < |y.incrs| ::
          y.incrs[i].team == y.incrs[j].team ==> y.incrs[i].version < y.incrs[j].version)
  }

  ghost predicate Tracked(y: System) {
    && IncrsOk(y)
    && (forall k | k in y.cache :: EntryTracked(y, k.filters.teamId, k.version, k.filters, y.cache[k]))
    && (forall r | r in y.readers :: ReaderOk(y, y.readers[r]))
  }

  // ---------- what one step preserves ----------

  /** Logs grow, answered requests stay as they are, and a new invalidation gets a version never seen before. */
  ghost predicate Follows(y: System, z: System) {
    && y.core.log <= z.core.log && y.incrs <= z.incrs
    && (forall i | 0 <= i < |y.incrs| :: TookEffect(z.core, y.incrs[i].op) == TookEffect(y.core, y.incrs[i].op))
    && (forall team: int :: VersionOf(y, team) <= VersionOf(z, team))
    && (forall i | |y.incrs| <= i < |z.incrs| :: z.incrs[i].version > VersionOf(y, z.incrs[i].team))
  }

  lemma ReflectsLater(log: seq<Entry>, longer: seq<Entry>, filters: Filters, fetch: Fetch)
    requires log <= longer && Reflects(log, filters, fetch)
    ensures Reflects(longer, filters, fetch)
  {
    assert longer[..fetch.logLength] == log[..fetch.logLength];
  }

  lemma CoherentLater(y: System, z: System, team: int, version: nat, logLength: nat)
    requires Follows(y, z) && version <= VersionOf(y, team)
    ensures UpToDate(z, team, version, logLength) <==> UpToDate(y, team, version, logLength)
  {
    assert forall i | 0 <= i < |y.incrs| :: z.incrs[i] == y.incrs[i];
  }

  lemma EntryLater(y: System, z: System, team: int, version: nat, filters: Filters, entry: Cached)
    requires Follows(y, z) && EntryTracked(y, team, version, filters, entry)
    ensures EntryTracked(z, team, version, filters, entry)
  {
    ReflectsLater(y.core.log, z.core.log, filters, entry.fetch);
    CoherentLater(y, z, team, version, entry.fetch.logLength);
  }

  lemma FetchLater(y: System, z: System, filters: Filters, fetch: Fetch)
    requires Follows(y, z) && FetchOk(y, filters, fetch)
    ensures FetchOk(z, filters, fetch)
  {
    ReflectsLater(y.core.log, z.core.log, filters, fetch);
    assert forall i | 0 <= i < |y.incrs| :: z.incrs[i] == y.incrs[i];
  }

  lemma VersionLater(y: System, z: System, team: int, version: nat, known: bool, seen: nat)
    requires Follows(y, z) && VersionOk(y, team, version, known, seen)
    ensures VersionOk(z, team, version, known, seen)
  {
    assert forall i | 0 <= i < |y.incrs| :: z.incrs[i] == y.incrs[i];
  }

  lemma ReaderLater(y: System, z: System, r: Reader)
    requires Follows(y, z) && ReaderOk(y, r)
    ensures ReaderOk(z, r)
  {
    var team := r.filters.teamId;
    match r.pc
    case Versioned(version, known, seen) => VersionLater(y, z, team, version, known, seen);
    case Fetched(fetch) => FetchLater(y, z, r.filters, fetch);
    case Filling(fetch, version, clean) =>
      FetchLater(y, z, r.filters, fetch);
      CoherentLater(y, z, team, version, fetch.logLength);
    case Served(entry, version, known, seen, _) =>
      VersionLater(y, z, team, version, known, seen);
      EntryLater(y, z, team, version, r.filters, entry);
    case Answered(fetch) => FetchLater(y, z, r.filters, fetch);
    case _ =>
  }

  /** Exactness of the fill: the page may be stored under the version just read if and only if no request of the
      team both took effect after the fetch and invalidated before the version read. */
  lemma FillExact(y: System, filters: Filters, fetch: Fetch, ok: bool)
    requires IncrsOk(y) && FetchOk(y, filters, fetch)
    ensures var version := if ok then VersionOf(y, filters.teamId) else 0;
            (!ok || Undisturbed(y, filters.teamId, fetch)) <==> UpToDate(y, filters.teamId, version, fetch.logLength)
  {
  }

  /** The sufficient condition of the protocol's design: no INCR of the team at all between fetch and version read. */
  lemma NoIncrMeansUndisturbed(y: System, team: int, fetch: Fetch)
    requires forall i | fetch.marks <= i < |y.incrs| :: y.incrs[i].team != team
    ensures Undisturbed(y, team, fetch)
  {
  }

  // ---------- every step ----------

  lemma AnsweredStay(s: State, e: Event, o: int)
    requires Enabled(s, e) && o in s.ops && s.ops[o].pc.Returned?
    ensures o in Next(s, e).ops && Next(s, e).ops[o] == s.ops[o]
  {
    if e.Step? {
      StepMovesOnly(s, e.op);
    }
  }

  /** The last step of a task request: it is answered with the log position it had. */
  lemma Invalidating(s: State, e: Event)
    requires Inv(s) && Enabled(s, e) && Invalidates(s, e).Some?
    ensures var s2 := Next(s, e);
            e.op in s2.ops && s2.ops[e.op].pc.Returned? && s2.ops[e.op].pc.took.Some? && TookEffect(s2, e.op) < |s2.log|
  {
    assert OpOk(s, e.op);
  }

  /** What a core step does to versions and invalidations, whatever it does inside the core. */
  ghost predicate Counts(y: System, z: System, team: Option<int>, op: int) {
    || (z.versions == y.versions && z.incrs == y.incrs)
    || (team.Some? && var v := VersionOf(y, team.value) + 1;
        z.versions == y.versions[team.value := v] && z.incrs == y.incrs + [Incr(op, team.value, v)])
  }

  lemma CoreStepCounts(y: System, e: Event, incrOk: bool)
    requires Enabled(y.core, e)
    ensures var z := CoreStep(y, e, incrOk);
            z.core == Next(y.core, e) && Counts(y, z, Invalidates(y.core, e), if e.Step? then e.op else 0)
  {
  }

  lemma CoreFollows(y: System, e: Event, incrOk: bool)
    requires Inv(y.core) && Faithful(y.core) && Enabled(y.core, e) && IncrsOk(y)
    ensures Follows(y, CoreStep(y, e, incrOk)) && IncrsOk(CoreStep(y, e, incrOk))
  {
    LogPrefix(y.core, e);
    IncrementsStay(y, e);
    CoreStepCounts(y, e, incrOk);
    if Invalidates(y.core, e).Some? {
      Invalidating(y.core, e);
    }
    CoreCounts(y, CoreStep(y, e, incrOk), Next(y.core, e), Invalidates(y.core, e), if e.Step? then e.op else 0);
  }

  lemma LogPrefix(s: State, e: Event)
    requires Inv(s) && Faithful(s) && Enabled(s, e)
    ensures s.log <= Next(s, e).log
  {
    StepKeeps(s, e);
    MovesFaithfully(s, Next(s, e));
  }

  lemma IncrementsStay(y: System, e: Event)
    requires Enabled(y.core, e) && IncrsOk(y)
    ensures forall i | 0 <= i < |y.incrs| ::
              y.incrs[i].op in Next(y.core, e).ops && Next(y.core, e).ops[y.incrs[i].op] == y.core.ops[y.incrs[i].op]
  {
    forall i | 0 <= i < |y.incrs|
      ensures y.incrs[i].op in Next(y.core, e).ops && Next(y.core, e).ops[y.incrs[i].op] == y.core.ops[y.incrs[i].op]
    {
      AnsweredStay(y.core, e, y.incrs[i].op);
    }
  }

  /** The bookkeeping of CoreStep with the new core state given. */
  lemma CoreCounts(y: System, z: System, core: State, team: Option<int>, op: int)
    requires IncrsOk(y) && y.core.log <= core.log && z.core == core
    requires forall i | 0 <= i < |y.incrs| ::
               y.incrs[i].op in core.ops && core.ops[y.incrs[i].op] == y.core.ops[y.incrs[i].op]
    requires team.Some? ==>
               && op in core.ops && core.ops[op].pc.Returned? && core.ops[op].pc.took.Some?
               && TookEffect(core, op) < |core.log|
    requires Counts(y, z, team, op)
    ensures Follows(y, z) && IncrsOk(z)
  {
  }

  lemma CoreTracked(y: System, e: Event, incrOk: bool)
    requires Inv(y.core) && Faithful(y.core) && Enabled(y.core, e) && Tracked(y)
    ensures Tracked(CoreStep(y, e, incrOk))
  {
    var z := CoreStep(y, e, incrOk);
    CoreFollows(y, e, incrOk);
    forall k | k in z.cache ensures EntryTracked(z, k.filters.teamId, k.version, k.filters, z.cache[k]) {
      EntryLater(y, z, k.filters.teamId, k.version, k.filters, y.cache[k]);
    }
    forall r | r in z.readers ensures ReaderOk(z, z.readers[r]) {
      ReaderLater(y, z, y.readers[r]);
    }
  }

  lemma FetchNow(y: System, r: Reader)
    requires Faithful(y.core) && IncrsOk(y) && r.filters.IsNormalized()
    ensures var page := Query(y.core.db.tasks, r.filters);
            FetchOk(y, r.filters, Fetch(page, y.core.clock, y.step, r.startedAt, |y.core.log|, |y.incrs|))
  {
    assert y.core.log[..|y.core.log|] == y.core.log;
  }

  lemma FillOk(y: System, r: Reader, ok: bool, ttl: nat)
    requires Tracked(y) && ReaderOk(y, r) && (r.pc.Fetched? || r.pc.Filling?)
    ensures var (pc, cache) := ReaderStep(y, r, ok, ttl);
            && ReaderOk(y, r.(pc := pc))
            && forall k | k in cache :: EntryTracked(y, k.filters.teamId, k.version, k.filters, cache[k])
  {
    if r.pc.Fetched? {
      FillExact(y, r.filters, r.pc.fetch, ok);
    }
  }

  lemma HitOk(y: System, r: Reader, ok: bool, ttl: nat)
    requires Tracked(y) && ReaderOk(y, r) && r.pc.Versioned?
    ensures var (pc, cache) := ReaderStep(y, r, ok, ttl); ReaderOk(y, r.(pc := pc)) && cache == y.cache
  {
    var key := Key(r.pc.version, r.filters);
    assert key in y.cache ==> EntryTracked(y, r.filters.teamId, r.pc.version, r.filters, y.cache[key]);
  }

  lemma LookOk(y: System, r: Reader, ok: bool, ttl: nat)
    requires Faithful(y.core) && IncrsOk(y) && ReaderOk(y, r) && !r.pc.Versioned? && !r.pc.Fetched? && !r.pc.Filling?
    ensures var (pc, cache) := ReaderStep(y, r, ok, ttl); ReaderOk(y, r.(pc := pc)) && cache == y.cache
  {
    if r.pc.Missed? {
      FetchNow(y, r);
    }
  }

  lemma AdvanceOk(y: System, r: Reader, ok: bool, ttl: nat)
    requires Faithful(y.core) && Tracked(y) && ReaderOk(y, r)
    ensures var (pc, cache) := ReaderStep(y, r, ok, ttl);
            && ReaderOk(y, r.(pc := pc))
            && forall k | k in cache :: EntryTracked(y, k.filters.teamId, k.version, k.filters, cache[k])
  {
    if r.pc.Fetched? || r.pc.Filling? {
      FillOk(y, r, ok, ttl);
    } else if r.pc.Versioned? {
      HitOk(y, r, ok, ttl);
    } else {
      LookOk(y, r, ok, ttl);
    }
  }

  /** Actions that leave core, versions and invalidations alone only have to mind the entries and readers they touch. */
  lemma Rearranged(y: System, z: System)
    requires Tracked(y) && z.core == y.core && z.versions == y.versions && z.incrs == y.incrs
    requires forall k | k in z.cache :: EntryTracked(y, k.filters.teamId, k.version, k.filters, z.cache[k])
    requires forall r | r in z.readers :: ReaderOk(y, z.readers[r])
    ensures Tracked(z)
  {
    forall r | r in z.readers ensures ReaderOk(z, z.readers[r]) {
      ReaderLater(y, z, z.readers[r]);
    }
    forall k | k in z.cache ensures EntryTracked(z, k.filters.teamId, k.version, k.filters, z.cache[k]) {
      EntryLater(y, z, k.filters.teamId, k.version, k.filters, z.cache[k]);
    }
  }

  lemma StepCounted(y: System, step: nat)
    requires Tracked(y)
    ensures Tracked(y.(step := step))
  {
    Rearranged(y, y.(step := step));
  }

  lemma TrackedAdvance(y: System, r: int, ok: bool, ttl: nat)
    requires Faithful(y.core) && Tracked(y) && Possible(y, Advance(r, ok))
    ensures Tracked(Moved(y, Advance(r, ok), ttl))
  {
    AdvanceOk(y, y.readers[r], ok, ttl);
    Rearranged(y, Moved(y, Advance(r, ok), ttl));
  }

  lemma TrackedAside(y: System, a: Act, ttl: nat)
    requires Tracked(y) && Possible(y, a) && (a.Ask? || a.Evict?)
    ensures Tracked(Moved(y, a, ttl))
  {
    Rearranged(y, Moved(y, a, ttl));
  }

  lemma TrackedMove(y: System, a: Act, ttl: nat)
    requires Inv(y.core) && Faithful(y.core) && Tracked(y) && Possible(y, a) && !a.Forget?
    ensures Tracked(Moved(y, a, ttl))
  {
    match a
    case Core(e, incrOk) => CoreTracked(y, e, incrOk);
    case Ask(_, _, _) => TrackedAside(y, a, ttl);
    case Advance(r, ok) => TrackedAdvance(y, r, ok, ttl);
    case Evict(_) => TrackedAside(y, a, ttl);
  }

  lemma {:induction false} AlwaysTracked(systems: seq<System>, actions: seq<Act>, ttl: nat, n: nat)
    requires IsSystemRun(systems, actions, ttl) && Persistent(actions) && n < |systems|
    ensures Inv(systems[n].core) && Faithful(systems[n].core) && Tracked(systems[n])
  {
    if n > 0 {
      AlwaysTracked(systems, actions, ttl, n - 1);
      Coherence.CoreKeeps(systems[n - 1], actions[n - 1], ttl);
      TrackedMove(systems[n - 1], actions[n - 1], ttl);
      StepCounted(Moved(systems[n - 1], actions[n - 1], ttl), systems[n - 1].step + 1);
    }
  }

  // ---------- what a served page includes ----------

  /** A page served from the cache is the answer after some prefix of the log. If the reader's version read worked
      and the fill was undisturbed, that prefix has every request of the team that invalidated before that read. */
  lemma ServedPageIsCoherent(systems: seq<System>, actions: seq<Act>, ttl: nat, n: nat, r: int)
    requires IsSystemRun(systems, actions, ttl) && Persistent(actions) && n < |systems|
    requires r in systems[n].readers && systems[n].readers[r].pc.Served?
    ensures var y, reader := systems[n], systems[n].readers[r];
            var fetch, team := reader.pc.entry.fetch, reader.filters.teamId;
            && Legal(y.core.log) && Reflects(y.core.log, reader.filters, fetch)
            && (reader.pc.entry.clean <==> UpToDate(y, team, reader.pc.version, fetch.logLength))
            && reader.since <= reader.pc.seen <= |y.incrs|
            && (reader.pc.entry.clean && reader.pc.known ==>
                  forall i | 0 <= i < reader.pc.seen ::
                    y.incrs[i].team == team ==> TookEffect(y.core, y.incrs[i].op) < fetch.logLength)
  {
    AlwaysTracked(systems, actions, ttl, n);
    assert ReaderOk(systems[n], systems[n].readers[r]);
  }

  /** So a List that arrives after a request of the team has invalidated sees it: from the cache when its own version
      read worked and the entry's fill was undisturbed, and always when it queries the database itself. */
  lemma ListSeesEarlierRequests(systems: seq<System>, actions: seq<Act>, ttl: nat, n: nat, r: int, i: nat)
    requires IsSystemRun(systems, actions, ttl) && Persistent(actions) && n < |systems| && r in systems[n].readers
    requires var reader := systems[n].readers[r];
             && i < reader.since <= |systems[n].incrs| && systems[n].incrs[i].team == reader.filters.teamId
             && (reader.pc.Answered? || (reader.pc.Served? && reader.pc.known && reader.pc.entry.clean))
    ensures var y, reader := systems[n], systems[n].readers[r];
            var fetch := Coherence.Origin(reader.pc);
            Reflects(y.core.log, reader.filters, fetch) && TookEffect(y.core, y.incrs[i].op) < fetch.logLength
  {
    AlwaysTracked(systems, actions, ttl, n);
    assert ReaderOk(systems[n], systems[n].readers[r]);
  }
}
