/** How stale a list page can be: never older than its TTL allows, whatever fails or races. */
module Coherence {
  import opened Domain
  import opened Listing
  import opened Concurrent
  import opened Linearization
  import opened Runs
  import opened CacheProtocol

  // ---------- bounded staleness: no assumption on races or failures ----------

  /** The fetch is the true answer to these filters at an earlier step of the run. */
  ghost predicate Truthful(systems: seq<System>, n: nat, filters: Filters, fetch: Fetch)
    requires n <= |systems|
  {
    && filters.IsNormalized() && fetch.readStep < n
    && fetch.startedAt <= fetch.readAt == systems[fetch.readStep].core.clock
    && fetch.page == Query(systems[fetch.readStep].core.db.tasks, filters)
  }

  ghost predicate HonestReader(systems: seq<System>, n: nat, r: Reader, clock: int, ttl: nat)
    requires n <= |systems|
  {
    && r.filters.IsNormalized() && r.startedAt <= clock
    && match r.pc
       case Fetched(fetch) =>
         Truthful(systems, n, r.filters, fetch) && fetch.startedAt == r.startedAt && fetch.readAt <= clock
       case Filling(fetch, _, _) =>
         Truthful(systems, n, r.filters, fetch) && fetch.startedAt == r.startedAt && fetch.readAt <= clock
       case Answered(fetch) =>
         Truthful(systems, n, r.filters, fetch) && fetch.startedAt == r.startedAt && fetch.readAt <= clock
       case Served(entry, _, _, _, servedAt) =>
         && Truthful(systems, n, r.filters, entry.fetch)
         && entry.fetch.readAt <= entry.setAt <= servedAt <= entry.setAt + ttl
       case _ => true
  }

  ghost predicate Honest(systems: seq<System>, n: nat, ttl: nat)
    requires n < |systems|
  {
    var y := systems[n];
    && y.step == n
    && (forall k | k in y.cache ::
          && Truthful(systems, n, k.filters, y.cache[k].fetch)
          && y.cache[k].fetch.readAt <= y.cache[k].setAt <= y.core.clock)
    && (forall r | r in y.readers :: HonestReader(systems, n, y.readers[r], y.core.clock, ttl))
  }

  lemma ClockRuns(s: State, e: Event)
    requires Inv(s) && Enabled(s, e)
    ensures s.clock <= Next(s, e).clock
  {
    if e.Step? {
      StepClock(s, e.op);
    }
  }

  lemma StepClock(s: State, o: int)
    requires o in s.ops
    ensures StepOp(s, o).clock == s.clock
  {
    if s.ops[o].call.UpdateTask? && ValidatePatch(s.ops[o].call.patch).Ok? {
      var patch := ValidatePatch(s.ops[o].call.patch).value;
      if s.ops[o].pc.UpdateLocked? {
        assert Authorize(s, o, patch).clock == s.clock;
      } else if s.ops[o].pc.UpdateWriting? {
        assert Write(s, o, patch).clock == s.clock;
      }
    }
  }

  /** Time passing, and pages leaving the cache, harm no promise. */
  lemma HonestRest(systems: seq<System>, n: nat, ttl: nat)
    requires n + 1 < |systems| && Honest(systems, n, ttl)
    requires systems[n + 1].step == n + 1 && systems[n].core.clock <= systems[n + 1].core.clock
    requires systems[n + 1].cache.Keys <= systems[n].cache.Keys
    requires forall k | k in systems[n + 1].cache :: systems[n + 1].cache[k] == systems[n].cache[k]
    requires systems[n + 1].readers == systems[n].readers
    ensures Honest(systems, n + 1, ttl)
  {
    forall r | r in systems[n].readers
      ensures HonestReader(systems, n + 1, systems[n].readers[r], systems[n + 1].core.clock, ttl)
    {
      assert HonestReader(systems, n, systems[n].readers[r], systems[n].core.clock, ttl);
    }
  }

  /** What a reader's step makes of an honest reader and an honest cache. */
  lemma ReaderStepHonest(systems: seq<System>, n: nat, r: Reader, ok: bool, ttl: nat)
    requires n + 1 < |systems| && Honest(systems, n, ttl) && HonestReader(systems, n, r, systems[n].core.clock, ttl)
    ensures var y := systems[n];
            var (pc, cache) := ReaderStep(y, r, ok, ttl);
            && HonestReader(systems, n + 1, r.(pc := pc), y.core.clock, ttl)
            && forall k | k in cache ::
                 && Truthful(systems, n + 1, k.filters, cache[k].fetch)
                 && cache[k].fetch.readAt <= cache[k].setAt <= y.core.clock
  {
  }

  lemma HonestAdvance(systems: seq<System>, n: nat, r: int, ok: bool, ttl: nat)
    requires n + 1 < |systems| && Honest(systems, n, ttl) && r in systems[n].readers
    requires systems[n].readers[r].filters.IsNormalized()
    requires var y, z := systems[n], systems[n + 1];
             var (pc, cache) := ReaderStep(y, y.readers[r], ok, ttl);
             z == y.(step := n + 1, readers := y.readers[r := y.readers[r].(pc := pc)], cache := cache)
    ensures Honest(systems, n + 1, ttl)
  {
    var y, z := systems[n], systems[n + 1];
    assert HonestReader(systems, n, y.readers[r], y.core.clock, ttl);
    ReaderStepHonest(systems, n, y.readers[r], ok, ttl);
    forall k | k in z.readers ensures HonestReader(systems, n + 1, z.readers[k], z.core.clock, ttl) {
      if k != r {
        OtherReaderHonest(systems, n, y.readers[k], ttl);
      }
    }
  }

  lemma OtherReaderHonest(systems: seq<System>, n: nat, r: Reader, ttl: nat)
    requires n + 1 < |systems| && HonestReader(systems, n, r, systems[n].core.clock, ttl)
    ensures HonestReader(systems, n + 1, r, systems[n].core.clock, ttl)
  {
  }

  lemma HonestAsk(systems: seq<System>, n: nat, r: int, reader: Reader, ttl: nat)
    requires n + 1 < |systems| && Honest(systems, n, ttl)
    requires reader.filters.IsNormalized() && reader.startedAt == systems[n].core.clock &&
             (reader.pc.Asked? || reader.pc.Refused?)
    requires systems[n + 1] == systems[n].(step := n + 1, readers := systems[n].readers[r := reader])
    ensures Honest(systems, n + 1, ttl)
  {
    var y, z := systems[n], systems[n + 1];
    forall k | k in z.readers ensures HonestReader(systems, n + 1, z.readers[k], z.core.clock, ttl) {
      if k != r { assert HonestReader(systems, n, y.readers[k], y.core.clock, ttl); }
    }
  }

  lemma HonestStep(systems: seq<System>, n: nat, a: Act, ttl: nat)
    requires n + 1 < |systems| && Honest(systems, n, ttl) && Inv(systems[n].core)
    requires Possible(systems[n], a) && systems[n + 1] == Do(systems[n], a, ttl)
    ensures Honest(systems, n + 1, ttl)
  {
    match a
    case Core(e, incrOk) => ClockRuns(systems[n].core, e); HonestRest(systems, n, ttl);
    case Ask(r, actor, wanted) => HonestAsk(systems, n, r, systems[n + 1].readers[r], ttl);
    case Advance(r, ok) => HonestAdvance(systems, n, r, ok, ttl);
    case Evict(_) => HonestRest(systems, n, ttl);
    case Forget(_) => HonestRest(systems, n, ttl);
  }

  /** The core of a system run behaves like a run of the service: its invariant and its log survive every action. */
  lemma CoreKeeps(y: System, a: Act, ttl: nat)
    requires Inv(y.core) && Faithful(y.core) && Possible(y, a)
    ensures Inv(Do(y, a, ttl).core) && Faithful(Do(y, a, ttl).core)
  {
    if a.Core? {
      StepKeeps(y.core, a.event);
      MovesFaithfully(y.core, Next(y.core, a.event));
    }
  }

  lemma {:induction false} AlwaysHonest(systems: seq<System>, actions: seq<Act>, ttl: nat, n: nat)
    requires IsSystemRun(systems, actions, ttl) && n < |systems|
    ensures Inv(systems[n].core) && Faithful(systems[n].core) && Honest(systems, n, ttl)
  {
    if n > 0 {
      AlwaysHonest(systems, actions, ttl, n - 1);
      CoreKeeps(systems[n - 1], actions[n - 1], ttl);
      HonestStep(systems, n - 1, actions[n - 1], ttl);
    }
  }

  /** The database read behind the page of an answered List. */
  function Origin(pc: ReaderPc): Fetch
    requires pc.Served? || pc.Answered?
  {
    if pc.Served? then pc.entry.fetch else pc.fetch
  }

  /** Every page a List answers with is the true answer to the request at some earlier step: its own read, made after
      it started, or, for a page from the cache, one no longer ago than the TTL plus the time the filling request took
      from its start to its SET. */
  lemma BoundedStaleness(systems: seq<System>, actions: seq<Act>, ttl: nat, n: nat, r: int)
    requires IsSystemRun(systems, actions, ttl) && n < |systems|
    requires r in systems[n].readers && (systems[n].readers[r].pc.Served? || systems[n].readers[r].pc.Answered?)
    ensures var reader, fetch := systems[n].readers[r], Origin(systems[n].readers[r].pc);
            var m := fetch.readStep;
            && m < n && reader.filters.IsNormalized()
            && fetch.page == Query(systems[m].core.db.tasks, reader.filters)
            && (reader.pc.Answered? ==> systems[m].core.clock >= reader.startedAt)
            && (reader.pc.Served? ==>
                  && reader.pc.entry.setAt >= fetch.startedAt
                  && reader.pc.servedAt - systems[m].core.clock <= ttl + (reader.pc.entry.setAt - fetch.startedAt))
  {
    AlwaysHonest(systems, actions, ttl, n);
    assert HonestReader(systems, n, systems[n].readers[r], systems[n].core.clock, ttl);
  }
}
