/** The versioned list cache beside the concurrent service: every Redis command is one step, and any may fail. */
module CacheProtocol {
  import opened Wrappers
  import opened Domain
  import opened Store
  import opened Listing
  import opened Concurrent

  /** What a list key is made of; distinct values print as distinct keys (module CacheKey). */
  datatype Key = Key(version: nat, filters: Filters)

  /** A database read made to fill the cache: when it was made (clock and step number), by a request that started
      when, how much of the log it reflects, and how many invalidations there had been. */
  datatype Fetch = Fetch(page: Page, readAt: int, readStep: nat, startedAt: int, logLength: nat, marks: nat)

  /** A cached page. Only the page and the expiry time exist in Redis, the rest are history variables:
      `clean` records whether the version read of the fill was undisturbed. */
  datatype Cached = Cached(fetch: Fetch, setAt: int, clean: bool)

  datatype ReaderPc =
    | Asked
    | Versioned(version: nat, known: bool, seen: nat)
    | Missed
    | Fetched(fetch: Fetch)
    | Filling(fetch: Fetch, fillVersion: nat, clean: bool)
    | Served(entry: Cached, version: nat, known: bool, seen: nat, servedAt: int)
    | Answered(fetch: Fetch)
    | Refused(error: Error)

  /** A List request; `since` is the number of invalidations before it arrived. */
  datatype Reader = Reader(filters: Filters, startedAt: int, since: nat, pc: ReaderPc)

  /** A successful INCR: which request it followed, for which team, and the version it produced. */
  datatype Incr = Incr(op: int, team: int, version: nat)

  datatype System = System(
    core: State, versions: map<int, nat>, cache: map<Key, Cached>, readers: map<int, Reader>,
    incrs: seq<Incr>, step: nat)

  const START := System(INIT, map[], map[], map[], [], 0)

  /** A step of the core service (with the outcome of its INCR, if it makes one), of a reader, or the loss of a page or
      of a team's version, by eviction or a restart of Redis. */
  datatype Act =
    | Core(event: Event, incrOk: bool)
    | Ask(reader: int, actor: int, wanted: Filters)
    | Advance(reader: int, ok: bool)
    | Evict(key: Key)
    | Forget(team: int)

  function VersionOf(y: System, team: int): nat {
    if team in y.versions then y.versions[team] else 0
  }

  /** The team whose lists a step of the service invalidates: the last step of a task request does. */
  function Invalidates(s: State, e: Event): Option<int> {
    if e.Step? && e.op in s.ops && s.ops[e.op].pc.Finishing? && s.ops[e.op].pc.resp.Ok? &&
        s.ops[e.op].pc.resp.value.TaskReply?
    then Some(s.ops[e.op].pc.resp.value.task.teamId)
    else None
  }

  function CoreStep(y: System, e: Event, incrOk: bool): System
    requires Enabled(y.core, e)
  {
    var moved := y.(core := Next(y.core, e));
    match Invalidates(y.core, e)
    case None => moved
    case Some(team) =>
      if !incrOk then moved
      else
        var version := VersionOf(y, team) + 1;
        moved.(versions := y.versions[team := version], incrs := y.incrs + [Incr(e.op, team, version)])
  }

  function Arrive(y: System, actor: int, wanted: Filters): ReaderPc {
    if !wanted.Normalized().Valid() then Refused(Validation)
    else match MemberRole(y.core.db, wanted.teamId, actor) case Err(e) => Refused(e) case Ok(_) => Asked
  }

  /** Where the log entry of an invalidating request stands. */
  function TookEffect(s: State, op: int): nat {
    if op in s.ops && s.ops[op].pc.Returned? then s.ops[op].pc.took.GetOr(0) else 0
  }

  /** No request of the team took effect after the fetch and invalidated before now. */
  ghost predicate Undisturbed(y: System, team: int, fetch: Fetch) {
    forall i | fetch.marks <= i < |y.incrs| ::
      y.incrs[i].team == team ==> TookEffect(y.core, y.incrs[i].op) < fetch.logLength
  }

  /** The next Redis command or query of a List request; a failed version read counts as version 0. */
  ghost function ReaderStep(y: System, r: Reader, ok: bool, ttl: nat): (ReaderPc, map<Key, Cached>)
    requires r.filters.IsNormalized()
  {
    var team := r.filters.teamId;
    match r.pc
    case Asked =>
      (Versioned(if ok then VersionOf(y, team) else 0, ok, |y.incrs|), y.cache)
    case Versioned(version, known, seen) =>
      var key := Key(version, r.filters);
      if ok && key in y.cache && y.core.clock <= y.cache[key].setAt + ttl
      then (Served(y.cache[key], version, known, seen, y.core.clock), y.cache)
      else (Missed, y.cache)
    case Missed =>
      if ok && OffsetOk(r.filters)
      then
        var page := Query(y.core.db.tasks, r.filters);
        (Fetched(Fetch(page, y.core.clock, y.step, r.startedAt, |y.core.log|, |y.incrs|)), y.cache)
      else (Refused(Internal), y.cache)
    case Fetched(fetch) =>
      (Filling(fetch, if ok then VersionOf(y, team) else 0, !ok || Undisturbed(y, team, fetch)), y.cache)
    case Filling(fetch, fillVersion, clean) =>
      (Answered(fetch),
       if ok then y.cache[Key(fillVersion, r.filters) := Cached(fetch, y.core.clock, clean)] else y.cache)
    case _ => (r.pc, y.cache)
  }

  ghost predicate Possible(y: System, a: Act) {
    match a
    case Core(e, _) => Enabled(y.core, e)
    case Ask(r, _, _) => r !in y.readers
    case Advance(r, _) => r in y.readers && y.readers[r].filters.IsNormalized()
    case Evict(_) => true
    case Forget(_) => true
  }

  ghost function Do(y: System, a: Act, ttl: nat): System
    requires Possible(y, a)
  {
    Moved(y, a, ttl).(step := y.step + 1)
  }

  ghost function Moved(y: System, a: Act, ttl: nat): System
    requires Possible(y, a)
  {
    match a
    case Core(e, incrOk) => CoreStep(y, e, incrOk)
    case Ask(r, actor, wanted) =>
      y.(readers := y.readers[r := Reader(wanted.Normalized(), y.core.clock, |y.incrs|, Arrive(y, actor, wanted))])
    case Advance(r, ok) =>
      var (pc, cache) := ReaderStep(y, y.readers[r], ok, ttl);
      y.(readers := y.readers[r := y.readers[r].(pc := pc)], cache := cache)
    case Evict(key) => y.(cache := y.cache - {key})
    case Forget(team) => y.(versions := y.versions - {team})
  }

  ghost predicate IsSystemRun(systems: seq<System>, actions: seq<Act>, ttl: nat) {
    && |systems| == |actions| + 1 && systems[0] == START
    && forall n | 0 <= n < |actions| ::
         Possible(systems[n], actions[n]) && systems[n + 1] == Do(systems[n], actions[n], ttl)
  }

  /** No version is ever lost. */
  predicate Persistent(actions: seq<Act>) {
    forall a | a in actions :: !a.Forget?
  }
}
