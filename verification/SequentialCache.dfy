/** Requests that do not overlap: with a working Redis the cached service answers exactly as one without a cache. */
module SequentialCache {
  import opened Wrappers
  import opened Domain
  import opened Store
  import opened Listing
  import opened TaskCaching
  import opened Serial

  /** Which Redis commands of a List work: the version read and the GET, the version read and the SET. */
  datatype Redis = Redis(getVersion: bool, getOk: bool, setVersion: bool, setOk: bool)

  /** A request with what the world adds to it: the clock, the id it would draw, and how Redis serves it. */
  datatype Request =
    | ListTasks(actor: int, wanted: Filters, now: int, redis: Redis)
    | Write(call: Call, id: int, now: int, incrOk: bool)

  datatype Answer = Listed(page: Result<Page, Error>) | Written(resp: Response)

  /** What a list request may ask for, and the filters it then asks with. */
  function Admitted(db: Db, actor: int, wanted: Filters): (r: Result<Filters, Error>)
    ensures r.Ok? ==> r.value.Valid() && r.value.IsNormalized() && IsMember(db, wanted.teamId, actor)
  {
    var f := wanted.Normalized();
    if !f.Valid() then Err(Validation)
    else match MemberRole(db, f.teamId, actor) case Err(e) => Err(e) case Ok(_) => Ok(f)
  }

  /** List without a cache; an offset that wraps to a negative number makes the query fail. */
  function ListAnswer(db: Db, actor: int, wanted: Filters): Result<Page, Error> {
    match Admitted(db, actor, wanted)
    case Err(e) => Err(e)
    case Ok(f) => if OffsetOk(f) then Ok(Query(db.tasks, f)) else Err(Internal)
  }

  function Hit(data: Data, f: Filters, now: int, redis: Redis): Option<Page> {
    if redis.getOk then Lookup(data, KeyRead(data, f, redis.getVersion), now) else None
  }

  /** List with the cache: look the page up, or read it and store it. */
  function ListCached(db: Db, data: Data, ttl: int, actor: int, wanted: Filters, now: int, redis: Redis):
    (Data, Result<Page, Error>)
  {
    match Admitted(db, actor, wanted)
    case Err(e) => (data, Err(e))
    case Ok(f) =>
      if Hit(data, f, now, redis).Some? then (data, Ok(Hit(data, f, now, redis).value))
      else if !OffsetOk(f) then (data, Err(Internal))
      else (Refilled(data, f, Query(db.tasks, f), now + ttl, redis), Ok(Query(db.tasks, f)))
  }

  function Refilled(data: Data, f: Filters, page: Page, expireAt: int, redis: Redis): Data {
    if redis.setOk then Filled(data, f, redis.setVersion, page, expireAt) else data
  }

  lemma RefillKeeps(data: Data, tasks: Table, f: Filters, expireAt: int, redis: Redis)
    requires Coherent(data, tasks) && f.Valid() && f.IsNormalized() && OffsetOk(f)
    ensures Coherent(Refilled(data, f, Query(tasks, f), expireAt, redis), tasks)
  {
    FillKeeps(data, tasks, f, redis.setVersion, expireAt);
  }

  /** After a successful task request its team's lists are invalidated. */
  function AfterWrite(data: Data, resp: Response, incrOk: bool): Data {
    if resp.Ok? && resp.value.TaskReply? && incrOk then Invalidated(data, resp.value.task.teamId) else data
  }

  function Uncached(db: Db, request: Request): (Db, Answer) {
    match request
    case ListTasks(actor, wanted, _, _) => (db, Listed(ListAnswer(db, actor, wanted)))
    case Write(call, id, now, _) =>
      var (after, resp) := Exec(db, call, id, now);
      (after, Written(resp))
  }

  function Cached(db: Db, data: Data, ttl: int, request: Request): (Db, Data, Answer) {
    match request
    case ListTasks(actor, wanted, now, redis) =>
      var (filled, page) := ListCached(db, data, ttl, actor, wanted, now, redis);
      (db, filled, Listed(page))
    case Write(call, id, now, incrOk) =>
      var (after, resp) := Exec(db, call, id, now);
      (after, AfterWrite(data, resp, incrOk), Written(resp))
  }

  /** What exactness needs of Redis: the version reads before a GET, and the INCRs. Every GET, SET and version read
      before a SET may fail. */
  predicate Working(request: Request) {
    match request case ListTasks(_, _, _, redis) => redis.getVersion case Write(_, _, _, incrOk) => incrOk
  }

  function UncachedRun(db: Db, requests: seq<Request>): seq<Answer>
    decreases |requests|
  {
    if requests == [] then []
    else
      var (after, answer) := Uncached(db, requests[0]);
      [answer] + UncachedRun(after, requests[1..])
  }

  function CachedRun(db: Db, data: Data, ttl: int, requests: seq<Request>): seq<Answer>
    decreases |requests|
  {
    if requests == [] then []
    else
      var (after, kept, answer) := Cached(db, data, ttl, requests[0]);
      [answer] + CachedRun(after, kept, ttl, requests[1..])
  }

  /** Every request that creates something draws an unused id. */
  ghost predicate FreshRun(db: Db, requests: seq<Request>)
    decreases |requests|
  {
    requests != [] ==>
      && (requests[0].Write? ==> FreshId(db, requests[0].call, requests[0].id))
      && FreshRun(Uncached(db, requests[0]).0, requests[1..])
  }

  /** A cached list request leaves the cache alone, or stores the database's answer. */
  lemma ListStores(db: Db, data: Data, ttl: int, actor: int, wanted: Filters, now: int, redis: Redis)
    ensures var after := ListCached(db, data, ttl, actor, wanted, now, redis).0;
            after == data ||
            (Admitted(db, actor, wanted).Ok? && var f := Admitted(db, actor, wanted).value;
             OffsetOk(f) && after == Refilled(data, f, Query(db.tasks, f), now + ttl, redis))
  {
  }

  /** Whatever Redis does, a cached list request keeps the cache coherent. */
  lemma ListKeeps(db: Db, data: Data, ttl: int, actor: int, wanted: Filters, now: int, redis: Redis)
    requires Coherent(data, db.tasks)
    ensures Coherent(ListCached(db, data, ttl, actor, wanted, now, redis).0, db.tasks)
  {
    ListStores(db, data, ttl, actor, wanted, now, redis);
    if ListCached(db, data, ttl, actor, wanted, now, redis).0 != data {
      RefillKeeps(data, db.tasks, Admitted(db, actor, wanted).value, now + ttl, redis);
    }
  }

  /** Its answer is the database's if the version read before the GET works, or the team's version still is 0. */
  lemma ListRefines(db: Db, data: Data, ttl: int, actor: int, wanted: Filters, now: int, redis: Redis)
    requires Coherent(data, db.tasks) && (redis.getVersion || VersionNow(data, wanted.teamId) == 0)
    ensures ListCached(db, data, ttl, actor, wanted, now, redis).1 == ListAnswer(db, actor, wanted)
  {
    match Admitted(db, actor, wanted)
    case Err(_) =>
    case Ok(f) => HitIsExact(data, db.tasks, f, redis.getVersion, now);
  }

  /** What a request leaves of the task table: all of it, or one row written, which is the row it answers with. */
  ghost predicate WritesAnswer(tasks: Table, after: Table, resp: Response) {
    if resp.Ok? && resp.value.TaskReply?
    then
      var task := resp.value.task;
      (task.id in tasks ==> tasks[task.id].teamId == task.teamId) && after == tasks[task.id := task]
    else after == tasks
  }

  lemma UpdateWritesAnswer(db: Db, actor: int, taskId: int, input: PatchInput, now: int)
    requires Keyed(db)
    ensures var (after, resp) := ExecUpdateTask(db, actor, taskId, input, now);
            WritesAnswer(db.tasks, after.tasks, resp)
  {
    var (after, resp) := ExecUpdateTask(db, actor, taskId, input, now);
    if after == db && resp.Ok? {
      assert db.tasks[taskId := db.tasks[taskId]] == db.tasks;
    }
  }

  lemma RequestWritesAnswer(db: Db, call: Call, id: int, now: int)
    requires Keyed(db) && FreshId(db, call, id)
    ensures var (after, resp) := Exec(db, call, id, now); WritesAnswer(db.tasks, after.tasks, resp)
  {
    if call.UpdateTask? {
      UpdateWritesAnswer(db, call.actor, call.taskId, call.patch, now);
    }
  }

  lemma WriteKeeps(db: Db, data: Data, call: Call, id: int, now: int)
    requires Keyed(db) && Coherent(data, db.tasks) && FreshId(db, call, id)
    ensures var (after, resp) := Exec(db, call, id, now);
            Keyed(after) && Coherent(AfterWrite(data, resp, true), after.tasks)
  {
    var (after, resp) := Exec(db, call, id, now);
    RequestWritesAnswer(db, call, id, now);
    ExecExtends(db, Entry(0, call, id, now, resp));
    if resp.Ok? && resp.value.TaskReply? {
      WriteIsLocal(db.tasks, resp.value.task);
      InvalidateKeeps(data, db.tasks, after.tasks, resp.value.task.teamId);
    }
  }

  /** Sequential refinement: over every sequence of requests, from any coherent cache, whichever GETs and SETs fail,
      pages expire or leftovers of old versions lie about, the cached service gives the uncached service's answers. */
  lemma {:induction false} CachedRunRefines(db: Db, data: Data, ttl: int, requests: seq<Request>)
    requires Keyed(db) && Coherent(data, db.tasks) && FreshRun(db, requests)
    requires forall i | 0 <= i < |requests| :: Working(requests[i])
    ensures CachedRun(db, data, ttl, requests) == UncachedRun(db, requests)
    decreases |requests|
  {
    if requests != [] {
      assert Working(requests[0]);
      match requests[0] {
        case ListTasks(actor, wanted, now, redis) =>
          ListKeeps(db, data, ttl, actor, wanted, now, redis);
          ListRefines(db, data, ttl, actor, wanted, now, redis);
        case Write(call, id, now, _) => WriteKeeps(db, data, call, id, now);
      }
      var (after, kept, answer) := Cached(db, data, ttl, requests[0]);
      CachedRunRefines(after, kept, ttl, requests[1..]);
    }
  }

  /** In particular from a fresh start of the service. */
  lemma FreshStartRefines(ttl: int, requests: seq<Request>)
    requires FreshRun(EMPTY, requests) && forall i | 0 <= i < |requests| :: Working(requests[i])
    ensures CachedRun(EMPTY, map[], ttl, requests) == UncachedRun(EMPTY, requests)
  {
    forall f: Filters, n: nat | f.Valid() && f.IsNormalized() ensures EntryOk(map[], EMPTY.tasks, f, n) {
    }
    CachedRunRefines(EMPTY, map[], ttl, requests);
  }
}
