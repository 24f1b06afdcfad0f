/** The services: the order of checks, transaction, cache read, fill and invalidation. */
module Services {
  import opened Wrappers
  import opened Domain
  import opened Store
  import opened Listing
  import opened Repositories
  import opened TaskCaching
  import opened SequentialCache
  import Serial
  import Text

  // In every method `fault` numbers the database access that fails, counted over the whole request; negative for none.

  /** A missing membership is reported as Forbidden. */
  method RoleOfMember(teams: TeamRepository, team: int, user: int, fault: int) returns (r: Result<Role, Error>)
    ensures r == if fault == 0 then Err(Internal) else MemberRole(teams.store.db, team, user)
  {
    r := teams.GetMemberRole(team, user, fault);
    if r == Err(NotFound) {
      r := Err(Forbidden);
    }
  }

  /** Normalizing again changes nothing. */
  lemma NormalizedTwice(f: Filters)
    ensures f.Normalized().Normalized() == f.Normalized()
    ensures f.IsNormalized() ==> f.Normalized() == f
  {
  }

  /** A page put together from the rows and the count that were read is the query's answer. */
  lemma PageFromRead(table: Table, f: Filters, items: seq<Task>, total: int)
    requires f.IsNormalized() && items == Query(table, f).items && total == Query(table, f).total
    ensures Page(items, total, f.page, f.perPage, Wrap64(f.page * f.perPage) < total) == Query(table, f)
  {
    TimesIsProduct(f.page, f.perPage);
  }

  // ---------- whether a request gets as far as the access that fails ----------

  /** What Create checks before its transaction; it goes on with the row to be inserted. */
  function Drafted(db: Db, actor: int, create: CreateInput): Result<Task, Error> {
    match ValidateCreate(create)
    case Err(e) => Err(e)
    case Ok((title, status)) =>
      match MemberRole(db, create.teamId, actor)
      case Err(e) => Err(e)
      case Ok(_) =>
        if !AssigneeAllowed(db, create.teamId, Assign(create.assigneeId)) then Err(Validation)
        else Ok(Task(0, create.teamId, title, create.description, status, create.assigneeId, actor, 0, 0, None))
  }

  predicate DraftBreaks(db: Db, actor: int, create: CreateInput, fault: int) {
    && ValidateCreate(create).Ok?
    && (fault == 0 || (fault == 1 && IsMember(db, create.teamId, actor) && create.assigneeId.Some?))
  }

  predicate CreateBreaks(db: Db, actor: int, create: CreateInput, fault: int) {
    DraftBreaks(db, actor, create, fault) || (Drafted(db, actor, create).Ok? && 2 <= fault <= 5)
  }

  /** The checks and the transaction together are the whole creation. */
  lemma CreateInTwoParts(db: Db, actor: int, create: CreateInput, id: int, now: int)
    ensures ExecCreateTask(db, actor, create, id, now) ==
            match Drafted(db, actor, create)
            case Err(e) => (db, Err(e))
            case Ok(draft) =>
              var row := Stamped(draft, id, now);
              (WithTask(db, row, [CreatedRow(actor, now)]), Ok(TaskReply(row)))
  {
  }

  function Authorizer(patch: Patch, role: Role, actor: int): Task -> Result<(), Error> {
    (task: Task) => CanUpdateTask(patch, AccessOf(role, task, actor))
  }

  /** What Update checks before its transaction; it goes on with the patch and the actor's role. */
  function Prepared(db: Db, actor: int, taskId: int, input: PatchInput): Result<(Patch, Role), Error> {
    match ValidatePatch(input)
    case Err(e) => Err(e)
    case Ok(patch) =>
      if taskId !in db.tasks then Err(NotFound)
      else
        match MemberRole(db, db.tasks[taskId].teamId, actor)
        case Err(e) => Err(e)
        case Ok(role) =>
          if AssigneeAllowed(db, db.tasks[taskId].teamId, patch.assignee) then Ok((patch, role)) else Err(Validation)
  }

  predicate PrepareBreaks(db: Db, actor: int, taskId: int, input: PatchInput, fault: int) {
    && ValidatePatch(input).Ok?
    && (|| fault == 0
        || (taskId in db.tasks
            && (|| fault == 1
                || (fault == 2 && IsMember(db, db.tasks[taskId].teamId, actor)
                    && input.assignee.Assign? && input.assignee.value.Some?))))
  }

  predicate UpdateBreaks(db: Db, actor: int, taskId: int, input: PatchInput, now: int, fault: int) {
    || PrepareBreaks(db, actor, taskId, input, fault)
    || (Prepared(db, actor, taskId, input).Ok?
        && var (patch, role) := Prepared(db, actor, taskId, input).value;
           Breaks(db, taskId, patch, actor, Authorizer(patch, role, actor), now, fault - 3))
  }

  predicate UpdateLoses(db: Db, actor: int, taskId: int, input: PatchInput, now: int, fault: int) {
    && Prepared(db, actor, taskId, input).Ok?
    && var (patch, role) := Prepared(db, actor, taskId, input).value;
       Loses(db, taskId, patch, actor, Authorizer(patch, role, actor), now, fault - 3)
  }

  /** The checks and the transaction on the locked row together are the whole update. */
  lemma UpdateInTwoParts(db: Db, actor: int, taskId: int, input: PatchInput, now: int)
    ensures ExecUpdateTask(db, actor, taskId, input, now) ==
            match Prepared(db, actor, taskId, input)
            case Err(e) => (db, Err(e))
            case Ok((patch, role)) => UpdateRow(db, taskId, patch, actor, Authorizer(patch, role, actor), now)
  {
  }

  predicate ListBreaks(db: Db, data: Data, actor: int, wanted: Filters, now: int, redis: Redis, fault: int) {
    var f := wanted.Normalized();
    f.Valid() && (fault == 0 || (IsMember(db, f.teamId, actor) && Hit(data, f, now, redis).None? && 1 <= fault <= 2))
  }

  predicate InviteBreaks(db: Db, actor: int, team: int, input: InviteInput, invitee: Option<int>, fault: int) {
    || fault == 0
    || (IsMember(db, team, actor)
        && var role := db.members[(team, actor)].role;
           var target := input.Normalized().Validate();
           && target.Ok? && CanInviteWithRole(role, target.value).Ok?
           && (|| fault == 1
               || (invitee.Some? && invitee.value != actor
                   && (fault == 2 || (!IsMember(db, team, invitee.value) && 3 <= fault <= 5)))))
  }

  /** WriteKeeps, for a cache that may be stale already. */
  lemma WriteStays(db: Db, data: Data, call: Call, id: int, now: int)
    requires Serial.Keyed(db) && FreshId(db, call, id)
    ensures var (after, resp) := Exec(db, call, id, now);
            Coherent(data, db.tasks) ==> Coherent(AfterWrite(data, resp, true), after.tasks)
  {
    if Coherent(data, db.tasks) {
      WriteKeeps(db, data, call, id, now);
    }
  }

  lemma ListStays(db: Db, data: Data, ttl: int, actor: int, wanted: Filters, now: int, redis: Redis)
    ensures Coherent(data, db.tasks) ==> Coherent(ListCached(db, data, ttl, actor, wanted, now, redis).0, db.tasks)
  {
    if Coherent(data, db.tasks) {
      ListKeeps(db, data, ttl, actor, wanted, now, redis);
    }
  }

  class TaskService {
    const tasks: TaskRepository
    const teams: TeamRepository
    const cache: TaskCache

    ghost predicate Valid()
      reads tasks.store
    {
      teams.store == tasks.store && tasks.store.Valid()
    }

    /** The cache's current entries are the current answers; a failed INCR may end this, and nothing depends on it. */
    ghost predicate CacheExact()
      reads tasks.store, cache
    {
      Coherent(cache.data, tasks.store.db.tasks)
    }

    constructor (tasks: TaskRepository, teams: TeamRepository, cache: TaskCache)
      requires teams.store == tasks.store && tasks.store.Valid()
      ensures Valid() && this.tasks == tasks && this.teams == teams && this.cache == cache
    {
      this.tasks, this.teams, this.cache := tasks, teams, cache;
    }

    /** Role (0), assignee (1), transaction (2, ..., 6), INCR. */
    method Create(actor: int, create: CreateInput, now: int, incrOk: bool, fault: int) returns (r: Response)
      requires Valid()
      modifies tasks.store, cache
      ensures Valid()
      ensures var want := ExecCreateTask(old(tasks.store.db), actor, create, old(tasks.store.nextTask), now);
              (tasks.store.db, r) == Outcome(old(tasks.store.db), want,
                CreateBreaks(old(tasks.store.db), actor, create, fault), want.1.Ok? && fault == 6)
      ensures cache.data == AfterWrite(old(cache.data), r, incrOk)
      ensures old(CacheExact()) && incrOk && (r.Ok? || tasks.store.db == old(tasks.store.db)) ==> CacheExact()
    {
      ghost var before, id, cached := tasks.store.db, tasks.store.nextTask, cache.data;
      CreateInTwoParts(before, actor, create, id, now);
      var draft := Draft(actor, create, fault);
      if draft.Err? {
        return Err(draft.error);
      }
      r := tasks.Create(draft.value, now, fault - 2);
      if r.Ok? {
        WriteStays(before, cached, CreateTask(actor, create), id, now);
        cache.InvalidateTeam(r.value.task.teamId, incrOk);
      }
    }

    /** The part of Create before its transaction; it only reads. */
    method Draft(actor: int, create: CreateInput, fault: int) returns (r: Result<Task, Error>)
      requires Valid()
      ensures r == if DraftBreaks(tasks.store.db, actor, create, fault) then Err(Internal)
                   else Drafted(tasks.store.db, actor, create)
    {
      var title := Text.TrimSpace(create.title);
      if title == "" || |title| > MAX_TITLE_LENGTH {
        return Err(Validation);
      }
      var status := Todo;
      if create.status != "" {
        var parsed := StatusOf(create.status);
        if parsed.None? {
          return Err(Validation);
        }
        status := parsed.value;
      }
      var role := RoleOfMember(teams, create.teamId, actor, fault);
      if role.Err? {
        return Err(role.error);
      }
      if create.assigneeId.Some? {
        var member := teams.CheckMember(create.teamId, create.assigneeId.value, fault - 1);
        if member.Err? {
          return Err(member.error);
        }
        if !member.value {
          return Err(Validation);
        }
      }
      r := Ok(Task(0, create.teamId, title, create.description, status, create.assigneeId, actor, 0, 0, None));
    }

    /** Unlocked read (0), role (1), assignee (2), transaction (3, ...), INCR. */
    method Update(actor: int, taskId: int, input: PatchInput, now: int, incrOk: bool, fault: int) returns (r: Response)
      requires Valid()
      modifies tasks.store, cache
      ensures Valid()
      ensures var want := ExecUpdateTask(old(tasks.store.db), actor, taskId, input, now);
              (tasks.store.db, r) == Outcome(old(tasks.store.db), want,
                UpdateBreaks(old(tasks.store.db), actor, taskId, input, now, fault),
                UpdateLoses(old(tasks.store.db), actor, taskId, input, now, fault))
      ensures cache.data == AfterWrite(old(cache.data), r, incrOk)
      ensures old(CacheExact()) && incrOk && (r.Ok? || tasks.store.db == old(tasks.store.db)) ==> CacheExact()
    {
      ghost var before, cached := tasks.store.db, cache.data;
      UpdateInTwoParts(before, actor, taskId, input, now);
      var prepared := Prepare(actor, taskId, input, fault);
      if prepared.Err? {
        return Err(prepared.error);
      }
      var (patch, role) := prepared.value;
      r := tasks.Update(taskId, patch, actor, Authorizer(patch, role, actor), now, fault - 3);
      if r.Ok? {
        WriteStays(before, cached, UpdateTask(actor, taskId, input), 0, now);
        cache.InvalidateTeam(r.value.task.teamId, incrOk);
      }
    }

    /** The part of Update before its transaction; it only reads. */
    method Prepare(actor: int, taskId: int, input: PatchInput, fault: int) returns (r: Result<(Patch, Role), Error>)
      requires Valid()
      ensures r == if PrepareBreaks(tasks.store.db, actor, taskId, input, fault) then Err(Internal)
                   else Prepared(tasks.store.db, actor, taskId, input)
    {
      var valid := ValidatePatch(input);
      if valid.Err? {
        return Err(valid.error);
      }
      var patch := valid.value;
      var task := tasks.Get(taskId, fault);
      if task.Err? {
        return Err(task.error);
      }
      var role := RoleOfMember(teams, task.value.teamId, actor, fault - 1);
      if role.Err? {
        return Err(role.error);
      }
      if patch.assignee.Assign? && patch.assignee.value.Some? {
        var member := teams.CheckMember(task.value.teamId, patch.assignee.value.value, fault - 2);
        if member.Err? {
          return Err(member.error);
        }
        if !member.value {
          return Err(Validation);
        }
      }
      r := Ok((patch, role.value));
    }

    /** Role (0), the cache, count (1) and page (2), the cache. */
    method List(actor: int, wanted: Filters, now: int, redis: Redis, fault: int) returns (r: Result<Page, Error>)
      requires Valid()
      modifies cache
      ensures Valid()
      ensures (cache.data, r) ==
              if ListBreaks(tasks.store.db, old(cache.data), actor, wanted, now, redis, fault)
              then (old(cache.data), Err(Internal))
              else ListCached(tasks.store.db, old(cache.data), cache.ttl, actor, wanted, now, redis)
      ensures old(CacheExact()) ==> CacheExact()
    {
      ListStays(tasks.store.db, cache.data, cache.ttl, actor, wanted, now, redis);
      var f := wanted.Normalized();
      if !f.Valid() {
        return Err(Validation);
      }
      var role := RoleOfMember(teams, f.teamId, actor, fault);
      if role.Err? {
        return Err(role.error);
      }
      var hit := cache.GetList(f, now, redis.getVersion, redis.getOk);
      if hit.Some? {
        return Ok(hit.value);
      }
      var page := ReadPage(f, fault - 1);
      if page.Err? {
        return Err(page.error);
      }
      cache.SetList(f, page.value, now, redis.setVersion, redis.setOk);
      r := page;
    }

    /** The page as the tables have it. */
    method ReadPage(f: Filters, fault: int) returns (r: Result<Page, Error>)
      requires f.IsNormalized()
      ensures r == if 0 <= fault <= 1 || !OffsetOk(f) then Err(Internal) else Ok(Query(tasks.store.db.tasks, f))
    {
      NormalizedTwice(f);
      var rows := tasks.List(f, fault);
      if rows.Err? {
        return Err(rows.error);
      }
      var (items, total) := rows.value;
      PageFromRead(tasks.store.db.tasks, f, items, total);
      r := Ok(Page(items, total, f.page, f.perPage, Wrap64(f.page * f.perPage) < total));
    }
  }

  class TeamService {
    const teams: TeamRepository

    constructor (teams: TeamRepository)
      ensures this.teams == teams
    {
      this.teams := teams;
    }

    /** After its commit the read back of the team can fail as well. */
    method CreateTeam(actor: int, name: string, description: string, fault: int) returns (r: Response)
      requires teams.store.Valid()
      modifies teams.store
      ensures teams.store.Valid() && teams.store.db.tasks == old(teams.store.db.tasks)
      ensures var id := old(teams.store.nextTeam);
              var (made, answer) := ExecCreateTeam(old(teams.store.db), actor, name, description, id);
              (teams.store.db, r) ==
              Outcome(old(teams.store.db), (made, answer), answer.Ok? && 0 <= fault <= 3, answer.Ok? && 4 <= fault <= 5)
    {
      var trimmed := Text.TrimSpace(name);
      if trimmed == "" || |trimmed| > MAX_TEAM_NAME_LENGTH {
        return Err(Validation);
      }
      r := teams.Create(trimmed, description, actor, fault);
    }

    /** Role (0), invitee (1), membership (2), team and inviter for the message (3, 4), INSERT (5, 6).
        `invitee` is who the users table says the input names; `mailed` whether the invitation could be sent. */
    method Invite(actor: int, team: int, input: InviteInput, invitee: Option<int>, mailOk: bool, fault: int)
      returns (r: Response, mailed: bool)
      requires teams.store.Valid()
      modifies teams.store
      ensures teams.store.Valid() && teams.store.db.tasks == old(teams.store.db.tasks)
      ensures var want := ExecInvite(old(teams.store.db), actor, team, input, invitee);
              (teams.store.db, r) == Outcome(old(teams.store.db), want,
                InviteBreaks(old(teams.store.db), actor, team, input, invitee, fault), want.1.Ok? && fault == 6)
      ensures mailed <==> r.Ok? && mailOk
    {
      mailed := false;
      var role := RoleOfMember(teams, team, actor, fault);
      if role.Err? {
        return Err(role.error), false;
      }
      var request := input.Normalized();
      var target := request.Validate();
      if target.Err? {
        return Err(target.error), false;
      }
      var allowed := CanInviteWithRole(role.value, target.value);
      if allowed.Err? {
        return Err(allowed.error), false;
      }
      if fault == 1 {
        return Err(Internal), false;
      }
      if invitee.None? {
        return Err(NotFound), false;
      }
      if invitee.value == actor {
        return Err(Validation), false;
      }
      var member := teams.CheckMember(team, invitee.value, fault - 2);
      if member.Err? {
        return Err(member.error), false;
      }
      if member.value {
        return Err(Conflict), false;
      }
      if fault == 3 || fault == 4 {
        return Err(Internal), false;  // loading the team's name and the inviter's for the message
      }
      var added := teams.AddMember(team, invitee.value, actor, target.value, fault - 5);
      if added.Err? {
        return Err(added.error), false;
      }
      r := Ok(MemberReply(team, invitee.value, Membership(target.value, Some(actor))));
      mailed := mailOk;
    }
  }
}
