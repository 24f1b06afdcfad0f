/** The service under concurrency: requests advance one store access at a time, in any interleaving, and may fail
    at any of them. Every run is equivalent to executing the requests one by one, in the order they took effect. */
module Concurrent {
  import opened Wrappers
  import opened Domain
  import opened Store
  import opened Serial

  // ---------- requests in flight ----------

  /** How far a request has got; the arguments are what it remembers from earlier accesses. */
  datatype Pc =
    | Begun
    // Update: unlocked read, role, assignee check, SELECT ... FOR UPDATE, UPDATE and one INSERT per audit row
    | UpdateGot(stale: Task)
    | UpdateRoled(stale: Task, role: Role)
    | UpdateReady(stale: Task, role: Role)
    | UpdateLocked(role: Role, row: Task)
    | UpdateWriting(role: Role, row: Task, now: int, ids: seq<int>)
    // Create: role, assignee check, INSERT of the task, INSERT of its first audit row
    | CreateRoled
    | CreateReady
    | CreateInserted(id: int, now: int)
    | CreateLogged(id: int, now: int, rowId: int)
    // Invite: role and invitee, membership check
    | InviteRoled(user: int, target: Role)
    | InviteReady(user: int, target: Role)
    // CreateTeam: both inserts
    | TeamInserted(id: int)
    // took effect as entry `at` of the log; the cache invalidation, the read of a new team or the mail is still to come
    | Finishing(resp: Response, at: nat)
    | Returned(resp: Response, took: Option<nat>)

  /** `since` is the length of the log when the request arrived. */
  datatype Op = Op(call: Call, since: nat, pc: Pc)

  /** Committed tables, row locks, auto-increment counters and the clock; `rowIds` gives the ids of the rows in
      each task's history. The log is a history variable: the requests in the order they took effect. */
  datatype State = State(
    db: Db, rowIds: map<int, seq<int>>, locks: map<int, int>, ops: map<int, Op>,
    nextTeam: int, nextTask: int, nextRow: int, clock: int, log: seq<Entry>)

  const INIT := State(EMPTY, map[], map[], map[], 1, 1, 1, 0, [])

  datatype Event = Invoke(op: int, call: Call) | Step(op: int) | Abort(op: int) | Tick(span: nat)

  function Put(s: State, o: int, pc: Pc): State
    requires o in s.ops
  {
    s.(ops := s.ops[o := s.ops[o].(pc := pc)])
  }

  function Unlocked(s: State, task: int): State {
    s.(locks := s.locks - {task})
  }

  function Logged(s: State, o: int, id: int, now: int, resp: Response): State
    requires o in s.ops
  {
    s.(log := s.log + [Entry(o, s.ops[o].call, id, now, resp)])
  }

  /** The request is answered with an error; it leaves no trace in the database. */
  function Fail(s: State, o: int, error: Error): State
    requires o in s.ops
  {
    Put(Logged(s, o, 0, s.clock, Err(error)), o, Returned(Err(error), Some(|s.log|)))
  }

  // ---------- one store access ----------

  function StepUpdate(s: State, o: int): State
    requires o in s.ops && s.ops[o].call.UpdateTask?
  {
    var UpdateTask(actor, task, input) := s.ops[o].call;
    match ValidatePatch(input)
    case Err(e) => Fail(s, o, e)
    case Ok(patch) =>
      match s.ops[o].pc
      case Begun =>
        if task !in s.db.tasks then Fail(s, o, NotFound) else Put(s, o, UpdateGot(s.db.tasks[task]))
      case UpdateGot(stale) =>
        (match MemberRole(s.db, stale.teamId, actor)
         case Err(e) => Fail(s, o, e)
         case Ok(role) => Put(s, o, UpdateRoled(stale, role)))
      case UpdateRoled(stale, role) =>
        if AssigneeAllowed(s.db, stale.teamId, patch.assignee) then Put(s, o, UpdateReady(stale, role))
        else Fail(s, o, Validation)
      case UpdateReady(stale, role) =>
        if task !in s.db.tasks then Fail(s, o, NotFound)
        else Put(s, o, UpdateLocked(role, s.db.tasks[task])).(locks := s.locks[task := o])
      case UpdateLocked(_, _) => Authorize(s, o, patch)
      case UpdateWriting(_, _, _, _) => Write(s, o, patch)
      case _ => s
  }

  /** Under the lock: authorize against the locked row, then write it unless nothing changes. */
  function Authorize(s: State, o: int, patch: Patch): State
    requires o in s.ops && s.ops[o].call.UpdateTask? && s.ops[o].pc.UpdateLocked?
  {
    var UpdateTask(actor, task, _) := s.ops[o].call;
    var UpdateLocked(role, row) := s.ops[o].pc;
    match CanUpdateTask(patch, AccessOf(role, row, actor))
    case Err(e) => Unlocked(Fail(s, o, e), task)
    case Ok(_) =>
      if Diff(row, Patched(row, patch, s.clock), actor, s.clock) == [] then
        Unlocked(Put(Logged(s, o, 0, s.clock, Ok(TaskReply(row))), o, Finishing(Ok(TaskReply(row)), |s.log|)), task)
      else Put(s, o, UpdateWriting(role, row, s.clock, []))
  }

  /** One audit row per step, then the commit. */
  function Write(s: State, o: int, patch: Patch): State
    requires o in s.ops && s.ops[o].call.UpdateTask? && s.ops[o].pc.UpdateWriting?
  {
    var UpdateTask(actor, task, _) := s.ops[o].call;
    var UpdateWriting(role, row, now, ids) := s.ops[o].pc;
    if |ids| < |Diff(row, Patched(row, patch, now), actor, now)| then
      Put(s, o, UpdateWriting(role, row, now, ids + [s.nextRow])).(nextRow := s.nextRow + 1)
    else
      var (db, resp) := WriteUpdate(s.db, row, patch, actor, now);
      Unlocked(Put(Logged(s, o, 0, now, resp), o, Finishing(resp, |s.log|)), task)
        .(db := db, rowIds := s.rowIds[task := RowIds(s, task) + ids])
  }

  function RowIds(s: State, task: int): seq<int> {
    if task in s.rowIds then s.rowIds[task] else []
  }

  function StepCreateTask(s: State, o: int): State
    requires o in s.ops && s.ops[o].call.CreateTask?
  {
    var CreateTask(actor, create) := s.ops[o].call;
    match ValidateCreate(create)
    case Err(e) => Fail(s, o, e)
    case Ok(valid) =>
      match s.ops[o].pc
      case Begun =>
        (match MemberRole(s.db, create.teamId, actor)
         case Err(e) => Fail(s, o, e)
         case Ok(_) => Put(s, o, CreateRoled))
      case CreateRoled =>
        if AssigneeAllowed(s.db, create.teamId, Assign(create.assigneeId)) then Put(s, o, CreateReady)
        else Fail(s, o, Validation)
      case CreateReady =>
        Put(s, o, CreateInserted(s.nextTask, s.clock)).(nextTask := s.nextTask + 1)
      case CreateInserted(id, now) =>
        Put(s, o, CreateLogged(id, now, s.nextRow)).(nextRow := s.nextRow + 1)
      case CreateLogged(id, now, rowId) =>
        var task := NewTask(create, valid, actor, id, now);
        Put(Logged(s, o, id, now, Ok(TaskReply(task))), o, Finishing(Ok(TaskReply(task)), |s.log|))
          .(db := WithTask(s.db, task, [CreatedRow(actor, now)]), rowIds := s.rowIds[id := [rowId]])
      case _ => s
  }

  function StepInvite(s: State, o: int): State
    requires o in s.ops && s.ops[o].call.Invite?
  {
    var Invite(actor, team, input, invitee) := s.ops[o].call;
    match s.ops[o].pc
    case Begun =>
      (match MemberRole(s.db, team, actor)
       case Err(e) => Fail(s, o, e)
       case Ok(role) =>
         match ResolveInvite(role, actor, input, invitee)
         case Err(e) => Fail(s, o, e)
         case Ok((user, target)) => Put(s, o, InviteRoled(user, target)))
    case InviteRoled(user, target) =>
      if IsMember(s.db, team, user) then Fail(s, o, Conflict) else Put(s, o, InviteReady(user, target))
    case InviteReady(user, target) =>
      if IsMember(s.db, team, user) then Fail(s, o, Conflict)  // the primary key rejects the second insert
      else
        var member := Membership(target, Some(actor));
        var resp := Ok(MemberReply(team, user, member));
        Put(Logged(s, o, 0, s.clock, resp), o, Finishing(resp, |s.log|)).(db := WithMember(s.db, team, user, member))
    case _ => s
  }

  function StepCreateTeam(s: State, o: int): State
    requires o in s.ops && s.ops[o].call.CreateTeam?
  {
    var CreateTeam(actor, name, description) := s.ops[o].call;
    match ValidateTeamName(name)
    case Err(e) => Fail(s, o, e)
    case Ok(_) =>
      match s.ops[o].pc
      case Begun => Put(s, o, TeamInserted(s.nextTeam)).(nextTeam := s.nextTeam + 1)
      case TeamInserted(id) =>
        Put(Logged(s, o, id, s.clock, Ok(TeamReply(id))), o, Finishing(Ok(TeamReply(id)), |s.log|))
          .(db := ExecCreateTeam(s.db, actor, name, description, id).0)
      case _ => s
  }

  function StepOp(s: State, o: int): State
    requires o in s.ops
  {
    var op := s.ops[o];
    if op.pc.Finishing? then Put(s, o, Returned(op.pc.resp, Some(op.pc.at)))
    else
      match op.call
      case UpdateTask(_, _, _) => StepUpdate(s, o)
      case CreateTask(_, _) => StepCreateTask(s, o)
      case Invite(_, _, _, _) => StepInvite(s, o)
      case CreateTeam(_, _, _) => StepCreateTeam(s, o)
  }

  /** A failed access, rollback or lost connection: locks are released and nothing uncommitted survives. What has
      committed stays, also when the acknowledgement of the commit is lost, the read back of a new team fails, or the
      process dies before it answers: then the request ends in an error, and nothing is invalidated. */
  function AbortOp(s: State, o: int): State
    requires o in s.ops
  {
    var op := s.ops[o];
    var at := if op.pc.Finishing? then Some(op.pc.at) else None;
    var failed := Put(s, o, Returned(Err(Internal), at));
    if op.pc.UpdateLocked? || op.pc.UpdateWriting? then
      (match op.call case UpdateTask(_, task, _) => Unlocked(failed, task) case _ => failed)
    else failed
  }

  predicate Enabled(s: State, e: Event) {
    match e
    case Invoke(o, _) => o !in s.ops
    case Step(o) =>
      o in s.ops && !s.ops[o].pc.Returned?
      && (s.ops[o].pc.UpdateReady? && s.ops[o].call.UpdateTask? ==> s.ops[o].call.taskId !in s.locks)
    case Abort(o) =>
      o in s.ops && !s.ops[o].pc.Returned?
    case Tick(_) => true
  }

  function Next(s: State, e: Event): State
    requires Enabled(s, e)
  {
    match e
    case Invoke(o, call) => s.(ops := s.ops[o := Op(call, |s.log|, Begun)])
    case Step(o) => StepOp(s, o)
    case Abort(o) => AbortOp(s, o)
    case Tick(span) => s.(clock := s.clock + span)
  }

  ghost predicate IsRun(states: seq<State>, events: seq<Event>) {
    && |states| == |events| + 1 && states[0] == INIT
    && forall n | 0 <= n < |events| :: Enabled(states[n], events[n]) && states[n + 1] == Next(states[n], events[n])
  }
}
