/** Why interleaving is harmless: the invariant of the concurrent service, and what follows from it. */
module Linearization {
  import opened Wrappers
  import opened Domain
  import opened Store
  import opened Serial
  import opened Concurrent

  // ---------- what a request in flight may rely on ----------

  function PatchOf(call: Call): Patch
    requires call.UpdateTask? && ValidatePatch(call.patch).Ok?
  {
    ValidatePatch(call.patch).value
  }

  ghost predicate HasRole(db: Db, team: int, user: int, role: Role) {
    (team, user) in db.members && db.members[(team, user)].role == role
  }

  /** Of an unlocked read only the task's team is used later, and that never changes. */
  ghost predicate UpdateStarted(s: State, call: Call, stale: Task) {
    && call.UpdateTask? && ValidatePatch(call.patch).Ok?
    && call.taskId in s.db.tasks && s.db.tasks[call.taskId].teamId == stale.teamId
  }

  /** The row lock: the row as read is the committed row. */
  ghost predicate HoldsRow(s: State, o: int, call: Call, role: Role, row: Task) {
    && UpdateStarted(s, call, row)
    && call.taskId in s.locks && s.locks[call.taskId] == o
    && s.db.tasks[call.taskId] == row
    && HasRole(s.db, row.teamId, call.actor, role)
    && AssigneeAllowed(s.db, row.teamId, PatchOf(call).assignee)
  }

  ghost predicate Increasing(ids: seq<int>) {
    forall i, j | 0 <= i < j < |ids| :: ids[i] < ids[j]
  }

  ghost predicate Below(ids: seq<int>, bound: int) {
    forall i | 0 <= i < |ids| :: ids[i] < bound
  }

  ghost predicate Writing(s: State, call: Call, role: Role, row: Task, now: int, ids: seq<int>)
    requires call.UpdateTask? && ValidatePatch(call.patch).Ok?
  {
    var rows := Diff(row, Patched(row, PatchOf(call), now), call.actor, now);
    && CanUpdateTask(PatchOf(call), AccessOf(role, row, call.actor)).Ok?
    && 0 < |rows| && |ids| <= |rows|
    && row.updatedAt <= now <= s.clock
    && Increasing(RowIds(s, call.taskId) + ids) && Below(ids, s.nextRow)
  }

  ghost predicate Creating(s: State, call: Call) {
    call.CreateTask? && ValidateCreate(call.create).Ok? && IsMember(s.db, call.create.teamId, call.actor)
  }

  ghost predicate Inserted(s: State, call: Call, id: int, now: int) {
    && Creating(s, call) && AssigneeAllowed(s.db, call.create.teamId, Assign(call.create.assigneeId))
    && 0 < id < s.nextTask && id !in s.db.tasks && now <= s.clock
  }

  ghost predicate Inviting(s: State, call: Call, user: int, target: Role) {
    && call.Invite? && IsMember(s.db, call.team, call.actor)
    && ResolveInvite(s.db.members[(call.team, call.actor)].role, call.actor, call.input, call.invitee) ==
       Ok((user, target))
  }

  ghost predicate OpOk(s: State, o: int)
    requires o in s.ops
  {
    var op := s.ops[o];
    && op.since <= |s.log|
    && match op.pc
       case Begun => true
       case UpdateGot(stale) => UpdateStarted(s, op.call, stale)
       case UpdateRoled(stale, role) =>
         UpdateStarted(s, op.call, stale) && HasRole(s.db, stale.teamId, op.call.actor, role)
       case UpdateReady(stale, role) =>
         UpdateStarted(s, op.call, stale) && HasRole(s.db, stale.teamId, op.call.actor, role)
         && AssigneeAllowed(s.db, stale.teamId, PatchOf(op.call).assignee)
       case UpdateLocked(role, row) => HoldsRow(s, o, op.call, role, row)
       case UpdateWriting(role, row, now, ids) =>
         HoldsRow(s, o, op.call, role, row) && Writing(s, op.call, role, row, now, ids)
       case CreateRoled => Creating(s, op.call)
       case CreateReady =>
         Creating(s, op.call) && AssigneeAllowed(s.db, op.call.create.teamId, Assign(op.call.create.assigneeId))
       case CreateInserted(id, now) => Inserted(s, op.call, id, now)
       case CreateLogged(id, now, rowId) => Inserted(s, op.call, id, now) && rowId < s.nextRow
       case InviteRoled(user, target) => Inviting(s, op.call, user, target)
       case InviteReady(user, target) => Inviting(s, op.call, user, target)
       case TeamInserted(id) =>
         op.call.CreateTeam? && ValidateTeamName(op.call.name).Ok? && 0 < id < s.nextTeam && id !in s.db.teams
       case Finishing(resp, at) => resp.Ok? && Took(s, o, resp, at)
       case Returned(resp, at) => if at.None? then resp == Err(Internal) else Took(s, o, resp, at.value)
  }

  /** The request took effect as entry `at`, after it arrived, with the answer it gives (unless that got lost). */
  ghost predicate Took(s: State, o: int, resp: Response, at: nat)
    requires o in s.ops
  {
    && s.ops[o].since <= at < |s.log|
    && s.log[at].op == o && s.log[at].call == s.ops[o].call
    && (resp == s.log[at].resp || (resp == Err(Internal) && s.log[at].resp.Ok?))
  }

  // ---------- the rest of the invariant ----------

  function PendingTask(pc: Pc): Option<int> {
    match pc case CreateInserted(id, _) => Some(id) case CreateLogged(id, _, _) => Some(id) case _ => None
  }

  function PendingTeam(pc: Pc): Option<int> {
    match pc case TeamInserted(id) => Some(id) case _ => None
  }

  function TookAt(pc: Pc): Option<nat> {
    match pc case Finishing(_, at) => Some(at) case Returned(_, at) => at case _ => None
  }

  ghost predicate Distinct(s: State) {
    forall a, b | a in s.ops && b in s.ops && a != b ::
      && (PendingTask(s.ops[a].pc).Some? ==> PendingTask(s.ops[a].pc) != PendingTask(s.ops[b].pc))
      && (PendingTeam(s.ops[a].pc).Some? ==> PendingTeam(s.ops[a].pc) != PendingTeam(s.ops[b].pc))
  }

  /** Every entry of the log belongs to one request, which remembers it. */
  ghost predicate Owned(s: State) {
    forall n | 0 <= n < |s.log| :: s.log[n].op in s.ops && TookAt(s.ops[s.log[n].op].pc) == Some(n)
  }

  ghost predicate LocksHeld(s: State) {
    forall t | t in s.locks ::
      && s.locks[t] in s.ops
      && var op := s.ops[s.locks[t]];
         op.call.UpdateTask? && op.call.taskId == t && (op.pc.UpdateLocked? || op.pc.UpdateWriting?)
  }

  /** The ids of a task's audit rows increase in commit order, so ORDER BY id is the order of the changes. */
  ghost predicate RowIdsOk(s: State) {
    && (forall i | i in s.rowIds :: i in s.db.tasks)
    && (forall i | i in s.db.tasks ::
          && i in s.rowIds
          && |s.rowIds[i]| == |HistoryOf(s.db, i)|
          && Increasing(s.rowIds[i]) && Below(s.rowIds[i], s.nextRow))
  }

  ghost predicate TimesOk(task: Task, clock: int) {
    && task.createdAt <= task.updatedAt <= clock
    && (task.completedAt.Some? ==> task.createdAt <= task.completedAt.value <= task.updatedAt)
  }

  ghost predicate CountersOk(s: State) {
    && s.nextTask > 0 && s.nextTeam > 0
    && (forall i | i in s.db.tasks :: 0 < i < s.nextTask && TimesOk(s.db.tasks[i], s.clock))
    && (forall t | t in s.db.teams :: 0 < t < s.nextTeam)
  }

  ghost predicate OpsOk(s: State) {
    forall o | o in s.ops :: OpOk(s, o)
  }

  ghost predicate Inv(s: State) {
    && Keyed(s.db)
    && OpsOk(s) && Distinct(s) && Owned(s) && LocksHeld(s) && RowIdsOk(s) && CountersOk(s)
  }

  /** A step leaves tables and log alone, or executes one request on the tables and logs it with its answer. */
  ghost predicate Moves(s: State, s2: State) {
    || (s2.db == s.db && s2.log == s.log)
    || (exists e: Entry :: s2.log == s.log + [e] && Executes(s, e, s2))
  }

  ghost predicate Executes(s: State, e: Entry, s2: State) {
    FreshId(s.db, e.call, e.id) && Apply(s.db, e) == (s2.db, e.resp)
  }

  // ---------- steps of one request keep what the others rely on ----------

  /** What a step of request o guarantees to everybody else. */
  ghost predicate Considerate(s: State, s2: State, o: int) {
    && o in s.ops && s2.ops.Keys == s.ops.Keys
    && (forall k | k in s.ops && k != o :: s2.ops[k] == s.ops[k])
    && Extends(s.db, s2.db) && s.log <= s2.log
    && s.nextTeam <= s2.nextTeam && s.nextTask <= s2.nextTask && s.nextRow <= s2.nextRow && s.clock <= s2.clock
    && (forall t | t in s.locks && s.locks[t] != o ::
          && t in s2.locks && s2.locks[t] == s.locks[t]
          && (t in s.db.tasks ==> s2.db.tasks[t] == s.db.tasks[t])
          && RowIds(s2, t) == RowIds(s, t))
    && (forall t | t in s2.locks && t !in s.locks :: s2.locks[t] == o)
    && (forall i | i in s2.db.tasks && i !in s.db.tasks :: PendingTask(s.ops[o].pc) == Some(i))
    && (forall t | t in s2.db.teams && t !in s.db.teams :: PendingTeam(s.ops[o].pc) == Some(t))
  }

  ghost predicate Apart(a: Pc, b: Pc) {
    && (PendingTask(a).Some? ==> PendingTask(a) != PendingTask(b))
    && (PendingTeam(a).Some? ==> PendingTeam(a) != PendingTeam(b))
  }

  predicate Locking(pc: Pc) {
    pc.UpdateLocked? || pc.UpdateWriting?
  }

  lemma OthersKept(s: State, s2: State, o: int, k: int)
    requires Considerate(s, s2, o) && k in s.ops && k != o && OpOk(s, k)
    requires Apart(s.ops[o].pc, s.ops[k].pc)
    ensures OpOk(s2, k)
  {
    if Locking(s.ops[k].pc) {
      LockedKept(s, s2, o, k);
    } else {
      UnlockedKept(s, s2, o, k);
    }
  }

  lemma LockedKept(s: State, s2: State, o: int, k: int)
    requires Considerate(s, s2, o) && k in s.ops && k != o && OpOk(s, k) && Locking(s.ops[k].pc)
    ensures OpOk(s2, k)
  {
  }

  lemma UnlockedKept(s: State, s2: State, o: int, k: int)
    requires Considerate(s, s2, o) && k in s.ops && k != o && OpOk(s, k) && !Locking(s.ops[k].pc)
    requires Apart(s.ops[o].pc, s.ops[k].pc)
    ensures OpOk(s2, k)
  {
  }

  /** A step that touches neither tables nor log: the request moves on, takes or gives up its lock, or draws an id. */
  ghost predicate Silently(s: State, s2: State, o: int, pc: Pc)
    requires o in s.ops
  {
    && s2 == Put(s, o, pc).(locks := s2.locks, nextTeam := s2.nextTeam, nextTask := s2.nextTask, nextRow := s2.nextRow)
    && s.nextTeam <= s2.nextTeam && s.nextTask <= s2.nextTask && s.nextRow <= s2.nextRow
    && (forall t | t in s.locks && s.locks[t] != o :: t in s2.locks && s2.locks[t] == s.locks[t])
    && (forall t | t in s2.locks && t !in s.locks :: s2.locks[t] == o)
  }

  lemma SilentFrame(s: State, s2: State, o: int, pc: Pc)
    requires o in s.ops && Silently(s, s2, o, pc)
    ensures Considerate(s, s2, o)
    ensures RowIdsOk(s) ==> RowIdsOk(s2)
    ensures CountersOk(s) ==> CountersOk(s2)
  {
  }

  lemma SilentStep(s: State, s2: State, o: int, pc: Pc)
    requires Inv(s) && o in s.ops && TookAt(pc) == TookAt(s.ops[o].pc)
    requires Silently(s, s2, o, pc) && OpOk(s2, o) && Distinct(s2) && LocksHeld(s2)
    ensures Inv(s2)
  {
    SilentFrame(s, s2, o, pc);
    forall k | k in s2.ops ensures OpOk(s2, k) {
      if k != o {
        OthersKept(s, s2, o, k);
      }
    }
  }

  /** The step in which a request takes effect, possibly by failing: it appends its entry to the log. */
  lemma EffectStep(s: State, s2: State, o: int, pc: Pc, e: Entry)
    requires Inv(s) && o in s.ops && TookAt(s.ops[o].pc) == None && TookAt(pc) == Some(|s.log|)
    requires s2.ops == s.ops[o := s.ops[o].(pc := pc)] && s2.log == s.log + [e]
    requires e.op == o && e.call == s.ops[o].call && Keyed(s2.db)
    requires Considerate(s, s2, o) && OpOk(s2, o) && Distinct(s2) && LocksHeld(s2) && RowIdsOk(s2) && CountersOk(s2)
    ensures Inv(s2)
  {
    forall k | k in s2.ops ensures OpOk(s2, k) {
      if k != o {
        OthersKept(s, s2, o, k);
      }
    }
  }

  /** The request whose entry has just been logged remembers it. */
  lemma EntryTaken(s: State, s2: State, o: int, pc: Pc, e: Entry)
    requires o in s.ops && OpOk(s, o) && s2.ops == s.ops[o := s.ops[o].(pc := pc)] && s2.log == s.log + [e]
    requires e.op == o && e.call == s.ops[o].call
    requires (pc == Finishing(e.resp, |s.log|) && e.resp.Ok?) || pc == Returned(e.resp, Some(|s.log|))
    ensures OpOk(s2, o)
  {
  }

  lemma NoPending(s: State, s2: State, o: int, pc: Pc)
    requires Distinct(s) && o in s.ops && s2.ops == s.ops[o := s.ops[o].(pc := pc)]
    requires PendingTask(pc).None? || PendingTask(pc) == PendingTask(s.ops[o].pc)
    requires PendingTeam(pc).None? || PendingTeam(pc) == PendingTeam(s.ops[o].pc)
    ensures Distinct(s2)
  {
  }

  /** The common silent step: a request without a lock has read something. */
  lemma ReadStep(s: State, o: int, pc: Pc)
    requires Inv(s) && o in s.ops && OpOk(Put(s, o, pc), o)
    requires !Locking(s.ops[o].pc) && TookAt(pc) == TookAt(s.ops[o].pc) && PendingTask(pc).None? &&
             PendingTeam(pc).None?
    ensures Inv(Put(s, o, pc))
  {
    var s2 := Put(s, o, pc);
    NoPending(s, s2, o, pc);
    SilentStep(s, s2, o, pc);
  }

  /** An error answer is the one the sequential service gives at this point, and changes nothing. */
  lemma FailStep(s: State, o: int, error: Error)
    requires Inv(s) && o in s.ops && TookAt(s.ops[o].pc) == None && !Locking(s.ops[o].pc)
    requires Exec(s.db, s.ops[o].call, 0, s.clock) == (s.db, Err(error))
    ensures Inv(Fail(s, o, error)) && Moves(s, Fail(s, o, error))
  {
    var pc, s2 := Returned(Err(error), Some(|s.log|)), Fail(s, o, error);
    var e := Entry(o, s.ops[o].call, 0, s.clock, Err(error));
    assert OpOk(s, o);
    PeopleCommit(s, s2, o, pc, e);
    assert s2.log == s.log + [e] && Executes(s, e, s2);
  }

  /** A step that only reads: it goes on with what it has read, or fails as the sequential service would. */
  ghost predicate ReadsOrFails(s: State, s2: State, o: int)
    requires o in s.ops
  {
    && o in s2.ops
    && var pc := s2.ops[o].pc;
       if pc.Returned? then
         pc.resp.Err? && s2 == Fail(s, o, pc.resp.error) && Exec(s.db, s.ops[o].call, 0, s.clock) == (s.db, pc.resp)
       else
         s2 == Put(s, o, pc) && OpOk(s2, o) && TookAt(pc).None? && PendingTask(pc).None? && PendingTeam(pc).None?
  }

  lemma ReadOrFail(s: State, s2: State, o: int)
    requires Inv(s) && o in s.ops && TookAt(s.ops[o].pc) == None && !Locking(s.ops[o].pc) && ReadsOrFails(s, s2, o)
    ensures Inv(s2) && Moves(s, s2)
  {
    if s2.ops[o].pc.Returned? {
      FailStep(s, o, s2.ops[o].pc.resp.error);
    } else {
      ReadStep(s, o, s2.ops[o].pc);
    }
  }

  lemma Release(s: State, o: int, pc: Pc)
    requires LocksHeld(s) && o in s.ops && s.ops[o].call.UpdateTask?
    requires s.ops[o].call.taskId in s.locks && s.locks[s.ops[o].call.taskId] == o
    ensures var s2 := Unlocked(Put(s, o, pc), s.ops[o].call.taskId);
            LocksHeld(s2) && (forall t | t in s.locks && s.locks[t] != o :: t in s2.locks)
  {
  }

  /** An answer given while holding the lock, before anything is written. */
  function LetGo(s: State, o: int, pc: Pc, resp: Response): State
    requires o in s.ops && s.ops[o].call.UpdateTask?
  {
    Unlocked(Put(Logged(s, o, 0, s.clock, resp), o, pc), s.ops[o].call.taskId)
  }

  lemma AnswerFrame(s: State, o: int, pc: Pc, resp: Response)
    requires o in s.ops && s.ops[o].call.UpdateTask? && s.ops[o].pc.UpdateLocked? && OpOk(s, o)
    requires RowIdsOk(s) && CountersOk(s)
    requires pc == Returned(resp, Some(|s.log|)) || (pc == Finishing(resp, |s.log|) && resp.Ok?)
    ensures var s2 := LetGo(s, o, pc, resp);
            Considerate(s, s2, o) && OpOk(s2, o) && RowIdsOk(s2) && CountersOk(s2)
  {
  }

  lemma AnswerLocked(s: State, o: int, pc: Pc, resp: Response)
    requires Inv(s) && o in s.ops && s.ops[o].call.UpdateTask? && s.ops[o].pc.UpdateLocked?
    requires pc == Returned(resp, Some(|s.log|)) || (pc == Finishing(resp, |s.log|) && resp.Ok?)
    requires Exec(s.db, s.ops[o].call, 0, s.clock) == (s.db, resp)
    ensures Inv(LetGo(s, o, pc, resp)) && Moves(s, LetGo(s, o, pc, resp))
  {
    var s2 := LetGo(s, o, pc, resp);
    assert OpOk(s, o);
    Release(s, o, pc);
    AnswerFrame(s, o, pc, resp);
    NoPending(s, s2, o, pc);
    var e := Entry(o, s.ops[o].call, 0, s.clock, resp);
    EffectStep(s, s2, o, pc, e);
    assert s2.log == s.log + [e] && Executes(s, e, s2);
  }

  // ---------- Update ----------

  lemma UpdateReadsShape(s: State, o: int)
    requires o in s.ops && s.ops[o].call.UpdateTask? && ValidatePatch(s.ops[o].call.patch).Ok? && OpOk(s, o)
    requires s.ops[o].pc.Begun? || s.ops[o].pc.UpdateGot? || s.ops[o].pc.UpdateRoled?
    ensures ReadsOrFails(s, StepUpdate(s, o), o)
  {
  }

  lemma UpdateReads(s: State, o: int)
    requires Inv(s) && o in s.ops && s.ops[o].call.UpdateTask? && ValidatePatch(s.ops[o].call.patch).Ok?
    requires s.ops[o].pc.Begun? || s.ops[o].pc.UpdateGot? || s.ops[o].pc.UpdateRoled?
    ensures Inv(StepUpdate(s, o)) && Moves(s, StepUpdate(s, o))
  {
    assert OpOk(s, o);
    UpdateReadsShape(s, o);
    ReadOrFail(s, StepUpdate(s, o), o);
  }

  lemma UpdateLocksShape(s: State, o: int)
    requires o in s.ops && s.ops[o].call.UpdateTask? && s.ops[o].pc.UpdateReady? && Enabled(s, Step(o)) && OpOk(s, o)
    ensures var s2, task := StepUpdate(s, o), s.ops[o].call.taskId;
            && o in s2.ops && s2.ops[o].pc.UpdateLocked? && s2.locks == s.locks[task := o]
            && Silently(s, s2, o, s2.ops[o].pc) && OpOk(s2, o)
  {
  }

  lemma UpdateLocks(s: State, o: int)
    requires Inv(s) && o in s.ops && s.ops[o].call.UpdateTask? && s.ops[o].pc.UpdateReady? && Enabled(s, Step(o))
    ensures Inv(StepUpdate(s, o)) && Moves(s, StepUpdate(s, o))
  {
    var s2 := StepUpdate(s, o);
    assert OpOk(s, o);
    UpdateLocksShape(s, o);
    NoPending(s, s2, o, s2.ops[o].pc);
    SilentStep(s, s2, o, s2.ops[o].pc);
  }

  /** The update is authorized and changes something: it is going to be written. */
  ghost predicate Approved(s: State, o: int)
    requires o in s.ops
  {
    && s.ops[o].call.UpdateTask? && s.ops[o].pc.UpdateLocked? && ValidatePatch(s.ops[o].call.patch).Ok?
    && var role, row, patch, actor := s.ops[o].pc.role, s.ops[o].pc.row, PatchOf(s.ops[o].call), s.ops[o].call.actor;
       && CanUpdateTask(patch, AccessOf(role, row, actor)).Ok?
       && Diff(row, Patched(row, patch, s.clock), actor, s.clock) != []
  }

  lemma UpdateStartsShape(s: State, o: int)
    requires o in s.ops && Approved(s, o) && OpOk(s, o) && RowIdsOk(s) && CountersOk(s)
    ensures var s2 := StepUpdate(s, o);
            && o in s2.ops && s2.ops[o].pc.UpdateWriting? && s2.locks == s.locks
            && Silently(s, s2, o, s2.ops[o].pc) && OpOk(s2, o)
  {
    var task := s.ops[o].call.taskId;
    assert RowIds(s, task) + [] == RowIds(s, task);
    assert task in s.rowIds && TimesOk(s.db.tasks[task], s.clock);
  }

  lemma UpdateStarts(s: State, o: int)
    requires Inv(s) && o in s.ops && Approved(s, o)
    ensures Inv(StepUpdate(s, o)) && Moves(s, StepUpdate(s, o))
  {
    var s2 := StepUpdate(s, o);
    assert OpOk(s, o);
    UpdateStartsShape(s, o);
    NoPending(s, s2, o, s2.ops[o].pc);
    SilentStep(s, s2, o, s2.ops[o].pc);
  }

  lemma UpdateAuthorizes(s: State, o: int)
    requires Inv(s) && o in s.ops && s.ops[o].call.UpdateTask? && s.ops[o].pc.UpdateLocked?
    ensures Inv(StepUpdate(s, o)) && Moves(s, StepUpdate(s, o))
  {
    var op := s.ops[o];
    assert OpOk(s, o);
    var role, row, patch, actor := op.pc.role, op.pc.row, PatchOf(op.call), op.call.actor;
    if CanUpdateTask(patch, AccessOf(role, row, actor)).Err? {
      AnswerLocked(s, o, Returned(Err(Forbidden), Some(|s.log|)), Err(Forbidden));
    } else if Diff(row, Patched(row, patch, s.clock), actor, s.clock) == [] {
      AnswerLocked(s, o, Finishing(Ok(TaskReply(row)), |s.log|), Ok(TaskReply(row)));
    } else {
      UpdateStarts(s, o);
    }
  }

  /** The next audit row of an update in progress. */
  ghost predicate RowsMissing(s: State, o: int)
    requires o in s.ops
  {
    var op := s.ops[o];
    && op.call.UpdateTask? && op.pc.UpdateWriting? && ValidatePatch(op.call.patch).Ok?
    && |op.pc.ids| < |Diff(op.pc.row, Patched(op.pc.row, PatchOf(op.call), op.pc.now), op.call.actor, op.pc.now)|
  }

  lemma UpdateInsertsShape(s: State, o: int)
    requires o in s.ops && RowsMissing(s, o) && OpOk(s, o) && RowIdsOk(s)
    ensures var s2 := StepUpdate(s, o);
            && o in s2.ops && s2.ops[o].pc.UpdateWriting? && s2.locks == s.locks
            && Silently(s, s2, o, s2.ops[o].pc) && OpOk(s2, o)
  {
    var op, s2 := s.ops[o], StepUpdate(s, o);
    var before := RowIds(s, op.call.taskId) + op.pc.ids;
    assert RowIds(s, op.call.taskId) + s2.ops[o].pc.ids == before + [s.nextRow];
    assert Below(before, s.nextRow) by { assert op.call.taskId in s.rowIds; }
  }

  lemma UpdateInsertsRow(s: State, o: int)
    requires Inv(s) && o in s.ops && RowsMissing(s, o)
    ensures Inv(StepUpdate(s, o)) && Moves(s, StepUpdate(s, o))
  {
    var s2 := StepUpdate(s, o);
    assert OpOk(s, o);
    UpdateInsertsShape(s, o);
    NoPending(s, s2, o, s2.ops[o].pc);
    SilentStep(s, s2, o, s2.ops[o].pc);
  }

  /** No lost update: the row written over is the committed one, so committing equals executing the request here. */
  lemma CommitExecutes(s: State, o: int, now: int)
    requires o in s.ops && s.ops[o].pc.UpdateWriting? && OpOk(s, o)
    requires now == s.ops[o].pc.now
    ensures var op := s.ops[o];
            Exec(s.db, op.call, 0, now) == WriteUpdate(s.db, op.pc.row, PatchOf(op.call), op.call.actor, now)
  {
  }

  lemma CommitFrame(s: State, o: int)
    requires Inv(s) && o in s.ops && s.ops[o].pc.UpdateWriting? && OpOk(s, o)
    ensures var op := s.ops[o];
            var db := WriteUpdate(s.db, op.pc.row, PatchOf(op.call), op.call.actor, op.pc.now).0;
            && Extends(s.db, db) && db.tasks.Keys == s.db.tasks.Keys && db.teams == s.db.teams &&
               db.members == s.db.members
            && (forall i | i in s.db.tasks && i != op.call.taskId ::
                  db.tasks[i] == s.db.tasks[i] && HistoryOf(db, i) == HistoryOf(s.db, i))
            && TimesOk(db.tasks[op.call.taskId], s.clock)
            && |HistoryOf(db, op.call.taskId)| == |HistoryOf(s.db, op.call.taskId)|
                 + |Diff(op.pc.row, Patched(op.pc.row, PatchOf(op.call), op.pc.now), op.call.actor, op.pc.now)|
  {
    var op := s.ops[o];
    assert TimesOk(op.pc.row, s.clock);
  }

  lemma UpdateCommits(s: State, o: int)
    requires Inv(s) && o in s.ops && s.ops[o].call.UpdateTask? && s.ops[o].pc.UpdateWriting?
    requires var op := s.ops[o];
             ValidatePatch(op.call.patch).Ok? &&
             |op.pc.ids| >= |Diff(op.pc.row, Patched(op.pc.row, PatchOf(op.call), op.pc.now), op.call.actor, op.pc.now)|
    ensures Inv(StepUpdate(s, o)) && Moves(s, StepUpdate(s, o))
  {
    var op, s2 := s.ops[o], StepUpdate(s, o);
    assert OpOk(s, o);
    var pc, task := s2.ops[o].pc, op.call.taskId;
    CommitExecutes(s, o, op.pc.now);
    CommitFrame(s, o);
    var e := Entry(o, op.call, 0, op.pc.now, pc.resp);
    assert s2.log == s.log + [e] && Executes(s, e, s2);
    ExecExtends(s.db, e);
    UpdateCommitEffect(s, s2, o, pc, e);
  }

  /** The commit of an update, as far as tables, locks and row ids go. */
  ghost predicate UpdateCommitted(s: State, s2: State, o: int, pc: Pc, e: Entry)
    requires o in s.ops && s.ops[o].call.UpdateTask? && s.ops[o].pc.UpdateWriting?
  {
    var op, task := s.ops[o], s.ops[o].call.taskId;
    && s2 == Unlocked(Put(s, o, pc), task)
               .(log := s.log + [e], db := s2.db, rowIds := s.rowIds[task := RowIds(s, task) + op.pc.ids])
    && task in s.locks && s.locks[task] == o && task in s.db.tasks
    && Extends(s.db, s2.db) && s2.db.tasks.Keys == s.db.tasks.Keys && s2.db.teams == s.db.teams
    && (forall i | i in s.db.tasks && i != task ::
          s2.db.tasks[i] == s.db.tasks[i] && HistoryOf(s2.db, i) == HistoryOf(s.db, i))
    && TimesOk(s2.db.tasks[task], s.clock)
    && |HistoryOf(s2.db, task)| == |HistoryOf(s.db, task)| + |op.pc.ids|
  }

  lemma UpdateCommitConsiderate(s: State, s2: State, o: int, pc: Pc, e: Entry)
    requires o in s.ops && s.ops[o].call.UpdateTask? && s.ops[o].pc.UpdateWriting?
    requires UpdateCommitted(s, s2, o, pc, e)
    ensures Considerate(s, s2, o)
  {
  }

  lemma UpdateCommitBooks(s: State, s2: State, o: int, pc: Pc, e: Entry)
    requires o in s.ops && s.ops[o].call.UpdateTask? && s.ops[o].pc.UpdateWriting?
    requires UpdateCommitted(s, s2, o, pc, e) && RowIdsOk(s) && CountersOk(s)
    requires Increasing(RowIds(s, s.ops[o].call.taskId) + s.ops[o].pc.ids) && Below(s.ops[o].pc.ids, s.nextRow)
    ensures RowIdsOk(s2) && CountersOk(s2)
  {
  }

  lemma UpdateCommitEffect(s: State, s2: State, o: int, pc: Pc, e: Entry)
    requires Inv(s) && o in s.ops && s.ops[o].call.UpdateTask? && s.ops[o].pc.UpdateWriting? && OpOk(s, o)
    requires UpdateCommitted(s, s2, o, pc, e)
    requires e.op == o && e.call == s.ops[o].call && pc == Finishing(e.resp, |s.log|) && e.resp.Ok? && Keyed(s2.db)
    ensures Inv(s2)
  {
    Release(s, o, pc);
    NoPending(s, s2, o, pc);
    UpdateCommitConsiderate(s, s2, o, pc, e);
    UpdateCommitBooks(s, s2, o, pc, e);
    EntryTaken(s, s2, o, pc, e);
    EffectStep(s, s2, o, pc, e);
  }

  lemma UpdateKeeps(s: State, o: int)
    requires Inv(s) && o in s.ops && s.ops[o].call.UpdateTask? && Enabled(s, Step(o)) && !s.ops[o].pc.Finishing?
    ensures Inv(StepUpdate(s, o)) && Moves(s, StepUpdate(s, o))
  {
    var op := s.ops[o];
    assert OpOk(s, o);
    if ValidatePatch(op.call.patch).Err? {
      FailStep(s, o, Validation);
    } else {
      match op.pc
      case Begun => UpdateReads(s, o);
      case UpdateGot(_) => UpdateReads(s, o);
      case UpdateRoled(_, _) => UpdateReads(s, o);
      case UpdateReady(_, _) => UpdateLocks(s, o);
      case UpdateLocked(_, _) => UpdateAuthorizes(s, o);
      case UpdateWriting(_, row, now, ids) =>
        if |ids| < |Diff(row, Patched(row, PatchOf(op.call), now), op.call.actor, now)| {
          UpdateInsertsRow(s, o);
        } else {
          UpdateCommits(s, o);
        }
      case _ =>
    }
  }

  // ---------- Create ----------

  lemma CreateReadsShape(s: State, o: int)
    requires o in s.ops && s.ops[o].call.CreateTask? && ValidateCreate(s.ops[o].call.create).Ok? && OpOk(s, o)
    requires s.ops[o].pc.Begun? || s.ops[o].pc.CreateRoled?
    ensures ReadsOrFails(s, StepCreateTask(s, o), o)
  {
  }

  lemma CreateReads(s: State, o: int)
    requires Inv(s) && o in s.ops && s.ops[o].call.CreateTask? && ValidateCreate(s.ops[o].call.create).Ok?
    requires s.ops[o].pc.Begun? || s.ops[o].pc.CreateRoled?
    ensures Inv(StepCreateTask(s, o)) && Moves(s, StepCreateTask(s, o))
  {
    assert OpOk(s, o);
    CreateReadsShape(s, o);
    ReadOrFail(s, StepCreateTask(s, o), o);
  }

  /** Drawing the id of the task, and that of its first audit row. */
  lemma CreateDrawsShape(s: State, o: int)
    requires o in s.ops && s.ops[o].call.CreateTask? && ValidateCreate(s.ops[o].call.create).Ok? && OpOk(s, o)
    requires s.ops[o].pc.CreateReady? || s.ops[o].pc.CreateInserted?
    requires CountersOk(s)
    ensures var s2 := StepCreateTask(s, o);
            && o in s2.ops && s2.locks == s.locks && TookAt(s2.ops[o].pc).None? && PendingTeam(s2.ops[o].pc).None?
            && PendingTask(s2.ops[o].pc) == Some(if s.ops[o].pc.CreateReady? then s.nextTask else s.ops[o].pc.id)
            && Silently(s, s2, o, s2.ops[o].pc) && OpOk(s2, o)
  {
  }

  lemma CreateInserts(s: State, o: int)
    requires Inv(s) && o in s.ops && s.ops[o].call.CreateTask? && ValidateCreate(s.ops[o].call.create).Ok?
    requires s.ops[o].pc.CreateReady?
    ensures Inv(StepCreateTask(s, o)) && Moves(s, StepCreateTask(s, o))
  {
    var s2 := StepCreateTask(s, o);
    assert OpOk(s, o);
    CreateDrawsShape(s, o);
    FreshPending(s, o, s2.ops[o].pc);
    SilentStep(s, s2, o, s2.ops[o].pc);
  }

  /** An id just drawn from a counter differs from all ids drawn before. */
  lemma FreshPending(s: State, o: int, pc: Pc)
    requires Inv(s) && o in s.ops
    requires PendingTask(pc).Some? ==> PendingTask(pc).value >= s.nextTask
    requires PendingTeam(pc).Some? ==> PendingTeam(pc).value >= s.nextTeam
    ensures Distinct(Put(s, o, pc))
  {
    forall k | k in s.ops && k != o ensures Apart(pc, s.ops[k].pc) && Apart(s.ops[k].pc, pc) {
      assert OpOk(s, k);
    }
  }

  lemma CreateLogs(s: State, o: int)
    requires Inv(s) && o in s.ops && s.ops[o].call.CreateTask? && ValidateCreate(s.ops[o].call.create).Ok?
    requires s.ops[o].pc.CreateInserted?
    ensures Inv(StepCreateTask(s, o)) && Moves(s, StepCreateTask(s, o))
  {
    var s2 := StepCreateTask(s, o);
    assert OpOk(s, o);
    CreateDrawsShape(s, o);
    NoPending(s, s2, o, s2.ops[o].pc);
    SilentStep(s, s2, o, s2.ops[o].pc);
  }

  ghost predicate CreateCommitted(s: State, s2: State, o: int, pc: Pc, e: Entry)
    requires o in s.ops && s.ops[o].pc.CreateLogged?
  {
    var id := s.ops[o].pc.id;
    && s2 == Put(s, o, pc).(log := s.log + [e], db := s2.db, rowIds := s.rowIds[id := [s.ops[o].pc.rowId]])
    && Extends(s.db, s2.db) && s2.db.teams == s.db.teams && s2.db.tasks.Keys == s.db.tasks.Keys + {id}
    && |HistoryOf(s2.db, id)| == 1 && TimesOk(s2.db.tasks[id], s.clock) && id !in s.db.tasks && 0 < id < s.nextTask
    && (forall i | i in s.db.tasks :: s2.db.tasks[i] == s.db.tasks[i] && HistoryOf(s2.db, i) == HistoryOf(s.db, i))
  }

  lemma CreateCommitShape(s: State, o: int)
    requires o in s.ops && s.ops[o].call.CreateTask? && ValidateCreate(s.ops[o].call.create).Ok?
    requires s.ops[o].pc.CreateLogged? && OpOk(s, o) && Keyed(s.db)
    ensures var s2 := StepCreateTask(s, o);
            && o in s2.ops && s2.ops[o].pc.Finishing? && s2.ops[o].pc.at == |s.log|
            && var e := Entry(o, s.ops[o].call, s.ops[o].pc.id, s.ops[o].pc.now, s2.ops[o].pc.resp);
               Executes(s, e, s2) && CreateCommitted(s, s2, o, s2.ops[o].pc, e) && Keyed(s2.db)
  {
    var s2 := StepCreateTask(s, o);
    var e := Entry(o, s.ops[o].call, s.ops[o].pc.id, s.ops[o].pc.now, s2.ops[o].pc.resp);
    assert Executes(s, e, s2);
    ExecExtends(s.db, e);
  }

  lemma LockedExist(s: State)
    requires OpsOk(s) && LocksHeld(s)
    ensures forall t | t in s.locks :: t in s.db.tasks
  {
    forall t | t in s.locks ensures t in s.db.tasks {
      assert OpOk(s, s.locks[t]);
    }
  }

  lemma CreateCommitConsiderate(s: State, s2: State, o: int, pc: Pc, e: Entry)
    requires o in s.ops && s.ops[o].pc.CreateLogged? && CreateCommitted(s, s2, o, pc, e)
    requires forall t | t in s.locks :: t in s.db.tasks
    ensures Considerate(s, s2, o)
  {
  }

  lemma CreateCommitBooks(s: State, s2: State, o: int, pc: Pc, e: Entry)
    requires o in s.ops && s.ops[o].pc.CreateLogged? && CreateCommitted(s, s2, o, pc, e)
    requires RowIdsOk(s) && CountersOk(s) && s.ops[o].pc.rowId < s.nextRow
    ensures RowIdsOk(s2) && CountersOk(s2)
  {
  }

  lemma CreateCommitEffect(s: State, s2: State, o: int, pc: Pc, e: Entry)
    requires Inv(s) && o in s.ops && s.ops[o].pc.CreateLogged? && OpOk(s, o) && CreateCommitted(s, s2, o, pc, e)
    requires e.op == o && e.call == s.ops[o].call && pc == Finishing(e.resp, |s.log|) && e.resp.Ok? && Keyed(s2.db)
    ensures Inv(s2)
  {
    NoPending(s, s2, o, pc);
    LockedExist(s);
    CreateCommitConsiderate(s, s2, o, pc, e);
    CreateCommitBooks(s, s2, o, pc, e);
    EntryTaken(s, s2, o, pc, e);
    EffectStep(s, s2, o, pc, e);
  }

  lemma CreateCommits(s: State, o: int)
    requires Inv(s) && o in s.ops && s.ops[o].call.CreateTask? && ValidateCreate(s.ops[o].call.create).Ok?
    requires s.ops[o].pc.CreateLogged?
    ensures Inv(StepCreateTask(s, o)) && Moves(s, StepCreateTask(s, o))
  {
    var s2 := StepCreateTask(s, o);
    assert OpOk(s, o);
    CreateCommitShape(s, o);
    var e := Entry(o, s.ops[o].call, s.ops[o].pc.id, s.ops[o].pc.now, s2.ops[o].pc.resp);
    CreateCommitEffect(s, s2, o, s2.ops[o].pc, e);
    assert s2.log == s.log + [e] && Executes(s, e, s2);
  }

  lemma CreateKeeps(s: State, o: int)
    requires Inv(s) && o in s.ops && s.ops[o].call.CreateTask? && Enabled(s, Step(o)) && !s.ops[o].pc.Finishing?
    ensures Inv(StepCreateTask(s, o)) && Moves(s, StepCreateTask(s, o))
  {
    assert OpOk(s, o);
    if ValidateCreate(s.ops[o].call.create).Err? {
      FailStep(s, o, Validation);
    } else {
      match s.ops[o].pc
      case Begun => CreateReads(s, o);
      case CreateRoled => CreateReads(s, o);
      case CreateReady => CreateInserts(s, o);
      case CreateInserted(_, _) => CreateLogs(s, o);
      case CreateLogged(_, _, _) => CreateCommits(s, o);
      case _ =>
    }
  }

  // ---------- Invite and CreateTeam ----------

  /** A commit that touches at most teams and memberships. */
  ghost predicate PeopleOnly(s: State, s2: State, o: int, pc: Pc, e: Entry)
    requires o in s.ops
  {
    && s2 == s.(ops := s.ops[o := s.ops[o].(pc := pc)], log := s.log + [e], db := s2.db)
    && Extends(s.db, s2.db) && s2.db.tasks == s.db.tasks && s2.db.history == s.db.history
    && (forall t | t in s2.db.teams && t !in s.db.teams :: PendingTeam(s.ops[o].pc) == Some(t))
  }

  lemma PeopleFrame(s: State, s2: State, o: int, pc: Pc, e: Entry)
    requires o in s.ops && PeopleOnly(s, s2, o, pc, e) && !Locking(s.ops[o].pc)
    requires LocksHeld(s) && RowIdsOk(s) && CountersOk(s) && OpOk(s, o)
    ensures Considerate(s, s2, o) && LocksHeld(s2) && RowIdsOk(s2) && CountersOk(s2)
  {
  }

  lemma PeopleCommit(s: State, s2: State, o: int, pc: Pc, e: Entry)
    requires Inv(s) && o in s.ops && OpOk(s, o) && TookAt(s.ops[o].pc) == None && !Locking(s.ops[o].pc)
    requires PeopleOnly(s, s2, o, pc, e)
    requires e.op == o && e.call == s.ops[o].call && Keyed(s2.db)
    requires (pc == Finishing(e.resp, |s.log|) && e.resp.Ok?) || pc == Returned(e.resp, Some(|s.log|))
    ensures Inv(s2)
  {
    PeopleFrame(s, s2, o, pc, e);
    NoPending(s, s2, o, pc);
    EntryTaken(s, s2, o, pc, e);
    EffectStep(s, s2, o, pc, e);
  }

  lemma InviteCommits(s: State, o: int)
    requires Inv(s) && o in s.ops && s.ops[o].call.Invite? && s.ops[o].pc.InviteReady?
    requires !IsMember(s.db, s.ops[o].call.team, s.ops[o].pc.user)
    ensures Inv(StepInvite(s, o)) && Moves(s, StepInvite(s, o))
  {
    var op, s2 := s.ops[o], StepInvite(s, o);
    assert OpOk(s, o);
    var pc := s2.ops[o].pc;
    var e := Entry(o, op.call, 0, s.clock, pc.resp);
    assert s2.log == s.log + [e] && Executes(s, e, s2);
    ExecExtends(s.db, e);
    PeopleCommit(s, s2, o, pc, e);
  }

  lemma InviteReadsShape(s: State, o: int)
    requires o in s.ops && s.ops[o].call.Invite? && OpOk(s, o)
    requires s.ops[o].pc.Begun? || s.ops[o].pc.InviteRoled?
    ensures ReadsOrFails(s, StepInvite(s, o), o)
  {
  }

  lemma InviteReads(s: State, o: int)
    requires Inv(s) && o in s.ops && s.ops[o].call.Invite?
    requires s.ops[o].pc.Begun? || s.ops[o].pc.InviteRoled?
    ensures Inv(StepInvite(s, o)) && Moves(s, StepInvite(s, o))
  {
    assert OpOk(s, o);
    InviteReadsShape(s, o);
    ReadOrFail(s, StepInvite(s, o), o);
  }

  lemma InviteKeeps(s: State, o: int)
    requires Inv(s) && o in s.ops && s.ops[o].call.Invite? && Enabled(s, Step(o)) && !s.ops[o].pc.Finishing?
    ensures Inv(StepInvite(s, o)) && Moves(s, StepInvite(s, o))
  {
    assert OpOk(s, o);
    if !s.ops[o].pc.InviteReady? {
      InviteReads(s, o);
    } else if IsMember(s.db, s.ops[o].call.team, s.ops[o].pc.user) {
      FailStep(s, o, Conflict);
    } else {
      InviteCommits(s, o);
    }
  }

  lemma TeamInserts(s: State, o: int)
    requires Inv(s) && o in s.ops && s.ops[o].call.CreateTeam? && s.ops[o].pc.Begun?
    requires ValidateTeamName(s.ops[o].call.name).Ok?
    ensures Inv(StepCreateTeam(s, o)) && Moves(s, StepCreateTeam(s, o))
  {
    var s2 := StepCreateTeam(s, o);
    assert OpOk(s, o);
    FreshPending(s, o, s2.ops[o].pc);
    SilentStep(s, s2, o, s2.ops[o].pc);
  }

  lemma TeamCommits(s: State, o: int)
    requires Inv(s) && o in s.ops && s.ops[o].call.CreateTeam? && s.ops[o].pc.TeamInserted?
    ensures Inv(StepCreateTeam(s, o)) && Moves(s, StepCreateTeam(s, o))
  {
    var op, s2 := s.ops[o], StepCreateTeam(s, o);
    assert OpOk(s, o);
    var pc := s2.ops[o].pc;
    var e := Entry(o, op.call, op.pc.id, s.clock, pc.resp);
    assert s2.log == s.log + [e] && Executes(s, e, s2);
    ExecExtends(s.db, e);
    PeopleCommit(s, s2, o, pc, e);
  }

  lemma TeamKeeps(s: State, o: int)
    requires Inv(s) && o in s.ops && s.ops[o].call.CreateTeam? && Enabled(s, Step(o)) && !s.ops[o].pc.Finishing?
    ensures Inv(StepCreateTeam(s, o)) && Moves(s, StepCreateTeam(s, o))
  {
    assert OpOk(s, o);
    if ValidateTeamName(s.ops[o].call.name).Err? {
      FailStep(s, o, Validation);
    } else if s.ops[o].pc.Begun? {
      TeamInserts(s, o);
    } else {
      TeamCommits(s, o);
    }
  }

  // ---------- every event ----------

  lemma FinishKeeps(s: State, o: int)
    requires Inv(s) && o in s.ops && s.ops[o].pc.Finishing?
    ensures Inv(StepOp(s, o)) && Moves(s, StepOp(s, o))
  {
    assert OpOk(s, o);
    ReadStep(s, o, StepOp(s, o).ops[o].pc);
  }

  lemma AbortUnlocks(s: State, o: int)
    requires Inv(s) && o in s.ops && OpOk(s, o) && Locking(s.ops[o].pc)
    ensures Inv(AbortOp(s, o)) && Moves(s, AbortOp(s, o))
  {
    var s2 := AbortOp(s, o);
    Release(s, o, s2.ops[o].pc);
    NoPending(s, s2, o, s2.ops[o].pc);
    SilentStep(s, s2, o, s2.ops[o].pc);
  }

  lemma AbortKeeps(s: State, o: int)
    requires Inv(s) && Enabled(s, Abort(o))
    ensures Inv(AbortOp(s, o)) && Moves(s, AbortOp(s, o))
  {
    assert OpOk(s, o);
    if Locking(s.ops[o].pc) {
      AbortUnlocks(s, o);
    } else {
      ReadStep(s, o, AbortOp(s, o).ops[o].pc);
    }
  }

  lemma OthersKeptByInvoke(s: State, o: int, call: Call, k: int)
    requires o !in s.ops && k in s.ops && OpOk(s, k)
    ensures OpOk(Next(s, Invoke(o, call)), k)
  {
  }

  lemma InvokeKeeps(s: State, o: int, call: Call)
    requires Inv(s) && o !in s.ops
    ensures Inv(Next(s, Invoke(o, call))) && Moves(s, Next(s, Invoke(o, call)))
  {
    var s2 := Next(s, Invoke(o, call));
    forall k | k in s2.ops ensures OpOk(s2, k) {
      if k != o { OthersKeptByInvoke(s, o, call, k); }
    }
  }

  lemma TickKeeps(s: State, span: nat)
    requires Inv(s)
    ensures Inv(Next(s, Tick(span))) && Moves(s, Next(s, Tick(span)))
  {
    var s2 := Next(s, Tick(span));
    forall k | k in s2.ops ensures OpOk(s2, k) {
      assert OpOk(s, k);
    }
  }

  lemma StepKeeps(s: State, e: Event)
    requires Inv(s) && Enabled(s, e)
    ensures Inv(Next(s, e)) && Moves(s, Next(s, e))
  {
    match e
    case Invoke(o, call) => InvokeKeeps(s, o, call);
    case Abort(o) => AbortKeeps(s, o);
    case Tick(span) => TickKeeps(s, span);
    case Step(o) =>
      if s.ops[o].pc.Finishing? {
        FinishKeeps(s, o);
      } else {
        match s.ops[o].call
        case UpdateTask(_, _, _) => UpdateKeeps(s, o);
        case CreateTask(_, _) => CreateKeeps(s, o);
        case Invite(_, _, _, _) => InviteKeeps(s, o);
        case CreateTeam(_, _, _) => TeamKeeps(s, o);
      }
  }
}
