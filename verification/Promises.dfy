/** What the requests of the service promise, spelled out over their inputs and the columns of the tables. */
module Promises {
  import opened Wrappers
  import opened Domain
  import opened Store
  import Text

  // ---------- names ----------

  /** The names the columns hold. */
  lemma Names()
    ensures StatusText(Todo) == "todo" && StatusText(InProgress) == "in_progress" && StatusText(Done) == "done"
    ensures forall text: string :: StatusOf(text).Some? <==> text == "todo" || text == "in_progress" || text == "done"
    ensures forall text: string :: StatusOf(text).Some? ==> StatusText(StatusOf(text).value) == text
  {
  }

  // ---------- creating a team ----------

  /** A team needs a name of at most 120 characters besides white space; its creator becomes its owner, invited by
      nobody, and nothing else changes. */
  lemma CreateTeamPromise(db: Db, actor: int, name: string, description: string, id: int)
    ensures var (after, resp) := ExecCreateTeam(db, actor, name, description, id);
            var trimmed := Text.TrimSpace(name);
            if 0 < |trimmed| <= 120 then
              && resp == Ok(TeamReply(id))
              && after.teams == db.teams[id := Team(trimmed, description, actor)]
              && after.teams[id].name == trimmed && after.teams[id].description == description
              && after.teams[id].createdBy == actor
              && after.members == db.members[(id, actor) := Membership(Owner, None)]
              && after.tasks == db.tasks && after.history == db.history
            else resp == Err(Validation) && after == db
  {
  }

  // ---------- inviting ----------

  /** Exactly one way of naming the invitee, and a role there is; no role means member. */
  predicate GoodInvite(input: InviteInput) {
    && ((Text.TrimSpace(input.email) == "") != (input.userId == 0))
    && (input.role == "" || input.role == "member" || input.role == "admin" || input.role == "owner")
  }

  /** Every answer of Invite, in the order of its checks, and what it stores. */
  lemma InvitePromise(db: Db, actor: int, team: int, input: InviteInput, invitee: Option<int>)
    ensures var (after, resp) := ExecInvite(db, actor, team, input, invitee);
            && (resp.Err? ==> after == db)
            && if (team, actor) !in db.members then resp == Err(Forbidden)
               else
                 var role := db.members[(team, actor)].role;
                 if !GoodInvite(input) then resp == Err(Validation)
                 else if role == Member then resp == Err(Forbidden)
                 else if input.role == "owner" then resp == Err(Validation)
                 else if input.role == "admin" && role != Owner then resp == Err(Forbidden)
                 else if invitee == None then resp == Err(NotFound)
                 else if invitee == Some(actor) then resp == Err(Validation)
                 else if (team, invitee.value) in db.members then resp == Err(Conflict)
                 else
                   var added := Membership(if input.role == "admin" then Admin else Member, Some(actor));
                   && resp == Ok(MemberReply(team, invitee.value, added))
                   && after.members == db.members[(team, invitee.value) := added]
                   && after.teams == db.teams && after.tasks == db.tasks && after.history == db.history
  {
  }

  /** So an invitation succeeds exactly when all of this holds. */
  lemma InviteSucceeds(db: Db, actor: int, team: int, input: InviteInput, invitee: Option<int>)
    ensures ExecInvite(db, actor, team, input, invitee).1.Ok? <==>
      && (team, actor) in db.members
      && ((Text.TrimSpace(input.email) == "") != (input.userId == 0))
      && (|| input.role == "" || input.role == "member"
          || (input.role == "admin" && db.members[(team, actor)].role == Owner))
      && (db.members[(team, actor)].role == Owner || db.members[(team, actor)].role == Admin)
      && invitee.Some? && invitee.value != actor && (team, invitee.value) !in db.members
  {
    InvitePromise(db, actor, team, input, invitee);
  }

  // ---------- creating a task ----------

  /** A title of at most 200 characters besides white space, and a known status or none. */
  predicate GoodCreate(create: CreateInput) {
    && 0 < |Text.TrimSpace(create.title)| <= 200
    && (create.status == "" || create.status == "todo" || create.status == "in_progress" || create.status == "done")
  }

  /** Every answer of Create, in the order of its checks. */
  lemma CreateAnswers(db: Db, actor: int, create: CreateInput, id: int, now: int)
    ensures var (after, resp) := ExecCreateTask(db, actor, create, id, now);
            && (resp.Err? ==> after == db)
            && if !GoodCreate(create) then resp == Err(Validation)
               else if (create.teamId, actor) !in db.members then resp == Err(Forbidden)
               else if create.assigneeId.Some? && (create.teamId, create.assigneeId.value) !in db.members
               then resp == Err(Validation)
               else id in after.tasks && resp == Ok(TaskReply(after.tasks[id]))
  {
  }

  /** What a successful Create stores: the row as asked for, and one audit row. */
  lemma CreateStores(db: Db, actor: int, create: CreateInput, id: int, now: int)
    requires ExecCreateTask(db, actor, create, id, now).1.Ok?
    ensures var after := ExecCreateTask(db, actor, create, id, now).0;
            && id in after.tasks
            && var row := after.tasks[id];
               && row.id == id && row.teamId == create.teamId && row.createdBy == actor
               && row.title == Text.TrimSpace(create.title)
               && row.description == create.description && row.assigneeId == create.assigneeId
               && StatusText(row.status) == (if create.status == "" then "todo" else create.status)
               && row.createdAt == now && row.updatedAt == now
               && row.completedAt == (if create.status == "done" then Some(now) else None)
               && after.tasks == db.tasks[id := row]
               && after.teams == db.teams && after.members == db.members
    ensures var after := ExecCreateTask(db, actor, create, id, now).0;
            var before := if id in db.history then db.history[id] else [];
            after.history == db.history[id := before + [Change(actor, Created, None, None, None, now)]]
  {
  }

  // ---------- updating a task ----------

  /** At least one field, a title of at most 200 characters besides white space if any, a known status if any. */
  predicate GoodPatch(input: PatchInput) {
    && (input.title.Some? || input.description.Some? || input.status.Some? || input.assignee.Assign?)
    && (input.title.Some? ==> 0 < |Text.TrimSpace(input.title.value)| <= 200)
    && (input.status.Some? ==>
          input.status.value == "todo" || input.status.value == "in_progress" || input.status.value == "done")
  }

  /** Owners, admins and the creator may change everything; the assignee neither title nor assignee. */
  predicate Entitled(role: Role, task: Task, actor: int, input: PatchInput) {
    || role == Owner || role == Admin
    || task.createdBy == actor
    || (task.assigneeId == Some(actor) && input.title == None && input.assignee == Keep)
  }

  /** Every answer of Update, in the order of its checks. */
  lemma UpdateAnswers(db: Db, actor: int, taskId: int, input: PatchInput, now: int)
    requires taskId in db.tasks ==> db.tasks[taskId].id == taskId
    ensures var (after, resp) := ExecUpdateTask(db, actor, taskId, input, now);
            && (resp.Err? ==> after == db)
            && if !GoodPatch(input) then resp == Err(Validation)
               else if taskId !in db.tasks then resp == Err(NotFound)
               else
                 var task := db.tasks[taskId];
                 if (task.teamId, actor) !in db.members then resp == Err(Forbidden)
                 else if input.assignee.Assign? && input.assignee.value.Some?
                         && (task.teamId, input.assignee.value.value) !in db.members
                 then resp == Err(Validation)
                 else if !Entitled(db.members[(task.teamId, actor)].role, task, actor, input)
                 then resp == Err(Forbidden)
                 else taskId in after.tasks && resp == Ok(TaskReply(after.tasks[taskId]))
  {
  }

  /** So an update succeeds exactly when all of this holds. */
  lemma UpdateSucceeds(db: Db, actor: int, taskId: int, input: PatchInput, now: int)
    requires taskId in db.tasks ==> db.tasks[taskId].id == taskId
    ensures ExecUpdateTask(db, actor, taskId, input, now).1.Ok? <==>
      && GoodPatch(input) && taskId in db.tasks
      && var task := db.tasks[taskId];
         && (task.teamId, actor) in db.members
         && (input.assignee.Assign? && input.assignee.value.Some? ==>
               (task.teamId, input.assignee.value.value) in db.members)
         && (|| db.members[(task.teamId, actor)].role == Owner
             || db.members[(task.teamId, actor)].role == Admin
             || task.createdBy == actor
             || (task.assigneeId == Some(actor) && input.title == None && input.assignee == Keep))
  {
    UpdateAnswers(db, actor, taskId, input, now);
  }

  /** What a successful Update stores: the columns the patch names get their new values, the others stay. */
  lemma UpdateStores(db: Db, actor: int, taskId: int, input: PatchInput, now: int)
    requires taskId in db.tasks && db.tasks[taskId].id == taskId
    requires ExecUpdateTask(db, actor, taskId, input, now).1.Ok?
    ensures var after, was := ExecUpdateTask(db, actor, taskId, input, now).0, db.tasks[taskId];
            && taskId in after.tasks
            && var row := after.tasks[taskId];
               && row.title == (if input.title.Some? then Text.TrimSpace(input.title.value) else was.title)
               && row.description == (if input.description.Some? then input.description.value else was.description)
               && StatusText(row.status) == (if input.status.Some? then input.status.value else StatusText(was.status))
               && row.assigneeId == (if input.assignee.Assign? then input.assignee.value else was.assigneeId)
  {
  }

  /** Identity and creation stay; the time of the update moves exactly when a column changes, the completion time only
      with the status; no other row, team or membership is touched. */
  lemma UpdateFrame(db: Db, actor: int, taskId: int, input: PatchInput, now: int)
    requires taskId in db.tasks && db.tasks[taskId].id == taskId
    requires ExecUpdateTask(db, actor, taskId, input, now).1.Ok?
    ensures var after, was := ExecUpdateTask(db, actor, taskId, input, now).0, db.tasks[taskId];
            && taskId in after.tasks
            && var row := after.tasks[taskId];
               && row.id == taskId && row.teamId == was.teamId
               && row.createdBy == was.createdBy && row.createdAt == was.createdAt
               && row.updatedAt == (if SameColumns(was, row) then was.updatedAt else now)
               && row.completedAt == (if row.status == was.status then was.completedAt
                                      else if row.status == Done then Some(now) else None)
               && after.tasks == db.tasks[taskId := row]
               && after.teams == db.teams && after.members == db.members
               && (SameColumns(was, row) ==> after == db)
  {
    var after := ExecUpdateTask(db, actor, taskId, input, now).0;
    assert db.tasks == db.tasks[taskId := db.tasks[taskId]];
  }

  /** The columns a patch can name. */
  predicate SameColumns(a: Task, b: Task) {
    a.title == b.title && a.description == b.description && a.status == b.status && a.assigneeId == b.assigneeId
  }

  /** An audit row about one column, if it changed. */
  function RowIf(changed: bool, actor: int, field: Field, was: Option<string>, becomes: Option<string>, now: int):
    seq<Change>
  {
    if changed then [Change(actor, Updated, Some(field), was, becomes, now)] else []
  }

  function IdText(id: Option<int>): Option<string> {
    if id.Some? then Some(Text.FormatInt(id.value)) else None
  }

  function Head(text: string): string {
    if |text| <= 500 then text else text[..500]
  }

  /** The audit rows that lead from one row to another, in the order they are written: title, description (its first 500
      characters), status, assignee. */
  function AuditRows(was: Task, row: Task, actor: int, now: int): seq<Change> {
    RowIf(row.title != was.title, actor, TitleField, Some(was.title), Some(row.title), now)
    + RowIf(row.description != was.description, actor, DescriptionField,
            Some(Head(was.description)), Some(Head(row.description)), now)
    + RowIf(row.status != was.status, actor, StatusField,
            Some(StatusText(was.status)), Some(StatusText(row.status)), now)
    + RowIf(row.assigneeId != was.assigneeId, actor, AssigneeField, IdText(was.assigneeId), IdText(row.assigneeId), now)
  }

  lemma DiffSpelledOut(was: Task, patched: Task, row: Task, actor: int, now: int)
    requires SameColumns(patched, row)
    ensures Diff(was, patched, actor, now) == AuditRows(was, row, actor, now)
  {
  }

  /** The audit rows of a successful Update are those between the row as it was and as it is now. */
  lemma UpdateAudits(db: Db, actor: int, taskId: int, input: PatchInput, now: int)
    requires taskId in db.tasks && db.tasks[taskId].id == taskId
    requires ExecUpdateTask(db, actor, taskId, input, now).1.Ok?
    ensures var after, was := ExecUpdateTask(db, actor, taskId, input, now).0, db.tasks[taskId];
            && taskId in after.tasks
            && var before := if taskId in db.history then db.history[taskId] else [];
               var rows := AuditRows(was, after.tasks[taskId], actor, now);
               after.history == if rows == [] then db.history else db.history[taskId := before + rows]
  {
    var after, was := ExecUpdateTask(db, actor, taskId, input, now).0, db.tasks[taskId];
    var patched := Patched(was, ValidatePatch(input).value, now);
    DiffSpelledOut(was, patched, after.tasks[taskId], actor, now);
  }
}
