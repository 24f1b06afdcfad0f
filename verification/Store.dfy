/** The database as a value, the row-level rules of the repositories, and each service operation done in one go. */
module Store {
  import opened Wrappers
  import opened Domain
  import Text

  datatype Team = Team(name: string, description: string, createdBy: int)

  datatype Membership = Membership(role: Role, invitedBy: Option<int>)

  datatype Action = Created | Updated

  /** The columns an audit row can name. */
  datatype Field = TitleField | DescriptionField | StatusField | AssigneeField

  /** A row of task_history; its task is the key it is stored under, its id is kept apart. */
  datatype Change = Change(
    changedBy: int, action: Action, field: Option<Field>,
    oldValue: Option<string>, newValue: Option<string>, at: int)

  /** The committed tables. History holds, per task, its rows in the order they were committed. */
  datatype Db = Db(
    teams: map<int, Team>, members: map<(int, int), Membership>,
    tasks: map<int, Task>, history: map<int, seq<Change>>)

  const EMPTY := Db(map[], map[], map[], map[])

  // ---------- the audit rows of an update ----------

  const MAX_HISTORY_VALUE := 500

  function AssigneeText(assignee: Option<int>): Option<string> {
    match assignee
    case None => None
    case Some(id) => Some(Text.FormatInt(id))
  }

  /** The text an audit row stores for a column of a task. */
  function Column(task: Task, field: Field): Option<string> {
    match field
    case TitleField => Some(task.title)
    case DescriptionField => Some(Text.Truncate(task.description, MAX_HISTORY_VALUE))
    case StatusField => Some(StatusText(task.status))
    case AssigneeField => AssigneeText(task.assigneeId)
  }

  predicate Differs(before: Task, after: Task, field: Field) {
    match field
    case TitleField => before.title != after.title
    case DescriptionField => before.description != after.description
    case StatusField => before.status != after.status
    case AssigneeField => before.assigneeId != after.assigneeId
  }

  function RowFor(before: Task, after: Task, field: Field, actor: int, now: int): seq<Change> {
    if Differs(before, after, field)
    then [Change(actor, Updated, Some(field), Column(before, field), Column(after, field), now)]
    else []
  }

  /** One row for each column whose value changed, in the fixed column order, and no other row. */
  function Diff(before: Task, after: Task, actor: int, now: int): seq<Change> {
    RowFor(before, after, TitleField, actor, now) + RowFor(before, after, DescriptionField, actor, now)
    + RowFor(before, after, StatusField, actor, now) + RowFor(before, after, AssigneeField, actor, now)
  }

  /** The row with the patch applied; completed_at follows the status only when the status changes. */
  function Patched(task: Task, patch: Patch, now: int): Task {
    var status := patch.status.GetOr(task.status);
    task.(title := patch.title.GetOr(task.title),
          description := patch.description.GetOr(task.description),
          status := status,
          completedAt := if status == task.status then task.completedAt
                         else if status == Done then Some(now) else None,
          assigneeId := if patch.assignee.Assign? then patch.assignee.value else task.assigneeId)
  }

  /** No audit rows means the patch changed nothing at all: returning the row without writing it loses nothing. */
  lemma NoRowsNoChange(task: Task, patch: Patch, actor: int, now: int)
    ensures Diff(task, Patched(task, patch, now), actor, now) == [] <==> Patched(task, patch, now) == task
  {
  }

  /** Patching twice writes no further rows. */
  lemma SecondPatchIsSilent(task: Task, patch: Patch, actor: int, now: int, later: int)
    ensures var once := Patched(task, patch, now);
            Patched(once, patch, later) == once && Diff(once, Patched(once, patch, later), actor, later) == []
  {
  }

  // ---------- reads ----------

  function MemberRole(db: Db, team: int, user: int): (r: Result<Role, Error>)
    ensures r.Err? ==> r.error == Forbidden
  {
    if (team, user) in db.members then Ok(db.members[(team, user)].role) else Err(Forbidden)
  }

  predicate IsMember(db: Db, team: int, user: int) {
    (team, user) in db.members
  }

  predicate AssigneeAllowed(db: Db, team: int, assignee: AssigneePatch) {
    assignee.Assign? && assignee.value.Some? ==> IsMember(db, team, assignee.value.value)
  }

  function HistoryOf(db: Db, task: int): seq<Change> {
    if task in db.history then db.history[task] else []
  }

  // ---------- committed writes ----------

  function WithTask(db: Db, task: Task, changes: seq<Change>): Db {
    db.(tasks := db.tasks[task.id := task], history := db.history[task.id := HistoryOf(db, task.id) + changes])
  }

  function WithMember(db: Db, team: int, user: int, member: Membership): Db {
    db.(members := db.members[(team, user) := member])
  }

  // ---------- requests and responses ----------

  datatype InviteInput = InviteInput(userId: int, email: string, role: string) {
    function Normalized(): InviteInput {
      InviteInput(userId, Text.TrimSpace(email), if role == "" then "member" else role)
    }

    /** Exactly one way to name the invitee, and a known role. */
    function Validate(): Result<Role, Error> {
      if (email != "") == (userId != 0) then Err(Validation)
      else match RoleOf(role) case Some(r) => Ok(r) case None => Err(Validation)
    }
  }

  datatype CreateInput = CreateInput(
    teamId: int, title: string, description: string, status: string, assigneeId: Option<int>)

  /** A request; `invitee` is what the users table answers for the person named in an invitation. */
  datatype Call =
    | CreateTeam(actor: int, name: string, description: string)
    | Invite(actor: int, team: int, input: InviteInput, invitee: Option<int>)
    | CreateTask(actor: int, create: CreateInput)
    | UpdateTask(actor: int, taskId: int, patch: PatchInput)

  datatype Reply =
    | TeamReply(team: int)
    | MemberReply(teamId: int, user: int, member: Membership)
    | TaskReply(task: Task)

  type Response = Result<Reply, Error>

  const MAX_TEAM_NAME_LENGTH := 120

  function ValidateTeamName(name: string): Result<string, Error> {
    var trimmed := Text.TrimSpace(name);
    if trimmed == "" || |trimmed| > MAX_TEAM_NAME_LENGTH then Err(Validation) else Ok(trimmed)
  }

  /** Title and status checks of TaskService.Create; an empty status means todo. */
  function ValidateCreate(create: CreateInput): (r: Result<(string, Status), Error>)
    ensures r.Err? ==> r.error == Validation
  {
    match ValidateTitle(create.title)
    case Err(e) => Err(e)
    case Ok(title) =>
      if create.status == "" then Ok((title, Todo))
      else match StatusOf(create.status) case Some(s) => Ok((title, s)) case None => Err(Validation)
  }

  function NewTask(create: CreateInput, valid: (string, Status), actor: int, id: int, now: int): Task {
    Task(id, create.teamId, valid.0, create.description, valid.1, create.assigneeId, actor, now, now,
         if valid.1 == Done then Some(now) else None)
  }

  function CreatedRow(actor: int, now: int): Change {
    Change(actor, Created, None, None, None, now)
  }

  /** The decisions TeamService.Invite takes once it knows the actor's role. */
  function ResolveInvite(role: Role, actor: int, input: InviteInput, invitee: Option<int>): Result<(int, Role), Error> {
    match input.Normalized().Validate()
    case Err(e) => Err(e)
    case Ok(target) =>
      match CanInviteWithRole(role, target)
      case Err(e) => Err(e)
      case Ok(_) =>
        if invitee.None? then Err(NotFound)
        else if invitee.value == actor then Err(Validation)
        else Ok((invitee.value, target))
  }

  // ---------- each operation executed alone ----------

  function ExecCreateTeam(db: Db, actor: int, name: string, description: string, id: int): (Db, Response) {
    match ValidateTeamName(name)
    case Err(e) => (db, Err(e))
    case Ok(trimmed) =>
      (WithMember(db.(teams := db.teams[id := Team(trimmed, description, actor)]), id, actor, Membership(Owner, None)),
       Ok(TeamReply(id)))
  }

  function ExecInvite(db: Db, actor: int, team: int, input: InviteInput, invitee: Option<int>): (Db, Response) {
    match MemberRole(db, team, actor)
    case Err(e) => (db, Err(e))
    case Ok(role) =>
      match ResolveInvite(role, actor, input, invitee)
      case Err(e) => (db, Err(e))
      case Ok((user, target)) =>
        if IsMember(db, team, user) then (db, Err(Conflict))
        else
          var member := Membership(target, Some(actor));
          (WithMember(db, team, user, member), Ok(MemberReply(team, user, member)))
  }

  function ExecCreateTask(db: Db, actor: int, create: CreateInput, id: int, now: int): (Db, Response) {
    match ValidateCreate(create)
    case Err(e) => (db, Err(e))
    case Ok(valid) =>
      match MemberRole(db, create.teamId, actor)
      case Err(e) => (db, Err(e))
      case Ok(_) =>
        if !AssigneeAllowed(db, create.teamId, Assign(create.assigneeId)) then (db, Err(Validation))
        else
          var task := NewTask(create, valid, actor, id, now);
          (WithTask(db, task, [CreatedRow(actor, now)]), Ok(TaskReply(task)))
  }

  /** The transaction of TaskRepository.Update on a row it has locked and authorized. */
  function WriteUpdate(db: Db, task: Task, patch: Patch, actor: int, now: int): (Db, Response) {
    var patched := Patched(task, patch, now);
    var changes := Diff(task, patched, actor, now);
    if changes == [] then (db, Ok(TaskReply(task)))
    else
      var updated := patched.(updatedAt := now);
      (WithTask(db, updated, changes), Ok(TaskReply(updated)))
  }

  function ExecUpdateTask(db: Db, actor: int, taskId: int, input: PatchInput, now: int): (Db, Response) {
    match ValidatePatch(input)
    case Err(e) => (db, Err(e))
    case Ok(patch) =>
      if taskId !in db.tasks then (db, Err(NotFound))
      else
        var task := db.tasks[taskId];
        match MemberRole(db, task.teamId, actor)
        case Err(e) => (db, Err(e))
        case Ok(role) =>
          if !AssigneeAllowed(db, task.teamId, patch.assignee) then (db, Err(Validation))
          else
            match CanUpdateTask(patch, AccessOf(role, task, actor))
            case Err(e) => (db, Err(e))
            case Ok(_) => WriteUpdate(db, task, patch, actor, now)
  }

  /** One request run with nobody else around: `id` is the auto-increment id it gets, `now` its clock reading. */
  function Exec(db: Db, call: Call, id: int, now: int): (Db, Response) {
    match call
    case CreateTeam(actor, name, description) => ExecCreateTeam(db, actor, name, description, id)
    case Invite(actor, team, input, invitee) => ExecInvite(db, actor, team, input, invitee)
    case CreateTask(actor, create) => ExecCreateTask(db, actor, create, id, now)
    case UpdateTask(actor, taskId, patch) => ExecUpdateTask(db, actor, taskId, patch, now)
  }

  /** Auto-increment never hands out an id twice. */
  predicate FreshId(db: Db, call: Call, id: int) {
    match call
    case CreateTeam(_, _, _) => id !in db.teams
    case CreateTask(_, _) => id !in db.tasks && id !in db.history
    case _ => true
  }
}
