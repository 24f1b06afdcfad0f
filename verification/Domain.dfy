/** The service's entities, its input validation and its two authorization rules. */
module Domain {
  import opened Wrappers
  import Text

  /** The sentinel errors; Internal stands for every wrapped infrastructure error. */
  datatype Error = NotFound | Forbidden | Validation | Conflict | Internal

  // ---------- roles ----------

  datatype Role = Owner | Admin | Member {
    predicate CanInvite() {
      Owner? || Admin?
    }

    predicate IsOwnerOrAdmin() {
      Owner? || Admin?
    }
  }

  function RoleOf(text: string): Option<Role> {
    if text == "owner" then Some(Owner)
    else if text == "admin" then Some(Admin)
    else if text == "member" then Some(Member)
    else None
  }

  /** Who may hand out which role: owners everything but ownership, admins plain membership only. */
  function CanInviteWithRole(actor: Role, target: Role): (r: Result<(), Error>)
    ensures r.Ok? <==> (actor.Owner? && !target.Owner?) || (actor.Admin? && target.Member?)
    ensures r == Err(Validation) <==> target.Owner? && !actor.Member?
  {
    if !actor.CanInvite() then Err(Forbidden)
    else if target == Owner then Err(Validation)
    else if target == Admin && actor != Owner then Err(Forbidden)
    else Ok(())
  }

  // ---------- tasks ----------

  datatype Status = Todo | InProgress | Done

  function StatusOf(text: string): Option<Status> {
    if text == "todo" then Some(Todo)
    else if text == "in_progress" then Some(InProgress)
    else if text == "done" then Some(Done)
    else None
  }

  function StatusText(status: Status): (text: string)
    ensures StatusOf(text) == Some(status)
    ensures ':' !in text
  {
    match status
    case Todo => "todo"
    case InProgress => "in_progress"
    case Done => "done"
  }

  const MAX_TITLE_LENGTH := 200
  const DEFAULT_PAGE_SIZE := 20
  const MAX_PAGE_SIZE := 100

  datatype Task = Task(
    id: int, teamId: int, title: string, description: string, status: Status,
    assigneeId: Option<int>, createdBy: int, createdAt: int, updatedAt: int, completedAt: Option<int>)

  /** OptionalInt64: leave the assignee alone, or set it (to nobody, for an explicit null). */
  datatype AssigneePatch = Keep | Assign(value: Option<int>)

  /** A patch as it arrives: the status is still free text. */
  datatype PatchInput = PatchInput(
    title: Option<string>, description: Option<string>, status: Option<string>, assignee: AssigneePatch)

  /** A patch that passed validation. */
  datatype Patch = Patch(
    title: Option<string>, description: Option<string>, status: Option<Status>, assignee: AssigneePatch)

  function ValidateTitle(title: string): (r: Result<string, Error>)
    ensures r.Ok? ==> r.value != "" && |r.value| <= MAX_TITLE_LENGTH
    ensures r.Err? ==> r.error == Validation
  {
    var trimmed := Text.TrimSpace(title);
    if trimmed == "" || |trimmed| > MAX_TITLE_LENGTH then Err(Validation) else Ok(trimmed)
  }

  /** The checks TaskService.Update makes before it touches any store. */
  function ValidatePatch(input: PatchInput): (r: Result<Patch, Error>)
    ensures r.Ok? <==>
      && (input.title.Some? || input.description.Some? || input.status.Some? || input.assignee.Assign?)
      && (input.status.Some? ==> StatusOf(input.status.value).Some?)
      && (input.title.Some? ==> 0 < |Text.TrimSpace(input.title.value)| <= MAX_TITLE_LENGTH)
    ensures r.Err? ==> r.error == Validation
    ensures r.Ok? ==>
      && r.value.title == (if input.title.Some? then Some(Text.TrimSpace(input.title.value)) else None)
      && r.value.description == input.description && r.value.assignee == input.assignee
      && (input.status.None? ==> r.value.status.None?)
      && (input.status.Some? ==> r.value.status.Some? && StatusText(r.value.status.value) == input.status.value)
  {
    if input.title.None? && input.description.None? && input.status.None? && input.assignee.Keep? then
      Err(Validation)
    else if input.status.Some? && StatusOf(input.status.value).None? then
      Err(Validation)
    else
      var status := if input.status.Some? then StatusOf(input.status.value) else None;
      match input.title
      case None => Ok(Patch(None, input.description, status, input.assignee))
      case Some(text) =>
        match ValidateTitle(text)
        case Err(e) => Err(e)
        case Ok(title) => Ok(Patch(Some(title), input.description, status, input.assignee))
  }

  datatype AccessInfo = AccessInfo(teamRole: Role, isCreator: bool, isAssignee: bool)

  function AccessOf(role: Role, task: Task, actor: int): AccessInfo {
    AccessInfo(role, task.createdBy == actor, task.assigneeId == Some(actor))
  }

  /** Owners, admins and the creator may change anything; the assignee only status and description. */
  function CanUpdateTask(patch: Patch, info: AccessInfo): (r: Result<(), Error>)
    ensures r.Ok? <==>
      || info.teamRole != Member
      || info.isCreator
      || (info.isAssignee && patch.title.None? && patch.assignee.Keep?)
    ensures r.Err? ==> r.error == Forbidden
  {
    if info.teamRole.IsOwnerOrAdmin() then Ok(())
    else if info.isCreator then Ok(())
    else if info.isAssignee then
      if patch.title.Some? || patch.assignee.Assign? then Err(Forbidden) else Ok(())
    else Err(Forbidden)
  }

  // ---------- list filters and pages ----------

  datatype Filters = Filters(teamId: int, status: string, assigneeId: Option<int>, page: int, perPage: int) {
    predicate IsNormalized() {
      page >= 1 && 1 <= perPage <= MAX_PAGE_SIZE
    }

    /** Clamps page and size; the other fields, and whatever is in range already, stay. */
    function Normalized(): (f: Filters)
      ensures f.IsNormalized()
      ensures f.teamId == teamId && f.status == status && f.assigneeId == assigneeId
      ensures page >= 1 ==> f.page == page
      ensures 1 <= perPage <= MAX_PAGE_SIZE ==> f.perPage == perPage
    {
      Filters(teamId, status, assigneeId,
              if page < 1 then 1 else page,
              if perPage <= 0 then DEFAULT_PAGE_SIZE else if perPage > MAX_PAGE_SIZE then MAX_PAGE_SIZE else perPage)
    }

    predicate Valid() {
      teamId > 0 && (status == "" || StatusOf(status).Some?)
    }

    /** The WHERE clause of the list query. */
    predicate Matches(task: Task) {
      && task.teamId == teamId
      && (status != "" ==> StatusText(task.status) == status)
      && (assigneeId.Some? ==> task.assigneeId == assigneeId)
    }
  }

  datatype Page = Page(items: seq<Task>, total: int, page: int, perPage: int, hasNext: bool)

  // ---------- Go's 64-bit int ----------

  const MAX_INT64 := 0x7FFF_FFFF_FFFF_FFFF
  const TWO_TO_64 := 0x1_0000_0000_0000_0000

  /** Two's-complement wrap-around of a product. */
  function Wrap64(v: int): (w: int)
    ensures -MAX_INT64 - 1 <= w <= MAX_INT64
    ensures -MAX_INT64 - 1 <= v <= MAX_INT64 ==> w == v
  {
    if -MAX_INT64 - 1 <= v <= MAX_INT64 then v
    else if v % TWO_TO_64 > MAX_INT64 then v % TWO_TO_64 - TWO_TO_64
    else v % TWO_TO_64
  }
}
