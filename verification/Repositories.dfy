/** The repositories: transactions as sequences of statements on a private copy of the tables, any of which may fail. */
module Repositories {
  import opened Wrappers
  import opened Domain
  import opened Store
  import opened Listing
  import Text
  import Serial

  /** The committed tables and their auto-increment counters. */
  class Database {
    var db: Db
    var nextTeam: int
    var nextTask: int

    ghost predicate Valid()
      reads this
    {
      Numbered(db, nextTeam, nextTask)
    }

    constructor ()
      ensures Valid() && db == EMPTY && nextTeam == 1 && nextTask == 1
    {
      db, nextTeam, nextTask := EMPTY, 1, 1;
    }
  }

  /** The counters are ahead of every id in use. */
  ghost predicate Numbered(db: Db, nextTeam: int, nextTask: int) {
    && Serial.Keyed(db)
    && (forall t | t in db.teams :: t < nextTeam)
    && (forall i | i in db.tasks :: i < nextTask)
  }

  lemma WithTaskNumbered(db: Db, nextTeam: int, nextTask: int, task: Task, rows: seq<Change>)
    requires Numbered(db, nextTeam, nextTask) && task.id < nextTask && rows != []
    requires task.id in db.tasks ==> Serial.SameIdentity(db.tasks[task.id], task)
    ensures Numbered(WithTask(db, task, rows), nextTeam, nextTask)
  {
    Serial.TaskWritten(db, task, rows);
  }

  // ---------- specifications ----------

  /** What one locked update does: `authorize` decides about the row as it is under the lock. */
  function UpdateRow(db: Db, id: int, patch: Patch, actor: int, authorize: Task -> Result<(), Error>, now: int):
    (Db, Response)
  {
    if id !in db.tasks then (db, Err(NotFound))
    else match authorize(db.tasks[id])
      case Err(e) => (db, Err(e))
      case Ok(_) => WriteUpdate(db, db.tasks[id], patch, actor, now)
  }

  /** Whether an update gets as far as the statement that fails; one that writes n audit rows has 4 + n of them. */
  predicate Breaks(db: Db, id: int, patch: Patch, actor: int, authorize: Task -> Result<(), Error>, now: int,
      fault: int) {
    || 0 <= fault <= 1
    || (id in db.tasks && authorize(db.tasks[id]).Ok?
        && var rows := Diff(db.tasks[id], Patched(db.tasks[id], patch, now), actor, now);
           rows != [] && 2 <= fault <= 3 + |rows|)
  }

  /** Whether the update commits and only the acknowledgement of its COMMIT is lost. */
  predicate Loses(db: Db, id: int, patch: Patch, actor: int, authorize: Task -> Result<(), Error>, now: int,
      fault: int) {
    && id in db.tasks && authorize(db.tasks[id]).Ok?
    && var rows := Diff(db.tasks[id], Patched(db.tasks[id], patch, now), actor, now);
       rows != [] && fault == 4 + |rows|
  }

  /** What a request comes to: nothing but an error if an access failed before its commit, the tables it wants with an
      error if only the answer to its commit was lost, else what it wants. */
  function Outcome(before: Db, want: (Db, Response), breaks: bool, lost: bool): (Db, Response) {
    if breaks then (before, Err(Internal)) else if lost then (want.0, Err(Internal)) else want
  }

  function Stamped(task: Task, id: int, now: int): Task {
    task.(id := id, createdAt := now, updatedAt := now, completedAt := if task.status == Done then Some(now) else None)
  }

  /** The private copy of a transaction that has written the row and some of its audit rows. */
  ghost predicate Staged(tx: Db, db: Db, task: Task, rows: seq<Change>) {
    tx == if rows == [] then db.(tasks := db.tasks[task.id := task]) else WithTask(db, task, rows)
  }

  lemma StageRow(tx: Db, db: Db, task: Task, rows: seq<Change>, row: Change)
    requires Staged(tx, db, task, rows)
    ensures Staged(tx.(history := tx.history[task.id := HistoryOf(tx, task.id) + [row]]), db, task, rows + [row])
  {
    assert HistoryOf(db, task.id) + rows + [row] == HistoryOf(db, task.id) + (rows + [row]);
    assert rows == [] ==> [] + [row] == rows + [row];
    assert HistoryOf(tx, task.id) == HistoryOf(db, task.id) + rows;
    assert tx.history[task.id := HistoryOf(tx, task.id) + [row]] == WithTask(db, task, rows + [row]).history;
  }

  lemma AssigneeTextInjective(a: Option<int>, b: Option<int>)
    ensures AssigneeText(a) == AssigneeText(b) <==> a == b
  {
    if a.Some? && b.Some? && AssigneeText(a) == AssigneeText(b) {
      Text.FormatInjective(a.value, b.value);
    }
  }

  /** Patches the locked row column by column and collects one audit row for each column that changes. */
  method BuildHistory(locked: Task, patch: Patch, actor: int, now: int) returns (task: Task, history: seq<Change>)
    ensures task == Patched(locked, patch, now)
    ensures history == Diff(locked, task, actor, now)
  {
    task, history := locked, [];
    ghost var target := Patched(locked, patch, now);
    if patch.title.Some? && patch.title.value != task.title {
      history := history + [Change(actor, Updated, Some(TitleField), Some(task.title), Some(patch.title.value), now)];
      task := task.(title := patch.title.value);
    }
    ghost var titleRow := RowFor(locked, target, TitleField, actor, now);
    assert history == titleRow;
    if patch.description.Some? && patch.description.value != task.description {
      var was := Text.Truncate(task.description, MAX_HISTORY_VALUE);
      var becomes := Text.Truncate(patch.description.value, MAX_HISTORY_VALUE);
      history := history + [Change(actor, Updated, Some(DescriptionField), Some(was), Some(becomes), now)];
      task := task.(description := patch.description.value);
    }
    ghost var descriptionRow := RowFor(locked, target, DescriptionField, actor, now);
    assert history == titleRow + descriptionRow;
    if patch.status.Some? && patch.status.value != task.status {
      var was, becomes := StatusText(task.status), StatusText(patch.status.value);
      history := history + [Change(actor, Updated, Some(StatusField), Some(was), Some(becomes), now)];
      task := task.(status := patch.status.value);
      if task.status == Done {
        task := task.(completedAt := Some(now));
      } else {
        task := task.(completedAt := None);
      }
    }
    ghost var statusRow := RowFor(locked, target, StatusField, actor, now);
    assert history == titleRow + descriptionRow + statusRow;
    if patch.assignee.Assign? {
      var was := AssigneeText(task.assigneeId);
      task := task.(assigneeId := patch.assignee.value);
      var becomes := AssigneeText(task.assigneeId);
      AssigneeTextInjective(locked.assigneeId, task.assigneeId);
      if was != becomes {
        history := history + [Change(actor, Updated, Some(AssigneeField), was, becomes, now)];
      }
    }
  }

  /** One INSERT per audit row into the private copy of an update's transaction. */
  method InsertHistory(staged: Db, ghost db: Db, task: Task, history: seq<Change>, fault: int)
    returns (tx: Db, failed: bool)
    requires Staged(staged, db, task, [])
    ensures failed <==> 0 <= fault < |history|
    ensures !failed ==> Staged(tx, db, task, history)
  {
    tx, failed := staged, false;
    var i := 0;
    while i < |history|
      invariant 0 <= i <= |history| && (fault < 0 || fault >= i)
      invariant Staged(tx, db, task, history[..i])
    {
      if fault == i {
        return tx, true;
      }
      StageRow(tx, db, task, history[..i], history[i]);
      tx := tx.(history := tx.history[task.id := HistoryOf(tx, task.id) + [history[i]]]);
      assert history[..i] + [history[i]] == history[..i + 1];
      i := i + 1;
    }
    assert history[..|history|] == history;
  }

  /** The task table and its audit log. `fault` numbers the statement of a transaction that fails; negative for none. */
  class TaskRepository {
    const store: Database

    constructor (store: Database)
      ensures this.store == store
    {
      this.store := store;
    }

    method Get(id: int, fault: int) returns (r: Result<Task, Error>)
      ensures r == if fault == 0 then Err(Internal)
                   else if id in store.db.tasks then Ok(store.db.tasks[id]) else Err(NotFound)
    {
      if fault == 0 {
        return Err(Internal);
      }
      r := if id in store.db.tasks then Ok(store.db.tasks[id]) else Err(NotFound);
    }

    /** Count (0) and page (1) of the rows that match, in one snapshot. */
    method List(filters: Filters, fault: int) returns (r: Result<(seq<Task>, int), Error>)
      ensures var f := filters.Normalized();
              r == if 0 <= fault <= 1 || !OffsetOk(f) then Err(Internal)
                   else Ok((Query(store.db.tasks, f).items, Query(store.db.tasks, f).total))
    {
      var f := filters.Normalized();
      if fault == 0 {
        return Err(Internal);
      }
      var rows := Rows(store.db.tasks, f);
      var total := |rows|;
      OffsetIsProduct(f);
      var offset := Wrap64((f.page - 1) * f.perPage);
      if fault == 1 || offset < 0 {
        return Err(Internal);
      }
      r := Ok((Slice(rows, offset, f.perPage), total));
    }

    /** BEGIN (0), INSERT of the task (1), INSERT of its first audit row (2), COMMIT (3), its acknowledgement (4). */
    method Create(draft: Task, now: int, fault: int) returns (r: Response)
      requires store.Valid()
      modifies store
      ensures store.Valid() && store.nextTeam == old(store.nextTeam)
      ensures var row := Stamped(draft, old(store.nextTask), now);
              var want := (WithTask(old(store.db), row, [CreatedRow(row.createdBy, now)]), Ok(TaskReply(row)));
              (store.db, r) == Outcome(old(store.db), want, 0 <= fault <= 3, fault == 4)
    {
      var tx := store.db;
      if fault == 0 {
        return Err(Internal);
      }
      var task := draft.(createdAt := now, updatedAt := now);
      if task.status == Done {
        task := task.(completedAt := Some(now));
      } else {
        task := task.(completedAt := None);
      }
      if fault == 1 {
        return Err(Internal);
      }
      task := task.(id := store.nextTask);
      store.nextTask := store.nextTask + 1;
      tx := tx.(tasks := tx.tasks[task.id := task]);
      if fault == 2 {
        return Err(Internal);
      }
      var row := CreatedRow(task.createdBy, now);
      tx := tx.(history := tx.history[task.id := HistoryOf(tx, task.id) + [row]]);
      if fault == 3 {
        return Err(Internal);
      }
      WithTaskNumbered(store.db, store.nextTeam, store.nextTask, task, [row]);
      store.db := tx;
      if fault == 4 {
        return Err(Internal);
      }
      r := Ok(TaskReply(task));
    }

    /** BEGIN (0), SELECT ... FOR UPDATE (1), UPDATE (2), one INSERT per audit row (3, ...), COMMIT, its
        acknowledgement. */
    method Update(id: int, patch: Patch, actor: int, authorize: Task -> Result<(), Error>, now: int, fault: int)
      returns (r: Response)
      requires store.Valid()
      modifies store
      ensures store.Valid() && store.nextTeam == old(store.nextTeam) && store.nextTask == old(store.nextTask)
      ensures (store.db, r) == Outcome(old(store.db), UpdateRow(old(store.db), id, patch, actor, authorize, now),
                                       Breaks(old(store.db), id, patch, actor, authorize, now, fault),
                                       Loses(old(store.db), id, patch, actor, authorize, now, fault))
    {
      var tx := store.db;
      if fault == 0 || fault == 1 {
        return Err(Internal);
      }
      if id !in tx.tasks {
        return Err(NotFound);
      }
      var locked := tx.tasks[id];
      var verdict := authorize(locked);
      if verdict.Err? {
        return Err(verdict.error);
      }
      var task, history := BuildHistory(locked, patch, actor, now);
      if |history| == 0 {
        NoRowsNoChange(locked, patch, actor, now);
        return Ok(TaskReply(task));
      }
      task := task.(updatedAt := now);
      if fault == 2 {
        return Err(Internal);
      }
      tx := tx.(tasks := tx.tasks[id := task]);
      var failed;
      tx, failed := InsertHistory(tx, store.db, task, history, fault - 3);
      if failed || fault == 3 + |history| {
        return Err(Internal);
      }
      WithTaskNumbered(store.db, store.nextTeam, store.nextTask, task, history);
      store.db := tx;
      if fault == 4 + |history| {
        return Err(Internal);
      }
      r := Ok(TaskReply(task));
    }
  }

  /** Teams and memberships; (team, user) is the primary key of the membership table. */
  class TeamRepository {
    const store: Database

    constructor (store: Database)
      ensures this.store == store
    {
      this.store := store;
    }

    method GetMemberRole(team: int, user: int, fault: int) returns (r: Result<Role, Error>)
      ensures r == if fault == 0 then Err(Internal)
                   else if (team, user) in store.db.members then Ok(store.db.members[(team, user)].role)
                   else Err(NotFound)
    {
      if fault == 0 {
        return Err(Internal);
      }
      r := if (team, user) in store.db.members then Ok(store.db.members[(team, user)].role) else Err(NotFound);
    }

    method CheckMember(team: int, user: int, fault: int) returns (r: Result<bool, Error>)
      ensures r == if fault == 0 then Err(Internal) else Ok(IsMember(store.db, team, user))
    {
      if fault == 0 {
        return Err(Internal);
      }
      r := Ok((team, user) in store.db.members);
    }

    /** INSERT (0), its acknowledgement (1). The foreign key wants a team, and the primary key refuses a second
        membership, whatever its role. */
    method AddMember(team: int, user: int, invitedBy: int, role: Role, fault: int) returns (r: Result<(), Error>)
      requires store.Valid()
      modifies store
      ensures store.Valid() && store.nextTeam == old(store.nextTeam) && store.nextTask == old(store.nextTask)
      ensures r == if fault == 0 then Err(Internal)
                   else if IsMember(old(store.db), team, user) then Err(Conflict)
                   else if team !in old(store.db).teams || fault == 1 then Err(Internal)
                   else Ok(())
      ensures store.db == if fault != 0 && !IsMember(old(store.db), team, user) && team in old(store.db).teams
                          then WithMember(old(store.db), team, user, Membership(role, Some(invitedBy)))
                          else old(store.db)
    {
      if fault == 0 {
        return Err(Internal);
      }
      if (team, user) in store.db.members {
        return Err(Conflict);
      }
      if team !in store.db.teams {
        return Err(Internal);
      }
      store.db := store.db.(members := store.db.members[(team, user) := Membership(role, Some(invitedBy))]);
      if fault == 1 {
        return Err(Internal);
      }
      r := Ok(());
    }

    /** BEGIN (0), INSERT of the team (1), INSERT of its owner (2), COMMIT (3), its acknowledgement (4),
        read back (5): when only one of the last two fails, the team exists although the caller is told of an error. */
    method Create(name: string, description: string, creator: int, fault: int) returns (r: Response)
      requires store.Valid()
      modifies store
      ensures store.Valid() && store.nextTask == old(store.nextTask)
      ensures var id := old(store.nextTeam);
              var team := Team(name, description, creator);
              var made := WithMember(old(store.db).(teams := old(store.db).teams[id := team]),
                                     id, creator, Membership(Owner, None));
              (store.db, r) == Outcome(old(store.db), (made, Ok(TeamReply(id))), 0 <= fault <= 3, 4 <= fault <= 5)
    {
      var tx := store.db;
      if fault == 0 || fault == 1 {
        return Err(Internal);
      }
      var id := store.nextTeam;
      store.nextTeam := store.nextTeam + 1;
      tx := tx.(teams := tx.teams[id := Team(name, description, creator)]);
      if fault == 2 {
        return Err(Internal);
      }
      tx := tx.(members := tx.members[(id, creator) := Membership(Owner, None)]);
      if fault == 3 {
        return Err(Internal);
      }
      store.db := tx;
      if fault == 4 || fault == 5 {
        return Err(Internal);
      }
      r := Ok(TeamReply(id));
    }
  }
}
